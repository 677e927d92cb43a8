/** SFTP directory replies cut short (hub/internal/host/sftp_adapter.go:411-561).

    A cut before the extended block of an entry makes the entry malformed, and
    parsing stops.  A cut inside the block does not: what is left of the block is
    parsed on, as if it were the next entry.
  */
module SftpTruncation {
  import opened Option
  import opened Octets
  import opened SftpName

  // --- Where a cut matters ---

  lemma TakeIfCut(present: bool, n: nat, part: Bytes, tail: Bytes, k: nat)
    requires |part| == (if present then n else 0) && k <= |part| + |tail|
    ensures k < |part| ==> TakeIf(present, n, (part + tail)[..k]).Malformed?
    ensures k >= |part| ==> TakeIf(present, n, (part + tail)[..k]) == Parsed(part, tail[..k - |part|])
  {
    if k >= |part| {
      assert (part + tail)[..k] == part + tail[..k - |part|];
      TakeIfRoundTrip(present, n, part, tail[..k - |part|]);
    }
  }

  lemma StringCut(b: Bytes, tail: Bytes, k: nat)
    requires FitsU32(|b|) && k <= 4 + |b| + |tail|
    ensures k < 4 + |b| ==> TakeString((PutString(b) + tail)[..k]).Malformed?
    ensures k >= 4 + |b| ==> TakeString((PutString(b) + tail)[..k]) == Parsed(b, tail[..k - 4 - |b|])
  {
    if k >= 4 + |b| {
      assert (PutString(b) + tail)[..k] == PutString(b) + tail[..k - 4 - |b|];
      StringRoundTrip(b, tail[..k - 4 - |b|]);
    } else if k >= 4 {
      assert (PutString(b) + tail)[..k] == PutU32(|b|) + b[..k - 4];
      U32RoundTrip(|b|, b[..k - 4]);
    }
  }

  lemma PartsCut(filename: Bytes, flags: nat, size: Bytes, owner: Bytes, perm: Bytes, times: Bytes, tail: Bytes, k: nat)
    requires FitsU32(flags)
    requires |size| == (if Bit(flags, ATTR_SIZE) then 8 else 0) && |owner| == (if Bit(flags, ATTR_UIDGID) then 8 else 0)
    requires |perm| == (if Bit(flags, ATTR_PERMISSIONS) then 4 else 0)
    requires |times| == (if Bit(flags, ATTR_ACMODTIME) then 8 else 0)
    requires k < 4 + |size| + |owner| + |perm| + |times|
    ensures ParseAttrs(filename, (PutU32(flags) + (size + (owner + (perm + (times + tail)))))[..k]).Malformed?
  {
    if k >= 4 {
      var body := size + (owner + (perm + (times + tail)));
      assert (PutU32(flags) + body)[..k] == PutU32(flags) + body[..k - 4];
      U32RoundTrip(flags, body[..k - 4]);
      var k1 := k - 4;
      TakeIfCut(Bit(flags, ATTR_SIZE), 8, size, owner + (perm + (times + tail)), k1);
      if k1 >= |size| {
        var k2 := k1 - |size|;
        TakeIfCut(Bit(flags, ATTR_UIDGID), 8, owner, perm + (times + tail), k2);
        if k2 >= |owner| {
          var k3 := k2 - |owner|;
          TakeIfCut(Bit(flags, ATTR_PERMISSIONS), 4, perm, times + tail, k3);
          if k3 >= |perm| {
            TakeIfCut(Bit(flags, ATTR_ACMODTIME), 8, times, tail, k3 - |perm|);
          }
        }
      }
    }
  }

  /** The length of the attributes before the extended block. */
  function FixedAttrs(a: Attrs): (n: nat)
    requires AttrsOk(a)
    ensures n == |PutAttrs(a)| - |PutExtended(a)|
  {
    4 + |PutSize(a)| + |PutOwner(a)| + |PutPermissions(a)| + |PutTimes(a)|
  }

  lemma CutInTail(front: Bytes, tail: Bytes, whole: Bytes, k: nat)
    requires whole == front + tail && |front| <= k <= |whole|
    ensures whole[..k] == front + tail[..k - |front|]
  {
  }

  lemma CutInLast(a: Bytes, b: Bytes, c: Bytes, d: Bytes, e: Bytes, f: Bytes, k: nat)
    requires |a| + |b| + |c| + |d| + |e| <= k <= |a| + |b| + |c| + |d| + |e| + |f|
    ensures (a + (b + (c + (d + (e + f)))))[..k]
            == a + (b + (c + (d + (e + f[..k - |a| - |b| - |c| - |d| - |e|]))))
  {
    CutInTail(e, f, e + f, k - |a| - |b| - |c| - |d|);
    CutInTail(d, e + f, d + (e + f), k - |a| - |b| - |c|);
    CutInTail(c, d + (e + f), c + (d + (e + f)), k - |a| - |b|);
    CutInTail(b, c + (d + (e + f)), b + (c + (d + (e + f))), k - |a|);
    CutInTail(a, b + (c + (d + (e + f))), a + (b + (c + (d + (e + f)))), k);
  }

  /** A cut at or after the fixed part leaves it whole. */
  lemma FixedPartKept(a: Attrs, k: nat)
    requires AttrsOk(a) && FixedAttrs(a) <= k <= |PutAttrs(a)|
    ensures PutAttrs(a)[..k] == PutU32(Flags(a)) + (PutSize(a) + (PutOwner(a) + (PutPermissions(a)
            + (PutTimes(a) + PutExtended(a)[..k - FixedAttrs(a)]))))
  {
    CutInLast(PutU32(Flags(a)), PutSize(a), PutOwner(a), PutPermissions(a), PutTimes(a), PutExtended(a), k);
  }

  /** Cut attributes are malformed exactly before the extended block. */
  lemma AttrsCut(filename: Bytes, a: Attrs, k: nat)
    requires AttrsOk(a) && k < |PutAttrs(a)|
    ensures ParseAttrs(filename, PutAttrs(a)[..k]).Malformed? <==> k < FixedAttrs(a)
  {
    FlagsReadBack(a);
    if k < FixedAttrs(a) {
      PartsCut(filename, Flags(a), PutSize(a), PutOwner(a), PutPermissions(a), PutTimes(a), PutExtended(a), k);
    } else {
      FixedPartKept(a, k);
      PartsRoundTrip(filename, Flags(a), PutSize(a), PutOwner(a), PutPermissions(a), PutTimes(a),
                     PutExtended(a)[..k - FixedAttrs(a)]);
    }
  }

  /** The length of an entry before its extended block; all of it where there is none. */
  function FixedLength(item: Item): (n: nat)
    requires ItemOk(item)
    ensures n == |PutItem(item)| - |PutExtended(item.attrs)|
  {
    8 + |item.filename| + |item.longname| + FixedAttrs(item.attrs)
  }

  lemma NamesCut(parse: Bytes -> Parsed<Entry>, filename: Bytes, longname: Bytes, tail: Bytes, k: nat)
    requires IsParser(parse) && FitsU32(|filename|) && FitsU32(|longname|) && k <= 8 + |filename| + |longname| + |tail|
    ensures var fixed, s := 8 + |filename| + |longname|, (PutString(filename) + (PutString(longname) + tail))[..k];
            && (k < fixed ==> parse(s).Malformed?)
            && (k >= fixed ==> parse(s) == ParseAttrs(filename, tail[..k - fixed]))
  {
    var k1 := k - 4 - |filename|;
    var s := (PutString(filename) + (PutString(longname) + tail))[..k];
    StringCut(filename, PutString(longname) + tail, k);
    assert SameOn(parse, s);
    if k1 >= 0 {
      SecondNameCut(filename, longname, tail, k1, s);
    }
  }

  lemma SecondNameCut(filename: Bytes, longname: Bytes, tail: Bytes, k: nat, s: Bytes)
    requires FitsU32(|longname|) && k <= 4 + |longname| + |tail|
    requires TakeString(s) == Parsed(filename, (PutString(longname) + tail)[..k])
    ensures k < 4 + |longname| ==> ParseEntry(s).Malformed?
    ensures k >= 4 + |longname| ==> ParseEntry(s) == ParseAttrs(filename, tail[..k - 4 - |longname|])
  {
    StringCut(longname, tail, k);
  }

  lemma ItemCutAt(parse: Bytes -> Parsed<Entry>, item: Item, k: nat)
    requires IsParser(parse) && ItemOk(item) && k <= |PutItem(item)|
    ensures var names, s := 8 + |item.filename| + |item.longname|, PutItem(item)[..k];
            && (k < names ==> parse(s).Malformed?)
            && (k >= names ==> parse(s) == ParseAttrs(item.filename, PutAttrs(item.attrs)[..k - names]))
  {
    NamesCut(parse, item.filename, item.longname, PutAttrs(item.attrs), k);
  }

  /** A cut entry is malformed exactly before its extended block. */
  lemma ItemCut(parse: Bytes -> Parsed<Entry>, item: Item, k: nat)
    requires IsParser(parse) && ItemOk(item) && k < |PutItem(item)|
    ensures parse(PutItem(item)[..k]).Malformed? <==> k < FixedLength(item)
  {
    var names := 8 + |item.filename| + |item.longname|;
    ItemCutAt(parse, item, k);
    if k >= names {
      AttrsCut(item.filename, item.attrs, k - names);
    }
  }

  /** A beginning of the wire form is malformed exactly if shorter than `fixed`. */
  ghost predicate MalformedBelow(parse: Bytes -> Parsed<Entry>, wire: Bytes, fixed: nat) {
    forall k :: 0 <= k < |wire| ==> (parse(wire[..k]).Malformed? <==> k < fixed)
  }

  ghost predicate AllMalformedBelow(parse: Bytes -> Parsed<Entry>, wires: seq<Bytes>, fixed: seq<nat>) {
    |fixed| == |wires| && forall i :: 0 <= i < |wires| ==> MalformedBelow(parse, wires[i], fixed[i])
  }

  /** How many of the wire forms the first k bytes hold whole. */
  function Complete(wires: seq<Bytes>, k: nat): (n: nat)
    ensures n <= |wires|
  {
    if wires == [] || k < |wires[0]| then 0 else 1 + Complete(wires[1..], k - |wires[0]|)
  }

  function Sizes(wires: seq<Bytes>): (sizes: seq<nat>)
    ensures |sizes| == |wires| && forall i :: 0 <= i < |wires| ==> sizes[i] == |wires[i]|
  {
    seq(|wires|, i requires 0 <= i < |wires| => |wires[i]|)
  }

  function Sum(ns: seq<nat>): nat {
    if ns == [] then 0 else ns[0] + Sum(ns[1..])
  }

  lemma {:induction false} ConcatSize(wires: seq<Bytes>)
    ensures |Concat(wires)| == Sum(Sizes(wires))
    decreases |wires|
  {
    if wires != [] {
      ConcatSize(wires[1..]);
      assert Sizes(wires)[1..] == Sizes(wires[1..]);
    }
  }

  /** Position k falls into a block, at or after its fixed part. */
  predicate CutsBehind(sizes: seq<nat>, fixed: seq<nat>, k: nat)
    requires |fixed| == |sizes|
  {
    sizes != [] && if k < sizes[0] then k >= fixed[0] else CutsBehind(sizes[1..], fixed[1..], k - sizes[0])
  }

  /** It does so in block n. */
  predicate InBlock(sizes: seq<nat>, fixed: seq<nat>, k: nat, n: nat)
    requires |fixed| == |sizes| && n < |sizes|
  {
    Sum(sizes[..n]) + fixed[n] <= k < Sum(sizes[..n]) + sizes[n]
  }

  lemma SumNext(ns: seq<nat>, n: nat)
    requires n < |ns|
    ensures Sum(ns[..n + 1]) == ns[0] + Sum(ns[1..][..n]) && Sum(ns[..0]) == 0
  {
    assert ns[..n + 1][1..] == ns[1..][..n];
  }

  lemma {:induction false} BehindIsInBlock(sizes: seq<nat>, fixed: seq<nat>, k: nat) returns (n: nat)
    requires |fixed| == |sizes| && CutsBehind(sizes, fixed, k)
    ensures n < |sizes| && InBlock(sizes, fixed, k, n)
    decreases |sizes|
  {
    if k < sizes[0] {
      SumNext(sizes, 0);
      n := 0;
    } else {
      n := BehindIsInBlock(sizes[1..], fixed[1..], k - sizes[0]);
      SumNext(sizes, n);
      n := n + 1;
    }
  }

  lemma {:induction false} InBlockIsBehind(sizes: seq<nat>, fixed: seq<nat>, k: nat, n: nat)
    requires |fixed| == |sizes| && n < |sizes| && InBlock(sizes, fixed, k, n)
    ensures CutsBehind(sizes, fixed, k)
    decreases |sizes|
  {
    if n == 0 {
      SumNext(sizes, 0);
    } else {
      SumNext(sizes, n - 1);
      InBlockIsBehind(sizes[1..], fixed[1..], k - sizes[0], n - 1);
    }
  }

  lemma CutInFirst(count: nat, parse: Bytes -> Parsed<Entry>, wire: Bytes, more: Bytes, fixed: nat, k: nat)
    requires count > 0 && MalformedBelow(parse, wire, fixed) && k < |wire|
    ensures ParseMany(count, (wire + more)[..k], parse) == [] <==> k < fixed
  {
    assert (wire + more)[..k] == wire[..k];
  }

  lemma {:induction false} CutAfterFirst(
      count: nat, parse: Bytes -> Parsed<Entry>, wire: Bytes, e: Entry, more: Bytes, k: nat)
    requires count > 0 && Frames(parse, wire, e) && |wire| <= k <= |wire| + |more|
    ensures ParseMany(count, (wire + more)[..k], parse) == [e] + ParseMany(count - 1, more[..k - |wire|], parse)
  {
    CutInTail(wire, more, wire + more, k);
    ManyCons(count, parse, wire, e, more[..k - |wire|]);
  }

  lemma PrefixStep(es: seq<Entry>, rest: seq<Entry>, n: nat)
    requires n < |es|
    ensures [es[0]] + rest == es[..1 + n] <==> rest == es[1..][..n]
  {
    assert es[..1 + n] == [es[0]] + es[1..][..n];
    assert ([es[0]] + rest)[1..] == rest && es[..1 + n][1..] == es[1..][..n];
  }

  /** A truncated list gives exactly its complete entries, unless the cut falls
      behind the fixed part of the entry it cuts. */
  lemma {:induction false} ManyTruncated(
      parse: Bytes -> Parsed<Entry>, wires: seq<Bytes>, es: seq<Entry>, fixed: seq<nat>, k: nat)
    requires AllFrame(parse, wires, es) && AllMalformedBelow(parse, wires, fixed) && k <= |Concat(wires)|
    ensures ParseMany(|es|, Concat(wires)[..k], parse) == es[..Complete(wires, k)]
            <==> !CutsBehind(Sizes(wires), fixed, k)
    decreases |es|
  {
    if es != [] {
      var wire, more := wires[0], Concat(wires[1..]);
      if k < |wire| {
        CutInFirst(|es|, parse, wire, more, fixed[0], k);
      } else {
        CutAfterFirst(|es|, parse, wire, es[0], more, k);
        ManyTruncated(parse, wires[1..], es[1..], fixed[1..], k - |wire|);
        assert Sizes(wires)[1..] == Sizes(wires[1..]);
        PrefixStep(es, ParseMany(|es| - 1, more[..k - |wire|], parse), Complete(wires[1..], k - |wire|));
      }
    }
  }

  function FixedLengths(items: seq<Item>): (fixed: seq<nat>)
    requires ItemsOk(items)
    ensures |fixed| == |items| && forall i :: 0 <= i < |items| ==> fixed[i] == FixedLength(items[i])
  {
    seq(|items|, i requires 0 <= i < |items| => FixedLength(items[i]))
  }

  /** Position k of the list lies in the extended block of entry n. */
  predicate InExtended(items: seq<Item>, k: nat, n: nat)
    requires ItemsOk(items) && n < |items|
  {
    |PutItems(items[..n])| + FixedLength(items[n]) <= k < |PutItems(items[..n])| + |PutItem(items[n])|
  }

  lemma {:induction false} ExtendedIsBlock(items: seq<Item>, k: nat, n: nat)
    requires ItemsOk(items) && n < |items|
    ensures InExtended(items, k, n) <==> InBlock(Sizes(Wires(items)), FixedLengths(items), k, n)
  {
    assert Wires(items[..n]) == Wires(items)[..n];
    assert Sizes(Wires(items))[..n] == Sizes(Wires(items)[..n]);
    ConcatSize(Wires(items[..n]));
  }

  lemma {:induction false} TruncatedBy(parse: Bytes -> Parsed<Entry>, items: seq<Item>, k: nat)
    requires IsParser(parse) && ItemsOk(items) && k <= |PutItems(items)|
    ensures ParseMany(|items|, PutItems(items)[..k], parse) == EntriesOf(items)[..Complete(Wires(items), k)]
            <==> !CutsBehind(Sizes(Wires(items)), FixedLengths(items), k)
  {
    assert AllFrame(parse, Wires(items), EntriesOf(items)) by {
      ItemsFrame(items);
      FramesSame(parse, Wires(items), EntriesOf(items));
    }
    ItemsMalformedBelow(parse, items);
    ManyTruncated(parse, Wires(items), EntriesOf(items), FixedLengths(items), k);
  }

  lemma FramesSame(parse: Bytes -> Parsed<Entry>, wires: seq<Bytes>, es: seq<Entry>)
    requires IsParser(parse) && AllFrame(ParseEntry, wires, es)
    ensures AllFrame(parse, wires, es)
  {
    forall i | 0 <= i < |es| ensures Frames(parse, wires[i], es[i]) {
      assert Frames(ParseEntry, wires[i], es[i]);
      forall z: Bytes ensures parse(wires[i] + z) == Parsed(es[i], z) {
        assert SameOn(parse, wires[i] + z);
      }
    }
  }

  /** A truncated reply gives exactly the entries that are complete in it if and
      only if the cut does not lie in the extended block of an entry. */
  lemma {:induction false} TruncationGivesPrefix(items: seq<Item>, k: nat)
    requires ItemsOk(items) && k <= |PutItems(items)|
    ensures ParseMany(|items|, PutItems(items)[..k], ParseEntry) == EntriesOf(items)[..Complete(Wires(items), k)]
            <==> forall n :: 0 <= n < |items| ==> !InExtended(items, k, n)
  {
    var sizes, fixed := Sizes(Wires(items)), FixedLengths(items);
    TruncatedBy(ParseEntry, items, k);
    if CutsBehind(sizes, fixed, k) {
      var n := BehindIsInBlock(sizes, fixed, k);
      ExtendedIsBlock(items, k, n);
    }
    forall n | 0 <= n < |items| && InExtended(items, k, n) ensures CutsBehind(sizes, fixed, k) {
      ExtendedIsBlock(items, k, n);
      InBlockIsBehind(sizes, fixed, k, n);
    }
  }

  lemma {:induction false} ItemsMalformedBelow(parse: Bytes -> Parsed<Entry>, items: seq<Item>)
    requires IsParser(parse) && ItemsOk(items)
    ensures AllMalformedBelow(parse, Wires(items), FixedLengths(items))
  {
    forall i | 0 <= i < |items| ensures MalformedBelow(parse, Wires(items)[i], FixedLengths(items)[i]) {
      forall k | 0 <= k < |Wires(items)[i]|
        ensures parse(Wires(items)[i][..k]).Malformed? <==> k < FixedLengths(items)[i]
      {
        ItemCut(parse, items[i], k);
      }
    }
  }

  // --- What is parsed instead ---

  /** What the skipping loop leaves of pairs cut after j bytes. */
  function LeftOfPairs(ps: seq<Pair>, j: nat): Bytes
    requires PairsOk(ps)
  {
    if ps == [] then []
    else
      var name, data := ps[0].name, ps[0].data;
      if j < 4 then PutU32(|name|)[..j]
      else if j < 4 + |name| then name[..j - 4]
      else if j < 8 + |name| then PutU32(|data|)[..j - 4 - |name|]
      else if j < 8 + |name| + |data| then data[..j - 8 - |name|]
      else LeftOfPairs(ps[1..], j - 8 - |name| - |data|)
  }

  /** The same of an extended block. */
  function LeftOf(a: Attrs, j: nat): Bytes
    requires AttrsOk(a) && a.extended.Some? && j <= |PutExtended(a)|
  {
    if j < 4 then PutExtended(a)[..j] else LeftOfPairs(a.extended.value, j - 4)
  }

  lemma SkipStringCut(b: Bytes, tail: Bytes, j: nat)
    requires FitsU32(|b|) && j <= 4 + |b| + |tail|
    ensures var skipped := SkipString((PutString(b) + tail)[..j]);
            && (j < 4 ==> skipped == Skipped(PutU32(|b|)[..j], false))
            && (4 <= j < 4 + |b| ==> skipped == Skipped(b[..j - 4], false))
            && (4 + |b| <= j ==> skipped == Skipped(tail[..j - 4 - |b|], true))
  {
    var s := (PutString(b) + tail)[..j];
    if j < 4 {
      assert s == PutU32(|b|)[..j];
    } else if j < 4 + |b| {
      assert s == PutU32(|b|) + b[..j - 4];
      U32RoundTrip(|b|, b[..j - 4]);
    } else {
      assert s == PutString(b) + tail[..j - 4 - |b|];
      StringRoundTrip(b, tail[..j - 4 - |b|]);
    }
  }

  lemma {:induction false} SkipPairsCut(ps: seq<Pair>, j: nat)
    requires PairsOk(ps) && j <= |PutPairs(ps)|
    ensures SkipPairs(|ps|, PutPairs(ps)[..j]) == LeftOfPairs(ps, j)
    decreases |ps|
  {
    if ps != [] {
      var name, data, more := ps[0].name, ps[0].data, PutPairs(ps[1..]);
      assert PutPairs(ps) == PutString(name) + (PutString(data) + more);
      SkipStringCut(name, PutString(data) + more, j);
      if j >= 4 + |name| {
        SkipStringCut(data, more, j - 4 - |name|);
        if j >= 8 + |name| + |data| {
          SkipPairsCut(ps[1..], j - 8 - |name| - |data|);
        }
      }
    }
  }

  lemma ExtendedCut(a: Attrs, j: nat)
    requires AttrsOk(a) && a.extended.Some? && j <= |PutExtended(a)|
    ensures SkipExtended(PutExtended(a)[..j]) == LeftOf(a, j)
  {
    if j >= 4 {
      var ps := a.extended.value;
      assert PutExtended(a)[..j] == PutU32(|ps|) + PutPairs(ps)[..j - 4];
      U32RoundTrip(|ps|, PutPairs(ps)[..j - 4]);
      SkipPairsCut(ps, j - 4);
    }
  }

  /** The fixed fields are read, and the cut block is skipped as far as it goes. */
  lemma {:induction false} FixedFieldsRead(filename: Bytes, a: Attrs, k: nat)
    requires AttrsOk(a) && a.extended.Some? && FixedAttrs(a) <= k <= |PutAttrs(a)|
    ensures |PutSize(a)| in {0, 8} && |PutPermissions(a)| in {0, 4} && |PutTimes(a)| in {0, 8}
    ensures ParseAttrs(filename, PutAttrs(a)[..k])
            == Parsed(MakeEntry(filename, PutSize(a), PutPermissions(a), PutTimes(a)),
                      SkipExtended(PutExtended(a)[..k - FixedAttrs(a)]))
  {
    FlagsReadBack(a);
    FixedPartKept(a, k);
    PartsRoundTrip(filename, Flags(a), PutSize(a), PutOwner(a), PutPermissions(a), PutTimes(a),
                   PutExtended(a)[..k - FixedAttrs(a)]);
  }

  lemma {:induction false} AttrsCutBehind(item: Item, k: nat)
    requires ItemOk(item) && FixedLength(item) <= k < |PutItem(item)|
    ensures item.attrs.extended.Some?
    ensures ParseAttrs(item.filename, PutAttrs(item.attrs)[..k - 8 - |item.filename| - |item.longname|])
            == Parsed(EntryOf(item), LeftOf(item.attrs, k - FixedLength(item)))
  {
    FixedFieldsRead(item.filename, item.attrs, k - 8 - |item.filename| - |item.longname|);
    ExtendedCut(item.attrs, k - FixedLength(item));
    FieldsRoundTrip(item);
  }

  /** A cut inside the extended block leaves the entry itself as it was. */
  lemma ItemCutBehind(parse: Bytes -> Parsed<Entry>, item: Item, k: nat)
    requires IsParser(parse) && ItemOk(item) && FixedLength(item) <= k < |PutItem(item)|
    ensures item.attrs.extended.Some?
    ensures parse(PutItem(item)[..k]) == Parsed(EntryOf(item), LeftOf(item.attrs, k - FixedLength(item)))
  {
    AttrsCutBehind(item, k);
    ItemCutAt(parse, item, k);
  }

  /** What is left of an entry cut after j bytes; nothing where it is not parsed at all. */
  function LeftOfItem(item: Item, j: nat): Bytes {
    if ItemOk(item) && FixedLength(item) <= j < |PutItem(item)| then LeftOf(item.attrs, j - FixedLength(item)) else []
  }

  lemma {:induction false} WireCutBehind(parse: Bytes -> Parsed<Entry>, items: seq<Item>, n: nat, j: nat)
    requires IsParser(parse) && ItemsOk(items) && n < |items| && FixedLength(items[n]) <= j < |PutItem(items[n])|
    ensures parse(Wires(items)[n][..j]) == Parsed(EntriesOf(items)[n], LeftOfItem(items[n], j))
  {
    ItemCutBehind(parse, items[n], j);
  }

  lemma ConcatFront(wires: seq<Bytes>, n: nat)
    requires n < |wires|
    ensures |Concat(wires[..n + 1])| == |wires[0]| + |Concat(wires[1..][..n])|
  {
    assert wires[..n + 1][1..] == wires[1..][..n];
  }

  lemma OneBefore(es: seq<Entry>, n: nat, more: seq<Entry>)
    requires n < |es|
    ensures [es[0]] + (es[1..][..n] + more) == es[..n + 1] + more
  {
  }

  lemma {:induction false} ManyCutBehind(
      parse: Bytes -> Parsed<Entry>, wires: seq<Bytes>, es: seq<Entry>, n: nat, j: nat, left: Bytes)
    requires AllFrame(parse, wires, es) && n < |wires| && j < |wires[n]|
    requires parse(wires[n][..j]) == Parsed(es[n], left)
    ensures var k := |Concat(wires[..n])| + j;
            && k <= |Concat(wires)|
            && ParseMany(|es|, Concat(wires)[..k], parse) == es[..n + 1] + ParseMany(|es| - n - 1, left, parse)
    decreases n
  {
    if n == 0 {
      CutInsideFirst(|es|, parse, wires[0], Concat(wires[1..]), es[0], j, left);
      OneBefore(es, 0, ParseMany(|es| - 1, left, parse));
    } else {
      ManyCutBehind(parse, wires[1..], es[1..], n - 1, j, left);
      OneMoreBefore(parse, wires, es, n - 1, j, left);
    }
  }

  lemma {:induction false} OneMoreBefore(
      parse: Bytes -> Parsed<Entry>, wires: seq<Bytes>, es: seq<Entry>, n: nat, j: nat, left: Bytes)
    requires |wires| == |es| && n + 1 < |es| && Frames(parse, wires[0], es[0])
    requires var k := |Concat(wires[1..][..n])| + j;
             && k <= |Concat(wires[1..])|
             && ParseMany(|es| - 1, Concat(wires[1..])[..k], parse)
                == es[1..][..n + 1] + ParseMany(|es| - n - 2, left, parse)
    ensures var k := |Concat(wires[..n + 1])| + j;
            && k <= |Concat(wires)|
            && ParseMany(|es|, Concat(wires)[..k], parse) == es[..n + 2] + ParseMany(|es| - n - 2, left, parse)
  {
    ConcatFront(wires, n);
    CutAfterFirst(|es|, parse, wires[0], es[0], Concat(wires[1..]), |Concat(wires[..n + 1])| + j);
    OneBefore(es, n + 1, ParseMany(|es| - n - 2, left, parse));
  }

  lemma {:induction false} CutInsideFirst(
      count: nat, parse: Bytes -> Parsed<Entry>, wire: Bytes, more: Bytes, e: Entry, k: nat, left: Bytes)
    requires count > 0 && k < |wire| && parse(wire[..k]) == Parsed(e, left)
    ensures ParseMany(count, (wire + more)[..k], parse) == [e] + ParseMany(count - 1, left, parse)
  {
    assert (wire + more)[..k] == wire[..k];
  }

  lemma {:induction false} ListCutBehind(
      parse: Bytes -> Parsed<Entry>, items: seq<Item>, wires: seq<Bytes>, es: seq<Entry>, n: nat, j: nat, left: Bytes)
    requires IsParser(parse) && ItemsOk(items) && wires == Wires(items) && es == EntriesOf(items)
    requires n < |items| && j < |wires[n]| && parse(wires[n][..j]) == Parsed(es[n], left)
    ensures var k := |Concat(wires[..n])| + j;
            && k <= |Concat(wires)|
            && ParseMany(|es|, Concat(wires)[..k], parse) == es[..n + 1] + ParseMany(|es| - n - 1, left, parse)
  {
    assert AllFrame(parse, wires, es) by {
      ItemsFrame(items);
      FramesSame(parse, wires, es);
    }
    ManyCutBehind(parse, wires, es, n, j, left);
  }

  /** The wire forms of a list and its entries. */
  ghost predicate Lists(items: seq<Item>, wires: seq<Bytes>, es: seq<Entry>) {
    ItemsOk(items) && wires == Wires(items) && es == EntriesOf(items)
  }

  /** A list cut j bytes into entry n, in its extended block, gives the entries up to
      n, and then whatever is parsed from what is left of the block. */
  lemma {:induction false} CutInExtended(
      parse: Bytes -> Parsed<Entry>, items: seq<Item>, wires: seq<Bytes>, es: seq<Entry>, n: nat, j: nat, left: Bytes)
    requires IsParser(parse) && Lists(items, wires, es) && n < |items|
    requires FixedLength(items[n]) <= j < |PutItem(items[n])| && left == LeftOfItem(items[n], j)
    ensures var k := |Concat(wires[..n])| + j;
            && k <= |Concat(wires)|
            && ParseMany(|es|, Concat(wires)[..k], parse) == es[..n + 1] + ParseMany(|es| - n - 1, left, parse)
  {
    WireCutBehind(parse, items, n, j);
    ListCutBehind(parse, items, wires, es, n, j, left);
  }

  /** Those are the cuts that do not give the complete entries alone. */
  lemma {:induction false} ExtendedAt(items: seq<Item>, wires: seq<Bytes>, n: nat, j: nat)
    requires ItemsOk(items) && wires == Wires(items) && n < |items|
    ensures InExtended(items, |Concat(wires[..n])| + j, n) <==> FixedLength(items[n]) <= j < |PutItem(items[n])|
  {
    LengthBefore(items, wires, n);
  }

  lemma {:induction false} LengthBefore(items: seq<Item>, wires: seq<Bytes>, n: nat)
    requires ItemsOk(items) && wires == Wires(items) && n <= |items|
    ensures |PutItems(items[..n])| == |Concat(wires[..n])|
  {
    assert Wires(items[..n]) == wires[..n];
  }

  /** The bytes begin the name or the data of one of the pairs. */
  predicate BeginsOneOf(ps: seq<Pair>, s: Bytes) {
    exists i :: 0 <= i < |ps| && (s <= ps[i].name || s <= ps[i].data)
  }

  lemma {:induction false} LeftBeginsOne(ps: seq<Pair>, j: nat)
    requires PairsOk(ps) && |LeftOfPairs(ps, j)| >= 4
    ensures BeginsOneOf(ps, LeftOfPairs(ps, j))
    decreases |ps|
  {
    var name, data := ps[0].name, ps[0].data;
    if j >= 8 + |name| + |data| {
      LeftBeginsOne(ps[1..], j - 8 - |name| - |data|);
      var i :| 0 <= i < |ps[1..]| && (LeftOfPairs(ps, j) <= ps[1..][i].name || LeftOfPairs(ps, j) <= ps[1..][i].data);
      assert ps[1..][i] == ps[i + 1];
    } else {
      assert LeftOfPairs(ps, j) <= ps[0].name || LeftOfPairs(ps, j) <= ps[0].data;
    }
  }

  /** An entry the server never listed appears exactly if an entry was still to come
      and what is left of the cut block can be parsed as one, which it can only be
      where it begins the name or the data of a pair. */
  lemma {:induction false} InventedEntry(
      parse: Bytes -> Parsed<Entry>, items: seq<Item>, wires: seq<Bytes>, es: seq<Entry>, n: nat, j: nat, left: Bytes)
    requires IsParser(parse) && Lists(items, wires, es) && n < |items|
    requires FixedLength(items[n]) <= j < |PutItem(items[n])| && left == LeftOfItem(items[n], j)
    ensures var k := |Concat(wires[..n])| + j;
            && k <= |Concat(wires)|
            && (|ParseMany(|es|, Concat(wires)[..k], parse)| > n + 1 <==> n + 1 < |items| && parse(left).Parsed?)
    ensures items[n].attrs.extended.Some?
    ensures parse(left).Parsed? ==> BeginsOneOf(items[n].attrs.extended.value, left)
  {
    CutInExtended(parse, items, wires, es, n, j, left);
    FirstParsed(|es| - n - 1, left, parse);
    if parse(left).Parsed? {
      ParsedIsLong(parse, left);
      LeftBegins(items[n], j);
    }
  }

  lemma {:induction false} FirstParsed(count: nat, s: Bytes, parse: Bytes -> Parsed<Entry>)
    ensures ParseMany(count, s, parse) != [] <==> count > 0 && parse(s).Parsed?
  {
  }

  lemma ParsedIsLong(parse: Bytes -> Parsed<Entry>, s: Bytes)
    requires IsParser(parse) && parse(s).Parsed?
    ensures |s| >= 4
  {
    assert SameOn(parse, s);
  }

  lemma LeftBegins(item: Item, j: nat)
    requires ItemOk(item) && FixedLength(item) <= j < |PutItem(item)| && |LeftOfItem(item, j)| >= 4
    ensures item.attrs.extended.Some? && BeginsOneOf(item.attrs.extended.value, LeftOfItem(item, j))
  {
    LeftBeginsOne(item.attrs.extended.value, j - FixedLength(item) - 4);
  }

  /** For any entry at all: a pair whose name begins with its wire form, cut behind
      that, makes the hub list it. */
  lemma {:induction false} CutPairBecomesAnEntry(
      parse: Bytes -> Parsed<Entry>, items: seq<Item>, wires: seq<Bytes>, es: seq<Entry>, n: nat, y: Bytes,
      data: Bytes, never: Item)
    returns (j: nat)
    requires IsParser(parse) && Lists(items, wires, es) && n + 1 < |items| && ItemOk(never) && y != []
    requires items[n].attrs.extended == Some([Pair(PutItem(never) + y, data)])
    ensures j < |wires[n]|
    ensures var k := |Concat(wires[..n])| + j;
            k <= |Concat(wires)| && ParseMany(|es|, Concat(wires)[..k], parse) == es[..n + 1] + [EntryOf(never)]
  {
    j := PairNameLeft(items[n], PutItem(never), y, data);
    WholeEntry(parse, never);
    LastEntry(parse, |es| - n - 1, PutItem(never), EntryOf(never));
    CutInExtended(parse, items, wires, es, n, j, PutItem(never));
  }

  /** A cut in the name of an entry's only pair leaves what precedes it of the name. */
  lemma {:induction false} PairNameLeft(item: Item, x: Bytes, y: Bytes, data: Bytes) returns (j: nat)
    requires ItemOk(item) && y != [] && item.attrs.extended == Some([Pair(x + y, data)])
    ensures FixedLength(item) <= j < |PutItem(item)| && LeftOfItem(item, j) == x
  {
    var a := item.attrs;
    j := FixedLength(item) + 8 + |x|;
    PairLength(a, Pair(x + y, data));
    assert LeftOfPairs(a.extended.value, 4 + |x|) == (x + y)[..|x|];
  }

  lemma {:induction false} LastEntry(parse: Bytes -> Parsed<Entry>, count: nat, s: Bytes, e: Entry)
    requires IsParser(parse) && count > 0 && parse(s) == Parsed(e, [])
    ensures ParseMany(count, s, parse) == [e]
  {
    assert SameOn(parse, []);
    assert parse([]).Malformed?;
    assert ParseMany(count, s, parse) == [e] + ParseMany(count - 1, [], parse);
  }

  lemma PairLength(a: Attrs, p: Pair)
    requires AttrsOk(a) && a.extended == Some([p])
    ensures PairOk(p) && |PutExtended(a)| == 12 + |p.name| + |p.data|
  {
    assert PairOk([p][0]);
    assert PutPairs([p]) == PutString(p.name) + PutString(p.data) + PutPairs([]);
  }

  lemma WholeEntry(parse: Bytes -> Parsed<Entry>, item: Item)
    requires IsParser(parse) && ItemOk(item)
    ensures parse(PutItem(item)) == Parsed(EntryOf(item), [])
  {
    assert SameOn(parse, PutItem(item));
    assert PutItem(item) + [] == PutItem(item);
    ItemRoundTrip(item, []);
  }
}
