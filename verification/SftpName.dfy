/** SFTP directory replies (hub/internal/host/sftp_adapter.go:18-99, 411-561).

    The wire format is sections 5 (file attributes) and 7 (responses) of
    draft-ietf-secsh-filexfer-02.  The reply is parsed from its request id on.
  */
module SftpName {
  import opened Option
  import opened Octets
  import PosixPath

  const U32_LIMIT := 0x1_0000_0000
  const U64_LIMIT := 0x1_0000_0000_0000_0000
  const NAME_HEADER := 8

  datatype FileKind = Plain | Directory | SymbolicLink | Socket | NamedPipe | CharDevice | BlockDevice

  /** os.FileMode, as far as it is filled in. */
  datatype FileMode = FileMode(perm: nat, kind: FileKind)

  datatype Entry = Entry(
    name: Bytes,
    isDir: bool,
    isLink: bool,
    size: int,
    modTime: Option<nat>,
    mode: FileMode)

  // --- Numbers on the wire ---

  function GetU32(s: Bytes): (n: nat)
    requires |s| >= 4
    ensures n < U32_LIMIT
  {
    (s[0] as int) * 0x100_0000 + (s[1] as int) * 0x1_0000 + (s[2] as int) * 0x100 + s[3] as int
  }

  function GetU64(s: Bytes): (n: nat)
    requires |s| >= 8
    ensures n < U64_LIMIT
  {
    GetU32(s) * U32_LIMIT + GetU32(s[4..])
  }

  /** The conversion of a uint64 to an int64 wraps. */
  function ToInt64(n: nat): int {
    if n < U64_LIMIT / 2 then n else n - U64_LIMIT
  }

  function Bit(flags: nat, weight: nat): bool
    requires weight > 0
  {
    flags / weight % 2 == 1
  }

  const ATTR_SIZE := 0x1
  const ATTR_UIDGID := 0x2
  const ATTR_PERMISSIONS := 0x4
  const ATTR_ACMODTIME := 0x8
  const ATTR_EXTENDED := 0x8000_0000

  function DecodeFilePerm(perm: nat): FileMode {
    var kind := match perm / 0x1000 % 16
      case 4 => Directory
      case 10 => SymbolicLink
      case 12 => Socket
      case 1 => NamedPipe
      case 2 => CharDevice
      case 6 => BlockDevice
      case _ => Plain;
    FileMode(perm % 0x200, kind)
  }

  /** The file types of section 5: the four st_mode bits from 0x1000 on, as POSIX
      systems number them. */
  function TypeCode(kind: FileKind): (n: nat)
    ensures n < 16
  {
    match kind
    case NamedPipe => 1
    case CharDevice => 2
    case Directory => 4
    case BlockDevice => 6
    case Plain => 8
    case SymbolicLink => 10
    case Socket => 12
  }

  lemma TypeOf(perm: nat, above: nat, kind: FileKind, low: nat)
    requires perm == 0x1000 * (16 * above + TypeCode(kind)) + low && low < 0x1000
    ensures perm / 0x1000 % 16 == TypeCode(kind)
  {
    assert perm / 0x1000 == 16 * above + TypeCode(kind);
  }

  lemma PermissionsOf(perm: nat, rest: nat, low: nat)
    requires perm == 0x200 * rest + low && low < 0x200
    ensures perm % 0x200 == low
  {
  }

  /** Every type is read back, with its nine permission bits, whatever else is set. */
  lemma PermReadBack(kind: FileKind, perm: nat, special: nat, above: nat)
    requires perm < 0x200 && special < 8
    ensures DecodeFilePerm(0x1000 * (16 * above + TypeCode(kind)) + 0x200 * special + perm) == FileMode(perm, kind)
  {
    var mode := 0x1000 * (16 * above + TypeCode(kind)) + 0x200 * special + perm;
    TypeOf(mode, above, kind, 0x200 * special + perm);
    PermissionsOf(mode, 8 * (16 * above + TypeCode(kind)) + special, perm);
  }

  /** Nothing else is read as one of the special types. */
  lemma OnlyThoseTypes(perm: nat)
    ensures DecodeFilePerm(perm).kind != Plain ==> perm / 0x1000 % 16 == TypeCode(DecodeFilePerm(perm).kind)
  {
  }

  /** A number is the same number again, modulo 2 to the 64, and fits. */
  lemma SizeWraps(n: nat)
    requires n < U64_LIMIT
    ensures (ToInt64(n) - n) % U64_LIMIT == 0
    ensures -0x8000_0000_0000_0000 <= ToInt64(n) <= 0x7FFF_FFFF_FFFF_FFFF
  {
  }

  /** Most significant byte first. */
  function BigEndian(s: Bytes): nat {
    if s == [] then 0 else 0x100 * BigEndian(s[..|s| - 1]) + s[|s| - 1]
  }

  lemma FourBytes(s: Bytes)
    requires |s| == 4
    ensures BigEndian(s) == GetU32(s)
  {
    assert s[..3][..2] == s[..2] && s[..2][..1] == s[..1] && s[..1][..0] == [];
    assert BigEndian(s[..1]) == s[0];
    assert BigEndian(s[..2]) == 0x100 * BigEndian(s[..1]) + s[1];
    assert BigEndian(s[..3]) == 0x100 * BigEndian(s[..2]) + s[2];
  }

  lemma NumbersAreBigEndian(s: Bytes)
    ensures |s| >= 4 ==> GetU32(s) == BigEndian(s[..4])
    ensures |s| >= 8 ==> GetU64(s) == BigEndian(s[..4]) * 0x1_0000_0000 + BigEndian(s[4..8])
  {
    if |s| >= 4 {
      FourBytes(s[..4]);
    }
    if |s| >= 8 {
      FourBytes(s[4..8]);
    }
  }

  // --- What parsing means ---

  datatype Parsed<T> = Parsed(value: T, rest: Bytes) | Malformed

  function Take(n: nat, s: Bytes): (r: Parsed<Bytes>)
    ensures r.Parsed? ==> |r.value| == n && |r.rest| <= |s|
  {
    if |s| < n then Malformed else Parsed(s[..n], s[n..])
  }

  function TakeIf(present: bool, n: nat, s: Bytes): (r: Parsed<Bytes>)
    ensures r.Parsed? ==> |r.rest| <= |s| && |r.value| == if present then n else 0
  {
    if present then Take(n, s) else Parsed([], s)
  }

  function TakeString(s: Bytes): (r: Parsed<Bytes>)
    ensures r.Parsed? ==> |r.rest| < |s|
  {
    if |s| < 4 then Malformed else Take(GetU32(s), s[4..])
  }

  /** Skipping a string that does not fit stops after what was read of it. */
  datatype Skipped = Skipped(rest: Bytes, whole: bool)

  function SkipString(s: Bytes): (r: Skipped)
    ensures |r.rest| <= |s|
  {
    if |s| < 4 then Skipped(s, false)
    else if |s| - 4 < GetU32(s) then Skipped(s[4..], false)
    else Skipped(s[4..][GetU32(s)..], true)
  }

  function SkipPairs(count: nat, s: Bytes): (rest: Bytes)
    ensures |rest| <= |s|
  {
    if count == 0 then s
    else
      var name := SkipString(s);
      if !name.whole then name.rest
      else
        var data := SkipString(name.rest);
        if !data.whole then data.rest else SkipPairs(count - 1, data.rest)
  }

  function SkipExtended(s: Bytes): (rest: Bytes)
    ensures |rest| <= |s|
  {
    if |s| < 4 then s else SkipPairs(GetU32(s), s[4..])
  }

  const SLASH: byte := 47
  const DOT: byte := 46

  function MakeEntry(filename: Bytes, size: Bytes, perm: Bytes, times: Bytes): Entry
    requires (size == [] || |size| == 8) && (perm == [] || |perm| == 4) && (times == [] || |times| == 8)
  {
    var mode := if perm == [] then FileMode(0, Plain) else DecodeFilePerm(GetU32(perm));
    Entry(PosixPath.Base(filename, SLASH, DOT), mode.kind == Directory, mode.kind == SymbolicLink,
          if size == [] then 0 else ToInt64(GetU64(size)),
          if times == [] then None else Some(GetU32(times[4..])), mode)
  }

  function ParseAttrs(filename: Bytes, s: Bytes): (r: Parsed<Entry>)
    ensures r.Parsed? ==> |r.rest| < |s|
  {
    if |s| < 4 then Malformed
    else
      var flags := GetU32(s);
      match TakeIf(Bit(flags, ATTR_SIZE), 8, s[4..])
      case Malformed => Malformed
      case Parsed(size, s1) =>
        match TakeIf(Bit(flags, ATTR_UIDGID), 8, s1)
        case Malformed => Malformed
        case Parsed(_, s2) =>
          match TakeIf(Bit(flags, ATTR_PERMISSIONS), 4, s2)
          case Malformed => Malformed
          case Parsed(perm, s3) =>
            match TakeIf(Bit(flags, ATTR_ACMODTIME), 8, s3)
            case Malformed => Malformed
            case Parsed(times, s4) =>
              Parsed(MakeEntry(filename, size, perm, times),
                     if Bit(flags, ATTR_EXTENDED) then SkipExtended(s4) else s4)
  }

  function ParseEntry(s: Bytes): (r: Parsed<Entry>)
    ensures r.Parsed? ==> |r.rest| < |s|
  {
    match TakeString(s)
    case Malformed => Malformed
    case Parsed(filename, s1) =>
      match TakeString(s1)
      case Malformed => Malformed
      case Parsed(_, s2) => ParseAttrs(filename, s2)
  }

  /** Up to count entries, stopping at the first malformed one. */
  function ParseMany(count: nat, s: Bytes, parse: Bytes -> Parsed<Entry>): (es: seq<Entry>)
    ensures |es| <= count
  {
    if count == 0 then []
    else match parse(s)
      case Malformed => []
      case Parsed(e, rest) => [e] + ParseMany(count - 1, rest, parse)
  }

  function Announced(s: Bytes): nat {
    if |s| < NAME_HEADER then 0 else GetU32(s[4..])
  }

  function ParseReply(s: Bytes): seq<Entry> {
    if |s| < NAME_HEADER then [] else ParseMany(GetU32(s[4..]), s[NAME_HEADER..], ParseEntry)
  }

  // --- The parser ---

  method SkipExtendedAttrs(input: Bytes) returns (data: Bytes)
    ensures data == SkipExtended(input)
  {
    data := input;
    if |data| < 4 {
      return;
    }
    var extCount := GetU32(data);
    data := data[4..];
    var j := 0;
    while j < extCount
      invariant 0 <= j <= extCount && SkipPairs(extCount, input[4..]) == SkipPairs(extCount - j, data)
    {
      if |data| < 4 {
        break;
      }
      var kLen := GetU32(data);
      data := data[4..];
      if |data| < kLen {
        break;
      }
      data := data[kLen..];
      if |data| < 4 {
        break;
      }
      var vLen := GetU32(data);
      data := data[4..];
      if |data| < vLen {
        break;
      }
      data := data[vLen..];
      j := j + 1;
    }
  }

  method ParseEntryAttrs(filename: Bytes, input: Bytes) returns (entry: Parsed<Entry>)
    ensures entry == ParseAttrs(filename, input)
  {
    var data := input;
    if |data| < 4 {
      return Malformed;
    }
    var flags := GetU32(data);
    data := data[4..];
    var size, perm, times := [], [], [];
    if Bit(flags, ATTR_SIZE) {
      if |data| < 8 {
        return Malformed;
      }
      size := data[..8];
      data := data[8..];
    }
    if Bit(flags, ATTR_UIDGID) {
      if |data| < 8 {
        return Malformed;
      }
      data := data[8..];
    }
    if Bit(flags, ATTR_PERMISSIONS) {
      if |data| < 4 {
        return Malformed;
      }
      perm := data[..4];
      data := data[4..];
    }
    if Bit(flags, ATTR_ACMODTIME) {
      if |data| < 8 {
        return Malformed;
      }
      times := data[..8];
      data := data[8..];
    }
    if Bit(flags, ATTR_EXTENDED) {
      data := SkipExtendedAttrs(data);
    }
    return Parsed(MakeEntry(filename, size, perm, times), data);
  }

  predicate SameOn(parse: Bytes -> Parsed<Entry>, s: Bytes) {
    parse(s) == ParseEntry(s)
  }

  /** The function is ParseEntry; loops keep it folded. */
  ghost predicate IsParser(parse: Bytes -> Parsed<Entry>) {
    forall s :: SameOn(parse, s)
  }

  method ParseSingleNameEntry(input: Bytes, ghost parse: Bytes -> Parsed<Entry>) returns (entry: Parsed<Entry>)
    requires |input| >= 4 && IsParser(parse)
    ensures entry == parse(input)
  {
    assert SameOn(parse, input);
    var nameLen := GetU32(input);
    var data := input[4..];
    if |data| < nameLen {
      return Malformed;
    }
    var filename := data[..nameLen];
    data := data[nameLen..];
    if |data| < 4 {
      return Malformed;
    }
    var longLen := GetU32(data);
    data := data[4..];
    if |data| < longLen {
      return Malformed;
    }
    data := data[longLen..];
    entry := ParseEntryAttrs(filename, data);
  }

  /** Having collected es, the entries still to come are those of s. */
  ghost predicate Collected(all: seq<Entry>, es: seq<Entry>, count: nat, s: Bytes, parse: Bytes -> Parsed<Entry>) {
    all == es + ParseMany(count, s, parse)
  }

  lemma CollectOne(all: seq<Entry>, es: seq<Entry>, count: nat, s: Bytes, parse: Bytes -> Parsed<Entry>)
    requires count > 0 && Collected(all, es, count, s, parse)
    ensures parse(s).Parsed? ==> Collected(all, es + [parse(s).value], count - 1, parse(s).rest, parse)
  {
  }

  lemma CollectNone(count: nat, s: Bytes, parse: Bytes -> Parsed<Entry>)
    ensures Collected(ParseMany(count, s, parse), [], count, s, parse)
  {
  }

  lemma CollectedAll(all: seq<Entry>, es: seq<Entry>, count: nat, s: Bytes, parse: Bytes -> Parsed<Entry>)
    requires Collected(all, es, count, s, parse) && (count > 0 ==> parse(s).Malformed?)
    ensures all == es
  {
  }

  lemma ShortIsMalformed(s: Bytes, parse: Bytes -> Parsed<Entry>)
    requires |s| < 4 && IsParser(parse)
    ensures parse(s).Malformed?
  {
    assert SameOn(parse, s);
  }

  method ParseListed(count: nat, input: Bytes, ghost parse: Bytes -> Parsed<Entry>) returns (entries: seq<Entry>)
    requires IsParser(parse)
    ensures entries == ParseMany(count, input, parse)
  {
    var data := input;
    entries := [];
    ghost var all := ParseMany(count, input, parse);
    CollectNone(count, input, parse);
    var i := 0;
    while i < count && |data| >= 4
      invariant 0 <= i <= count && Collected(all, entries, count - i, data, parse)
    {
      var entry := ParseSingleNameEntry(data, parse);
      if entry.Malformed? {
        break;
      }
      CollectOne(all, entries, count - i, data, parse);
      entries := entries + [entry.value];
      data := entry.rest;
      i := i + 1;
    }
    if |data| < 4 {
      ShortIsMalformed(data, parse);
    }
    CollectedAll(all, entries, count - i, data, parse);
  }

  /** `reserved` is the capacity the list of entries is made with, before any is parsed. */
  method ParseNameEntries(input: Bytes) returns (entries: seq<Entry>, reserved: nat)
    ensures entries == ParseReply(input) && reserved == Announced(input)
  {
    if |input| < NAME_HEADER {
      return [], 0;
    }
    reserved := GetU32(input[4..]);
    entries := ParseListed(reserved, input[NAME_HEADER..], ParseEntry);
  }

  lemma EntryTakesTwelve(s: Bytes)
    requires ParseEntry(s).Parsed?
    ensures |ParseEntry(s).rest| + 12 <= |s|
  {
    var s1 := TakeString(s).rest;
    assert |s1| + 4 <= |s| && |TakeString(s1).rest| + 4 <= |s1|;
  }

  lemma {:induction false} ManyFit(count: nat, s: Bytes, parse: Bytes -> Parsed<Entry>)
    requires IsParser(parse)
    ensures 12 * |ParseMany(count, s, parse)| <= |s|
    decreases count
  {
    if count > 0 && parse(s).Parsed? {
      assert SameOn(parse, s);
      EntryTakesTwelve(s);
      ManyFit(count - 1, parse(s).rest, parse);
    }
  }

  /** Whatever a reply announces, it gives no more entries than that, and no more than
      its bytes have room for. */
  lemma {:induction false} EntriesFit(s: Bytes)
    ensures |ParseReply(s)| <= Announced(s) && 12 * |ParseReply(s)| <= |s|
  {
    if |s| >= NAME_HEADER {
      ManyFit(GetU32(s[4..]), s[NAME_HEADER..], ParseEntry);
    }
  }

  // --- What a server sends ---

  datatype Pair = Pair(name: Bytes, data: Bytes)

  /** Section 5.  `others` are the flag bits between the defined ones, which carry
      nothing. */
  datatype Attrs = Attrs(
    size: Option<nat>,
    owner: Option<(nat, nat)>,
    permissions: Option<nat>,
    times: Option<(nat, nat)>,
    extended: Option<seq<Pair>>,
    others: nat)

  /** Section 7: an entry of an SSH_FXP_NAME reply. */
  datatype Item = Item(filename: Bytes, longname: Bytes, attrs: Attrs)

  predicate FitsU32(n: nat) {
    n < U32_LIMIT
  }

  predicate PairOk(p: Pair) {
    FitsU32(|p.name|) && FitsU32(|p.data|)
  }

  predicate PairsOk(ps: seq<Pair>) {
    forall i :: 0 <= i < |ps| ==> PairOk(ps[i])
  }

  predicate AttrsOk(a: Attrs) {
    && (a.size.Some? ==> a.size.value < U64_LIMIT)
    && (a.owner.Some? ==> FitsU32(a.owner.value.0) && FitsU32(a.owner.value.1))
    && (a.permissions.Some? ==> FitsU32(a.permissions.value))
    && (a.times.Some? ==> FitsU32(a.times.value.0) && FitsU32(a.times.value.1))
    && (a.extended.Some? ==> FitsU32(|a.extended.value|) && PairsOk(a.extended.value))
    && a.others < 0x800_0000
  }

  predicate ItemOk(item: Item) {
    FitsU32(|item.filename|) && FitsU32(|item.longname|) && AttrsOk(item.attrs)
  }

  function PutU32(n: nat): (s: Bytes)
    requires FitsU32(n)
    ensures |s| == 4
  {
    [n / 0x100 / 0x100 / 0x100, n / 0x100 / 0x100 % 0x100, n / 0x100 % 0x100, n % 0x100]
  }

  function PutU64(n: nat): (s: Bytes)
    requires n < U64_LIMIT
    ensures |s| == 8
  {
    PutU32(n / U32_LIMIT) + PutU32(n % U32_LIMIT)
  }

  function PutString(b: Bytes): Bytes
    requires FitsU32(|b|)
  {
    PutU32(|b|) + b
  }

  function PutPairs(ps: seq<Pair>): Bytes
    requires PairsOk(ps)
  {
    if ps == [] then [] else PutString(ps[0].name) + PutString(ps[0].data) + PutPairs(ps[1..])
  }

  function Weight(present: bool, weight: nat): nat {
    if present then weight else 0
  }

  function Flags(a: Attrs): nat {
    Weight(a.size.Some?, 1) + Weight(a.owner.Some?, 2) + Weight(a.permissions.Some?, 4) + Weight(a.times.Some?, 8)
    + 0x10 * a.others + Weight(a.extended.Some?, 0x8000_0000)
  }

  function PutSize(a: Attrs): Bytes requires AttrsOk(a) {
    if a.size.Some? then PutU64(a.size.value) else []
  }

  function PutOwner(a: Attrs): Bytes requires AttrsOk(a) {
    if a.owner.Some? then PutU32(a.owner.value.0) + PutU32(a.owner.value.1) else []
  }

  function PutPermissions(a: Attrs): Bytes requires AttrsOk(a) {
    if a.permissions.Some? then PutU32(a.permissions.value) else []
  }

  function PutTimes(a: Attrs): Bytes requires AttrsOk(a) {
    if a.times.Some? then PutU32(a.times.value.0) + PutU32(a.times.value.1) else []
  }

  function PutExtended(a: Attrs): Bytes requires AttrsOk(a) {
    if a.extended.Some? then PutU32(|a.extended.value|) + PutPairs(a.extended.value) else []
  }

  function PutAttrs(a: Attrs): Bytes
    requires AttrsOk(a)
  {
    PutU32(Flags(a)) + (PutSize(a) + (PutOwner(a) + (PutPermissions(a) + (PutTimes(a) + PutExtended(a)))))
  }

  function PutItem(item: Item): Bytes
    requires ItemOk(item)
  {
    PutString(item.filename) + (PutString(item.longname) + PutAttrs(item.attrs))
  }

  predicate ItemsOk(items: seq<Item>) {
    forall i :: 0 <= i < |items| ==> ItemOk(items[i])
  }

  function Concat(wires: seq<Bytes>): Bytes {
    if wires == [] then [] else wires[0] + Concat(wires[1..])
  }

  function Wires(items: seq<Item>): (wires: seq<Bytes>)
    requires ItemsOk(items)
    ensures |wires| == |items| && forall i :: 0 <= i < |items| ==> wires[i] == PutItem(items[i])
  {
    seq(|items|, i requires 0 <= i < |items| => PutItem(items[i]))
  }

  function PutItems(items: seq<Item>): Bytes
    requires ItemsOk(items)
  {
    Concat(Wires(items))
  }

  /** What the hub keeps of an entry. */
  function EntryOf(item: Item): Entry
    requires ItemOk(item)
  {
    var a := item.attrs;
    var mode := if a.permissions.Some? then DecodeFilePerm(a.permissions.value) else FileMode(0, Plain);
    Entry(PosixPath.Base(item.filename, SLASH, DOT), mode.kind == Directory, mode.kind == SymbolicLink,
          if a.size.Some? then ToInt64(a.size.value) else 0,
          if a.times.Some? then Some(a.times.value.1) else None, mode)
  }

  function EntriesOf(items: seq<Item>): (es: seq<Entry>)
    requires ItemsOk(items)
    ensures |es| == |items| && forall i :: 0 <= i < |items| ==> es[i] == EntryOf(items[i])
  {
    seq(|items|, i requires 0 <= i < |items| => EntryOf(items[i]))
  }

  /** What the hub says of a listed file, in the server's own terms. */
  lemma EntryMeaning(item: Item)
    requires ItemOk(item)
    ensures var e, a := EntryOf(item), item.attrs;
            && (e.isDir <==> a.permissions.Some? && a.permissions.value / 0x1000 % 16 == 4)
            && (e.isLink <==> a.permissions.Some? && a.permissions.value / 0x1000 % 16 == 10)
            && (a.permissions.Some? ==> e.mode.perm == a.permissions.value % 0x200)
            && (a.permissions.None? ==> e.mode == FileMode(0, Plain))
            && (a.size.Some? && a.size.value < 0x8000_0000_0000_0000 ==> e.size == a.size.value)
            && (a.size.None? ==> e.size == 0)
            && (e.modTime.Some? <==> a.times.Some?) && (a.times.Some? ==> e.modTime.value == a.times.value.1)
  {
  }

  // --- Round trip ---

  lemma U32RoundTrip(n: nat, z: Bytes)
    requires FitsU32(n)
    ensures GetU32(PutU32(n) + z) == n && (PutU32(n) + z)[4..] == z
  {
    var s := PutU32(n) + z;
    assert s[0] == PutU32(n)[0] && s[1] == PutU32(n)[1] && s[2] == PutU32(n)[2] && s[3] == PutU32(n)[3];
  }

  lemma U64RoundTrip(n: nat, z: Bytes)
    requires n < U64_LIMIT
    ensures GetU64(PutU64(n) + z) == n
  {
    var hi, lo := PutU32(n / U32_LIMIT), PutU32(n % U32_LIMIT);
    assert PutU64(n) + z == hi + (lo + z);
    U32RoundTrip(n / U32_LIMIT, lo + z);
    U32RoundTrip(n % U32_LIMIT, z);
  }

  lemma Quotient(f: nat, low: nat, n: nat, weight: nat)
    requires weight in {ATTR_SIZE, ATTR_UIDGID, ATTR_PERMISSIONS, ATTR_ACMODTIME, ATTR_EXTENDED}
    requires low < weight && f == low + weight * n
    ensures f / weight == n
  {
    if weight == ATTR_SIZE {
    } else if weight == ATTR_UIDGID {
    } else if weight == ATTR_PERMISSIONS {
    } else if weight == ATTR_ACMODTIME {
    } else {
    }
  }

  /** A bit is read back whatever is added below and above it. */
  lemma BitOfSum(f: nat, low: nat, weight: nat, present: bool, high: nat)
    requires weight in {ATTR_SIZE, ATTR_UIDGID, ATTR_PERMISSIONS, ATTR_ACMODTIME, ATTR_EXTENDED}
    requires low < weight && f == low + weight * (Weight(present, 1) + 2 * high)
    ensures Bit(f, weight) <==> present
  {
    Quotient(f, low, Weight(present, 1) + 2 * high, weight);
  }

  lemma FlagsReadBack(a: Attrs)
    requires AttrsOk(a)
    ensures var f := Flags(a);
            && FitsU32(f)
            && (Bit(f, ATTR_SIZE) <==> a.size.Some?) && (Bit(f, ATTR_UIDGID) <==> a.owner.Some?)
            && (Bit(f, ATTR_PERMISSIONS) <==> a.permissions.Some?) && (Bit(f, ATTR_ACMODTIME) <==> a.times.Some?)
            && (Bit(f, ATTR_EXTENDED) <==> a.extended.Some?)
  {
    var f := Flags(a);
    var b0, b1, b2 := Weight(a.size.Some?, 1), Weight(a.owner.Some?, 1), Weight(a.permissions.Some?, 1);
    var b3, b31 := Weight(a.times.Some?, 1), Weight(a.extended.Some?, 1);
    var top := a.others + 0x800_0000 * b31;
    assert f == b0 + 2 * b1 + 4 * b2 + 8 * b3 + 16 * a.others + 0x8000_0000 * b31;
    BitOfSum(f, 0, ATTR_SIZE, a.size.Some?, b1 + 2 * b2 + 4 * b3 + 8 * top);
    BitOfSum(f, b0, ATTR_UIDGID, a.owner.Some?, b2 + 2 * b3 + 4 * top);
    BitOfSum(f, b0 + 2 * b1, ATTR_PERMISSIONS, a.permissions.Some?, b3 + 2 * top);
    BitOfSum(f, b0 + 2 * b1 + 4 * b2, ATTR_ACMODTIME, a.times.Some?, top);
    BitOfSum(f, b0 + 2 * b1 + 4 * b2 + 8 * b3 + 16 * a.others, ATTR_EXTENDED, a.extended.Some?, 0);
  }

  lemma StringRoundTrip(b: Bytes, z: Bytes)
    requires FitsU32(|b|)
    ensures TakeString(PutString(b) + z) == Parsed(b, z)
    ensures SkipString(PutString(b) + z) == Skipped(z, true)
  {
    assert PutString(b) + z == PutU32(|b|) + (b + z);
    U32RoundTrip(|b|, b + z);
    assert (b + z)[..|b|] == b && (b + z)[|b|..] == z;
  }

  lemma {:induction false} PairsRoundTrip(ps: seq<Pair>, z: Bytes)
    requires PairsOk(ps)
    ensures SkipPairs(|ps|, PutPairs(ps) + z) == z
    decreases |ps|
  {
    if ps == [] {
      assert [] + z == z;
    } else {
      var more := PutPairs(ps[1..]) + z;
      assert PutPairs(ps) + z == PutString(ps[0].name) + (PutString(ps[0].data) + more);
      StringRoundTrip(ps[0].name, PutString(ps[0].data) + more);
      StringRoundTrip(ps[0].data, more);
      PairsRoundTrip(ps[1..], z);
    }
  }

  lemma TakeIfRoundTrip(present: bool, n: nat, part: Bytes, z: Bytes)
    requires |part| == if present then n else 0
    ensures TakeIf(present, n, part + z) == Parsed(part, z)
  {
    assert (part + z)[..|part|] == part && (part + z)[|part|..] == z;
  }

  lemma ExtendedRoundTrip(a: Attrs, z: Bytes)
    requires AttrsOk(a)
    ensures (if a.extended.Some? then SkipExtended(PutExtended(a) + z) else PutExtended(a) + z) == z
  {
    if a.extended.Some? {
      var ps := a.extended.value;
      assert PutExtended(a) + z == PutU32(|ps|) + (PutPairs(ps) + z);
      U32RoundTrip(|ps|, PutPairs(ps) + z);
      PairsRoundTrip(ps, z);
    }
  }

  /** The fields cut out of the wire form of the attributes give the entry. */
  lemma FieldsRoundTrip(item: Item)
    requires ItemOk(item)
    ensures var a := item.attrs;
            && (a.size.Some? <==> PutSize(a) != []) && (a.permissions.Some? <==> PutPermissions(a) != [])
            && (a.times.Some? <==> PutTimes(a) != [])
            && MakeEntry(item.filename, PutSize(a), PutPermissions(a), PutTimes(a)) == EntryOf(item)
  {
    var a := item.attrs;
    if a.size.Some? {
      U64RoundTrip(a.size.value, []);
      assert PutSize(a) + [] == PutSize(a);
    }
    if a.permissions.Some? {
      U32RoundTrip(a.permissions.value, []);
      assert PutPermissions(a) + [] == PutPermissions(a);
    }
    if a.times.Some? {
      U32RoundTrip(a.times.value.0, PutU32(a.times.value.1));
      U32RoundTrip(a.times.value.1, []);
      assert PutU32(a.times.value.1) + [] == PutU32(a.times.value.1);
    }
  }

  lemma PartsRoundTrip(filename: Bytes, flags: nat, size: Bytes, owner: Bytes, perm: Bytes, times: Bytes, tail: Bytes)
    requires FitsU32(flags)
    requires |size| == (if Bit(flags, ATTR_SIZE) then 8 else 0) && |owner| == (if Bit(flags, ATTR_UIDGID) then 8 else 0)
    requires |perm| == (if Bit(flags, ATTR_PERMISSIONS) then 4 else 0)
    requires |times| == (if Bit(flags, ATTR_ACMODTIME) then 8 else 0)
    ensures ParseAttrs(filename, PutU32(flags) + (size + (owner + (perm + (times + tail)))))
            == Parsed(MakeEntry(filename, size, perm, times),
                      if Bit(flags, ATTR_EXTENDED) then SkipExtended(tail) else tail)
  {
    U32RoundTrip(flags, size + (owner + (perm + (times + tail))));
    TakeIfRoundTrip(Bit(flags, ATTR_SIZE), 8, size, owner + (perm + (times + tail)));
    TakeIfRoundTrip(Bit(flags, ATTR_UIDGID), 8, owner, perm + (times + tail));
    TakeIfRoundTrip(Bit(flags, ATTR_PERMISSIONS), 4, perm, times + tail);
    TakeIfRoundTrip(Bit(flags, ATTR_ACMODTIME), 8, times, tail);
  }

  lemma PartsAppend(a: Bytes, b: Bytes, c: Bytes, d: Bytes, e: Bytes, f: Bytes, z: Bytes)
    ensures a + (b + (c + (d + (e + f)))) + z == a + (b + (c + (d + (e + (f + z)))))
  {
  }

  lemma AttrsRoundTrip(item: Item, z: Bytes)
    requires ItemOk(item)
    ensures ParseAttrs(item.filename, PutAttrs(item.attrs) + z) == Parsed(EntryOf(item), z)
  {
    var a := item.attrs;
    FlagsReadBack(a);
    PartsAppend(PutU32(Flags(a)), PutSize(a), PutOwner(a), PutPermissions(a), PutTimes(a), PutExtended(a), z);
    PartsRoundTrip(item.filename, Flags(a), PutSize(a), PutOwner(a), PutPermissions(a), PutTimes(a),
                   PutExtended(a) + z);
    ExtendedRoundTrip(a, z);
    FieldsRoundTrip(item);
  }

  lemma ItemRoundTrip(item: Item, z: Bytes)
    requires ItemOk(item)
    ensures ParseEntry(PutItem(item) + z) == Parsed(EntryOf(item), z)
  {
    var attrs := PutAttrs(item.attrs) + z;
    assert PutItem(item) + z == PutString(item.filename) + (PutString(item.longname) + attrs);
    StringRoundTrip(item.filename, PutString(item.longname) + attrs);
    StringRoundTrip(item.longname, attrs);
    AttrsRoundTrip(item, z);
  }

  /** The wire form is parsed as the entry, whatever follows. */
  ghost predicate Frames(parse: Bytes -> Parsed<Entry>, wire: Bytes, e: Entry) {
    forall z: Bytes :: parse(wire + z) == Parsed(e, z)
  }

  ghost predicate AllFrame(parse: Bytes -> Parsed<Entry>, wires: seq<Bytes>, es: seq<Entry>) {
    |wires| == |es| && forall i :: 0 <= i < |es| ==> Frames(parse, wires[i], es[i])
  }

  lemma ManyCons(count: nat, parse: Bytes -> Parsed<Entry>, wire: Bytes, e: Entry, z: Bytes)
    requires count > 0 && Frames(parse, wire, e)
    ensures ParseMany(count, wire + z, parse) == [e] + ParseMany(count - 1, z, parse)
  {
  }

  lemma {:induction false} ManyRoundTrip(parse: Bytes -> Parsed<Entry>, wires: seq<Bytes>, es: seq<Entry>, z: Bytes)
    requires AllFrame(parse, wires, es)
    ensures ParseMany(|es|, Concat(wires) + z, parse) == es
    decreases |es|
  {
    if es != [] {
      assert Concat(wires) + z == wires[0] + (Concat(wires[1..]) + z);
      ManyCons(|es|, parse, wires[0], es[0], Concat(wires[1..]) + z);
      ManyRoundTrip(parse, wires[1..], es[1..], z);
    }
  }

  lemma ItemsFrame(items: seq<Item>)
    requires ItemsOk(items)
    ensures AllFrame(ParseEntry, Wires(items), EntriesOf(items))
  {
    forall i | 0 <= i < |items| ensures Frames(ParseEntry, Wires(items)[i], EntriesOf(items)[i]) {
      forall z: Bytes ensures ParseEntry(Wires(items)[i] + z) == Parsed(EntriesOf(items)[i], z) {
        ItemRoundTrip(items[i], z);
      }
    }
  }

  lemma HeaderRoundTrip(id: nat, count: nat, body: Bytes)
    requires FitsU32(id) && FitsU32(count)
    ensures ParseReply(PutU32(id) + (PutU32(count) + body)) == ParseMany(count, body, ParseEntry)
  {
    var s := PutU32(id) + (PutU32(count) + body);
    U32RoundTrip(id, PutU32(count) + body);
    U32RoundTrip(count, body);
    assert s[NAME_HEADER..] == s[4..][4..];
  }

  lemma Regroup(a: Bytes, b: Bytes, c: Bytes, z: Bytes)
    ensures a + (b + c) + z == a + (b + (c + z))
  {
  }

  function PutReply(id: nat, items: seq<Item>): Bytes
    requires FitsU32(id) && FitsU32(|items|) && ItemsOk(items)
  {
    PutU32(id) + (PutU32(|items|) + PutItems(items))
  }

  /** A reply parses to exactly what it lists, whatever attributes and extended
      pairs its entries carry and whatever follows it. */
  lemma ReplyRoundTrip(id: nat, items: seq<Item>, z: Bytes)
    requires FitsU32(id) && FitsU32(|items|) && ItemsOk(items)
    ensures ParseReply(PutReply(id, items) + z) == EntriesOf(items)
  {
    var body := PutItems(items) + z;
    Regroup(PutU32(id), PutU32(|items|), PutItems(items), z);
    HeaderRoundTrip(id, |items|, body);
    ItemsFrame(items);
    ManyRoundTrip(ParseEntry, Wires(items), EntriesOf(items), z);
  }

  predicate IsElement(name: Bytes) {
    name != [] && (SLASH in name ==> name == [SLASH])
  }

  lemma NameIsElement(s: Bytes)
    requires ParseEntry(s).Parsed?
    ensures IsElement(ParseEntry(s).value.name)
  {
    PosixPath.BaseShape(TakeString(s).value, SLASH, DOT);
  }

  lemma {:induction false} ManyNames(count: nat, s: Bytes, parse: Bytes -> Parsed<Entry>)
    requires forall b: Bytes :: parse(b).Parsed? ==> IsElement(parse(b).value.name)
    ensures forall i :: 0 <= i < |ParseMany(count, s, parse)| ==> IsElement(ParseMany(count, s, parse)[i].name)
  {
    if count > 0 && parse(s).Parsed? {
      ManyNames(count - 1, parse(s).rest, parse);
    }
  }

  /** Whatever the bytes, a parsed name is one path element: never empty, and
      without a separator unless the server named the root itself. */
  lemma NamesAreElements(s: Bytes)
    ensures forall i :: 0 <= i < |ParseReply(s)| ==> IsElement(ParseReply(s)[i].name)
  {
    forall b: Bytes | ParseEntry(b).Parsed? ensures IsElement(ParseEntry(b).value.name) {
      NameIsElement(b);
    }
    if |s| >= NAME_HEADER {
      ManyNames(GetU32(s[4..]), s[NAME_HEADER..], ParseEntry);
    }
  }
}
