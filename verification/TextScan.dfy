/** Telling text from binary while a file is read in pieces
    (hub/internal/files/service.go:480-584).

    Text is a byte string without NUL that is valid UTF-8 as section 4 of RFC
    3629 defines it.  The scanner sees the file one chunk at a time, and a chunk
    may end inside a character.
  */
module TextScan {
  import opened Option
  import opened Octets

  const SCAN_CHUNK := 32 * 1024
  const UTF_MAX := 4

  // --- UTF-8, section 4 of RFC 3629 ---

  predicate Tail(b: byte) {
    0x80 <= b <= 0xBF
  }

  /** What may follow a lead byte of a three-byte character. */
  predicate Second3(lead: byte, b: byte) {
    if lead == 0xE0 then 0xA0 <= b <= 0xBF
    else if lead == 0xED then 0x80 <= b <= 0x9F
    else Tail(b)
  }

  predicate Second4(lead: byte, b: byte) {
    if lead == 0xF0 then 0x90 <= b <= 0xBF
    else if lead == 0xF4 then 0x80 <= b <= 0x8F
    else Tail(b)
  }

  /** The length of the character s begins with, or 0 if it begins with none. */
  function CharLen(s: Bytes): (n: nat)
    ensures n <= |s| && n <= UTF_MAX
  {
    if |s| >= 1 && s[0] <= 0x7F then 1
    else if |s| >= 2 && 0xC2 <= s[0] <= 0xDF && Tail(s[1]) then 2
    else if |s| >= 3 && 0xE0 <= s[0] <= 0xEF && Second3(s[0], s[1]) && Tail(s[2]) then 3
    else if |s| >= 4 && 0xF0 <= s[0] <= 0xF4 && Second4(s[0], s[1]) && Tail(s[2]) && Tail(s[3]) then 4
    else 0
  }

  predicate ValidUtf8(s: Bytes) {
    s == [] || (CharLen(s) > 0 && ValidUtf8(s[CharLen(s)..]))
  }

  predicate IsText(s: Bytes) {
    0 !in s && ValidUtf8(s)
  }

  /** The bytes after a character do not matter to it. */
  lemma CharLenLocal(s: Bytes, t: Bytes)
    requires CharLen(s) > 0 && CharLen(s) <= |t|
    requires forall i :: 0 <= i < CharLen(s) ==> s[i] == t[i]
    ensures CharLen(t) == CharLen(s)
  {
  }

  /** Validity of a valid prefix followed by anything is that of the rest. */
  lemma {:induction false} ValidJoins(v: Bytes, x: Bytes)
    requires ValidUtf8(v)
    ensures ValidUtf8(v + x) <==> ValidUtf8(x)
    decreases |v|
  {
    if v == [] {
      assert v + x == x;
    } else {
      var n := CharLen(v);
      assert CharLen(v + x) == n by { CharLenLocal(v, v + x); }
      assert (v + x)[n..] == v[n..] + x;
      ValidJoins(v[n..], x);
    }
  }

  // --- The scanner ---

  function Width(lead: byte): nat {
    if 0xC2 <= lead <= 0xDF then 2
    else if 0xE0 <= lead <= 0xEF then 3
    else if 0xF0 <= lead <= 0xF4 then 4
    else 0
  }

  /** Looser than "proper prefix of a character": E0 80 passes. */
  predicate IsPartialRune(b: Bytes) {
    && b != [] && |b| < Width(b[0])
    && (forall i :: 1 <= i < |b| ==> Tail(b[i]))
  }

  /** The bytes seen are decided up to a tail held back. */
  predicate Undecided(seen: Bytes, carry: Bytes) {
    && |carry| <= |seen| && seen == seen[..|seen| - |carry|] + carry
    && IsText(seen[..|seen| - |carry|])
    && (carry == [] || IsPartialRune(carry))
  }

  /** No continuation of these bytes is text. */
  ghost predicate Refuted(seen: Bytes) {
    forall rest: Bytes {:trigger IsText(seen + rest)} :: !IsText(seen + rest)
  }

  predicate Same(a: Bytes, b: Bytes) {
    a == b
  }

  /** Undecided, kept folded: it is unfolded only where some bytes are named the Same. */
  ghost predicate Holding(seen: Bytes, carry: Bytes) {
    forall s: Bytes :: Same(s, seen) ==> Undecided(s, carry)
  }

  lemma CutCharIsPartial(x: Bytes, y: Bytes)
    requires 0 < |x| < CharLen(x + y)
    ensures |x| < UTF_MAX && IsPartialRune(x)
  {
    assert forall i :: 0 <= i < |x| ==> (x + y)[i] == x[i];
  }

  lemma ValidExtends(x: Bytes, n: nat, m: nat)
    requires 0 < n <= m <= |x| && CharLen(x) == n && ValidUtf8(x[n..][..m - n])
    ensures ValidUtf8(x[..m])
  {
    CharLenLocal(x, x[..m]);
    assert x[..m][n..] == x[n..][..m - n];
  }

  lemma FirstCharApart(x: Bytes, y: Bytes)
    requires x != [] && ValidUtf8(x + y) && CharLen(x + y) <= |x|
    ensures CharLen(x) == CharLen(x + y) && ValidUtf8(x[CharLen(x)..] + y)
  {
    CharLenLocal(x + y, x);
    assert (x + y)[CharLen(x)..] == x[CharLen(x)..] + y;
  }

  /** Where valid bytes are cut, at most three are left of a character cut short. */
  lemma {:induction false} CutLeavesPartial(x: Bytes, y: Bytes) returns (k: nat)
    requires ValidUtf8(x + y)
    ensures k <= |x| && |x| - k < UTF_MAX && ValidUtf8(x[..k])
    ensures k < |x| ==> IsPartialRune(x[k..])
    decreases |x|
  {
    if x == [] {
      return 0;
    }
    var n := CharLen(x + y);
    if n <= |x| {
      FirstCharApart(x, y);
      var j := CutLeavesPartial(x[n..], y);
      k := n + j;
      ValidExtends(x, n, k);
      assert x[n..][j..] == x[k..];
    } else {
      CutCharIsPartial(x, y);
      k := 0;
      assert x[0..] == x;
    }
  }

  /** A proper beginning of a character, or of something like one, is not valid. */
  lemma PartialIsInvalid(b: Bytes)
    requires IsPartialRune(b)
    ensures !ValidUtf8(b)
  {
  }

  predicate SplitsAt(s: Bytes, k: nat)
    requires k <= |s|
  {
    ValidUtf8(s[..k]) && IsPartialRune(s[k..])
  }

  lemma NulRefutes(decided: Bytes, sample: Bytes)
    requires 0 in sample
    ensures Refuted(decided + sample)
  {
    forall rest: Bytes ensures !IsText(decided + sample + rest) {
      var i :| 0 <= i < |sample| && sample[i] == 0;
      assert (decided + sample + rest)[|decided| + i] == 0;
    }
  }

  /** No cut within the last drop - 1 bytes leaves valid bytes and a partial character. */
  predicate NoSplit(s: Bytes, drop: nat) {
    forall k :: 0 <= k < |s| < k + drop ==> !SplitsAt(s, k)
  }

  lemma NoSplitRefutes(decided: Bytes, sample: Bytes, drop: nat)
    requires ValidUtf8(decided) && !ValidUtf8(sample)
    requires NoSplit(sample, drop) && (drop >= UTF_MAX || drop > |sample|)
    ensures Refuted(decided + sample)
  {
    forall rest: Bytes ensures !IsText(decided + sample + rest) {
      if ValidUtf8(decided + sample + rest) {
        InvalidSample(decided, sample, rest, drop);
      }
    }
  }

  lemma InvalidSample(decided: Bytes, sample: Bytes, rest: Bytes, drop: nat)
    requires ValidUtf8(decided) && ValidUtf8(decided + sample + rest)
    requires NoSplit(sample, drop) && (drop >= UTF_MAX || drop > |sample|)
    ensures ValidUtf8(sample)
  {
    assert decided + sample + rest == decided + (sample + rest);
    ValidJoins(decided, sample + rest);
    var k := CutLeavesPartial(sample, rest);
    if k < |sample| {
      assert SplitsAt(sample, k);
    } else {
      assert sample[..k] == sample;
    }
  }

  class Scan {
    var carry: Bytes

    constructor ()
      ensures carry == []
    {
      carry := [];
    }

    /** `seen` is everything shown to the scanner before; it is not stored. */
    method DecidedBy(ghost seen: Bytes, chunk: Bytes) returns (binary: bool)
      requires Holding(seen, carry)
      modifies this
      ensures binary ==> Refuted(seen + chunk)
      ensures !binary ==> Holding(seen + chunk, carry)
    {
      assert Same(seen, seen);
      var sample := carry + chunk;
      ghost var decided := seen[..|seen| - |carry|];
      assert seen + chunk == decided + sample;
      carry := [];
      if 0 in sample {
        NulRefutes(decided, sample);
        return true;
      }
      if ValidUtf8(sample) {
        assert sample[..|sample|] == sample;
        StillUndecided(decided, sample, |sample|);
        return false;
      }
      var drop := 1;
      while drop < UTF_MAX && drop <= |sample|
        invariant 1 <= drop <= UTF_MAX
        invariant NoSplit(sample, drop)
      {
        if SplitsAt(sample, |sample| - drop) {
          StillUndecided(decided, sample, |sample| - drop);
          carry := sample[|sample| - drop..];
          return false;
        }
        drop := drop + 1;
      }
      NoSplitRefutes(decided, sample, drop);
      return true;
    }
  }

  lemma StillUndecided(decided: Bytes, sample: Bytes, k: nat)
    requires IsText(decided) && 0 !in sample && k <= |sample| && ValidUtf8(sample[..k])
    requires k == |sample| || IsPartialRune(sample[k..])
    ensures Undecided(decided + sample, sample[k..])
  {
    var seen, carry := decided + sample, sample[k..];
    assert seen[..|seen| - |carry|] == decided + sample[..k];
    ValidJoins(decided, sample[..k]);
    assert seen == seen[..|seen| - |carry|] + carry;
  }

  function Examined(file: Bytes, size: nat): Bytes {
    if size < |file| then file[..size] else file
  }

  /** One read: any non-empty part of what is asked for, or nothing at the end. */
  method ReadAt(file: Bytes, limit: nat, offset: nat) returns (chunk: Bytes)
    requires 0 < limit && offset <= |file|
    ensures |chunk| <= limit && offset + |chunk| <= |file| && chunk == file[offset..offset + |chunk|]
    ensures chunk == [] <==> offset == |file|
  {
    var most := Least(limit, |file| - offset);
    if most == 0 {
      return [];
    }
    var read :| 1 <= read <= most;
    chunk := file[offset..offset + read];
  }

  lemma NothingSeen()
    ensures Holding([], [])
  {
  }

  lemma SeenAll(whole: Bytes, offset: nat, carry: Bytes)
    requires offset == |whole| && Holding(whole[..offset], carry)
    ensures IsText(whole) <==> carry == []
  {
    assert whole[..offset] == whole && Same(whole, whole);
    HeldBackIsBinary(whole, carry);
  }

  lemma SeenMore(whole: Bytes, offset: nat, n: nat)
    requires offset + n <= |whole|
    ensures whole[..offset] + whole[offset..offset + n] == whole[..offset + n]
  {
  }

  lemma ChunkOf(file: Bytes, size: nat, offset: nat, n: nat)
    requires offset + n <= size && offset + n <= |file|
    ensures offset + n <= |Examined(file, size)|
    ensures Examined(file, size)[offset..offset + n] == file[offset..offset + n]
  {
  }

  /** Reads may be short, and the file may have become shorter than its size said.
      `fails` says at which offsets the request is found cancelled or the read
      fails, and no value is that outcome. */
  method LooksBinary(file: Bytes, size: nat, fails: nat -> bool) returns (binary: Option<bool>)
    ensures binary.None? ==> exists offset :: fails(offset)
    ensures binary.Some? ==> binary.value == !IsText(Examined(file, size))
  {
    ghost var whole := Examined(file, size);
    if size == 0 {
      assert whole == [];
      return Some(false);
    }
    var scan := new Scan();
    var offset := 0;
    NothingSeen();
    assert whole[..0] == [];
    while offset < size
      invariant offset <= |whole| && Holding(whole[..offset], scan.carry)
      decreases size - offset
    {
      if fails(offset) {
        return None;
      }
      var chunk := ReadAt(file, Least(SCAN_CHUNK, size - offset), offset);
      if chunk == [] {
        break;
      }
      ChunkOf(file, size, offset, |chunk|);
      SeenMore(whole, offset, |chunk|);
      var decided := scan.DecidedBy(whole[..offset], chunk);
      offset := offset + |chunk|;
      if decided {
        RefutedWhole(whole, offset);
        return Some(true);
      }
    }
    SeenAll(whole, offset, scan.carry);
    return Some(|scan.carry| > 0);
  }

  function Least(a: nat, b: nat): nat {
    if a < b then a else b
  }

  lemma RefutedWhole(s: Bytes, k: nat)
    requires k <= |s| && Refuted(s[..k])
    ensures !IsText(s)
  {
    assert s[..k] + s[k..] == s;
  }

  /** At the end of the file, what is held back decides. */
  lemma HeldBackIsBinary(seen: Bytes, carry: Bytes)
    requires Undecided(seen, carry)
    ensures IsText(seen) <==> carry == []
  {
    if carry == [] {
      assert seen[..|seen|] == seen;
    } else {
      ValidJoins(seen[..|seen| - |carry|], carry);
      PartialIsInvalid(carry);
    }
  }
}
