/** Length-prefixed pane listings
    (hub/internal/tmux/panes.go:13-149).

    tmux writes each field of a pane as its byte count, a colon and its bytes, so
    that no field value is syntax.  A char of a string here is a byte there.
  */
module Panes {
  import opened Option

  const FIELD_COUNT := 9
  const MAX_INT := 0x7FFF_FFFF_FFFF_FFFF

  datatype Pane = Pane(
    session: string,
    windowIndex: int,
    paneIndex: int,
    windowActive: bool,
    paneActive: bool,
    dead: bool,
    windowName: string,
    title: string,
    currentCommand: string)

  // --- strconv.Atoi on a 64-bit platform ---

  predicate IsDigit(c: char) {
    '0' <= c <= '9'
  }

  function DigitOf(c: char): nat
    requires IsDigit(c)
  {
    c as int - '0' as int
  }

  /** The number the first n characters spell. */
  function DigitsValue(s: string, n: nat): (v: Option<int>)
    requires n <= |s|
    ensures v.Some? ==> v.value >= 0
  {
    if n == 0 then Some(0)
    else match DigitsValue(s, n - 1)
      case None => None
      case Some(v) => if IsDigit(s[n - 1]) then Some(10 * v + DigitOf(s[n - 1])) else None
  }

  function Unsigned(s: string): string {
    if s != "" && (s[0] == '-' || s[0] == '+') then s[1..] else s
  }

  function Atoi(s: string): Option<int> {
    var digits := Unsigned(s);
    if digits == "" then None
    else match DigitsValue(digits, |digits|)
      case None => None
      case Some(v) =>
        if s[0] == '-' then (if v <= MAX_INT + 1 then Some(-v) else None)
        else if v <= MAX_INT then Some(v) else None
  }

  function AtoiOrZero(s: string): int {
    match Atoi(s)
    case Some(n) => n
    case None => 0
  }

  // --- What parsing means ---

  datatype Parsed<T> = Parsed(value: T, rest: string) | Malformed

  /** The position of the first colon from i on, or the length. */
  function ColonAt(s: string, i: nat): (k: nat)
    requires i <= |s|
    ensures i <= k <= |s|
    decreases |s| - i
  {
    if i == |s| || s[i] == ':' then i else ColonAt(s, i + 1)
  }

  function ParseField(s: string): (r: Parsed<string>)
    ensures r.Parsed? ==> |r.rest| < |s|
  {
    var colon := ColonAt(s, 0);
    if colon == 0 || colon == |s| then Malformed
    else match Atoi(s[..colon])
      case None => Malformed
      case Some(n) =>
        if n < 0 || n > |s| - colon - 1 then Malformed
        else Parsed(s[colon + 1..][..n], s[colon + 1..][n..])
  }

  function ParseFields(count: nat, s: string): (r: Parsed<seq<string>>)
    ensures r.Parsed? ==> |r.value| == count && |r.rest| <= |s| && (count > 0 ==> |r.rest| < |s|)
    decreases |s|
  {
    if count == 0 then Parsed([], s)
    else match ParseField(s)
      case Malformed => Malformed
      case Parsed(f, rest) =>
        match ParseFields(count - 1, rest)
        case Malformed => Malformed
        case Parsed(fs, rest') => Parsed([f] + fs, rest')
  }

  /** A record ends with its line, or with the input. */
  function EndRecord(fs: seq<string>, rest: string): (r: Parsed<seq<string>>)
    ensures r.Parsed? ==> r.value == fs && |r.rest| <= |rest|
  {
    if "\r\n" <= rest then Parsed(fs, rest[2..])
    else if "\n" <= rest then Parsed(fs, rest[1..])
    else if rest == "" then Parsed(fs, rest)
    else Malformed
  }

  function ParseRecord(s: string): (r: Parsed<seq<string>>)
    ensures r.Parsed? ==> |r.value| == FIELD_COUNT && |r.rest| < |s|
  {
    match ParseFields(FIELD_COUNT, s)
    case Malformed => Malformed
    case Parsed(fs, rest) => EndRecord(fs, rest)
  }

  function Project(fs: seq<string>): Pane
    requires |fs| == FIELD_COUNT
  {
    Pane(fs[0], AtoiOrZero(fs[1]), AtoiOrZero(fs[2]), fs[3] == "1", fs[4] == "1", fs[5] == "1", fs[6], fs[7], fs[8])
  }

  predicate Whole(rs: seq<seq<string>>) {
    forall i :: 0 <= i < |rs| ==> |rs[i]| == FIELD_COUNT
  }

  /** The field values of every record, up to the first malformed one. */
  function ParseRecords(s: string): (rs: seq<seq<string>>)
    ensures Whole(rs)
    decreases |s|
  {
    if s == "" then []
    else if "\r\n" <= s then ParseRecords(s[2..])
    else if "\n" <= s then ParseRecords(s[1..])
    else match ParseRecord(s)
      case Malformed => []
      case Parsed(fs, rest) => [fs] + ParseRecords(rest)
  }

  function ProjectAll(rs: seq<seq<string>>): (ps: seq<Pane>)
    requires Whole(rs)
    ensures |ps| == |rs| && forall i :: 0 <= i < |rs| ==> ps[i] == Project(rs[i])
  {
    seq(|rs|, i requires 0 <= i < |rs| => Project(rs[i]))
  }

  // --- The parser ---

  method IndexColon(s: string) returns (k: int)
    ensures k == if ColonAt(s, 0) == |s| then -1 else ColonAt(s, 0)
  {
    k := 0;
    while k < |s|
      invariant 0 <= k <= |s| && ColonAt(s, 0) == ColonAt(s, k)
    {
      if s[k] == ':' {
        return k;
      }
      k := k + 1;
    }
    return -1;
  }

  function Prepend(fs: seq<string>, p: Parsed<seq<string>>): Parsed<seq<string>> {
    match p
    case Malformed => Malformed
    case Parsed(more, rest) => Parsed(fs + more, rest)
  }

  lemma {:induction false} PrependStep(count: nat, fs: seq<string>, s: string)
    requires count > 0
    ensures ParseField(s).Malformed? ==> Prepend(fs, ParseFields(count, s)).Malformed?
    ensures ParseField(s).Parsed? ==> Prepend(fs, ParseFields(count, s))
                                      == Prepend(fs + [ParseField(s).value], ParseFields(count - 1, ParseField(s).rest))
  {
    if ParseField(s).Parsed? && ParseFields(count, s).Parsed? {
      var f, more := ParseField(s).value, ParseFields(count - 1, ParseField(s).rest).value;
      assert fs + ([f] + more) == fs + [f] + more;
    }
  }

  lemma {:induction false} PrependNone(p: Parsed<seq<string>>)
    ensures Prepend([], p) == p
  {
    if p.Parsed? {
      assert [] + p.value == p.value;
    }
  }

  /** Having read some fields, what is still to come is what the rest parses to. */
  predicate SoFar(all: Parsed<seq<string>>, fields: seq<string>, count: nat, rest: string) {
    all == Prepend(fields, ParseFields(count, rest))
  }

  lemma {:induction false} OneField(all: Parsed<seq<string>>, fields: seq<string>, count: nat, rest: string, colon: int)
    requires count > 0 && SoFar(all, fields, count, rest)
    requires colon == if ColonAt(rest, 0) == |rest| then -1 else ColonAt(rest, 0)
    ensures colon <= 0 ==> all == Malformed
    ensures colon > 0 ==>
              var n := Atoi(rest[..colon]);
              if n.None? || n.value < 0 || n.value > |rest| - colon - 1 then all == Malformed
              else SoFar(all, fields + [rest[colon + 1..][..n.value]], count - 1, rest[colon + 1..][n.value..])
  {
    PrependStep(count, fields, rest);
  }

  lemma {:induction false} NoFieldYet(s: string)
    ensures SoFar(ParseFields(FIELD_COUNT, s), [], FIELD_COUNT, s)
  {
    PrependNone(ParseFields(FIELD_COUNT, s));
  }

  lemma {:induction false} AllFields(all: Parsed<seq<string>>, fields: seq<string>, rest: string)
    requires SoFar(all, fields, 0, rest)
    ensures all == Parsed(fields, rest)
  {
    assert fields + [] == fields;
  }

  /** The nine fields, before the line ending is looked at. */
  method ParsePaneFields(input: string) returns (fields: seq<string>, rest: string, ok: bool)
    ensures ParseFields(FIELD_COUNT, input) == if ok then Parsed(fields, rest) else Malformed
  {
    rest, fields := input, [];
    ghost var all := ParseFields(FIELD_COUNT, input);
    NoFieldYet(input);
    for i := 0 to FIELD_COUNT
      invariant SoFar(all, fields, FIELD_COUNT - i, rest)
    {
      var colon := IndexColon(rest);
      OneField(all, fields, FIELD_COUNT - i, rest, colon);
      if colon <= 0 {
        return [], rest, false;
      }
      var length := Atoi(rest[..colon]);
      if length.None? || length.value < 0 || length.value > |rest| - colon - 1 {
        return [], rest, false;
      }
      rest := rest[colon + 1..];
      fields := fields + [rest[..length.value]];
      rest := rest[length.value..];
    }
    AllFields(all, fields, rest);
    ok := true;
  }

  method ParsePaneRecord(input: string) returns (fields: seq<string>, rest: string, ok: bool)
    ensures ParseRecord(input) == if ok then Parsed(fields, rest) else Malformed
  {
    fields, rest, ok := ParsePaneFields(input);
    if !ok {
      return;
    }
    if "\r\n" <= rest {
      return fields, rest[2..], true;
    }
    if "\n" <= rest {
      return fields, rest[1..], true;
    }
    if rest == "" {
      return fields, rest, true;
    }
    return [], rest, false;
  }

  method ParsePanes(stdout: string) returns (out: seq<Pane>)
    ensures out == ProjectAll(ParseRecords(stdout))
  {
    out := [];
    var input := stdout;
    ghost var records := [];
    while |input| > 0
      invariant Whole(records) && out == ProjectAll(records)
      invariant ParseRecords(stdout) == records + ParseRecords(input)
    {
      if "\r\n" <= input {
        input := input[2..];
        continue;
      }
      if "\n" <= input {
        input := input[1..];
        continue;
      }
      var fields, rest, ok := ParsePaneRecord(input);
      if !ok {
        break;
      }
      assert records + ([fields] + ParseRecords(rest)) == records + [fields] + ParseRecords(rest);
      records := records + [fields];
      input := rest;
      out := out + [Project(fields)];
    }
  }

  // --- What tmux writes ---

  function Decimal(n: nat): (s: string)
    ensures s != "" && forall i :: 0 <= i < |s| ==> IsDigit(s[i])
  {
    var digit := [('0' as int + n % 10) as char];
    if n < 10 then digit else Decimal(n / 10) + digit
  }

  /** #{n:name}:#{name} */
  function Frame(f: string): string {
    Decimal(|f|) + ":" + f
  }

  function Frames(fs: seq<string>): string {
    if fs == [] then "" else Frame(fs[0]) + Frames(fs[1..])
  }

  datatype Line = Line(fields: seq<string>, eol: string)

  predicate FieldsOk(fs: seq<string>) {
    forall i :: 0 <= i < |fs| ==> |fs[i]| <= MAX_INT
  }

  predicate LineOk(l: Line) {
    |l.fields| == FIELD_COUNT && FieldsOk(l.fields) && (l.eol == "\n" || l.eol == "\r\n")
  }

  predicate LinesOk(ls: seq<Line>) {
    forall i :: 0 <= i < |ls| ==> LineOk(ls[i])
  }

  function Render(ls: seq<Line>): string {
    if ls == [] then "" else Frames(ls[0].fields) + ls[0].eol + Render(ls[1..])
  }

  function FieldsOfLines(ls: seq<Line>): seq<seq<string>> {
    if ls == [] then [] else [ls[0].fields] + FieldsOfLines(ls[1..])
  }

  /** How many records the first k characters hold whole; the very last may lack its line ending. */
  function Complete(ls: seq<Line>, k: nat): (n: nat)
    ensures n <= |ls|
  {
    if ls == [] then 0
    else
      var body := |Frames(ls[0].fields)|;
      if k < body then 0
      else if k == body then 1
      else if k < body + |ls[0].eol| then 0
      else 1 + Complete(ls[1..], k - body - |ls[0].eol|)
  }

  // --- Round trips ---

  lemma {:induction false} DigitsOfPrefix(s: string, t: string, n: nat)
    requires n <= |s| && n <= |t| && forall i :: 0 <= i < n ==> s[i] == t[i]
    ensures DigitsValue(s, n) == DigitsValue(t, n)
  {
    if n > 0 {
      DigitsOfPrefix(s, t, n - 1);
    }
  }

  lemma {:induction false} DecimalValue(n: nat)
    ensures DigitsValue(Decimal(n), |Decimal(n)|) == Some(n)
  {
    if n < 10 {
      assert DigitsValue(Decimal(n), 0) == Some(0);
    } else {
      DecimalValue(n / 10);
      DigitsOfPrefix(Decimal(n), Decimal(n / 10), |Decimal(n / 10)|);
    }
  }

  lemma {:induction false} AtoiDecimal(n: nat)
    requires n <= MAX_INT
    ensures Atoi(Decimal(n)) == Some(n)
  {
    DecimalValue(n);
    assert IsDigit(Decimal(n)[0]);
  }

  /** A sign is read, and what is no number is none. */
  lemma {:induction false} AtoiSigned(n: nat)
    ensures n <= MAX_INT ==> Atoi("+" + Decimal(n)) == Some(n)
    ensures n <= MAX_INT + 1 ==> Atoi("-" + Decimal(n)).Some? && Atoi("-" + Decimal(n)).value + n == 0
    ensures n > MAX_INT + 1 ==> Atoi("-" + Decimal(n)) == None && Atoi(Decimal(n)) == None
  {
    DecimalValue(n);
    assert ("+" + Decimal(n))[1..] == Decimal(n) && ("-" + Decimal(n))[1..] == Decimal(n);
    assert IsDigit(Decimal(n)[0]);
  }

  lemma {:induction false} ColonIs(s: string, i: nat, k: nat)
    requires i <= k <= |s| && (k == |s| || s[k] == ':') && forall j :: i <= j < k ==> s[j] != ':'
    ensures ColonAt(s, i) == k
    decreases k - i
  {
    if i < k {
      ColonIs(s, i + 1, k);
    }
  }

  lemma {:induction false} FieldRoundTrip(f: string, z: string)
    requires |f| <= MAX_INT
    ensures ParseField(Frame(f) + z) == Parsed(f, z)
  {
    var s, a := Frame(f) + z, Decimal(|f|);
    assert s == a + ":" + (f + z);
    ColonIs(s, 0, |a|);
    assert s[..|a|] == a;
    AtoiDecimal(|f|);
    assert s[|a| + 1..] == f + z;
  }

  lemma {:induction false} FieldTruncated(f: string, k: nat)
    requires |f| <= MAX_INT && k < |Frame(f)|
    ensures ParseField(Frame(f)[..k]).Malformed?
  {
    var s, a := Frame(f)[..k], Decimal(|f|);
    if k <= |a| {
      ColonIs(s, 0, k);
    } else {
      assert s == a + ":" + f[..k - |a| - 1];
      ColonIs(s, 0, |a|);
      assert s[..|a|] == a;
      AtoiDecimal(|f|);
    }
  }

  lemma {:induction false} FieldsCons(count: nat, f: string, z: string)
    requires count > 0 && |f| <= MAX_INT
    ensures ParseFields(count, Frame(f) + z) == Prepend([f], ParseFields(count - 1, z))
  {
    FieldRoundTrip(f, z);
  }

  lemma {:induction false} Regroup(a: string, b: string, c: string)
    ensures a + b + c == a + (b + c)
  {
  }

  lemma {:induction false} FieldsRoundTrip(fs: seq<string>, z: string)
    requires FieldsOk(fs)
    ensures ParseFields(|fs|, Frames(fs) + z) == Parsed(fs, z)
    decreases |fs|
  {
    if fs == [] {
      assert Frames(fs) + z == z;
    } else {
      Regroup(Frame(fs[0]), Frames(fs[1..]), z);
      FieldsCons(|fs|, fs[0], Frames(fs[1..]) + z);
      FieldsRoundTrip(fs[1..], z);
      assert [fs[0]] + fs[1..] == fs;
    }
  }

  lemma {:induction false} CutAfter(a: string, b: string, k: nat)
    requires |a| <= k <= |a| + |b|
    ensures (a + b)[..k] == a + b[..k - |a|]
  {
  }

  lemma {:induction false} FirstTruncated(count: nat, f: string, others: string, k: nat)
    requires count > 0 && |f| <= MAX_INT && k < |Frame(f)|
    ensures ParseFields(count, (Frame(f) + others)[..k]).Malformed?
  {
    FieldTruncated(f, k);
    assert (Frame(f) + others)[..k] == Frame(f)[..k];
  }

  lemma {:induction false} OthersTruncated(count: nat, f: string, others: string, k: nat)
    requires count > 0 && |f| <= MAX_INT && |Frame(f)| <= k <= |Frame(f)| + |others|
    requires ParseFields(count - 1, others[..k - |Frame(f)|]).Malformed?
    ensures ParseFields(count, (Frame(f) + others)[..k]).Malformed?
  {
    CutAfter(Frame(f), others, k);
    MalformedLater(count, f, others[..k - |Frame(f)|]);
  }

  lemma {:induction false} MalformedLater(count: nat, f: string, z: string)
    requires count > 0 && |f| <= MAX_INT && ParseFields(count - 1, z).Malformed?
    ensures ParseFields(count, Frame(f) + z).Malformed?
  {
    FieldsCons(count, f, z);
  }

  lemma {:induction false} FieldsTruncated(fs: seq<string>, k: nat)
    requires FieldsOk(fs) && k < |Frames(fs)|
    ensures ParseFields(|fs|, Frames(fs)[..k]).Malformed?
    decreases |fs|
  {
    var f, others := fs[0], Frames(fs[1..]);
    assert Frames(fs) == Frame(f) + others;
    if k < |Frame(f)| {
      FirstTruncated(|fs|, f, others, k);
    } else {
      FieldsTruncated(fs[1..], k - |Frame(f)|);
      OthersTruncated(|fs|, f, others, k);
    }
  }

  /** Nothing that starts a record is taken for a blank line. */
  lemma {:induction false} NotBlank(fs: seq<string>, s: string)
    requires fs != [] && s != "" && (s <= Frames(fs) || Frames(fs) <= s)
    ensures !("\n" <= s) && !("\r\n" <= s)
  {
    assert IsDigit(Frames(fs)[0]);
  }

  lemma {:induction false} EndRecordEol(fs: seq<string>, eol: string, z: string)
    requires eol == "\n" || eol == "\r\n"
    ensures EndRecord(fs, eol + z) == Parsed(fs, z)
  {
    assert (eol + z)[0] == eol[0];
    assert (eol + z)[|eol|..] == z;
  }

  lemma {:induction false} RecordRoundTrip(l: Line, z: string)
    requires LineOk(l)
    ensures ParseRecord(Frames(l.fields) + (l.eol + z)) == Parsed(l.fields, z)
  {
    FieldsRoundTrip(l.fields, l.eol + z);
    EndRecordEol(l.fields, l.eol, z);
  }

  lemma {:induction false} WholeRecord(l: Line, z: string)
    requires LineOk(l)
    ensures ParseRecords(Frames(l.fields) + l.eol + z) == [l.fields] + ParseRecords(z)
  {
    Regroup(Frames(l.fields), l.eol, z);
    RecordRoundTrip(l, z);
    NotBlank(l.fields, Frames(l.fields) + (l.eol + z));
  }

  /** A record cut short is no record, unless only its line ending is missing. */
  lemma {:induction false} CutRecord(l: Line, k: nat)
    requires LineOk(l) && k < |Frames(l.fields)| + |l.eol|
    ensures ParseRecords((Frames(l.fields) + l.eol)[..k])
            == if k == |Frames(l.fields)| then [l.fields] else []
  {
    var body := Frames(l.fields);
    var s := (body + l.eol)[..k];
    if k < |body| {
      assert s == body[..k];
      FieldsTruncated(l.fields, k);
      if s != "" {
        NotBlank(l.fields, s);
      }
    } else {
      assert s == body + l.eol[..k - |body|];
      NotBlank(l.fields, s);
      FieldsRoundTrip(l.fields, l.eol[..k - |body|]);
    }
  }

  /** Whatever bytes the fields hold, the panes read from any truncation of the
      listing are exactly those whose records are complete in it. */
  lemma {:induction false} TruncationGivesPrefix(ls: seq<Line>, k: nat)
    requires LinesOk(ls) && k <= |Render(ls)|
    ensures ParseRecords(Render(ls)[..k]) == FieldsOfLines(ls[..Complete(ls, k)])
    decreases |ls|
  {
    if ls == [] {
    } else {
      var head := Frames(ls[0].fields) + ls[0].eol;
      if k < |head| {
        assert Render(ls)[..k] == head[..k];
        CutRecord(ls[0], k);
        assert Complete(ls, k) == 1 ==> FieldsOfLines(ls[..1]) == [ls[0].fields] + FieldsOfLines([]);
      } else {
        var n := Complete(ls[1..], k - |head|);
        CutAfter(head, Render(ls[1..]), k);
        WholeRecord(ls[0], Render(ls[1..])[..k - |head|]);
        TruncationGivesPrefix(ls[1..], k - |head|);
        assert ls[..1 + n][0] == ls[0] && ls[..1 + n][1..] == ls[1..][..n];
      }
    }
  }

  lemma {:induction false} AllComplete(ls: seq<Line>)
    requires LinesOk(ls)
    ensures Complete(ls, |Render(ls)|) == |ls|
    decreases |ls|
  {
    if ls != [] {
      AllComplete(ls[1..]);
    }
  }

  lemma {:induction false} WholeListing(ls: seq<Line>)
    requires LinesOk(ls)
    ensures ParseRecords(Render(ls)) == FieldsOfLines(ls)
  {
    TruncationGivesPrefix(ls, |Render(ls)|);
    AllComplete(ls);
    assert Render(ls)[..|Render(ls)|] == Render(ls) && ls[..|ls|] == ls;
  }

  // --- Panes ---

  function Flag(b: bool): string {
    if b then "1" else "0"
  }

  /** tmux numbers windows and panes from zero. */
  predicate PaneOk(p: Pane) {
    && 0 <= p.windowIndex <= MAX_INT && 0 <= p.paneIndex <= MAX_INT
    && |p.session| <= MAX_INT && |p.windowName| <= MAX_INT && |p.title| <= MAX_INT && |p.currentCommand| <= MAX_INT
  }

  predicate PanesOk(ps: seq<Pane>) {
    forall i :: 0 <= i < |ps| ==> PaneOk(ps[i])
  }

  function FieldsOf(p: Pane): seq<string>
    requires PaneOk(p)
  {
    [p.session, Decimal(p.windowIndex), Decimal(p.paneIndex), Flag(p.windowActive), Flag(p.paneActive), Flag(p.dead),
     p.windowName, p.title, p.currentCommand]
  }

  function Listing(ps: seq<Pane>): seq<Line>
    requires PanesOk(ps)
  {
    if ps == [] then [] else [Line(FieldsOf(ps[0]), "\n")] + Listing(ps[1..])
  }

  lemma {:induction false} DecimalLength(n: nat)
    ensures |Decimal(n)| <= n / 10 + 1
  {
    if n >= 10 {
      DecimalLength(n / 10);
    }
  }

  lemma {:induction false} FieldsProject(p: Pane)
    requires PaneOk(p)
    ensures FieldsOk(FieldsOf(p)) && Project(FieldsOf(p)) == p
  {
    AtoiDecimal(p.windowIndex);
    AtoiDecimal(p.paneIndex);
    DecimalLength(p.windowIndex);
    DecimalLength(p.paneIndex);
  }

  lemma {:induction false} ListingFields(ps: seq<Pane>)
    requires PanesOk(ps)
    ensures LinesOk(Listing(ps)) && |FieldsOfLines(Listing(ps))| == |ps|
    ensures forall i :: 0 <= i < |ps| ==> FieldsOfLines(Listing(ps))[i] == FieldsOf(ps[i])
    decreases |ps|
  {
    if ps != [] {
      FieldsProject(ps[0]);
      ListingFields(ps[1..]);
      LinesCons(Line(FieldsOf(ps[0]), "\n"), Listing(ps[1..]));
    }
  }

  lemma {:induction false} LinesCons(l: Line, ls: seq<Line>)
    requires LineOk(l) && LinesOk(ls)
    ensures LinesOk([l] + ls) && FieldsOfLines([l] + ls) == [l.fields] + FieldsOfLines(ls)
  {
    assert ([l] + ls)[1..] == ls;
  }

  /** Listing panes and parsing the listing gives the panes back. */
  lemma {:induction false} PanesRoundTrip(ps: seq<Pane>)
    requires PanesOk(ps)
    ensures ProjectAll(ParseRecords(Render(Listing(ps)))) == ps
  {
    ListingFields(ps);
    WholeListing(Listing(ps));
    forall i | 0 <= i < |ps| ensures Project(FieldsOf(ps[i])) == ps[i] { FieldsProject(ps[i]); }
  }
}
