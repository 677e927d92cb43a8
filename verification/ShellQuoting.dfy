/** Quoting for a POSIX shell (hub/internal/host/encoder.go:9-26).

    A char of a string here is a byte there.  The reader is sections 2.2.1
    (backslash), 2.2.2 (single quotes) and 2.3 (token recognition) of the Shell
    Command Language in POSIX.1-2017 XCU.
  */
module ShellQuoting {
  import opened Option

  const NUL := 0 as char

  // --- The encoder ---

  /** What a character becomes inside single quotes. */
  function Piece(c: char): string {
    if c == '\'' then "'" + "\\'" + "'" else [c]
  }

  function EscapeQuotes(s: string): string {
    if s == "" then ""
    else Piece(s[0]) + EscapeQuotes(s[1..])
  }

  function EncodeArg(arg: string): string {
    if arg == "" then "''" else "'" + EscapeQuotes(arg) + "'"
  }

  function Encoded(args: seq<string>): string {
    if args == [] then ""
    else Encoded(args[..|args| - 1]) + (if |args| > 1 then " " else "") + EncodeArg(args[|args| - 1])
  }

  method EncodeCommand(args: seq<string>) returns (line: string)
    ensures line == Encoded(args)
  {
    line := "";
    for i := 0 to |args|
      invariant line == Encoded(args[..i])
    {
      assert args[..i + 1][..i] == args[..i];
      if i > 0 {
        line := line + " ";
      }
      line := line + EncodeArg(args[i]);
    }
    assert args[..|args|] == args;
  }

  // --- The shell ---

  /** Unquoted, these mean something beyond the sections modelled. */
  predicate IsSpecial(c: char) {
    || c == '|' || c == '&' || c == ';' || c == '<' || c == '>' || c == '(' || c == ')' || c == '$' || c == '`'
    || c == '\"' || c == '*' || c == '?' || c == '[' || c == ']' || c == '#' || c == '~' || c == '=' || c == '%'
    || c == '{' || c == '}' || c == '!' || c == '\n'
  }

  predicate IsBlank(c: char) {
    c == ' ' || c == '\t'
  }

  /** The words recognised, the one begun if any, and whether inside single quotes. */
  datatype State = State(words: seq<string>, word: Option<string>, quoted: bool)

  function Adding(st: State, c: char): State {
    match st.word
    case None => st.(word := Some([c]))
    case Some(w) => st.(word := Some(w + [c]))
  }

  function Ended(st: State): State {
    match st.word
    case None => st
    case Some(w) => st.(words := st.words + [w], word := None)
  }

  function Quote(st: State): State {
    st.(word := if st.word.None? then Some("") else st.word, quoted := !st.quoted)
  }

  datatype Advance = Advance(used: nat, st: State) | Refused

  /** One step of token recognition.  Refused are a NUL, a final backslash, and a
      special character. */
  function Recognise(s: string, st: State): (a: Advance)
    requires s != ""
    ensures a.Advance? ==> 0 < a.used <= |s| && a.used <= 2
  {
    var c := s[0];
    if c == NUL then Refused
    else if c == '\'' then Advance(1, Quote(st))
    else if st.quoted then Advance(1, Adding(st, c))
    else if c == '\\' then
      if |s| == 1 || s[1] == NUL then Refused
      else if s[1] == '\n' then Advance(2, st)
      else Advance(2, Adding(st, s[1]))
    else if IsBlank(c) then Advance(1, Ended(st))
    else if IsSpecial(c) then Refused
    else Advance(1, Adding(st, c))
  }

  /** The words of s, continuing from a state; none if a quote is left open. */
  function Lex(s: string, st: State): Option<seq<string>>
    decreases |s|
  {
    if s == "" then (if st.quoted then None else Some(Ended(st).words))
    else match Recognise(s, st)
      case Refused => None
      case Advance(used, st') => Lex(s[used..], st')
  }

  const START := State([], None, false)

  function Words(line: string): Option<seq<string>> {
    Lex(line, START)
  }

  // --- Round trip ---

  predicate NoNul(args: seq<string>) {
    forall k :: 0 <= k < |args| ==> NUL !in args[k]
  }

  /** Reading the part leads from the first state to the second, whatever follows. */
  ghost predicate Reads(part: string, st: State, st': State) {
    forall z: string :: Lex(part + z, st) == Lex(z, st')
  }

  lemma ReadsNothing(st: State)
    ensures Reads("", st, st)
  {
    assert forall z: string :: "" + z == z;
  }

  lemma ReadsBoth(a: string, b: string, st: State, st': State, st'': State)
    requires Reads(a, st, st') && Reads(b, st', st'')
    ensures Reads(a + b, st, st'')
  {
    forall z: string ensures Lex(a + b + z, st) == Lex(z, st'') {
      assert a + b + z == a + (b + z);
    }
  }

  lemma ReadsChar(c: char, st: State)
    requires c == '\'' || (c == ' ' && !st.quoted) || (c != NUL && st.quoted)
    ensures Reads([c], st, if c == '\'' then Quote(st) else if st.quoted then Adding(st, c) else Ended(st))
  {
    var st' := if c == '\'' then Quote(st) else if st.quoted then Adding(st, c) else Ended(st);
    forall z: string ensures Lex([c] + z, st) == Lex(z, st') {
      assert ([c] + z)[1..] == z;
    }
  }

  lemma ReadsEscapedQuote(st: State)
    requires !st.quoted
    ensures Reads("\\'", st, Adding(st, '\''))
  {
    forall z: string ensures Lex("\\'" + z, st) == Lex(z, Adding(st, '\'')) {
      assert ("\\'" + z)[2..] == z;
    }
  }

  function Quoted(words: seq<string>, w: string): State {
    State(words, Some(w), true)
  }

  /** A quote closes the quoting, is escaped, and opens it again. */
  lemma ReadsPiece(c: char, words: seq<string>, w: string)
    requires c != NUL
    ensures Reads(Piece(c), Quoted(words, w), Quoted(words, w + [c]))
  {
    ReadsChar(c, Quoted(words, w));
    if c == '\'' {
      var closed, escaped := State(words, Some(w), false), State(words, Some(w + [c]), false);
      ReadsEscapedQuote(closed);
      ReadsChar(c, escaped);
      ReadsBoth("'", "\\'", Quoted(words, w), closed, escaped);
      ReadsBoth("'" + "\\'", "'", Quoted(words, w), escaped, Quoted(words, w + [c]));
    }
  }

  /** Inside quotes, the escaped text adds the text itself. */
  lemma {:induction false} ReadsEscaped(text: string, words: seq<string>, w: string)
    requires NUL !in text
    ensures Reads(EscapeQuotes(text), Quoted(words, w), Quoted(words, w + text))
    decreases |text|
  {
    if text == "" {
      ReadsNothing(Quoted(words, w));
      assert w + text == w;
    } else {
      var w' := w + [text[0]];
      ReadsPiece(text[0], words, w);
      ReadsEscaped(text[1..], words, w');
      ReadsBoth(Piece(text[0]), EscapeQuotes(text[1..]),
                Quoted(words, w), Quoted(words, w'), Quoted(words, w' + text[1..]));
      assert w' + text[1..] == w + text;
    }
  }

  lemma ReadsArg(arg: string, words: seq<string>)
    requires NUL !in arg
    ensures Reads(EncodeArg(arg), State(words, None, false), State(words, Some(arg), false))
  {
    var start, end := State(words, None, false), State(words, Some(arg), false);
    ReadsChar('\'', start);
    ReadsEscaped(arg, words, "");
    assert "" + arg == arg;
    ReadsChar('\'', Quoted(words, arg));
    ReadsBoth("'", EscapeQuotes(arg), start, Quoted(words, ""), Quoted(words, arg));
    ReadsBoth("'" + EscapeQuotes(arg), "'", start, Quoted(words, arg), end);
    assert EncodeArg(arg) == "'" + EscapeQuotes(arg) + "'";
  }

  /** At the end of the last of some arguments. */
  function AtEndOf(args: seq<string>): State
    requires args != []
  {
    State(args[..|args| - 1], Some(args[|args| - 1]), false)
  }

  lemma ReadsNextArg(line: string, args: seq<string>, arg: string)
    requires args != [] && NUL !in arg && Reads(line, START, AtEndOf(args))
    ensures Reads(line + " " + EncodeArg(arg), START, AtEndOf(args + [arg]))
  {
    var between := State(args, None, false);
    assert args[..|args| - 1] + [args[|args| - 1]] == args;
    ReadsChar(' ', AtEndOf(args));
    ReadsArg(arg, args);
    ReadsBoth(line, " ", START, AtEndOf(args), between);
    ReadsBoth(line + " ", EncodeArg(arg), START, between, State(args, Some(arg), false));
    assert (args + [arg])[..|args|] == args;
  }

  /** Having read the arguments, the shell is at the end of the last of them. */
  lemma {:induction false} ReadsAll(args: seq<string>)
    requires args != [] && NoNul(args)
    ensures Reads(Encoded(args), START, AtEndOf(args))
    decreases |args|
  {
    var last := |args| - 1;
    var before, arg := args[..last], args[last];
    if last == 0 {
      ReadsArg(arg, []);
      assert Encoded(before) == "" && "" + EncodeArg(arg) == EncodeArg(arg);
    } else {
      ReadsAll(before);
      ReadsNextArg(Encoded(before), before, arg);
      assert before + [arg] == args;
    }
  }

  lemma {:induction false} NulIsRefused(s: string, st: State)
    requires NUL in s
    ensures Lex(s, st) == None
    decreases |s|
  {
    match Recognise(s, st) {
      case Refused =>
      case Advance(used, st') =>
        assert s[0] != NUL && (used == 2 ==> s[1] != NUL);
        NulIsRefused(s[used..], st');
    }
  }

  lemma {:induction false} EscapeKeeps(text: string, c: char)
    requires c in text
    ensures c in EscapeQuotes(text)
    decreases |text|
  {
    if c != text[0] {
      EscapeKeeps(text[1..], c);
    }
  }

  lemma {:induction false} EncodedKeepsNul(args: seq<string>)
    requires !NoNul(args)
    ensures NUL in Encoded(args)
    decreases |args|
  {
    var last := |args| - 1;
    if NUL in args[last] {
      EscapeKeeps(args[last], NUL);
    } else {
      EncodedKeepsNul(args[..last]);
    }
  }

  /** The shell reads an encoded command back as exactly its arguments, empty ones
      and quotes included, if and only if none of them holds a NUL. */
  lemma QuotingRoundTrip(args: seq<string>)
    ensures Words(Encoded(args)) == Some(args) <==> NoNul(args)
  {
    var line := Encoded(args);
    if !NoNul(args) {
      EncodedKeepsNul(args);
      NulIsRefused(line, START);
    } else if args != [] {
      ReadsAll(args);
      assert line + "" == line;
      assert args[..|args| - 1] + [args[|args| - 1]] == args;
    }
  }
}
