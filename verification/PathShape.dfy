/** What a path may look like, wherever it leads
    (hub/internal/files/guard.go:211-229, 315-323; hub/internal/host/remote_paths.go:29-61).

    Paths of the local machine and of a remote host are held to the same shape.
  */
module PathShape {
  import opened PathConflict

  type Segs = seq<string>

  const MAX_PATH := 4096

  predicate ShapeOk(raw: string) {
    raw != "" && raw[0] == '/' && |raw| <= MAX_PATH && ".." !in Split(raw)
  }

  function Without(pieces: seq<string>, dropped: string): (rest: seq<string>)
    ensures forall i :: 0 <= i < |rest| ==> rest[i] in pieces && rest[i] != dropped
  {
    if pieces == [] then []
    else (if pieces[0] == dropped then [] else [pieces[0]]) + Without(pieces[1..], dropped)
  }

  /** What the link walker steps through. */
  function Steps(raw: string): Segs {
    Without(Split(raw), "")
  }

  /** filepath.Clean, of an absolute path without dot-dot. */
  function CleanSegs(raw: string): Segs {
    Without(Steps(raw), ".")
  }

  predicate EndsInSlash(raw: string) {
    raw != "" && raw[|raw| - 1] == '/'
  }

  function Spelled(p: Segs): string {
    if p == [] then "/" else Body(p)
  }

  // --- Kernel interfaces ---

  function LowerChar(c: char): char {
    if 'A' <= c <= 'Z' then c + 32 as char else c
  }

  function Lower(s: string): (l: string)
    ensures |l| == |s| && forall i :: 0 <= i < |s| ==> l[i] == LowerChar(s[i])
  {
    seq(|s|, i requires 0 <= i < |s| => LowerChar(s[i]))
  }

  /** The same letters, in either case. */
  predicate SameLetters(s: string, w: string) {
    && |s| == |w|
    && forall i :: 0 <= i < |w| ==> s[i] == w[i] || ('a' <= w[i] <= 'z' && s[i] as int + 32 == w[i] as int)
  }

  lemma KernelNames(s: string)
    ensures Lower(s) in KERNEL_INTERFACES
            <==> SameLetters(s, "proc") || SameLetters(s, "sys") || SameLetters(s, "dev")
  {
    LowerMeaning(s, "proc");
    LowerMeaning(s, "sys");
    LowerMeaning(s, "dev");
  }

  lemma LowerMeaning(s: string, w: string)
    requires forall i :: 0 <= i < |w| ==> 'a' <= w[i] <= 'z'
    ensures Lower(s) == w <==> SameLetters(s, w)
  {
    if Lower(s) == w {
      forall i | 0 <= i < |w|
        ensures s[i] == w[i] || ('a' <= w[i] <= 'z' && s[i] as int + 32 == w[i] as int)
      {
        assert LowerChar(s[i]) == Lower(s)[i];
      }
    }
    if SameLetters(s, w) {
      assert forall i :: 0 <= i < |w| ==> LowerChar(s[i]) == Lower(s)[i] && LowerChar(s[i]) == w[i];
    }
  }

  const KERNEL_INTERFACES: set<string> := {"proc", "sys", "dev"}

  predicate UnderPrefix(lowered: string, prefix: string) {
    lowered == prefix || prefix + "/" <= lowered
  }

  predicate IsBlocked(path: string) {
    var lowered := Lower(path);
    UnderPrefix(lowered, "/proc") || UnderPrefix(lowered, "/sys") || UnderPrefix(lowered, "/dev")
  }

  // --- Names ---

  predicate IsName(s: string) {
    Word(s) && s != "." && s != ".."
  }

  lemma {:induction false} SplitPieces(s: string)
    ensures forall i :: 0 <= i < |Split(s)| ==> '/' !in Split(s)[i]
    decreases |s|
  {
    var h := Head(s);
    if |h| < |s| {
      SplitPieces(s[|h| + 1..]);
    }
  }

  predicate AllNames(p: Segs) {
    forall i :: 0 <= i < |p| ==> IsName(p[i])
  }

  lemma CleanSegsAreNames(raw: string)
    requires ShapeOk(raw)
    ensures AllNames(CleanSegs(raw))
  {
    SplitPieces(raw);
    var pieces, steps, segs := Split(raw), Steps(raw), CleanSegs(raw);
    forall i | 0 <= i < |segs| ensures IsName(segs[i]) {
      assert segs[i] in steps && segs[i] in pieces;
    }
  }

  function LowerAll(p: Segs): (l: Segs)
    ensures |l| == |p| && forall i :: 0 <= i < |p| ==> l[i] == Lower(p[i])
  {
    seq(|p|, i requires 0 <= i < |p| => Lower(p[i]))
  }

  lemma {:induction false} LowerBody(p: Segs)
    ensures Lower(Body(p)) == Body(LowerAll(p))
    decreases |p|
  {
    if p == [] {
      assert LowerAll(p) == [];
    } else {
      LowerBody(p[1..]);
      assert LowerAll(p) == [Lower(p[0])] + LowerAll(p[1..]);
      BodyCons(Lower(p[0]), LowerAll(p[1..]));
      assert Lower("/" + p[0] + Body(p[1..])) == "/" + Lower(p[0]) + Lower(Body(p[1..]));
    }
  }

  lemma UnderOne(p: Segs, w: string)
    requires ValidSegments(p) && p != [] && Word(w)
    ensures UnderPrefix(Body(p), "/" + w) <==> p[0] == w
  {
    assert Body([w]) == "/" + w by { assert Body([]) == ""; }
    BodyPrefix([w], p);
    if Body(p) == Body([w]) {
      BodyInjective(p, [w]);
    }
    if p[0] == w && |p| == 1 {
      assert p == [w];
    }
  }

  lemma LowerWord(w: string)
    requires Word(w)
    ensures Word(Lower(w))
  {
  }

  lemma UnderFirstName(p: Segs, w: string)
    requires AllNames(p) && Word(w)
    ensures UnderPrefix(Lower(Spelled(p)), "/" + w) <==> p != [] && Lower(p[0]) == w
  {
    if p == [] {
      assert |Lower("/")| == 1;
    } else {
      var l := LowerAll(p);
      forall i | 0 <= i < |l| ensures Word(l[i]) { LowerWord(p[i]); }
      LowerBody(p);
      UnderOne(l, w);
    }
  }

  /** The test on the spelling is one on the first name, whatever its case. */
  lemma BlockedIsFirstName(p: Segs)
    requires AllNames(p)
    ensures IsBlocked(Spelled(p)) <==> p != [] && Lower(p[0]) in KERNEL_INTERFACES
  {
    assert "/" + "proc" == "/proc" && "/" + "sys" == "/sys" && "/" + "dev" == "/dev";
    UnderFirstName(p, "proc");
    UnderFirstName(p, "sys");
    UnderFirstName(p, "dev");
  }

  lemma NamesAreNotUps(p: Segs)
    requires AllNames(p)
    ensures ".." !in p
  {
  }
}
