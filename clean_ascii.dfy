/**
  The ASCII text cleaner `clean_ascii`: a single regular-expression substitution
  that replaces every maximal run of characters outside US-ASCII (code points
  0x00 to 0x7F) by one space. The `+` in the pattern makes the match greedy, so
  a run of several non-ASCII characters in a row yields one space, not several.

  `CleanAscii` mirrors how the substitution consumes its input: an ASCII
  character is copied, and at a non-ASCII character the whole run is matched
  at once and replaced. `Scan` is an independent reference definition that
  reads one character at a time and remembers only whether it is inside a run;
  it records where each output character came from, which lets us state that
  the output is the ASCII subsequence of the input with one space in place of
  every run.
*/
module AsciiCleaner {

  /** A character in the range matched by `[\x00-\x7F]`. */
  predicate IsAscii(c: char) {
    c as int < 128
  }

  predicate AllAscii(s: string) {
    forall i :: 0 <= i < |s| ==> IsAscii(s[i])
  }

  predicate NoAscii(s: string) {
    forall i :: 0 <= i < |s| ==> !IsAscii(s[i])
  }

  /** True when `s` does not start in the middle of a run: the greedy match
      that ended just before `s` could not have gone on into it. */
  predicate StartsOutsideRun(s: string) {
    s == [] || IsAscii(s[0])
  }

  /** How many non-ASCII characters the greedy `[^\x00-\x7F]+` consumes at
      the front of `s`. */
  function RunLength(s: string): (n: nat)
    ensures n <= |s| && NoAscii(s[..n])
    ensures n < |s| ==> IsAscii(s[n])
  {
    if s != [] && !IsAscii(s[0]) then
      var n := 1 + RunLength(s[1..]);
      assert forall i :: 1 <= i < n ==> s[..n][i] == s[1..][..n - 1][i - 1];
      n
    else 0
  }

  /** What is left of `s` once that run has been consumed. */
  function SkipRun(s: string): (r: string)
    ensures |r| <= |s| && StartsOutsideRun(r)
  {
    s[RunLength(s)..]
  }

  /** `re.sub(r'[^\x00-\x7F]+', ' ', text)`. */
  function CleanAscii(s: string): (r: string)
    ensures AllAscii(r)
    ensures |r| <= |s|
    ensures r == [] <==> s == []
    decreases |s|
  {
    if s == [] then []
    else if IsAscii(s[0]) then [s[0]] + CleanAscii(s[1..])
    else [' '] + CleanAscii(SkipRun(s[1..]))
  }

  /** The ASCII subsequence of `s`, in order. */
  function FilterAscii(s: string): (r: string)
    ensures AllAscii(r) && |r| <= |s|
  {
    if s == [] then []
    else if IsAscii(s[0]) then [s[0]] + FilterAscii(s[1..])
    else FilterAscii(s[1..])
  }

  /** Where a character of the output came from: copied from the input, or
      the single space standing for a run of non-ASCII characters. */
  datatype Piece = Kept(c: char) | Gap

  /** The reference scanner. `inRun` says whether the previous input character
      was non-ASCII; a run emits its `Gap` at its first character only. */
  function Scan(s: string, inRun: bool): seq<Piece> {
    if s == [] then [] else Emit(s[0], inRun) + Scan(s[1..], !IsAscii(s[0]))
  }

  /** What the scanner emits for one character. */
  function Emit(c: char, inRun: bool): seq<Piece> {
    if IsAscii(c) then [Kept(c)] else if inRun then [] else [Gap]
  }

  /** The text a sequence of pieces stands for: every `Gap` is a space. */
  function Render(p: seq<Piece>): string {
    if p == [] then []
    else (match p[0] case Kept(c) => [c] case Gap => [' ']) + Render(p[1..])
  }

  /** The copied characters only: the pieces with every `Gap` removed. */
  function KeptChars(p: seq<Piece>): string {
    if p == [] then []
    else (match p[0] case Kept(c) => [c] case Gap => []) + KeptChars(p[1..])
  }

  function GapCount(p: seq<Piece>): nat {
    if p == [] then 0 else (if p[0] == Gap then 1 else 0) + GapCount(p[1..])
  }

  /** Number of maximal runs of non-ASCII characters in `s`, counted at the
      first character of each run. */
  function RunCount(s: string, inRun: bool): nat {
    if s == [] then 0
    else if IsAscii(s[0]) then RunCount(s[1..], false)
    else (if inRun then 0 else 1) + RunCount(s[1..], true)
  }

  // ---------------------------------------------------------------------------
  // Fixpoints: ASCII-only text, and idempotence

  /** Text that is already ASCII is returned unchanged. */
  lemma {:induction false} CleanAsciiOfAscii(s: string)
    requires AllAscii(s)
    ensures CleanAscii(s) == s
  {
    if s != [] {
      assert AllAscii(s[1..]);
      CleanAsciiOfAscii(s[1..]);
    }
  }

  /** Cleaning twice is the same as cleaning once. */
  lemma {:induction false} CleanAsciiIdempotent(s: string)
    ensures CleanAscii(CleanAscii(s)) == CleanAscii(s)
  {
    CleanAsciiOfAscii(CleanAscii(s));
  }

  /** Text is a fixpoint of the cleaner exactly when it is all ASCII. */
  lemma {:induction false} CleanAsciiFixpoint(s: string)
    ensures CleanAscii(s) == s <==> AllAscii(s)
  {
    if AllAscii(s) {
      CleanAsciiOfAscii(s);
    }
  }

  // ---------------------------------------------------------------------------
  // Agreement with the reference scanner

  /** Inside a run, the scanner emits nothing until the run ends. */
  lemma {:induction false} ScanSkipsRun(s: string)
    ensures Scan(s, true) == Scan(SkipRun(s), true)
  {
    if s != [] && !IsAscii(s[0]) {
      ScanSkipsRun(s[1..]);
    }
  }

  /** Once a run is over, whether the scanner was in it no longer matters. */
  lemma ScanOutsideRun(s: string)
    requires StartsOutsideRun(s)
    ensures Scan(s, true) == Scan(s, false)
  {
  }

  /** The cleaner produces exactly the text of the reference scanner's pieces,
      started outside any run. */
  lemma {:induction false} CleanAsciiIsScan(s: string)
    ensures CleanAscii(s) == Render(Scan(s, false))
    decreases |s|
  {
    if s == [] {
    } else if IsAscii(s[0]) {
      CleanAsciiIsScan(s[1..]);
      assert Render(Scan(s, false)) == [s[0]] + Render(Scan(s[1..], false));
    } else {
      var t := SkipRun(s[1..]);
      CleanAsciiIsScan(t);
      ScanSkipsRun(s[1..]);
      ScanOutsideRun(t);
      assert Scan(s, false) == [Gap] + Scan(t, false);
      assert Render(Scan(s, false)) == [' '] + Render(Scan(t, false));
    }
  }

  /** The copied pieces of the scan are exactly the ASCII subsequence of the
      input: removing the spaces that stand for runs recovers it. */
  lemma {:induction false} ScanKeepsAscii(s: string, inRun: bool)
    ensures KeptChars(Scan(s, inRun)) == FilterAscii(s)
  {
    if s != [] {
      ScanKeepsAscii(s[1..], !IsAscii(s[0]));
      var p := Scan(s, inRun);
      if IsAscii(s[0]) {
        assert p[0] == Kept(s[0]) && p[1..] == Scan(s[1..], false);
      } else if !inRun {
        assert p[0] == Gap && p[1..] == Scan(s[1..], true);
      } else {
        assert p == [] + Scan(s[1..], true) == Scan(s[1..], true);
      }
    }
  }

  /** The scan holds one `Gap` per maximal run of non-ASCII characters. */
  lemma {:induction false} ScanGapsAreRuns(s: string, inRun: bool)
    ensures GapCount(Scan(s, inRun)) == RunCount(s, inRun)
  {
    if s != [] {
      ScanGapsAreRuns(s[1..], !IsAscii(s[0]));
      var p := Scan(s, inRun);
      if IsAscii(s[0]) {
        assert p[0] == Kept(s[0]) && p[1..] == Scan(s[1..], false);
      } else if !inRun {
        assert p[0] == Gap && p[1..] == Scan(s[1..], true);
      } else {
        assert p == [] + Scan(s[1..], true) == Scan(s[1..], true);
      }
    }
  }

  /** Two spaces standing for runs are never next to each other in the scan:
      between two runs there is always a copied ASCII character. */
  lemma {:induction false} ScanGapsSeparated(s: string, inRun: bool)
    ensures forall i :: 0 <= i < |Scan(s, inRun)| - 1 ==>
              !(Scan(s, inRun)[i] == Gap && Scan(s, inRun)[i + 1] == Gap)
    ensures inRun ==> Scan(s, inRun) == [] || Scan(s, inRun)[0] != Gap
  {
    if s != [] {
      ScanGapsSeparated(s[1..], !IsAscii(s[0]));
    }
  }

  lemma {:induction false} RenderLength(p: seq<Piece>)
    ensures |Render(p)| == |p|
  {
    if p != [] {
      RenderLength(p[1..]);
    }
  }

  lemma {:induction false} KeptCharsLength(p: seq<Piece>)
    ensures |KeptChars(p)| + GapCount(p) == |p|
  {
    if p != [] {
      KeptCharsLength(p[1..]);
    }
  }

  /** The length of the cleaned text: one character per ASCII character of the
      input plus one space per maximal run. */
  lemma {:induction false} CleanAsciiLength(s: string)
    ensures |CleanAscii(s)| == |FilterAscii(s)| + RunCount(s, false)
  {
    var p := Scan(s, false);
    CleanAsciiIsScan(s);
    RenderLength(p);
    KeptCharsLength(p);
    ScanKeepsAscii(s, false);
    ScanGapsAreRuns(s, false);
  }

  /** The cleaned text, read through the scanner's pieces: it is the ASCII
      subsequence of the input with exactly one space slotted in for each
      maximal run, never two such spaces side by side. */
  lemma CleanAsciiKeepsAsciiInOrder(s: string)
    ensures var p := Scan(s, false);
      && Render(p) == CleanAscii(s)
      && KeptChars(p) == FilterAscii(s)
      && GapCount(p) == RunCount(s, false)
      && forall i :: 0 <= i < |p| - 1 ==> !(p[i] == Gap && p[i + 1] == Gap)
  {
    CleanAsciiIsScan(s);
    ScanKeepsAscii(s, false);
    ScanGapsAreRuns(s, false);
    ScanGapsSeparated(s, false);
  }

  // ---------------------------------------------------------------------------
  // Runs collapse, and the cleaner works piecewise

  /** Whether the scanner is inside a run after reading `s` from state `inRun`. */
  function InRunAfter(s: string, inRun: bool): bool {
    if s == [] then inRun else !IsAscii(s[|s| - 1])
  }

  /** The scanner reads a concatenation left to right, carrying only its bit. */
  lemma {:induction false} ScanAppend(a: string, b: string, inRun: bool)
    ensures Scan(a + b, inRun) == Scan(a, inRun) + Scan(b, InRunAfter(a, inRun))
  {
    if a == [] {
      assert a + b == b;
    } else {
      var e, st := Emit(a[0], inRun), !IsAscii(a[0]);
      assert (a + b)[0] == a[0] && (a + b)[1..] == a[1..] + b;
      ScanAppend(a[1..], b, st);
      assert InRunAfter(a[1..], st) == InRunAfter(a, inRun);
      calc {
        Scan(a + b, inRun);
        e + Scan(a[1..] + b, st);
        e + (Scan(a[1..], st) + Scan(b, InRunAfter(a, inRun)));
        (e + Scan(a[1..], st)) + Scan(b, InRunAfter(a, inRun));
      }
    }
  }

  lemma {:induction false} RenderAppend(p: seq<Piece>, q: seq<Piece>)
    ensures Render(p + q) == Render(p) + Render(q)
  {
    if p == [] {
      assert p + q == q;
    } else {
      assert (p + q)[1..] == p[1..] + q;
      RenderAppend(p[1..], q);
    }
  }

  /** Cleaning distributes over a concatenation that does not cut through a
      run of non-ASCII characters. */
  lemma CleanAsciiAppend(a: string, b: string)
    requires a == [] || IsAscii(a[|a| - 1]) || StartsOutsideRun(b)
    ensures CleanAscii(a + b) == CleanAscii(a) + CleanAscii(b)
  {
    CleanAsciiIsScan(a + b);
    CleanAsciiIsScan(a);
    CleanAsciiIsScan(b);
    ScanAppend(a, b, false);
    RenderAppend(Scan(a, false), Scan(b, InRunAfter(a, false)));
  }

  /** Two runs that meet across a concatenation merge into one, so they give
      one space between them, not two. */
  lemma CleanAsciiMergesRuns(a: string, b: string)
    requires |a| > 0 && !IsAscii(a[|a| - 1])
    requires |b| > 0 && !IsAscii(b[0])
    ensures CleanAscii(a + b) == CleanAscii(a) + CleanAscii(b)[1..]
  {
    var pa, pb := Scan(a, false), Scan(b, true);
    ScanAppend(a, b, false);
    assert Scan(a + b, false) == pa + pb;
    RenderAppend(pa, pb);
    assert Scan(b, false) == [Gap] + pb;
    RenderAppend([Gap], pb);
    CleanAsciiIsScan(a + b);
    CleanAsciiIsScan(a);
    CleanAsciiIsScan(b);
    assert CleanAscii(b) == [' '] + Render(pb);
  }

  /** A maximal run of one or more non-ASCII characters becomes exactly one
      space, however long it is. */
  lemma CleanAsciiRun(run: string, rest: string)
    requires |run| > 0 && NoAscii(run)
    requires StartsOutsideRun(rest)
    ensures CleanAscii(run + rest) == [' '] + CleanAscii(rest)
  {
    CleanAsciiAppend(run, rest);
    CleanAsciiIsScan(run);
    ScanInRun(run);
  }

  /** The scan of a non-empty run is its single `Gap`. */
  lemma {:induction false} ScanInRun(run: string)
    requires |run| > 0 && NoAscii(run)
    ensures Scan(run, false) == [Gap]
  {
    ScanInRunIsEmpty(run[1..]);
  }

  lemma {:induction false} ScanInRunIsEmpty(run: string)
    requires NoAscii(run)
    ensures Scan(run, true) == []
  {
    if run != [] {
      ScanInRunIsEmpty(run[1..]);
    }
  }
}
