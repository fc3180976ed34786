/** Where the post formatter cuts: the lines of a post stand in its body one after the other, and two
    neighbours are cut apart only at a line break or at the end of a sentence. */
module PostCuts {
  import opened PostText
  import opened PostFormatter

  /** From and to, the latter excluded. */
  type Span = (nat, nat)

  predicate BlankBetween(t: Text, from: nat, to: nat) {
    from <= to <= |t| && forall i | from <= i < to :: IsSpace(t[i])
  }

  predicate HasBreak(t: Text, from: nat, to: nat) {
    exists i :: from <= i < to <= |t| && t[i].Break?
  }

  /** Only whitespace is between the two places, and some; and it has a line break, or a sentence has
      ended at the first. */
  predicate Cut(t: Text, from: nat, to: nat) {
    BlankBetween(t, from, to) && from < to && (HasBreak(t, from, to) || IsSentenceEnd(t, from))
  }

  /** The lines stand at these spans, cut apart like that, the first from here and the last up to there. */
  ghost predicate InRow(t: Text, lines: seq<Text>, at: seq<Span>, from: nat, to: nat) {
    && |at| == |lines| > 0 && at[0].0 == from && at[|at| - 1].1 == to
    && (forall k | 0 <= k < |at| :: at[k].0 < at[k].1 <= |t| && lines[k] == t[at[k].0..at[k].1])
    && forall k | 0 < k < |at| :: Cut(t, at[k - 1].1, at[k].0)
  }

  /** And nothing visible stands in front of them or behind. */
  ghost predicate Stand(t: Text, lines: seq<Text>, at: seq<Span>) {
    if lines == [] then at == [] && AllSpace(t)
    else
      && at != [] && InRow(t, lines, at, at[0].0, at[|at| - 1].1)
      && BlankBetween(t, 0, at[0].0) && BlankBetween(t, at[|at| - 1].1, |t|)
  }

  lemma RowsConcat(
      t: Text, a: seq<Text>, atA: seq<Span>, b: seq<Text>, atB: seq<Span>, from: nat, mid: nat, next: nat, to: nat)
    requires InRow(t, a, atA, from, mid) && InRow(t, b, atB, next, to) && Cut(t, mid, next)
    ensures InRow(t, a + b, atA + atB, from, to)
  {
    hide Cut;
    var at := atA + atB;
    forall k | 0 < k < |at| ensures Cut(t, at[k - 1].1, at[k].0) {
      assert k > |atA| ==> at[k - 1] == atB[k - 1 - |atA|] && at[k] == atB[k - |atA|];
    }
  }

  lemma OneInRow(t: Text, from: nat, to: nat)
    requires from < to <= |t|
    ensures InRow(t, [t[from..to]], [(from, to)], from, to)
  {
  }

  // ---- a stretch of a text ----

  function Shifted(at: seq<Span>, d: nat): seq<Span> {
    seq(|at|, k requires 0 <= k < |at| => (at[k].0 + d, at[k].1 + d))
  }

  /** A cut in a stretch that follows whitespace is a cut in the whole text. */
  lemma CutShifts(t: Text, d: nat, e: nat, from: nat, to: nat)
    requires d <= e <= |t| && Cut(t[d..e], from, to) && (d > 0 ==> IsSpace(t[d - 1]))
    ensures Cut(t, from + d, to + d)
  {
    var l := t[d..e];
    assert forall i | 0 <= i < |l| :: l[i] == t[d + i];
    forall i | from + d <= i < to + d ensures IsSpace(t[i]) {
      assert t[i] == l[i - d];
    }
    if HasBreak(l, from, to) {
      var i :| from <= i < to <= |l| && l[i].Break?;
      assert t[d + i].Break?;
    } else {
      assert l[from - 1] == t[d + from - 1] && l[from] == t[d + from];
    }
  }

  lemma RowShifts(t: Text, d: nat, e: nat, lines: seq<Text>, at: seq<Span>, from: nat, to: nat)
    requires d <= e <= |t| && InRow(t[d..e], lines, at, from, to) && (d > 0 ==> IsSpace(t[d - 1]))
    ensures InRow(t, lines, Shifted(at, d), from + d, to + d)
  {
    hide Cut;
    var moved := Shifted(at, d);
    forall k | 0 <= k < |at| ensures moved[k].0 < moved[k].1 <= |t| && lines[k] == t[moved[k].0..moved[k].1] {
      assert t[d..e][at[k].0..at[k].1] == t[moved[k].0..moved[k].1];
    }
    forall k | 0 < k < |at| ensures Cut(t, moved[k - 1].1, moved[k].0) {
      CutShifts(t, d, e, at[k - 1].1, at[k].0);
    }
  }

  // ---- the sentences of one line ----

  /** The pieces of a raw line from start on stand there. */
  lemma {:induction false} PiecesStand(l: Text, start: nat, i: nat) returns (at: seq<Span>)
    requires SplitState(l, start, i)
    ensures InRow(l, SplitFrom(l, start, i), at, start, |l|)
    decreases |l| - i
  {
    hide InRow;
    if i == |l| {
      at := [(start, |l|)];
      assert l[start..] == l[start..|l|];
      OneInRow(l, start, |l|);
    } else if IsSentenceEnd(l, i) {
      var j := SkipSpace(l, i);
      var rest := PiecesStand(l, j, j);
      OneInRow(l, start, i);
      RowsConcat(l, [l[start..i]], [(start, i)], SplitFrom(l, j, j), rest, start, i, j, |l|);
      at := [(start, i)] + rest;
    } else {
      at := PiecesStand(l, start, i + 1);
    }
  }

  /** What one raw line contributes stands within it. */
  lemma EmittedStands(t: Text, from: nat, to: nat) returns (at: seq<Span>)
    requires from < to <= |t| && RawLine(t[from..to]) && (from > 0 ==> IsSpace(t[from - 1]))
    ensures InRow(t, Emitted(t[from..to]), at, from, to)
  {
    hide InRow;
    var l := t[from..to];
    if StartsWithMarker(l) {
      at := [(from, to)];
      OneInRow(t, from, to);
    } else {
      PiecesAreSentences(l, 0, 0);
      CleanedIsIdentity(SplitFrom(l, 0, 0));
      var within := PiecesStand(l, 0, 0);
      RowShifts(t, from, to, SplitFrom(l, 0, 0), within, 0, |l|);
      at := Shifted(within, from);
    }
  }

  // ---- the raw lines of a body ----

  /** Where stripping leaves a text. */
  lemma StripAt(t: Text) returns (from: nat, to: nat)
    ensures from <= to <= |t| && Strip(t) == t[from..to]
    ensures BlankBetween(t, 0, from) && BlankBetween(t, to, |t|)
  {
    LStripSpec(t);
    var s := LStrip(t);
    RStripSpec(s);
    from, to := |t| - |s|, |t| - |s| + |Strip(t)|;
    assert forall i | 0 <= i < |s| :: s[i] == t[from + i];
    assert s[..|Strip(t)|] == t[from..to];
  }

  /** The rest begins at d, with line breaks between it and the first line. */
  predicate RestAt(t: Text, n: nat, d: nat) {
    n <= d <= |t| && (forall i | n <= i < d :: t[i].Break?) && (d == n ==> n == |t|)
  }

  lemma RestIsBehind(t: Text)
    ensures var n, rest := LineLength(t), AfterLine(t);
            |rest| <= |t| && RestAt(t, n, |t| - |rest|) && t[|t| - |rest|..|t|] == rest
  {
    LineCover(t);
    var n := LineLength(t);
    if n < |t| { assert t[n..][0] == t[n]; }
  }

  /** A blank first line in front of what stands in the rest. */
  lemma BlankLineInFront(t: Text, n: nat, d: nat, lines: seq<Text>, behind: seq<Span>)
    requires RestAt(t, n, d) && BlankBetween(t, 0, n) && Stand(t[d..|t|], lines, behind)
    ensures Stand(t, lines, Shifted(behind, d))
  {
    assert forall i | 0 <= i < |t| - d :: t[d..|t|][i] == t[d + i];
    BlankUpTo(t, n, d);
    if lines != [] {
      RowShifts(t, d, |t|, lines, behind, behind[0].0, behind[|behind| - 1].1);
      BlankBehind(t, d, behind[0].0, behind[|behind| - 1].1);
    } else {
      forall i | 0 <= i < |t| ensures IsSpace(t[i]) {
        assert i >= d ==> t[i] == t[d..|t|][i - d];
      }
    }
    hide InRow;
  }

  lemma BlankUpTo(t: Text, n: nat, d: nat)
    requires RestAt(t, n, d) && BlankBetween(t, 0, n)
    ensures BlankBetween(t, 0, d)
  {
  }

  lemma BlankBehind(t: Text, d: nat, from: nat, to: nat)
    requires d <= |t| && BlankBetween(t[d..|t|], 0, from) && BlankBetween(t[d..|t|], to, |t| - d)
    ensures BlankBetween(t, d, d + from) && BlankBetween(t, d + to, |t|)
  {
    forall i | d <= i < d + from ensures IsSpace(t[i]) {
      assert t[i] == t[d..|t|][i - d];
    }
    forall i | d + to <= i < |t| ensures IsSpace(t[i]) {
      assert t[i] == t[d..|t|][i - d];
    }
  }

  /** A line in front of what stands in the rest. */
  lemma LineInFront(t: Text, n: nat, d: nat, from: nat, to: nat, lines: seq<Text>, behind: seq<Span>)
    requires RestAt(t, n, d) && from < to <= n && BlankBetween(t, 0, from) && BlankBetween(t, to, n)
    requires Stand(t[d..|t|], lines, behind)
    ensures Stand(t, [t[from..to]] + lines, [(from, to)] + Shifted(behind, d))
  {
    OneInRow(t, from, to);
    if lines == [] {
      forall i | to <= i < |t| ensures IsSpace(t[i]) {
        assert i >= d ==> t[i] == t[d..|t|][i - d];
      }
      assert [t[from..to]] + lines == [t[from..to]] && [(from, to)] + Shifted(behind, d) == [(from, to)];
    } else {
      var first, last := behind[0].0, behind[|behind| - 1].1;
      RowShifts(t, d, |t|, lines, behind, first, last);
      BlankBehind(t, d, first, last);
      assert t[n].Break?;
      assert Cut(t, to, first + d);
      RowsConcat(t, [t[from..to]], [(from, to)], lines, Shifted(behind, d), from, to, first + d, last + d);
    }
    hide InRow;
  }

  lemma {:induction false} RawLinesStand(t: Text) returns (at: seq<Span>)
    ensures Stand(t, Cleaned(SplitLines(t)), at)
    decreases |t|
  {
    hide Cleaned, SplitLines, AfterLine, Strip, LineLength, Stand, RestAt, Shifted;
    if t == [] {
      CleanedEmpty();
      at := [];
      NothingStands();
    } else {
      var n, rest := LineLength(t), AfterLine(t);
      SplitStep(t);
      RestIsBehind(t);
      CleanedStep(t[..n], SplitLines(rest));
      assert |rest| < |t|;
      var behind := RawLinesStand(rest);
      var from, to := StripAt(t[..n]);
      FirstLineIs(t, n, from, to);
      if from == to {
        BlankLineInFront(t, n, |t| - |rest|, Cleaned(SplitLines(rest)), behind);
        at := Shifted(behind, |t| - |rest|);
        assert [] + Cleaned(SplitLines(rest)) == Cleaned(SplitLines(rest));
      } else {
        LineInFront(t, n, |t| - |rest|, from, to, Cleaned(SplitLines(rest)), behind);
        at := [(from, to)] + Shifted(behind, |t| - |rest|);
      }
    }
  }

  lemma NothingStands()
    ensures Stand([], [], [])
  {
  }

  lemma FirstLineIs(t: Text, n: nat, from: nat, to: nat)
    requires n <= |t| && from <= to <= n && BlankBetween(t[..n], 0, from) && BlankBetween(t[..n], to, n)
    ensures t[..n][from..to] == t[from..to] && BlankBetween(t, 0, from) && BlankBetween(t, to, n)
    ensures from == to ==> BlankBetween(t, 0, n)
  {
    assert forall i | 0 <= i < n :: t[..n][i] == t[i];
  }

  // ---- the lines of a body ----

  /** A line follows the beginning of the body or whitespace. */
  lemma FollowsBlank(t: Text, raw: seq<Text>, at: seq<Span>, k: nat)
    requires Stand(t, raw, at) && k < |raw|
    ensures at[k].0 < at[k].1 <= |t| && raw[k] == t[at[k].0..at[k].1] && (at[k].0 > 0 ==> IsSpace(t[at[k].0 - 1]))
    ensures k + 1 < |raw| ==> Cut(t, at[k].1, at[k + 1].0)
  {
    if k > 0 {
      assert Cut(t, at[k - 1].1, at[k].0);
    }
    if k + 1 < |raw| {
      assert Cut(t, at[(k + 1) - 1].1, at[k + 1].0);
    }
  }

  /** What the raw lines contribute stands in the body as the raw lines do. */
  lemma {:induction false} EmittedAllStand(t: Text, raw: seq<Text>, at: seq<Span>, k: nat) returns (all: seq<Span>)
    requires Stand(t, raw, at) && |at| == |raw| && k < |raw| && forall l | l in raw :: RawLine(l)
    ensures InRow(t, EmitAll(raw[k..]), all, at[k].0, at[|at| - 1].1)
    decreases |raw| - k
  {
    hide Emitted, RawLine, InRow, Stand, Cut, EmitAll;
    FollowsBlank(t, raw, at, k);
    assert raw[k] in raw;
    var first := EmittedStands(t, at[k].0, at[k].1);
    EmitStep(raw, k);
    if k + 1 == |raw| {
      all := first;
    } else {
      var rest := EmittedAllStand(t, raw, at, k + 1);
      RowsConcat(t, Emitted(raw[k]), first, EmitAll(raw[k + 1..]), rest,
                 at[k].0, at[k].1, at[k + 1].0, at[|at| - 1].1);
      all := first + rest;
    }
  }

  lemma EmitStep(raw: seq<Text>, k: nat)
    requires k < |raw|
    ensures EmitAll(raw[k..]) == Emitted(raw[k]) + EmitAll(raw[k + 1..])
    ensures k + 1 == |raw| ==> EmitAll(raw[k..]) == Emitted(raw[k])
  {
    hide Emitted;
    assert raw[k..][1..] == raw[k + 1..];
    if k + 1 == |raw| {
      assert raw[k + 1..] == [] && Emitted(raw[k]) + [] == Emitted(raw[k]);
    }
  }

  lemma RowsStand(t: Text, raw: seq<Text>, spans: seq<Span>, lines: seq<Text>, at: seq<Span>)
    requires Stand(t, raw, spans) && raw != [] && InRow(t, lines, at, spans[0].0, spans[|spans| - 1].1)
    ensures Stand(t, lines, at)
  {
  }

  lemma SpansMatch(t: Text, raw: seq<Text>, at: seq<Span>)
    requires Stand(t, raw, at)
    ensures |at| == |raw| && (raw == [] ==> at == [] && AllSpace(t))
  {
  }

  lemma EmitsNothing(t: Text)
    ensures EmitAll([]) == [] && (AllSpace(t) ==> Stand(t, [], []))
  {
  }

  /** The lines of a body stand in it in order, nothing visible between them; two neighbours are cut
      apart at a line break or where a sentence ends, and nowhere else. */
  lemma LinesAreCutApart(body: Text) returns (at: seq<Span>)
    ensures Stand(body, LinesOf(body), at)
  {
    hide Emitted, SplitLines, Cleaned, EmitAll, Stand, InRow, RawLine;
    var raw := RawLinesOf(body);
    NoLinesMeansBlank(body);
    StripTrims(body);
    RawLines(body);
    var spans := RawLinesStand(body);
    assert raw == Cleaned(SplitLines(body));
    SpansMatch(body, raw, spans);
    if raw == [] {
      at := [];
      EmitsNothing(body);
    } else {
      at := EmittedAllStand(body, raw, spans, 0);
      assert raw[0..] == raw;
      RowsStand(body, raw, spans, LinesOf(body), at);
    }
  }

  /** Two sentences on one line: two lines, and no more. */
  lemma TwoSentences()
    ensures var a, stop, blank := Word('a', false, true), Stop('.'), Blank(' ');
            LinesOf([a, stop, blank, a, blank, a]) == [[a, stop], [a, blank, a]]
  {
    var a, stop, blank := Word('a', false, true), Stop('.'), Blank(' ');
    var l := [a, stop, blank, a, blank, a];
    assert RawLine(l);
    SplitUnbroken(l);
    CleanedIsIdentity([l]);
    assert SkipSpace(l, 2) == 3;
    assert l[0..2] == [a, stop] && l[3..] == [a, blank, a];
    TailStays(l, 3);
    assert SplitFrom(l, 0, 0) == SplitFrom(l, 0, 1) == SplitFrom(l, 0, 2) == [l[0..2]] + SplitFrom(l, 3, 3);
    CleanedIsIdentity([[a, stop], [a, blank, a]]);
    assert EmitAll([l]) == Emitted(l) + EmitAll([l][1..]) && [l][1..] == [];
    hide Emitted;
  }

  lemma {:induction false} TailStays(l: Text, i: nat)
    requires 3 <= i <= |l| && forall k: nat | 3 <= k :: !IsSentenceEnd(l, k)
    ensures SplitFrom(l, 3, i) == [l[3..]]
    decreases |l| - i
  {
    if i < |l| {
      TailStays(l, i + 1);
    }
  }
}
