/** That the scan of security/sanitizer.py finds every card. */
module CardsFound {
  import opened Luhn
  import opened CardScan

  /** No candidate reaches a foreign character. */
  lemma StopsBefore(t: seq<Sym>, n: nat, k: nat)
    requires Completes(t, n, 0) && k < |t| && t[k].Other?
    ensures n <= k
  {
    if n > k {
      assert t[..n][k] == t[k];
      ChainHasNoOthers(t[..n]);
    }
  }

  lemma NotAcross(a: seq<Sym>, s: seq<Sym>, n: nat)
    requires a != [] && a[|a| - 1].Other?
    ensures Completes(a + s, n, 0) <==> Completes(a, n, 0)
  {
    var t := a + s;
    if Completes(t, n, 0) {
      StopsBefore(t, n, |a| - 1);
    }
    if Completes(a, n, 0) {
      StopsBefore(a, n, |a| - 1);
    }
    if n < |a| {
      assert t[..n] == a[..n] && t[n..] == a[n..] + s;
    }
  }

  lemma SameMatch(a: seq<Sym>, s: seq<Sym>)
    requires a != [] && a[|a| - 1].Other?
    ensures MatchAt(a + s, false) == MatchAt(a, false)
    ensures MatchAt(a, false).Some? ==> MatchAt(a, false).value < |a|
  {
    hide Groups, Completes, MatchAt;
    var r, q := MatchAt(a + s, false), MatchAt(a, false);
    forall n: nat ensures Completes(a + s, n, 0) <==> Completes(a, n, 0) {
      NotAcross(a, s, n);
    }
    if q.Some? {
      MatchIsLongestCandidate(a, q.value);
      MatchIsLongestCandidate(a + s, q.value);
      EndsInDigit(a, q.value);
    } else {
      MatchIsLongestCandidate(a, 0);
      MatchIsLongestCandidate(a + s, 0);
    }
  }

  lemma EndsInDigit(t: seq<Sym>, n: nat)
    requires Completes(t, n, 0)
    ensures 1 <= n <= |t| && t[n - 1].Digit?
  {
    ChainHasNoOthers(t[..n]);
  }

  lemma SameFirstStep(a: seq<Sym>, s: seq<Sym>, afterDigit: bool)
    requires a != [] && a[|a| - 1].Other?
    ensures StepLength(a + s, afterDigit) == StepLength(a, afterDigit)
    ensures Step(a + s, afterDigit) == Step(a, afterDigit)
  {
    hide Groups, IsCard;
    if !afterDigit {
      SameMatch(a, s);
    }
    assert (a + s)[..StepLength(a, afterDigit)] == a[..StepLength(a, afterDigit)];
  }

  /** The scan of what stands before and in a foreign character does not depend on what comes behind. */
  lemma {:induction false} ScanApart(a: seq<Sym>, s: seq<Sym>, afterDigit: bool)
    requires a != [] && a[|a| - 1].Other?
    ensures RedactedText(a + s, afterDigit) == RedactedText(a, afterDigit) + RedactedText(s, false)
    ensures Redactions(a + s, afterDigit) == Redactions(a, afterDigit) + Redactions(s, false)
    decreases |a|
  {
    hide Step, StepLength, Scan, RedactedText, Redactions, Rendered;
    var t, n := a + s, StepLength(a, afterDigit);
    RedactedStep(a, afterDigit);
    RedactedStep(t, afterDigit);
    SameFirstStep(a, s, afterDigit);
    if n < |a| {
      assert t[n..] == a[n..] + s;
      ScanApart(a[n..], s, a[n - 1].Digit?);
    } else {
      assert t[n..] == s && a[n..] == [];
      EmptyScan(a[n - 1].Digit?);
    }
  }

  lemma {:induction false} CandidateStep(c: seq<Sym>, b: seq<Sym>)
    requires Completes(c + b, |c|, 0) && forall m: nat | Completes(c + b, m, 0) :: m <= |c|
    ensures c + b != [] && StepLength(c + b, false) == |c|
    ensures Rendered(Step(c + b, false)) == if Valid(DigitsOf(c)) then CARD_TOKEN else c
    ensures Step(c + b, false).Card? <==> Valid(DigitsOf(c))
    ensures c != [] && c[|c| - 1].Digit?
  {
    hide Groups, Valid;
    MatchIsLongestCandidate(c + b, |c|);
    EndsInDigit(c + b, |c|);
    assert (c + b)[..|c|] == c;
  }

  lemma CandidateFirst(c: seq<Sym>, b: seq<Sym>)
    requires Completes(c + b, |c|, 0) && forall m: nat | Completes(c + b, m, 0) :: m <= |c|
    ensures RedactedText(c + b, false) == (if Valid(DigitsOf(c)) then CARD_TOKEN else c) + RedactedText(b, true)
    ensures Redactions(c + b, false) == (if Valid(DigitsOf(c)) then 1 else 0) + Redactions(b, true)
  {
    hide Step, StepLength, Scan, RedactedText, Redactions, Rendered, Completes, Valid, DigitsOf;
    CandidateStep(c, b);
    RedactedStep(c + b, false);
    assert (c + b)[|c|..] == b && (c + b)[|c| - 1] == c[|c| - 1];
  }

  /** A longest candidate at the start of the text or behind a foreign character is decided by its
      checksum alone: a valid one becomes the token and counts once, any other stays; and the rest of the
      text is scanned as if it stood alone. */
  lemma CandidateIsDecided(a: seq<Sym>, c: seq<Sym>, b: seq<Sym>)
    requires a == [] || a[|a| - 1].Other?
    requires Completes(c + b, |c|, 0) && forall m: nat | Completes(c + b, m, 0) :: m <= |c|
    ensures RedactedText(a + c + b, false) ==
            RedactedText(a, false) + (if Valid(DigitsOf(c)) then CARD_TOKEN else c) + RedactedText(b, true)
    ensures Redactions(a + c + b, false) ==
            Redactions(a, false) + (if Valid(DigitsOf(c)) then 1 else 0) + Redactions(b, true)
  {
    CandidateFirst(c, b);
    var piece := if Valid(DigitsOf(c)) then CARD_TOKEN else c;
    var behind, before := RedactedText(b, true), RedactedText(a, false);
    assert RedactedText(c + b, false) == piece + behind;
    Associates(a, c, b);
    Associates(before, piece, behind);
    hide RedactedText, Redactions, Completes, Valid, DigitsOf;
    if a == [] {
      EmptyScan(false);
      NothingInFront(c + b);
      NothingInFront(piece + behind);
    } else {
      ScanApart(a, c + b, false);
    }
  }

  lemma NothingInFront(t: seq<Sym>)
    ensures [] + t == t
  {
  }

  lemma Associates(a: seq<Sym>, b: seq<Sym>, c: seq<Sym>)
    ensures a + b + c == a + (b + c)
  {
  }

  /** A card on its own. */
  lemma CardAloneIsRedacted(c: seq<Sym>)
    requires Chain(c) && 13 <= |DigitsOf(c)| <= 19 && Valid(DigitsOf(c))
    ensures RedactedText(c, false) == CARD_TOKEN && Redactions(c, false) == 1
  {
    hide Valid, Scan, RedactedText, Redactions;
    assert c + [] == c && c[..|c|] == c && [] + c + [] == c;
    CandidateIsDecided([], c, []);
    EmptyScan(false);
    EmptyScan(true);
  }
}
