/** Card redaction in security/sanitizer.py: the candidate pattern, the scan and its checksum test.

    A character is a decimal digit of some script (Python's \d and int() accept them all), one of
    the two separators the pattern allows, or anything else. */
module CardScan {
  import opened Wrappers
  import opened Luhn

  datatype Sym = Digit(value: DigitValue, script: nat) | Sep(dash: bool) | Other(code: nat)

  /** Literal text with neither digits nor separators. */
  function Literal(s: string): seq<Sym> {
    seq(|s|, i requires 0 <= i < |s| => Other(s[i] as nat))
  }

  const CARD_TOKEN := Literal("[REDACTED_CARD]")

  predicate StartsWithDigit(t: seq<Sym>) {
    t != [] && t[0].Digit?
  }

  // ---- the pattern (?<!\d)(?:\d[ -]?){12,18}\d(?!\d) ----

  function Advance(n: nat, rest: Option<nat>): Option<nat> {
    match rest
    case None => None
    case Some(m) => Some(n + m)
  }

  /** The final digit and the lookahead. */
  function FinalDigit(t: seq<Sym>, groups: nat): Option<nat> {
    if 12 <= groups && StartsWithDigit(t) && !StartsWithDigit(t[1..]) then Some(1) else None
  }

  /** Length of the match that continues at t after some groups: one more group is preferred to
      stopping, a group with its separator to one without, and each failure falls back. */
  function Groups(t: seq<Sym>, groups: nat): (r: Option<nat>)
    requires groups <= 18
    ensures r.Some? ==> 1 <= r.value <= |t|
    decreases |t|
  {
    if groups < 18 && StartsWithDigit(t) then
      var withSep := if |t| > 1 && t[1].Sep? then Advance(2, Groups(t[2..], groups + 1)) else None;
      if withSep.Some? then withSep else
      var without := Advance(1, Groups(t[1..], groups + 1));
      if without.Some? then without else FinalDigit(t, groups)
    else
      FinalDigit(t, groups)
  }

  /** The match at a position, given what the lookbehind sees. */
  function MatchAt(t: seq<Sym>, afterDigit: bool): (r: Option<nat>)
    ensures r.Some? ==> 1 <= r.value <= |t|
  {
    if afterDigit then None else Groups(t, 0)
  }

  // ---- what the pattern means ----

  /** Digits with at most one separator between neighbours. */
  predicate Chain(c: seq<Sym>) {
    StartsWithDigit(c) && (|c| == 1 || (c[1].Sep? && Chain(c[2..])) || Chain(c[1..]))
  }

  function DigitsOf(c: seq<Sym>): seq<DigitValue> {
    if c == [] then [] else (if c[0].Digit? then [c[0].value] else []) + DigitsOf(c[1..])
  }

  /** t[..n] completes a candidate of 13 to 19 digits once some groups have been read. */
  predicate Completes(t: seq<Sym>, n: nat, groups: nat) {
    && 1 <= n <= |t|
    && Chain(t[..n])
    && 13 - groups <= |DigitsOf(t[..n])| <= 19 - groups
    && !StartsWithDigit(t[n..])
  }

  lemma {:induction false} GroupsSound(t: seq<Sym>, groups: nat)
    requires groups <= 18 && Groups(t, groups).Some?
    ensures Completes(t, Groups(t, groups).value, groups)
    decreases 18 - groups
  {
    hide Chain, DigitsOf;
    var n := Groups(t, groups).value;
    if groups < 18 && |t| > 1 && t[1].Sep? && Groups(t[2..], groups + 1).Some? {
      GroupsSound(t[2..], groups + 1);
      assert t[..n][2..] == t[2..][..n - 2];
      ChainGrown(t[..n], t[..n][2..]);
    } else if groups < 18 && Groups(t[1..], groups + 1).Some? {
      GroupsSound(t[1..], groups + 1);
      assert t[..n][1..] == t[1..][..n - 1];
      ChainGrown(t[..n], t[..n][1..]);
    } else {
      SingleDigit(t[..1]);
    }
  }

  lemma SingleDigit(c: seq<Sym>)
    requires |c| == 1 && StartsWithDigit(c)
    ensures Chain(c) && |DigitsOf(c)| == 1
  {
    assert c[1..] == [];
  }

  lemma ChainGrown(c: seq<Sym>, rest: seq<Sym>)
    requires StartsWithDigit(c) && Chain(rest)
    requires rest == c[1..] || (|c| > 1 && c[1].Sep? && rest == c[2..])
    ensures Chain(c) && |DigitsOf(c)| == 1 + |DigitsOf(rest)|
  {
    if |c| > 1 && c[1].Sep? && rest == c[2..] {
      assert c[1..][1..] == rest;
    }
  }

  lemma ChainTail(c: seq<Sym>)
    requires Chain(c) && |c| > 1
    ensures var rest := if c[1].Sep? then c[2..] else c[1..];
            Chain(rest) && |DigitsOf(c)| == 1 + |DigitsOf(rest)| && |DigitsOf(rest)| >= 1
  {
    if c[1].Sep? {
      assert c[1..][1..] == c[2..];
    }
  }

  lemma {:induction false} GroupsMaximal(t: seq<Sym>, groups: nat, n: nat)
    requires groups <= 18 && Completes(t, n, groups)
    ensures Groups(t, groups).Some? && n <= Groups(t, groups).value
    decreases n
  {
    if n == 1 {
      SingleDigit(t[..1]);
    } else {
      ChainTail(t[..n]);
      if t[..n][1].Sep? {
        assert t[..n][2..] == t[2..][..n - 2];
        GroupsMaximal(t[2..], groups + 1, n - 2);
      } else {
        assert t[..n][1..] == t[1..][..n - 1];
        GroupsMaximal(t[1..], groups + 1, n - 1);
      }
    }
  }

  /** The backtracking match is the longest stretch of 13 to 19 grouped digits that a digit does
      not follow, and there is none when the matcher finds none. */
  lemma MatchIsLongestCandidate(t: seq<Sym>, n: nat)
    ensures MatchAt(t, false) == Some(n) <==>
            Completes(t, n, 0) && forall m: nat | Completes(t, m, 0) :: m <= n
    ensures MatchAt(t, false).None? <==> forall m: nat :: !Completes(t, m, 0)
  {
    var r := MatchAt(t, false);
    if r.Some? {
      GroupsSound(t, 0);
    }
    forall m: nat | Completes(t, m, 0)
      ensures r.Some? && m <= r.value
    {
      GroupsMaximal(t, 0, m);
    }
  }

  // ---- the scan ----

  predicate IsCard(candidate: seq<Sym>) {
    13 <= |DigitsOf(candidate)| <= 19 && Valid(DigitsOf(candidate))
  }

  /** A piece of the input, kept as it is or replaced. */
  datatype Segment = Kept(text: seq<Sym>) | Card(text: seq<Sym>)

  /** How far the scan moves in one step: over a match, or over one character. */
  function StepLength(t: seq<Sym>, afterDigit: bool): (n: nat)
    requires t != []
    ensures 1 <= n <= |t|
  {
    match MatchAt(t, afterDigit) case Some(n) => n case None => 1
  }

  function Step(t: seq<Sym>, afterDigit: bool): Segment
    requires t != []
  {
    var piece := t[..StepLength(t, afterDigit)];
    if MatchAt(t, afterDigit).Some? && IsCard(piece) then Card(piece) else Kept(piece)
  }

  function Scan(t: seq<Sym>, afterDigit: bool): seq<Segment>
    decreases |t|
  {
    if t == [] then [] else
    var n := StepLength(t, afterDigit);
    [Step(t, afterDigit)] + Scan(t[n..], t[n - 1].Digit?)
  }

  function Source(segments: seq<Segment>): seq<Sym> {
    if segments == [] then [] else segments[0].text + Source(segments[1..])
  }

  function Rendered(segment: Segment): seq<Sym> {
    if segment.Card? then CARD_TOKEN else segment.text
  }

  function Output(segments: seq<Segment>): seq<Sym> {
    if segments == [] then [] else Rendered(segments[0]) + Output(segments[1..])
  }

  function Count(segments: seq<Segment>): nat {
    if segments == [] then 0 else (if segments[0].Card? then 1 else 0) + Count(segments[1..])
  }

  /** The text that the scan produces from here on, and how often it redacts. */
  function RedactedText(t: seq<Sym>, afterDigit: bool): seq<Sym> {
    Output(Scan(t, afterDigit))
  }

  function Redactions(t: seq<Sym>, afterDigit: bool): nat {
    Count(Scan(t, afterDigit))
  }

  lemma ScanStep(t: seq<Sym>, afterDigit: bool)
    requires t != []
    ensures var n := StepLength(t, afterDigit);
            Scan(t, afterDigit) == [Step(t, afterDigit)] + Scan(t[n..], t[n - 1].Digit?)
  {
  }

  lemma EmptyScan(afterDigit: bool)
    ensures Source(Scan([], afterDigit)) == []
    ensures RedactedText([], afterDigit) == [] && Redactions([], afterDigit) == 0
  {
    assert Scan([], afterDigit) == [];
  }

  lemma RedactedStep(t: seq<Sym>, afterDigit: bool)
    requires t != []
    ensures var n, after := StepLength(t, afterDigit), t[StepLength(t, afterDigit) - 1].Digit?;
            && RedactedText(t, afterDigit) == Rendered(Step(t, afterDigit)) + RedactedText(t[n..], after)
            && Redactions(t, afterDigit) == (if Step(t, afterDigit).Card? then 1 else 0) + Redactions(t[n..], after)
  {
    hide Scan, Step, StepLength;
    var n := StepLength(t, afterDigit);
    ScanStep(t, afterDigit);
    assert Scan(t, afterDigit)[1..] == Scan(t[n..], t[n - 1].Digit?);
  }

  /** One turn of the loop of _redact_cards: the text to emit, how far to move, whether it redacts. */
  method RedactNext(rest: seq<Sym>, afterDigit: bool) returns (piece: seq<Sym>, n: nat, redacted: bool)
    requires rest != []
    ensures n == StepLength(rest, afterDigit) && piece == Rendered(Step(rest, afterDigit))
    ensures redacted == Step(rest, afterDigit).Card?
  {
    hide MatchAt, DigitsOf, Valid;
    piece, n, redacted := rest[..1], 1, false;
    var candidate := MatchAt(rest, afterDigit);
    if candidate.Some? {
      n, piece := candidate.value, rest[..candidate.value];
      var digits := DigitsOf(piece);
      var valid := LuhnValid(digits);
      if 13 <= |digits| <= 19 && valid {
        piece, redacted := CARD_TOKEN, true;
      }
    }
  }

  method RedactCards(text: seq<Sym>) returns (out: seq<Sym>, count: nat)
    ensures out == RedactedText(text, false) && count == Redactions(text, false)
  {
    hide Scan, MatchAt, Step, StepLength, RedactedText, Redactions;
    out, count := [], 0;
    var pos := 0;
    assert text[0..] == text;
    while pos < |text|
      invariant pos <= |text|
      invariant RedactedText(text, false) == out + RedactedText(text[pos..], pos > 0 && text[pos - 1].Digit?)
      invariant Redactions(text, false) == count + Redactions(text[pos..], pos > 0 && text[pos - 1].Digit?)
    {
      var rest, afterDigit := text[pos..], pos > 0 && text[pos - 1].Digit?;
      RedactedStep(rest, afterDigit);
      var piece, n, redacted := RedactNext(rest, afterDigit);
      assert rest[n..] == text[pos + n..] && rest[n - 1] == text[pos + n - 1];
      out, pos := out + piece, pos + n;
      if redacted {
        count := count + 1;
      }
    }
    assert text[pos..] == [];
    EmptyScan(pos > 0 && text[pos - 1].Digit?);
  }

  // ---- only cards change ----

  lemma {:induction false} ScanKeepsSource(t: seq<Sym>, afterDigit: bool)
    ensures Source(Scan(t, afterDigit)) == t
    decreases |t|
  {
    hide *;
    if t == [] {
      EmptyScan(afterDigit);
    } else {
      ScanStep(t, afterDigit);
      StepText(t, afterDigit);
      var n := StepLength(t, afterDigit);
      ScanKeepsSource(t[n..], t[n - 1].Digit?);
      SourceStep(Step(t, afterDigit), Scan(t[n..], t[n - 1].Digit?));
    }
  }

  lemma SourceStep(segment: Segment, rest: seq<Segment>)
    ensures Source([segment] + rest) == segment.text + Source(rest)
  {
    assert ([segment] + rest)[1..] == rest;
  }

  lemma StepText(t: seq<Sym>, afterDigit: bool)
    requires t != []
    ensures var n := StepLength(t, afterDigit);
            && Step(t, afterDigit).text == t[..n] && t == t[..n] + t[n..]
            && Rendered(Step(t, afterDigit)) == if Step(t, afterDigit).Card? then CARD_TOKEN else t[..n]
  {
  }

  lemma {:induction false} ScanReplacesOnlyCards(t: seq<Sym>, afterDigit: bool, i: nat)
    requires i < |Scan(t, afterDigit)| && Scan(t, afterDigit)[i].Card?
    ensures Chain(Scan(t, afterDigit)[i].text) && IsCard(Scan(t, afterDigit)[i].text)
    decreases |t|
  {
    if i > 0 {
      var n := StepLength(t, afterDigit);
      ScanReplacesOnlyCards(t[n..], t[n - 1].Digit?, i - 1);
    } else {
      GroupsSound(t, 0);
    }
  }

  /** The input is cut into pieces; each piece is copied, or it is a run of 13 to 19 grouped digits
      with a valid checksum and becomes the token. */
  lemma RedactionChangesOnlyCards(t: seq<Sym>) returns (pieces: seq<Segment>)
    ensures Source(pieces) == t && RedactedText(t, false) == Output(pieces) && Redactions(t, false) == Count(pieces)
    ensures forall i | 0 <= i < |pieces| && pieces[i].Card? ::
              Chain(pieces[i].text) && 13 <= |DigitsOf(pieces[i].text)| <= 19 && Valid(DigitsOf(pieces[i].text))
  {
    pieces := Scan(t, false);
    ScanKeepsSource(t, false);
    forall i | 0 <= i < |pieces| && pieces[i].Card?
      ensures Chain(pieces[i].text) && IsCard(pieces[i].text)
    {
      ScanReplacesOnlyCards(t, false, i);
    }
  }

  // ---- a second pass finds nothing ----

  predicate NoOthers(c: seq<Sym>) {
    forall i | 0 <= i < |c| :: !c[i].Other?
  }

  lemma {:induction false} ChainHasNoOthers(c: seq<Sym>)
    requires Chain(c)
    ensures NoOthers(c) && c[|c| - 1].Digit?
  {
    if |c| == 1 {
    } else if c[1].Sep? && Chain(c[2..]) {
      ChainHasNoOthers(c[2..]);
      assert forall i | 2 <= i < |c| :: c[i] == c[2..][i - 2];
    } else {
      ChainHasNoOthers(c[1..]);
      assert forall i | 1 <= i < |c| :: c[i] == c[1..][i - 1];
    }
  }

  /** A redaction never begins right behind a digit. */
  lemma NoRedactionBehindDigit(t: seq<Sym>)
    requires StartsWithDigit(t)
    ensures StartsWithDigit(RedactedText(t, true))
  {
    RedactedStep(t, true);
  }

  lemma TokenIsForeign(u: seq<Sym>, rest: seq<Sym>, n: nat)
    requires u == CARD_TOKEN + rest && 0 < n <= |u|
    ensures !NoOthers(u[..n])
  {
    assert u[..n][0] == CARD_TOKEN[0];
  }

  lemma FirstIsCopied(t: seq<Sym>, afterDigit: bool)
    requires !StartsWithDigit(t)
    ensures !StartsWithDigit(RedactedText(t, afterDigit))
  {
    if t != [] { RedactedStep(t, afterDigit); }
  }

  /** A stretch of output without foreign characters was copied from the same place of the input,
      and a digit that follows it there still follows it. */
  lemma {:induction false} CopiedPrefix(t: seq<Sym>, afterDigit: bool, n: nat)
    requires n <= |RedactedText(t, afterDigit)| && NoOthers(RedactedText(t, afterDigit)[..n])
    ensures n <= |t| && t[..n] == RedactedText(t, afterDigit)[..n]
    ensures n > 0 && t[n - 1].Digit? && StartsWithDigit(t[n..]) ==> StartsWithDigit(RedactedText(t, afterDigit)[n..])
    decreases |t|
  {
    hide Scan, Step, StepLength, Rendered, RedactedText, IsCard;
    if t == [] {
      EmptyScan(afterDigit);
    } else if n > 0 {
      RedactedStep(t, afterDigit);
      StepText(t, afterDigit);
      var u, k := RedactedText(t, afterDigit), StepLength(t, afterDigit);
      var rest := RedactedText(t[k..], t[k - 1].Digit?);
      if Step(t, afterDigit).Card? {
        TokenIsForeign(u, rest, n);
      } else {
        assert u == t[..k] + rest;
        if n >= k {
          CopiedPrefixStep(t, u, rest, n, k);
          CopiedPrefix(t[k..], t[k - 1].Digit?, n - k);
          assert t[..n] == t[..k] + t[k..][..n - k];
          assert t[n..] == t[k..][n - k..] && u[n..] == rest[n - k..];
          if n == k && t[n - 1].Digit? && StartsWithDigit(t[n..]) {
            NoRedactionBehindDigit(t[n..]);
          }
        } else {
          assert t[..n] == u[..n];
        }
      }
    }
  }

  lemma CopiedPrefixStep(t: seq<Sym>, u: seq<Sym>, rest: seq<Sym>, n: nat, k: nat)
    requires k <= |t| && u == t[..k] + rest && k <= n <= |u| && NoOthers(u[..n])
    ensures NoOthers(rest[..n - k])
    ensures u[..n] == t[..k] + rest[..n - k]
  {
    forall i | 0 <= i < n - k
      ensures !rest[i].Other?
    {
      assert u[..n][k + i] == rest[i];
    }
  }

  /** A candidate in the output was a candidate in the input. */
  lemma NoNewCandidates(t: seq<Sym>, afterDigit: bool, n: nat)
    requires Completes(RedactedText(t, afterDigit), n, 0)
    ensures Completes(t, n, 0) && t[..n] == RedactedText(t, afterDigit)[..n]
  {
    ChainHasNoOthers(RedactedText(t, afterDigit)[..n]);
    CopiedPrefix(t, afterDigit, n);
  }

  predicate AllOthers(c: seq<Sym>) {
    forall i | 0 <= i < |c| :: c[i].Other?
  }

  /** Foreign characters are passed over. */
  lemma {:induction false} OthersCopied(p: seq<Sym>, t: seq<Sym>, afterDigit: bool)
    requires AllOthers(p) && p != []
    ensures RedactedText(p + t, afterDigit) == p + RedactedText(t, false)
    ensures Redactions(p + t, afterDigit) == Redactions(t, false)
  {
    var s := p + t;
    RedactedStep(s, afterDigit);
    assert s[1..] == p[1..] + t;
    if |p| == 1 {
      assert s[1..] == t;
    } else {
      OthersCopied(p[1..], t, false);
    }
    assert p == [p[0]] + p[1..];
  }

  /** Whether the lookbehind sees a digit is irrelevant where no digit comes next. */
  lemma LookbehindIrrelevant(t: seq<Sym>)
    requires !StartsWithDigit(t)
    ensures RedactedText(t, true) == RedactedText(t, false) && Redactions(t, true) == Redactions(t, false)
  {
  }

  lemma {:induction false} SecondScan(t: seq<Sym>, afterDigit: bool)
    ensures RedactedText(RedactedText(t, afterDigit), afterDigit) == RedactedText(t, afterDigit)
    ensures Redactions(RedactedText(t, afterDigit), afterDigit) == 0
    decreases |t|
  {
    hide Scan, IsCard, RedactedText, Redactions, Groups;
    if t == [] {
      EmptyScan(afterDigit);
    } else {
      RedactedStep(t, afterDigit);
      var u, k := RedactedText(t, afterDigit), StepLength(t, afterDigit);
      var rest := RedactedText(t[k..], t[k - 1].Digit?);
      SecondScan(t[k..], t[k - 1].Digit?);
      if Step(t, afterDigit).Card? {
        GroupsSound(t, 0);
        ChainHasNoOthers(t[..k]);
        LookbehindIrrelevant(t[k..]);
        FirstIsCopied(t[k..], true);
        LookbehindIrrelevant(rest);
        OthersCopied(CARD_TOKEN, rest, afterDigit);
      } else {
        assert u == t[..k] + rest;
        SameStep(t, afterDigit);
        RedactedStep(u, afterDigit);
        assert u[..k] == t[..k] && u[k..] == rest;
      }
    }
  }

  /** Where the first scan replaced nothing, the second makes the same step. */
  lemma SameStep(t: seq<Sym>, afterDigit: bool)
    requires t != [] && Step(t, afterDigit).Kept?
    ensures var u := RedactedText(t, afterDigit);
            u != [] && StepLength(u, afterDigit) == StepLength(t, afterDigit)
              && Step(u, afterDigit) == Step(t, afterDigit)
  {
    RedactedStep(t, afterDigit);
    var u, k := RedactedText(t, afterDigit), StepLength(t, afterDigit);
    var rest := RedactedText(t[k..], t[k - 1].Digit?);
    assert u == t[..k] + rest && u[..k] == t[..k] && u[k..] == rest;
    if !afterDigit {
      MatchIsLongestCandidate(t, k);
      MatchIsLongestCandidate(u, k);
      forall m: nat | Completes(u, m, 0)
        ensures Completes(t, m, 0)
      {
        NoNewCandidates(t, false, m);
      }
      if MatchAt(t, false).Some? {
        FirstIsCopied(t[k..], t[k - 1].Digit?);
        ChainHasNoOthers(t[..k]);
        assert Completes(u, k, 0);
      }
    }
  }

  /** Redacting twice is redacting once, on every text. */
  lemma RedactionIdempotent(t: seq<Sym>)
    ensures RedactedText(RedactedText(t, false), false) == RedactedText(t, false)
    ensures Redactions(RedactedText(t, false), false) == 0
  {
    SecondScan(t, false);
  }
}
