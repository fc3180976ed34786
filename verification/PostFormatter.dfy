/** assets_library/post_formatter.py: one sentence a line, hashtags last, a second run changes nothing. */
module PostFormatter {
  import opened PostText
  import opened Hashtags

  const TEXT_LIMIT := 3000
  const HOOK_LIMIT := 150
  const MAX_HASHTAGS := 5
  const MAX_EMOJIS := 3

  const APPROVED_EMOJIS: set<char> := {
    '\U{26A1}', '\U{1F527}', '\U{1F680}', '\U{1F6E0}', '\U{1F4E1}', '\U{1F50D}',
    '\U{2705}', '\U{274C}', '\U{1F525}', '\U{1F4A1}', '\U{1F447}', '\U{1F446}', '\U{1F449}'
  }

  const BROAD_HASHTAGS: set<string> := {
    "#ai", "#tech", "#technology", "#cloudcomputing", "#cloud", "#devops",
    "#business", "#innovation", "#career", "#careers", "#futureofwork"
  }

  // ---- sentences ----

  predicate StartsWithMarker(t: Text) {
    t != [] && t[0].Marker?
  }

  /** Where (?<=[.!?])(?<!\d[.!?])\s+ may match in the whole line. */
  predicate IsSentenceEnd(l: Text, i: nat) {
    && 1 <= i < |l| && l[i - 1].Stop? && IsSpace(l[i])
    && !(i >= 2 && l[i - 2].Word? && l[i - 2].decimal)
  }

  function SkipSpace(l: Text, i: nat): (j: nat)
    requires i <= |l|
    ensures i <= j <= |l| && (forall k | i <= k < j :: IsSpace(l[k])) && (j < |l| ==> !IsSpace(l[j]))
    decreases |l| - i
  {
    if i < |l| && IsSpace(l[i]) then SkipSpace(l, i + 1) else i
  }

  /** The pieces of the split from start on, when nothing up to i was a match. */
  function SplitFrom(l: Text, start: nat, i: nat): seq<Text>
    requires start <= i <= |l|
    decreases |l| - i
  {
    if i == |l| then [l[start..]]
    else if IsSentenceEnd(l, i) then
      var j := SkipSpace(l, i);
      [l[start..i]] + SplitFrom(l, j, j)
    else SplitFrom(l, start, i + 1)
  }

  ghost predicate NoSentenceEnd(l: Text) {
    forall i: nat :: !IsSentenceEnd(l, i)
  }

  /** A finished line: visible at both ends, unbroken, and one sentence unless a marker starts it. */
  ghost predicate GoodLine(l: Text) {
    RawLine(l) && (StartsWithMarker(l) || NoSentenceEnd(l))
  }

  /** What one raw line contributes. */
  function Emitted(l: Text): seq<Text> {
    if StartsWithMarker(l) then [l] else Cleaned(SplitFrom(l, 0, 0))
  }

  function EmitAll(raw: seq<Text>): seq<Text> {
    if raw == [] then [] else Emitted(raw[0]) + EmitAll(raw[1..])
  }

  function RawLinesOf(body: Text): seq<Text> {
    var raw := Cleaned(SplitLines(body));
    if raw != [] then raw else if Strip(body) != [] then [Strip(body)] else []
  }

  function LinesOf(body: Text): seq<Text> {
    EmitAll(RawLinesOf(body))
  }

  method SplitIntoLines(body: Text) returns (lines: seq<Text>)
    ensures lines == LinesOf(body)
  {
    hide Emitted, RawLinesOf;
    var raw := RawLinesOf(body);
    lines := [];
    for i := 0 to |raw|
      invariant EmitAll(raw) == lines + EmitAll(raw[i..])
    {
      assert raw[i..][1..] == raw[i + 1..];
      lines := lines + Emitted(raw[i]);
    }
    assert raw[|raw|..] == [];
  }

  /** The state of a split inside a raw line: start is where the current sentence began. */
  ghost predicate SplitState(l: Text, start: nat, i: nat) {
    && RawLine(l) && start <= i <= |l| && start < |l| && !IsSpace(l[start])
    && (start == 0 || IsSpace(l[start - 1]))
    && forall k: nat | start < k < i :: !IsSentenceEnd(l, k)
  }

  lemma PieceIsSentence(l: Text, start: nat, i: nat)
    requires SplitState(l, start, i) && start < i && !IsSpace(l[i - 1])
    ensures RawLine(l[start..i]) && NoSentenceEnd(l[start..i])
  {
    var piece := l[start..i];
    forall k: nat
      ensures !IsSentenceEnd(piece, k)
    {
      if IsSentenceEnd(piece, k) {
        assert piece[k - 1] == l[start + k - 1] && piece[k] == l[start + k];
        assert k >= 2 ==> piece[k - 2] == l[start + k - 2];
        assert IsSentenceEnd(l, start + k);
      }
    }
  }

  /** The pieces of a raw line are sentences, stripping leaves them alone, and the last is a suffix. */
  lemma {:induction false} PiecesAreSentences(l: Text, start: nat, i: nat)
    requires SplitState(l, start, i)
    ensures var pieces := SplitFrom(l, start, i);
            && (forall p | p in pieces :: RawLine(p) && NoSentenceEnd(p))
            && pieces != [] && IsSuffix(pieces[|pieces| - 1], l)
    decreases |l| - i
  {
    hide NoSentenceEnd;
    if i == |l| {
      PieceIsSentence(l, start, i);
      assert l[start..i] == l[start..];
    } else if IsSentenceEnd(l, i) {
      var j := SkipSpace(l, i);
      PieceIsSentence(l, start, i);
      PiecesAreSentences(l, j, j);
    } else {
      PiecesAreSentences(l, start, i + 1);
    }
  }

  lemma {:induction false} CleanedIsIdentity(parts: seq<Text>)
    requires forall p | p in parts :: RawLine(p)
    ensures Cleaned(parts) == parts
  {
    if parts != [] {
      assert RawLine(parts[0]);
      StripIsIdentity(parts[0]);
      CleanedIsIdentity(parts[1..]);
    }
  }

  lemma EmittedIsGood(l: Text)
    requires RawLine(l)
    ensures forall p | p in Emitted(l) :: GoodLine(p)
    ensures Emitted(l) != [] && IsSuffix(Emitted(l)[|Emitted(l)| - 1], l)
  {
    if !StartsWithMarker(l) {
      PiecesAreSentences(l, 0, 0);
      CleanedIsIdentity(SplitFrom(l, 0, 0));
    }
  }

  lemma {:induction false} EmitAllGood(raw: seq<Text>)
    requires forall l | l in raw :: RawLine(l)
    ensures forall p | p in EmitAll(raw) :: GoodLine(p)
    ensures raw != [] ==> EmitAll(raw) != [] && IsSuffix(EmitAll(raw)[|EmitAll(raw)| - 1], raw[|raw| - 1])
  {
    hide GoodLine, Emitted, IsSuffix;
    if raw != [] {
      EmittedIsGood(raw[0]);
      EmitAllGood(raw[1..]);
      if raw[1..] == [] {
        assert Emitted(raw[0]) + [] == Emitted(raw[0]);
      }
    }
  }

  /** Every line of a post is good, and the last one ends the body. */
  lemma LinesAreGood(body: Text)
    ensures forall l | l in LinesOf(body) :: GoodLine(l)
    ensures EndsInk(body) ==> LinesOf(body) != [] && IsSuffix(LinesOf(body)[|LinesOf(body)| - 1], body)
  {
    hide EmitAll, GoodLine, IsSuffix, SplitLines, Cleaned;
    RawLines(body);
    NoLinesMeansBlank(body);
    StripTrims(body);
    EmitAllGood(RawLinesOf(body));
    if EndsInk(body) {
      LastLineIsSuffix(body);
      var raw, lines := RawLinesOf(body), LinesOf(body);
      SuffixTransitive(lines[|lines| - 1], raw[|raw| - 1], body);
    }
  }

  /** The fallback for a body without raw lines never has anything to do. */
  lemma {:induction false} NoLinesMeansBlank(t: Text)
    ensures Cleaned(SplitLines(t)) == [] ==> AllSpace(t)
    decreases |t|
  {
    hide Cleaned, SplitLines, AfterLine, Strip;
    if t != [] && Cleaned(SplitLines(t)) == [] {
      var n, rest := LineLength(t), AfterLine(t);
      SplitStep(t);
      CleanedStep(t[..n], SplitLines(rest));
      StripTrims(t[..n]);
      NoLinesMeansBlank(rest);
      LineCover(t);
      forall i | 0 <= i < |t|
        ensures IsSpace(t[i])
      {
        if i < n {
          assert t[i] == t[..n][i];
        } else if i >= |t| - |rest| {
          assert t[i] == rest[i - (|t| - |rest|)];
        }
      }
    }
  }

  lemma {:induction false} SentenceStaysWhole(l: Text, i: nat)
    requires i <= |l| && NoSentenceEnd(l)
    ensures SplitFrom(l, 0, i) == [l]
    decreases |l| - i
  {
    if i < |l| {
      SentenceStaysWhole(l, i + 1);
    } else {
      assert l[0..] == l;
    }
  }

  lemma {:induction false} GoodLinesSurvive(lines: seq<Text>)
    requires forall l | l in lines :: GoodLine(l)
    ensures EmitAll(lines) == lines
  {
    if lines != [] {
      var l := lines[0];
      assert GoodLine(l);
      if !StartsWithMarker(l) {
        SentenceStaysWhole(l, 0);
        CleanedIsIdentity([l]);
      }
      GoodLinesSurvive(lines[1..]);
    }
  }

  /** Joining good lines and taking them apart again changes nothing. */
  lemma JoinedLinesSurvive(lines: seq<Text>)
    requires forall l | l in lines :: GoodLine(l)
    ensures LinesOf(Join(lines)) == lines
  {
    SplitJoined(lines);
    GoodLinesSurvive(lines);
    StripIsIdentity([]);
  }

  // ---- trimming the hashtags ----

  function Code(c: Ch): char {
    match c
    case Hash => '#'
    case Break(code) => code
    case Blank(code) => code
    case Word(code, _, _) => code
    case Stop(code) => code
    case Marker(code) => code
    case Other(code) => code
  }

  /** str.lower on one character, as far as an ASCII letter can result: capitals and the Kelvin sign. */
  function Lower(c: char): char {
    if 'A' <= c <= 'Z' then (c as int + 32) as char else if c == '\U{212A}' then 'k' else c
  }

  predicate IsBroad(tag: Text) {
    seq(|tag|, i requires 0 <= i < |tag| => Lower(Code(tag[i]))) in BROAD_HASHTAGS
  }

  function Select(tags: seq<Text>, broad: bool): (r: seq<Text>)
    ensures forall h :: h in r <==> h in tags && IsBroad(h) == broad
  {
    if tags == [] then [] else (if IsBroad(tags[0]) == broad then [tags[0]] else []) + Select(tags[1..], broad)
  }

  lemma {:induction false} SelectPartitions(tags: seq<Text>)
    ensures multiset(Select(tags, false)) + multiset(Select(tags, true)) == multiset(tags)
    ensures |Select(tags, false)| + |Select(tags, true)| == |tags|
  {
    if tags != [] {
      SelectPartitions(tags[1..]);
      assert tags == [tags[0]] + tags[1..];
    }
  }

  function TrimTags(tags: seq<Text>): (kept: seq<Text>)
    ensures |kept| <= MAX_HASHTAGS
    ensures forall h | h in kept :: h in tags
  {
    if |tags| <= MAX_HASHTAGS then tags else
    SelectPartitions(tags);
    (Select(tags, false) + Select(tags, true))[..MAX_HASHTAGS]
  }

  /** Trimming drops no more than it must, repeats nothing, and keeps a broad tag only when every
      specific one is kept. */
  lemma TrimKeepsTheSpecific(tags: seq<Text>)
    ensures var kept := TrimTags(tags);
            && |kept| == (if |tags| <= MAX_HASHTAGS then |tags| else MAX_HASHTAGS)
            && multiset(kept) <= multiset(tags)
            && forall b, s | b in kept && IsBroad(b) && s in tags && !IsBroad(s) :: s in kept
  {
    SelectPartitions(tags);
    if |tags| > MAX_HASHTAGS {
      var specific, broad := Select(tags, false), Select(tags, true);
      var all, kept := specific + broad, TrimTags(tags);
      assert all == kept + all[MAX_HASHTAGS..];
      assert multiset(all) == multiset(kept) + multiset(all[MAX_HASHTAGS..]);
      if |specific| <= MAX_HASHTAGS {
        assert forall i | 0 <= i < |specific| :: kept[i] == specific[i];
      } else {
        assert forall h | h in kept :: h in specific;
      }
    }
  }

  /** The kept tags are tags at these places of the list. */
  ghost predicate TakenFrom(kept: seq<Text>, tags: seq<Text>, places: seq<nat>) {
    |places| == |kept| && forall k | 0 <= k < |kept| :: places[k] < |tags| && kept[k] == tags[places[k]]
  }

  ghost predicate Rising(places: seq<nat>) {
    forall j, k | 0 <= j < k < |places| :: places[j] < places[k]
  }

  lemma SelectStep(tags: seq<Text>, i: nat, broad: bool)
    requires i < |tags|
    ensures Select(tags[i..], broad) ==
            (if IsBroad(tags[i]) == broad then [tags[i]] else []) + Select(tags[i + 1..], broad)
  {
    hide IsBroad;
    assert tags[i..][1..] == tags[i + 1..] && tags[i..][0] == tags[i];
  }

  /** The tags from i on that are broad, or those that are not, stand at these places. */
  ghost predicate PlacesOf(tags: seq<Text>, i: nat, broad: bool, kept: seq<Text>, places: seq<nat>) {
    && TakenFrom(kept, tags, places) && Rising(places)
    && forall k | 0 <= k < |places| :: i <= places[k] && IsBroad(tags[places[k]]) == broad
  }

  lemma FirstOfPlaces(tags: seq<Text>, i: nat, broad: bool, kept: seq<Text>, rest: seq<nat>)
    requires i < |tags| && PlacesOf(tags, i + 1, broad, kept, rest)
    ensures PlacesOf(tags, i, broad, kept, rest)
    ensures IsBroad(tags[i]) == broad ==> PlacesOf(tags, i, broad, [tags[i]] + kept, [i] + rest)
  {
    hide IsBroad;
  }

  lemma {:induction false} SelectedInOrder(tags: seq<Text>, i: nat, broad: bool) returns (places: seq<nat>)
    requires i <= |tags|
    ensures PlacesOf(tags, i, broad, Select(tags[i..], broad), places)
    decreases |tags| - i
  {
    hide IsBroad;
    if i == |tags| {
      places := [];
      assert tags[i..] == [];
    } else {
      hide PlacesOf, Select;
      var rest := SelectedInOrder(tags, i + 1, broad);
      var kept := Select(tags[i + 1..], broad);
      SelectStep(tags, i, broad);
      FirstOfPlaces(tags, i, broad, kept, rest);
      places := (if IsBroad(tags[i]) == broad then [i] else []) + rest;
      assert [] + kept == kept && [] + rest == rest;
    }
  }

  /** Of two kept tags the earlier one stands first in the list, or it is specific and the other broad. */
  ghost predicate KeepsOrder(tags: seq<Text>, places: seq<nat>) {
    forall j, k | 0 <= j < k < |places| && places[j] < |tags| && places[k] < |tags| ::
      places[j] < places[k] || (!IsBroad(tags[places[j]]) && IsBroad(tags[places[k]]))
  }

  lemma SpecificThenBroad(tags: seq<Text>, specific: seq<nat>, broad: seq<nat>)
    requires Rising(specific) && Rising(broad)
    requires forall k | 0 <= k < |specific| :: specific[k] < |tags| && !IsBroad(tags[specific[k]])
    requires forall k | 0 <= k < |broad| :: broad[k] < |tags| && IsBroad(tags[broad[k]])
    ensures KeepsOrder(tags, specific + broad)
  {
    hide IsBroad;
    var places := specific + broad;
    forall j, k | 0 <= j < k < |places|
      ensures places[j] < places[k] || (!IsBroad(tags[places[j]]) && IsBroad(tags[places[k]]))
    {
      if k < |specific| {
        assert places[j] == specific[j] && places[k] == specific[k];
      } else if j >= |specific| {
        assert places[j] == broad[j - |specific|] && places[k] == broad[k - |specific|];
      }
    }
  }

  /** Kept tags stand in the order of the list, but for the specific ones going first when some must go. */
  lemma TrimKeepsTheOrder(tags: seq<Text>) returns (places: seq<nat>)
    ensures TakenFrom(TrimTags(tags), tags, places) && KeepsOrder(tags, places)
    ensures |tags| <= MAX_HASHTAGS ==> Rising(places)
  {
    hide IsBroad, Select, Rising, KeepsOrder;
    if |tags| <= MAX_HASHTAGS {
      places := seq(|tags|, k requires 0 <= k < |tags| => k);
      AllInOrder(tags, places);
    } else {
      var specific := SelectedInOrder(tags, 0, false);
      var broad := SelectedInOrder(tags, 0, true);
      assert tags[0..] == tags;
      SelectPartitions(tags);
      SpecificThenBroad(tags, specific, broad);
      FrontKeepsOrder(tags, specific + broad);
      places := (specific + broad)[..MAX_HASHTAGS];
      TakenTogether(tags, Select(tags, false), specific, Select(tags, true), broad);
    }
  }

  lemma AllInOrder(tags: seq<Text>, places: seq<nat>)
    requires |places| == |tags| && forall k | 0 <= k < |places| :: places[k] == k
    ensures Rising(places) && KeepsOrder(tags, places)
  {
  }

  lemma FrontKeepsOrder(tags: seq<Text>, places: seq<nat>)
    requires KeepsOrder(tags, places) && |places| >= MAX_HASHTAGS
    ensures KeepsOrder(tags, places[..MAX_HASHTAGS])
  {
    hide IsBroad;
  }

  lemma TakenTogether(tags: seq<Text>, a: seq<Text>, atA: seq<nat>, b: seq<Text>, atB: seq<nat>)
    requires TakenFrom(a, tags, atA) && TakenFrom(b, tags, atB) && |a| + |b| >= MAX_HASHTAGS
    ensures TakenFrom((a + b)[..MAX_HASHTAGS], tags, (atA + atB)[..MAX_HASHTAGS])
  {
  }

  // ---- the formatter ----

  datatype Warning =
    | HookTooLong(length: nat)
    | HookHasQuestionMark
    | HookWithoutEmoji
    | TooManyEmojis(count: nat)
    | HashtagsTrimmed(count: nat)
    | PostTooLong(length: nat)

  predicate LooksLikeEmojiStart(line: Text) {
    line != [] && !(line[0].Word? && line[0].alphaOrDigit)
  }

  function HookWarnings(lines: seq<Text>): seq<Warning> {
    if lines == [] then [] else
    var hook := lines[0];
    (if |hook| > HOOK_LIMIT then [HookTooLong(|hook|)] else [])
    + (if Stop('?') in hook then [HookHasQuestionMark] else [])
    + if LooksLikeEmojiStart(hook) then [] else [HookWithoutEmoji]
  }

  function EmojiCount(t: Text): nat {
    if t == [] then 0
    else (if (t[0].Marker? || t[0].Other?) && t[0].code in APPROVED_EMOJIS then 1 else 0) + EmojiCount(t[1..])
  }

  /** sum(joined_lines.count(e) for e in _APPROVED_EMOJIS); every approved emoji is one character. */
  function EmojisIn(lines: seq<Text>): nat {
    if lines == [] then 0 else EmojiCount(lines[0]) + EmojisIn(lines[1..])
  }

  function LineWarnings(lines: seq<Text>): seq<Warning> {
    HookWarnings(lines) + if EmojisIn(lines) > MAX_EMOJIS then [TooManyEmojis(EmojisIn(lines))] else []
  }

  function TrimWarnings(tags: seq<Text>): seq<Warning> {
    if |tags| <= MAX_HASHTAGS then [] else [HashtagsTrimmed(|tags|)]
  }

  function LengthWarnings(text: Text): seq<Warning> {
    if |text| > TEXT_LIMIT then [PostTooLong(|text|)] else []
  }

  /** The parts that are not empty, a blank line between them. */
  function Assembled(lines: seq<Text>, tags: seq<Text>, credit: Text): Text {
    Join((if Join(lines) == [] then [] else [Join(lines)])
         + (if tags == [] then [] else [TagLine(tags)])
         + if credit == [] then [] else [credit])
  }

  datatype Post = Post(lines: seq<Text>, found: seq<Text>)

  /** What the formatter takes a raw text apart into. */
  function Parsed(raw: Text): Post {
    var (body, tags) := SplitHashtags(Strip(raw));
    Post(LinesOf(body), tags)
  }

  /** format_post; an absent credit line is the empty one, which the code treats alike. */
  function Formatted(raw: Text, credit: Text, isOriginal: bool): Text {
    var post := Parsed(raw);
    Assembled(post.lines, TrimTags(post.found), if isOriginal then [] else credit)
  }

  function Warnings(raw: Text, credit: Text, isOriginal: bool): seq<Warning> {
    var post := Parsed(raw);
    LineWarnings(post.lines) + TrimWarnings(post.found) + LengthWarnings(Formatted(raw, credit, isOriginal))
  }

  method TrimHashtags(hashtags: seq<Text>, warnings: seq<Warning>) returns (kept: seq<Text>, warned: seq<Warning>)
    ensures kept == TrimTags(hashtags) && warned == warnings + TrimWarnings(hashtags)
  {
    if |hashtags| <= MAX_HASHTAGS {
      return hashtags, warnings;
    }
    warned := warnings + [HashtagsTrimmed(|hashtags|)];
    SelectPartitions(hashtags);
    kept := (Select(hashtags, false) + Select(hashtags, true))[..MAX_HASHTAGS];
  }

  method FormatPost(raw: Text, credit: Text, isOriginal: bool) returns (formatted: Text, warnings: seq<Warning>)
    ensures formatted == Formatted(raw, credit, isOriginal)
    ensures warnings == Warnings(raw, credit, isOriginal)
  {
    hide LinesOf, EmojisIn, TrimTags, TrimWarnings, SplitHashtags, TagLine, Strip;
    var (body, hashtags) := SplitHashtags(Strip(raw));
    var lines := SplitIntoLines(body);
    warnings := [];
    if lines != [] {
      var hook := lines[0];
      if |hook| > HOOK_LIMIT {
        warnings := warnings + [HookTooLong(|hook|)];
      }
      if Stop('?') in hook {
        warnings := warnings + [HookHasQuestionMark];
      }
      if !LooksLikeEmojiStart(hook) {
        warnings := warnings + [HookWithoutEmoji];
      }
    }
    assert warnings == HookWarnings(lines);
    var emojiCount := 0;
    for i := 0 to |lines|
      invariant EmojisIn(lines) == emojiCount + EmojisIn(lines[i..])
    {
      EmojisStep(lines, i);
      emojiCount := emojiCount + EmojiCount(lines[i]);
    }
    EmojisStep(lines, |lines|);
    if emojiCount > MAX_EMOJIS {
      warnings := warnings + [TooManyEmojis(emojiCount)];
    }
    assert warnings == LineWarnings(lines);
    hashtags, warnings := TrimHashtags(hashtags, warnings);
    var parts := if Join(lines) == [] then [] else [Join(lines)];
    if hashtags != [] {
      parts := parts + [TagLine(hashtags)];
    }
    if !isOriginal && credit != [] {
      parts := parts + [credit];
    }
    formatted := Join(parts);
    assert formatted == Formatted(raw, credit, isOriginal) by {
      assert forall x: seq<Text> :: x + [] == x;
    }
    if |formatted| > TEXT_LIMIT {
      warnings := warnings + [PostTooLong(|formatted|)];
    }
  }

  lemma EmojisStep(lines: seq<Text>, i: nat)
    requires i <= |lines|
    ensures i < |lines| ==> EmojisIn(lines[i..]) == EmojiCount(lines[i]) + EmojisIn(lines[i + 1..])
    ensures i == |lines| ==> EmojisIn(lines[i..]) == 0
    ensures EmojisIn(lines[0..]) == EmojisIn(lines)
  {
    assert lines[0..] == lines;
    if i < |lines| {
      assert lines[i..][1..] == lines[i + 1..];
    }
  }

  /** Which warnings a text gets, and with which numbers. */
  lemma WarningsExactlyWhen(raw: Text, credit: Text, isOriginal: bool, w: Warning)
    ensures var lines, found := Parsed(raw).lines, Parsed(raw).found;
            var text := Formatted(raw, credit, isOriginal);
            w in Warnings(raw, credit, isOriginal) <==>
            match w
            case HookTooLong(n) => lines != [] && n == |lines[0]| > 150
            case HookHasQuestionMark => lines != [] && Stop('?') in lines[0]
            case HookWithoutEmoji => lines != [] && (lines[0] == [] || (lines[0][0].Word? && lines[0][0].alphaOrDigit))
            case TooManyEmojis(n) => n == EmojisIn(lines) > 3
            case HashtagsTrimmed(n) => n == |found| > 5
            case PostTooLong(n) => n == |text| > 3000
  {
    var lines, found, text := Parsed(raw).lines, Parsed(raw).found, Formatted(raw, credit, isOriginal);
    assert w in Warnings(raw, credit, isOriginal) <==>
           w in HookWarnings(lines) || (EmojisIn(lines) > MAX_EMOJIS && w == TooManyEmojis(EmojisIn(lines)))
           || w in TrimWarnings(found) || w in LengthWarnings(text);
    hide Parsed, Formatted, EmojisIn, Warnings;
    HookWarningsAre(lines, w);
    hide HookWarnings;
  }

  lemma HookWarningsAre(lines: seq<Text>, w: Warning)
    ensures w in HookWarnings(lines) <==>
            lines != [] && (|| (w == HookTooLong(|lines[0]|) && |lines[0]| > HOOK_LIMIT)
                            || (w == HookHasQuestionMark && Stop('?') in lines[0])
                            || (w == HookWithoutEmoji && !LooksLikeEmojiStart(lines[0])))
  {
  }

  predicate IsApprovedEmoji(c: Ch) {
    (c.Marker? || c.Other?) && c.code in APPROVED_EMOJIS
  }

  function EmojisFrom(t: Text, i: nat): set<nat> {
    set k: nat | i <= k < |t| && IsApprovedEmoji(t[k])
  }

  lemma {:induction false} EmojisCountedFrom(t: Text, i: nat)
    requires i <= |t|
    ensures EmojiCount(t[i..]) == |EmojisFrom(t, i)|
    decreases |t| - i
  {
    if i < |t| {
      EmojisCountedFrom(t, i + 1);
      assert t[i..][1..] == t[i + 1..];
      assert EmojisFrom(t, i) == EmojisFrom(t, i + 1) + if IsApprovedEmoji(t[i]) then {i} else {};
    }
  }

  /** Every approved emoji of a line is counted, and nothing else. */
  lemma EmojisCounted(t: Text)
    ensures EmojiCount(t) == |EmojisFrom(t, 0)|
  {
    EmojisCountedFrom(t, 0);
    assert t[0..] == t;
  }

  /** A tag is broad in capitals as in small letters. */
  lemma BroadInAnyCase(big: bool)
    ensures var a, i := if big then 'A' else 'a', if big then 'I' else 'i';
            IsBroad([Hash, Word(a, false, true), Word(i, false, true)])
  {
    var a, i := if big then 'A' else 'a', if big then 'I' else 'i';
    var tag := [Hash, Word(a, false, true), Word(i, false, true)];
    assert seq(|tag|, k requires 0 <= k < |tag| => Lower(Code(tag[k]))) == "#ai";
  }
}
