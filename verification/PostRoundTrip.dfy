/** What a second run of the formatter does, with and without a credit line. */
module PostRoundTrip {
  import opened PostText
  import opened Hashtags
  import opened PostFormatter
  import opened PostInk

  /** A post as the formatter lays it out: good lines, real tags, no block hidden at the end of the lines. */
  ghost predicate LaidOut(lines: seq<Text>, tags: seq<Text>) {
    && (forall l | l in lines :: GoodLine(l))
    && (forall h | h in tags :: IsTag(h))
    && NoBlock(Join(lines))
  }

  lemma LinesAreTrimmed(lines: seq<Text>)
    requires forall l | l in lines :: GoodLine(l)
    ensures forall l | l in lines :: Trimmed(l)
    ensures lines != [] ==> Trimmed(Join(lines)) && IsSuffix(lines[|lines| - 1], Join(lines))
  {
    forall l | l in lines
      ensures Trimmed(l)
    {
      assert GoodLine(l);
    }
    if lines != [] { JoinedEnds(lines); }
  }

  /** Every parsed text is laid out. */
  lemma ParsedIsLaidOut(raw: Text)
    ensures LaidOut(Parsed(raw).lines, Parsed(raw).found)
    ensures LaidOut(Parsed(raw).lines, TrimTags(Parsed(raw).found))
  {
    hide LinesOf, GoodLine, FindTags, NoBlock, Join, IsSuffix, Strip;
    var t := Strip(raw);
    var body, lines := SplitHashtags(t).0, Parsed(raw).lines;
    BodyHasNoBlock(t);
    FoundTagsAreTags(t[BlockStart(t)..]);
    LinesAreGood(body);
    LinesAreTrimmed(lines);
    BodyEnds(raw);
    if lines == [] {
      JoinNothing();
    } else {
      NoBlockInSuffix(lines[|lines| - 1], body);
      NoBlockInJoin(lines);
    }
  }

  /** The body is blank, and has no lines, or it ends visibly. */
  lemma BodyEnds(raw: Text)
    ensures var body := SplitHashtags(Strip(raw)).0; EndsInk(body) || LinesOf(body) == []
  {
    var t := Strip(raw);
    StripTrims(raw);
    RStripSpec(t[..BlockStart(t)]);
    assert LinesOf([]) == [] by { CleanedEmpty(); StripIsIdentity([]); }
  }

  lemma JoinNothing()
    ensures Join([]) == [] && NoBlock(Join([]))
  {
  }

  /** A block at the end of the lines would reach into the last line. */
  lemma NoBlockInJoin(lines: seq<Text>)
    requires lines != [] && (forall l | l in lines :: GoodLine(l)) && NoBlock(lines[|lines| - 1])
    ensures NoBlock(Join(lines))
  {
    hide GoodLine, NoBlock, Join;
    LinesAreTrimmed(lines);
    JoinSplit(lines);
    var t, last := Join(lines), lines[|lines| - 1];
    NoBlockBehindSpace(t[..|t| - |last|], last);
    assert t[..|t| - |last|] + last == t;
  }

  lemma NoBlockBehindSpace(head: Text, last: Text)
    requires (head == [] || IsSpace(head[|head| - 1])) && Trimmed(last) && NoBlock(last)
    ensures NoBlock(head + last)
  {
    hide BlockRest;
    var t := head + last;
    forall i | 0 <= i < |t|
      ensures !IsBlock(t[i..])
    {
      if i >= |head| {
        assert t[i..] == last[i - |head|..];
      } else if IsBlock(t[i..]) {
        assert t[i..] == head[i..] + last;
        assert last[0..] == last;
        BlockEnds(head[i..], false, last);
      }
    }
  }

  /** The last line stands alone or behind a separator. */
  lemma {:induction false} JoinSplit(lines: seq<Text>)
    requires lines != []
    ensures var t, last := Join(lines), lines[|lines| - 1];
            IsSuffix(last, t) && (|t| > |last| ==> t[|t| - |last| - 1] == Break('\n'))
    ensures |lines| == 1 ==> Join(lines) == lines[0]
    ensures |lines| > 1 ==> |Join(lines)| > |lines[|lines| - 1]|
  {
    if |lines| > 1 {
      var rest, last := Join(lines[1..]), lines[|lines| - 1];
      JoinSplit(lines[1..]);
      var t := Join(lines);
      assert t == lines[0] + (SEPARATOR + rest);
      assert t[|t| - |rest|..] == rest;
      SuffixTransitive(last, rest, t);
      if |rest| > |last| {
        assert t[|t| - |last| - 1] == rest[|rest| - |last| - 1];
      } else {
        assert t[|t| - |rest| - 1] == SEPARATOR[1];
      }
    } else {
      assert lines[0] + [] == lines[0];
    }
  }

  /** A block that runs over whitespace is a block again behind it. */
  lemma {:induction false} BlockEnds(x: Text, inWord: bool, rest: Text)
    requires BlockRest(x + rest, inWord) && Trimmed(rest)
    requires if x == [] then !inWord else IsSpace(x[|x| - 1])
    ensures IsBlock(rest)
  {
    var t := x + rest;
    if x == [] {
      assert t == rest;
    } else {
      var k := if t[0].Hash? then 2 else 1;
      assert t[k..] == x[k..] + rest;
      BlockEnds(x[k..], t[k - 1].Word?, rest);
    }
  }

  lemma AssembledPlain(lines: seq<Text>, tags: seq<Text>)
    requires forall l | l in lines :: GoodLine(l)
    ensures Assembled(lines, tags, []) ==
              if lines == [] then TagLine(tags)
              else if tags == [] then Join(lines) else Join(lines) + SEPARATOR + TagLine(tags)
  {
    LinesAreTrimmed(lines);
    JoinNothing();
    JoinSmall(Join(lines), TagLine(tags));
    assert forall x: seq<Text> :: [] + x == x && x + [] == x;
    assert [Join(lines)] + [TagLine(tags)] == [Join(lines), TagLine(tags)];
  }

  lemma JoinSmall(a: Text, b: Text)
    ensures Join([a]) == a && Join([b]) == b && Join([a, b]) == a + SEPARATOR + b
  {
    assert [a, b][1..] == [b];
    assert a + (SEPARATOR + b) == a + SEPARATOR + b;
  }

  /** A laid-out post is what the formatter reads back. */
  lemma LaidOutPostSurvives(lines: seq<Text>, tags: seq<Text>)
    requires LaidOut(lines, tags)
    ensures Parsed(Assembled(lines, tags, [])) == Post(lines, tags)
    ensures Assembled(lines, tags, []) != [] ==> Trimmed(Assembled(lines, tags, []))
  {
    hide GoodLine, LinesOf, TagLine, IsBlock, Assembled, SplitHashtags, NoBlock, Join;
    var t := Assembled(lines, tags, []);
    AssembledPlain(lines, tags);
    LinesAreTrimmed(lines);
    JoinedLinesSurvive(lines);
    JoinNothing();
    if tags != [] {
      TagLineIsBlock(tags);
      TagsSurvive(tags);
      if lines == [] {
        assert [] + [] + TagLine(tags) == t;
        SplitBehind([], [], TagLine(tags));
      } else {
        SplitBehind(Join(lines), SEPARATOR, TagLine(tags));
        assert t[0] == Join(lines)[0] && t[|t| - 1] == TagLine(tags)[|TagLine(tags)| - 1];
      }
    } else {
      NothingToSplit(Join(lines));
      EmptyTagLine();
    }
    StripIsIdentity(t);
  }

  lemma EmptyTagLine()
    ensures TagLine([]) == []
  {
  }

  lemma NothingToSplit(t: Text)
    requires NoBlock(t)
    ensures SplitHashtags(t) == (t, [])
  {
    NoBlockStart(t);
  }

  /** Without a credit line a second run returns the same text, and the same warnings but for the
      one about trimmed hashtags. */
  lemma FormatIdempotent(raw: Text, credit: Text, isOriginal: bool)
    requires isOriginal || credit == []
    ensures var text := Formatted(raw, credit, isOriginal);
            && Formatted(text, credit, isOriginal) == text
            && Warnings(text, credit, isOriginal) == LineWarnings(Parsed(raw).lines) + LengthWarnings(text)
  {
    hide Parsed, Assembled, TrimTags;
    var lines, kept := Parsed(raw).lines, TrimTags(Parsed(raw).found);
    ParsedIsLaidOut(raw);
    LaidOutPostSurvives(lines, kept);
    TrimsNothing(kept);
    assert LineWarnings(lines) + [] == LineWarnings(lines);
  }

  lemma TrimsNothing(tags: seq<Text>)
    requires |tags| <= MAX_HASHTAGS
    ensures TrimTags(tags) == tags && TrimWarnings(tags) == []
  {
  }

  /** The shape of every formatted text: good lines, then at most five tags. */
  lemma FormattedShape(raw: Text) returns (lines: seq<Text>, tags: seq<Text>)
    ensures Formatted(raw, [], false) == Assembled(lines, tags, [])
    ensures forall l | l in lines :: Trimmed(l) && NoBreaks(l) && (StartsWithMarker(l) || NoSentenceEnd(l))
    ensures |tags| <= 5 && forall h | h in tags :: IsTag(h)
  {
    lines, tags := Parsed(raw).lines, TrimTags(Parsed(raw).found);
    ParsedIsLaidOut(raw);
    forall l | l in lines
      ensures RawLine(l) && (StartsWithMarker(l) || NoSentenceEnd(l))
    {
      assert GoodLine(l);
    }
  }

  /** Nothing visible is lost, added or reordered, but for the hashtags that are trimmed. */
  lemma FormatKeepsInk(raw: Text)
    ensures var post := Parsed(raw);
            && Ink(raw) == Ink(Join(post.lines)) + InkOfAll(post.found)
            && Ink(Formatted(raw, [], false)) == Ink(Join(post.lines)) + InkOfAll(TrimTags(post.found))
  {
    hide Ink, InkOfAll, LinesOf, SplitHashtags, TrimTags, Strip;
    var post, t := Parsed(raw), Strip(raw);
    InkStrip(raw);
    HashtagsKeepInk(t);
    LinesKeepInk(SplitHashtags(t).0);
    ParsedIsLaidOut(raw);
    InkAssembled(post.lines, TrimTags(post.found));
  }

  lemma InkAssembled(lines: seq<Text>, tags: seq<Text>)
    requires forall l | l in lines :: GoodLine(l)
    ensures Ink(Assembled(lines, tags, [])) == Ink(Join(lines)) + InkOfAll(tags)
  {
    hide Ink, InkOfAll, Assembled, Join, TagLine, GoodLine;
    AssembledPlain(lines, tags);
    InkTagLine(tags);
    InkOfNone();
    InkOfSpace([]);
    JoinNothing();
    assert [] + InkOfAll(tags) == InkOfAll(tags) && Ink(Join(lines)) + [] == Ink(Join(lines));
    if lines != [] && tags != [] {
      InkConcat(Join(lines) + SEPARATOR, TagLine(tags));
      InkConcat(Join(lines), SEPARATOR);
      InkOfSpace(SEPARATOR);
    }
  }

  // ---- with a credit line ----

  /** What the formatter makes of the text alone. */
  function Plain(raw: Text): Text {
    Formatted(raw, [], false)
  }

  lemma PlainInk(raw: Text)
    ensures Ink(Plain(raw)) == Ink(SplitHashtags(Strip(raw)).0) + InkOfAll(TrimTags(Parsed(raw).found))
  {
    hide Ink, InkOfAll, LinesOf, SplitHashtags, TrimTags, Strip;
    LinesKeepInk(SplitHashtags(Strip(raw)).0);
    ParsedIsLaidOut(raw);
    InkAssembled(Parsed(raw).lines, TrimTags(Parsed(raw).found));
  }

  lemma WithCredit(raw: Text, credit: Text)
    requires credit != []
    ensures Formatted(raw, credit, false) == if Plain(raw) == [] then credit else Plain(raw) + SEPARATOR + credit
  {
    hide Parsed, TrimTags;
    var lines, tags := Parsed(raw).lines, TrimTags(Parsed(raw).found);
    ParsedIsLaidOut(raw);
    AssembledPlain(lines, tags);
    LinesAreTrimmed(lines);
    JoinNothing();
    if tags != [] { TagLineIsBlock(tags); } else { EmptyTagLine(); }
    var a, b := Join(lines), TagLine(tags);
    JoinThree(a, b, credit);
    assert forall x: seq<Text> :: [] + x == x && x + [] == x;
    assert [a] + [b] + [credit] == [a, b, credit] && [a] + [credit] == [a, credit] && [b] + [credit] == [b, credit];
  }

  lemma JoinThree(a: Text, b: Text, c: Text)
    ensures Join([c]) == c && Join([a, c]) == a + SEPARATOR + c && Join([b, c]) == b + SEPARATOR + c
    ensures Join([a, b, c]) == a + SEPARATOR + b + SEPARATOR + c
  {
    JoinSmall(a, c);
    JoinSmall(b, c);
    assert [a, b, c][1..] == [b, c];
    assert a + (SEPARATOR + (b + SEPARATOR + c)) == a + SEPARATOR + b + SEPARATOR + c;
  }

  /** A text with something visible never formats to nothing. */
  lemma PlainShowsSomething(raw: Text)
    requires !AllSpace(raw)
    ensures Plain(raw) != []
  {
    hide TrimTags, Parsed, Formatted;
    StripTrims(raw);
    var t := Strip(raw);
    PlainInk(raw);
    HashtagsKeepInk(t);
    FoundMatchesSplit(raw);
    var found := SplitHashtags(t).1;
    if found == [] {
      InkOfNone();
      TrimsNothing([]);
      assert Ink(t) != [];
      assert Ink(SplitHashtags(t).0) + [] == Ink(SplitHashtags(t).0);
    } else {
      TrimKeepsTheSpecific(found);
      var kept := TrimTags(found);
      assert kept != [];
      ParsedIsLaidOut(raw);
      TagHasInk(kept[0]);
      assert IsTag(kept[0]);
    }
  }

  lemma FoundMatchesSplit(raw: Text)
    ensures Parsed(raw).found == SplitHashtags(Strip(raw)).1
    ensures Parsed(raw).lines == LinesOf(SplitHashtags(Strip(raw)).0)
  {
  }

  lemma TagHasInk(tag: Text)
    ensures IsTag(tag) ==> Ink(tag) != []
  {
  }

  /** A credit line that is not a hashtag block becomes body text, so the second run has more to show. */
  lemma CreditBecomesBody(base: Text, gap: Text, credit: Text)
    requires Trimmed(base) && AllSpace(gap) && gap != [] && Trimmed(credit) && !IsBlock(credit)
    ensures Plain(base + gap + credit) != base
  {
    hide LinesOf, TrimTags, Formatted, Ink, InkOfAll, RStrip, BlockRest;
    var t, m := base + gap + credit, |base| + |gap|;
    assert t[0] == base[0] && t[|t| - 1] == credit[|credit| - 1];
    StripIsIdentity(t);
    var n := BlockStart(t);
    if n <= m {
      var x := t[n..m];
      assert t[n..] == x + credit;
      assert x != [] ==> x[|x| - 1] == gap[|gap| - 1];
      BlockEnds(x, false, credit);
    }
    PlainInk(t);
    var head := t[..n];
    var body := if n == |t| then t else RStrip(head);
    assert SplitHashtags(t).0 == body;
    assert head == if n == |t| then t else head;
    InkRStrip(head);
    assert head == base + (gap + credit[..n - m]);
    InkConcat(base, gap + credit[..n - m]);
    InkConcat(gap, credit[..n - m]);
    FirstShows(credit[..n - m]);
  }

  lemma FirstShows(t: Text)
    requires t != [] && !IsSpace(t[0])
    ensures |Ink(t)| > 0
  {
  }

  /** A credit line of hashtags joins the tags of the post. */
  lemma CreditJoinsTags(lines: seq<Text>, tags: seq<Text>, gap: Text, credit: Text)
    requires LaidOut(lines, tags) && Assembled(lines, tags, []) != []
    requires AllSpace(gap) && gap != [] && Trimmed(credit) && IsBlock(credit)
    ensures Parsed(Assembled(lines, tags, []) + gap + credit) == Post(lines, tags + FindTags(credit))
  {
    hide GoodLine, LinesOf, TagLine, FindTags, BlockRest, SplitHashtags, Assembled, Join, NoBlock;
    var base := Assembled(lines, tags, []);
    var t := base + gap + credit;
    LaidOutPostSurvives(lines, tags);
    assert t[0] == base[0] && t[|t| - 1] == credit[|credit| - 1];
    StripIsIdentity(t);
    AssembledPlain(lines, tags);
    LinesAreTrimmed(lines);
    JoinedLinesSurvive(lines);
    JoinNothing();
    EmptyTagLine();
    if tags == [] {
      SplitBehind(Join(lines), gap, credit);
      assert [] + FindTags(credit) == FindTags(credit);
    } else {
      var block := TagLine(tags) + gap + credit;
      FindTagsInFront(tags, gap, credit);
      TagLineIsBlock(tags);
      BlockGrows(TagLine(tags), gap, credit);
      if lines == [] {
        assert [] + [] + block == t;
        SplitBehind([], [], block);
      } else {
        assert Join(lines) + SEPARATOR + block == t;
        SplitBehind(Join(lines), SEPARATOR, block);
      }
    }
  }

  lemma BlockGrows(x: Text, gap: Text, block: Text)
    requires IsBlock(x) && AllSpace(gap) && IsBlock(block)
    ensures IsBlock(x + gap + block)
  {
    BlockExtends(x, false, gap, block);
  }

  lemma PlainIs(raw: Text)
    ensures Plain(raw) == Assembled(Parsed(raw).lines, TrimTags(Parsed(raw).found), [])
  {
  }

  lemma BaseIsTrimmed(raw: Text)
    ensures Plain(raw) == [] || Trimmed(Plain(raw))
    ensures Plain(Plain(raw)) == Plain(raw)
    ensures Plain(raw) == [] ==> TrimTags(Parsed(raw).found) == []
  {
    hide Parsed, TrimTags, Assembled, Formatted;
    var lines, tags := Parsed(raw).lines, TrimTags(Parsed(raw).found);
    PlainIs(raw);
    ParsedIsLaidOut(raw);
    LaidOutPostSurvives(lines, tags);
    FormatIdempotent(raw, [], false);
    AssembledPlain(lines, tags);
    if tags != [] { TagLineIsBlock(tags); }
  }

  lemma StripTrailing(t: Text, gap: Text)
    requires (t == [] || Trimmed(t)) && AllSpace(gap)
    ensures Strip(t + gap) == t
  {
    if t == [] {
      assert t + gap == gap;
      StripTrims(gap);
    } else {
      RStripGap(t, gap);
    }
  }

  /** Trailing whitespace has no effect. */
  lemma PlainIgnoresTrailing(t: Text, gap: Text)
    requires (t == [] || Trimmed(t)) && AllSpace(gap)
    ensures Plain(t + gap) == Plain(t)
  {
    hide LinesOf, SplitHashtags, Assembled, TrimTags;
    StripTrailing(t, gap);
    StripIsIdentity(t);
  }

  /** The whitespace between the text and the visible part of its credit line. */
  function CreditGap(credit: Text): Text {
    LStripSpec(credit);
    SEPARATOR + credit[..|credit| - |LStrip(credit)|]
  }

  lemma CreditParts(base: Text, credit: Text)
    requires Trimmed(base) && !AllSpace(credit)
    ensures var gap, c := CreditGap(credit), Strip(credit);
            && AllSpace(gap) && gap != [] && Trimmed(c)
            && Plain(base + SEPARATOR + credit) == Plain(base + gap + c)
  {
    hide Plain, LStrip, RStrip;
    StripTrims(credit);
    LStripSpec(credit);
    var s, gap, c := LStrip(credit), CreditGap(credit), Strip(credit);
    RStripSpec(s);
    var t := base + gap + c;
    assert t[0] == base[0] && t[|t| - 1] == c[|c| - 1];
    assert credit == credit[..|credit| - |s|] + s && s == c + s[|c|..];
    assert base + SEPARATOR + credit == t + s[|c|..];
    PlainIgnoresTrailing(t, s[|c|..]);
  }

  lemma TagsDecide(lines: seq<Text>, a: seq<Text>, b: seq<Text>)
    requires LaidOut(lines, a) && LaidOut(lines, b)
    ensures Assembled(lines, a, []) == Assembled(lines, b, []) <==> a == b
  {
    LaidOutPostSurvives(lines, a);
    LaidOutPostSurvives(lines, b);
  }

  lemma TrimmedTagsExist(tags: seq<Text>)
    requires tags != []
    ensures TrimTags(tags) != []
  {
    TrimKeepsTheSpecific(tags);
  }

  lemma BlockHasTags(t: Text)
    requires IsBlock(t)
    ensures FindTags(t) != []
  {
  }

  lemma NotBlankBehind(base: Text, credit: Text)
    requires Trimmed(base)
    ensures !AllSpace(base + SEPARATOR + credit)
  {
    assert (base + SEPARATOR + credit)[0] == base[0];
  }

  /** Behind some text, whether a second run is idle is a matter of the tags. */
  lemma VisibleCredit(raw: Text, credit: Text)
    requires Plain(raw) != [] && !AllSpace(credit)
    ensures var c, kept := Strip(credit), TrimTags(Parsed(raw).found);
            Plain(Plain(raw) + SEPARATOR + credit) == Plain(raw) <==>
              IsBlock(c) && TrimTags(kept + FindTags(c)) == kept
  {
    hide Parsed, Plain, TrimTags, FindTags, IsBlock, Strip, AllSpace, GoodLine, NoBlock, Assembled, CreditGap;
    var base, lines, kept, gap, c :=
      Plain(raw), Parsed(raw).lines, TrimTags(Parsed(raw).found), CreditGap(credit), Strip(credit);
    BaseIsTrimmed(raw);
    CreditParts(base, credit);
    if !IsBlock(c) {
      CreditBecomesBody(base, gap, c);
    } else {
      ParsedIsLaidOut(raw);
      PlainIs(raw);
      CreditJoinsTags(lines, kept, gap, c);
      PlainIs(base + gap + c);
      ParsedIsLaidOut(base + gap + c);
      TagsDecide(lines, kept, TrimTags(kept + FindTags(c)));
    }
  }

  /** With a credit line a second run changes the text, except in exactly two cases: the credit line
      is blank, or it consists of hashtags that trimming discards in favour of the post's own. */
  lemma CreditLineIdempotentExactlyWhen(raw: Text, credit: Text)
    requires credit != []
    ensures var once, kept := Formatted(raw, credit, false), TrimTags(Parsed(raw).found);
            Formatted(once, credit, false) == once <==>
              AllSpace(credit)
              || (IsBlock(Strip(credit)) && TrimTags(kept + FindTags(Strip(credit))) == kept)
  {
    hide Parsed, Formatted, Plain, TrimTags, FindTags, IsBlock, Strip, AllSpace;
    var once, base, kept := Formatted(raw, credit, false), Plain(raw), TrimTags(Parsed(raw).found);
    WithCredit(raw, credit);
    WithCredit(once, credit);
    BaseIsTrimmed(raw);
    StripTrims(credit);
    if AllSpace(credit) {
      BlankBehind(base, credit);
    } else if base == [] {
      PlainShowsSomething(credit);
      if IsBlock(Strip(credit)) {
        BlockHasTags(Strip(credit));
        TrimmedTagsExist(kept + FindTags(Strip(credit)));
      }
    } else {
      VisibleCredit(raw, credit);
      NotBlankBehind(base, credit);
      PlainShowsSomething(once);
      SameTail(Plain(once), base, SEPARATOR + credit);
      assert forall x :: x + SEPARATOR + credit == x + (SEPARATOR + credit);
    }
  }

  lemma SameTail(a: Text, b: Text, tail: Text)
    ensures a + tail == b + tail <==> a == b
  {
    if a + tail == b + tail {
      assert a == (a + tail)[..|a|] && b == (b + tail)[..|b|];
    }
  }

  lemma BlankBehind(base: Text, credit: Text)
    requires (base == [] || Trimmed(base)) && Plain(base) == base && AllSpace(credit)
    ensures Plain(if base == [] then credit else base + SEPARATOR + credit) == base
  {
    hide Plain;
    if base == [] {
      PlainIgnoresTrailing([], credit);
      assert [] + credit == credit;
    } else {
      PlainIgnoresTrailing(base, SEPARATOR + credit);
      assert base + (SEPARATOR + credit) == base + SEPARATOR + credit;
    }
  }

  /** An ordinary credit line: the second run repeats it behind the first. */
  lemma CreditLineRepeated()
    ensures var raw, credit := [Word('a', false, true)], [Word('b', false, true)];
            && Formatted(raw, credit, false) == raw + SEPARATOR + credit
            && Formatted(Formatted(raw, credit, false), credit, false) == raw + SEPARATOR + credit + SEPARATOR + credit
  {
    var a, b := [Word('a', false, true)], [Word('b', false, true)];
    SingleLines([a]);
    SingleLines([a, b]);
    JoinSmall(a, b);
    WithCredit(a, b);
    WithCredit(a + SEPARATOR + b, b);
  }

  /** Lines of one letter are laid out already. */
  lemma SingleLines(lines: seq<Text>)
    requires lines != [] && forall l: Text | l in lines :: |l| == 1 && l[0].Word?
    ensures Plain(Join(lines)) == Join(lines)
  {
    hide Parsed, Assembled, TrimTags, Join;
    forall l | l in lines
      ensures GoodLine(l) && NoBlock(l)
    {
      assert l[0..] == l;
    }
    NoBlockInJoin(lines);
    LaidOutPostSurvives(lines, []);
    AssembledPlain(lines, []);
    TrimsNothing([]);
  }
}
