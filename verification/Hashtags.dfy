/** The hashtag block of assets_library/post_formatter.py: (?:#\w+\s*)+$ and its tags. */
module Hashtags {
  import opened PostText

  // ---- the pattern ----

  /** The rest of a block, up to the end of the text; inWord says whether the last character
      belongs to a tag. The classes are disjoint, so the greedy reading is the only one. */
  predicate BlockRest(t: Text, inWord: bool) {
    || t == []
    || (inWord && t[0].Word? && BlockRest(t[1..], true))
    || (IsSpace(t[0]) && BlockRest(t[1..], false))
    || (t[0].Hash? && |t| > 1 && t[1].Word? && BlockRest(t[2..], true))
  }

  predicate IsBlock(t: Text) {
    t != [] && t[0].Hash? && BlockRest(t, false)
  }

  /** Where search finds the block: the leftmost place, or the end when there is none. */
  function BlockStart(t: Text): (n: nat)
    ensures n <= |t|
    ensures n < |t| ==> IsBlock(t[n..])
    ensures forall i | 0 <= i < n :: !IsBlock(t[i..])
  {
    if t == [] || IsBlock(t) then
      assert t != [] ==> t[0..] == t;
      0
    else
      var n := BlockStart(t[1..]);
      assert t[1 + n..] == t[1..][n..];
      assert forall i | 1 <= i < 1 + n :: t[i..] == t[1..][i - 1..];
      assert t[0..] == t;
      1 + n
  }

  predicate NoBlock(t: Text) {
    forall i | 0 <= i < |t| :: !IsBlock(t[i..])
  }

  lemma NoBlockStart(t: Text)
    ensures NoBlock(t) <==> BlockStart(t) == |t|
  {
  }

  function WordLength(t: Text): (n: nat)
    ensures n <= |t| && (forall i | 0 <= i < n :: t[i].Word?) && (n < |t| ==> !t[n].Word?)
  {
    if t == [] || !t[0].Word? then 0 else 1 + WordLength(t[1..])
  }

  /** re.findall(r"#\w+", t) */
  function FindTags(t: Text): seq<Text>
    decreases |t|
  {
    if t == [] then []
    else if t[0].Hash? && |t| > 1 && t[1].Word? then
      var n := 1 + WordLength(t[1..]);
      [t[..n]] + FindTags(t[n..])
    else FindTags(t[1..])
  }

  predicate IsTag(t: Text) {
    |t| > 1 && t[0].Hash? && forall i | 1 <= i < |t| :: t[i].Word?
  }

  lemma {:induction false} FoundTagsAreTags(t: Text)
    ensures forall h | h in FindTags(t) :: IsTag(h)
    decreases |t|
  {
    if t == [] {
    } else if t[0].Hash? && |t| > 1 && t[1].Word? {
      var n := 1 + WordLength(t[1..]);
      assert forall i | 1 <= i < n :: t[..n][i] == t[1..][i - 1];
      FoundTagsAreTags(t[n..]);
    } else {
      FoundTagsAreTags(t[1..]);
    }
  }

  function SplitHashtags(t: Text): (Text, seq<Text>) {
    var n := BlockStart(t);
    if n == |t| then (t, []) else (RStrip(t[..n]), FindTags(t[n..]))
  }

  // ---- what splitting leaves ----

  lemma {:induction false} BlockExtends(x: Text, inWord: bool, w: Text, block: Text)
    requires BlockRest(x, inWord) && AllSpace(w) && IsBlock(block)
    ensures BlockRest(x + w + block, inWord)
    decreases |x| + |w|
  {
    var t := x + w + block;
    if x != [] {
      var k := if t[0].Hash? then 2 else 1;
      assert t[k..] == x[k..] + w + block;
      BlockExtends(x[k..], t[k - 1].Word?, w, block);
    } else if w != [] {
      assert t[1..] == [] + w[1..] + block;
      BlockExtends([], false, w[1..], block);
    } else {
      assert t == block;
    }
  }

  lemma {:induction false} BlockShrinks(x: Text, inWord: bool, rest: Text)
    requires BlockRest(x + rest, inWord) && rest != [] && !rest[0].Word?
    ensures BlockRest(x, inWord)
  {
    var t := x + rest;
    if x != [] {
      var k := if t[0].Hash? then 2 else 1;
      assert |x| >= k;
      assert t[k..] == x[k..] + rest;
      BlockShrinks(x[k..], t[k - 1].Word?, rest);
    }
  }

  /** The body in front of the leftmost block does not end in one. */
  lemma BodyHasNoBlock(t: Text)
    ensures NoBlock(SplitHashtags(t).0)
  {
    var n := BlockStart(t);
    if n < |t| {
      var head, block := t[..n], t[n..];
      var body := RStrip(head);
      RStripSpec(head);
      forall i | 0 <= i < |body|
        ensures !IsBlock(body[i..])
      {
        if IsBlock(body[i..]) {
          var w := head[|body|..];
          assert t[i..] == body[i..] + w + block;
          BlockExtends(body[i..], false, w, block);
        }
      }
    }
  }

  lemma NoBlockInSuffix(s: Text, t: Text)
    requires IsSuffix(s, t) && NoBlock(t)
    ensures NoBlock(s)
  {
    forall i | 0 <= i < |s|
      ensures !IsBlock(s[i..])
    {
      assert s[i..] == t[|t| - |s| + i..];
    }
  }

  // ---- writing the tags out again ----

  /** " ".join(tags) */
  function TagLine(tags: seq<Text>): Text {
    if tags == [] then [] else tags[0] + if |tags| == 1 then [] else [Blank(' ')] + TagLine(tags[1..])
  }

  lemma {:induction false} WordsThen(w: Text, rest: Text)
    requires (forall i | 0 <= i < |w| :: w[i].Word?) && BlockRest(rest, true)
    ensures BlockRest(w + rest, true)
  {
    if w != [] {
      WordsThen(w[1..], rest);
      assert (w + rest)[1..] == w[1..] + rest;
    } else {
      assert w + rest == rest;
    }
  }

  lemma TagThen(tag: Text, rest: Text)
    requires IsTag(tag) && BlockRest(rest, true)
    ensures IsBlock(tag + rest)
  {
    var t := tag + rest;
    WordsThen(tag[2..], rest);
    assert t[2..] == tag[2..] + rest;
  }

  lemma {:induction false} TagLineIsBlock(tags: seq<Text>)
    requires tags != [] && forall h | h in tags :: IsTag(h)
    ensures IsBlock(TagLine(tags)) && Trimmed(TagLine(tags))
  {
    if |tags| == 1 {
      TagThen(tags[0], []);
      assert tags[0] + [] == tags[0];
    } else {
      TagLineIsBlock(tags[1..]);
      var rest := TagLine(tags[1..]);
      assert ([Blank(' ')] + rest)[1..] == rest;
      TagThen(tags[0], [Blank(' ')] + rest);
      assert TagLine(tags)[|TagLine(tags)| - 1] == rest[|rest| - 1];
    }
  }

  lemma WordLengthIs(t: Text, n: nat)
    requires n <= |t| && (forall i | 0 <= i < n :: t[i].Word?) && (n < |t| ==> !t[n].Word?)
    ensures WordLength(t) == n
  {
  }

  lemma FindFirstTag(tag: Text, rest: Text)
    requires IsTag(tag) && (rest != [] ==> !rest[0].Word?)
    ensures FindTags(tag + rest) == [tag] + FindTags(rest)
  {
    var t := tag + rest;
    assert forall i | 0 <= i < |tag| - 1 :: t[1..][i] == tag[i + 1];
    assert rest != [] ==> t[1..][|tag| - 1] == rest[0];
    WordLengthIs(t[1..], |tag| - 1);
    assert t[..|tag|] == tag && t[|tag|..] == rest;
  }

  lemma {:induction false} TagsSurvive(tags: seq<Text>)
    requires forall h | h in tags :: IsTag(h)
    ensures FindTags(TagLine(tags)) == tags
  {
    if |tags| == 1 {
      FindFirstTag(tags[0], []);
      assert tags[0] + [] == tags[0];
    } else if tags != [] {
      var rest := TagLine(tags[1..]);
      TagsSurvive(tags[1..]);
      FindFirstTag(tags[0], [Blank(' ')] + rest);
      assert ([Blank(' ')] + rest)[1..] == rest;
    }
  }

  /** Behind a body without a block and some whitespace, a block splits off again. */
  lemma SplitBehind(body: Text, gap: Text, block: Text)
    requires NoBlock(body) && AllSpace(gap) && IsBlock(block)
    requires if body == [] then gap == [] else EndsInk(body) && gap != []
    ensures SplitHashtags(body + gap + block) == (body, FindTags(block))
  {
    hide FindTags, BlockRest, RStrip;
    var t, n := body + gap + block, |body| + |gap|;
    forall i | 0 <= i < n
      ensures !IsBlock(t[i..])
    {
      if i < |body| && IsBlock(t[i..]) {
        assert t[i..] == body[i..] + (gap + block);
        BlockShrinks(body[i..], false, gap + block);
      } else if i >= |body| {
        assert t[i..][0] == gap[i - |body|];
      }
    }
    assert t[n..] == block && t[..n] == body + gap;
    assert BlockStart(t) == n;
    RStripGap(body, gap);
  }

  lemma {:induction false} RStripGap(body: Text, gap: Text)
    requires (body == [] || EndsInk(body)) && AllSpace(gap)
    ensures RStrip(body + gap) == body
  {
    if gap == [] {
      assert body + gap == body;
    } else {
      assert (body + gap)[..|body + gap| - 1] == body + gap[..|gap| - 1];
      RStripGap(body, gap[..|gap| - 1]);
    }
  }

  /** Tags in front of a block are found before those of the block. */
  lemma {:induction false} FindTagsInFront(tags: seq<Text>, gap: Text, block: Text)
    requires (forall h | h in tags :: IsTag(h)) && AllSpace(gap) && IsBlock(block) && gap != []
    ensures FindTags(TagLine(tags) + gap + block) == tags + FindTags(block)
  {
    hide FindTags, BlockRest, IsTag;
    if tags == [] {
      SkipGap(gap, block);
      assert TagLine(tags) + gap == gap;
    } else {
      var next := if |tags| == 1 then gap + block else [Blank(' ')] + (TagLine(tags[1..]) + gap + block);
      assert TagLine(tags) + gap + block == tags[0] + next;
      FindFirstTag(tags[0], next);
      FindTagsInFront(tags[1..], gap, block);
      if |tags| == 1 {
        assert TagLine(tags[1..]) + gap + block == next;
      } else {
        SkipGap([Blank(' ')], TagLine(tags[1..]) + gap + block);
      }
      assert tags + FindTags(block) == [tags[0]] + (tags[1..] + FindTags(block));
    }
  }

  lemma {:induction false} SkipGap(gap: Text, t: Text)
    requires AllSpace(gap)
    ensures FindTags(gap + t) == FindTags(t)
  {
    if gap == [] {
      assert gap + t == t;
    } else {
      assert (gap + t)[1..] == gap[1..] + t;
      SkipGap(gap[1..], t);
    }
  }
}
