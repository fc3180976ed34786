/** The visible characters of a post: splitting, stripping and joining only move whitespace. */
module PostInk {
  import opened PostText
  import opened Hashtags
  import opened PostFormatter

  function Ink(t: Text): Text {
    if t == [] then [] else (if IsSpace(t[0]) then [] else [t[0]]) + Ink(t[1..])
  }

  function InkOfAll(parts: seq<Text>): Text {
    if parts == [] then [] else Ink(parts[0]) + InkOfAll(parts[1..])
  }

  lemma {:induction false} InkConcat(a: Text, b: Text)
    ensures Ink(a + b) == Ink(a) + Ink(b)
  {
    if a == [] {
      assert a + b == b;
    } else {
      assert (a + b)[1..] == a[1..] + b;
      InkConcat(a[1..], b);
    }
  }

  lemma {:induction false} InkOfSpace(t: Text)
    requires AllSpace(t)
    ensures Ink(t) == []
  {
    if t != [] { InkOfSpace(t[1..]); }
  }

  lemma InkStrip(t: Text)
    ensures Ink(RStrip(t)) == Ink(t) && Ink(Strip(t)) == Ink(t)
  {
    hide LStrip, RStrip, Ink;
    InkRStrip(t);
    LStripSpec(t);
    var s := LStrip(t);
    assert t == t[..|t| - |s|] + s;
    InkConcat(t[..|t| - |s|], s);
    InkOfSpace(t[..|t| - |s|]);
    InkRStrip(s);
    assert [] + Ink(s) == Ink(s);
  }

  lemma InkRStrip(t: Text)
    ensures Ink(RStrip(t)) == Ink(t)
  {
    hide RStrip, Ink;
    RStripSpec(t);
    var s := RStrip(t);
    assert t == s + t[|s|..];
    InkConcat(s, t[|s|..]);
    InkOfSpace(t[|s|..]);
    assert Ink(s) + [] == Ink(s);
  }

  lemma InkStep(t: Text, rest: seq<Text>)
    ensures InkOfAll([t] + rest) == Ink(t) + InkOfAll(rest)
  {
    assert ([t] + rest)[1..] == rest;
  }

  lemma {:induction false} InkOfAllConcat(a: seq<Text>, b: seq<Text>)
    ensures InkOfAll(a + b) == InkOfAll(a) + InkOfAll(b)
  {
    if a == [] {
      assert a + b == b;
    } else {
      assert (a + b)[1..] == a[1..] + b;
      InkOfAllConcat(a[1..], b);
    }
  }

  lemma {:induction false} InkCleaned(parts: seq<Text>)
    ensures InkOfAll(Cleaned(parts)) == InkOfAll(parts)
  {
    hide Strip, Ink;
    if parts != [] {
      InkCleaned(parts[1..]);
      InkStrip(parts[0]);
      if Strip(parts[0]) == [] {
        InkOfSpace([]);
        assert [] + InkOfAll(parts[1..]) == InkOfAll(parts[1..]);
        assert [] + Cleaned(parts[1..]) == Cleaned(parts[1..]);
      } else {
        InkStep(Strip(parts[0]), Cleaned(parts[1..]));
      }
    }
  }

  lemma {:induction false} InkSplitLines(t: Text)
    ensures InkOfAll(SplitLines(t)) == Ink(t)
    decreases |t|
  {
    if t != [] {
      var n, rest := LineLength(t), AfterLine(t);
      SplitStep(t);
      LineCover(t);
      InkSplitLines(rest);
      InkLines(t, n, rest);
    }
  }

  lemma InkLines(t: Text, n: nat, rest: Text)
    requires n + |rest| <= |t| && t[|t| - |rest|..] == rest && forall i | n <= i < |t| - |rest| :: t[i].Break?
    requires InkOfAll(SplitLines(rest)) == Ink(rest)
    ensures InkOfAll([t[..n]] + SplitLines(rest)) == Ink(t)
  {
    hide Ink, InkOfAll, SplitLines;
    InkStep(t[..n], SplitLines(rest));
    InkGap(t, n, |t| - |rest|);
  }

  lemma InkGap(t: Text, i: nat, j: nat)
    requires i <= j <= |t| && forall k | i <= k < j :: IsSpace(t[k])
    ensures Ink(t) == Ink(t[..i]) + Ink(t[j..])
  {
    hide Ink;
    var gap := t[i..j];
    assert t == t[..i] + t[i..] && t[i..] == gap + t[j..];
    InkConcat(t[..i], t[i..]);
    InkConcat(gap, t[j..]);
    InkOfSpace(gap);
    assert [] + Ink(t[j..]) == Ink(t[j..]);
  }

  lemma {:induction false} InkSplitFrom(l: Text, start: nat, i: nat)
    requires start <= i <= |l|
    ensures InkOfAll(SplitFrom(l, start, i)) == Ink(l[start..])
    decreases |l| - i
  {
    hide Ink;
    if i == |l| {
      InkStep(l[start..], []);
      assert [l[start..]] + [] == [l[start..]];
      assert Ink(l[start..]) + [] == Ink(l[start..]);
    } else if IsSentenceEnd(l, i) {
      var j := SkipSpace(l, i);
      InkSplitFrom(l, j, j);
      InkStep(l[start..i], SplitFrom(l, j, j));
      InkGap(l[start..], i - start, j - start);
      assert l[start..][..i - start] == l[start..i] && l[start..][j - start..] == l[j..];
    } else {
      InkSplitFrom(l, start, i + 1);
    }
  }

  lemma {:induction false} InkEmitAll(raw: seq<Text>)
    ensures InkOfAll(EmitAll(raw)) == InkOfAll(raw)
  {
    if raw != [] {
      InkEmitAll(raw[1..]);
      InkEmitted(raw[0]);
      InkOfAllConcat(Emitted(raw[0]), EmitAll(raw[1..]));
    }
  }

  lemma InkEmitted(l: Text)
    ensures InkOfAll(Emitted(l)) == Ink(l)
  {
    if StartsWithMarker(l) {
      InkStep(l, []);
      assert [l] + [] == [l];
    } else {
      InkSplitFrom(l, 0, 0);
      InkCleaned(SplitFrom(l, 0, 0));
      assert l[0..] == l;
    }
  }

  lemma {:induction false} InkJoin(lines: seq<Text>)
    ensures Ink(Join(lines)) == InkOfAll(lines)
  {
    hide Ink;
    if lines == [] {
      InkOfSpace([]);
    } else if |lines| == 1 {
      assert lines[0] + [] == lines[0] && [lines[0]] + [] == lines;
      InkStep(lines[0], []);
    } else {
      var rest := Join(lines[1..]);
      InkJoin(lines[1..]);
      InkConcat(lines[0], SEPARATOR + rest);
      InkConcat(SEPARATOR, rest);
      InkOfSpace(SEPARATOR);
      assert [] + Ink(rest) == Ink(rest);
    }
  }

  /** Laying out the body keeps every visible character, in order. */
  lemma LinesKeepInk(body: Text)
    ensures Ink(Join(LinesOf(body))) == Ink(body)
  {
    hide Ink, InkOfAll, Join, EmitAll, Cleaned, SplitLines, Strip;
    InkJoin(LinesOf(body));
    InkEmitAll(RawLinesOf(body));
    InkCleaned(SplitLines(body));
    InkSplitLines(body);
    if Cleaned(SplitLines(body)) == [] {
      NoLinesMeansBlank(body);
      StripTrims(body);
    }
  }

  // ---- the tags of a block ----

  lemma {:induction false} WordsOff(t: Text)
    requires BlockRest(t, true)
    ensures BlockRest(t[WordLength(t)..], true)
  {
    if t != [] && t[0].Word? {
      WordsOff(t[1..]);
      assert t[WordLength(t)..] == t[1..][WordLength(t[1..])..];
    } else {
      assert t[0..] == t;
    }
  }

  /** Findall takes every visible character of a block. */
  lemma {:induction false} TagsCoverBlock(t: Text)
    requires BlockRest(t, false)
    ensures InkOfAll(FindTags(t)) == Ink(t)
    decreases |t|
  {
    if t == [] {
    } else if t[0].Hash? {
      var n := 1 + WordLength(t[1..]);
      assert t[1..][1..] == t[2..];
      WordsOff(t[1..]);
      assert t[n..] == t[1..][n - 1..];
      TagsCoverBlock(t[n..]);
      InkStep(t[..n], FindTags(t[n..]));
      InkConcat(t[..n], t[n..]);
      assert t == t[..n] + t[n..];
    } else {
      TagsCoverBlock(t[1..]);
    }
  }

  lemma {:induction false} InkTagLine(tags: seq<Text>)
    ensures Ink(TagLine(tags)) == InkOfAll(tags)
  {
    hide Ink;
    if tags == [] {
      InkOfSpace([]);
    } else if |tags| == 1 {
      assert tags[0] + [] == tags[0] && [tags[0]] + [] == tags;
      InkStep(tags[0], []);
    } else {
      var rest := TagLine(tags[1..]);
      InkTagLine(tags[1..]);
      InkConcat(tags[0], [Blank(' ')] + rest);
      InkConcat([Blank(' ')], rest);
      InkOfSpace([Blank(' ')]);
      assert [] + Ink(rest) == Ink(rest);
    }
  }

  /** Splitting off the hashtags keeps every visible character, in order. */
  lemma HashtagsKeepInk(t: Text)
    ensures Ink(SplitHashtags(t).0) + InkOfAll(SplitHashtags(t).1) == Ink(t)
  {
    hide Ink, InkOfAll, FindTags, RStrip;
    var n := BlockStart(t);
    if n == |t| {
      InkOfNone();
      assert Ink(t) + [] == Ink(t);
    } else {
      assert t == t[..n] + t[n..];
      InkConcat(t[..n], t[n..]);
      InkRStrip(t[..n]);
      TagsCoverBlock(t[n..]);
    }
  }

  lemma InkOfNone()
    ensures InkOfAll([]) == []
  {
  }
}
