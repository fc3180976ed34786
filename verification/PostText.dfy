/** Text as assets_library/post_formatter.py sees it: characters by class, stripping and line splitting. */
module PostText {
  /** A character by the class that the formatter's tests put it in. Break and Blank are together
      Python's whitespace, Break being what str.splitlines ends a line at; Word is \w, with the two
      finer tests the code makes on it. */
  datatype Ch =
    | Break(code: char)
    | Blank(code: char)
    | Word(code: char, decimal: bool, alphaOrDigit: bool)
    | Hash
    | Stop(code: char)
    | Marker(code: char)
    | Other(code: char)

  type Text = seq<Ch>

  const SEPARATOR: Text := [Break('\n'), Break('\n')]

  predicate IsSpace(c: Ch) {
    c.Break? || c.Blank?
  }

  predicate AllSpace(t: Text) {
    forall i | 0 <= i < |t| :: IsSpace(t[i])
  }

  predicate NoBreaks(t: Text) {
    forall i | 0 <= i < |t| :: !t[i].Break?
  }

  // ---- strip ----

  function LStrip(t: Text): Text {
    if t != [] && IsSpace(t[0]) then LStrip(t[1..]) else t
  }

  function RStrip(t: Text): Text {
    if t != [] && IsSpace(t[|t| - 1]) then RStrip(t[..|t| - 1]) else t
  }

  function Strip(t: Text): Text {
    RStrip(LStrip(t))
  }

  predicate EndsInk(t: Text) {
    t != [] && !IsSpace(t[|t| - 1])
  }

  /** Text that begins and ends with something visible. */
  predicate Trimmed(t: Text) {
    EndsInk(t) && !IsSpace(t[0])
  }

  predicate IsSuffix(s: Text, t: Text) {
    |s| <= |t| && t[|t| - |s|..] == s
  }

  lemma {:induction false} LStripSpec(t: Text)
    ensures var s := LStrip(t);
            IsSuffix(s, t) && (forall i | 0 <= i < |t| - |s| :: IsSpace(t[i])) && (s != [] ==> !IsSpace(s[0]))
  {
    if t != [] && IsSpace(t[0]) {
      LStripSpec(t[1..]);
      var s := LStrip(t);
      assert t[|t| - |s|..] == t[1..][|t| - 1 - |s|..];
      assert forall i | 1 <= i < |t| - |s| :: t[i] == t[1..][i - 1];
    }
  }

  lemma {:induction false} RStripSpec(t: Text)
    ensures var s := RStrip(t);
            |s| <= |t| && t[..|s|] == s && (forall i | |s| <= i < |t| :: IsSpace(t[i])) && (s != [] ==> EndsInk(s))
  {
    if t != [] && IsSpace(t[|t| - 1]) {
      RStripSpec(t[..|t| - 1]);
      var s := RStrip(t);
      assert t[..|s|] == t[..|t| - 1][..|s|];
      assert forall i | |s| <= i < |t| - 1 :: t[i] == t[..|t| - 1][i];
    }
  }

  lemma StripTrims(t: Text)
    ensures Strip(t) == [] || Trimmed(Strip(t))
    ensures Strip(t) == [] <==> AllSpace(t)
  {
    hide LStrip, RStrip;
    LStripSpec(t);
    RStripSpec(LStrip(t));
    var s := LStrip(t);
    assert s != [] ==> s[0] == t[|t| - |s|] && Strip(t) != [];
  }

  lemma StripIsIdentity(t: Text)
    requires t == [] || Trimmed(t)
    ensures Strip(t) == t
  {
  }

  /** Stripping text that ends visibly leaves a suffix of it. */
  lemma StripIsSuffix(t: Text)
    requires EndsInk(t)
    ensures IsSuffix(Strip(t), t) && Trimmed(Strip(t))
  {
    LStripSpec(t);
    var s := LStrip(t);
    assert s != [] && s[|s| - 1] == t[|t| - 1];
  }

  lemma SuffixTransitive(a: Text, b: Text, c: Text)
    requires IsSuffix(a, b) && IsSuffix(b, c)
    ensures IsSuffix(a, c)
  {
    assert c[|c| - |a|..] == b[|b| - |a|..];
  }

  // ---- splitlines ----

  /** Length of the first line. */
  function LineLength(t: Text): (n: nat)
    ensures n <= |t| && (forall i | 0 <= i < n :: !t[i].Break?) && (n < |t| ==> t[n].Break?)
  {
    if t == [] || t[0].Break? then 0 else 1 + LineLength(t[1..])
  }

  /** A carriage return and a line feed end one line together. */
  function BreakLength(t: Text): nat
    requires t != []
  {
    if |t| > 1 && t[0] == Break('\r') && t[1] == Break('\n') then 2 else 1
  }

  function SplitLines(t: Text): seq<Text>
    decreases |t|
  {
    if t == [] then [] else
    var n := LineLength(t);
    [t[..n]] + if n == |t| then [] else SplitLines(t[n + BreakLength(t[n..])..])
  }

  /** [s.strip() for s in parts if s.strip()] */
  function Cleaned(parts: seq<Text>): seq<Text> {
    if parts == [] then [] else
    (if Strip(parts[0]) == [] then [] else [Strip(parts[0])]) + Cleaned(parts[1..])
  }

  lemma CleanedStep(t: Text, rest: seq<Text>)
    ensures Cleaned([t] + rest) == (if Strip(t) == [] then [] else [Strip(t)]) + Cleaned(rest)
  {
    assert ([t] + rest)[1..] == rest;
  }

  lemma LineLengthIs(t: Text, n: nat)
    requires n <= |t| && (forall i | 0 <= i < n :: !t[i].Break?) && (n < |t| ==> t[n].Break?)
    ensures LineLength(t) == n
  {
  }

  predicate RawLine(t: Text) {
    Trimmed(t) && NoBreaks(t)
  }

  lemma CleanedLine(t: Text)
    requires NoBreaks(t)
    ensures Strip(t) != [] ==> RawLine(Strip(t))
  {
    StripTrims(t);
    LStripSpec(t);
    RStripSpec(LStrip(t));
    var s := LStrip(t);
    forall i | 0 <= i < |Strip(t)|
      ensures !Strip(t)[i].Break?
    {
      assert Strip(t)[i] == s[..|Strip(t)|][i] == s[i] == t[|t| - |s| + i];
    }
  }

  /** What is left to split after the first line. */
  function AfterLine(t: Text): (rest: Text)
    ensures t != [] ==> |rest| < |t|
    ensures t != [] && EndsInk(t) && LineLength(t) < |t| ==> EndsInk(rest) && IsSuffix(rest, t)
  {
    var n := LineLength(t);
    if n == |t| then [] else t[n + BreakLength(t[n..])..]
  }

  lemma SplitStep(t: Text)
    requires t != []
    ensures SplitLines(t) == [t[..LineLength(t)]] + SplitLines(AfterLine(t))
    ensures NoBreaks(t[..LineLength(t)])
  {
  }

  /** A text is its first line, line breaks, and the rest. */
  lemma LineCover(t: Text)
    ensures var n, rest := LineLength(t), AfterLine(t);
            n + |rest| <= |t| && t[|t| - |rest|..] == rest && forall i | n <= i < |t| - |rest| :: t[i].Break?
  {
    var n := LineLength(t);
    if n < |t| { assert t[n..][0] == t[n] && (|t[n..]| > 1 ==> t[n..][1] == t[n + 1]); }
  }

  /** Every cleaned line is trimmed and unbroken. */
  lemma {:induction false} RawLines(t: Text)
    ensures forall l | l in Cleaned(SplitLines(t)) :: RawLine(l)
    decreases |t|
  {
    hide SplitLines, Cleaned, AfterLine, LineLength, RawLine;
    if t == [] {
      CleanedEmpty();
    } else {
      SplitStep(t);
      CleanedLine(t[..LineLength(t)]);
      CleanedStep(t[..LineLength(t)], SplitLines(AfterLine(t)));
      RawLines(AfterLine(t));
    }
  }

  lemma CleanedEmpty()
    ensures SplitLines([]) == [] && Cleaned([]) == []
  {
  }

  /** Text that ends visibly has a last line, and that line is a suffix of the text. */
  lemma {:induction false} LastLineIsSuffix(t: Text)
    requires EndsInk(t)
    ensures var lines := Cleaned(SplitLines(t)); lines != [] && IsSuffix(lines[|lines| - 1], t)
    decreases |t|
  {
    hide SplitLines, Cleaned, AfterLine, IsSuffix, EndsInk, LineLength;
    var n := LineLength(t);
    NotEmpty(t);
    SplitStep(t);
    CleanedStep(t[..n], SplitLines(AfterLine(t)));
    if n == |t| {
      StripIsSuffix(t);
      assert t[..n] == t;
      NothingAfterLine(t);
      CleanedEmpty();
    } else {
      LastLineIsSuffix(AfterLine(t));
      var lines := Cleaned(SplitLines(AfterLine(t)));
      SuffixTransitive(lines[|lines| - 1], AfterLine(t), t);
    }
  }

  lemma NotEmpty(t: Text)
    requires EndsInk(t)
    ensures t != []
    ensures IsSuffix(Strip(t), t) ==> Strip(t) != []
  {
    StripIsSuffix(t);
  }

  lemma NothingAfterLine(t: Text)
    requires LineLength(t) == |t|
    ensures AfterLine(t) == []
  {
  }

  // ---- joining with blank lines ----

  function Join(lines: seq<Text>): Text {
    if lines == [] then [] else
    lines[0] + if |lines| == 1 then [] else SEPARATOR + Join(lines[1..])
  }

  lemma {:induction false} JoinedEnds(lines: seq<Text>)
    requires lines != [] && forall l | l in lines :: Trimmed(l)
    ensures Trimmed(Join(lines)) && IsSuffix(lines[|lines| - 1], Join(lines))
  {
    if |lines| > 1 {
      var rest := Join(lines[1..]);
      JoinedEnds(lines[1..]);
      assert Trimmed(lines[0]);
      assert Join(lines)[0] == lines[0][0] && Join(lines)[|Join(lines)| - 1] == rest[|rest| - 1];
      assert IsSuffix(rest, Join(lines));
      SuffixTransitive(lines[|lines| - 1], rest, Join(lines));
    } else {
      assert Join(lines) == lines[0];
    }
  }

  /** Splitting what was joined gives the lines back. */
  lemma {:induction false} SplitJoined(lines: seq<Text>)
    requires forall l | l in lines :: RawLine(l)
    ensures Cleaned(SplitLines(Join(lines))) == lines
  {
    hide SplitLines, Cleaned, Strip, RawLine, Trimmed;
    if lines == [] {
      CleanedEmpty();
    } else {
      var t := lines[0];
      if |lines| == 1 {
        assert Join(lines) == t;
        SplitUnbroken(t);
        CleanedStep(t, []);
        CleanedEmpty();
        assert [t] + [] == [t] == lines;
      } else {
        SplitJoined(lines[1..]);
        JoinedRest(lines[1..]);
        SplitSeparated(t, Join(lines[1..]));
        assert Join(lines) == t + SEPARATOR + Join(lines[1..]);
        CleanedPair(t, SplitLines(Join(lines[1..])));
      }
    }
  }

  lemma JoinedRest(lines: seq<Text>)
    requires lines != [] && forall l | l in lines :: RawLine(l)
    ensures Trimmed(Join(lines))
  {
    JoinedEnds(lines);
  }

  lemma CleanedPair(t: Text, rest: seq<Text>)
    requires RawLine(t)
    ensures Cleaned([t, []] + rest) == [t] + Cleaned(rest)
  {
    hide Cleaned;
    StripIsIdentity(t);
    StripIsIdentity([]);
    CleanedStep(t, [[]] + rest);
    CleanedStep([], rest);
    assert [t, []] + rest == [t] + ([[]] + rest);
  }

  lemma SplitUnbroken(t: Text)
    requires RawLine(t)
    ensures SplitLines(t) == [t] && Strip(t) == t != []
  {
    LineLengthIs(t, |t|);
    assert t[..|t|] == t;
  }

  lemma SplitSeparated(t: Text, rest: Text)
    requires RawLine(t) && Trimmed(rest)
    ensures SplitLines(t + SEPARATOR + rest) == [t, []] + SplitLines(rest)
  {
    hide SplitLines, LineLength, RawLine;
    var u, v := t + SEPARATOR + rest, [Break('\n')] + rest;
    assert RawLine(t) ==> NoBreaks(t) && t != [] by { RawLineUnbroken(t); }
    LineLengthIs(u, |t|);
    assert u[|t| + 1..] == v && u[..|t|] == t;
    SplitStep(u);
    LineLengthIs(v, 0);
    assert v[1..] == rest && v[..0] == [];
    SplitStep(v);
  }

  lemma RawLineUnbroken(t: Text)
    ensures RawLine(t) ==> NoBreaks(t) && t != []
  {
  }
}
