/** The HTML link rewriter of core/click_tracking.py, and reading its links back. */
module LinkRewrite {
  import opened Wrappers
  import opened TextCodec
  import opened SignedLinks

  const HREF := "href=\""
  const CLICK_PATH := "/api/v1/e/c/"

  predicate StartsWith(t: string, p: string) {
    |p| <= |t| && t[..|p|] == p
  }

  /** Characters before the first quote. */
  function QuoteAt(t: string): (n: nat)
    ensures n <= |t| && '\"' !in t[..n] && (n < |t| ==> t[n] == '\"')
  {
    if t == "" || t[0] == '\"' then 0 else
    var n := QuoteAt(t[1..]);
    assert t[..1 + n] == [t[0]] + t[1..][..n];
    1 + n
  }

  predicate IsHttp(url: string) {
    (StartsWith(url, "http://") && |url| > 7) || (StartsWith(url, "https://") && |url| > 8)
  }

  /** What the group of href="(https?://[^"]+)" captures here, if the pattern matches here. */
  function Link(t: string): (r: Option<string>)
    ensures r.Some? ==> |t| >= 7 + |r.value| && t[0] == 'h'
  {
    if !StartsWith(t, HREF) then None else
    assert t[0] == HREF[0];
    var n := QuoteAt(t[6..]);
    if n < |t| - 6 && IsHttp(t[6..][..n]) then Some(t[6..][..n]) else None
  }

  /** re.sub with a replacement for the captured address. */
  function Rewrite(t: string, f: string -> string): string
    decreases |t|
  {
    if t == "" then "" else
    match Link(t)
    case Some(url) => HREF + f(url) + "\"" + Rewrite(t[7 + |url|..], f)
    case None => [t[0]] + Rewrite(t[1..], f)
  }

  /** The captured addresses, in order. */
  function Links(t: string): seq<string>
    decreases |t|
  {
    if t == "" then [] else
    match Link(t)
    case Some(url) => [url] + Links(t[7 + |url|..])
    case None => Links(t[1..])
  }

  function Mapped(f: string -> string, urls: seq<string>): seq<string> {
    if urls == [] then [] else [f(urls[0])] + Mapped(f, urls[1..])
  }

  predicate IsLinkUrl(url: string) {
    IsHttp(url) && '\"' !in url
  }

  ghost predicate KeepsLinks(f: string -> string) {
    forall url | IsLinkUrl(url) :: IsLinkUrl(f(url))
  }

  lemma LinkIsLinkUrl(t: string)
    requires Link(t).Some?
    ensures IsLinkUrl(Link(t).value) && t == HREF + Link(t).value + "\"" + t[7 + |Link(t).value|..]
  {
    var n := QuoteAt(t[6..]);
    assert t == t[..6] + t[6..] && t[6..] == t[6..][..n] + "\"" + t[7 + n..];
  }

  lemma LinkIs(url: string, rest: string)
    requires IsLinkUrl(url)
    ensures Link(HREF + url + "\"" + rest) == Some(url)
  {
    var t := HREF + url + "\"" + rest;
    assert t[6..] == url + "\"" + rest;
    QuoteIs(url, rest);
    assert t[..6] == HREF && t[6..][..|url|] == url;
  }

  lemma {:induction false} QuoteIs(url: string, rest: string)
    requires '\"' !in url
    ensures QuoteAt(url + "\"" + rest) == |url|
  {
    var t := url + "\"" + rest;
    if url != "" {
      assert t[1..] == url[1..] + "\"" + rest;
      QuoteIs(url[1..], rest);
    }
  }

  lemma RewriteStep(t: string, f: string -> string)
    requires t != ""
    ensures Link(t).None? ==>
            Rewrite(t, f) != "" && Rewrite(t, f)[0] == t[0] && Rewrite(t, f)[1..] == Rewrite(t[1..], f)
    ensures Link(t).Some? ==> Rewrite(t, f) == HREF + f(Link(t).value) + "\"" + Rewrite(t[7 + |Link(t).value|..], f)
  {
  }

  /** Rewriting does not touch anything up to the first quote. */
  lemma {:induction false} FirstQuoteStays(t: string, f: string -> string)
    ensures var r, n := Rewrite(t, f), QuoteAt(t);
            QuoteAt(r) == n && n <= |r| && (n < |t| <==> n < |r|)
            && forall i | 0 <= i < n :: r[i] == t[i]
    decreases |t|
  {
    hide Link, Rewrite;
    if t == "" {
      assert Rewrite("", f) == "" by { RewriteNothing(f); }
    } else {
      var r := Rewrite(t, f);
      RewriteStep(t, f);
      match Link(t) {
        case Some(url) =>
          LinkIsLinkUrl(t);
          HrefQuote(url + "\"" + t[7 + |url|..]);
          HrefQuote(f(url) + "\"" + Rewrite(t[7 + |url|..], f));
          assert t == HREF + (url + "\"" + t[7 + |url|..]);
          assert r == HREF + (f(url) + "\"" + Rewrite(t[7 + |url|..], f));
        case None =>
          FirstQuoteStays(t[1..], f);
          SameFirst(t, r);
      }
    }
  }

  lemma RewriteNothing(f: string -> string)
    ensures Rewrite("", f) == ""
  {
  }

  lemma HrefQuote(rest: string)
    ensures QuoteAt(HREF + rest) == 5 && (HREF + rest)[..5] == HREF[..5]
  {
    QuoteIs("href=", rest);
    assert "href=" + "\"" + rest == HREF + rest;
  }

  lemma SameFirst(t: string, r: string)
    requires t != "" && r != "" && t[0] == r[0]
    requires var u, v, n := t[1..], r[1..], QuoteAt(t[1..]);
             QuoteAt(v) == n && (n < |u| <==> n < |v|)
             && forall i | 0 <= i < n :: v[i] == u[i]
    ensures var n := QuoteAt(t);
            QuoteAt(r) == n && (n < |t| <==> n < |r|) && forall i | 0 <= i < n :: r[i] == t[i]
  {
    hide QuoteAt;
    QuoteStep(t);
    QuoteStep(r);
    var n := QuoteAt(t);
    forall i | 1 <= i < n
      ensures r[i] == t[i]
    {
      assert r[i] == r[1..][i - 1] && t[i] == t[1..][i - 1];
    }
  }

  lemma QuoteStep(t: string)
    requires t != ""
    ensures QuoteAt(t) == if t[0] == '\"' then 0 else 1 + QuoteAt(t[1..])
  {
  }

  lemma {:induction false} NoLinkInside(t: string, n: nat, f: string -> string)
    requires n <= |t| && 'h' !in t[..n]
    ensures Rewrite(t, f) == t[..n] + Rewrite(t[n..], f)
    decreases n
  {
    hide Rewrite;
    if n == 0 {
      assert t[0..] == t;
    } else {
      assert t[0] == t[..n][0] && t[1..][..n - 1] == t[..n][1..];
      NoLinkInside(t[1..], n - 1, f);
      assert t[1..][n - 1..] == t[n..];
      RewriteStep(t, f);
      assert Rewrite(t, f) == [t[0]] + Rewrite(t[1..], f);
    }
  }

  /** Where there was no link, rewriting what follows makes none. */
  lemma NoNewLink(t: string, f: string -> string)
    requires t != "" && Link(t).None?
    ensures Link(Rewrite(t, f)).None?
  {
    hide Rewrite, QuoteAt;
    var r := Rewrite(t, f);
    if StartsWith(r, HREF) {
      HrefStays(t, f);
      FirstQuoteStays(t[6..], f);
      var n := QuoteAt(t[6..]);
      assert r[6..][..n] == t[6..][..n];
    }
  }

  lemma HrefStays(t: string, f: string -> string)
    requires t != "" && Link(t).None? && StartsWith(Rewrite(t, f), HREF)
    ensures StartsWith(t, HREF) && Rewrite(t, f)[6..] == Rewrite(t[6..], f)
  {
    hide Link, Rewrite, QuoteAt;
    var r := Rewrite(t, f);
    FirstQuoteStays(t, f);
    HrefQuote(r[6..]);
    assert r == HREF + r[6..];
    assert t[..6] == t[..5] + [t[5]] == HREF;
    assert t[1..][..5] == HREF[1..];
    RewriteStep(t, f);
    NoLinkInside(t[1..], 5, f);
    assert t[1..][5..] == t[6..];
  }

  /** Substituting twice is substituting once with the composition, and the links of the result are
      the images of the links, in order. */
  lemma {:induction false} RewriteTwice(t: string, f: string -> string, g: string -> string)
    requires KeepsLinks(f)
    ensures Rewrite(Rewrite(t, f), g) == Rewrite(t, (url: string) => g(f(url)))
    ensures Links(Rewrite(t, f)) == Mapped(f, Links(t))
    decreases |t|
  {
    hide Link, IsLinkUrl;
    if t != "" {
      var h, r := (url: string) => g(f(url)), Rewrite(t, f);
      RewriteStep(t, f);
      RewriteStep(t, h);
      match Link(t) {
        case Some(url) =>
          var rest := Rewrite(t[7 + |url|..], f);
          LinkIsLinkUrl(t);
          LinkIs(f(url), rest);
          assert r[7 + |f(url)|..] == rest;
          RewriteStep(r, g);
          RewriteTwice(t[7 + |url|..], f, g);
        case None =>
          NoNewLink(t, f);
          RewriteStep(r, g);
          RewriteTwice(t[1..], f, g);
      }
    }
  }

  lemma {:induction false} RewriteIdentity(t: string, f: string -> string)
    requires forall url | IsLinkUrl(url) :: f(url) == url
    ensures Rewrite(t, f) == t
    decreases |t|
  {
    if t != "" {
      match Link(t) {
        case Some(url) =>
          LinkIsLinkUrl(t);
          RewriteIdentity(t[7 + |url|..], f);
        case None =>
          RewriteIdentity(t[1..], f);
      }
    }
  }

  // ---- the rewriter and its inverse ----

  function Redirect(mac: Mac, sendId: string, base: string, url: string): string {
    base + CLICK_PATH + MakeClickToken(mac, sendId, url)
  }

  function RewriteLinksHtml(mac: Mac, html: string, sendId: string, base: string): string {
    Rewrite(html, (url: string) => Redirect(mac, sendId, base, url))
  }

  /** A tracked address read back through the token check; any other address stays. */
  function Target(mac: Mac, base: string, url: string): string {
    if !StartsWith(url, base + CLICK_PATH) then url else
    match VerifyClickToken(mac, url[|base + CLICK_PATH|..])
    case Accepted((_, target)) => target
    case _ => url
  }

  function RestoreLinks(mac: Mac, html: string, base: string): string {
    Rewrite(html, (url: string) => Target(mac, base, url))
  }

  predicate IsBaseUrl(base: string) {
    (StartsWith(base, "http://") || StartsWith(base, "https://")) && '\"' !in base
  }

  lemma RedirectIsLink(mac: Mac, sendId: string, base: string, url: string)
    requires IsBaseUrl(base)
    ensures IsLinkUrl(Redirect(mac, sendId, base, url))
  {
    var token := MakeClickToken(mac, sendId, url);
    var payload := EncodeUtf8(ClickPayload(sendId, url));
    EncodedIsUrlSafe(payload);
    HexIsHex(mac(payload));
    var r := Redirect(mac, sendId, base, url);
    assert '\"' !in token;
    assert StartsWith(base, "http://") ==> r[..7] == base[..7];
    assert StartsWith(base, "https://") ==> r[..8] == base[..8];
  }

  lemma TargetOfRedirect(mac: Mac, sendId: string, base: string, url: string)
    requires sendId != "" && '|' !in sendId && url != ""
    ensures Target(mac, base, Redirect(mac, sendId, base, url)) == url
  {
    var token := MakeClickToken(mac, sendId, url);
    assert (base + CLICK_PATH + token)[..|base + CLICK_PATH|] == base + CLICK_PATH;
    assert (base + CLICK_PATH + token)[|base + CLICK_PATH|..] == token;
    ClickTokenRoundTrip(mac, sendId, url);
  }

  /** Every absolute link becomes a tracked link carrying the send id and its own destination, there
      are no others, and reading the tracked links back restores the document exactly. */
  lemma RewritingIsInvertible(mac: Mac, html: string, sendId: string, base: string)
    requires sendId != "" && '|' !in sendId && IsBaseUrl(base)
    ensures var rewritten := RewriteLinksHtml(mac, html, sendId, base);
            && RestoreLinks(mac, rewritten, base) == html
            && Links(rewritten) == Mapped((url: string) => Redirect(mac, sendId, base, url), Links(html))
  {
    var f := (url: string) => Redirect(mac, sendId, base, url);
    var g := (url: string) => Target(mac, base, url);
    forall url
      ensures IsLinkUrl(f(url))
    {
      RedirectIsLink(mac, sendId, base, url);
    }
    RewriteTwice(html, f, g);
    forall url | IsLinkUrl(url)
      ensures g(f(url)) == url
    {
      TargetOfRedirect(mac, sendId, base, url);
    }
    RewriteIdentity(html, (url: string) => g(f(url)));
  }

  // ---- which links ----

  /** The pattern captures an address exactly where a quoted http or https address stands in an href. */
  lemma LinkExactlyWhen(t: string, url: string)
    ensures Link(t) == Some(url) <==>
            && '\"' !in url && |t| >= |url| + 7 && t == "href=\"" + url + "\"" + t[|url| + 7..]
            && ((|url| > 7 && url[..7] == "http://") || (|url| > 8 && url[..8] == "https://"))
  {
    if Link(t) == Some(url) {
      LinkIsLinkUrl(t);
    }
    if '\"' !in url && |t| >= |url| + 7 && t == "href=\"" + url + "\"" + t[|url| + 7..] && IsHttp(url) {
      LinkIs(url, t[|url| + 7..]);
    }
  }

  /** A link in front of a place is a link of the text up to there. */
  lemma LinkBefore(t: string, i: nat)
    requires i <= |t|
    ensures Link(t[..i]).Some? ==> Link(t) == Link(t[..i]) && |Link(t).value| + 7 <= i
    ensures Link(t).Some? && |Link(t).value| + 7 <= i ==> Link(t[..i]) == Link(t)
  {
    if Link(t[..i]).Some? {
      var url := Link(t[..i]).value;
      LinkIsLinkUrl(t[..i]);
      assert t == HREF + url + "\"" + (t[..i][7 + |url|..] + t[i..]);
      LinkIs(url, t[..i][7 + |url|..] + t[i..]);
    }
    if Link(t).Some? && |Link(t).value| + 7 <= i {
      var url := Link(t).value;
      LinkIsLinkUrl(t);
      assert t[..i] == HREF + url + "\"" + t[7 + |url|..i];
      LinkIs(url, t[7 + |url|..i]);
    }
  }

  /** No link that begins in front of this place reaches over it. */
  predicate Uncovered(t: string, i: nat)
    requires i <= |t|
  {
    forall j | 0 <= j < i && Link(t[j..]).Some? :: j + |Link(t[j..]).value| + 7 <= i
  }

  lemma UncoveredBehind(t: string, n: nat, i: nat)
    requires n <= i <= |t| && Uncovered(t, i)
    ensures Uncovered(t[n..], i - n)
  {
    forall j | 0 <= j < i - n ensures t[n..][j..] == t[n + j..] {
    }
  }

  lemma StepOf(t: string, f: string -> string)
    ensures t == "" ==> Rewrite(t, f) == "" && Links(t) == []
    ensures t != "" && Link(t).None? ==> Rewrite(t, f) == [t[0]] + Rewrite(t[1..], f) && Links(t) == Links(t[1..])
    ensures t != "" && Link(t).Some? ==>
              var url := Link(t).value;
              && Rewrite(t, f) == HREF + f(url) + "\"" + Rewrite(t[7 + |url|..], f)
              && Links(t) == [url] + Links(t[7 + |url|..])
  {
  }

  /** The text is rewritten, and its links are, as a part up to i, a link there, and a part behind it. */
  ghost predicate Parted(t: string, i: nat, url: string, f: string -> string) {
    && i + |url| + 7 <= |t|
    && Rewrite(t, f) == Rewrite(t[..i], f) + (HREF + f(url) + "\"" + Rewrite(t[i + |url| + 7..], f))
    && Links(t) == Links(t[..i]) + ([url] + Links(t[i + |url| + 7..]))
  }

  lemma PartedHere(t: string, f: string -> string)
    requires Link(t).Some?
    ensures Parted(t, 0, Link(t).value, f)
  {
    hide Rewrite, Links;
    LinkIsLinkUrl(t);
    StepOf(t, f);
    StepOf("", f);
    assert t[..0] == "";
  }

  /** A link or a character in front of what is parted. */
  lemma PartedBehind(t: string, n: nat, i: nat, url: string, f: string -> string)
    requires 0 < n <= i <= |t| && Parted(t[n..], i - n, url, f)
    requires n == if Link(t).Some? then |Link(t).value| + 7 else 1
    ensures Parted(t, i, url, f)
  {
    hide Link, Rewrite, Links;
    LinkBefore(t, i);
    StepOf(t, f);
    StepOf(t[..i], f);
    assert t[n..][..i - n] == t[..i][n..] && t[n..][i - n + |url| + 7..] == t[i + |url| + 7..];
  }

  /** Every link of a text that no earlier one covers is rewritten, wherever it stands, and what is in
      front of it and behind it is rewritten as if it stood alone. */
  lemma {:induction false} EveryLinkIsRewritten(t: string, i: nat, f: string -> string)
    requires i <= |t| && Link(t[i..]).Some? && Uncovered(t, i)
    ensures var url := Link(t[i..]).value;
            && i + |url| + 7 <= |t|
            && Rewrite(t, f) == Rewrite(t[..i], f) + (HREF + f(url) + "\"" + Rewrite(t[i + |url| + 7..], f))
            && Links(t) == Links(t[..i]) + ([url] + Links(t[i + |url| + 7..]))
    decreases |t|
  {
    hide Link, Rewrite, Links;
    var url := Link(t[i..]).value;
    assert t[0..] == t;
    if i == 0 {
      PartedHere(t, f);
    } else {
      var n := if Link(t).Some? then |Link(t).value| + 7 else 1;
      assert t[n..][i - n..] == t[i..];
      UncoveredBehind(t, n, i);
      EveryLinkIsRewritten(t[n..], i - n, f);
      PartedBehind(t, n, i, url, f);
    }
  }
}
