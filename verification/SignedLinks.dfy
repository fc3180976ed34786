/** core/click_tracking.py and core/unsubscribe_token.py: signed tokens, and the links that carry them.

    The keyed digest is any function from bytes to bytes; nothing is assumed of it. */
module SignedLinks {
  import opened Wrappers
  import opened TextCodec

  type Mac = seq<Byte> -> seq<Byte>

  function HexDigit(v: nat): char
    requires v < 16
  {
    if v < 10 then '0' + v as char else 'a' + (v - 10) as char
  }

  function Hex(b: seq<Byte>): string {
    if b == [] then "" else [HexDigit(b[0] / 16), HexDigit(b[0] % 16)] + Hex(b[1..])
  }

  predicate IsAscii(s: string) {
    forall c | c in s :: c < '\U{80}'
  }

  /** Everything before the first mark, and everything behind it. */
  function Partition(s: string, mark: char): (r: Option<(string, string)>)
    ensures r.None? <==> mark !in s
    ensures r.Some? ==> s == r.value.0 + [mark] + r.value.1 && mark !in r.value.0
  {
    if s == "" then None
    else if s[0] == mark then Some(("", s[1..]))
    else match Partition(s[1..], mark)
      case None => None
      case Some((a, b)) => Some(([s[0]] + a, b))
  }

  lemma {:induction false} PartitionAtFirst(a: string, mark: char, b: string)
    requires mark !in a
    ensures Partition(a + [mark] + b, mark) == Some((a, b))
  {
    var s := a + [mark] + b;
    if a == "" {
      assert s[1..] == b;
    } else {
      assert s[1..] == a[1..] + [mark] + b;
      PartitionAtFirst(a[1..], mark, b);
      assert [a[0]] + a[1..] == a;
    }
  }

  // ---- tokens ----

  function Token(mac: Mac, payload: seq<Byte>): string {
    Encode(payload) + "." + Hex(mac(payload))
  }

  /** The payload and the signature of a token, if it has both and the payload decodes. */
  function Opened(token: string): Option<(seq<Byte>, string)> {
    match Partition(token, '.')
    case None => None
    case Some((b64, sig)) =>
      match DecodePadded(b64)
      case None => None
      case Some(payload) => Some((payload, sig))
  }

  lemma OpenToken(mac: Mac, payload: seq<Byte>)
    ensures Opened(Token(mac, payload)) == Some((payload, Hex(mac(payload))))
    ensures IsAscii(Hex(mac(payload)))
  {
    EncodedIsUrlSafe(payload);
    PartitionAtFirst(Encode(payload), '.', Hex(mac(payload)));
    Base64RoundTrip(payload);
    HexIsHex(mac(payload));
  }

  lemma {:induction false} HexIsHex(b: seq<Byte>)
    ensures forall c | c in Hex(b) :: '0' <= c <= '9' || 'a' <= c <= 'f'
  {
    if b != [] { HexIsHex(b[1..]); }
  }

  /** Raised: comparing digests refuses text that is not ASCII, outside the handler that turns
      malformed tokens away; the same goes for a signed payload that is not UTF-8. */
  datatype Verdict<T> = Accepted(value: T) | Rejected | Raised

  // ---- unsubscribe tokens ----

  const SPACES: set<char> := {' ', '\t', '\n', '\U{0B}', '\U{0C}', '\r', '\U{1C}', '\U{1D}', '\U{1E}', '\U{1F}',
    '\U{85}', '\U{A0}', '\U{1680}', '\U{2000}', '\U{2001}', '\U{2002}', '\U{2003}', '\U{2004}', '\U{2005}',
    '\U{2006}', '\U{2007}', '\U{2008}', '\U{2009}', '\U{200A}', '\U{2028}', '\U{2029}', '\U{202F}', '\U{205F}',
      '\U{3000}'}

  function StripLeft(s: string): string {
    if s != "" && s[0] in SPACES then StripLeft(s[1..]) else s
  }

  function StripRight(s: string): string {
    if s != "" && s[|s| - 1] in SPACES then StripRight(s[..|s| - 1]) else s
  }

  /** email.strip().lower(), for any lower-casing. */
  function Normalised(lower: string -> string, email: string): string {
    lower(StripRight(StripLeft(email)))
  }

  function MakeUnsubscribeToken(mac: Mac, lower: string -> string, email: string): string {
    Token(mac, EncodeUtf8(Normalised(lower, email)))
  }

  function VerifyUnsubscribeToken(mac: Mac, token: string): Verdict<string> {
    match Opened(token)
    case None => Rejected
    case Some((payload, sig)) =>
      if !IsAscii(sig) then Raised
      else if Hex(mac(payload)) != sig then Rejected
      else match DecodeUtf8(payload) case None => Raised case Some(email) => Accepted(email)
  }

  predicate AllSpaces(s: string) {
    forall i | 0 <= i < |s| :: s[i] in SPACES
  }

  predicate Bare(s: string) {
    s == "" || (s[0] !in SPACES && s[|s| - 1] !in SPACES)
  }

  lemma {:induction false} StrippedLeft(pre: string, rest: string)
    requires AllSpaces(pre) && (rest == "" || rest[0] !in SPACES)
    ensures StripLeft(pre + rest) == rest
  {
    if pre != "" {
      assert (pre + rest)[1..] == pre[1..] + rest;
      StrippedLeft(pre[1..], rest);
    } else {
      assert pre + rest == rest;
    }
  }

  lemma {:induction false} StrippedRight(core: string, post: string)
    requires AllSpaces(post) && (core == "" || core[|core| - 1] !in SPACES)
    ensures StripRight(core + post) == core
  {
    if post != "" {
      assert (core + post)[..|core + post| - 1] == core + post[..|post| - 1];
      StrippedRight(core, post[..|post| - 1]);
    } else {
      assert core + post == core;
    }
  }

  /** Whatever whitespace is around an address, it is normalised to its lower case. */
  lemma NormalisedIs(lower: string -> string, pre: string, core: string, post: string)
    requires AllSpaces(pre) && Bare(core) && AllSpaces(post)
    ensures Normalised(lower, pre + core + post) == lower(core)
  {
    assert pre + core + post == pre + (core + post);
    if core != "" {
      StrippedLeft(pre, core + post);
      StrippedRight(core, post);
    } else {
      assert pre + core + post == pre + post + "";
      StrippedLeft(pre + post, "");
      StrippedRight("", "");
    }
  }

  /** A token names the address it was made for, without the whitespace around it and in lower case. */
  lemma UnsubscribeTokenRoundTrip(mac: Mac, lower: string -> string, pre: string, core: string, post: string)
    requires AllSpaces(pre) && Bare(core) && AllSpaces(post)
    ensures VerifyUnsubscribeToken(mac, MakeUnsubscribeToken(mac, lower, pre + core + post)) == Accepted(lower(core))
  {
    NormalisedIs(lower, pre, core, post);
    hide Normalised, AllSpaces;
    var email := pre + core + post;
    OpenToken(mac, EncodeUtf8(Normalised(lower, email)));
    Utf8RoundTrip(Normalised(lower, email));
  }

  /** Different digests are written differently. */
  lemma {:induction false} HexIsInjective(a: seq<Byte>, b: seq<Byte>)
    requires Hex(a) == Hex(b)
    ensures a == b
  {
    if a != [] && b != [] {
      assert Hex(a)[..2] == Hex(b)[..2] && Hex(a)[2..] == Hex(b)[2..];
      assert Hex(a)[2..] == Hex(a[1..]) && Hex(b)[2..] == Hex(b[1..]);
      assert Hex(a)[0] == HexDigit(a[0] / 16) && Hex(a)[1] == HexDigit(a[0] % 16);
      assert Hex(b)[0] == HexDigit(b[0] / 16) && Hex(b)[1] == HexDigit(b[0] % 16);
      HexIsInjective(a[1..], b[1..]);
      assert a == [a[0]] + a[1..] && b == [b[0]] + b[1..];
    }
  }

  /** Verification is documented to return None for a malformed token or a wrong signature. It raises
      instead exactly when the part before the first dot decodes to bytes, and either the part behind
      it is not ASCII, or it is the right signature of bytes that are no text. */
  lemma UnsubscribeVerifyRaisesExactlyWhen(mac: Mac, token: string)
    ensures VerifyUnsubscribeToken(mac, token).Raised? <==>
              exists b64, sig, bytes ::
                && token == b64 + "." + sig && '.' !in b64 && DecodePadded(b64) == Some(bytes)
                && (!IsAscii(sig) || (sig == Hex(mac(bytes)) && DecodeUtf8(bytes).None?))
  {
    hide DecodePadded, DecodeUtf8, Hex, IsAscii;
    if b64, sig, bytes :| && token == b64 + "." + sig && '.' !in b64 && DecodePadded(b64) == Some(bytes)
                          && (!IsAscii(sig) || (sig == Hex(mac(bytes)) && DecodeUtf8(bytes).None?)) {
      PartitionAtFirst(b64, '.', sig);
    }
    if VerifyUnsubscribeToken(mac, token).Raised? {
      var (b64, sig) := Partition(token, '.').value;
      assert token == b64 + "." + sig;
    }
  }

  /** A token that both verifications raise on: a dot and an accented letter. */
  const BAD_TOKEN := ".\U{E9}"

  lemma BadTokenOpens()
    ensures Opened(BAD_TOKEN) == Some(([], "\U{E9}")) && !IsAscii("\U{E9}")
  {
    assert BAD_TOKEN == "" + "." + "\U{E9}";
    PartitionAtFirst("", '.', "\U{E9}");
    Base64RoundTrip([]);
    assert '\U{E9}' in "\U{E9}";
  }

  lemma UnsubscribeVerifyRaises(mac: Mac)
    ensures VerifyUnsubscribeToken(mac, BAD_TOKEN) == Raised
  {
    BadTokenOpens();
  }

  // ---- click tokens ----

  function ClickPayload(sendId: string, url: string): string {
    sendId + "|" + url
  }

  function MakeClickToken(mac: Mac, sendId: string, url: string): string {
    Token(mac, EncodeUtf8(ClickPayload(sendId, url)))
  }

  function VerifyClickToken(mac: Mac, token: string): Verdict<(string, string)> {
    match Opened(token)
    case None => Rejected
    case Some((bytes, sig)) =>
      match DecodeUtf8(bytes)
      case None => Rejected
      case Some(payload) =>
        if !IsAscii(sig) then Raised
        else if Hex(mac(EncodeUtf8(payload))) != sig then Rejected
        else match Partition(payload, '|')
          case None => Rejected
          case Some((sendId, url)) => if sendId == "" || url == "" then Rejected else Accepted((sendId, url))
  }

  /** A click token gives back what it was made for exactly when the id is not empty and has no bar,
      and there is a destination. */
  lemma ClickTokenRoundTrip(mac: Mac, sendId: string, url: string)
    ensures VerifyClickToken(mac, MakeClickToken(mac, sendId, url)) == Accepted((sendId, url))
            <==> sendId != "" && '|' !in sendId && url != ""
  {
    var payload := ClickPayload(sendId, url);
    OpenToken(mac, EncodeUtf8(payload));
    Utf8RoundTrip(payload);
    if '|' !in sendId {
      PartitionAtFirst(sendId, '|', url);
    }
  }

  /** Whatever is accepted carries the digest of exactly that id and destination. */
  lemma AcceptedClickIsSigned(mac: Mac, token: string)
    requires VerifyClickToken(mac, token).Accepted?
    ensures var (sendId, url) := VerifyClickToken(mac, token).value;
            && sendId != "" && '|' !in sendId && url != ""
            && exists b64, bytes ::
                 && '.' !in b64 && token == b64 + "." + Hex(mac(EncodeUtf8(sendId + "|" + url)))
                 && DecodePadded(b64) == Some(bytes) && DecodeUtf8(bytes) == Some(sendId + "|" + url)
  {
    var (b64, sig) := Partition(token, '.').value;
    var (sendId, url) := VerifyClickToken(mac, token).value;
    assert sig == Hex(mac(EncodeUtf8(sendId + "|" + url)));
    assert token == b64 + "." + sig && DecodePadded(b64).Some?;
  }

  /** Verification is documented to return None for a malformed token; it raises instead exactly
      when the part behind the first dot is not ASCII while the part before it decodes to text. */
  lemma ClickVerifyRaisesExactlyWhen(mac: Mac, token: string)
    ensures VerifyClickToken(mac, token).Raised? <==>
              exists b64, sig, bytes ::
                && token == b64 + "." + sig && '.' !in b64 && !IsAscii(sig)
                && DecodePadded(b64) == Some(bytes) && DecodeUtf8(bytes).Some?
  {
    if b64, sig, bytes :| && token == b64 + "." + sig && '.' !in b64 && !IsAscii(sig)
                          && DecodePadded(b64) == Some(bytes) && DecodeUtf8(bytes).Some? {
      PartitionAtFirst(b64, '.', sig);
    }
    if VerifyClickToken(mac, token).Raised? {
      var (b64, sig) := Partition(token, '.').value;
      assert token == b64 + "." + sig;
    }
  }

  lemma ClickVerifyRaises(mac: Mac)
    ensures VerifyClickToken(mac, BAD_TOKEN) == Raised
  {
    BadTokenOpens();
  }
}
