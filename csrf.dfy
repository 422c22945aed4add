/** The double-submit CSRF check: an unsafe request must carry the same token in
    the X-CSRF-Token header and in the grr_csrf cookie. */
module Csrf {
  import opened Wrappers
  import opened GoStrings
  import opened Http
  import opened CookieOptionsGo

  const CsrfCookieName := "grr_csrf"
  const CsrfHeaderName := "X-CSRF-Token"
  /** 24 hours, in seconds. */
  const CsrfMaxAge := 24 * 60 * 60
  const TokenBytes := 32

  newtype byte = x: int | 0 <= x < 256

  /** MintCSRF: a cookie the browser's scripts can read (not HttpOnly), on "/", for a day. */
  function MintCsrf(token: string, opt: CsrfOptions): (c: Cookie)
    ensures c.name == CsrfCookieName && c.value == token && c.path == "/"
    ensures !c.httpOnly && c.maxAge == 86400
    ensures c.secure == opt.secure && c.sameSite == opt.sameSite
  {
    Cookie(CsrfCookieName, token, "/", false, opt.secure, opt.sameSite, CsrfMaxAge)
  }

  const HexDigits := "0123456789abcdef"

  predicate IsHexDigit(c: char) {
    '0' <= c <= '9' || 'a' <= c <= 'f'
  }

  /** The value of a lower-case hex digit. */
  function HexValue(c: char): (r: Option<nat>)
    ensures r.Some? <==> IsHexDigit(c)
    ensures r.Some? ==> r.value < 16 && HexDigits[r.value] == c
  {
    if '0' <= c <= '9' then Some(c as int - '0' as int)
    else if 'a' <= c <= 'f' then Some(c as int - 'a' as int + 10)
    else None
  }

  /** hex.EncodeToString: two lower-case digits per byte, high nibble first. */
  function HexEncode(bytes: seq<byte>): (s: string)
    ensures |s| == 2 * |bytes|
    ensures forall i :: 0 <= i < |s| ==> IsHexDigit(s[i])
  {
    if bytes == [] then []
    else [HexDigits[bytes[0] as int / 16], HexDigits[bytes[0] as int % 16]] + HexEncode(bytes[1..])
  }

  /** The inverse of HexEncode: None on an odd length or a character that is not a lower-case hex digit. */
  function HexDecode(s: string): (r: Option<seq<byte>>)
    ensures r.Some? ==> 2 * |r.value| == |s|
    decreases |s|
  {
    if s == [] then Some([])
    else if |s| == 1 then None
    else
      var hi, lo, rest := HexValue(s[0]), HexValue(s[1]), HexDecode(s[2..]);
      if hi.Some? && lo.Some? && rest.Some? then Some([(16 * hi.value + lo.value) as byte] + rest.value) else None
  }

  lemma HexValueOfDigit(n: nat)
    requires n < 16
    ensures HexValue(HexDigits[n]) == Some(n)
  {
  }

  /** One step of HexDecode: a byte from two digits before a decodable tail. */
  lemma HexDecodeStep(a: char, b: char, tail: string, rest: seq<byte>)
    requires HexValue(a).Some? && HexValue(b).Some? && HexDecode(tail) == Some(rest)
    ensures HexDecode([a, b] + tail) == Some([(16 * HexValue(a).value + HexValue(b).value) as byte] + rest)
  {
    var s := [a, b] + tail;
    assert s[0] == a && s[1] == b && s[2..] == tail;
  }

  /** Decoding an encoded byte string gives it back. */
  lemma {:induction false} HexRoundTrip(bytes: seq<byte>)
    ensures HexDecode(HexEncode(bytes)) == Some(bytes)
  {
    if bytes != [] {
      var b := bytes[0] as int;
      var hi, lo := b / 16, b % 16;
      HexRoundTrip(bytes[1..]);
      HexValueOfDigit(hi);
      HexValueOfDigit(lo);
      HexDecodeStep(HexDigits[hi], HexDigits[lo], HexEncode(bytes[1..]), bytes[1..]);
      assert (16 * hi + lo) as byte == bytes[0];
      assert [bytes[0]] + bytes[1..] == bytes;
    }
  }

  /** NewCSRFToken: the 32 random bytes, hex-encoded; `random` is crypto/rand's
      answer, None when reading fails. */
  function NewCsrfToken(random: Option<seq<byte>>): (r: Result<string, string>)
    requires random.Some? ==> |random.value| == TokenBytes
    ensures r.Success? <==> random.Some?
    ensures r.Success? ==> |r.value| == 64 && forall i :: 0 <= i < 64 ==> IsHexDigit(r.value[i])
    ensures r.Success? ==> HexDecode(r.value) == random
  {
    match random
    case None => Failure("crypto/rand failed")
    case Some(bytes) =>
      HexRoundTrip(bytes);
      Success(HexEncode(bytes))
  }

  /** The methods the check applies to. */
  predicate Unsafe(verb: string) {
    verb in {"POST", "PUT", "PATCH", "DELETE"}
  }

  /** CSRFMiddleware. `header` is the X-CSRF-Token header ("" when absent) and
      `cookie` the grr_csrf cookie's value, None when the request has none. */
  function CsrfCheck(verb: string, header: string, cookie: Option<string>): (r: Gate<()>)
    ensures !Unsafe(verb) ==> r == Next
    ensures Unsafe(verb) && TrimSpace(header) == "" ==> r == Answered(ErrorReply(StatusForbidden, "missing csrf token"))
    ensures Unsafe(verb) && TrimSpace(header) != "" && (cookie.None? || TrimSpace(cookie.value) == "") ==>
      r == Answered(ErrorReply(StatusForbidden, "missing csrf cookie"))
    ensures Unsafe(verb) && TrimSpace(header) != "" && cookie.Some? && TrimSpace(cookie.value) != ""
            && TrimSpace(cookie.value) != TrimSpace(header) ==>
      r == Answered(ErrorReply(StatusForbidden, "invalid csrf token"))
    ensures Unsafe(verb) ==>
      (r == Next <==> TrimSpace(header) != "" && cookie.Some? && TrimSpace(cookie.value) == TrimSpace(header))
  {
    if !Unsafe(verb) then Next
    else
      var headerToken := TrimSpace(header);
      if headerToken == "" then Answered(ErrorReply(StatusForbidden, "missing csrf token"))
      else if cookie.None? || TrimSpace(cookie.value) == "" then Answered(ErrorReply(StatusForbidden, "missing csrf cookie"))
      else if TrimSpace(cookie.value) != headerToken then Answered(ErrorReply(StatusForbidden, "invalid csrf token"))
      else Next
  }

  /** A token no hex digit of which is a space trims to itself. */
  lemma HexTrimmed(token: string)
    requires forall i :: 0 <= i < |token| ==> IsHexDigit(token[i])
    ensures TrimSpace(token) == token
  {
    TrimSpaceOf("", token, "");
    assert "" + token + "" == token;
  }

  /** The double-submit round trip: a client that echoes a freshly minted token in
      the header gets any request through. */
  lemma MintedTokenPasses(random: seq<byte>, opt: CsrfOptions, verb: string)
    requires |random| == TokenBytes
    ensures var token := NewCsrfToken(Some(random)).value;
      CsrfCheck(verb, token, Some(MintCsrf(token, opt).value)) == Next
  {
    var token := NewCsrfToken(Some(random)).value;
    HexTrimmed(token);
  }
}
