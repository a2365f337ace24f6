/** The session-cookie codec of internal/auth/auth.go. HMAC-SHA256 under the server key
    is an arbitrary function from bodies to signatures. */
module Cookie {
  import opened Text
  import Base64

  type Mac = Bytes -> Bytes

  const NANOS: int := 1_000_000_000

  /** Seconds from year 1 to the Unix epoch; `time.Unix` adds it in 64-bit arithmetic. */
  const UNIX_TO_INTERNAL: int := 62_135_596_800

  function Wrap64(n: int): int
  {
    (n - MIN_INT64) % 0x1_0000_0000_0000_0000 + MIN_INT64
  }

  /** `time.Now().After(time.Unix(exp, 0))`, with the clock in Unix nanoseconds. */
  predicate Expired(now: int, exp: int)
  {
    now + UNIX_TO_INTERNAL * NANOS > Wrap64(exp + UNIX_TO_INTERNAL) * NANOS
  }

  function Body(user: Bytes, exp: int): Bytes
  {
    user + ['|'] + FormatInt(exp)
  }

  function SignValue(mac: Mac, user: Bytes, exp: int): Bytes
  {
    Base64.Encode(Body(user, exp)) + ['.'] + Base64.Encode(mac(Body(user, exp)))
  }

  /** What the body of an authenticated cookie says at time `now`. */
  function ReadBody(body: Bytes, now: int): Bytes
  {
    match Cut<Byte>(body, '|')
    case None => []
    case Some((user, rest)) =>
      match ParseInt(rest)
      case None => []
      case Some(exp) => if Expired(now, exp) then [] else user
  }

  /** The user name, or the empty string on any failure. */
  function VerifyValue(mac: Mac, v: Bytes, now: int): Bytes
  {
    match Cut<Byte>(v, '.')
    case None => []
    case Some((left, right)) =>
      match (Base64.Decode(left), Base64.Decode(right))
      case (Some(body), Some(sig)) => if sig == mac(body) then ReadBody(body, now) else []
      case _ => []
  }

  /** A signed value always passes the decoding and signature stages. */
  lemma VerifySigned(mac: Mac, user: Bytes, exp: int, now: int)
    ensures VerifyValue(mac, SignValue(mac, user, exp), now) == ReadBody(Body(user, exp), now)
  {
    var body := Body(user, exp);
    Base64.RoundTrip(body);
    Base64.RoundTrip(mac(body));
    Base64.NoDot(body);
    CutAt<Byte>(Base64.Encode(body), '.', Base64.Encode(mac(body)));
  }

  /** Expiry is the plain comparison, except that expiries past the range of `time.Unix`
      wrap around and count as expired. */
  lemma ExpiredExactly(now: int, exp: int)
    requires 0 <= now && IsInt64(exp)
    ensures Expired(now, exp) <==> now > exp * NANOS || exp > MAX_INT64 - UNIX_TO_INTERNAL
  {
    var n := exp + UNIX_TO_INTERNAL;
    if n <= MAX_INT64 {
      assert Wrap64(n) == n;
    } else {
      assert Wrap64(n) == n - 0x1_0000_0000_0000_0000;
    }
  }

  /** Round trip. For a name without '|', the cookie yields the name exactly while the
      clock has not passed the expiry and the expiry is representable as a time. */
  lemma CookieRoundTrip(mac: Mac, user: Bytes, exp: int, now: int)
    requires '|' !in user && IsInt64(exp) && 0 <= now
    ensures VerifyValue(mac, SignValue(mac, user, exp), now)
         == if now <= exp * 1_000_000_000 && exp <= 0x7FFF_FFFF_FFFF_FFFF - 62_135_596_800 then user
            else []
  {
    VerifySigned(mac, user, exp, now);
    CutAt<Byte>(user, '|', FormatInt(exp));
    ParseFormat(exp);
    ExpiredExactly(now, exp);
  }

  lemma NotANumber(s: string)
    requires '|' in s
    ensures ParseInt(s).None?
  {
    var i :| 0 <= i < |s| && s[i] == '|';
    if i > 0 {
      assert s[1..][i - 1] == '|';
    }
    assert !IsDigit('|');
  }

  lemma PipeBody(user: Bytes, exp: int, now: int)
    requires '|' in user
    ensures ReadBody(Body(user, exp), now) == []
  {
    var tail: Bytes := ['|'] + FormatInt(exp);
    CutExtended<Byte>(user, '|', tail);
    assert Body(user, exp) == user + tail;
    NotANumber(Cut<Byte>(user, '|').value.1 + tail);
  }

  /** A name containing '|' never authenticates, as itself or as anybody else. */
  lemma PipeNameRejected(mac: Mac, user: Bytes, exp: int, now: int)
    requires '|' in user
    ensures VerifyValue(mac, SignValue(mac, user, exp), now) == []
  {
    VerifySigned(mac, user, exp, now);
    PipeBody(user, exp, now);
  }

  /** v is two encodings joined by a dot: a body, and its signature. */
  ghost predicate Signed(mac: Mac, v: Bytes, body: Bytes)
  {
    exists left: Bytes, right: Bytes ::
      && v == left + ['.'] + right && '.' !in left
      && Base64.Decode(left) == Some(body) && Base64.Decode(right) == Some(mac(body))
  }

  /** body names `user` with some spelling of the expiry `exp`. */
  ghost predicate Names(body: Bytes, user: Bytes, exp: int)
  {
    exists digits: Bytes ::
      '|' !in user && body == user + ['|'] + digits && ParseInt(digits) == Some(exp)
  }

  lemma SignedIsRead(mac: Mac, v: Bytes, body: Bytes, now: int)
    requires Signed(mac, v, body)
    ensures VerifyValue(mac, v, now) == ReadBody(body, now)
  {
    var left: Bytes, right: Bytes :|
      && v == left + ['.'] + right && '.' !in left
      && Base64.Decode(left) == Some(body) && Base64.Decode(right) == Some(mac(body));
    CutAt<Byte>(left, '.', right);
  }

  lemma NamesIsRead(body: Bytes, user: Bytes, exp: int, now: int)
    requires Names(body, user, exp)
    ensures ReadBody(body, now) == if Expired(now, exp) then [] else user
  {
    var digits: Bytes :|
      '|' !in user && body == user + ['|'] + digits && ParseInt(digits) == Some(exp);
    CutAt<Byte>(user, '|', digits);
  }

  /** Acceptance is exact: a value yields a non-empty name if and only if it is a signed
      body giving that name and an expiry that has not passed. */
  lemma AcceptedExactly(mac: Mac, v: Bytes, user: Bytes, now: int)
    requires user != []
    ensures VerifyValue(mac, v, now) == user
       <==> exists body, exp ::
              Signed(mac, v, body) && Names(body, user, exp) && !Expired(now, exp)
  {
    if body, exp :| Signed(mac, v, body) && Names(body, user, exp) && !Expired(now, exp) {
      SignedIsRead(mac, v, body, now);
      NamesIsRead(body, user, exp, now);
    }
    if VerifyValue(mac, v, now) == user {
      var (left, right) := Cut<Byte>(v, '.').value;
      var body := Base64.Decode(left).value;
      assert Signed(mac, v, body);
      var (name, digits) := Cut<Byte>(body, '|').value;
      assert Names(body, user, ParseInt(digits).value);
    }
  }
}
