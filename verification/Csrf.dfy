/** CSRF tokens (services/browser_request_protection.py): printing, parsing, and what becomes
    of a token when the session secret is rotated. The keyed hash is a parameter that is
    assumed injective; a session's hash key stands for its secret.
 */
module Csrf {
  import opened Entities
  import opened Text
  import opened SessionRotation

  const TOKEN_LIFETIME: nat := 3600 * SECOND

  type Mac = (nat, string) -> string

  /** A keyed hash tells keys and payloads apart, and prints as a text without dots. */
  ghost predicate GoodMac(mac: Mac) {
    && (forall k, p, k', p' :: mac(k, p) == mac(k', p') ==> k == k' && p == p')
    && (forall k, p :: mac(k, p) != "" && DotFree(mac(k, p)))
  }

  predicate DotFree(s: string) {
    forall k :: 0 <= k < |s| ==> s[k] != '.'
  }

  predicate ColonFree(s: string) {
    forall k :: 0 <= k < |s| ==> s[k] != ':'
  }

  /** `int(moment.timestamp())`; seconds are counted from the same zero everywhere. */
  function Seconds(t: Time): nat { t / SECOND }

  function Payload(session: string, epoch: int, nonce: string): string {
    session + ":" + IntText(epoch) + ":" + nonce
  }

  function IntText(n: int): string {
    if n < 0 then "-" + Decimal(-n) else Decimal(n)
  }

  /** issue_csrf_token */
  function Issue(mac: Mac, session: string, key: nat, nonce: string, now: Time): string {
    var epoch := Seconds(now + TOKEN_LIFETIME);
    "v1." + Decimal(epoch) + "." + nonce + "." + mac(key, Payload(session, epoch, nonce))
  }

  // ---- parsing ----

  function Split(s: string): (parts: seq<string>)
    ensures |parts| >= 1
  {
    if s == [] then [[]]
    else
      var rest := Split(s[1..]);
      if s[0] == '.' then [[]] + rest else [[s[0]] + rest[0]] + rest[1..]
  }

  lemma {:induction false} SplitAtDot(part: string, more: string)
    requires DotFree(part)
    ensures Split(part + "." + more) == [part] + Split(more)
    decreases |part|
  {
    var s := part + "." + more;
    if part == [] {
      assert s[1..] == more;
    } else {
      assert s[1..] == part[1..] + "." + more;
      SplitAtDot(part[1..], more);
      assert [part[0]] + part[1..] == part;
    }
  }

  lemma {:induction false} SplitOfPart(part: string)
    requires DotFree(part)
    ensures Split(part) == [part]
    decreases |part|
  {
    if part != [] {
      SplitOfPart(part[1..]);
      assert [part[0]] + part[1..] == part;
    }
  }

  /** `int(text)` for a sign and digits. */
  function ParseInt(s: string): Option<int> {
    if s != [] && s[0] == '-' then
      (if s[1..] != [] && AllDigits(s[1..]) then Some(-(DecimalValue(s[1..]) as int)) else None)
    else if s != [] && s[0] == '+' then
      (if s[1..] != [] && AllDigits(s[1..]) then Some(DecimalValue(s[1..])) else None)
    else if s != [] && AllDigits(s) then Some(DecimalValue(s))
    else None
  }

  datatype Token = Token(epoch: int, nonce: string, signature: string)

  function Parse(text: string): Option<Token> {
    var parts := Split(text);
    if |parts| != 4 || parts[0] != "v1" || ParseInt(parts[1]).None? || parts[2] == "" || parts[3] == "" then None
    else Some(Token(ParseInt(parts[1]).value, parts[2], parts[3]))
  }

  lemma DecimalIsDotFree(n: nat)
    ensures DotFree(Decimal(n))
  {
    var d := Decimal(n);
    assert forall k :: 0 <= k < |d| ==> d[k] in d && d[k] in DIGITS;
  }

  lemma NumberParses(n: nat)
    ensures ParseInt(Decimal(n)) == Some(n)
  {
    DecimalReadsBack(n);
    var d := Decimal(n);
    assert d[0] in d;
  }

  lemma FourParts(a: string, b: string, c: string, d: string)
    requires DotFree(a) && DotFree(b) && DotFree(c) && DotFree(d)
    ensures Split(a + "." + b + "." + c + "." + d) == [a, b, c, d]
  {
    hide DotFree, Split;
    var cd := c + "." + d;
    var bcd := b + "." + cd;
    assert a + "." + b + "." + c + "." + d == a + "." + bcd;
    SplitAtDot(a, bcd);
    SplitAtDot(b, cd);
    SplitAtDot(c, d);
    SplitOfPart(d);
  }

  /** An issued token parses back to its expiry, nonce and signature. */
  lemma IssuedTokenParses(mac: Mac, session: string, key: nat, nonce: string, now: Time)
    requires GoodMac(mac) && nonce != "" && DotFree(nonce)
    ensures var epoch := Seconds(now + TOKEN_LIFETIME);
      Parse(Issue(mac, session, key, nonce, now)) == Some(Token(epoch, nonce, mac(key, Payload(session, epoch, nonce))))
  {
    hide Split, Decimal, Payload, ParseInt;
    var epoch := Seconds(now + TOKEN_LIFETIME);
    var signature := mac(key, Payload(session, epoch, nonce));
    DecimalIsDotFree(epoch);
    NumberParses(epoch);
    assert DotFree(signature) && signature != "";
    assert "v1." == "v1" + ".";
    FourParts("v1", Decimal(epoch), nonce, signature);
  }

  // ---- enforcement ----

  datatype Headers = Headers(origin: Option<string>, token: Option<string>)

  datatype Verdict =
    | Allowed | OriginRequired | OriginMismatch | TokenRequired | TokenMalformed | TokenMismatch | TokenExpired

  /** The keys that a session's tokens may be signed with at an instant. */
  predicate KeyAccepted(row: DeviceSession, key: nat, now: Time) {
    row.secret == key
    || (row.previous == Some(key) && row.previousValidUntil.Some? && row.previousValidUntil.value >= now)
  }

  predicate SignatureMatches(mac: Mac, row: DeviceSession, payload: string, signature: string, now: Time) {
    signature == mac(row.secret, payload)
    || (row.previous.Some? && row.previousValidUntil.Some? && row.previousValidUntil.value >= now
        && signature == mac(row.previous.value, payload))
  }

  function CheckToken(mac: Mac, session: string, row: DeviceSession, text: string, now: Time): Verdict {
    match Parse(text)
    case None => TokenMalformed
    case Some(token) =>
      var payload := Payload(session, token.epoch, token.nonce);
      if !SignatureMatches(mac, row, payload, token.signature, now) then TokenMismatch
      else if token.epoch <= Seconds(now) then TokenExpired
      else Allowed
  }

  /** enforce_cookie_request_protection, in the order of its checks. */
  function Enforce(
      mac: Mac, unsafeMethod: bool, publicOrigin: string, headers: Headers,
      session: string, row: DeviceSession, now: Time)
    : Verdict
  {
    if !unsafeMethod then Allowed
    else if headers.origin.None? then OriginRequired
    else if headers.origin.value != publicOrigin then OriginMismatch
    else if headers.token.None? || headers.token.value == "" then TokenRequired
    else CheckToken(mac, session, row, headers.token.value, now)
  }

  /** An issued token is allowed exactly while its key is accepted and it has not expired. */
  lemma IssuedTokenChecks(
      mac: Mac, session: string, key: nat, nonce: string, issuedAt: Time, row: DeviceSession, now: Time)
    requires GoodMac(mac) && nonce != "" && DotFree(nonce)
    ensures CheckToken(mac, session, row, Issue(mac, session, key, nonce, issuedAt), now) ==
      if !KeyAccepted(row, key, now) then TokenMismatch
      else if Seconds(issuedAt + TOKEN_LIFETIME) <= Seconds(now) then TokenExpired
      else Allowed
  {
    hide Parse, Issue, Payload;
    IssuedTokenParses(mac, session, key, nonce, issuedAt);
  }

  /** Continuity across rotations, over whole histories of a session. A token issued after
      some steps is allowed after any further steps exactly until it expires, if since then
      the secret has not been rotated, or has been rotated once and the grace time of that
      rotation is not over. After two rotations it is never allowed. */
  lemma TokenSurvivesOneRotation(
      mac: Mac, session: string, nonce: string, createdAt: Time, steps: seq<Step>, issuedAt: Time,
      more: seq<Step>, now: Time)
    requires GoodMac(mac) && nonce != "" && DotFree(nonce)
    ensures var before, after := Exec(createdAt, steps), Exec(createdAt, steps + more);
      var token := Issue(mac, session, before.session.secret, nonce, issuedAt);
      var since := |after.rotations| - |before.rotations|;
      && since >= 0
      && (CheckToken(mac, session, after.session, token, now).Allowed? <==>
            && Seconds(now) < Seconds(issuedAt + 3600 * SECOND)
            && (since == 0 || (since == 1 && now <= after.rotations[|before.rotations|] + 120 * SECOND)))
  {
    hide Exec, CheckToken, Issue;
    var before, after := Exec(createdAt, steps), Exec(createdAt, steps + more);
    Reachable(createdAt, steps);
    Reachable(createdAt, steps + more);
    RotationsExtend(createdAt, steps, more);
    IssuedTokenChecks(mac, session, before.session.secret, nonce, issuedAt, after.session, now);
  }

  // ---- a token is bound to its session ----

  lemma {:induction false} LastColonSplits(a: string, n: string, b: string, m: string)
    requires ColonFree(n) && ColonFree(m) && a + ":" + n == b + ":" + m
    ensures a == b && n == m
    decreases |n|
  {
    var s, t := a + ":" + n, b + ":" + m;
    assert (s[|s| - 1] == ':') == (n == []) && (t[|t| - 1] == ':') == (m == []);
    if n == [] {
      assert s[..|s| - 1] == a && t[..|t| - 1] == b;
    } else {
      assert s[|s| - 1] == n[|n| - 1] == m[|m| - 1];
      assert s[..|s| - 1] == a + ":" + n[..|n| - 1] == b + ":" + m[..|m| - 1];
      LastColonSplits(a, n[..|n| - 1], b, m[..|m| - 1]);
      assert n == n[..|n| - 1] + [n[|n| - 1]] && m == m[..|m| - 1] + [m[|m| - 1]];
    }
  }

  lemma IntTextIsColonFree(n: int)
    ensures ColonFree(IntText(n))
  {
    var d := Decimal(if n < 0 then -n else n);
    assert forall k :: 0 <= k < |d| ==> d[k] in d && d[k] in DIGITS;
  }

  lemma PayloadNamesItsSession(a: string, m: int, b: string, n: int, nonce: string)
    requires ColonFree(nonce) && Payload(a, m, nonce) == Payload(b, n, nonce)
    ensures a == b
  {
    hide IntText;
    IntTextIsColonFree(m);
    IntTextIsColonFree(n);
    LastColonSplits(a + ":" + IntText(m), nonce, b + ":" + IntText(n), nonce);
    LastColonSplits(a, IntText(m), b, IntText(n));
  }

  /** A token issued to one session is refused by every other, whatever the keys. */
  lemma TokenIsBoundToItsSession(
      mac: Mac, session: string, key: nat, nonce: string, issuedAt: Time, other: string, row: DeviceSession, now: Time)
    requires GoodMac(mac) && nonce != "" && DotFree(nonce) && ColonFree(nonce) && other != session
    ensures CheckToken(mac, other, row, Issue(mac, session, key, nonce, issuedAt), now) == TokenMismatch
  {
    hide Parse, Issue, Payload;
    IssuedTokenParses(mac, session, key, nonce, issuedAt);
    var epoch := Seconds(issuedAt + TOKEN_LIFETIME);
    if Payload(other, epoch, nonce) == Payload(session, epoch, nonce) {
      PayloadNamesItsSession(other, epoch, session, epoch, nonce);
    }
  }

  /** What is allowed, exactly: a request that changes nothing, and one from the public origin with
      a token, not yet expired, that one of the session's accepted keys signed for it. */
  lemma OnlySignedTokensPass(
      mac: Mac, unsafeMethod: bool, publicOrigin: string, headers: Headers, session: string, row: DeviceSession,
      now: Time)
    ensures Enforce(mac, unsafeMethod, publicOrigin, headers, session, row, now).Allowed? <==>
      || !unsafeMethod
      || (&& headers.origin == Some(publicOrigin) && headers.token.Some?
          && var token := Parse(headers.token.value);
             && token.Some? && token.value.epoch > Seconds(now)
             && exists key :: KeyAccepted(row, key, now)
                  && token.value.signature == mac(key, Payload(session, token.value.epoch, token.value.nonce)))
  {
    hide Payload;
    if unsafeMethod && headers.token.Some? && Parse(headers.token.value).Some? {
      var token := Parse(headers.token.value).value;
      TokenIsNotEmpty(headers.token.value);
      SignedByAccepted(mac, row, Payload(session, token.epoch, token.nonce), token.signature, now);
    }
  }

  lemma TokenIsNotEmpty(text: string)
    requires Parse(text).Some?
    ensures text != ""
  {
    assert Split("") == [""];
  }

  lemma SignedByAccepted(mac: Mac, row: DeviceSession, payload: string, signature: string, now: Time)
    ensures SignatureMatches(mac, row, payload, signature, now) <==>
      exists key :: KeyAccepted(row, key, now) && signature == mac(key, payload)
  {
    assert KeyAccepted(row, row.secret, now);
    if SignatureMatches(mac, row, payload, signature, now) && signature != mac(row.secret, payload) {
      assert KeyAccepted(row, row.previous.value, now);
    }
  }

  /** Which check a refused request failed: the first of origin, token, form, signature, expiry. */
  lemma RefusalsInOrder(
      mac: Mac, publicOrigin: string, headers: Headers, session: string, row: DeviceSession, now: Time)
    ensures var verdict := Enforce(mac, true, publicOrigin, headers, session, row, now);
      && (verdict == OriginRequired <==> headers.origin.None?)
      && (verdict == OriginMismatch <==> headers.origin.Some? && headers.origin != Some(publicOrigin))
      && (verdict == TokenRequired <==>
            headers.origin == Some(publicOrigin) && (headers.token.None? || headers.token == Some("")))
      && (verdict == TokenExpired ==>
            var token := Parse(headers.token.value);
            && token.Some? && token.value.epoch <= Seconds(now)
            && exists key :: KeyAccepted(row, key, now)
                 && token.value.signature == mac(key, Payload(session, token.value.epoch, token.value.nonce)))
  {
    hide Parse, Payload;
    if Enforce(mac, true, publicOrigin, headers, session, row, now) == TokenExpired {
      var token := Parse(headers.token.value).value;
      SignedByAccepted(mac, row, Payload(session, token.epoch, token.nonce), token.signature, now);
    }
  }

  // ---- a hash that meets what is assumed of it ----

  function Code(c: char): string {
    if c == '.' then "~d" else if c == '~' then "~t" else [c]
  }

  /** The text without its dots. */
  function Escaped(s: string): string {
    if s == [] then [] else Code(s[0]) + Escaped(s[1..])
  }

  lemma {:induction false} EscapedIsDotFree(s: string)
    ensures DotFree(Escaped(s))
    decreases |s|
  {
    if s != [] {
      EscapedIsDotFree(s[1..]);
    }
  }

  lemma CodesAreAPrefixCode(c: char, a: string, d: char, b: string)
    requires Code(c) + a == Code(d) + b
    ensures c == d && a == b
  {
    var s, t := Code(c) + a, Code(d) + b;
    assert s[0] == Code(c)[0] && t[0] == Code(d)[0];
    if s[0] == '~' {
      assert s[1] == Code(c)[1] && t[1] == Code(d)[1];
    }
    assert c == d && s[|Code(c)|..] == a && t[|Code(c)|..] == b;
  }

  lemma {:induction false} EscapedIsInjective(s: string, t: string)
    requires Escaped(s) == Escaped(t)
    ensures s == t
    decreases |s|
  {
    if s != [] && t != [] {
      CodesAreAPrefixCode(s[0], Escaped(s[1..]), t[0], Escaped(t[1..]));
      EscapedIsInjective(s[1..], t[1..]);
      assert s == [s[0]] + s[1..] && t == [t[0]] + t[1..];
    }
  }

  function PrintedMac(key: nat, payload: string): string {
    Escaped(payload) + ":" + Decimal(key)
  }

  /** What the lemmas above assume of the keyed hash can be met. */
  lemma GoodMacsExist()
    ensures GoodMac(PrintedMac)
  {
    hide Escaped, Decimal;
    forall k: nat, p, k': nat, p' | PrintedMac(k, p) == PrintedMac(k', p') ensures k == k' && p == p' {
      IntTextIsColonFree(k);
      IntTextIsColonFree(k');
      LastColonSplits(Escaped(p), Decimal(k), Escaped(p'), Decimal(k'));
      EscapedIsInjective(p, p');
      DecimalIsInjective(k, k');
    }
    forall k: nat, p ensures PrintedMac(k, p) != "" && DotFree(PrintedMac(k, p)) {
      EscapedIsDotFree(p);
      DecimalIsDotFree(k);
    }
  }
}
