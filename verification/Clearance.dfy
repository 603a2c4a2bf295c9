/** Clearance tokens: printing, parsing and the cookie check that binds them to an address. */
module Clearance {
  import opened Scores

  const COLON := ':'
  const DOT := '.'

  /** The position of the last c, or -1. */
  function LastIndex(s: string, c: char): (r: int)
    ensures -1 <= r < |s|
    ensures r >= 0 ==> s[r] == c
    ensures forall k :: r < k < |s| ==> s[k] != c
  {
    if s == [] then -1
    else if s[|s| - 1] == c then |s| - 1
    else LastIndex(s[..|s| - 1], c)
  }

  lemma LastIndexIs(s: string, c: char, n: nat)
    requires n < |s| && s[n] == c && c !in s[n + 1..]
    ensures LastIndex(s, c) == n
  {
    forall k | n < k < |s|
      ensures s[k] != c
    {
      assert s[k] == s[n + 1..][k - n - 1];
    }
  }

  lemma LastIndexOfJoin(a: string, c: char, b: string)
    requires c !in b
    ensures LastIndex(a + [c] + b, c) == |a|
  {
    assert (a + [c] + b)[|a| + 1..] == b;
    LastIndexIs(a + [c] + b, c, |a|);
  }

  /** The keyed hash over a payload, in hexadecimal. */
  type Signer = string -> string

  ghost predicate Hex(sign: Signer) {
    forall payload: string :: COLON !in sign(payload)
  }

  function GenerateClearanceToken(salt: string, nonce: string, sign: Signer): string {
    var payload := salt + [COLON] + nonce;
    payload + [COLON] + sign(payload)
  }

  /** The three results of verifyClearanceToken; a refusal may still carry what was parsed. */
  datatype Clearance = Clearance(salt: string, nonce: string, valid: bool)

  /** The last field of the salt is today's or yesterday's date. */
  predicate Dated(salt: string, today: string, yesterday: string) {
    var date := salt[LastIndex(salt, COLON) + 1..];
    date == today || date == yesterday
  }

  function VerifyClearanceToken(token: string, sign: Signer, today: string, yesterday: string): Clearance {
    var last := LastIndex(token, COLON);
    if last < 0 then Clearance("", "", false)
    else
      var beforeSig := token[..last];
      var second := LastIndex(beforeSig, COLON);
      if second < 0 then Clearance("", "", false)
      else
        var nonce := beforeSig[second + 1..];
        var salt := beforeSig[..second];
        Clearance(salt, nonce,
                  Dated(salt, today, yesterday) && token == GenerateClearanceToken(salt, nonce, sign))
  }

  /** What is parsed is what was printed, exactly when the nonce holds no colon. */
  lemma ParsesAsPrinted(salt: string, nonce: string, sign: Signer, today: string, yesterday: string)
    requires Hex(sign)
    ensures var r := VerifyClearanceToken(GenerateClearanceToken(salt, nonce, sign), sign, today, yesterday);
            && COLON !in r.nonce
            && (COLON !in nonce ==> r == Clearance(salt, nonce, Dated(salt, today, yesterday)))
  {
    var payload := salt + [COLON] + nonce;
    var token := GenerateClearanceToken(salt, nonce, sign);
    LastIndexOfJoin(payload, COLON, sign(payload));
    assert token[..|payload|] == payload;
    assert payload[|salt|] == COLON;
    if COLON !in nonce {
      LastIndexOfJoin(salt, COLON, nonce);
      assert payload[..|salt|] == salt && payload[|salt| + 1..] == nonce;
    }
  }

  /** A dated salt round-trips with its nonce if and only if the nonce holds no colon. */
  lemma RoundTrip(salt: string, nonce: string, sign: Signer, today: string, yesterday: string)
    requires Hex(sign) && Dated(salt, today, yesterday)
    ensures VerifyClearanceToken(GenerateClearanceToken(salt, nonce, sign), sign, today, yesterday)
            == Clearance(salt, nonce, true)
            <==> COLON !in nonce
  {
    ParsesAsPrinted(salt, nonce, sign, today, yesterday);
  }

  /** The accepted tokens are exactly the ones printed from a dated salt and a colon-free
      nonce, and those are the parts returned. */
  lemma AcceptsExactlyIssued(token: string, sign: Signer, today: string, yesterday: string)
    requires Hex(sign)
    ensures var r := VerifyClearanceToken(token, sign, today, yesterday);
            && (r.valid ==> COLON !in r.nonce && Dated(r.salt, today, yesterday)
                            && token == GenerateClearanceToken(r.salt, r.nonce, sign))
            && (forall salt, nonce :: COLON !in nonce && Dated(salt, today, yesterday)
                                      && token == GenerateClearanceToken(salt, nonce, sign)
                  ==> r == Clearance(salt, nonce, true))
  {
    var r := VerifyClearanceToken(token, sign, today, yesterday);
    if r.valid {
      ParsesAsPrinted(r.salt, r.nonce, sign, today, yesterday);
    }
    forall salt, nonce | COLON !in nonce && Dated(salt, today, yesterday)
                         && token == GenerateClearanceToken(salt, nonce, sign)
      ensures r == Clearance(salt, nonce, true)
    {
      RoundTrip(salt, nonce, sign, today, yesterday);
    }
  }

  /** The signature covers both parts: a text of three fields, the last two free of colons,
      is accepted exactly when the first is dated and the last is the signature of the other
      two as they stand. So a token whose salt or nonce was changed passes only if the new
      payload happens to have the old signature. */
  lemma SignatureCoversParts(salt: string, nonce: string, signature: string, sign: Signer, today: string, yesterday: string)
    requires COLON !in nonce && COLON !in signature
    ensures var token := salt + [COLON] + nonce + [COLON] + signature;
            VerifyClearanceToken(token, sign, today, yesterday).valid
            <==> Dated(salt, today, yesterday) && signature == sign(salt + [COLON] + nonce)
  {
    var payload := salt + [COLON] + nonce;
    var token := payload + [COLON] + signature;
    LastIndexOfJoin(payload, COLON, signature);
    LastIndexOfJoin(salt, COLON, nonce);
    assert token[..|payload|] == payload && token[|payload| + 1..] == signature;
    assert payload[..|salt|] == salt && payload[|salt| + 1..] == nonce;
    var expected := GenerateClearanceToken(salt, nonce, sign);
    assert expected[|payload| + 1..] == sign(payload);
  }

  // ---------- binding a cookie to an address ----------

  /** The salt a solved challenge is issued with. */
  function SaltFor(ip: string, date: string): string {
    ip + [COLON] + date
  }

  /** strings.Split on a one-character separator. */
  function Split(s: string, c: char): (parts: seq<string>)
    ensures |parts| >= 1
  {
    if s == [] then [[]]
    else
      var rest := Split(s[1..], c);
      if s[0] == c then [[]] + rest else [[s[0]] + rest[0]] + rest[1..]
  }

  function IPv4Mask24(ip: string): string {
    var parts := Split(ip, DOT);
    if |parts| != 4 then "" else parts[0] + [DOT] + parts[1] + [DOT] + parts[2] + [DOT] + "0"
  }

  /** The addresses a client may present a cookie of: its own and the base addresses of its
      two networks, where it has them. */
  predicate Bound(issuedTo: string, clientIP: string, mask64: string -> string) {
    || issuedTo == clientIP
    || (IPv4Mask24(clientIP) != "" && issuedTo == IPv4Mask24(clientIP))
    || (mask64(clientIP) != "" && issuedTo == mask64(clientIP))
  }

  /** A missing secret or cookie, a bad token or a salt without a colon refuses. */
  predicate VerifyChallengeCookie(hasSecret: bool, cookie: Option<string>, clientIP: string, sign: Signer,
                                  today: string, yesterday: string, mask64: string -> string)
  {
    if !hasSecret || cookie.None? then false
    else
      var r := VerifyClearanceToken(cookie.value, sign, today, yesterday);
      var last := LastIndex(r.salt, COLON);
      if !r.valid || last < 0 then false else Bound(r.salt[..last], clientIP, mask64)
  }

  /** A cookie issued for any address, colons in it or not, is read back as exactly that
      address. */
  lemma IssuedCookieNamesItsAddress(issuedTo: string, date: string, nonce: string, clientIP: string, sign: Signer,
                                    today: string, yesterday: string, mask64: string -> string)
    requires Hex(sign) && COLON !in date && COLON !in nonce && (date == today || date == yesterday)
    ensures var cookie := GenerateClearanceToken(SaltFor(issuedTo, date), nonce, sign);
            VerifyChallengeCookie(true, Some(cookie), clientIP, sign, today, yesterday, mask64)
            <==> Bound(issuedTo, clientIP, mask64)
  {
    var salt := SaltFor(issuedTo, date);
    LastIndexOfJoin(issuedTo, COLON, date);
    assert salt[|issuedTo| + 1..] == date && salt[..|issuedTo|] == issuedTo;
    RoundTrip(salt, nonce, sign, today, yesterday);
  }

  /** ... and a cookie that passes was issued, today or yesterday, for an address the client
      is bound to. */
  lemma AcceptedCookieWasIssued(hasSecret: bool, cookie: Option<string>, clientIP: string, sign: Signer,
                                today: string, yesterday: string, mask64: string -> string)
    returns (issuedTo: string, date: string, nonce: string)
    requires Hex(sign)
    requires VerifyChallengeCookie(hasSecret, cookie, clientIP, sign, today, yesterday, mask64)
    ensures hasSecret && cookie.Some? && (date == today || date == yesterday)
    ensures COLON !in nonce && cookie.value == GenerateClearanceToken(SaltFor(issuedTo, date), nonce, sign)
    ensures Bound(issuedTo, clientIP, mask64)
  {
    var r := VerifyClearanceToken(cookie.value, sign, today, yesterday);
    var last := LastIndex(r.salt, COLON);
    issuedTo, date, nonce := r.salt[..last], r.salt[last + 1..], r.nonce;
    assert SaltFor(issuedTo, date) == r.salt;
    AcceptsExactlyIssued(cookie.value, sign, today, yesterday);
  }

  // ---------- what the /24 rule really lets through ----------

  function Quad(a: string, b: string, c: string, d: string): string {
    a + [DOT] + (b + [DOT] + (c + [DOT] + d))
  }

  lemma {:induction false} SplitField(a: string, rest: string, c: char)
    requires c !in a
    ensures Split(a + [c] + rest, c) == [a] + Split(rest, c)
  {
    var s := a + [c] + rest;
    if a == [] {
      assert s[1..] == rest;
    } else {
      assert s[1..] == a[1..] + [c] + rest;
      SplitField(a[1..], rest, c);
      assert [a[0]] + a[1..] == a;
    }
  }

  lemma {:induction false} SplitLastField(a: string, c: char)
    requires c !in a
    ensures Split(a, c) == [a]
  {
    if a != [] {
      SplitLastField(a[1..], c);
      assert [a[0]] + a[1..] == a;
    }
  }

  lemma MaskOfQuad(a: string, b: string, c: string, d: string)
    requires DOT !in a && DOT !in b && DOT !in c && DOT !in d
    ensures IPv4Mask24(Quad(a, b, c, d)) == Quad(a, b, c, "0")
  {
    var cd := c + [DOT] + d;
    var bcd := b + [DOT] + cd;
    SplitField(a, bcd, DOT);
    SplitField(b, cd, DOT);
    SplitField(c, d, DOT);
    SplitLastField(d, DOT);
    assert a + [DOT] + b + [DOT] + c + [DOT] + "0" == Quad(a, b, c, "0");
  }

  lemma SameNetworkSameAddress(a: string, b: string, c: string, d: string, e: string)
    ensures Quad(a, b, c, d) == Quad(a, b, c, e) <==> d == e
  {
    var n := |a| + |b| + |c| + 3;
    assert Quad(a, b, c, d)[n..] == d && Quad(a, b, c, e)[n..] == e;
  }

  /** The comments promise a fallback within a /24. Tokens are issued for the full address,
      so a neighbour's token passes exactly when it was issued to the network's base
      address. */
  lemma NeighbourAcceptedIff(a: string, b: string, c: string, d: string, e: string, date: string, nonce: string,
                             sign: Signer, today: string, yesterday: string, mask64: string -> string)
    requires DOT !in a && DOT !in b && DOT !in c && DOT !in d && DOT !in e
    requires Hex(sign) && COLON !in date && COLON !in nonce && (date == today || date == yesterday)
    requires mask64(Quad(a, b, c, e)) == ""
    ensures var cookie := GenerateClearanceToken(SaltFor(Quad(a, b, c, d), date), nonce, sign);
            VerifyChallengeCookie(true, Some(cookie), Quad(a, b, c, e), sign, today, yesterday, mask64)
            <==> d == e || d == "0"
  {
    IssuedCookieNamesItsAddress(Quad(a, b, c, d), date, nonce, Quad(a, b, c, e), sign, today, yesterday, mask64);
    MaskOfQuad(a, b, c, e);
    SameNetworkSameAddress(a, b, c, d, e);
    SameNetworkSameAddress(a, b, c, d, "0");
  }

  /** The same for a /64: of two addresses with the same prefix, the one's token passes for
      the other exactly when it was issued to the prefix's base address. */
  lemma Network64AcceptedIff(issuedTo: string, clientIP: string, date: string, nonce: string,
                             sign: Signer, today: string, yesterday: string, mask64: string -> string)
    requires DOT !in clientIP && mask64(clientIP) != "" && mask64(issuedTo) == mask64(clientIP)
    requires Hex(sign) && COLON !in date && COLON !in nonce && (date == today || date == yesterday)
    ensures var cookie := GenerateClearanceToken(SaltFor(issuedTo, date), nonce, sign);
            VerifyChallengeCookie(true, Some(cookie), clientIP, sign, today, yesterday, mask64)
            <==> issuedTo == clientIP || issuedTo == mask64(issuedTo)
  {
    IssuedCookieNamesItsAddress(issuedTo, date, nonce, clientIP, sign, today, yesterday, mask64);
    SplitLastField(clientIP, DOT);
  }
}
