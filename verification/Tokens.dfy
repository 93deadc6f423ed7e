/** Minting and verifying ingest tokens (pkg/tenant/token.go and verify.go), with signatures
    idealised: a token verifies under a key exactly when that key pair signed it. */
module Tokens {
  import opened Wrappers
  import opened Clock
  import opened KeyCache

  const TOKEN_TYPE := "at+jwt"
  const SCOPE_WRITE := "write:events"
  const CLOCK_SKEW := 60 * NS_PER_SEC

  /** The identity facts a token carries. */
  datatype TokenClaims = TokenClaims(tenantId: string, installId: string, scope: string, trustTier: nat)

  /** A JSON claim value as decoded. */
  datatype Json = Absent | Null | Str(s: string) | Num(x: real) | Other

  /** One signed JWT: typ is RFC 9068 section 2.1; aud, exp and nbf are RFC 7519 sections 4.1.3 to
      4.1.5, the latter two in NumericDate seconds (section 2). */
  datatype Token = Token(
    alg: Option<string>, typ: Option<string>, kid: string, signer: Option<int>,
    iss: Option<string>, aud: seq<string>, exp: Option<int>, nbf: Option<int>,
    scope: Json, tenantId: Json, installId: Json, trustTier: Json)

  /** What arrives: unparsable bytes, or a JWS with some number of signatures. */
  datatype Wire = Garbage | Jws(signatures: nat, token: Token)

  datatype Error = BadAlg | BadType | BadIssuer | BadAudience | Expired | BadScope | UnknownKid | Malformed

  // ---- Scope (RFC 6749 section 3.3) ---------------------------------------------------

  predicate IsSpace(c: char) {
    c in {'\t', '\n', '\U{0B}', '\U{0C}', '\r', ' ', '\U{85}', '\U{A0}', '\U{1680}',
          '\U{2028}', '\U{2029}', '\U{202F}', '\U{205F}', '\U{3000}'} || '\U{2000}' <= c <= '\U{200A}'
  }

  function WordEnd(s: string, i: nat): (j: nat)
    requires i <= |s|
    ensures i <= j <= |s| && (j == |s| || IsSpace(s[j]))
    ensures forall x :: i <= x < j ==> !IsSpace(s[x])
    decreases |s| - i
  {
    if i == |s| || IsSpace(s[i]) then i else WordEnd(s, i + 1)
  }

  /** The space-separated words of s from position i on. */
  function Fields(s: string, i: nat): seq<string>
    requires i <= |s|
    decreases |s| - i
  {
    if i == |s| then []
    else if IsSpace(s[i]) then Fields(s, i + 1)
    else [s[i..WordEnd(s, i)]] + Fields(s, WordEnd(s, i))
  }

  predicate HasScope(scope: string, want: string) {
    want in Fields(scope, 0)
  }

  /** The word stands at [a, b), delimited by spaces or the ends of the text. */
  predicate StandsAt(s: string, w: string, a: int, b: int) {
    0 <= a < b <= |s| && s[a..b] == w && (a == 0 || IsSpace(s[a - 1])) && (b == |s| || IsSpace(s[b]))
  }

  predicate IsWord(w: string) {
    w != "" && forall i :: 0 <= i < |w| ==> !IsSpace(w[i])
  }

  lemma {:induction false} FieldsAreWords(s: string, i: nat, w: string)
    requires i <= |s| && IsWord(w) && (i == 0 || i == |s| || IsSpace(s[i]) || IsSpace(s[i - 1]))
    ensures w in Fields(s, i) <==> exists a, b :: i <= a && StandsAt(s, w, a, b)
    decreases |s| - i
  {
    if i < |s| {
      if IsSpace(s[i]) {
        FieldsAreWords(s, i + 1, w);
        forall a, b | i <= a && StandsAt(s, w, a, b)
          ensures i + 1 <= a
        {
          assert s[a..b][0] == s[a] && !IsSpace(w[0]);
        }
      } else {
        var j := WordEnd(s, i);
        FieldsAreWords(s, j, w);
        if i == 0 || IsSpace(s[i - 1]) {
          assert StandsAt(s, s[i..j], i, j);
        }
        forall a, b | i <= a && StandsAt(s, w, a, b)
          ensures j <= a || (a == i && b == j)
        {
          assert forall x :: a <= x < b ==> s[a..b][x - a] == s[x];
          assert forall x :: a <= x < b ==> !IsSpace(s[x]);
        }
      }
    }
  }

  /** A scope grants exactly the words it holds, never a part of one. */
  lemma ScopeIsByWholeWord(scope: string, want: string)
    requires IsWord(want)
    ensures HasScope(scope, want) <==> exists a, b :: StandsAt(scope, want, a, b)
  {
    FieldsAreWords(scope, 0, want);
    if a, b :| StandsAt(scope, want, a, b) {
      assert 0 <= a && StandsAt(scope, want, a, b);
    }
  }

  // ---- Mint and verify -------------------------------------------------------------------

  /** A minter signs with one key pair; its lifetime is in nanoseconds. */
  datatype Minter = Minter(kid: string, pair: int, issuer: string, audience: string, ttl: nat)

  function Mint(m: Minter, c: TokenClaims, now: int): Wire {
    Jws(1, Token(Some("EdDSA"), Some(TOKEN_TYPE), m.kid, Some(m.pair), Some(m.issuer), [m.audience],
                 Some((now + m.ttl) / NS_PER_SEC), Some(now / NS_PER_SEC),
                 Str(c.scope), Str(c.tenantId), Str(c.installId), Num(c.trustTier as real)))
  }

  function StringClaim(j: Json): string {
    if j.Str? then j.s else ""
  }

  /** The claim checks after the signature has verified. */
  function CheckClaims(t: Token, issuer: string, audience: string, now: int): Result<TokenClaims, Error> {
    if t.iss != Some(issuer) then Err(BadIssuer)
    else if t.aud != [audience] then Err(BadAudience)
    else if t.exp.None? || now > t.exp.value * NS_PER_SEC + CLOCK_SKEW then Err(Expired)
    else if t.nbf.Some? && now + CLOCK_SKEW < t.nbf.value * NS_PER_SEC then Err(Expired)
    else if !HasScope(StringClaim(t.scope), SCOPE_WRITE) then Err(BadScope)
    else if StringClaim(t.tenantId) == "" then Err(Malformed)
    else if StringClaim(t.installId) == "" then Err(Malformed)
    else if !t.trustTier.Num? then Err(Malformed)
    else if t.trustTier.x != 0.0 && t.trustTier.x != 1.0 then Err(Malformed)
    else Ok(TokenClaims(StringClaim(t.tenantId), StringClaim(t.installId), StringClaim(t.scope),
                        if t.trustTier.x == 0.0 then 0 else 1))
  }

  /** Header checks come before any key is looked up. */
  function HeaderError(w: Wire): Option<Error> {
    if w.Garbage? || w.signatures != 1 then Some(Malformed)
    else if w.token.alg != Some("EdDSA") then Some(BadAlg)
    else if w.token.typ != Some(TOKEN_TYPE) then Some(BadType)
    else None
  }

  /** Verify with the key the cache resolved. */
  function VerifyUnder(t: Token, key: Option<Jwk>, issuer: string, audience: string, now: int): Result<TokenClaims, Error> {
    if key.None? then Err(UnknownKid)
    else if t.signer != Some(key.value.material) then Err(Malformed)
    else CheckClaims(t, issuer, audience, now)
  }

  /** The verdict on what arrives and the cache it leaves. */
  function VerifyStep(c: Cache, w: Wire, issuer: string, audience: string, now: int, reply: Option<KeySet>): (Cache, Result<TokenClaims, Error>) {
    if HeaderError(w).Some? then (c, Err(HeaderError(w).value))
    else
      var o := KeyStep(c, w.token.kid, now, reply);
      (o.cache, VerifyUnder(w.token, o.key, issuer, audience, now))
  }

  class Verifier {
    const issuer: string
    const audience: string
    const store: KeyStore

    constructor (issuer: string, audience: string)
      ensures this.issuer == issuer && this.audience == audience && fresh(store)
      ensures store.View() == EMPTY_CACHE
    {
      this.issuer, this.audience := issuer, audience;
      store := new KeyStore();
    }

    method Verify(w: Wire, now: int, reply: Option<KeySet>) returns (r: Result<TokenClaims, Error>)
      modifies store
      ensures (store.View(), r) == VerifyStep(old(store.View()), w, issuer, audience, now, reply)
    {
      if w.Garbage? || w.signatures != 1 {
        return Err(Malformed);
      }
      var t := w.token;
      if t.alg != Some("EdDSA") {
        return Err(BadAlg);
      }
      if t.typ != Some(TOKEN_TYPE) {
        return Err(BadType);
      }
      var key, _ := store.Key(t.kid, now, reply);
      if key.None? {
        return Err(UnknownKid);
      }
      if t.signer != Some(key.value.material) {
        return Err(Malformed);
      }
      return CheckClaims(t, issuer, audience, now);
    }
  }

  /** What a minter may be asked for if its tokens are to verify at all. */
  predicate Mintable(c: TokenClaims) {
    c.tenantId != "" && c.installId != "" && HasScope(c.scope, SCOPE_WRITE) && c.trustTier <= 1
  }

  /** From 60 s before nbf to 60 s after exp, both in whole seconds. */
  predicate InWindow(m: Minter, minted: int, now: int) {
    minted / NS_PER_SEC * NS_PER_SEC - CLOCK_SKEW <= now <= (minted + m.ttl) / NS_PER_SEC * NS_PER_SEC + CLOCK_SKEW
  }

  /** Round trip: under the minter's own key, a minted token verifies to exactly the claims it was
      minted with when they are mintable and the time is in the window, and is refused otherwise. */
  lemma MintVerifyRoundTrip(m: Minter, c: TokenClaims, minted: int, key: Jwk, now: int)
    requires key.material == m.pair
    ensures var r := VerifyUnder(Mint(m, c, minted).token, Some(key), m.issuer, m.audience, now);
            && HeaderError(Mint(m, c, minted)).None?
            && (r == Ok(c) <==> Mintable(c) && InWindow(m, minted, now))
            && (r.Err? <==> !(Mintable(c) && InWindow(m, minted, now)))
  {
  }

  /** Acceptance pins the token down: its algorithm, type, issuer, sole audience, scope, time
      window and tier, and the key that signed it. A token signed by any other pair, or by none,
      is refused. */
  lemma AcceptedTokenIsGenuine(c: Cache, w: Wire, issuer: string, audience: string, now: int, reply: Option<KeySet>)
    requires VerifyStep(c, w, issuer, audience, now, reply).1.Ok?
    ensures w.Jws? && w.signatures == 1 && w.token.alg == Some("EdDSA") && w.token.typ == Some(TOKEN_TYPE)
    ensures var key := KeyStep(c, w.token.kid, now, reply).key;
            key.Some? && w.token.signer == Some(key.value.material)
    ensures w.token.iss == Some(issuer) && w.token.aud == [audience]
    ensures w.token.exp.Some? && now <= w.token.exp.value * NS_PER_SEC + CLOCK_SKEW
    ensures w.token.nbf.Some? ==> w.token.nbf.value * NS_PER_SEC <= now + CLOCK_SKEW
    ensures w.token.trustTier in {Num(0.0), Num(1.0)}
    ensures exists a, b :: StandsAt(StringClaim(w.token.scope), SCOPE_WRITE, a, b)
  {
    ScopeIsByWholeWord(StringClaim(w.token.scope), SCOPE_WRITE);
  }

  /** The reading lies in the token's own window. */
  predicate Timely(t: Token, now: int) {
    && t.exp.Some? && now - 60 * NS_PER_SEC <= t.exp.value * NS_PER_SEC
    && (t.nbf.Some? ==> t.nbf.value * NS_PER_SEC <= now + 60 * NS_PER_SEC)
  }

  ghost predicate GrantsWriting(t: Token) {
    t.scope.Str? && exists a, b :: StandsAt(t.scope.s, SCOPE_WRITE, a, b)
  }

  predicate NamesBearer(t: Token) {
    t.tenantId.Str? && t.tenantId.s != "" && t.installId.Str? && t.installId.s != "" && t.trustTier in {Num(0.0), Num(1.0)}
  }

  lemma WriteScope(t: Token)
    ensures HasScope(StringClaim(t.scope), SCOPE_WRITE) <==> GrantsWriting(t)
  {
    ScopeIsByWholeWord(StringClaim(t.scope), SCOPE_WRITE);
  }

  /** The verdict on any token, whoever made it: accepted exactly when its key is known and signed it,
      issuer and sole audience match, the reading is timely, the write scope is there and the bearer is
      named; and each error says which of these, in that order, is the first to fail. */
  lemma VerdictExactly(t: Token, key: Option<Jwk>, issuer: string, audience: string, now: int)
    ensures var r := VerifyUnder(t, key, issuer, audience, now);
            var signed := key.Some? && t.signer == Some(key.value.material);
            var ours := signed && t.iss == Some(issuer);
            var meant := ours && t.aud == [audience];
            var timely := meant && Timely(t, now);
            var granted := timely && GrantsWriting(t);
            && (r.Ok? <==> granted && NamesBearer(t))
            && (r == Err(UnknownKid) <==> key.None?)
            && (r == Err(BadIssuer) <==> signed && !ours)
            && (r == Err(BadAudience) <==> ours && !meant)
            && (r == Err(Expired) <==> meant && !timely)
            && (r == Err(BadScope) <==> timely && !granted)
            && (r == Err(Malformed) <==> (key.Some? && !signed) || (granted && !NamesBearer(t)))
  {
    hide HasScope, GrantsWriting;
    WriteScope(t);
  }

  /** Before any key is looked up: one signature, the one algorithm, the one type, in that order. */
  lemma HeaderExactly(w: Wire)
    ensures HeaderError(w) == Some(Malformed) <==> w.Garbage? || w.signatures != 1
    ensures HeaderError(w) == Some(BadAlg) <==> w.Jws? && w.signatures == 1 && w.token.alg != Some("EdDSA")
    ensures HeaderError(w) == Some(BadType) <==>
              w.Jws? && w.signatures == 1 && w.token.alg == Some("EdDSA") && w.token.typ != Some("at+jwt")
    ensures HeaderError(w).None? <==>
              w.Jws? && w.signatures == 1 && w.token.alg == Some("EdDSA") && w.token.typ == Some("at+jwt")
  {
  }
}
