/**
 Access tokens: `Mint` and `Verify` of internal/auth/tokens.go.

 The Ed25519 key pair and the JSON codec are library code; they appear as a record of functions, and the facts
 assumed of them are spelled out in `Sound`.  Instants are nanoseconds since the epoch.
*/
module Tokens {
  import opened Basics
  import opened Base64
  import opened Scopes

  const SECOND: int := 1_000_000_000

  /** time.Time.Unix: whole seconds, rounded down. */
  function Unix(t: int): int {
    t / SECOND
  }

  datatype TokenClaims = TokenClaims(jti: string, sub: string, scopes: seq<string>, issued: int, expiry: int)

  datatype Keys = Keys(
    sign: Bytes -> Bytes,
    verify: (Bytes, Bytes) -> bool,
    marshal: TokenClaims -> Bytes,
    unmarshal: Bytes -> Option<TokenClaims>)

  /** Signatures verify, JSON decodes what it encoded, and neither is empty. */
  ghost predicate Sound(keys: Keys) {
    && (forall m :: keys.verify(m, keys.sign(m)) && keys.sign(m) != [])
    && (forall c :: keys.unmarshal(keys.marshal(c)) == Some(c) && keys.marshal(c) != [])
  }

  datatype TokenError = BadFormat | BadPayload | BadSignature | Unverified | BadClaims | Expired

  /** strings.Cut at the first dot. */
  function CutAtDot(s: string): Option<(string, string)> {
    if s == [] then None
    else if s[0] == '.' then Some(("", s[1..]))
    else
      match CutAtDot(s[1..])
      case None => None
      case Some((before, after)) => Some(([s[0]] + before, after))
  }

  lemma {:induction false} CutAfterDotless(a: string, b: string)
    requires '.' !in a
    ensures CutAtDot(a + "." + b) == Some((a, b))
  {
    if a == "" {
      assert a + "." + b == "." + b;
    } else {
      assert (a + "." + b)[1..] == a[1..] + "." + b;
      CutAfterDotless(a[1..], b);
      assert [a[0]] + a[1..] == a;
    }
  }

  lemma {:induction false} CutMeans(s: string)
    ensures match CutAtDot(s)
      case None => '.' !in s
      case Some((before, after)) => s == before + "." + after && '.' !in before
  {
    if s != [] && s[0] != '.' {
      CutMeans(s[1..]);
      assert s == [s[0]] + s[1..];
    } else if s != [] {
      assert s == "" + "." + s[1..];
    }
  }

  function MintClaims(jti: string, clientID: string, scopes: seq<string>, ttl: int, now: int): TokenClaims {
    TokenClaims(jti, clientID, Clean(scopes), Unix(now), Unix(now + ttl))
  }

  function Seal(keys: Keys, claims: TokenClaims): string {
    var payload := keys.marshal(claims);
    Encode(payload) + "." + Encode(keys.sign(payload))
  }

  /** The claims a correctly signed token carries, whatever the time. */
  function Open(keys: Keys, token: string): Result<TokenClaims, TokenError> {
    match CutAtDot(token)
    case None => Err(BadFormat)
    case Some((payloadPart, sigPart)) =>
      if payloadPart == "" || sigPart == "" then Err(BadFormat)
      else
        match Decode(payloadPart)
        case None => Err(BadPayload)
        case Some(payload) =>
          match Decode(sigPart)
          case None => Err(BadSignature)
          case Some(signature) =>
            if !keys.verify(payload, signature) then Err(Unverified)
            else
              match keys.unmarshal(payload)
              case None => Err(BadClaims)
              case Some(claims) => Ok(claims)
  }

  function Verify(keys: Keys, token: string, now: int): Result<TokenClaims, TokenError> {
    match Open(keys, token)
    case Err(e) => Err(e)
    case Ok(claims) => if Unix(now) >= claims.expiry then Err(Expired) else Ok(claims)
  }

  /** The token is a payload and a signature, each encoded and neither empty, with a dot between them. */
  ghost predicate Carries(token: string, payload: Bytes, signature: Bytes) {
    exists a, b :: (
      && token == a + "." + b && '.' !in a && a != "" && b != ""
      && Decode(a) == Some(payload) && Decode(b) == Some(signature))
  }

  /** The token carries a payload with a signature that verifies, and the payload decodes to the claims. */
  ghost predicate Signed(keys: Keys, token: string, claims: TokenClaims) {
    exists payload, signature :: (
      && Carries(token, payload, signature)
      && keys.verify(payload, signature) && keys.unmarshal(payload) == Some(claims))
  }

  /** A token opens to claims exactly when it carries them under a signature that verifies. */
  lemma OpenMeans(keys: Keys, token: string, claims: TokenClaims)
    ensures Open(keys, token) == Ok(claims) <==> Signed(keys, token, claims)
  {
    hide Decode;
    CutMeans(token);
    if Open(keys, token) == Ok(claims) {
      var (a, b) := CutAtDot(token).value;
      assert Carries(token, Decode(a).value, Decode(b).value);
    }
    if Signed(keys, token, claims) {
      var payload, signature :| Carries(token, payload, signature)
        && keys.verify(payload, signature) && keys.unmarshal(payload) == Some(claims);
      OpenCarried(keys, token, payload, signature);
    }
  }

  /** What becomes of a token with both its parts in order: a signature that does not verify is refused. */
  lemma OpenCarried(keys: Keys, token: string, payload: Bytes, signature: Bytes)
    requires Carries(token, payload, signature)
    ensures Open(keys, token)
      == if !keys.verify(payload, signature) then Err(Unverified)
         else match keys.unmarshal(payload) case None => Err(BadClaims) case Some(claims) => Ok(claims)
  {
    hide Decode, CutAtDot;
    var a, b :| token == a + "." + b && '.' !in a && a != "" && b != ""
      && Decode(a) == Some(payload) && Decode(b) == Some(signature);
    CutAfterDotless(a, b);
  }

  /** Verification is opening, until the expiry second. */
  lemma VerifyMeans(keys: Keys, token: string, now: int, claims: TokenClaims)
    ensures Verify(keys, token, now) == Ok(claims) <==> Signed(keys, token, claims) && now < claims.expiry * SECOND
  {
    hide Open;
    OpenMeans(keys, token, claims);
  }

  /**
   Whatever signature on the token verifies is on a payload that was signed here, for claims that decode as they were
   encoded: nobody else signs with the server's key.
  */
  ghost predicate Unforged(keys: Keys, token: string, minted: set<TokenClaims>) {
    forall payload, signature :: Carries(token, payload, signature) && keys.verify(payload, signature) ==>
      exists m :: m in minted && keys.marshal(m) == payload && keys.unmarshal(payload) == Some(m)
  }

  lemma SignedWasMinted(keys: Keys, token: string, minted: set<TokenClaims>, claims: TokenClaims)
    requires Unforged(keys, token, minted) && Signed(keys, token, claims)
    ensures claims in minted
  {
    hide Carries;
    var payload, signature :| Carries(token, payload, signature)
      && keys.verify(payload, signature) && keys.unmarshal(payload) == Some(claims);
  }

  lemma OpenOfSeal(keys: Keys, claims: TokenClaims)
    requires Sound(keys)
    ensures Open(keys, Seal(keys, claims)) == Ok(claims)
  {
    var payload := keys.marshal(claims);
    var signature := keys.sign(payload);
    assert keys.verify(payload, keys.sign(payload));
    EncodedAlphabet(payload);
    EncodedAlphabet(signature);
    CutAfterDotless(Encode(payload), Encode(signature));
    RoundTrip(payload);
    RoundTrip(signature);
  }

  /** A minted token verifies to exactly the minted claims until its expiry second, and never afterwards. */
  lemma VerifyUndoesMint(keys: Keys, jti: string, clientID: string, scopes: seq<string>, ttl: int, minted: int,
                         now: int)
    requires Sound(keys)
    ensures var claims := MintClaims(jti, clientID, scopes, ttl, minted);
      Verify(keys, Seal(keys, claims), now)
        == if now < (minted + ttl) / SECOND * SECOND then Ok(claims) else Err(Expired)
  {
    OpenOfSeal(keys, MintClaims(jti, clientID, scopes, ttl, minted));
  }
}
