/** Bearer-token checking against the identity provider's cached signing keys. The key set is
    fetched once at start-up and only read afterwards; here it is the parameter `keys`. The
    token library's header parsing and signature, audience and issuer checks are the
    uninterpreted functions of `Jose`. */
module Cognito {
  import opened Python

  type Claims = map<string, string>
  type Header = map<string, string>

  /** A cached JSON Web Key: its key id and its other members, passed to the verifier unread. */
  datatype Jwk = Jwk(kid: string, members: map<string, string>)

  /** The identity provider's region, user pool and this application's client id. */
  datatype Config = Config(region: string, userPoolId: string, clientId: string)

  /** The arguments `jwt.decode` receives besides the token and the key. */
  datatype DecodeOptions = DecodeOptions(algorithms: seq<string>, audience: string, issuer: string, verifyAtHash: bool)

  /** The token library: read a token's header without verifying it, and decode a token with a
      key and options, checking its signature and claims. Either may raise. */
  datatype Jose = Jose(
    getUnverifiedHeaders: string -> Outcome<Header>,
    decode: (string, Jwk, DecodeOptions) -> Outcome<Claims>)

  const BearerPrefix := "Bearer "
  const BadHeader := HTTPException(400, "Invalid Authorization header format")
  const InvalidToken := HTTPException(401, "Invalid token")
  const KeyNotFound := ValueError("Public key not found")

  /** The issuer every accepted token must name: the user pool's URL. */
  function Issuer(config: Config): (iss: string)
    ensures var host := "https://cognito-idp." + config.region + ".amazonaws.com/";
      StartsWith(iss, host) && iss[|host|..] == config.userPoolId
  {
    "https://cognito-idp." + config.region + ".amazonaws.com/" + config.userPoolId
  }

  /** Within one region, the issuer names the user pool: different pools have different issuers. */
  lemma IssuerNamesPool(a: Config, b: Config)
    requires a.region == b.region && Issuer(a) == Issuer(b)
    ensures a.userPoolId == b.userPoolId
  {
    var prefix := "https://cognito-idp." + a.region + ".amazonaws.com/";
    assert Issuer(a)[|prefix|..] == a.userPoolId;
    assert Issuer(b)[|prefix|..] == b.userPoolId;
  }

  /** RS256 only, this client as audience, the pool as issuer, no access-token hash check. */
  function VerifierOptions(config: Config): (opts: DecodeOptions)
    ensures opts.algorithms == ["RS256"] && opts.audience == config.clientId && !opts.verifyAtHash
    ensures opts.issuer == "https://cognito-idp." + config.region + ".amazonaws.com/" + config.userPoolId
  {
    DecodeOptions(["RS256"], config.clientId, Issuer(config), false)
  }

  /** Index `i` holds the first cached key whose key id is `kid`. */
  predicate FirstWithKid(keys: seq<Jwk>, kid: string, i: int) {
    0 <= i < |keys| && keys[i].kid == kid && forall j :: 0 <= j < i ==> keys[j].kid != kid
  }

  /** `validate_jwt_token`: look up the first cached key with the header's key id (KeyError
      when the header has none, ValueError when no key has it) and return what the verifier
      returns for that key and the fixed options. */
  function ValidateJwtToken(token: string, keys: seq<Jwk>, config: Config, jose: Jose): (r: Outcome<Claims>)
    ensures jose.getUnverifiedHeaders(token).Raise? ==> r == Raise(jose.getUnverifiedHeaders(token).error)
    ensures jose.getUnverifiedHeaders(token).Ok? ==>
      var header := jose.getUnverifiedHeaders(token).value;
      && ("kid" !in header ==> r == Raise(KeyError("kid")))
      && ("kid" in header && (forall i :: 0 <= i < |keys| ==> keys[i].kid != header["kid"]) ==>
            r == Raise(KeyNotFound))
      && ("kid" in header && (exists i :: 0 <= i < |keys| && keys[i].kid == header["kid"]) ==>
            exists i :: FirstWithKid(keys, header["kid"], i) && r == jose.decode(token, keys[i], VerifierOptions(config)))
  {
    match jose.getUnverifiedHeaders(token)
    case Raise(e) => Raise(e)
    case Ok(header) =>
      if "kid" !in header then Raise(KeyError("kid"))
      else
        var kid := header["kid"];
        match First(keys, (key: Jwk) => key.kid == kid)
        case None => Raise(KeyNotFound)
        case Some(i) =>
          assert FirstWithKid(keys, kid, i);
          jose.decode(token, keys[i], VerifierOptions(config))
  }

  /** `except ValueError: raise HTTPException(401, "Invalid token")`; any other outcome passes. */
  function CatchValueError<T>(o: Outcome<T>): (r: Outcome<T>)
    ensures o.Raise? && o.error.ValueError? ==> r == Raise(InvalidToken)
    ensures !(o.Raise? && o.error.ValueError?) ==> r == o
  {
    match o
    case Raise(ValueError(_)) => Raise(InvalidToken)
    case _ => o
  }

  /** `authorization.split("Bearer ")[1]` after the prefix check: 400 without the prefix. */
  function BearerToken(authorization: string): (r: Outcome<string>)
    ensures r.Raise? <==> !StartsWith(authorization, BearerPrefix)
    ensures r.Raise? ==> r.error == BadHeader
  {
    if !StartsWith(authorization, BearerPrefix) then Raise(BadHeader)
    else
      assert OccursAt(authorization, BearerPrefix, 0);
      var pieces := Split(authorization, BearerPrefix);
      assert |pieces| >= 2;
      Ok(pieces[1])
  }

  /** The token is what follows the prefix, up to the next "Bearer " if there is one: it never
      contains "Bearer ", and what remains of the header is empty or starts with "Bearer ". */
  lemma BearerTokenShape(authorization: string)
    requires BearerToken(authorization).Ok?
    ensures var token := BearerToken(authorization).value;
      && StartsWith(authorization, BearerPrefix + token)
      && !Contains(token, BearerPrefix)
      && var rest := authorization[|BearerPrefix| + |token|..];
         rest == "" || StartsWith(rest, BearerPrefix)
  {
    var rest0 := authorization[|BearerPrefix|..];
    assert OccursAt(authorization, BearerPrefix, 0);
    assert Split(authorization, BearerPrefix) == [""] + Split(rest0, BearerPrefix);
    var token := BearerToken(authorization).value;
    assert token == Split(rest0, BearerPrefix)[0];
    assert authorization == BearerPrefix + rest0;
    match Find(rest0, BearerPrefix)
    case None =>
      assert token == rest0;
    case Some(i) =>
      assert token == rest0[..i];
      assert rest0 == token + rest0[i..];
      assert authorization[|BearerPrefix| + |token|..] == rest0[i..];
  }

  /** A header made of the prefix and a token free of "Bearer " yields that token. */
  lemma BearerTokenOfHeader(token: string)
    requires !Contains(token, BearerPrefix)
    ensures BearerToken(BearerPrefix + token) == Ok(token)
  {
    var authorization := BearerPrefix + token;
    assert OccursAt(authorization, BearerPrefix, 0);
    assert authorization[|BearerPrefix|..] == token;
    assert Split(authorization, BearerPrefix) == [""] + Split(token, BearerPrefix);
    assert Split(token, BearerPrefix) == [token];
  }

  /** `get_current_user_info`: 400 for a header without the prefix, 401 when validation raises
      ValueError, and otherwise the validator's claims (or its other exception) unchanged. */
  function GetCurrentUserInfo(authorization: string, keys: seq<Jwk>, config: Config, jose: Jose): (r: Outcome<Claims>)
    ensures !StartsWith(authorization, BearerPrefix) ==> r == Raise(BadHeader)
    ensures StartsWith(authorization, BearerPrefix) ==>
      r == CatchValueError(ValidateJwtToken(BearerToken(authorization).value, keys, config, jose))
  {
    match BearerToken(authorization)
    case Raise(e) => Raise(e)
    case Ok(token) => CatchValueError(ValidateJwtToken(token, keys, config, jose))
  }

  /** A well-formed header whose key id no cached key has is answered 401. */
  lemma UnknownKidIsUnauthorized(authorization: string, keys: seq<Jwk>, config: Config, jose: Jose)
    requires StartsWith(authorization, BearerPrefix)
    requires var token := BearerToken(authorization).value;
      && jose.getUnverifiedHeaders(token).Ok?
      && "kid" in jose.getUnverifiedHeaders(token).value
      && forall i :: 0 <= i < |keys| ==> keys[i].kid != jose.getUnverifiedHeaders(token).value["kid"]
    ensures GetCurrentUserInfo(authorization, keys, config, jose) == Raise(InvalidToken)
  {
  }

  /** A token the verifier accepts is answered with exactly the verifier's claims. */
  lemma AcceptedTokenClaims(authorization: string, keys: seq<Jwk>, config: Config, jose: Jose, i: int)
    requires StartsWith(authorization, BearerPrefix)
    requires var token := BearerToken(authorization).value;
      && jose.getUnverifiedHeaders(token).Ok?
      && "kid" in jose.getUnverifiedHeaders(token).value
      && FirstWithKid(keys, jose.getUnverifiedHeaders(token).value["kid"], i)
      && jose.decode(token, keys[i], VerifierOptions(config)).Ok?
    ensures var token := BearerToken(authorization).value;
      GetCurrentUserInfo(authorization, keys, config, jose) == jose.decode(token, keys[i], VerifierOptions(config))
  {
  }
}
