/**
 * The JWT token maker of package `ftoken`: it holds one secret key, checked
 * once at construction, signs payloads with HS256, and on verification pins
 * the HMAC family of signing methods and collapses every failure of the
 * JWT library into one of two sentinel errors.
 *
 * The JWT library itself (header and claims decoding, HMAC computation,
 * claims validation) and the payload constructor (clock and random source)
 * are not part of this model: they are passed in as functions, and the
 * maker's own logic is stated in terms of what they return.
 */
module JwtToken {
  import opened GoStrings

  /** `minSecretKeyLength` */
  const MinSecretKeyLength: int := 32

  /** The Go `error` values the maker produces or passes on. */
  datatype Error =
    | ErrInvalidToken                       // sentinel: the token is not to be trusted
    | ErrExpiredToken                       // sentinel: authentic, but past its expiry
    | ErrInvalidKeyLength(minLength: int)   // "invalid key length: must be at least %d characters"
    | Foreign(description: GoString, claims: seq<Error>, unwrap: Unwrapping)
      // any other error: `claims` are the targets its own `Is(error) bool`
      // method reports true for (none when it has no such method), and
      // `unwrap` is what its `Unwrap` method gives back

  /** The `Unwrap` method of an error: absent (or nil), `Unwrap() error`, or `Unwrap() []error`. */
  datatype Unwrapping = NoUnwrap | UnwrapOne(cause: Error) | UnwrapMany(causes: seq<Error>)

  datatype Option<T> = None | Some(value: T)

  datatype Result<T> = Ok(value: T) | Err(error: Error)

  /** `err` itself is `target`, or says so through its own `Is` method. */
  predicate MatchesItself(err: Error, target: Error) {
    err == target || (err.Foreign? && target in err.claims)
  }

  /**
   * `errors.Is(err, target)`: `err` matches `target` itself, or one of the
   * errors its `Unwrap` gives back does, recursively.
   */
  predicate Is(err: Error, target: Error)
    decreases err
  {
    MatchesItself(err, target)
    || (err.Foreign? &&
        match err.unwrap
        case NoUnwrap => false
        case UnwrapOne(cause) => Is(cause, target)
        case UnwrapMany(causes) => exists c :: c in causes && Is(c, target))
  }

  /** Every error reachable from `err` by unwrapping, `err` included. */
  function UnwrapTree(err: Error): set<Error>
    decreases err
  {
    {err} +
    if !err.Foreign? then {}
    else match err.unwrap
      case NoUnwrap => {}
      case UnwrapOne(cause) => UnwrapTree(cause)
      case UnwrapMany(causes) => set e, c | c in causes && e in UnwrapTree(c) :: e
  }

  /** `errors.Is` holds exactly when some error in the unwrap tree matches the target itself. */
  lemma {:induction false} IsFindsMatchInTree(err: Error, target: Error)
    ensures Is(err, target) <==> exists e :: e in UnwrapTree(err) && MatchesItself(e, target)
    decreases err
  {
    if err.Foreign? {
      match err.unwrap
      case NoUnwrap =>
      case UnwrapOne(cause) =>
        IsFindsMatchInTree(cause, target);
      case UnwrapMany(causes) =>
        forall c | c in causes { IsFindsMatchInTree(c, target); }
        if Is(err, target) && !MatchesItself(err, target) {
          var c :| c in causes && Is(c, target);
          var e :| e in UnwrapTree(c) && MatchesItself(e, target);
          assert e in UnwrapTree(err);
        }
        if e :| e in UnwrapTree(err) && MatchesItself(e, target) {
          if e != err {
            var c :| c in causes && e in UnwrapTree(c);
            assert Is(c, target);
          }
        }
    }
  }

  /** The claims carried by a token; `id` is the bytes of a random UUID. */
  datatype Payload = Payload(
    id: seq<bv8>,
    username: GoString,
    role: GoString,
    issuedAt: int,
    expiredAt: int)

  /**
   * The dynamic type of a token's signing method: `HMACMethod` is
   * `*jwt.SigningMethodHMAC` (HS256, HS384, HS512); `OtherMethod` is any
   * other implementation (RSA, ECDSA, unsigned, ...).
   */
  datatype SigningMethod = HMACMethod(alg: GoString) | OtherMethod(alg: GoString)

  /** `jwt.SigningMethodHS256` */
  const HS256: SigningMethod := HMACMethod("HS256")

  /** `JwtMaker`: the secret key is its only field, set only by `NewJwtMaker`. */
  datatype JwtMaker = JwtMaker(secretKey: GoString)

  /** `NewJwtMaker`: accepts a key of at least 32 bytes and keeps exactly that key. */
  function NewJwtMaker(secretKey: GoString): (r: Result<JwtMaker>)
    ensures r.Err? <==> |secretKey| < MinSecretKeyLength
    ensures r.Err? ==> r.error == ErrInvalidKeyLength(MinSecretKeyLength)
    ensures r.Ok? ==> r.value.secretKey == secretKey
  {
    if |secretKey| < MinSecretKeyLength then Err(ErrInvalidKeyLength(MinSecretKeyLength))
    else Ok(JwtMaker(secretKey))
  }

  // Creating tokens.

  /** `NewPayload`'s two results, `(*Payload, error)`; either may be nil. */
  datatype PayloadResult = PayloadResult(payload: Option<Payload>, err: Option<Error>)

  /** `NewPayload(username, role, duration)`, which reads the clock and the random source. */
  type PayloadSource = (GoString, GoString, int) -> PayloadResult

  /** `jwt.NewWithClaims(method, claims).SignedString(key)`. */
  type Signer = (SigningMethod, Option<Payload>, GoString) -> Result<GoString>

  /** `CreateToken`'s three results, `(string, *Payload, error)`. */
  datatype Created = Created(token: GoString, payload: Option<Payload>, err: Option<Error>)

  /**
   * `CreateToken`: builds the payload, signs it with HS256 under the
   * maker's key, and passes either failure on unchanged with an empty
   * token. The payload returned is always the one that was built.
   */
  function CreateToken(m: JwtMaker, username: GoString, role: GoString, duration: int,
                       newPayload: PayloadSource, sign: Signer): (r: Created)
    ensures var built := newPayload(username, role, duration);
            var signed := sign(HS256, built.payload, m.secretKey);
            && r.payload == built.payload
            && (r.err.None? <==> built.err.None? && signed.Ok?)
            && (r.err.None? ==> r.token == signed.value)
            && (r.err.Some? ==> r.token == [])
            && (built.err.Some? ==> r.err == built.err)
            && (built.err.None? && signed.Err? ==> r.err == Some(signed.error))
  {
    var built := newPayload(username, role, duration);
    if built.err.Some? then
      Created([], built.payload, built.err)
    else
      match sign(HS256, built.payload, m.secretKey)
      case Err(e) => Created([], built.payload, Some(e))
      case Ok(token) => Created(token, built.payload, None)
  }

  // Verifying tokens.

  /** A `jwt.Keyfunc`: the verification key for a token's signing method, or an error. */
  type KeyLookup = SigningMethod -> Result<GoString>

  /**
   * The `keyFunc` closure of `VerifyToken`: only the HMAC family is
   * accepted, and its key is the maker's secret key.
   */
  function KeyFunc(m: JwtMaker, sm: SigningMethod): (r: Result<GoString>)
    ensures r.Ok? <==> sm.HMACMethod?
    ensures r.Ok? ==> r.value == m.secretKey
    ensures r.Err? ==> r.error == ErrInvalidToken
  {
    if !sm.HMACMethod? then Err(ErrInvalidToken) else Ok(m.secretKey)
  }

  /** The closure `VerifyToken` hands to the parser. */
  function KeysOf(m: JwtMaker): KeyLookup {
    sm => KeyFunc(m, sm)
  }

  /** The dynamic type of `token.Claims` after parsing. */
  datatype Claims = PayloadClaims(payload: Payload) | OtherClaims

  /** What `jwt.ParseWithClaims` returns, as far as `VerifyToken` looks at it. */
  datatype ParseOutcome =
    | Parsed(claims: Claims)                 // err == nil
    | ValidationFailed(inner: Option<Error>) // err is a *jwt.ValidationError with this Inner
    | OtherFailure(err: Error)               // err of any other type

  /** `jwt.ParseWithClaims(token, &Payload{}, keyFunc)`. */
  type Parser = (GoString, KeyLookup) -> ParseOutcome

  /** `VerifyToken`'s two results, `(*Payload, error)`. */
  datatype Verified = Verified(payload: Option<Payload>, err: Option<Error>)

  /** An expiry reported by the parser: a validation error whose inner cause is `ErrExpiredToken`. */
  predicate ReportsExpiry(o: ParseOutcome) {
    o.ValidationFailed? && o.inner.Some? && Is(o.inner.value, ErrExpiredToken)
  }

  /**
   * `VerifyToken`: exactly one of a payload or an error, and the error is
   * always one of the two sentinels. Expiry is reported only when the
   * parser's validation error has `ErrExpiredToken` as its inner cause;
   * every other failure, and claims of any type but `Payload`, become
   * `ErrInvalidToken`.
   */
  function VerifyToken(m: JwtMaker, token: GoString, parse: Parser): (r: Verified)
    ensures r.payload.Some? <==> r.err.None?
    ensures r.err.Some? ==> r.err.value == ErrInvalidToken || r.err.value == ErrExpiredToken
    ensures var o := parse(token, KeysOf(m));
            && (r.err == Some(ErrExpiredToken) <==> ReportsExpiry(o))
            && (r.payload.Some? <==> o.Parsed? && o.claims.PayloadClaims?)
            && (r.payload.Some? ==> r.payload.value == o.claims.payload)
  {
    match parse(token, KeysOf(m))
    case ValidationFailed(inner) =>
      if inner.Some? && Is(inner.value, ErrExpiredToken) then Verified(None, Some(ErrExpiredToken))
      else Verified(None, Some(ErrInvalidToken))
    case OtherFailure(_) => Verified(None, Some(ErrInvalidToken))
    case Parsed(claims) =>
      match claims
      case PayloadClaims(p) => Verified(Some(p), None)
      case OtherClaims => Verified(None, Some(ErrInvalidToken))
  }

  // Properties relating the operations.

  /** A maker only exists for keys of at least 32 bytes, and a 32-byte key is enough. */
  lemma NewJwtMakerCases()
    ensures NewJwtMaker("short") == Err(ErrInvalidKeyLength(32))
    ensures NewJwtMaker("0123456789abcdef0123456789abcdef").Ok?
  {
  }

  /** Tokens made by `CreateToken` are signed with a method that `keyFunc` accepts, under the same key. */
  lemma CreatedMethodPassesKeyFunc(m: JwtMaker)
    ensures KeysOf(m)(HS256) == Ok(m.secretKey)
  {
  }

  /**
   * Algorithm confusion: when the parser passes on `keyFunc`'s refusal of a
   * non-HMAC method as the inner cause, the token is invalid, never expired.
   */
  lemma AlgorithmConfusionRejected(m: JwtMaker, token: GoString, parse: Parser, sm: SigningMethod)
    requires !sm.HMACMethod?
    requires parse(token, KeysOf(m)) == ValidationFailed(Some(KeyFunc(m, sm).error))
    ensures VerifyToken(m, token, parse) == Verified(None, Some(ErrInvalidToken))
  {
  }

  /**
   * Create, then verify: if the library's parser gives back the signed
   * payload whenever the key function hands it the key the token was
   * signed under, then a token created without error verifies to its own
   * payload, because `CreateToken` signs under the maker's key with a
   * method `keyFunc` accepts and returns that same key for.
   */
  lemma CreateThenVerify(m: JwtMaker, username: GoString, role: GoString, duration: int,
                         newPayload: PayloadSource, sign: Signer, parse: Parser)
    requires CreateToken(m, username, role, duration, newPayload, sign).err.None?
    requires newPayload(username, role, duration).payload.Some?
    requires forall key: GoString, kl: KeyLookup ::
               kl(HS256) == Ok(key) && sign(HS256, newPayload(username, role, duration).payload, key).Ok? ==>
               parse(sign(HS256, newPayload(username, role, duration).payload, key).value, kl)
               == Parsed(PayloadClaims(newPayload(username, role, duration).payload.value))
    ensures var c := CreateToken(m, username, role, duration, newPayload, sign);
            VerifyToken(m, c.token, parse) == Verified(c.payload, None)
  {
    CreatedMethodPassesKeyFunc(m);
  }

  /**
   * An expiry that reaches the parser's inner cause wrapped, or joined with
   * other errors, is still reported as `ErrExpiredToken`.
   */
  lemma WrappedExpiryReported(m: JwtMaker, token: GoString, parse: Parser, other: Error)
    requires parse(token, KeysOf(m)) ==
             ValidationFailed(Some(Foreign("joined", [], UnwrapMany([other,
               Foreign("wrapped", [], UnwrapOne(ErrExpiredToken))]))))
    ensures VerifyToken(m, token, parse) == Verified(None, Some(ErrExpiredToken))
  {
    var wrapped := Foreign("wrapped", [], UnwrapOne(ErrExpiredToken));
    assert Is(wrapped, ErrExpiredToken);
    assert wrapped in [other, wrapped];
  }
}
