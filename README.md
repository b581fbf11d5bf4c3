# FoliumUtil validators, JWT maker and connector URL, in Dafny

This project models three small pieces of logic of the FoliumUtil Go
utility library and proves what they accept, reject and return.

- **Input validators** (`fvalidator`): `ValidateString` (byte-length
  bounds), `ValidateUsername`, `ValidatePassword` and `ValidateEmail`. The
  package's regular expressions are modelled by a small matcher for the
  regex fragment they use (`regexp.dfy`): ASCII bracket classes with
  `{min,max}` repetition, matched anchored (`^...$`) or searched for
  anywhere. Lemmas turn each pattern into a plain statement over bytes:
  which lengths and which bytes it accepts. The validators' contracts state
  exactly which inputs pass and which error each rejected input gets,
  including the fixed order of the password checks.
- **JWT maker** (`ftoken`): the key-length check of `NewJwtMaker`, how
  `CreateToken` passes on failures, the `keyFunc` that pins the HMAC family
  of signing methods, and how `VerifyToken` collapses every outcome of the
  JWT library into a payload or one of the two sentinel errors
  `ErrInvalidToken` and `ErrExpiredToken`. The maker is an immutable value:
  its secret key is fixed when `NewJwtMaker` creates it, and no operation
  returns a changed maker.
- **Connector URL** (`faiconn`): `buildFullURL`. The result always ends in
  `/chat/completions`. Building it is idempotent, and at most one trailing
  `/` is dropped.

Go strings are byte sequences. `GoStrings.GoString` is a sequence of
bytes, each written as the `char` with that code, so `|s|` is Go's
`len(s)`. Go's `regexp` matches runes, not bytes. Every class used here
contains only ASCII, and no byte of a multi-byte UTF-8 sequence is ASCII.
So matching on bytes gives the same answers. It also means an accepted
username's rune count equals its byte count, which is why it passes
`ValidateString(value, 4, 16)`.

Calls into code outside these files are parameters of the model:
`net/mail.ParseAddress` is the predicate `parseAddress`. `NewPayload` is a
`PayloadSource`. The JWT library's signing is a `Signer`, and its parsing
is a `Parser` that is handed the maker's `keyFunc`.

## Model

| member | source | states |
|---|---|---|
| GoStrings.HasSuffix | faiconn/custom.go:110 | `s` ends in `suffix` iff `s` is some string followed by `suffix` |
| GoStrings.TrimSuffix | faiconn/custom.go:113 | removing a present suffix leaves the part before it; an absent suffix leaves the string unchanged |
| Regexp.TryCountsSplits | fvalidator/fvalidator.go:10-14 | trying repetition counts from k on succeeds iff some count j >= k lets the first piece take s[..j] (within its bounds, all bytes in its class) and the rest of the pattern match s[j..] |
| Regexp.MatchOnePiece | fvalidator/fvalidator.go:14 | `^[C]{m,n}$` matches s iff m <= len(s) <= n and every byte is in C |
| Regexp.MatchHeadThenPiece | fvalidator/fvalidator.go:10 | `^[C][D]{m,n}$` matches s iff s is non-empty, s[0] is in C and the rest matches `^[D]{m,n}$` |
| Regexp.SearchFinds | fvalidator/fvalidator.go:11-13 | an unanchored one-class pattern matches iff some byte of s is in the class |
| Validator.WordClassIsWordByte | fvalidator/fvalidator.go:10 | a byte is in `[a-zA-Z0-9_]` iff it is an ASCII letter, digit or underscore |
| Validator.PasswordClassIsPasswordByte | fvalidator/fvalidator.go:14 | a byte is in `[A-Za-z\d@$!%*?&]` iff it is an ASCII letter, digit or one of the seven symbols |
| Validator.UsernameRegexAccepts | fvalidator/fvalidator.go:10 | the username regex accepts s iff 4 <= len(s) <= 16, s[0] is a letter and every later byte is a letter, digit or `_` |
| Validator.PasswordCharsRegexAccepts | fvalidator/fvalidator.go:14 | the password regex accepts s iff 8 <= len(s) <= 16 and every byte is a letter, digit or one of `@$!%*?&` |
| Validator.SearchRegexesFind | fvalidator/fvalidator.go:11-13 | hasLowercase, hasUppercase and hasDigit hold iff some byte is a lowercase letter, an uppercase letter, a digit respectively |
| Validator.ValidateString | fvalidator/fvalidator.go:17-23 | no error iff minLength <= byte length <= maxLength; otherwise the length error carrying both bounds |
| Validator.ValidateUsername | fvalidator/fvalidator.go:25-32 | no error iff 4-16 bytes, a letter first and only letters, digits and `_` after it; otherwise the username error |
| Validator.ValidatePassword | fvalidator/fvalidator.go:34-48 | no error iff 8-16 allowed bytes with a lowercase letter, an uppercase letter and a digit; each error kind holds exactly when every earlier check passed and its own check failed |
| Validator.ValidateEmail | fvalidator/fvalidator.go:50-58 | outside 3-320 bytes, the length error `ValidateString(value, 3, 320)` gives; inside, no error iff the address parser accepts, else the invalid-address error |
| Validator.UsernameWithinStringBounds | fvalidator/fvalidator.go:10 | every accepted username also passes `ValidateString(value, 4, 16)` |
| Validator.EmailLengthGateIgnoresParser | fvalidator/fvalidator.go:51-53 | outside 3-320 bytes the result is the length error whatever the address parser would say |
| ValidatorExamples.StringLengthCases | validator_test.go:115-119 | "hello" passes 3..10, "hi" and the 16-byte string fail 3..10, "" fails 1..5, "abc" passes 3..3 |
| ValidatorExamples.UsernameCases | validator_test.go:12-33 | the four valid usernames pass, including the 16-byte "a123456789012345"; the seven invalid ones get the username error |
| ValidatorExamples.PasswordAccepted | validator_test.go:44 | "Password123" passes |
| ValidatorExamples.PasswordWithSymbolAccepted | validator_test.go:48 | "Admin@Pass123" passes |
| ValidatorExamples.TestPasswordAccepted | validator_test.go:45 | "TestPass456" passes |
| ValidatorExamples.ValidPassword789Accepted | validator_test.go:46 | "ValidPass789" passes |
| ValidatorExamples.MySecurePasswordAccepted | validator_test.go:47 | "MySecure123" passes |
| ValidatorExamples.PasswordsOfWrongShape | validator_test.go:58-65 | "short", "Short1", the 18-byte "toolongpassword123", "" and "Password123#" get the length/charset error |
| ValidatorExamples.PasswordMissingUppercase | validator_test.go:59 | "alllowercase123" gets the missing-uppercase error, not a charset error |
| ValidatorExamples.PasswordMissingLowercase | validator_test.go:60 | "ALLUPPERCASE123" gets the missing-lowercase error |
| ValidatorExamples.PasswordMissingDigit | validator_test.go:61 | "NoDigitsHere" gets the missing-digit error |
| ValidatorExamples.MultipleRulesAccepted | validator_test.go:134-148 | "testuser123" passes the username check and "123user" gets the username error |
| ValidatorExamples.MultipleRulesPasswordAccepted | validator_test.go:135-140 | "ValidPass123" passes |
| ValidatorExamples.WeakPasswordMissingUppercase | validator_test.go:145-149 | "weakpass" is rejected, with the missing-uppercase error |
| ValidatorExamples.EmailCases | validator_test.go:97-98 | "a" and "" get the 3-320 length error whatever the address parser does |
| JwtToken.IsFindsMatchInTree | ftoken/jwt_maker.go:52 | `errors.Is(err, target)` holds iff some error reachable from `err` by single or multiple `Unwrap` is `target` or reports it through its own `Is` method |
| JwtToken.NewJwtMaker | ftoken/jwt_maker.go:17-23 | fails iff the key is shorter than 32 bytes, with the key-length error; on success the maker holds exactly the given key |
| JwtToken.NewJwtMakerCases | ftoken/jwt_maker.go:11 | "short" is refused with minimum 32; a 32-byte key is accepted |
| JwtToken.CreateToken | ftoken/jwt_maker.go:25-38 | the built payload is always returned; no error iff building and HS256 signing under the maker's key both succeed, and then the token is the signed string; otherwise the first failure is returned as it is, with an empty token |
| JwtToken.KeyFunc | ftoken/jwt_maker.go:41-47 | a key is returned iff the method is of the HMAC family, and it is the maker's secret key; otherwise `ErrInvalidToken` |
| JwtToken.VerifyToken | ftoken/jwt_maker.go:40-65 | exactly one of a payload or an error; the error is always `ErrInvalidToken` or `ErrExpiredToken`; expired iff the library's validation error has an inner cause for which `errors.Is(inner, ErrExpiredToken)` holds; a payload iff parsing succeeded with `*Payload` claims, and it is those claims |
| JwtToken.CreatedMethodPassesKeyFunc | ftoken/jwt_maker.go:31-47 | the HS256 method used for signing is accepted by `keyFunc`, which gives back the maker's own key |
| JwtToken.AlgorithmConfusionRejected | ftoken/jwt_maker.go:41-55 | a non-HMAC token whose rejection by `keyFunc` the library reports as the inner cause verifies to `ErrInvalidToken`, never to expiry or success |
| JwtToken.CreateThenVerify | ftoken/jwt_maker.go:25-63 | if the library parses an HS256 token back to its payload whenever the key function gives the key it was signed under, then a token created without error verifies to its own payload with no error: signing key and verification key are both the maker's key |
| JwtToken.WrappedExpiryReported | ftoken/jwt_maker.go:50-53 | an inner cause that joins another error with a wrapped `ErrExpiredToken` is still reported as `ErrExpiredToken` |
| CustomConn.BuildFullURL | faiconn/custom.go:109-114 | the result ends in `/chat/completions`; a URL already ending so is returned unchanged; otherwise the URL without one trailing `/` (if any) followed by the path |
| CustomConn.BuildFullURLIdempotent | faiconn/custom.go:110-113 | building the URL from its own result gives the same result |
| CustomConn.OneSlashTrimmed | faiconn/custom.go:113 | "x//" becomes "x//chat/completions" and "x/" becomes "x/chat/completions" |
| CustomConn.PathAppended | faiconn/custom.go:113 | "x" becomes "x/chat/completions" |
| CustomConn.EndpointKept | faiconn/custom.go:110-112 | "x/chat/completions" is returned unchanged |

## Left out

- Error texts: each error is a constructor of `Validator.ValidatorError` or `JwtToken.Error` that stands for one message. The `%d` formatting of the bounds into text is not modelled.
- `errors.Is` compares a foreign error with the target by structural equality. Go compares them with `==` on the interface value. The targets used here are sentinels, which no foreign error equals in either model.
- `net/mail.ParseAddress` (the RFC 5322 address grammar) is not part of this model. It is the parameter `parseAddress` of `ValidateEmail`.
- The JWT library is not part of this model: header and claims decoding, base64url, HMAC-SHA256, claims validation, and the way it fills `ValidationError.Inner`. `VerifyToken` is stated for any `Parser`. Lemmas such as `AlgorithmConfusionRejected` state their assumption about the library as a `requires`.
- `NewPayload` and `Payload.Valid` are not part of this model: they read the clock and a random source. `CreateToken` takes `NewPayload` as a parameter. Expiry reaches `VerifyToken` only as the library's inner error. `duration` is an integer count of nanoseconds.
- The maker is a Go pointer behind the `Maker` interface. It is a value here, and that is what makes "no operation changes the key" hold by construction. Sharing and concurrent use are not modelled.
- The rest of `faiconn/custom.go` is not modelled: `NewCustomConn`, `SendMessage`, `sendRequest`, `GetModel`, `GetProvider` and `Close`. They are HTTP and JSON I/O. `buildFullURL` is modelled as a function of the configured URL alone.
- The PASETO maker, bcrypt password hashing and the random-string helper are not part of this model. They are wrappers around cryptographic libraries and randomness, and their sources are not among the files modelled.
