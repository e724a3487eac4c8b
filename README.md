# Blog API core, modelled in Dafny

This project models the core of a PHP blog back end. The back end is a small JSON API for articles and users, with these parts:

- An attribute-driven router: `RouteResolver` collects `#[Route]` attributes and `Router` dispatches a request to a controller action.
- Two nearly identical JWT services (`JWTServices`, `JWTService`), using HMAC-SHA256 and base64url, with a lazily read secret key.
- A CSRF middleware.
- The `Article` entity, with hydration through its setters and slug generation.
- `SecurityUtils::sanitizeRequestData`.
- Two repositories over PDO (`ArticleRepository`, `UserRepository`).
- The request-handling ladders of `ArticleController` (`create`, `uploadImage`) and `UserController` (`validateUniqueUserData`, `register`, `login`, `verifyEmail`).

The model has one module per source file, plus shared modules:

- `Wrappers`: Option and Result.
- `Php`: dynamically typed values, ordered arrays, `isset`, `empty()` and `??`.
- `PhpNumeric`: `is_numeric` and `$s * 1`.
- `ByteStrings`: `explode`, `bin2hex` and `hex2bin`.
- `Base64Url`: the token encoding.
- `TokenCodec`: what the two token services share.
- `Responses`: a JSON answer, or an Error that nothing catches.

How state is modelled:

- Objects whose state the source changes are classes: the two repositories, the `Article` entity, the session of the CSRF middleware, the static key of each token service, the router and the controllers.
- Each method is specified by a function of the old state and its inputs. The properties the source promises are proved about those functions.
- Database tables are sequences of rows in an in-memory record.
- A PDOException is a `fault` parameter. For the article repository it names the statement that raises it. For the user repository it carries the driver's message.
- The clock, randomness, the JSON functions, `strip_tags`, the password functions, HMAC-SHA256, the regular-expression engine and the filesystem are parameters.

The PHP semantics that decide behaviour are modelled explicitly:

- Under `strict_types`, a setter given the wrong type raises a TypeError. That is an Error, not an Exception, so `catch (\Exception)` does not stop it.
- A `catch (\Exception)` in a controller does catch a PDOException.
- `empty()` treats `"0"` as empty.
- `initKey` tests the key with the loose `== null`.
- `base64_decode` is non-strict: it skips '=' and foreign bytes and never fails. One consequence: a token whose signature has '=' appended still verifies (`JwtServices.PaddedSignatureAccepted`), so a valid token has more than one accepted spelling.
- `$a[$k] = $v` keeps a key's first position in an array.
- A method name matches a setter case-insensitively.

## Model

| member | source | states |
|---|---|---|
| Router.Coerce | src/core/Router.php:36-41 | a parameter becomes a number exactly when it is a numeric string; any other string is passed through unchanged |
| Router.NamedValues | src/core/Router.php:32-33 | the named captures: a value appears exactly when some string-keyed entry of `$matches` holds it, never more values than entries; `NamedValuesOne` and `NamedValuesAppend` fix the order and the count |
| Router.NamedValuesOne | src/core/Router.php:32-33 | one entry of `$matches` contributes its value exactly when its key is a string, and nothing otherwise |
| Router.NamedValuesAppend | src/core/Router.php:32-33 | filtering works entry by entry: the named values of two runs of entries are the named values of the first followed by those of the second, so order and repeats are kept |
| Router.Args | src/core/Router.php:32-44 | one argument per named capture; an argument is a number exactly when its capture is numeric, and a non-numeric capture is passed as the string itself |
| Router.CoerceIntToString | src/core/Router.php:37-38 | the decimal text of any 64-bit integer is passed to the action as that integer |
| Router.CoerceWithoutDigits | src/core/Router.php:37-40 | a parameter without digits stays a string |
| Router.NoNamedGroupNoArgs | src/core/Router.php:32-33 | a pattern without named groups gives the action no arguments (the whole match, key 0, is dropped) |
| Router.FirstMatch | src/core/Router.php:24-26 | the chosen route is the first one in the method's bucket whose delimited pattern matches; none is chosen only when no pattern matches |
| Router.Router.constructor | src/core/Router.php:14-17 | the router's table is the one `getRoutes` builds |
| Router.Router.Dispatch | src/core/Router.php:19-50 | dispatch gives the outcome of the specification function, using the positional reading of the handler pair |
| Router.DispatchOutcome | src/core/Router.php:19-50 | the corrected dispatch: no contract of its own; `NotFoundExactly`, `CorrectedInvokesRegisteredHandler`, `RegisteredPathMatches` and `NamedGroupPassesId` state when it throws and which handler it invokes with which arguments |
| Router.DispatchOutcomeAsWritten | src/core/Router.php:19-50 | dispatch as written, reading the handler pair by name: no contract of its own; `AsWrittenNeverInvokes` and `UnknownMethodNotFound` state that it never invokes an action and throws exactly where the corrected dispatch does not find a route |
| Router.NotFoundExactly | src/core/Router.php:24-49 | "Route not found for METHOD URI" is thrown exactly when no pattern of the method's bucket matches |
| Router.UnknownMethodNotFound | src/core/Router.php:24-49 | a method with no routes answers "Route not found" in both readings |
| Router.AsWrittenNeverInvokes | src/core/Router.php:27-28 | as written, no controller is ever invoked: every match ends in an Error, and exactly where the corrected dispatch invokes an action |
| Router.PairHandlers | src/core/Router.php:27-28 | a resolver pair has no 'className'/'methodName' keys; its positional entries name the class and the action |
| Router.CorrectedInvokesRegisteredHandler | src/core/Router.php:24-45 | with plain paths and a literal matcher, a request for a registered path invokes the handler registered last for it, with no arguments |
| Router.RegisteredPathMatches | src/core/Router.php:24-45 | in a well-formed table of plain paths, a registered path dispatches to its own handler |
| Router.PlainMismatch | src/core/Router.php:25-26 | a plain path's pattern never matches a different plain URI |
| Router.PlainRoutesPassNoArgs | src/core/RouteResolver.php:25-28 | with the paths stored as written, a dispatched request carries no argument, and its URI is a registered path itself (or that path and one newline) |
| Router.IdUriMissesBraceRoute | src/controller/ArticleController.php:136 | the upload route's pattern does not match `/api/articles/5/image` |
| Router.NamedGroupPassesId | src/core/Router.php:32-44 | a route whose pattern captures the named group `id` passes the captured integer to its action |
| Router.IdCaptureValues | src/core/Router.php:32-33 | of the whole match, the named group `id` and its numbered copy, only the named group's value is kept, once |
| Router.IdCaptureArgs | src/core/Router.php:32-44 | such a match gives the action exactly one argument, the captured 64-bit integer |
| Router.UnverifiedRequestInvokes | public/index.php:17-20 | a state-changing request for a registered path reaches its action even when `verifyToken` would reject its header |
| Router.GuardedDispatchChecksCsrf | src/middleware/CSRFMiddleware.php:20-36 | the guarded dispatch refuses exactly the state-changing requests outside login and register whose header is not the secret; no action runs for them, and every other request is dispatched as before |
| Router.Router.GuardedDispatch | src/core/Router.php:19-50 | the guarded dispatch gives the outcome of its specification function: the CSRF check, then the route lookup |
| Router.NeedsCsrf | public/index.php:17-20 | which requests the corrected guard checks: POST, PUT, DELETE and PATCH outside `/api/login` and `/api/register`; used by `GuardedDispatchChecksCsrf` |
| Router.GuardedOutcome | public/index.php:17-20 | the corrected front controller, CSRF check then dispatch: no contract of its own; `GuardedDispatchChecksCsrf` states that it refuses exactly the requests that need the secret and lack it and otherwise equals `DispatchOutcome` |
| RouteResolver.ClassName | src/core/RouteResolver.php:16-18 | a globbed file gives the namespace plus the file's base name, which ends in "Controller" |
| RouteResolver.AttrRegs | src/core/RouteResolver.php:22-30 | one registration per attribute, in order, each naming the class and the method |
| RouteResolver.GetRoutes | src/core/RouteResolver.php:12-34 | the loops build the table obtained by folding all registrations in file, method and attribute order |
| RouteResolver.AddFileRoutes | src/core/RouteResolver.php:17-32 | one file's loop extends the fold by that file's registrations |
| RouteResolver.AddMethodRoutes | src/core/RouteResolver.php:21-31 | one method's loop extends the fold by its attributes' registrations |
| RouteResolver.FoldLastWins | src/core/RouteResolver.php:26-29 | the handler stored for a method and path is the last registration for them |
| RouteResolver.BucketsOnlyForNamedMethods | src/core/RouteResolver.php:26-29 | a method has a bucket exactly when some attribute names it |
| RouteResolver.LastForPresent | src/core/RouteResolver.php:24-30 | every registration leaves its method and path registered |
| RouteResolver.RepeatKeepsPosition | src/core/RouteResolver.php:26-29 | registering a path again keeps the table's shape, so the first position of a repeated path is kept |
| RouteResolver.EveryAttributeRegistered | src/core/RouteResolver.php:17-33 | every attribute of every globbed controller is routed |
| RouteResolver.RegIndex | src/core/RouteResolver.php:17-31 | every attribute appears among the registrations with its class and method name |
| RouteResolver.RegsArePairs | src/core/RouteResolver.php:26-29 | every registration stores a two-element `[className, methodName]` list |
| RouteResolver.FoldWellFormed | src/core/RouteResolver.php:26-29 | folding pair registrations gives a table whose every entry is a pair |
| RouteResolver.RegisterWellFormed | src/core/RouteResolver.php:26-29 | one registration keeps the table well formed |
| RouteResolver.RoutesWellFormed | src/core/RouteResolver.php:12-34 | the table `getRoutes` returns is well formed |
| Csrf.Session.constructor | src/middleware/CSRFMiddleware.php:9-11 | a new session holds no CSRF token |
| Csrf.Session.GenerateToken | src/middleware/CSRFMiddleware.php:7-18 | the first call stores and returns the hex text of the random bytes; later calls return the stored token unchanged |
| Csrf.GenerateTwice | src/middleware/CSRFMiddleware.php:13-17 | two calls return the same token; from 32 random bytes it is 64 lower-case hex digits |
| Csrf.VerifyToken | src/middleware/CSRFMiddleware.php:20-36 | accepted exactly when the header is present, not falsy, and identical to `CSRF_SECRET` |
| Csrf.FalsySecretRejectsAll | src/middleware/CSRFMiddleware.php:30-35 | with no secret, or a falsy one, every request is rejected |
| Csrf.SessionTokenIgnored | src/middleware/CSRFMiddleware.php:20-36 | the token the session issued is accepted only if it happens to equal the secret; the secret itself is always accepted |
| SecurityUtils.Escape | src/Utils/SecurityUtils.php:14 | `htmlspecialchars` with ENT_QUOTES leaves no `<`, `>`, `"` or `'` and never shortens |
| SecurityUtils.Sanitized | src/Utils/SecurityUtils.php:8-20 | same keys in the same order; a string stays a string and any other value is left as it is |
| SecurityUtils.SanitizeRequestData | src/Utils/SecurityUtils.php:8-20 | the loop builds exactly the sanitized array |
| SecurityUtils.NoMarkupLeft | src/Utils/SecurityUtils.php:12-14 | a sanitized string value contains no markup-significant character |
| SecurityUtils.UnescapeEscape | src/Utils/SecurityUtils.php:14 | escaping loses nothing: decoding the entities gives back the input |
| SecurityUtils.NotIdempotent | src/Utils/SecurityUtils.php:14 | sanitizing twice double-escapes `&` |
| SecurityUtils.OnlyStringsChange | src/Utils/SecurityUtils.php:11-18 | keys are kept and non-string values pass through unchanged |
| TokenCodec.InitKeyStep | src/services/JWTServices.php:13-21 | a key that is not loosely null is kept; otherwise the environment value, or "", is stored; it throws exactly when the stored value is empty |
| TokenCodec.KeyFixedOnceSet | src/services/JWTServices.php:15 | once a non-empty key is set, no later call changes it or throws |
| TokenCodec.MissingKeyAlwaysThrows | src/services/JWTServices.php:15-19 | with the variable unset or empty, every call throws |
| TokenCodec.ZeroKeyThrowsOnlyOnce | src/services/JWTServices.php:15-19 | a key of "0" throws on the first call, then is kept and accepted |
| TokenCodec.Claims | src/services/JWTServices.php:31 | the payload gains `exp` = now + 24 h; every other claim is unchanged |
| TokenCodec.Issue | src/services/JWTServices.php:23-41 | the token is three dot-separated parts: header, claims, signature |
| TokenCodec.IssuedSignature | src/services/JWTServices.php:37-40 | the third part decodes to the HMAC of the first two parts joined by '.' |
| TokenCodec.IssuedPayload | src/services/JWTServices.php:34-40 | the second part decodes to the JSON of the claims |
| TokenCodec.Sign | src/services/JWTServices.php:36-38 | the signature part, base64url of the HMAC-SHA256 of header '.' payload: no contract of its own; `IssuedSignature` and `JwtServices.AcceptedMeansSigned` state that an issued token carries it and that only a token carrying it is accepted |
| TokenCodec.Expired | src/services/JWTServices.php:68-70 | `isset(exp) && exp < time()` with PHP's loose comparison: no contract of its own; `JwtServices.IssuedExpires` and `JwtServices.ExpiredBeforeSignature` state that an issued token expires after 24 hours and that expiry is decided before the signature |
| Base64Url.Sextets | src/services/JWTServices.php:45 | `n` bytes give `ceil(4n/3)` characters once the padding is trimmed |
| Base64Url.TrimPad | src/services/JWTServices.php:45 | `rtrim('=')` removes a suffix and leaves no trailing '=' |
| Base64Url.EncodeUnpadded | src/services/JWTServices.php:45 | base64url encoding is the URL alphabet over the sextets, without padding |
| Base64Url.EncodeAlphabet | src/services/JWTServices.php:43-46 | an encoded part contains no '+', '/', '=' or '.' |
| Base64Url.DecodeEncode | src/services/JWTServices.php:43-51 | decoding an encoded part gives back the bytes |
| ByteStrings.Explode | src/services/JWTServices.php:59 | `explode` gives at least one piece, and no piece contains the separator |
| ByteStrings.ExplodeCount | src/services/JWTServices.php:59-60 | the number of pieces is one more than the number of separators |
| ByteStrings.JoinExplode | src/services/JWTServices.php:59 | joining the pieces with the separator gives back the string |
| ByteStrings.ExplodeThree | src/services/JWTServices.php:40-62 | three separator-free parts joined by '.' split back into those three |
| ByteStrings.Bin2Hex | src/middleware/CSRFMiddleware.php:14 | two lower-case hex digits per byte |
| ByteStrings.HexRoundTrip | src/middleware/CSRFMiddleware.php:14 | the hex text determines the bytes (`hex2bin(bin2hex(b)) == b`) |
| JwtServices.VerifyWithKey | src/services/JWTServices.php:58-85 | a token that is not three parts is refused; accepted claims are an array |
| JwtServices.JWTServices.constructor | src/services/JWTServices.php:11 | the static key starts null |
| JwtServices.JWTServices.InitKey | src/services/JWTServices.php:13-21 | the key follows the key-initialisation step and the failure carries the missing-key message |
| JwtServices.JWTServices.Generate | src/services/JWTServices.php:23-41 | it fails exactly when the key step throws, with the missing-key message; otherwise it returns the issued token under the stored key |
| JwtServices.JWTServices.Verify | src/services/JWTServices.php:53-90 | a key failure gives null; otherwise it gives the verdict under the stored key |
| JwtServices.VerifyIssued | src/services/JWTServices.php:23-85 | an issued token verifies to its claims until it expires, inclusive of the expiry second |
| JwtServices.IssuedExpires | src/services/JWTServices.php:31-69 | after 24 h the issued token is refused |
| JwtServices.ExpiredBeforeSignature | src/services/JWTServices.php:67-83 | an expired payload is refused whatever its signature |
| JwtServices.AcceptedMeansSigned | src/services/JWTServices.php:72-85 | an accepted token carries the HMAC of its first two parts and has not expired |
| JwtServices.PaddedSignatureAccepted | src/services/JWTServices.php:48-51 | because base64_decode is lenient, appending '=' to a token does not change the verdict |
| JwtService.VerifyWithKey | src/services/JWTService.php:59-73 | with a key it never throws; a token that is not three parts gives `false` |
| JwtService.JWTService.constructor | src/services/JWTService.php:11 | the static key starts null |
| JwtService.JWTService.InitKey | src/services/JWTService.php:13-19 | the key follows the key-initialisation step |
| JwtService.JWTService.Generate | src/services/JWTService.php:21-41 | the same token as the other service, under the stored key |
| JwtService.JWTService.Verify | src/services/JWTService.php:55-74 | a missing key escapes as an exception; otherwise it gives the verdict under the stored key |
| JwtService.SignatureFirst | src/services/JWTService.php:64-67 | a bad signature gives `false` before expiry is looked at |
| JwtService.NoExpNeverExpires | src/services/JWTService.php:69-73 | a signed payload without `exp` is returned as it is, at any time |
| JwtService.VerifyIssued | src/services/JWTService.php:21-73 | an issued token verifies to its claims until expiry, then gives `false` |
| JwtService.AgreesWithJWTServices | src/services/JWTService.php:55-74 | the two services accept the same tokens with array payloads and return the same claims |
| ArticleModel.Lower | src/model/Article.php:29-31 | same length, no upper-case ASCII letter left, and each character is kept or is its upper-case letter lowered |
| ArticleModel.SetterFor | src/model/Article.php:29-31 | a key selects the setter whose name matches it case-insensitively, and no setter when no property matches |
| ArticleModel.SetterForProperty | src/model/Article.php:29-31 | every property's own key selects its setter |
| ArticleModel.ToArray | src/model/Article.php:168-183 | succeeds exactly when the four non-nullable properties are initialized, with eleven distinct keys |
| ArticleModel.Article.constructor | src/model/Article.php:22-25 | a new article is the blank article hydrated with the data |
| ArticleModel.Article.Set | src/model/Article.php:84-166 | a setter assigns the converted value, or raises a TypeError and changes nothing |
| ArticleModel.Article.Hydrate | src/model/Article.php:27-35 | the properties and the first error are those of the hydration function |
| ArticleModel.Hydrated | src/model/Article.php:27-35 | `hydrate` over an array, left to right, stopping at the first TypeError: no contract of its own; `HydratedAppend`, `UnknownKeysIgnored`, `TitleMustBeString`, `TagsDecoded` and `HydrateToArray` state its order, what it ignores, what it rejects and that it inverts `toArray()` |
| ArticleModel.Article.GenerateSlug | src/model/Article.php:186-197 | only the slug changes, and only when the title is not empty |
| ArticleModel.HydrateToArray | src/model/Article.php:168-183 | hydrating from `toArray()` reproduces the article |
| ArticleModel.HydratedAppend | src/model/Article.php:27-35 | hydration runs left to right and stops at the first TypeError |
| ArticleModel.UnknownKeysIgnored | src/model/Article.php:29-33 | keys without a setter change nothing |
| ArticleModel.TitleMustBeString | src/model/Article.php:108-112 | a non-string title raises a TypeError |
| ArticleModel.TagsDecoded | src/model/Article.php:155-166 | tags given as a string are JSON-decoded: an array is stored, null clears, anything else is a TypeError |
| ArticleModel.CollapseRuns | src/model/Article.php:190 | the result holds only `[a-z0-9]` and '-', and keeps a leading slug character |
| ArticleModel.CollapseNoDoubleDash | src/model/Article.php:190 | the result never has two dashes in a row |
| ArticleModel.TrimDashes | src/model/Article.php:191 | no leading or trailing '-', never longer than the input |
| ArticleModel.TrimDashesSlice | src/model/Article.php:191 | trimming is a contiguous slice of the input |
| ArticleModel.LastFour | src/model/Article.php:194 | `substr(…, -4)`: the last four characters, or all of them when there are fewer; digits stay digits |
| ArticleModel.BaseSlugShaped | src/model/Article.php:188-191 | a base slug is lower-case alphanumeric runs joined by single dashes |
| ArticleModel.BaseSlugIdempotent | src/model/Article.php:188-191 | slugifying a base slug changes nothing |
| ArticleModel.ShapedIsFixed | src/model/Article.php:188-191 | a well-shaped slug is its own base slug |
| ArticleModel.CollapseShaped | src/model/Article.php:190 | a text already made of slug characters and single dashes is left unchanged by the run-collapsing replacement |
| ArticleModel.BaseSlug | src/model/Article.php:188-191 | lower-case, collapse runs, trim dashes: no contract of its own; `BaseSlugShaped` and `BaseSlugIdempotent` state that the result is alphanumeric runs joined by single dashes and that slugifying it again changes nothing |
| ArticleModel.NewSlug | src/model/Article.php:186-197 | the slug `generateSlug()` would set: no contract of its own; `SlugOnlyForTitle` and `SlugSuffix` state that it exists exactly for a non-empty title and is the base slug, a dash and the last four digits of the time |
| ArticleModel.SlugOnlyForTitle | src/model/Article.php:186-188 | no slug is generated exactly when the title is unset, "" or "0" |
| ArticleModel.SlugSuffix | src/model/Article.php:186-197 | the slug is the base slug, '-', and the last one to four digits of the time |
| ArticleStore.TagsColumn | src/repository/ArticleRepository.php:53 | the `tags` column is null exactly when the tags are null or an empty array |
| ArticleStore.LinkRows | src/repository/ArticleRepository.php:64-75 | one link row per category, in array order |
| ArticleStore.CategoryIds | src/repository/ArticleRepository.php:113-116 | the link side of the categories JOIN: a value is listed for an article exactly when a link row joins that article to it |
| ArticleStore.Joined | src/repository/ArticleRepository.php:113-126 | the categories query gives at most one id per link of the article |
| ArticleStore.JoinedMembers | src/repository/ArticleRepository.php:113-126 | the categories query yields integers only, and yields category `c` exactly when table `categories` has `c` and some link of the article holds `c` |
| ArticleStore.JoinedKnownInts | src/repository/ArticleRepository.php:113-126 | links that all hold existing integer category ids come back unchanged and in order |
| ArticleStore.ColumnInt | src/repository/ArticleRepository.php:113-116 | the integer an `id_categories` value compares as in the JOIN: an integer or a non-empty digit string; no contract of its own, used by `Joined` and `JoinedMembers` |
| ArticleStore.Loaded | src/repository/ArticleRepository.php:113-129 | `new Article` on a fetched row plus its JOINed categories: no contract of its own; `LoadedCategories` and `ArticleApi.LoadedId` state that the article carries the JOIN's ids and the row's id |
| ArticleStore.Unlinked | src/repository/ArticleRepository.php:331-332 | the DELETE removes exactly the links of that article; `= NULL` removes none |
| ArticleStore.UpdatedRows | src/repository/ArticleRepository.php:299-325 | the UPDATE keeps the number of rows |
| ArticleStore.UpdateResult | src/repository/ArticleRepository.php:291-354 | `update()`: no contract of its own; `UpdateAllOrNothing`, `UpdateOnlyItsRow`, `UpdateUnknownIdSucceeds` and `UpdateReplacesLinks` state when it answers true, that it changes only its own row, and how it replaces the links |
| ArticleStore.FirstRow | src/repository/ArticleRepository.php:98-110 | the fetched row meets the condition of `getById` (the id) or of `getBySlug` (the slug); none is fetched exactly when no row meets it |
| ArticleStore.ById | src/repository/ArticleRepository.php:94-134 | null exactly when a statement fails or no row has the id |
| ArticleStore.BySlug | src/repository/ArticleRepository.php:141-181 | null exactly when a statement fails or no row has the slug |
| ArticleStore.FilterFor | src/repository/ArticleRepository.php:202-221 | each filter gives a condition of its own kind |
| ArticleStore.Conditions | src/repository/ArticleRepository.php:224-226 | the WHERE conditions are the filters' conditions, in order |
| ArticleStore.Params | src/repository/ArticleRepository.php:202-221 | the bound parameters are the filters' parameters, in order |
| ArticleStore.LoadAll | src/repository/ArticleRepository.php:253-271 | on success, one article per fetched row |
| ArticleStore.ArticleRepository.constructor | src/repository/ArticleRepository.php:15-18 | the repository starts on the given tables |
| ArticleStore.ArticleRepository.RollBack | src/repository/ArticleRepository.php:83 | the rows of both tables return to the snapshot taken at `beginTransaction`; the auto-increment counter keeps the value it reached |
| ArticleStore.ArticleRepository.Create | src/repository/ArticleRepository.php:25-87 | the tables, the article and the answer are those of the specification function, whose properties are the lemmas below |
| ArticleStore.CreateResult | src/repository/ArticleRepository.php:25-87 | `create()`: no contract of its own; `CreateAllOrNothing`, `CreatedRowFound`, `CreatedLinks`, `CreateSlug` and `CreateThenGetById` state the transaction's outcome, the appended row and links, the filled slug and the read-back |
| ArticleStore.ArticleRepository.Insert | src/repository/ArticleRepository.php:35-80 | the inserts inside the transaction follow the specification function |
| ArticleStore.Inserted | src/repository/ArticleRepository.php:35-80 | the row INSERT and one link INSERT per category: no contract of its own; `CreatedRowFound` and `CreatedLinks` state what a success appends, `CreateAllOrNothing` what a failure keeps |
| ArticleStore.ArticleRepository.InsertLinks | src/repository/ArticleRepository.php:64-75 | the category loop appends exactly the link rows, unless one of its statements fails; the article table is untouched |
| ArticleStore.ArticleRepository.Update | src/repository/ArticleRepository.php:291-354 | the tables and the answer are those of the specification function |
| ArticleStore.ArticleRepository.Load | src/repository/ArticleRepository.php:113-129 | a fresh article hydrated from the row and the ids its categories JOIN gives, or the TypeError |
| ArticleStore.ArticleRepository.GetById | src/repository/ArticleRepository.php:94-134 | null, a fresh article with the found fields, or the escaping error, as the specification function says |
| ArticleStore.ArticleRepository.GetBySlug | src/repository/ArticleRepository.php:141-181 | the same for a lookup by slug |
| ArticleStore.ArticleRepository.BuildQuery | src/repository/ArticleRepository.php:193-241 | the conditions and parameters are appended in the fixed filter order |
| ArticleStore.ArticleRepository.GetAll | src/repository/ArticleRepository.php:190-284 | the articles and total follow the specification function |
| ArticleStore.ArticleRepository.LoadRows | src/repository/ArticleRepository.php:252-271 | the loop hydrates one article per row, in order, or stops at the first error |
| ArticleStore.LoadAllFails | src/repository/ArticleRepository.php:253-283 | the first row that fails to hydrate makes the whole list fail with its error |
| ArticleStore.CategoryIdsOfLinkRows | src/repository/ArticleRepository.php:64-75 | the inserted links list the category array's values for the new article and nothing for any other |
| ArticleStore.CategoryIdsUnlinked | src/repository/ArticleRepository.php:331-343 | the DELETE removes all of one article's links and keeps every other article's |
| ArticleStore.CreateAllOrNothing | src/repository/ArticleRepository.php:27-86 | unless `create` returns the new id and advances the counter, both tables hold the rows they held; an Error changes nothing; a null answer leaves the counter where it was when the row INSERT failed and one further on when a link INSERT failed |
| ArticleStore.CreatedRowFound | src/repository/ArticleRepository.php:35-80 | a successful create appends exactly one row with a fresh id and keeps the ids unique |
| ArticleStore.CreatedLinks | src/repository/ArticleRepository.php:61-75 | the new article's categories are exactly its category array; other articles' links are unchanged |
| ArticleStore.CreateSlug | src/repository/ArticleRepository.php:41-43 | a non-empty slug is kept; an empty one is generated from the title |
| ArticleStore.UpdateAllOrNothing | src/repository/ArticleRepository.php:293-353 | unless `update` answers true the tables are unchanged; it answers true exactly when the article is initialized and no statement fails |
| ArticleStore.UpdateOnlyItsRow | src/repository/ArticleRepository.php:299-325 | rows with other ids are unchanged; the article's row keeps its id, owner and creation time |
| ArticleStore.UpdateUnknownIdSucceeds | src/repository/ArticleRepository.php:299-348 | an update of an id that no row has changes no row and still answers true |
| ArticleStore.UpdateReplacesLinks | src/repository/ArticleRepository.php:328-345 | with categories set, the article's links become exactly those categories; with null, the links are untouched |
| ArticleStore.HydratedCategoriesLast | src/repository/ArticleRepository.php:124-129 | the appended `categories` entry sets the loaded article's categories |
| ArticleStore.LoadedCategories | src/repository/ArticleRepository.php:113-129 | a loaded article's categories are the ids the categories JOIN gives for its row; no column of the row overrides them |
| ArticleStore.CreateThenGetById | src/repository/ArticleRepository.php:25-134 | after a successful create, `getById` on the returned id finds the created row; its categories are the given values that name an existing category, as integers, and exactly the given list when every value is an existing integer id |
| ArticleStore.ActiveFromEntries | src/repository/ArticleRepository.php:202-221 | every applied filter comes from a non-empty value of its own key |
| ArticleStore.ActiveFromSorted | src/repository/ArticleRepository.php:202-221 | filters are applied in the fixed order, each at most once |
| ArticleStore.ActiveFromComplete | src/repository/ArticleRepository.php:202-221 | every non-empty filter value is applied |
| ArticleStore.GetAllFilters | src/repository/ArticleRepository.php:202-221 | a filter kind is applied exactly when its value is not empty, in the fixed order |
| ArticleStore.ActiveFrom | src/repository/ArticleRepository.php:202-221 | the filters that apply, in the fixed order: no contract of its own; `ActiveFromEntries`, `ActiveFromSorted` and `ActiveFromComplete` state that exactly the non-empty filters apply, once each, in order |
| ArticleStore.GetAllResult | src/repository/ArticleRepository.php:190-284 | `getAll()`: no contract of its own; `GetAllShape` and `GetAllFilters` state the empty answer on an exception, the rows and total otherwise, and the filters applied |
| ArticleStore.WhereIffFilter | src/repository/ArticleRepository.php:224-226 | the WHERE clause is empty exactly when every filter value is empty |
| ArticleStore.AuthorIsContains | src/repository/ArticleRepository.php:208-211 | the author filter is a substring match on the username |
| ArticleStore.GetAllShape | src/repository/ArticleRepository.php:190-284 | a failing statement gives no articles and a total of 0; otherwise one article per fetched row and the counted total |
| ArticleApi.WithoutBearer | src/controller/ArticleController.php:46 | removing "Bearer " never lengthens the header |
| ArticleApi.NoBearerUnchanged | src/controller/ArticleController.php:46 | a header without "Bearer " is used as it is |
| ArticleApi.BearerStripped | src/controller/ArticleController.php:46 | "Bearer " followed by a token gives the token |
| ArticleApi.Verified | src/controller/ArticleController.php:50 | the key follows the initialisation step, and the verdict is that of the stored key |
| ArticleApi.WithTags | src/controller/ArticleController.php:83-90 | a non-empty tags value that is not a string is a TypeError; tags change only when the string decodes to an array |
| ArticleApi.Extension | src/controller/ArticleController.php:187 | the extension contains no '.' and no '/' |
| ArticleApi.AfterLast | src/controller/ArticleController.php:187 | the text after the last occurrence of a character, or none when it does not occur |
| ArticleApi.FileNameShape | src/controller/ArticleController.php:187-188 | the stored file name is `article_<id>_<uniqid>.` followed by a plain extension |
| ArticleApi.ArticleController.constructor | src/controller/ArticleController.php:17-20 | the controller uses the given repository |
| ArticleApi.ArticleController.Create | src/controller/ArticleController.php:23-134 | the tables, the key and the response follow the specification function |
| ArticleApi.CreateOutcome | src/controller/ArticleController.php:23-134 | `create()`: no contract of its own; `CreateNeedsHeader`, `TokenCheckedBeforeBody`, `ValidationAfterAuthentication`, `CreatedAfterAuthentication` and `CreateStoresOnlyOnSuccess` state the order of its checks and when it writes |
| ArticleApi.Authenticated | src/controller/ArticleController.php:45-59 | the token check of `create()`: no contract of its own; `AuthenticatedUser` and `AuthenticatedOutcome` state that an accepted token yields the user id and that the request then goes on to `Persisted` |
| ArticleApi.ArticleController.Persist | src/controller/ArticleController.php:68-133 | building and storing the article follows the specification function |
| ArticleApi.Persisted | src/controller/ArticleController.php:61-133 | the 400 guard, the build and the store: no contract of its own; `PersistedOnlyOnSuccess`, `PersistedIsStored` and `PersistedCreated` state when it writes and which row a 201 stored |
| ArticleApi.ArticleController.Build | src/controller/ArticleController.php:69-90 | a fresh article with the built fields, or the error hydration raised |
| ArticleApi.Built | src/controller/ArticleController.php:68-90 | `new Article`, `generateSlug()` and the tags step: no contract of its own; `BuiltFromTypedFields` and `BuiltArticle` state which requests build and the fields the article then holds |
| ArticleApi.Stored | src/controller/ArticleController.php:93-133 | the repository call and its response: no contract of its own; `StoredOnlyOnSuccess` and `StoredCreated` state that only a 201 writes and what it appends |
| ArticleApi.ArticleController.UploadImage | src/controller/ArticleController.php:137-245 | the tables, the moved file and the response follow the specification function |
| ArticleApi.UploadOutcome | src/controller/ArticleController.php:137-245 | `uploadImage($id)`: no contract of its own; `UploadRejections`, `UploadSetsCover`, `UploadStoresOnlyOnSuccess` and `MovedBeforeLookup` state its refusals, its 200 and when it writes |
| ArticleApi.UploadChecks | src/controller/ArticleController.php:143-194 | the header, file, type, directory, size and move checks: no contract of its own; `ChecksRejectWithError`, `UploadIgnoresToken` and `UploadAfterChecks` state that a failed check answers 400, 401 or 500 with nothing written |
| ArticleApi.ArticleController.AttachCover | src/controller/ArticleController.php:197-235 | the lookup, cover update and response follow the specification function |
| ArticleApi.CoverAttached | src/controller/ArticleController.php:197-235 | the lookup and the update after the move: no contract of its own; `CoverOfMissingArticle`, `CoverAttachedSets`, `CoverAttachedRewrites` and `CoverDropsUnknownLinks` state what its answers write |
| ArticleApi.CreateNeedsHeader | src/controller/ArticleController.php:39-43 | without an Authorization header: 401 "Token non fourni", nothing changes |
| ArticleApi.TokenCheckedBeforeBody | src/controller/ArticleController.php:48-59 | a refused token answers 401 "Token invalide" (or the Error) whatever the body, and stores nothing |
| ArticleApi.ValidationAfterAuthentication | src/controller/ArticleController.php:62-66 | once authenticated, an empty title or content answers 400 and stores nothing |
| ArticleApi.AuthenticatedUser | src/controller/ArticleController.php:50-54 | an accepted token always yields a non-null user id |
| ArticleApi.AuthenticatedOutcome | src/controller/ArticleController.php:45-66 | once authenticated, the outcome is that of building and storing the article |
| ArticleApi.NonStringTitleEscapes | src/controller/ArticleController.php:69-77 | a non-empty title that is not a string raises a TypeError that escapes, and stores nothing |
| ArticleApi.TypedArticleHydrated | src/controller/ArticleController.php:69-77 | string title, content and introduction with an integer user give exactly those properties |
| ArticleApi.HydratedFromTypedFields | src/controller/ArticleController.php:69-77 | hydration succeeds only with string title, content and introduction and an integer or null user |
| ArticleApi.BuiltFromTypedFields | src/controller/ArticleController.php:69-90 | a built article is the typed article, slugged, with its tags |
| ArticleApi.StoredOnlyOnSuccess | src/controller/ArticleController.php:93-133 | either 201 with the new id and the counter advanced, or the rows of both tables unchanged and no 201 |
| ArticleApi.PersistedOnlyOnSuccess | src/controller/ArticleController.php:68-133 | the same for building and storing |
| ArticleApi.CreateStoresOnlyOnSuccess | src/controller/ArticleController.php:23-134 | `create` changes the rows only when it answers 201 |
| ArticleApi.SluggedTyped | src/model/Article.php:186-197 | on a non-empty title, `generateSlug()` sets exactly the slug, base then dash then four digits of the time, and that slug is not empty |
| ArticleApi.TaggedOnlyInTags | src/controller/ArticleController.php:82-90 | the tags step changes only the tags, and leaves a non-empty list exactly when the field is a non-empty string that decodes to a non-empty array |
| ArticleApi.BuiltArticle | src/controller/ArticleController.php:68-90 | a built article holds the request's title, content and introduction, no cover, the token's user, the generated slug, and tags exactly as decoded |
| ArticleApi.StoredCreated | src/controller/ArticleController.php:93-113 | a 201 appends exactly the inserted row and keeps the tables consistent |
| ArticleApi.PersistedCreated | src/controller/ArticleController.php:68-113 | a 201 appends one row with the new id, the request's title and content and the token's user |
| ArticleApi.CreatedAfterAuthentication | src/controller/ArticleController.php:38-113 | a 201 implies a header, an accepted token and the authenticated outcome |
| ArticleApi.UploadIgnoresToken | src/controller/ArticleController.php:143-147 | `uploadImage` only checks that a header is present; its value is never verified |
| ArticleApi.UploadRejections | src/controller/ArticleController.php:143-162 | a missing or failed upload answers 400, and so does a type outside jpeg/png/webp; nothing changes |
| ArticleApi.ChecksRejectWithError | src/controller/ArticleController.php:143-194 | a failed check answers 400, 401 or 500 and changes no table |
| ArticleApi.MovedBeforeLookup | src/controller/ArticleController.php:191-202 | the file is moved exactly when the checks pass, even when the article does not exist |
| ArticleApi.CoverOfMissingArticle | src/controller/ArticleController.php:198-202 | after the move, a missing article leaves the tables as they were and answers 500 "Article non trouvé" |
| ArticleApi.UploadAfterChecks | src/controller/ArticleController.php:186-235 | after the checks, the outcome is that of attaching the cover |
| ArticleApi.CoverAttachedSets | src/controller/ArticleController.php:197-235 | a 200 sets the cover path of the article's rows and leaves every other article's row as it was; `CoverAttachedRewrites` states what else the update rewrites |
| ArticleApi.CoverAttachedRewrites | src/controller/ArticleController.php:197-235 | a 200 rewrites the id row's content columns from the article hydrated out of that row, so the tags column is re-encoded from the decoded tags and becomes NULL when they are empty; the article's links become exactly the ids the categories JOIN gave; other articles keep their links |
| ArticleApi.CoverDropsUnknownLinks | src/controller/ArticleController.php:197-235 | after a 200 the article links only integer ids of existing categories: a link to a missing category, or one holding no integer, is gone |
| ArticleApi.UploadSetsCover | src/controller/ArticleController.php:137-245 | a 200 implies the checks passed and the cover path was stored |
| ArticleApi.UploadStoresOnlyOnSuccess | src/controller/ArticleController.php:137-245 | `uploadImage` changes the tables only when it answers 200 |
| ArticleApi.HydratedKeepsId | src/model/Article.php:27-35 | hydration without an `id_article` key keeps the id |
| ArticleApi.LoadedId | src/repository/ArticleRepository.php:124-129 | a loaded article carries its row's id |
| UserStore.VerifiedFlag | src/repository/UserRepository.php:34 | `(int)` of the flag is 0 or 1 and non-zero exactly when verified |
| UserStore.SaveResult | src/repository/UserRepository.php:22-37 | a fault leaves the table unchanged with its message; otherwise exactly one row is appended and the counter advances |
| UserStore.SavedRow | src/repository/UserRepository.php:22-37 | the row `save()` inserts: no contract of its own; `SaveResult` and `SaveThenFindByEmail` state that a save appends it under the next id and that the e-mail finder returns it |
| UserStore.UpdatedRows | src/repository/UserRepository.php:176-200 | only the rows with the user's id are rewritten |
| UserStore.FirstWhere | src/repository/UserRepository.php:43-47 | the fetched row is a selected row of the table; none only when no row is selected |
| UserStore.ByToken | src/repository/UserRepository.php:40-76 | a missing token throws "Utilisateur non trouvé", a fault the generic message; a found user is stamped verified now |
| UserStore.ByColumn | src/repository/UserRepository.php:78-119 | null exactly when no row matches; it fails exactly on a fault, with the lookup message |
| UserStore.UserRepository.constructor | src/repository/UserRepository.php:17-20 | the repository starts on the given table |
| UserStore.UserRepository.Save | src/repository/UserRepository.php:22-37 | the table and the answer follow the save function |
| UserStore.UserRepository.Update | src/repository/UserRepository.php:176-200 | the table and the answer follow the update function |
| UserStore.UpdateResult | src/repository/UserRepository.php:176-200 | `update()`: no contract of its own; `UpdatePreservesConsistent`, `UpdateOnlyItsRow` and `UpdateIdempotent` state that ids are kept, only the user's row changes, and a second update changes nothing |
| UserStore.UserRepository.Select | src/repository/UserRepository.php:81-84 | the fetch returns the first selected row |
| UserStore.UserRepository.FindUserByToken | src/repository/UserRepository.php:40-76 | the result is that of the token lookup |
| UserStore.UserRepository.FindUserByEmail | src/repository/UserRepository.php:78-119 | the result is that of the lookup by e-mail |
| UserStore.UserRepository.FindUserByUsername | src/repository/UserRepository.php:121-162 | the result is that of the lookup by username |
| UserStore.UserRepository.Find | src/repository/UserRepository.php:78-162 | the shared body of the two finders |
| UserStore.RolesFallback | src/repository/UserRepository.php:107-112 | roles that do not decode to an array become `['ROLE_USER']` |
| UserStore.DecodedRoles | src/repository/UserRepository.php:107-112 | the decoded `role` column: no contract of its own; `RolesFallback` states that a non-array decode falls back to `['ROLE_USER']` and an array is kept |
| UserStore.FromRow | src/repository/UserRepository.php:91-112 | the user a finder builds from a row: no contract of its own; `SaveThenFindByEmail` and `RolesFallback` state that a saved user comes back with its id, fields and roles |
| UserStore.SavePreservesConsistent | src/repository/UserRepository.php:22-37 | saving keeps ids unique and below the counter |
| UserStore.UpdatePreservesConsistent | src/repository/UserRepository.php:176-200 | updating keeps ids unique and below the counter |
| UserStore.UpdateOnlyItsRow | src/repository/UserRepository.php:176-200 | other rows are unchanged; the user's row takes the user's columns and keeps its id and creation time |
| UserStore.UpdateIdempotent | src/repository/UserRepository.php:176-200 | updating twice with the same user is the same as once |
| UserStore.FirstWhereAppend | src/repository/UserRepository.php:43-47 | appending rows never changes a match already found |
| UserStore.SaveThenFindByEmail | src/repository/UserRepository.php:22-119 | a saved user with a new e-mail is found by it, with the new id |
| UserStore.FaultChangesNothing | src/repository/UserRepository.php:28-36 | a failing `save` or `update` leaves the table as it was |
| UserApi.Validation | src/controller/UserController.php:25-58 | it fails exactly when a lookup runs and faults, with the lookup message; existing users are never reported |
| UserApi.NewUser | src/controller/UserController.php:74-83 | the user gets the password hash and the e-mail token; defaults are "" and "avatar_par_defaut.png"; a non-string field is a TypeError |
| UserApi.ClaimsOf | src/controller/UserController.php:140-144 | the token's payload keys are id, email and role |
| UserApi.UserController.constructor | src/controller/UserController.php:20-23 | the controller uses the given repository |
| UserApi.UserController.ValidateUniqueUserData | src/controller/UserController.php:25-58 | the result is that of the validation function on the current table |
| UserApi.UserController.Register | src/controller/UserController.php:63-107 | the table and the response follow the specification function |
| UserApi.RegisterOutcome | src/controller/UserController.php:63-107 | `register()`: no contract of its own; `RegisterIgnoresExistingUsers`, `RegisterSaves`, `RegisterWritesOnlyOnSuccess` and `RegisteredTokenVerifies` state its answers and what it writes |
| UserApi.Enrolled | src/controller/UserController.php:84-106 | validation, save and the e-mail step: no contract of its own; `EnrolledWritesOnlyOnSuccess` states that it answers 200 or 400 and writes exactly on 200 |
| UserApi.UserController.Login | src/controller/UserController.php:111-163 | the key and the response follow the specification function |
| UserApi.LoginOutcome | src/controller/UserController.php:111-163 | `login()`: no contract of its own; `LoginAnswers`, `LoginRefusesAfterLookup`, `LoginSucceeds` and `LoginTokenVerifies` state its answers and the token it returns |
| UserApi.UserController.Admit | src/controller/UserController.php:131-155 | the password and verification checks follow the specification function |
| UserApi.Admitted | src/controller/UserController.php:131-162 | the password and verification checks: no contract of its own; `AdmittedAnswers` states that it answers 200 or 401 and when the key changes |
| UserApi.UserController.Grant | src/controller/UserController.php:139-155 | token issue and the answer follow the specification function |
| UserApi.Granted | src/controller/UserController.php:139-155 | the token issued on success: no contract of its own; `LoginTokenVerifies` and `ClaimsOfLookup` state that the token verifies to id, e-mail, role and `exp` |
| UserApi.UserController.VerifyEmail | src/controller/UserController.php:167-197 | the table and the response follow the specification function |
| UserApi.VerifyEmailOutcome | src/controller/UserController.php:167-197 | `verifyEmail()`: no contract of its own; `VerifyEmailAnswers` and `VerifyEmailConfirms` state its answers and that a 200 confirms exactly the first row holding the token |
| UserApi.RegisterSkipsLookups | src/controller/UserController.php:25-84 | because the new user is passed as the current user, neither lookup ever runs during registration |
| UserApi.RegisterIgnoresExistingUsers | src/controller/UserController.php:63-107 | the response to a registration does not depend on which users exist |
| UserApi.EmailTokenShape | src/controller/UserController.php:72 | the e-mail token is 64 lower-case hex digits, never falsy |
| UserApi.RegisterSaves | src/controller/UserController.php:72-98 | a 200 appends exactly the new row (hashed password, token, unverified) and answers with the sanitized data |
| UserApi.EnrolledWritesOnlyOnSuccess | src/controller/UserController.php:84-106 | after the user is built, the answer is 200 or 400, and the table changes exactly on 200 |
| UserApi.RegisterWritesOnlyOnSuccess | src/controller/UserController.php:63-107 | `register` answers 200 or 400 (or an Error), and changes the table exactly when it answers 200 |
| UserApi.LoginAnswers | src/controller/UserController.php:111-163 | `login` answers 200 or 401; the key changes only when it answers 200 or the missing-key 401 |
| UserApi.AdmittedAnswers | src/controller/UserController.php:131-162 | the same, from the password check on |
| UserApi.LoginRefusesAfterLookup | src/controller/UserController.php:126-137 | an unknown e-mail and a wrong password give the same 401 "Identifiants incorrects"; an unverified user gets the verification message |
| UserApi.LoginSucceeds | src/controller/UserController.php:113-155 | a 200 implies non-empty credentials, the first user with that e-mail, a matching password and a verified user, and answers with the issued token |
| UserApi.LoginTokenVerifies | src/controller/UserController.php:139-144 | the login token verifies to the user's id, e-mail and roles, expiring 24 h later |
| UserApi.ClaimsOfLookup | src/controller/UserController.php:140-144 | the signed claims carry the id, e-mail, roles and expiry |
| UserApi.VerifyEmailAnswers | src/controller/UserController.php:167-197 | `verifyEmail` always answers 200 or 400 with JSON, writes only on 200, and a missing token gives "Token manquant!" |
| UserApi.ConfirmRewritesRow | src/controller/UserController.php:178-181 | confirming rewrites only that row: token cleared, verified, stamped now |
| UserApi.VerifyEmailConfirms | src/controller/UserController.php:167-188 | a 200 confirms the first row holding the token and leaves every other row unchanged |
| UserApi.RegisteredTokenVerifies | src/controller/UserController.php:72-188 | the token a registration e-mails verifies that new user |
| PhpNumeric.DigitStringIsInt | src/core/Router.php:37-38 | a digit string is numeric, and within the 64-bit range it becomes an int |
| PhpNumeric.NoDigitNotNumeric | src/core/Router.php:37 | a string without digits is not numeric |
| PhpNumeric.ParseNumeric | src/core/Router.php:37-38 | PHP's numeric-string reading: no contract of its own; `DigitStringIsInt`, `NoDigitNotNumeric` and `Router.CoerceIntToString` state that digit strings read as their value, strings without digits are not numeric, and 64-bit decimals read back as ints |
| PhpNumeric.IsNumeric | src/core/Router.php:37 | `is_numeric`: no contract of its own; `Router.Coerce` states that a parameter becomes a number exactly when it holds |

## Left out

- CSRF enforcement: the code never calls `verifyToken`, so `Router.Dispatch` follows the code and checks no token. `Router.GuardedOutcome` is the corrected dispatch (see Findings). The middleware itself names no methods and no exempt paths, so the corrected guard defines its own in `Router.NeedsCsrf`. It covers the state-changing methods POST, PUT, DELETE and PATCH, because reads change nothing. It exempts `/api/login` and `/api/register`, because they are the entry points a client calls before it has been given anything, the secret included. A refused request ends as `CsrfRejected`, meant to be answered with 403, and no handler runs. The refusal's body is not modelled.
- Regular expressions: the PCRE engine is a parameter (`Matcher`). The routing lemmas about registered paths assume paths without metacharacters and a literal matcher.
- Floats: a numeric parameter that is not an integer becomes a float. It is modelled as an exact real, because floating-point rounding is not modelled.
- Reflection and `glob` are replaced by the list of controller files and their declared methods and attributes.
- SQL: statement text, PDO, the database driver and the row order of an unordered SELECT are not modelled. Tables are sequences and the first matching row is taken. `getAll`'s two statements are run by a parameter that returns the rows and the total, so only the query builder and the hydration loop are modelled. The per-row categories query of `getAll` is not faulted separately.
- ArticleStore.ColumnInt: the INT column `articles_categories.id_categories` is modelled for bound integers and strings of decimal digits. Any other bound value (a signed or padded string, a float, a boolean, null) is taken to link no category, instead of the database's own conversion or error.
- The `categories` table is the set of its ids; its other columns are not read by the core. The categories JOIN has no ORDER BY, so link-table order is taken.
- Auto-increment: a row INSERT that fails is taken not to consume an id. One that succeeded keeps its id after a rollback.
- Column types: `src/core/Database.php` is not part of this model. Native column types are assumed for fetched rows: ints for ids, strings or null elsewhere.
- `author_name`, joined by the article SELECTs, is not modelled: `Article` has no setter for it, so hydration ignores it.
- `src/model/User.php` is not part of this model. `User` is a record of the properties the repository and controller use. Its constructor is assumed to assign those properties from the array keys. Under strict types, a non-string username, e-mail or avatar is taken as a TypeError.
- The avatar is built in `register` but `save` does not store it, so the row has no avatar column.
- `MailService::sendEmailVerification` is not part of this model. It is taken to return normally.
- `findUserById` is not modelled: no modelled action calls it. Its read of a `roles` column that the table lacks is not modelled either.
- The filesystem (`is_dir`, `mkdir`, `chmod`, `is_writable`, `move_uploaded_file`, `unlink`) is a record of answers. Deleting the old cover image is not modelled.
- `uploadImage`: as registered, the action cannot be called with an id (see Findings). Its route path `/api/articles/{id}/image` is stored as written, so its pattern has no group. A URI with a real id finds no route, and the literal URI would call the action with no argument. `ArticleApi.ArticleController.UploadImage` takes the id directly, as a route that captures it would pass it.
- Logging (`error_log`, `print_r`) is not modelled.
- A request value that is not a string (an e-mail, username or token given as a number or an array) is taken to select no row, instead of PDO's string conversion.
- `$_GET['token']` is taken to be a string or absent.
- Error mode: PDO's exception mode is assumed. `execute` raises instead of returning false, so the answers "erreur lors de la sauvegarde" and "erreur lors de la mise a jour" are modelled but unreachable.
- UserApi.UserController.Register: requires that `json_decode` never repeats a key in an array it builds (`DecodesToArrays`); PHP's decoder keeps the last value of a repeated key.
- UserApi.UserController.Login: the same requirement on the decoded body.
- UserApi.EmailTokenShape: requires `random_bytes(32)` to give 32 bytes; the byte source is a parameter.
- UserApi.RegisterWritesOnlyOnSuccess: requires 32 random bytes, so that the token is never falsy.
- JwtService.JWTService.InitKey: the failure message of this copy (it differs by a few words from the other service's) is not stated in the contract.
- JSON encoding and decoding, HMAC-SHA256, `strip_tags`, the UTF-8 check of `htmlspecialchars`, `password_hash`/`password_verify`, `uniqid`, `time()` and `DateTime` are parameters. The round-trip lemmas require `json_decode(json_encode(x)) == x` for the values involved.

## Findings

| source | as written | input that shows it | evidently intended | confidence | as-written member | corrected member |
|---|---|---|---|---|---|---|
| src/core/Router.php:27-28 | the handler is read as `$routeInfo['className']` and `$routeInfo['methodName']`, but `RouteResolver` stores the positional list `[className, methodName]`; both reads give null and `new null()` raises an Error | a POST to `/api/login` when `UserController::login` is registered for it: the route matches, then the action is never called | read the pair positionally (`$routeInfo[0]`, `$routeInfo[1]`) so the matched action is invoked | not executed | Router.AsWrittenNeverInvokes | Router.CorrectedInvokesRegisteredHandler |
| src/core/RouteResolver.php:25-28 | the attribute's path is the table key as written, and `Router` matches it as a regular expression; `{id}` is not a PCRE group, so `uploadImage(int $id)` never receives its id | a POST to `/api/articles/5/image` finds no route; a POST to the literal `/api/articles/{id}/image` calls `uploadImage()` with no argument, an ArgumentCountError | turn each `{name}` segment into the named group `(?P<name>...)` so the matched value is passed on | not executed | Router.PlainRoutesPassNoArgs | Router.NamedGroupPassesId |
| public/index.php:17-20 | the front controller dispatches every request directly; `CSRFMiddleware::verifyToken` is never called | a POST to `/api/articles` without an `X-CSRF-Token` header reaches `ArticleController::create` | check the header first for POST, PUT, DELETE and PATCH outside login and register, and refuse with 403 when it is not the secret | not executed | Router.UnverifiedRequestInvokes | Router.GuardedDispatchChecksCsrf |
