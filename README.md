# go-build-test: a Dafny model of the store and service rules

This project models the core of the `go-build-test` demonstration
microservice.

The first part is the single-file service in `simple-main.go`. Its
in-memory store `MemoryDB` holds two independent collections, users and
products. Each collection has its own identity counter. The store is a
Dafny class whose fields the create operations update in place. `splitPath`
cuts a URL path into its non-empty segments, and is modelled as a loop
proved against a recursive reference definition.

The second part is the decision rules of the layered service under
`internal/`:

- the user and product services: the uniqueness-check order, the update
  maps, the page offset, the list response and the cache keys;
- the login decision;
- the bearer-token and CORS middleware;
- the logger's field parsing and level selection;
- configuration loading from the environment.

The repositories, Redis, bcrypt and the JWT library are not part of the
model. Their answers reach the model as parameters: a `Result` for a
lookup, a function for a hash, a token or an update.

Modules, one per file:

- `Common` (`common.dfy`): `Option`, `Result`, the `Error` of a lookup
  (`NotFound` or a message), and `Value`, which stands in for `interface{}`.
- `SimpleMain` (`simple_main.dfy`): `MemoryDB`, its invariant, and two
  usage scenarios.
- `PathSplit` (`path_split.dfy`): `splitPath`.
- `Decimal` (`decimal.dfy`): the `%d` rendering of an identity, with its
  inverse, used by the cache keys.
- `UserService`, `ProductService`, `AuthService`, `Middleware`, `Logger`,
  `Config`: the service rules.

Identity 1 is reused. Both counters of `MemoryDB` start at 1 while key 1
already holds a seeded record. The first create of each kind therefore
overwrites the seed. A reader might expect identities never to be reused;
the code reuses identity 1, and the model follows the code: the invariant
`Valid` says that the keys are exactly 1 .. max(counter, 2) − 1.
`SimpleMain.FirstCreateReplacesSeed` shows the overwrite.

## Model

| member | source | states |
|---|---|---|
| SimpleMain.MemoryDB.constructor | simple-main.go:51-81 | each collection holds exactly the seeded record at key 1, whose identity is 1, stamped with its own clock reading; both counters are 1; the store invariant holds |
| SimpleMain.MemoryDB.GetAllUsers | simple-main.go:83-92 | the list has one entry per stored user (counter-derived size); every entry is the record stored under its identity; every stored user appears; no identity appears twice |
| SimpleMain.MemoryDB.GetUserByID | simple-main.go:94-100 | found exactly when the key is present; then the stored record, whose identity is the key; otherwise nothing; state unchanged |
| SimpleMain.MemoryDB.CreateUser | simple-main.go:102-111 | the record gets the current user counter as identity and the given time; it is stored under that key and returned; the user counter advances by one; products and their counter are untouched; the invariant is kept |
| SimpleMain.MemoryDB.GetAllProducts | simple-main.go:113-122 | as GetAllUsers, for products |
| SimpleMain.MemoryDB.GetProductByID | simple-main.go:124-130 | as GetUserByID, for products |
| SimpleMain.MemoryDB.CreateProduct | simple-main.go:132-142 | as CreateUser on the product side, and the stored product is active whatever the caller sent; users and their counter are untouched |
| SimpleMain.AssignedNext | simple-main.go:106-109 | a create at counter c adds exactly key c to the set of keys in use |
| SimpleMain.AssignedSize | simple-main.go:55-60 | a collection with counter c holds max(c, 2) − 1 records: one (the seed) before any create, n after n creates |
| SimpleMain.FirstCreateReplacesSeed | simple-main.go:55-60 | on a fresh store the first CreateUser lands on key 1, and the listing then holds only that new user: the seed is overwritten |
| SimpleMain.CountersAreIndependent | simple-main.go:102-142 | after any number of user creates, the first product created still gets identity 1 and is active; the user side holds one record per create, or the seed when there was none |
| PathSplit.SplitPath | simple-main.go:396-419 | the loop's result equals the reference segmentation of the path |
| PathSplit.SegmentsSpec | simple-main.go:404-416 | no segment is empty or contains '/'; the segments concatenate to the path with every '/' removed |
| PathSplit.SegmentsFromWord | simple-main.go:406-415 | a run of non-slash characters becomes one segment |
| PathSplit.SegmentsFromSlash | simple-main.go:407-411 | a slash ends the current segment; an empty segment is dropped |
| PathSplit.WordThenSlash | simple-main.go:407-410 | a non-empty word followed by '/' becomes exactly one segment |
| PathSplit.LastWord | simple-main.go:414-416 | a non-empty word at the end of the path is the last segment |
| PathSplit.FourSegments | simple-main.go:396-419 | "/a/b/c/d" with four non-empty slash-free words splits into [a, b, c, d] |
| PathSplit.SegmentsOfUserRoute | simple-main.go:396-419 | "/api/v1/users/5" splits into ["api", "v1", "users", "5"] |
| Decimal.Format | internal/service/user_service.go:92 | the rendering of an identity is a non-empty string of decimal digits with no leading zero (only 0 itself starts with '0') |
| Decimal.ParseFormat | internal/service/user_service.go:92 | parsing the rendering gives back the identity |
| Decimal.FormatInjective | internal/service/product_service.go:64 | distinct identities never share a rendering |
| UserService.CacheKey | internal/service/user_service.go:92 | the key is "user:" followed by the canonical decimal rendering of the identity, which parses back to it |
| UserService.CacheKeyInjective | internal/service/user_service.go:143 | two users never share a cache key |
| UserService.CreateUser | internal/service/user_service.go:42-87 | username first, then e-mail: a taken name or address gives its message; other lookup, hash and insert errors pass up unchanged; success only when both lookups are "not found", with the request's fields, the hashed password, active, numbered by the insert |
| UserService.UsernameCheckedFirst | internal/service/user_service.go:46-54 | once the username lookup finds a user or fails, the e-mail lookup cannot change the outcome |
| UserService.GetUser | internal/service/user_service.go:90-114 | a cache hit answers without a write; a miss returns the repository's answer and caches a found user for 5 minutes under its key |
| UserService.BuildUserUpdates | internal/service/user_service.go:128-134 | the map holds "full_name" exactly when the full name is non-empty and "is_active" exactly when the flag is present, with the request's values, and nothing else |
| UserService.UserUpdateUnique | internal/service/user_service.go:128-134 | the update rule determines the map: two maps that fit a request are equal |
| UserService.UserUpdateSparesCredentials | internal/service/user_service.go:128-134 | an update never touches the username, the e-mail or the password |
| UserService.UpdateUser | internal/service/user_service.go:117-151 | a failed existence check is returned and nothing is sent; otherwise the update rule's map is sent; a repository failure is returned without eviction; on success the user's cache key is evicted and the re-read user returned |
| UserService.DeleteUser | internal/service/user_service.go:154-170 | a repository failure is returned and nothing is evicted; on success the user's cache key is evicted |
| UserService.ListUsersWindow | internal/service/user_service.go:173-176 | the limit is passed on unchanged; the offset is non-negative for page ≥ 1 and limit ≥ 0 |
| UserService.PagesAdjacent | internal/service/user_service.go:174 | page 1 starts at row 0 and page p + 1 starts where page p ends |
| UserService.RowOnOnePage | internal/service/user_service.go:174 | with a positive limit, a row lies in the window of page p exactly when p = row / limit + 1 |
| ProductService.CacheKey | internal/service/product_service.go:64 | the key is "product:" followed by the canonical decimal rendering of the identity, which parses back to it |
| ProductService.CacheKeyInjective | internal/service/product_service.go:127 | two products never share a cache key |
| ProductService.CacheKeysDisjoint | internal/service/product_service.go:147 | a product key never equals a user key |
| ProductService.CreateProduct | internal/service/product_service.go:40-59 | name, description, price, stock and category are copied from the request, the product is active and numbered by the insert; an insert failure is returned |
| ProductService.GetProduct | internal/service/product_service.go:62-86 | a cache hit answers without a write; a miss returns the repository's answer and caches a found product for 10 minutes under its key |
| ProductService.BuildProductUpdates | internal/service/product_service.go:100-118 | each string field is in the map exactly when non-empty, each pointer field exactly when present, with the request's value, and no other key |
| ProductService.ProductUpdateUnique | internal/service/product_service.go:100-118 | the update rule determines the map: two maps that fit a request are equal |
| ProductService.EmptyRequestEmptyUpdate | internal/service/product_service.go:100-118 | a request that sets nothing yields an empty map |
| ProductService.UpdateProduct | internal/service/product_service.go:89-135 | a failed existence check is returned and nothing is sent; otherwise the update rule's map is sent; a repository failure is returned without eviction; on success the product's cache key is evicted and the re-read product returned |
| ProductService.DeleteProduct | internal/service/product_service.go:138-154 | a repository failure is returned and nothing is evicted; on success the product's cache key is evicted |
| ProductService.ListProducts | internal/service/product_service.go:157-170 | a repository failure is returned; otherwise as many products as were fetched, every one zero-valued, with the repository's total and the query's page and limit |
| ProductService.ListIgnoresFetchedContents | internal/service/product_service.go:164-169 | the response depends only on how many products were fetched, not on which |
| AuthService.Login | internal/service/auth_service.go:37-76 | not found gives the credentials error; any other lookup error passes up; a disabled user is refused; a wrong password gives the credentials error; a token failure passes up; success exactly when active, password accepted and token issued for the user's identity and name, with that token and the user |
| AuthService.UnknownUserLooksLikeWrongPassword | internal/service/auth_service.go:42-61 | an unknown username and a wrong password give the same answer |
| AuthService.DisabledBeforePassword | internal/service/auth_service.go:52-61 | for a disabled user the password check cannot change the outcome |
| Middleware.TrimPrefix | internal/middleware/middleware.go:88 | a string that starts with the prefix is the prefix followed by the result; any other string is returned unchanged |
| Middleware.ClassifyAuthHeader | internal/middleware/middleware.go:78-98 | missing exactly when empty; malformed exactly when non-empty and not starting with "Bearer "; otherwise the header is "Bearer " followed by the token |
| Middleware.BarePrefixGivesEmptyToken | internal/middleware/middleware.go:88-98 | "Bearer " alone passes an empty token to the validator |
| Middleware.OnlyOnePrefixStripped | internal/middleware/middleware.go:88 | only one leading "Bearer " is removed |
| Middleware.Context.constructor | internal/middleware/middleware.go:76-77 | a fresh context holds the request and an untouched response |
| Middleware.Cors | internal/middleware/middleware.go:60-73 | the three allow headers are set; OPTIONS stops with 204 and never runs the next handler; any other method runs it with status and abort flag unchanged |
| Middleware.Reject | internal/middleware/middleware.go:80-85 | the request is aborted with 401 and the JSON error body carrying the message; a JSON Content-Type is added unless one is set, other headers stay; keys and the next-handler flag are unchanged |
| Middleware.JsonRenderingKeepsHeaders | internal/middleware/middleware.go:80-83 | rendering the JSON error keeps every header already set (the CORS headers included) and adds only Content-Type, with the JSON value when none was set |
| Middleware.Auth | internal/middleware/middleware.go:76-112 | missing header, malformed header and refused token each abort with 401 and their message as a JSON body, with the JSON Content-Type, without running the next handler; a valid token stores user_id and username from the claims and runs the next handler |
| Logger.LevelFor | internal/logger/logger.go:34-45 | "debug", "warn" and "error" select their level; every other name, "info" included, selects Info |
| Logger.ParseFields | internal/logger/logger.go:78-90 | the loop's result equals the pairwise reference reading of the arguments |
| Logger.ParsedSpec | internal/logger/logger.go:79-89 | no input gives no fields; at most one field per pair; the keys are exactly the string keys of complete pairs; a trailing element is ignored |
| Logger.ParsedFromKeys | internal/logger/logger.go:81-85 | a key is present exactly when it was already there or some complete pair carries it as a string key |
| Logger.ParsedFromLastWins | internal/logger/logger.go:84 | a key gets the value of the last pair that carries it |
| Logger.ParsedFromUntouched | internal/logger/logger.go:83-85 | a key no pair carries keeps its earlier value, or stays absent |
| Logger.ParsedFromSize | internal/logger/logger.go:81-86 | each pair adds at most one field |
| Logger.ParsedFromTrailing | internal/logger/logger.go:82 | an element without a partner changes nothing |
| Logger.HasPairShift | internal/logger/logger.go:81 | stepping past the first pair renumbers the remaining pairs by one |
| Config.GetEnv | internal/config/config.go:29-34 | a set, non-empty variable wins; unset and empty both give the default; the result is empty only if the default is |
| Config.Load | internal/config/config.go:18-27 | each field is getEnv of its own variable with its own default (ENVIRONMENT/development, PORT/8080, DATABASE_URL/./microservice.db, REDIS_URL/redis://localhost:6379, JWT_SECRET/my-secret-key, LOG_LEVEL/info); no field is ever empty |
| Config.LoadReadsEnvironment | internal/config/config.go:19-26 | a variable that is set and non-empty becomes the value of its field |
| Config.LoadDefaults | internal/config/config.go:20-25 | with nothing set: development, 8080, ./microservice.db, redis://localhost:6379, my-secret-key, info |
| Config.LoadFieldsIndependent | internal/config/config.go:19-26 | each field depends only on its own variable |

## Left out

- HTTP serving and JSON are not modelled: `main`, the `*Handler` functions, `sendJSONResponse` and `sendErrorResponse` in simple-main.go, internal/api/handler.go and the wiring in main.go. They are net/http and gin dispatch plus encoding.
- The `sync.RWMutex` of `MemoryDB` is not modelled. Each store operation is one atomic method.
- `time.Now()` is not modelled. The creation time is a parameter of the constructor and of the create methods.
- `MemoryDB`'s `uint` counters are `nat`, so wrap-around after 2^64 creates is not modelled.
- SimpleMain.MemoryDB.CreateUser: the store keeps a copy of the record rather than the caller's `*User`. The Go store aliases the caller's struct and writes the identity and time into it, so later changes by the caller are visible in the store; the model does not capture this aliasing. The same holds for CreateProduct and for the pointers the getters return.
- SimpleMain.MemoryDB.GetAllUsers: Go's map iteration order is randomised. The model leaves the order unspecified (the loop picks any pending key) and does not model the randomness. The same holds for GetAllProducts.
- PathSplit.SplitPath: the first loop of `splitPath`, over two empty strings, appends nothing and is not modelled. Its Go `range` walks runes with byte offsets, while the model walks characters. The split points agree because '/' is a single byte in UTF-8.
- Prices are `real` and only copied. The float comparison in the product handler and the price filter of the repository are left out.
- The repositories (internal/repository) are not part of this model. A lookup becomes its `Result`, an insert a function from the record to its new identity, an update or delete its optional error. The SQL filtering and ordering of `List` are not modelled. `ListUsers` itself is only its offset computation.
- UserService.ListUsersWindow: Go `int` overflow of `(page-1)*limit` is not modelled. Integers are unbounded.
- The Redis client (internal/cache/redis.go) is not part of this model. A read becomes a map from key to record, a write the `CacheWrite` returned, an eviction the key returned. Cache write failures, which the source only logs, are not modelled.
- JWT signing and validation (internal/auth/jwt.go) are abstract functions, and `ValidateToken` in the auth service only forwards to them.
- `HashPassword` and `CheckPassword` are abstract functions.
- Logging calls throughout the services, the logrus formatter and output, and the `Debug`/`Info`/`Warn`/`Error`/`Fatal` methods are not modelled. Of the logger only the level choice and `parseFields` are.
- The `Logger` and `Recovery` middleware are not modelled. `Logger` only logs each request; `Recovery` logs a panic and answers 500 with the JSON error `{"success": false, "message": "内部服务器错误"}`, then aborts. Panics are outside the model.
- Middleware.Auth: gin's `Next` and `Abort` are recorded as flags on the context. What the next handler does is not modelled. Of gin's JSON rendering only the Content-Type header and the body's two fields are modelled, not the encoded bytes.
- Middleware.Context.GetHeader: request headers are keyed by their canonical names; the canonicalisation net/http applies to a looked-up name is not modelled.
- Logger.ParseFields: `interface{}` values are limited to the kinds of `Value` (string, integer, float, boolean). Non-string keys of other kinds behave the same way and are skipped.
- internal/database/database.go, the model declarations under internal/models and experiment.go are not modelled. They are connection and migration code, plain type declarations and constant demo functions.
