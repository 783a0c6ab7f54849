/** The user service: the checks and record building around the user
    repository. The repository, the Redis cache and the password hasher are
    outside the model; their answers arrive as parameters. */
module UserService {
  import opened Common
  import Decimal

  /** A stored user as the repository returns it. */
  datatype UserRecord = UserRecord(
    id: nat,
    username: string,
    email: string,
    password: string,
    fullName: string,
    isActive: bool)

  datatype CreateUserRequest = CreateUserRequest(
    username: string,
    email: string,
    password: string,
    fullName: string)

  /** An absent `IsActive` pointer is `None`. */
  datatype UpdateUserRequest = UpdateUserRequest(fullName: string, isActive: Option<bool>)

  /** The column -> value map handed to the repository's Update. */
  type Updates = map<string, Value>

  /** A cache entry written by the service, with its time to live. */
  datatype CacheWrite = CacheWrite(key: string, user: UserRecord, ttlMinutes: nat)

  datatype PageWindow = PageWindow(offset: int, limit: int)

  const UsernameTaken: string := "用户名已存在"
  const EmailTaken: string := "邮箱已存在"
  const UserCacheTtlMinutes: nat := 5

  /** The Redis key of one user. */
  function CacheKey(id: nat): (key: string)
    ensures |key| > 5 && key[..5] == "user:" && Decimal.Parse(key[5..]) == id
    ensures key[5..] == Decimal.Format(id)
  {
    Decimal.ParseFormat(id);
    assert ("user:" + Decimal.Format(id))[5..] == Decimal.Format(id);
    "user:" + Decimal.Format(id)
  }

  /** Two users never share a cache entry. */
  lemma CacheKeyInjective(a: nat, b: nat)
    requires CacheKey(a) == CacheKey(b)
    ensures a == b
  {
    assert CacheKey(a)[5..] == CacheKey(b)[5..];
  }

  /** CreateUser: the username is checked first, then the e-mail; a lookup
      error other than "not found" is passed up unchanged. Only when neither
      exists is the password hashed and the user inserted, active. */
  function CreateUser(
    req: CreateUserRequest,
    byUsername: Result<UserRecord>,
    byEmail: Result<UserRecord>,
    hashPassword: string -> Result<string>,
    insert: UserRecord -> Result<nat>): (r: Result<UserRecord>)
    ensures byUsername.Err? && byUsername.error != NotFound ==> r == byUsername
    ensures byUsername.Ok? ==> r == Err(Text(UsernameTaken))
    ensures byUsername == Err(NotFound) && byEmail.Err? && byEmail.error != NotFound ==> r == byEmail
    ensures byUsername == Err(NotFound) && byEmail.Ok? ==> r == Err(Text(EmailTaken))
    ensures r.Ok? ==>
      && byUsername == Err(NotFound) && byEmail == Err(NotFound)
      && hashPassword(req.password).Ok?
      && r.value.username == req.username && r.value.email == req.email
      && r.value.fullName == req.fullName && r.value.isActive
      && r.value.password == hashPassword(req.password).value
      && insert(r.value.(id := 0)) == Ok(r.value.id)
    ensures byUsername == Err(NotFound) && byEmail == Err(NotFound) && hashPassword(req.password).Err? ==>
      r == Err(hashPassword(req.password).error)
    ensures byUsername == Err(NotFound) && byEmail == Err(NotFound) && hashPassword(req.password).Ok? && r.Err? ==>
      insert(UserRecord(0, req.username, req.email, hashPassword(req.password).value, req.fullName, true)) == Err(r.error)
  {
    if byUsername.Err? && byUsername.error != NotFound then byUsername
    else if byUsername.Ok? then Err(Text(UsernameTaken))
    else if byEmail.Err? && byEmail.error != NotFound then byEmail
    else if byEmail.Ok? then Err(Text(EmailTaken))
    else
      match hashPassword(req.password)
      case Err(e) => Err(e)
      case Ok(hashed) =>
        var user := UserRecord(0, req.username, req.email, hashed, req.fullName, true);
        match insert(user)
        case Err(e) => Err(e)
        case Ok(id) => Ok(user.(id := id))
  }

  /** A taken username decides the outcome before the e-mail lookup is
      consulted. */
  lemma UsernameCheckedFirst(
    req: CreateUserRequest, byUsername: Result<UserRecord>, byEmail1: Result<UserRecord>,
    byEmail2: Result<UserRecord>, hashPassword: string -> Result<string>, insert: UserRecord -> Result<nat>)
    requires byUsername != Err(NotFound)
    ensures CreateUser(req, byUsername, byEmail1, hashPassword, insert)
         == CreateUser(req, byUsername, byEmail2, hashPassword, insert)
  {
  }

  /** GetUser: a cache hit is answered from the cache; otherwise the
      repository's answer is returned, and a found user is cached for five
      minutes. */
  function GetUser(id: nat, cache: map<string, UserRecord>, fetched: Result<UserRecord>)
    : (r: (Result<UserRecord>, Option<CacheWrite>))
    ensures CacheKey(id) in cache ==> r == (Ok(cache[CacheKey(id)]), None)
    ensures CacheKey(id) !in cache ==> r.0 == fetched
    ensures r.1.Some? <==> CacheKey(id) !in cache && fetched.Ok?
    ensures r.1.Some? ==> r.1.value == CacheWrite(CacheKey(id), fetched.value, UserCacheTtlMinutes)
  {
    var key := CacheKey(id);
    if key in cache then (Ok(cache[key]), None)
    else match fetched
      case Err(e) => (Err(e), None)
      case Ok(user) => (Ok(user), Some(CacheWrite(key, user, UserCacheTtlMinutes)))
  }

  /** Whether `updates` is the update UpdateUser derives from `req`: the full
      name when it is non-empty, the active flag when it is present, and
      nothing else. */
  predicate IsUserUpdate(req: UpdateUserRequest, updates: Updates) {
    && ("full_name" in updates <==> req.fullName != "")
    && ("full_name" in updates ==> updates["full_name"] == Str(req.fullName))
    && ("is_active" in updates <==> req.isActive.Some?)
    && ("is_active" in updates ==> updates["is_active"] == Bool(req.isActive.value))
    && updates.Keys <= {"full_name", "is_active"}
  }

  /** Only one update map fits a request. */
  lemma {:induction false} UserUpdateUnique(req: UpdateUserRequest, u1: Updates, u2: Updates)
    requires IsUserUpdate(req, u1) && IsUserUpdate(req, u2)
    ensures u1 == u2
  {
    assert u1.Keys == u2.Keys;
    forall k | k in u1 ensures u1[k] == u2[k] {
      assert k == "full_name" || k == "is_active";
    }
  }

  /** An update never touches the username, the e-mail or the password. */
  lemma UserUpdateSparesCredentials(req: UpdateUserRequest, updates: Updates)
    requires IsUserUpdate(req, updates)
    ensures "username" !in updates && "email" !in updates && "password" !in updates
  {
  }

  /** The update map of UpdateUser, built one field at a time. */
  method BuildUserUpdates(req: UpdateUserRequest) returns (updates: Updates)
    ensures IsUserUpdate(req, updates)
  {
    updates := map[];
    if req.fullName != "" {
      updates := updates["full_name" := Str(req.fullName)];
    }
    if req.isActive.Some? {
      updates := updates["is_active" := Bool(req.isActive.value)];
    }
  }

  /** UpdateUser: a failed existence check is returned as is and nothing is
      written. Otherwise the update map goes to the repository; if that
      succeeds the user's cache entry is evicted and the re-read user
      returned. `sent` is the update the repository received, `evicted` the
      cache key that was deleted. */
  method UpdateUser(
    id: nat,
    req: UpdateUserRequest,
    existing: Result<UserRecord>,
    update: (nat, Updates) -> Option<Error>,
    reread: Result<UserRecord>)
    returns (r: Result<UserRecord>, sent: Option<Updates>, evicted: Option<string>)
    ensures existing.Err? ==> r == Err(existing.error) && sent == None && evicted == None
    ensures existing.Ok? ==> sent.Some? && IsUserUpdate(req, sent.value)
    ensures existing.Ok? && update(id, sent.value).Some? ==>
      r == Err(update(id, sent.value).value) && evicted == None
    ensures existing.Ok? && update(id, sent.value).None? ==>
      r == reread && evicted == Some(CacheKey(id))
  {
    if existing.Err? {
      return Err(existing.error), None, None;
    }
    var updates := BuildUserUpdates(req);
    sent := Some(updates);
    var failure := update(id, updates);
    if failure.Some? {
      return Err(failure.value), sent, None;
    }
    evicted := Some(CacheKey(id));
    r := reread;
  }

  /** DeleteUser: a repository failure is returned and the cache is left
      alone; on success the user's cache entry is evicted. */
  function DeleteUser(id: nat, deleteFailure: Option<Error>): (r: (Option<Error>, Option<string>))
    ensures r.0 == deleteFailure
    ensures r.1.Some? <==> deleteFailure.None?
    ensures r.1.Some? ==> r.1.value == CacheKey(id)
  {
    if deleteFailure.Some? then (deleteFailure, None) else (None, Some(CacheKey(id)))
  }

  /** The window ListUsers asks the repository for. */
  function ListUsersWindow(page: int, limit: int): (w: PageWindow)
    ensures w.limit == limit
    ensures page >= 1 && limit >= 0 ==> w.offset >= 0
  {
    PageWindow((page - 1) * limit, limit)
  }

  /** Consecutive pages are adjacent: page p + 1 starts where page p ends,
      and page 1 starts at row 0. */
  lemma PagesAdjacent(page: int, limit: int)
    ensures ListUsersWindow(1, limit).offset == 0
    ensures ListUsersWindow(page + 1, limit).offset
         == ListUsersWindow(page, limit).offset + limit
  {
  }

  /** With a positive limit every row lies in the window of exactly one
      page, page `row / limit + 1`. */
  lemma {:induction false} RowOnOnePage(row: nat, limit: int, page: int)
    requires limit > 0 && page >= 1
    ensures var w := ListUsersWindow(page, limit);
      w.offset <= row < w.offset + w.limit <==> page == row / limit + 1
  {
    var q := row / limit;
    assert row == q * limit + row % limit;
    var w := ListUsersWindow(page, limit);
    assert w.offset == (page - 1) * limit;
    if page - 1 < q {
      assert (page - 1) * limit + limit <= q * limit by {
        assert page <= q;
        MulMono(page, q, limit);
      }
    } else if page - 1 > q {
      assert (q + 1) * limit <= (page - 1) * limit by {
        MulMono(q + 1, page - 1, limit);
      }
    }
  }

  lemma MulMono(a: int, b: int, c: int)
    requires a <= b && c >= 0
    ensures a * c <= b * c
  {
  }
}
