/**
 * Login and registration: the failed-login counter kept per email in the
 * application cache, the order of the login checks, and the email pattern
 * registration requires. Token issuing and password hashing are outside the
 * model: the password check is a parameter.
 */
module Auth {
  import opened Common
  import opened Tables
  import opened Validators
  import Store

  /** Failed attempts at which an email is refused before any lookup. */
  const Limit := 5

  /** The cache entry under which the failed attempts of `email` are counted. */
  function Key(email: string): string
  {
    "login_attempts:" + email
  }

  /** Different emails are counted under different entries. */
  lemma KeyInjective(a: string, b: string)
    requires Key(a) == Key(b)
    ensures a == b
  {
    var prefix := "login_attempts:";
    assert a == Key(a)[|prefix|..];
    assert b == Key(b)[|prefix|..];
  }

  /** The recorded failures of `email`: 0 without a cache or without an entry. */
  function Count(cache: Option<map<string, int>>, email: string): int
  {
    if cache.Some? && Key(email) in cache.value then cache.value[Key(email)] else 0
  }

  predicate Limited(cache: Option<map<string, int>>, email: string)
  {
    Count(cache, email) >= Limit
  }

  /** The cache after one more failure of `email`; without a cache nothing is recorded. */
  function Bumped(cache: Option<map<string, int>>, email: string): Option<map<string, int>>
  {
    if cache.Some? then Some(cache.value[Key(email) := Count(cache, email) + 1]) else None
  }

  /** The cache with the entry of `email` removed. */
  function Cleared(cache: Option<map<string, int>>, email: string): Option<map<string, int>>
  {
    if cache.Some? then Some(cache.value - {Key(email)}) else None
  }

  /** One failure adds exactly one to that email's count, when there is a cache, and leaves other emails alone. */
  lemma BumpCounts(cache: Option<map<string, int>>, email: string, other: string)
    ensures Count(Bumped(cache, email), email) == Count(cache, email) + (if cache.Some? then 1 else 0)
    ensures other != email ==> Count(Bumped(cache, email), other) == Count(cache, other)
  {
    if other != email && Key(other) == Key(email) {
      KeyInjective(other, email);
    }
  }

  /** A reset forgets that email's failures and no other's. */
  lemma ClearForgets(cache: Option<map<string, int>>, email: string, other: string)
    ensures Count(Cleared(cache, email), email) == 0
    ensures other != email ==> Count(Cleared(cache, email), other) == Count(cache, other)
  {
    if other != email && Key(other) == Key(email) {
      KeyInjective(other, email);
    }
  }

  /** The cache after `n` failures of `email` in a row. */
  function Failures(cache: Option<map<string, int>>, email: string, n: nat): Option<map<string, int>>
  {
    if n == 0 then cache else Bumped(Failures(cache, email, n - 1), email)
  }

  /** Failures accumulate: `n` of them add `n`, with a cache; without one the count stays 0. */
  lemma {:induction false} FailuresAccumulate(cache: Option<map<string, int>>, email: string, n: nat)
    ensures Failures(cache, email, n).Some? == cache.Some?
    ensures cache.Some? ==> Count(Failures(cache, email, n), email) == Count(cache, email) + n
    ensures cache.None? ==> Count(Failures(cache, email, n), email) == 0
  {
    if n > 0 {
      FailuresAccumulate(cache, email, n - 1);
      BumpCounts(Failures(cache, email, n - 1), email, email);
    }
  }

  /**
   * From a reset, five failures lock an email out, and fewer do not; without a
   * cache no number of failures ever does.
   */
  lemma LockoutAfterFive(cache: Option<map<string, int>>, email: string, n: nat)
    ensures cache.Some? ==> (Limited(Failures(Cleared(cache, email), email, n), email) <==> n >= Limit)
    ensures cache.None? ==> !Limited(Failures(cache, email, n), email)
  {
    ClearForgets(cache, email, email);
    FailuresAccumulate(Cleared(cache, email), email, n);
  }

  /** The application-wide cache the login handler keeps its counters in; `None` when the app has none. */
  class LoginThrottle {
    var cache: Option<map<string, int>>

    constructor(withCache: bool)
      ensures cache == (if withCache then Some(map[]) else None)
    {
      cache := if withCache then Some(map[]) else None;
    }

    predicate IsRateLimited(email: string)
      reads this
    {
      Limited(cache, email)
    }

    /** Counts one more failed login of `email`. */
    method RecordFailedAttempt(email: string)
      modifies this
      ensures cache == Bumped(old(cache), email)
    {
      var attempts := Count(cache, email);
      if cache.Some? {
        cache := Some(cache.value[Key(email) := attempts + 1]);
      }
    }

    /** Forgets the failed logins of `email`. */
    method ResetFailedAttempts(email: string)
      modifies this
      ensures cache == Cleared(old(cache), email)
    {
      if cache.Some? {
        cache := Some(cache.value - {Key(email)});
      }
    }
  }

  /** `k` is the lowest user id registered under `email`. */
  predicate FirstWith(users: map<int, User>, email: string, k: int)
  {
    k in users && users[k].email == email && forall j :: j in users && users[j].email == email ==> k <= j
  }

  /** The lowest user id registered under `email`, as a first match of the query. */
  method FindUser(db: Store.Db, email: string) returns (found: Option<int>)
    requires db.Valid()
    ensures found.None? <==> forall k :: k in db.users ==> db.users[k].email != email
    ensures found.Some? ==> FirstWith(db.users, email, found.value)
  {
    assert db.PeopleValid();
    var i := 1;
    while i < db.nextId
      invariant 1 <= i <= db.nextId
      invariant forall k :: k in db.users && db.users[k].email == email ==> i <= k
    {
      if i in db.users && db.users[i].email == email {
        return Some(i);
      }
      i := i + 1;
    }
    return None;
  }

  /**
   * Logs in. Checked in order: both fields non-empty, the lower-cased email not
   * rate-limited, a user under it, the user active, the password. A wrong
   * password counts a failure; a success forgets the failures and stamps the
   * login time. No other outcome touches the counters.
   */
  method Login(db: Store.Db, throttle: LoginThrottle, email: Option<string>, password: Option<string>,
               passwordOk: (string, string) -> bool, now: int) returns (r: Outcome<int>)
    requires db.Valid()
    modifies db`users, throttle
    ensures db.Valid()
    ensures NonEmpty(email).None? || NonEmpty(password).None? ==> r == Fail(BadRequest)
    ensures (NonEmpty(email).Some? && NonEmpty(password).Some? && Limited(old(throttle.cache), Lower(email.value)))
            ==> r == Fail(TooManyRequests)
    ensures (NonEmpty(email).Some? && NonEmpty(password).Some? && !Limited(old(throttle.cache), Lower(email.value))
             && (forall k :: k in old(db.users) ==> old(db.users)[k].email != Lower(email.value)))
            ==> r == Fail(Unauthorized) && throttle.cache == old(throttle.cache)
    ensures (NonEmpty(email).Some? && NonEmpty(password).Some? && !Limited(old(throttle.cache), Lower(email.value)))
            ==> forall k :: FirstWith(old(db.users), Lower(email.value), k) ==>
                  var u := old(db.users)[k];
                  (!u.isActive ==> r == Fail(Forbidden) && throttle.cache == old(throttle.cache))
                  && (u.isActive && !passwordOk(u.passwordHash, password.value) ==>
                        r == Fail(Unauthorized) && throttle.cache == Bumped(old(throttle.cache), Lower(email.value)))
                  && (u.isActive && passwordOk(u.passwordHash, password.value) ==> r == Ok(k))
    ensures r.Ok? ==>
              var e := Lower(email.value);
              r.value in old(db.users) && old(db.users)[r.value].email == e && old(db.users)[r.value].isActive
              && passwordOk(old(db.users)[r.value].passwordHash, password.value)
              && !Limited(old(throttle.cache), e)
              && (forall k :: k in old(db.users) && old(db.users)[k].email == e ==> r.value <= k)
              && throttle.cache == Cleared(old(throttle.cache), e)
              && db.users == old(db.users)[r.value := old(db.users)[r.value].(lastLogin := Some(now))]
    ensures r.Fail? ==> db.users == old(db.users)
    ensures r.Fail? && throttle.cache != old(throttle.cache) ==>
              r == Fail(Unauthorized) && throttle.cache == Bumped(old(throttle.cache), Lower(email.value))
  {
    if NonEmpty(email).None? || NonEmpty(password).None? {
      return Fail(BadRequest);
    }
    var e := Lower(email.value);
    if throttle.IsRateLimited(e) {
      return Fail(TooManyRequests);
    }
    var found := FindUser(db, e);
    if found.None? {
      return Fail(Unauthorized);
    }
    var uid := found.value;
    var user := db.users[uid];
    if !user.isActive {
      return Fail(Forbidden);
    }
    if !passwordOk(user.passwordHash, password.value) {
      throttle.RecordFailedAttempt(e);
      return Fail(Unauthorized);
    }
    throttle.ResetFailedAttempts(e);
    db.CommitUsers(db.users[uid := user.(lastLogin := Some(now))]);
    r := Ok(uid);
  }

  /**
   * Self-registration: the lower-cased email must match the pattern and be
   * unused; the new user is active, with the chosen role (never admin) and the
   * hashed password.
   */
  method Register(db: Store.Db, name: Option<string>, email: Option<string>, password: Option<string>,
                  role: Option<Role>, hash: string -> string) returns (r: Outcome<int>)
    requires db.Valid()
    modifies db`users, db`nextId
    ensures db.Valid()
    ensures name.None? || email.None? || password.None? || role.None? || role == Some(AdminRole) ==> r == Fail(BadRequest)
    ensures (name.Some? && email.Some? && password.Some? && role.Some? && role != Some(AdminRole)
             && !EmailMatches(Lower(email.value))) ==> r == Fail(BadRequest)
    ensures (name.Some? && email.Some? && password.Some? && role.Some? && role != Some(AdminRole)
             && EmailMatches(Lower(email.value))
             && (exists k :: k in old(db.users) && old(db.users)[k].email == Lower(email.value)))
            ==> r == Fail(Conflict)
    ensures r.Ok? <==> name.Some? && email.Some? && password.Some? && role.Some? && role != Some(AdminRole)
                       && EmailMatches(Lower(email.value))
                       && (forall k :: k in old(db.users) ==> old(db.users)[k].email != Lower(email.value))
    ensures r.Ok? ==> r.value == old(db.nextId) && db.nextId == r.value + 1
                      && db.users == old(db.users)[r.value := User(name.value, Lower(email.value), role.value, true,
                                                                   hash(password.value), None)]
    ensures r.Fail? ==> db.users == old(db.users) && db.nextId == old(db.nextId)
  {
    if name.None? || email.None? || password.None? || role.None? || role == Some(AdminRole) {
      return Fail(BadRequest);
    }
    var e := Lower(email.value);
    if !EmailMatches(e) {
      return Fail(BadRequest);
    }
    var found := FindUser(db, e);
    if found.Some? {
      return Fail(Conflict);
    }
    var uid := db.nextId;
    db.CommitNewUser(uid, User(name.value, e, role.value, true, hash(password.value), None));
    r := Ok(uid);
  }
}
