/**
 * The session lifecycle: token generation, the hashed session id, creation
 * with a 30-day expiry and a SIGN_IN audit entry, validation with lazy
 * deletion of expired sessions and sliding renewal inside the last 15 days,
 * and invalidation with a SIGN_OUT audit entry.
 *
 * The session and audit tables are a value `Db`; each operation is first a
 * function from the old `Db` to its result and the new `Db` (`CreateStep`,
 * `ValidateStep`, `InvalidateStep`), about which the lemmas below are stated.
 * `SessionStore` is the stateful form: a class over the same tables whose
 * methods perform the store calls one after the other and are proved to
 * end in the state the step functions describe.
 *
 * SHA-256 of the UTF-8 bytes of the token is an injected `TokenHasher`, the
 * secure random source an injected byte stream, and the clock the `now`
 * argument in milliseconds.
 */
module Session {
  import opened Wrappers
  import opened Encoding

  const MillisPerDay: int := 1000 * 60 * 60 * 24
  /** A new or renewed session lives 30 days. */
  const SessionLifetimeMs: int := MillisPerDay * 30
  /** A session is renewed once at most 15 days are left. */
  const RenewalWindowMs: int := MillisPerDay * 15
  /** Random bytes in a session token. */
  const TokenByteCount: nat := 20

  /** A SHA-256 digest: 32 bytes. */
  type Digest = d: seq<byte> | |d| == 32 witness seq(32, _ => 0)

  /** `sha256(new TextEncoder().encode(token))`, taken as given. */
  type TokenHasher = string -> Digest

  datatype RequestMetadata = RequestMetadata(ipAddress: Option<string>, userAgent: Option<string>)

  /** A stored session row; times are milliseconds since the epoch. */
  datatype Session = Session(
    id: string,
    sessionToken: string,
    userId: int,
    createdAt: int,
    updatedAt: int,
    expiresAt: int,
    ipAddress: Option<string>,
    userAgent: Option<string>)

  datatype User = User(id: int, email: string, name: Option<string>)

  datatype AuditLogType = SignIn | SignOut

  datatype AuditLogEntry = AuditLogEntry(
    userId: int,
    ipAddress: Option<string>,
    userAgent: Option<string>,
    logType: AuditLogType)

  /** `SessionValidationResult`: `isAuthenticated` is `Authenticated?`. */
  datatype SessionValidationResult = Authenticated(session: Session, user: User) | Unauthenticated

  /** What a store call throws: a duplicate primary key on create, a missing row on delete. */
  datatype StoreError = UniqueConstraintFailed | RecordNotFound

  /** The session table keyed by id, the user table keyed by id, and the security audit log. */
  datatype Db = Db(sessions: map<string, Session>, users: map<int, User>, auditLog: seq<AuditLogEntry>)

  /** Every row sits under its own id, which is also its `sessionToken`. */
  predicate Valid(db: Db) {
    && (forall id :: id in db.sessions ==> db.sessions[id].id == id && db.sessions[id].sessionToken == id)
    && (forall uid :: uid in db.users ==> db.users[uid].id == uid)
  }

  /** The session id of a token: the lower-case hex of its SHA-256 digest. */
  function SessionIdOf(hash: TokenHasher, token: string): (id: string)
    ensures |id| == 64
    ensures forall i :: 0 <= i < |id| ==> IsLowerHexDigit(id[i])
  {
    EncodeHexLowerCase(hash(token))
  }

  /** Two tokens share a session id only if their digests are equal. */
  lemma SameIdSameDigest(hash: TokenHasher, t1: string, t2: string)
    requires SessionIdOf(hash, t1) == SessionIdOf(hash, t2)
    ensures hash(t1) == hash(t2)
  {
    HexInjective(hash(t1), hash(t2));
  }

  function AuditEntry(userId: int, metadata: RequestMetadata, logType: AuditLogType): AuditLogEntry {
    AuditLogEntry(userId, metadata.ipAddress, metadata.userAgent, logType)
  }

  function NewSession(id: string, userId: int, metadata: RequestMetadata, now: int): Session {
    Session(id, id, userId, now, now, now + SessionLifetimeMs, metadata.ipAddress, metadata.userAgent)
  }

  predicate IsExpired(session: Session, now: int) {
    now >= session.expiresAt
  }

  predicate IsDueForRenewal(session: Session, now: int) {
    now >= session.expiresAt - RenewalWindowMs
  }

  /** `createSession`: insert the row, then append SIGN_IN; an existing id makes the insert throw. */
  function CreateStep(db: Db, hash: TokenHasher, token: string, userId: int, metadata: RequestMetadata, now: int)
    : (out: (Result<Session, StoreError>, Db))
    ensures out.0.Failure? <==> SessionIdOf(hash, token) in db.sessions
    ensures out.0.Success? ==>
      && out.0.value.expiresAt == now + SessionLifetimeMs
      && out.0.value.id in out.1.sessions && out.1.sessions[out.0.value.id] == out.0.value
    ensures out.1.users == db.users
    ensures |out.1.auditLog| == |db.auditLog| + (if out.0.Success? then 1 else 0)
  {
    var id := SessionIdOf(hash, token);
    if id in db.sessions then (Failure(UniqueConstraintFailed), db)
    else
      var session := NewSession(id, userId, metadata, now);
      (Success(session),
       db.(sessions := db.sessions[id := session],
           auditLog := db.auditLog + [AuditEntry(userId, metadata, SignIn)]))
  }

  /** `validateSessionToken`. */
  function ValidateStep(db: Db, hash: TokenHasher, token: string, now: int): (out: (SessionValidationResult, Db))
    ensures out.0.Authenticated? ==> SessionIdOf(hash, token) in out.1.sessions && out.0.session.expiresAt > now
    ensures out.1.sessions.Keys <= db.sessions.Keys
    ensures out.1.users == db.users && out.1.auditLog == db.auditLog
  {
    var id := SessionIdOf(hash, token);
    if id !in db.sessions || db.sessions[id].userId !in db.users then (Unauthenticated, db)
    else
      var session := db.sessions[id];
      var user := db.users[session.userId];
      if IsExpired(session, now) then (Unauthenticated, db.(sessions := db.sessions - {id}))
      else if IsDueForRenewal(session, now) then
        var renewed := session.(expiresAt := now + SessionLifetimeMs);
        (Authenticated(renewed, user), db.(sessions := db.sessions[id := renewed]))
      else (Authenticated(session, user), db)
  }

  /** `invalidateSession`: delete the row (throws when it is missing), then append SIGN_OUT. */
  function InvalidateStep(db: Db, sessionId: string, metadata: RequestMetadata): (out: (Result<(), StoreError>, Db))
    ensures out.0.Success? <==> sessionId in db.sessions
    ensures out.1.sessions.Keys == db.sessions.Keys - {sessionId}
    ensures out.1.users == db.users
    ensures |out.1.auditLog| == |db.auditLog| + (if out.0.Success? then 1 else 0)
  {
    if sessionId !in db.sessions then (Failure(RecordNotFound), db)
    else
      var deleted := db.sessions[sessionId];
      (Success(()),
       db.(sessions := db.sessions - {sessionId},
           auditLog := db.auditLog + [AuditEntry(deleted.userId, metadata, SignOut)]))
  }

  // ---------------------------------------------------------------- creation

  /**
   * A created session is keyed by the hex digest of the token, stores that
   * digest as both `id` and `sessionToken`, expires 30 days after `now`,
   * carries the request metadata, and is exactly the row stored; the store
   * gains exactly that key and the log exactly one SIGN_IN entry. The
   * insert fails, and nothing is written, exactly when the id is taken.
   */
  lemma CreateStoresHashedSession(db: Db, hash: TokenHasher, token: string, userId: int, metadata: RequestMetadata, now: int)
    ensures var out := CreateStep(db, hash, token, userId, metadata, now);
      var id := SessionIdOf(hash, token);
      && (out.0.Failure? <==> id in db.sessions)
      && (out.0.Failure? ==> out.0.error == UniqueConstraintFailed && out.1 == db)
      && (out.0.Success? ==>
        && out.0.value.id == id && out.0.value.sessionToken == id && |id| == 64
        && out.0.value.userId == userId
        && out.0.value.createdAt == now && out.0.value.updatedAt == now
        && out.0.value.expiresAt == now + 2592000000
        && out.0.value.ipAddress == metadata.ipAddress
        && out.0.value.userAgent == metadata.userAgent
        && id !in db.sessions
        && out.1.sessions == db.sessions[id := out.0.value]
        && out.1.sessions.Keys == db.sessions.Keys + {id}
        && |out.1.sessions| == |db.sessions| + 1
        && out.1.auditLog == db.auditLog + [AuditLogEntry(userId, metadata.ipAddress, metadata.userAgent, SignIn)]
        && out.1.users == db.users)
  {
    var id := SessionIdOf(hash, token);
    if id !in db.sessions {
      assert (db.sessions[id := NewSession(id, userId, metadata, now)]).Keys == db.sessions.Keys + {id};
    }
  }

  // ---------------------------------------------------------------- validation

  /** An unknown id, or a row whose user is missing, is unauthenticated and writes nothing. */
  lemma ValidateUnknownSession(db: Db, hash: TokenHasher, token: string, now: int)
    requires var id := SessionIdOf(hash, token);
      id !in db.sessions || db.sessions[id].userId !in db.users
    ensures ValidateStep(db, hash, token, now) == (Unauthenticated, db)
  {
  }

  /**
   * An expired session is deleted and reported unauthenticated; nothing else
   * changes, and validating the same token again, at any time, is again
   * unauthenticated and writes nothing.
   */
  lemma ValidateExpiredDeletes(db: Db, hash: TokenHasher, token: string, now: int, later: int)
    requires var id := SessionIdOf(hash, token);
      id in db.sessions && db.sessions[id].userId in db.users && now >= db.sessions[id].expiresAt
    ensures var id := SessionIdOf(hash, token);
      var out := ValidateStep(db, hash, token, now);
      && out.0 == Unauthenticated
      && out.1 == db.(sessions := db.sessions - {id})
      && id !in out.1.sessions
      && |out.1.sessions| == |db.sessions| - 1
      && ValidateStep(out.1, hash, token, later) == (Unauthenticated, out.1)
  {
  }

  /**
   * Inside the last 15 days the expiry slides to `now` plus 30 days, which is
   * strictly later than before, and that renewed row is both stored and
   * returned; nothing else about the row or the store changes.
   */
  lemma ValidateRenews(db: Db, hash: TokenHasher, token: string, now: int)
    requires var id := SessionIdOf(hash, token);
      && id in db.sessions && db.sessions[id].userId in db.users
      && db.sessions[id].expiresAt - 1296000000 <= now < db.sessions[id].expiresAt
    ensures var id := SessionIdOf(hash, token);
      var old_ := db.sessions[id];
      var out := ValidateStep(db, hash, token, now);
      && out.0.Authenticated?
      && out.0.session == old_.(expiresAt := now + 2592000000)
      && out.0.session.expiresAt > old_.expiresAt
      && out.0.user == db.users[old_.userId]
      && out.1 == db.(sessions := db.sessions[id := out.0.session])
  {
  }

  /** With more than 15 days left the stored row is returned as it is and nothing is written. */
  lemma ValidateKeepsFreshSession(db: Db, hash: TokenHasher, token: string, now: int)
    requires var id := SessionIdOf(hash, token);
      && id in db.sessions && db.sessions[id].userId in db.users
      && now < db.sessions[id].expiresAt - 1296000000
    ensures var id := SessionIdOf(hash, token);
      ValidateStep(db, hash, token, now) ==
        (Authenticated(db.sessions[id], db.users[db.sessions[id].userId]), db)
  {
  }

  /**
   * Whatever path it takes, an authenticated result carries the session
   * stored under the token's id, owned by the returned user, not yet
   * expired, and identical to the row now in the store.
   */
  lemma AuthenticatedResultIsStored(db: Db, hash: TokenHasher, token: string, now: int)
    requires Valid(db)
    ensures var out := ValidateStep(db, hash, token, now);
      out.0.Authenticated? ==>
        var id := SessionIdOf(hash, token);
        && out.0.session.id == id
        && out.0.session.sessionToken == id
        && out.0.session.expiresAt > now
        && id in out.1.sessions && out.1.sessions[id] == out.0.session
        && out.0.user.id == out.0.session.userId
  {
  }

  /**
   * Validation only ever removes the token's row or pushes its expiry later:
   * every surviving row was there before, with the same fields and an expiry
   * no earlier than before; the users and the audit log are untouched.
   */
  lemma ValidateOnlyExtends(db: Db, hash: TokenHasher, token: string, now: int)
    ensures var out := ValidateStep(db, hash, token, now);
      && out.1.sessions.Keys <= db.sessions.Keys
      && out.1.users == db.users
      && out.1.auditLog == db.auditLog
      && forall id :: id in out.1.sessions ==>
           && out.1.sessions[id].expiresAt >= db.sessions[id].expiresAt
           && out.1.sessions[id] == db.sessions[id].(expiresAt := out.1.sessions[id].expiresAt)
  {
  }

  // ---------------------------------------------------------------- invalidation

  /**
   * Invalidating a stored id deletes exactly that row and appends one SIGN_OUT
   * entry for the deleted row's user; a missing id fails with no write at all.
   */
  lemma InvalidateRemovesExactlyOne(db: Db, sessionId: string, metadata: RequestMetadata)
    ensures var out := InvalidateStep(db, sessionId, metadata);
      && (out.0.Failure? <==> sessionId !in db.sessions)
      && (out.0.Failure? ==> out.0.error == RecordNotFound && out.1 == db)
      && (out.0.Success? ==>
        && out.1.sessions == db.sessions - {sessionId}
        && out.1.sessions.Keys == db.sessions.Keys - {sessionId}
        && |out.1.sessions| == |db.sessions| - 1
        && out.1.auditLog == db.auditLog + [AuditLogEntry(db.sessions[sessionId].userId, metadata.ipAddress, metadata.userAgent, SignOut)]
        && out.1.users == db.users)
  {
  }

  // ---------------------------------------------------------------- the lifecycle as a whole

  /** Every step keeps each row under its own id. */
  lemma StepsPreserveValid(db: Db, hash: TokenHasher, token: string, userId: int, metadata: RequestMetadata, now: int, sessionId: string)
    requires Valid(db)
    ensures Valid(CreateStep(db, hash, token, userId, metadata, now).1)
    ensures Valid(ValidateStep(db, hash, token, now).1)
    ensures Valid(InvalidateStep(db, sessionId, metadata).1)
  {
  }

  /**
   * A session just created for an existing user authenticates its token at
   * any time before it expires, and the result names that user.
   */
  lemma CreateThenValidate(db: Db, hash: TokenHasher, token: string, userId: int, metadata: RequestMetadata, now: int, later: int)
    requires Valid(db) && userId in db.users
    requires SessionIdOf(hash, token) !in db.sessions
    requires now <= later < now + SessionLifetimeMs
    ensures var created := CreateStep(db, hash, token, userId, metadata, now);
      var checked := ValidateStep(created.1, hash, token, later);
      && checked.0.Authenticated?
      && checked.0.user.id == userId
      && checked.0.session.id == created.0.value.id
  {
  }

  /** After its id is invalidated, the token no longer authenticates. */
  lemma InvalidateThenValidate(db: Db, hash: TokenHasher, token: string, metadata: RequestMetadata, now: int)
    ensures var gone := InvalidateStep(db, SessionIdOf(hash, token), metadata);
      ValidateStep(gone.1, hash, token, now).0 == Unauthenticated
  {
  }

  /**
   * A session created at `t0` and used at `t0` + 29 days is renewed to
   * `t0` + 59 days; one left unused until `t0` + 31 days is unauthenticated
   * and deleted. Renewal starts at exactly 15 days left: with 10 days left it
   * happens; with 20 left the stored row authenticates and nothing is written.
   */
  lemma LifecycleScenario(db: Db, hash: TokenHasher, token: string, userId: int, metadata: RequestMetadata, t0: int)
    requires Valid(db) && userId in db.users
    requires SessionIdOf(hash, token) !in db.sessions
    ensures var created := CreateStep(db, hash, token, userId, metadata, t0).1;
      var id := SessionIdOf(hash, token);
      && ValidateStep(created, hash, token, t0 + 29 * MillisPerDay).0.session.expiresAt == t0 + 59 * MillisPerDay
      && ValidateStep(created, hash, token, t0 + 31 * MillisPerDay) == (Unauthenticated, created.(sessions := created.sessions - {id}))
      && ValidateStep(created, hash, token, t0 + 20 * MillisPerDay).1.sessions[id].expiresAt == t0 + 50 * MillisPerDay
      && id in created.sessions
      && ValidateStep(created, hash, token, t0 + 10 * MillisPerDay) == (Authenticated(created.sessions[id], created.users[userId]), created)
  {
  }

  // ---------------------------------------------------------------- the stateful store

  class SessionStore {
    var sessions: map<string, Session>
    var users: map<int, User>
    var auditLog: seq<AuditLogEntry>
    const hash: TokenHasher

    function State(): Db
      reads this
    {
      Db(sessions, users, auditLog)
    }

    constructor (hash: TokenHasher, users: map<int, User>)
      requires forall uid :: uid in users ==> users[uid].id == uid
      ensures Valid(State())
      ensures this.hash == hash
      ensures State() == Db(map[], users, [])
    {
      this.hash := hash;
      this.users := users;
      sessions := map[];
      auditLog := [];
    }

    /** `createSession`: insert the row (throws on a taken id), then write SIGN_IN. */
    method CreateSession(token: string, userId: int, metadata: RequestMetadata, now: int)
      returns (r: Result<Session, StoreError>)
      requires Valid(State())
      modifies this
      ensures (r, State()) == CreateStep(old(State()), hash, token, userId, metadata, now)
      ensures Valid(State())
    {
      var hashedSessionId := EncodeHexLowerCase(hash(token));
      var session := Session(hashedSessionId, hashedSessionId, userId, now, now,
                             now + SessionLifetimeMs, metadata.ipAddress, metadata.userAgent);
      if hashedSessionId in sessions {
        return Failure(UniqueConstraintFailed);
      }
      sessions := sessions[hashedSessionId := session];
      auditLog := auditLog + [AuditLogEntry(userId, metadata.ipAddress, metadata.userAgent, SignIn)];
      return Success(session);
    }

    /** `validateSessionToken`: look up, delete if expired, renew if due. */
    method ValidateSessionToken(token: string, now: int) returns (r: SessionValidationResult)
      requires Valid(State())
      modifies this
      ensures (r, State()) == ValidateStep(old(State()), hash, token, now)
      ensures Valid(State())
    {
      var sessionId := EncodeHexLowerCase(hash(token));
      if sessionId !in sessions || sessions[sessionId].userId !in users {
        return Unauthenticated;
      }
      var session := sessions[sessionId];
      var user := users[session.userId];
      if now >= session.expiresAt {
        sessions := sessions - {sessionId};
        return Unauthenticated;
      }
      if now >= session.expiresAt - RenewalWindowMs {
        session := session.(expiresAt := now + SessionLifetimeMs);
        sessions := sessions[session.id := session];
      }
      return Authenticated(session, user);
    }

    /** `invalidateSession`: delete the row (throws when missing), then write SIGN_OUT. */
    method InvalidateSession(sessionId: string, metadata: RequestMetadata) returns (r: Result<(), StoreError>)
      requires Valid(State())
      modifies this
      ensures (r, State()) == InvalidateStep(old(State()), sessionId, metadata)
      ensures Valid(State())
    {
      if sessionId !in sessions {
        return Failure(RecordNotFound);
      }
      var session := sessions[sessionId];
      sessions := sessions - {sessionId};
      auditLog := auditLog + [AuditLogEntry(session.userId, metadata.ipAddress, metadata.userAgent, SignOut)];
      return Success(());
    }
  }

  // ---------------------------------------------------------------- token generation

  /** `crypto.getRandomValues`: fill the buffer in place from the random source. */
  method GetRandomValues(bytes: array<byte>, randomSource: nat -> byte)
    modifies bytes
    ensures forall i :: 0 <= i < bytes.Length ==> bytes[i] == randomSource(i)
  {
    for i := 0 to bytes.Length
      invariant forall j :: 0 <= j < i ==> bytes[j] == randomSource(j)
    {
      bytes[i] := randomSource(i);
    }
  }

  /**
   * `generateSessionToken`: 20 random bytes as lower-case unpadded base 32,
   * that is 32 characters from `a`-`z` and `2`-`7` that decode back to
   * exactly those 20 bytes.
   */
  method GenerateSessionToken(randomSource: nat -> byte) returns (token: string)
    ensures |token| == 32
    ensures forall i :: 0 <= i < |token| ==> IsBase32LowerDigit(token[i])
    ensures DecodeBase32LowerCaseNoPadding(token) == Some(seq(TokenByteCount, i requires 0 <= i => randomSource(i)))
  {
    var bytes := new byte[TokenByteCount];
    GetRandomValues(bytes, randomSource);
    token := EncodeBase32LowerCaseNoPadding(bytes[..]);
    Base32RoundTrip(bytes[..]);
    assert bytes[..] == seq(TokenByteCount, i requires 0 <= i => randomSource(i));
  }
}
