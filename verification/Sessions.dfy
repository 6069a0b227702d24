/**
 Session tokens and the per-user index that lists and revokes them
 (internal/auth/session.go), over a key store whose keys expire.
 */
module Sessions {
  import opened Prelude

  datatype Session = Session(userId: string, createdAt: int)
  datatype Entry = Entry(data: Session, expires: int)
  datatype Members = Members(tokens: set<string>, expires: int)
  datatype Summary = Summary(id: string, createdAt: int, expiresAt: int)

  // session:{token} and user_sessions:{userId}; an expired key reads as missing.
  datatype Db = Db(now: int, sessions: map<string, Entry>, index: map<string, Members>)

  predicate Live(db: Db, token: string) {
    token in db.sessions && db.now < db.sessions[token].expires
  }

  predicate IndexLive(db: Db, user: string) {
    user in db.index && db.now < db.index[user].expires
  }

  function Indexed(db: Db, user: string): set<string> {
    if IndexLive(db, user) then db.index[user].tokens else {}
  }

  // ---- The operations as state changes --------------------------------------------------

  function Created(db: Db, token: string, user: string, ttl: int): Db {
    db.(sessions := db.sessions[token := Entry(Session(user, db.now), db.now + ttl)],
        index := db.index[user := Members(Indexed(db, user) + {token}, db.now + ttl)])
  }

  // SREM: a set that becomes empty disappears with its expiry.
  function Unindexed(db: Db, user: string, tokens: set<string>): Db {
    if !IndexLive(db, user) then db
    else if db.index[user].tokens <= tokens then db.(index := db.index - {user})
    else db.(index := db.index[user := db.index[user].(tokens := db.index[user].tokens - tokens)])
  }

  function Deleted(db: Db, token: string): Db {
    var db1 := if Live(db, token) then Unindexed(db, db.sessions[token].data.userId, {token}) else db;
    db1.(sessions := db1.sessions - {token})
  }

  // EXPIRE on the session and on its user's index, each only if it exists.
  function Refreshed(db: Db, token: string, ttl: int): Db {
    if !Live(db, token) then db
    else
      var e := db.sessions[token];
      var db1 := db.(sessions := db.sessions[token := e.(expires := db.now + ttl)]);
      if IndexLive(db, e.data.userId) then
        db1.(index := db1.index[e.data.userId := db1.index[e.data.userId].(expires := db.now + ttl)])
      else db1
  }

  function Stale(db: Db, user: string): set<string> {
    set t | t in Indexed(db, user) && !Live(db, t)
  }

  function Listed(db: Db, user: string): Db {
    if Stale(db, user) == {} then db else Unindexed(db, user, Stale(db, user))
  }

  function Elapsed(db: Db, d: nat): Db {
    db.(now := db.now + d)
  }

  // ---- SessionManager -----------------------------------------------------------------------

  class SessionManager {
    var db: Db
    const sessionId: string -> string  // SHA-256 in hex

    constructor (db: Db, sessionId: string -> string)
      ensures this.db == db && this.sessionId == sessionId
    {
      this.db, this.sessionId := db, sessionId;
    }

    method Create(token: string, user: string, ttl: int)
      modifies this
      ensures db == Created(old(db), token, user, ttl)
      ensures ttl > 0 ==> Live(db, token) && token in Indexed(db, user)
    {
      db := db.(sessions := db.sessions[token := Entry(Session(user, db.now), db.now + ttl)]);
      var members := if user in db.index && db.now < db.index[user].expires then db.index[user].tokens else {};
      db := db.(index := db.index[user := Members(members + {token}, db.now + ttl)]);
    }

    method Get(token: string) returns (r: Option<Session>)
      ensures r.Some? <==> Live(db, token)
      ensures r.Some? ==> r.value == db.sessions[token].data
    {
      if token in db.sessions && db.now < db.sessions[token].expires {
        r := Some(db.sessions[token].data);
      } else {
        r := None;
      }
    }

    method Remove(user: string, tokens: set<string>)
      modifies this
      ensures db == Unindexed(old(db), user, tokens)
    {
      if user in db.index && db.now < db.index[user].expires {
        var left := db.index[user].tokens - tokens;
        assert left == {} <==> db.index[user].tokens <= tokens by {
          assert forall t :: t in db.index[user].tokens ==> t in left || t in tokens;
        }
        if left == {} {
          db := db.(index := db.index - {user});
        } else {
          db := db.(index := db.index[user := Members(left, db.index[user].expires)]);
        }
      }
    }

    method Delete(token: string)
      modifies this
      ensures db == Deleted(old(db), token)
      ensures !Live(db, token)
    {
      var data := Get(token);
      if data.Some? {
        Remove(data.value.userId, {token});
      }
      db := db.(sessions := db.sessions - {token});
    }

    method Refresh(token: string, ttl: int)
      modifies this
      ensures db == Refreshed(old(db), token, ttl)
    {
      var data := Get(token);
      if data.Some? {
        db := db.(sessions := db.sessions[token := Entry(data.value, db.now + ttl)]);
        var user := data.value.userId;
        if user in db.index && db.now < db.index[user].expires {
          db := db.(index := db.index[user := Members(db.index[user].tokens, db.now + ttl)]);
        }
      }
    }

    // Lists the live members of the index, each once, and prunes the expired ones.
    method ListByUser(user: string) returns (summaries: seq<Summary>, ghost tokens: seq<string>)
      modifies this
      ensures db == Listed(old(db), user)
      ensures |summaries| == |tokens|
      ensures forall i :: 0 <= i < |tokens| ==>
                && tokens[i] in old(db).sessions
                && var e := old(db).sessions[tokens[i]];
                   summaries[i] == Summary(sessionId(tokens[i]), e.data.createdAt, e.expires)
      ensures forall i, j :: 0 <= i < j < |tokens| ==> tokens[i] != tokens[j]
      ensures forall t :: t in tokens <==> t in Indexed(old(db), user) && Live(old(db), t)
    {
      var rest := if user in db.index && db.now < db.index[user].expires then db.index[user].tokens else {};
      var stale := {};
      summaries, tokens := [], [];
      while rest != {}
        invariant db == old(db) && rest <= Indexed(db, user)
        invariant stale == set t | t in Indexed(db, user) - rest && !Live(db, t)
        invariant |summaries| == |tokens|
        invariant forall i :: 0 <= i < |tokens| ==>
          && tokens[i] in db.sessions
          && summaries[i] == Summary(sessionId(tokens[i]), db.sessions[tokens[i]].data.createdAt, db.sessions[tokens[i]].expires)
        invariant forall i, j :: 0 <= i < j < |tokens| ==> tokens[i] != tokens[j]
        invariant forall t :: t in tokens <==> t in Indexed(db, user) - rest && Live(db, t)
      {
        var token :| token in rest;
        rest := rest - {token};
        var data := Get(token);
        if data == None {
          stale := stale + {token};
        } else {
          var ttl := db.sessions[token].expires - db.now;
          summaries := summaries + [Summary(sessionId(token), data.value.createdAt, db.now + ttl)];
          tokens := tokens + [token];
        }
      }
      assert stale == Stale(db, user);
      if stale != {} {
        Remove(user, stale);
      }
    }

    // Public ids tell these tokens apart.
    ghost predicate Distinguishes(tokens: set<string>) {
      forall s, t :: s in tokens && t in tokens && sessionId(s) == sessionId(t) ==> s == t
    }

    // Revokes the session with the given public id, if the user's index holds it.
    method DeleteByUserSessionID(user: string, id: string) returns (found: bool, ghost token: string)
      modifies this
      ensures found <==> exists t :: t in Indexed(old(db), user) && sessionId(t) == id
      ensures found ==> token in Indexed(old(db), user) && sessionId(token) == id && db == Deleted(old(db), token)
      ensures !found ==> db == old(db)
      ensures Distinguishes(Indexed(old(db), user)) ==>
                forall t :: t in Indexed(old(db), user) && sessionId(t) == id ==> found && !Live(db, t)
    {
      var rest := if user in db.index && db.now < db.index[user].expires then db.index[user].tokens else {};
      token := "";
      while rest != {}
        invariant db == old(db) && rest <= Indexed(db, user)
        invariant forall t :: t in Indexed(db, user) - rest ==> sessionId(t) != id
      {
        var t :| t in rest;
        rest := rest - {t};
        if sessionId(t) == id {
          token := t;
          Delete(t);
          return true, token;
        }
      }
      found := false;
    }
  }

  // ---- When the index agrees with the sessions --------------------------------------------------

  // ListByUser would return exactly the live sessions of every user.
  ghost predicate Agrees(db: Db) {
    && (forall t :: Live(db, t) ==> t in Indexed(db, db.sessions[t].data.userId))
    && (forall u, t :: t in Indexed(db, u) && Live(db, t) ==> db.sessions[t].data.userId == u)
  }

  // ... now and after any time passes.
  ghost predicate AgreesForever(db: Db) {
    forall d: nat :: Agrees(Elapsed(db, d))
  }

  // A token is indexed under its own user only.
  ghost predicate Owned(db: Db) {
    forall u, t :: u in db.index && t in db.index[u].tokens && t in db.sessions ==> db.sessions[t].data.userId == u
  }

  // The index entry of a live session lasts at least as long as the session.
  ghost predicate Covered(db: Db, t: string) {
    Live(db, t) ==>
      var u := db.sessions[t].data.userId;
      u in db.index && t in db.index[u].tokens && db.index[u].expires >= db.sessions[t].expires
  }

  ghost predicate Safe(db: Db) {
    Owned(db) && forall t :: Covered(db, t)
  }

  lemma SafeMeansForever(db: Db)
    requires Owned(db)
    ensures Safe(db) <==> AgreesForever(db)
  {
    if Safe(db) {
      forall d: nat ensures Agrees(Elapsed(db, d)) {
        var later := Elapsed(db, d);
        forall t | Live(later, t) ensures t in Indexed(later, later.sessions[t].data.userId) {
          assert Live(db, t) && Covered(db, t);
        }
      }
    }
    if AgreesForever(db) {
      forall t ensures Covered(db, t) {
        if Live(db, t) {
          // the last moment of the session
          var d: nat := db.sessions[t].expires - 1 - db.now;
          var later := Elapsed(db, d);
          assert Agrees(later) && Live(later, t);
          assert t in Indexed(later, later.sessions[t].data.userId);
        }
      }
    }
  }

  // A token never used before.
  ghost predicate Fresh(db: Db, token: string) {
    token !in db.sessions && forall u :: u in db.index ==> token !in db.index[u].tokens
  }

  // Every live session of the user ends by the time the new TTL would.
  predicate TtlCovers(db: Db, user: string, ttl: int) {
    forall t :: t in db.sessions && Live(db, t) && db.sessions[t].data.userId == user ==> db.sessions[t].expires <= db.now + ttl
  }

  // The exact condition under which issuing a session keeps the index right.
  lemma CreateKeepsAgreement(db: Db, token: string, user: string, ttl: int)
    requires Safe(db) && Fresh(db, token) && ttl > 0
    ensures AgreesForever(Created(db, token, user, ttl)) <==> TtlCovers(db, user, ttl)
  {
    var db2 := Created(db, token, user, ttl);
    assert Owned(db2);
    SafeMeansForever(db2);
    if TtlCovers(db, user, ttl) {
      forall t ensures Covered(db2, t) {
        assert Covered(db, t);
      }
    } else {
      var t :| t in db.sessions && Live(db, t) && db.sessions[t].data.userId == user && db.sessions[t].expires > db.now + ttl;
      assert !Covered(db2, t);
    }
  }

  // ... and the same for renewing one, counting the user's other sessions.
  lemma RefreshKeepsAgreement(db: Db, token: string, ttl: int)
    requires Safe(db) && Live(db, token) && ttl > 0
    ensures
      var others := db.(sessions := db.sessions - {token});
      AgreesForever(Refreshed(db, token, ttl)) <==> TtlCovers(others, db.sessions[token].data.userId, ttl)
  {
    var user := db.sessions[token].data.userId;
    var others := db.(sessions := db.sessions - {token});
    var db2 := Refreshed(db, token, ttl);
    assert Covered(db, token);
    assert Owned(db2);
    SafeMeansForever(db2);
    if TtlCovers(others, user, ttl) {
      forall t ensures Covered(db2, t) {
        assert Covered(db, t);
        if t != token && Live(db, t) {
          assert Live(others, t);
        }
      }
    } else {
      var t :| t in others.sessions && Live(others, t) && others.sessions[t].data.userId == user && others.sessions[t].expires > db.now + ttl;
      assert !Covered(db2, t);
    }
  }

  // A user with a week-long session logs in again after the policy was shortened to
  // an hour: an hour later the first session is live but no longer listed.
  lemma ShorterTtlHidesSession(user: string)
    ensures
      var db0 := Db(0, map[], map[]);
      var db1 := Created(Created(db0, "first", user, 168), "second", user, 1);
      Live(Elapsed(db1, 1), "first") && Indexed(Elapsed(db1, 1), user) == {}
  {
    assert "first" != "second";
  }

  // ---- Any sequence of operations ------------------------------------------------------------------

  datatype Op =
    | Create(token: string, user: string, ttl: int)
    | Refresh(token: string, ttl: int)
    | Delete(token: string)
    | List(user: string)
    | Wait(d: nat)

  function Apply(op: Op, db: Db): Db {
    match op
    case Create(token, user, ttl) => Created(db, token, user, ttl)
    case Refresh(token, ttl) => Refreshed(db, token, ttl)
    case Delete(token) => Deleted(db, token)
    case List(user) => Listed(db, user)
    case Wait(d) => Elapsed(db, d)
  }

  function Ttl(op: Op, last: int): int {
    match op
    case Create(_, _, ttl) => ttl
    case Refresh(_, ttl) => ttl
    case _ => last
  }

  // Tokens are fresh and TTLs never decrease over time.
  ghost predicate Regular(db: Db, last: int, ops: seq<Op>)
    decreases |ops|
  {
    ops == [] ||
    (&& (ops[0].Create? ==> Fresh(db, ops[0].token))
     && Ttl(ops[0], last) >= last > 0
     && Regular(Apply(ops[0], db), Ttl(ops[0], last), ops[1..]))
  }

  function After(db: Db, ops: seq<Op>): Db
    decreases |ops|
  {
    if ops == [] then db else After(Apply(ops[0], db), ops[1..])
  }

  // No live session outlasts the latest TTL.
  ghost predicate Bounded(db: Db, ttl: int) {
    forall t :: Live(db, t) ==> db.sessions[t].expires <= db.now + ttl
  }

  lemma OpKeepsSafe(db: Db, op: Op, last: int)
    requires Safe(db) && Bounded(db, last) && Ttl(op, last) >= last > 0
    requires op.Create? ==> Fresh(db, op.token)
    ensures Safe(Apply(op, db)) && Bounded(Apply(op, db), Ttl(op, last))
  {
    OpKeepsOwned(db, op);
    forall t ensures Covered(Apply(op, db), t) {
      OpKeepsCovered(db, op, last, t);
    }
  }

  lemma OpKeepsOwned(db: Db, op: Op)
    requires Safe(db) && (op.Create? ==> Fresh(db, op.token))
    ensures Owned(Apply(op, db))
  {
  }

  lemma OpKeepsCovered(db: Db, op: Op, last: int, t: string)
    requires Safe(db) && Bounded(db, last) && Ttl(op, last) >= last > 0
    requires op.Create? ==> Fresh(db, op.token)
    ensures Covered(Apply(op, db), t)
  {
    assert Covered(db, t);
    if op.Refresh? && Live(db, op.token) {
      assert Covered(db, op.token);
    }
  }

  lemma {:induction false} SafeRun(db: Db, last: int, ops: seq<Op>)
    requires Safe(db) && Bounded(db, last) && Regular(db, last, ops)
    ensures Safe(After(db, ops))
    decreases |ops|
  {
    if ops != [] {
      OpKeepsSafe(db, ops[0], last);
      SafeRun(Apply(ops[0], db), Ttl(ops[0], last), ops[1..]);
    }
  }

  // If TTLs never decrease, then after any sequence of operations the list of a user
  // holds exactly that user's live sessions, and each can be revoked: deleting it
  // ends it and leaves every other session as it was.
  lemma IndexAgreesWithSessions(start: int, last: int, ops: seq<Op>, t: string, user: string)
    requires Regular(Db(start, map[], map[]), last, ops)
    ensures
      var db := After(Db(start, map[], map[]), ops);
      && (t in Indexed(db, user) && Live(db, t) <==> Live(db, t) && db.sessions[t].data.userId == user)
      && !Live(Deleted(db, t), t)
      && (forall other :: other != t ==> (Live(Deleted(db, t), other) <==> Live(db, other)))
      && AgreesForever(Deleted(db, t))
  {
    var db := After(Db(start, map[], map[]), ops);
    SafeRun(Db(start, map[], map[]), last, ops);
    assert Covered(db, t);
    assert Owned(Deleted(db, t));
    forall other ensures Covered(Deleted(db, t), other) {
      assert Covered(db, other);
    }
    SafeMeansForever(Deleted(db, t));
  }

  // ---- Exactly which sequences keep the index right ---------------------------------------------

  // Tokens are fresh and TTLs positive.
  ghost predicate Issued(db: Db, ops: seq<Op>)
    decreases |ops|
  {
    ops == [] ||
    (&& (ops[0].Create? ==> Fresh(db, ops[0].token))
     && (ops[0].Create? || ops[0].Refresh? ==> ops[0].ttl > 0)
     && Issued(Apply(ops[0], db), ops[1..]))
  }

  // The new TTL covers what is left of the user's other sessions.
  predicate Covers(db: Db, op: Op) {
    match op
    case Create(_, user, ttl) => TtlCovers(db, user, ttl)
    case Refresh(token, ttl) =>
      Live(db, token) ==> TtlCovers(db.(sessions := db.sessions - {token}), db.sessions[token].data.userId, ttl)
    case _ => true
  }

  ghost predicate AllCover(db: Db, ops: seq<Op>)
    decreases |ops|
  {
    ops == [] || (Covers(db, ops[0]) && AllCover(Apply(ops[0], db), ops[1..]))
  }

  lemma ShrinkingKeepsSafe(db: Db, op: Op)
    requires Safe(db) && (op.Delete? || op.List? || op.Wait?)
    ensures Safe(Apply(op, db))
  {
    OpKeepsOwned(db, op);
    forall t ensures Covered(Apply(op, db), t) {
      assert Covered(db, t);
    }
  }

  // One operation, exactly.
  lemma OpKeepsAgreement(db: Db, op: Op)
    requires Safe(db) && (op.Create? ==> Fresh(db, op.token)) && (op.Create? || op.Refresh? ==> op.ttl > 0)
    ensures AgreesForever(Apply(op, db)) <==> Covers(db, op)
    ensures AgreesForever(Apply(op, db)) <==> Safe(Apply(op, db))
  {
    hide Safe, AgreesForever, TtlCovers, Fresh;
    SafeIsOwned(db);
    OpKeepsOwned(db, op);
    SafeMeansForever(Apply(op, db));
    match op {
      case Create(token, user, ttl) => CreateKeepsAgreement(db, token, user, ttl);
      case Refresh(token, ttl) =>
        if Live(db, token) {
          RefreshKeepsAgreement(db, token, ttl);
        }
      case _ => ShrinkingKeepsSafe(db, op);
    }
  }

  lemma SafeIsOwned(db: Db)
    requires Safe(db)
    ensures Owned(db)
  {
  }

  // From agreement on: at every moment of a sequence list and sessions agree, now and
  // for ever, exactly if every login and every renewal covers what it must when it is
  // made. One that does not hides a live session from the list.
  lemma {:induction false} AgreementAlongSequence(db: Db, ops: seq<Op>)
    requires Safe(db) && Issued(db, ops)
    ensures (forall n :: 0 <= n <= |ops| ==> AgreesForever(After(db, ops[..n]))) <==> AllCover(db, ops)
    decreases |ops|
  {
    hide Safe, AgreesForever, Covers, Apply, Fresh;
    SafeIsOwned(db);
    SafeMeansForever(db);
    assert ops[..0] == [] && After(db, ops[..0]) == db;
    if ops != [] {
      var next, rest := Apply(ops[0], db), ops[1..];
      OpKeepsAgreement(db, ops[0]);
      forall n | 0 < n <= |ops| ensures After(db, ops[..n]) == After(next, rest[..n - 1]) {
        assert ops[..n][0] == ops[0] && ops[..n][1..] == rest[..n - 1];
      }
      assert rest[..0] == [];
      if AgreesForever(next) {
        AgreementAlongSequence(next, rest);
        forall n | 0 <= n <= |rest| ensures After(next, rest[..n]) == After(db, ops[..n + 1]) {
        }
      } else {
        assert After(db, ops[..1]) == next;
      }
    }
  }

  // From the start.
  lemma AgreementFromStart(start: int, ops: seq<Op>)
    requires Issued(Db(start, map[], map[]), ops)
    ensures (forall n :: 0 <= n <= |ops| ==> AgreesForever(After(Db(start, map[], map[]), ops[..n])))
            <==> AllCover(Db(start, map[], map[]), ops)
  {
    hide AgreesForever, Issued;
    AgreementAlongSequence(Db(start, map[], map[]), ops);
  }

  // ---- The life of a session -----------------------------------------------------------------

  datatype Grant = Grant(user: string, since: int, until: int)

  function Clock(start: int, ops: seq<Op>): int {
    if ops == [] then start
    else Clock(start, ops[..|ops| - 1]) + (if ops[|ops| - 1].Wait? then ops[|ops| - 1].d else 0)
  }

  // What the operations so far grant token t: a login its TTL from then, a renewal in
  // time its TTL from then, a deletion nothing.
  function Granted(start: int, ops: seq<Op>, t: string): Option<Grant> {
    if ops == [] then None
    else
      var before, now := Granted(start, ops[..|ops| - 1], t), Clock(start, ops[..|ops| - 1]);
      match ops[|ops| - 1]
      case Create(token, user, ttl) => if token == t then Some(Grant(user, now, now + ttl)) else before
      case Refresh(token, ttl) =>
        if token == t && before.Some? && now < before.value.until then Some(before.value.(until := now + ttl)) else before
      case Delete(token) => if token == t then None else before
      case _ => before
  }

  lemma {:induction false} AfterLast(db: Db, ops: seq<Op>)
    requires ops != []
    ensures After(db, ops) == Apply(ops[|ops| - 1], After(db, ops[..|ops| - 1]))
    decreases |ops|
  {
    hide Apply;
    if |ops| > 1 {
      AfterLast(Apply(ops[0], db), ops[1..]);
      assert ops[1..][..|ops| - 2] == ops[..|ops| - 1][1..];
    }
  }

  // A session is live exactly while its latest login or renewal grants it, unless it was
  // deleted, and it is the session of that login.
  lemma {:induction false} SessionLife(start: int, ops: seq<Op>, t: string)
    ensures
      var db, g := After(Db(start, map[], map[]), ops), Granted(start, ops, t);
      && db.now == Clock(start, ops)
      && (g.Some? <==> t in db.sessions)
      && (g.Some? ==> db.sessions[t] == Entry(Session(g.value.user, g.value.since), g.value.until))
      && (Live(db, t) <==> g.Some? && Clock(start, ops) < g.value.until)
  {
    if ops != [] {
      SessionLife(start, ops[..|ops| - 1], t);
      AfterLast(Db(start, map[], map[]), ops);
    }
  }

  // Deleting a live session takes it out of its user's index ...
  lemma DeletePrunes(db: Db, t: string)
    requires Owned(db) && Live(db, t)
    ensures forall user :: Indexed(Deleted(db, t), user) == Indexed(db, user) - {t}
  {
  }

  // ... and listing a user's sessions takes the expired ones out.
  lemma ListPrunes(db: Db, user: string)
    ensures Indexed(Listed(db, user), user) == set t | t in Indexed(db, user) && Live(db, t)
    ensures forall other :: other != user ==> Indexed(Listed(db, user), other) == Indexed(db, other)
    ensures Listed(db, user).sessions == db.sessions
  {
    var live := set t | t in Indexed(db, user) && Live(db, t);
    assert live == Indexed(db, user) - Stale(db, user);
    if Indexed(db, user) <= Stale(db, user) {
      assert live == {};
    }
  }
}
