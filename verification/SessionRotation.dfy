/**
 * Refresh-token rotation. Each SQL statement is one atomic step; a rotation is a
 * conditional update followed by a separate insert into the history, and any other
 * statement may run in between. The credential hash is a parameter.
 */
module SessionRotation {
  import opened Prelude

  type Hash = string -> string

  datatype Session = Session(userId: string, refreshToken: string, revoked: bool, expiresAt: nat)

  datatype HistoryRow = HistoryRow(sessionId: string, userId: string, expiresAt: nat)

  /** The Session table by id, and SessionRefreshHistory by its unique token hash. */
  datatype Tables = Tables(sessions: map<string, Session>, history: map<string, HistoryRow>)

  /** The stored forms that match a presented token: its hash, or the token itself for legacy rows. */
  predicate Matches(h: Hash, stored: string, token: string) {
    stored == h(token) || stored == token
  }

  // ----- the statements -----

  /** The guard of the conditional update in rotate. */
  predicate CanRotate(h: Hash, t: Tables, sessionId: string, userId: string, token: string, now: nat) {
    && sessionId in t.sessions
    && t.sessions[sessionId].userId == userId
    && Matches(h, t.sessions[sessionId].refreshToken, token)
    && !t.sessions[sessionId].revoked
    && t.sessions[sessionId].expiresAt > now
  }

  function Swap(h: Hash, t: Tables, sessionId: string, userId: string, token: string, newStored: string,
      expiresAt: nat, now: nat): Tables {
    if CanRotate(h, t, sessionId, userId, token, now) then
      t.(sessions := t.sessions[sessionId := Session(userId, newStored, false, expiresAt)])
    else t
  }

  /** INSERT IGNORE: a row with the same token hash stays as it is. */
  function Record(h: Hash, t: Tables, sessionId: string, userId: string, token: string, expiresAt: nat): Tables {
    if h(token) in t.history then t
    else t.(history := t.history[h(token) := HistoryRow(sessionId, userId, expiresAt)])
  }

  function RevokeToken(h: Hash, t: Tables, token: string): Tables {
    t.(sessions := map id | id in t.sessions ::
         if Matches(h, t.sessions[id].refreshToken, token) then t.sessions[id].(revoked := true) else t.sessions[id])
  }

  function RevokeFamily(t: Tables, userId: string): Tables {
    t.(sessions := map id | id in t.sessions ::
         if t.sessions[id].userId == userId then t.sessions[id].(revoked := true) else t.sessions[id])
  }

  function Reused(h: Hash, t: Tables, token: string, now: nat): Option<HistoryRow> {
    if h(token) in t.history && t.history[h(token)].expiresAt > now then Some(t.history[h(token)]) else None
  }

  predicate SameButRevoked(s: Session, s': Session) {
    s'.userId == s.userId && s'.refreshToken == s.refreshToken && s'.expiresAt == s.expiresAt
  }

  /** The repository over its two tables. */
  class SessionRepository {
    const hash: Hash
    var tables: Tables

    constructor (hash: Hash)
      ensures this.hash == hash && tables == Tables(map[], map[])
    {
      this.hash := hash;
      tables := Tables(map[], map[]);
    }

    /** Looks for the hashed form first, then for a legacy plaintext row. */
    method FindByRefreshToken(token: string) returns (found: Option<string>)
      ensures found.Some? ==>
                found.value in tables.sessions
                && (tables.sessions[found.value].refreshToken == hash(token)
                    || tables.sessions[found.value].refreshToken == token)
      ensures found.None? ==>
                forall id | id in tables.sessions ::
                  tables.sessions[id].refreshToken != hash(token) && tables.sessions[id].refreshToken != token
      ensures (exists id :: id in tables.sessions && tables.sessions[id].refreshToken == hash(token)) ==>
                found.Some? && tables.sessions[found.value].refreshToken == hash(token)
    {
      if exists id :: id in tables.sessions && tables.sessions[id].refreshToken == hash(token) {
        var id :| id in tables.sessions && tables.sessions[id].refreshToken == hash(token);
        return Some(id);
      }
      if exists id :: id in tables.sessions && tables.sessions[id].refreshToken == token {
        var id :| id in tables.sessions && tables.sessions[id].refreshToken == token;
        return Some(id);
      }
      return None;
    }

    /** Revokes every session that matches the token and nothing else; the token rotates nothing afterwards. */
    method RevokeByRefreshToken(token: string)
      modifies this
      ensures tables == RevokeToken(hash, old(tables), token)
      ensures tables.history == old(tables).history && tables.sessions.Keys == old(tables).sessions.Keys
      ensures forall id | id in tables.sessions ::
                && SameButRevoked(old(tables).sessions[id], tables.sessions[id])
                && (tables.sessions[id].revoked <==>
                      old(tables).sessions[id].revoked || tables.sessions[id].refreshToken == hash(token)
                      || tables.sessions[id].refreshToken == token)
      ensures forall id, userId, now :: !CanRotate(hash, tables, id, userId, token, now)
    {
      tables := RevokeToken(hash, tables, token);
    }

    /** Revokes every session of the user and nothing else; the user rotates nothing afterwards. */
    method RevokeActiveFamily(userId: string)
      modifies this
      ensures tables == RevokeFamily(old(tables), userId)
      ensures tables.history == old(tables).history && tables.sessions.Keys == old(tables).sessions.Keys
      ensures forall id | id in tables.sessions ::
                && SameButRevoked(old(tables).sessions[id], tables.sessions[id])
                && (tables.sessions[id].revoked
                    <==> old(tables).sessions[id].revoked || tables.sessions[id].userId == userId)
      ensures forall id, token, now :: !CanRotate(hash, tables, id, userId, token, now)
    {
      tables := RevokeFamily(tables, userId);
    }

    /** The token is in the history afterwards; no row that was there changes. */
    method RecordRotation(sessionId: string, userId: string, token: string, expiresAt: nat)
      modifies this
      ensures tables == Record(hash, old(tables), sessionId, userId, token, expiresAt)
      ensures tables.sessions == old(tables).sessions && tables.history.Keys == old(tables).history.Keys + {hash(token)}
      ensures forall k | k in old(tables).history :: tables.history[k] == old(tables).history[k]
      ensures hash(token) !in old(tables).history ==>
                forall now: nat :: Reused(hash, tables, token, now).Some? <==> now < expiresAt
    {
      tables := Record(hash, tables, sessionId, userId, token, expiresAt);
    }

    /**
     * Without interference: succeeds exactly for the user's own session that stores the
     * token's hash or the token itself, is not revoked and has not expired; then both
     * statements take effect, otherwise neither.
     */
    method Rotate(sessionId: string, userId: string, token: string, newStored: string, expiresAt: nat, now: nat)
        returns (rotated: bool)
      modifies this
      ensures rotated <==>
                sessionId in old(tables).sessions
                && var session := old(tables).sessions[sessionId];
                   session.userId == userId && (session.refreshToken == hash(token) || session.refreshToken == token)
                   && !session.revoked && session.expiresAt > now
      ensures !rotated ==> tables == old(tables)
      ensures rotated ==>
                tables.sessions == old(tables.sessions)[sessionId := Session(userId, newStored, false, expiresAt)]
                && tables.history.Keys == old(tables).history.Keys + {hash(token)}
                && (hash(token) !in old(tables).history ==>
                      tables.history[hash(token)] == HistoryRow(sessionId, userId, expiresAt))
                && forall k | k in old(tables.history) :: k in tables.history
                    && tables.history[k] == old(tables.history)[k]
    {
      rotated := CanRotate(hash, tables, sessionId, userId, token, now);
      tables := Swap(hash, tables, sessionId, userId, token, newStored, expiresAt, now);
      if !rotated {
        return;
      }
      RecordRotation(sessionId, userId, token, expiresAt);
    }

    /** The history row of the token while it has not expired. */
    method FindReusedToken(token: string, now: nat) returns (row: Option<HistoryRow>)
      ensures row == Reused(hash, tables, token, now)
      ensures row.None? <==> hash(token) !in tables.history || tables.history[hash(token)].expiresAt <= now
    {
      if hash(token) in tables.history {
        var found := tables.history[hash(token)];
        if found.expiresAt > now {
          return Some(found);
        }
      }
      return None;
    }
  }

  // ----- interleaved runs -----

  /** A successful rotation: who consumed which token, and the stored value it replaced. */
  datatype Rotation = Rotation(request: nat, sessionId: string, userId: string, token: string, stored: string)

  /** A request between its update and its history insert. */
  datatype Pending = Pending(sessionId: string, userId: string, token: string, expiresAt: nat)

  /** Tables, requests in flight, every token value ever stored, and the rotations so far. */
  datatype State = State(tables: Tables, pending: map<nat, Pending>, issued: set<string>, log: seq<Rotation>)

  datatype Step =
    | Login(sessionId: string, session: Session)
    | RotateUpdate(request: nat, sessionId: string, userId: string, token: string, newStored: string, expiresAt: nat,
        now: nat)
    | RotateInsert(request: nat)
    | Logout(token: string)
    | RevokeAll(userId: string)

  const Start := State(Tables(map[], map[]), map[], {}, [])

  /** A newly generated value: never stored before and unrelated by the hash to anything stored. */
  predicate Fresh(h: Hash, issued: set<string>, v: string) {
    v !in issued && h(v) != v && forall a | a in issued :: h(a) != v && h(v) != a
  }

  /** New sessions have new ids and fresh tokens; each request makes one update and then its insert. */
  predicate Enabled(h: Hash, s: State, step: Step) {
    match step
    case Login(id, session) => id !in s.tables.sessions && Fresh(h, s.issued, session.refreshToken)
    case RotateUpdate(request, _, _, _, newStored, _, _) => request !in s.pending && Fresh(h, s.issued, newStored)
    case RotateInsert(request) => request in s.pending
    case _ => true
  }

  function Next(h: Hash, s: State, step: Step): State
    requires Enabled(h, s, step)
  {
    match step
    case Login(id, session) =>
      s.(tables := s.tables.(sessions := s.tables.sessions[id := session]), issued := s.issued + {session.refreshToken})
    case RotateUpdate(request, id, userId, token, newStored, expiresAt, now) =>
      if CanRotate(h, s.tables, id, userId, token, now) then
        State(Swap(h, s.tables, id, userId, token, newStored, expiresAt, now),
              s.pending[request := Pending(id, userId, token, expiresAt)],
              s.issued + {newStored},
              s.log + [Rotation(request, id, userId, token, s.tables.sessions[id].refreshToken)])
      else s
    case RotateInsert(request) =>
      var p := s.pending[request];
      s.(tables := Record(h, s.tables, p.sessionId, p.userId, p.token, p.expiresAt), pending := s.pending - {request})
    case Logout(token) => s.(tables := RevokeToken(h, s.tables, token))
    case RevokeAll(userId) => s.(tables := RevokeFamily(s.tables, userId))
  }

  predicate Runs(h: Hash, s: State, steps: seq<Step>)
    decreases |steps|
  {
    steps != [] ==> Enabled(h, s, steps[0]) && Runs(h, Next(h, s, steps[0]), steps[1..])
  }

  function Run(h: Hash, s: State, steps: seq<Step>): State
    requires Runs(h, s, steps)
    decreases |steps|
  {
    if steps == [] then s else Run(h, Next(h, s, steps[0]), steps[1..])
  }

  // ----- invariant -----

  ghost predicate TokensOk(h: Hash, s: State) {
    && (forall id | id in s.tables.sessions :: s.tables.sessions[id].refreshToken in s.issued)
    && (forall a, b | a in s.issued && b in s.issued :: h(a) != b)
    && (forall id, id' | id in s.tables.sessions && id' in s.tables.sessions && id != id' ::
          s.tables.sessions[id].refreshToken != s.tables.sessions[id'].refreshToken)
  }

  ghost predicate LogOk(h: Hash, s: State) {
    && (forall i | 0 <= i < |s.log| :: s.log[i].stored in s.issued && Matches(h, s.log[i].stored, s.log[i].token))
    && (forall i, id | 0 <= i < |s.log| && id in s.tables.sessions ::
          s.log[i].stored != s.tables.sessions[id].refreshToken)
    && (forall i, j | 0 <= i < j < |s.log| :: s.log[i].stored != s.log[j].stored)
  }

  /** The rotation has been written to the history, or its request is between its two statements. */
  ghost predicate Accounted(h: Hash, s: State, r: Rotation) {
    (h(r.token) in s.tables.history
     && s.tables.history[h(r.token)].sessionId == r.sessionId && s.tables.history[h(r.token)].userId == r.userId)
    || (r.request in s.pending && s.pending[r.request].token == r.token
        && s.pending[r.request].sessionId == r.sessionId && s.pending[r.request].userId == r.userId)
  }

  ghost predicate Logged(log: seq<Rotation>, token: string, sessionId: string, userId: string) {
    exists i :: 0 <= i < |log| && log[i].token == token && log[i].sessionId == sessionId && log[i].userId == userId
  }

  ghost predicate AllAccounted(h: Hash, s: State) {
    forall i | 0 <= i < |s.log| :: Accounted(h, s, s.log[i])
  }

  ghost predicate PendingLogged(s: State) {
    forall q | q in s.pending :: Logged(s.log, s.pending[q].token, s.pending[q].sessionId, s.pending[q].userId)
  }

  /** The history row comes from the rotation of a token with that hash. */
  ghost predicate RowLogged(h: Hash, s: State, k: string)
    requires k in s.tables.history
  {
    exists i :: 0 <= i < |s.log| && h(s.log[i].token) == k && s.log[i].sessionId == s.tables.history[k].sessionId
        && s.log[i].userId == s.tables.history[k].userId
  }

  ghost predicate HistoryOk(h: Hash, s: State) {
    AllAccounted(h, s) && PendingLogged(s) && forall k | k in s.tables.history :: RowLogged(h, s, k)
  }

  ghost predicate Inv(h: Hash, s: State) {
    TokensOk(h, s) && LogOk(h, s) && HistoryOk(h, s)
  }

  ghost predicate Injective(h: Hash) {
    forall a: string, b: string :: h(a) == h(b) ==> a == b
  }

  lemma TokensKept(h: Hash, s: State, step: Step)
    requires TokensOk(h, s) && LogOk(h, s) && Enabled(h, s, step)
    ensures TokensOk(h, Next(h, s, step)) && LogOk(h, Next(h, s, step))
  {
    StoredTokensKept(h, s, step);
    LogKept(h, s, step);
  }

  lemma StoredTokensKept(h: Hash, s: State, step: Step)
    requires TokensOk(h, s) && Enabled(h, s, step)
    ensures TokensOk(h, Next(h, s, step))
  {
  }

  lemma LogKept(h: Hash, s: State, step: Step)
    requires TokensOk(h, s) && LogOk(h, s) && Enabled(h, s, step)
    ensures LogOk(h, Next(h, s, step))
  {
  }

  lemma OneRotationPerToken(h: Hash, s: State, i: nat, j: nat)
    requires TokensOk(h, s) && LogOk(h, s) && i < j < |s.log|
    ensures s.log[i].token != s.log[j].token
  {
    assert s.log[i].stored != s.log[j].stored;
  }

  lemma HistoryKept(h: Hash, s: State, step: Step)
    requires Injective(h) && Inv(h, s) && Enabled(h, s, step)
    ensures HistoryOk(h, Next(h, s, step))
  {
    if step.RotateUpdate? && CanRotate(h, s.tables, step.sessionId, step.userId, step.token, step.now) {
      UpdateKept(h, s, step);
    } else if step.RotateInsert? {
      InsertKept(h, s, step.request);
    } else {
      var s' := Next(h, s, step);
      assert s'.tables.history == s.tables.history && s'.pending == s.pending && s'.log == s.log;
      HistoryOfSame(h, s, s');
    }
  }

  lemma HistoryOfSame(h: Hash, s: State, s': State)
    requires HistoryOk(h, s) && s'.tables.history == s.tables.history && s'.pending == s.pending && s'.log == s.log
    ensures HistoryOk(h, s')
  {
    forall i | 0 <= i < |s'.log| ensures Accounted(h, s', s'.log[i]) { assert Accounted(h, s, s.log[i]); }
    forall k | k in s'.tables.history ensures RowLogged(h, s', k) { assert RowLogged(h, s, k); }
  }

  lemma UpdateKept(h: Hash, s: State, step: Step)
    requires Inv(h, s) && Enabled(h, s, step) && step.RotateUpdate?
    requires CanRotate(h, s.tables, step.sessionId, step.userId, step.token, step.now)
    ensures HistoryOk(h, Next(h, s, step))
  {
    hide TokensOk, LogOk;
    var s' := Next(h, s, step);
    var last := |s.log|;
    assert s'.log[last].token == step.token && s'.log[last].request == step.request;
    assert forall i | 0 <= i < last :: s'.log[i] == s.log[i];
    assert s'.tables.history == s.tables.history;
    forall i | 0 <= i < |s'.log| ensures Accounted(h, s', s'.log[i]) {
      if i < last { assert Accounted(h, s, s.log[i]); }
    }
    forall q | q in s'.pending
      ensures Logged(s'.log, s'.pending[q].token, s'.pending[q].sessionId, s'.pending[q].userId)
    {
      if q != step.request {
        LoggedLonger(s.log, s'.log[last], s.pending[q].token, s.pending[q].sessionId, s.pending[q].userId);
      }
    }
    forall k | k in s'.tables.history ensures RowLogged(h, s', k) {
      assert RowLogged(h, s, k);
      var i :| 0 <= i < |s.log| && h(s.log[i].token) == k && s.log[i].sessionId == s.tables.history[k].sessionId
          && s.log[i].userId == s.tables.history[k].userId;
      assert s'.log[i] == s.log[i];
    }
  }

  lemma LoggedLonger(log: seq<Rotation>, r: Rotation, token: string, sessionId: string, userId: string)
    requires Logged(log, token, sessionId, userId)
    ensures Logged(log + [r], token, sessionId, userId)
  {
    var i :| 0 <= i < |log| && log[i].token == token && log[i].sessionId == sessionId && log[i].userId == userId;
    assert (log + [r])[i] == log[i];
  }

  lemma InsertKept(h: Hash, s: State, request: nat)
    requires Injective(h) && Inv(h, s) && request in s.pending
    ensures HistoryOk(h, Next(h, s, RotateInsert(request)))
  {
    hide TokensOk, LogOk;
    var s' := Next(h, s, RotateInsert(request));
    var p := s.pending[request];
    var m := RotationOf(h, s, request);
    forall i | 0 <= i < |s'.log| ensures Accounted(h, s', s'.log[i]) {
      assert Accounted(h, s, s.log[i]);
      if s.log[i].token == p.token {
        SameRotation(h, s, m, i);
      } else {
        assert h(s.log[i].token) != h(p.token);
      }
    }
    forall k | k in s'.tables.history ensures RowLogged(h, s', k) {
      if k in s.tables.history {
        assert RowLogged(h, s, k);
      } else {
        assert s'.log[m].token == p.token;
      }
    }
  }

  /** The rotation behind a request in flight; a history row with its hash can only be its own. */
  lemma RotationOf(h: Hash, s: State, request: nat) returns (m: nat)
    requires Injective(h) && Inv(h, s) && request in s.pending
    ensures m < |s.log| && s.log[m].token == s.pending[request].token
    ensures s.log[m].sessionId == s.pending[request].sessionId && s.log[m].userId == s.pending[request].userId
    ensures var k := h(s.pending[request].token);
            k in s.tables.history ==>
              s.tables.history[k].sessionId == s.log[m].sessionId && s.tables.history[k].userId == s.log[m].userId
  {
    hide TokensOk, LogOk;
    var p := s.pending[request];
    assert Logged(s.log, p.token, p.sessionId, p.userId);
    m :| 0 <= m < |s.log| && s.log[m].token == p.token && s.log[m].sessionId == p.sessionId
        && s.log[m].userId == p.userId;
    var k := h(p.token);
    if k in s.tables.history {
      assert RowLogged(h, s, k);
      var n :| 0 <= n < |s.log| && h(s.log[n].token) == k && s.log[n].sessionId == s.tables.history[k].sessionId
          && s.log[n].userId == s.tables.history[k].userId;
      SameRotation(h, s, m, n);
    }
  }

  lemma SameRotation(h: Hash, s: State, i: nat, j: nat)
    requires Injective(h) && TokensOk(h, s) && LogOk(h, s) && i < |s.log| && j < |s.log|
    requires h(s.log[i].token) == h(s.log[j].token)
    ensures i == j
  {
    if i < j { OneRotationPerToken(h, s, i, j); } else if j < i { OneRotationPerToken(h, s, j, i); }
  }

  lemma {:induction false} RunKeeps(h: Hash, s: State, steps: seq<Step>)
    requires Injective(h) && Inv(h, s) && Runs(h, s, steps)
    ensures Inv(h, Run(h, s, steps))
    decreases |steps|
  {
    hide Inv, Enabled, Next;
    if steps != [] {
      StepKeeps(h, s, steps[0]);
      RunKeeps(h, Next(h, s, steps[0]), steps[1..]);
    }
  }

  lemma StepKeeps(h: Hash, s: State, step: Step)
    requires Injective(h) && Inv(h, s) && Enabled(h, s, step)
    ensures Inv(h, Next(h, s, step))
  {
    hide TokensOk, LogOk, HistoryOk;
    TokensKept(h, s, step);
    HistoryKept(h, s, step);
  }

  // ----- main results over every interleaving -----

  /** Each refresh token is consumed by at most one successful rotation. */
  lemma ConsumedAtMostOnce(h: Hash, steps: seq<Step>, i: nat, j: nat)
    requires Injective(h) && Runs(h, Start, steps)
    requires i < j < |Run(h, Start, steps).log|
    ensures Run(h, Start, steps).log[i].token != Run(h, Start, steps).log[j].token
  {
    RunKeeps(h, Start, steps);
    OneRotationPerToken(h, Run(h, Start, steps), i, j);
  }

  /** The stored values a session has had, its current one last. */
  function Chain(log: seq<Rotation>, id: string, current: string): seq<string> {
    if log == [] then [current]
    else (if log[0].sessionId == id then [log[0].stored] else []) + Chain(log[1..], id, current)
  }

  lemma {:induction false} ChainDistinct(log: seq<Rotation>, id: string, current: string)
    requires forall i, j | 0 <= i < j < |log| :: log[i].stored != log[j].stored
    requires forall i | 0 <= i < |log| :: log[i].stored != current
    ensures forall i, j | 0 <= i < j < |Chain(log, id, current)| ::
            Chain(log, id, current)[i] != Chain(log, id, current)[j]
    ensures forall v | v in Chain(log, id, current) :: v == current || exists i :: 0 <= i < |log| && log[i].stored == v
  {
    if log != [] {
      ChainDistinct(log[1..], id, current);
      var rest := Chain(log[1..], id, current);
      forall v | v in rest
        ensures v != log[0].stored
        ensures v == current || exists i :: 0 <= i < |log| && log[i].stored == v
      {
        if v != current {
          var i :| 0 <= i < |log[1..]| && log[1..][i].stored == v;
          assert log[i + 1].stored == v;
        }
      }
      var chain := Chain(log, id, current);
      assert chain == (if log[0].sessionId == id then [log[0].stored] else []) + rest;
      forall i, j | 0 <= i < j < |chain| ensures chain[i] != chain[j] {
        if log[0].sessionId == id {
          assert chain[j] == rest[j - 1];
          assert rest[j - 1] in rest;
        } else {
          assert chain == rest;
        }
      }
      assert forall v | v in chain :: v == log[0].stored || v in rest;
    }
  }

  /** A session's past stored tokens and its current one are pairwise distinct. */
  lemma PastAndCurrentDistinct(h: Hash, steps: seq<Step>, id: string)
    requires Injective(h) && Runs(h, Start, steps) && id in Run(h, Start, steps).tables.sessions
    ensures var s := Run(h, Start, steps);
            var chain := Chain(s.log, id, s.tables.sessions[id].refreshToken);
            forall i, j | 0 <= i < j < |chain| :: chain[i] != chain[j]
  {
    RunKeeps(h, Start, steps);
    var s := Run(h, Start, steps);
    ChainDistinct(s.log, id, s.tables.sessions[id].refreshToken);
  }

  /** Every consumed token is in the history under its session, or its request is between its two statements. */
  lemma ConsumedIsAccounted(h: Hash, steps: seq<Step>, i: nat)
    requires Injective(h) && Runs(h, Start, steps) && i < |Run(h, Start, steps).log|
    ensures Accounted(h, Run(h, Start, steps), Run(h, Start, steps).log[i])
  {
    RunKeeps(h, Start, steps);
  }

  /**
   * Replay: a consumed token matches no session any more, and once its request has
   * finished it is reported as reused, for the right session and user, until the
   * history row expires.
   */
  lemma ReplayIsDetected(h: Hash, steps: seq<Step>, i: nat, now: nat)
    requires Injective(h) && Runs(h, Start, steps) && i < |Run(h, Start, steps).log|
    ensures var s := Run(h, Start, steps);
            var r := s.log[i];
            (forall id | id in s.tables.sessions :: !Matches(h, s.tables.sessions[id].refreshToken, r.token))
            && (r.request !in s.pending ==>
                  h(r.token) in s.tables.history
                  && (Reused(h, s.tables, r.token, now).Some? <==> s.tables.history[h(r.token)].expiresAt > now)
                  && s.tables.history[h(r.token)].sessionId == r.sessionId
                      && s.tables.history[h(r.token)].userId == r.userId)
  {
    RunKeeps(h, Start, steps);
    var s := Run(h, Start, steps);
    assert Accounted(h, s, s.log[i]);
    assert s.log[i].stored in s.issued;
  }

  /**
   * Which replays can be detected, exactly: of the tokens that match what a finished
   * rotation consumed, the history has the one that was presented and no other. So when a
   * stored hash itself was presented, as a legacy token, the original token is not reported.
   */
  lemma ReplayExactly(h: Hash, steps: seq<Step>, i: nat, token: string)
    requires Injective(h) && Runs(h, Start, steps) && i < |Run(h, Start, steps).log|
    requires Run(h, Start, steps).log[i].request !in Run(h, Start, steps).pending
    requires Matches(h, Run(h, Start, steps).log[i].stored, token)
    ensures var s := Run(h, Start, steps);
            h(token) in s.tables.history <==> token == s.log[i].token
    ensures var s := Run(h, Start, steps);
            token != s.log[i].token ==> forall now: nat :: Reused(h, s.tables, token, now).None?
  {
    RunKeeps(h, Start, steps);
    var s := Run(h, Start, steps);
    assert Accounted(h, s, s.log[i]);
    if h(token) in s.tables.history {
      assert RowLogged(h, s, h(token));
      var m :| 0 <= m < |s.log| && h(s.log[m].token) == h(token);
      OneStoredForm(h, s, i, m, token);
    }
  }

  lemma OneStoredForm(h: Hash, s: State, i: nat, m: nat, token: string)
    requires TokensOk(h, s) && LogOk(h, s) && i < |s.log| && m < |s.log|
    requires Matches(h, s.log[i].stored, token) && Matches(h, s.log[m].stored, token)
    ensures i == m
  {
    assert s.log[i].stored in s.issued && s.log[m].stored in s.issued;
  }

  /** At most one session matches a presented token. */
  lemma TokenNamesOneSession(h: Hash, steps: seq<Step>, token: string, id: string, id': string)
    requires Injective(h) && Runs(h, Start, steps)
    requires var t := Run(h, Start, steps).tables;
             id in t.sessions && id' in t.sessions
             && Matches(h, t.sessions[id].refreshToken, token) && Matches(h, t.sessions[id'].refreshToken, token)
    ensures id == id'
  {
    RunKeeps(h, Start, steps);
  }

  /** The step neither revokes the session nor rotates it. */
  predicate Spares(h: Hash, step: Step, id: string, session: Session) {
    match step
    case RotateUpdate(_, sessionId, _, token, _, _, _) =>
      sessionId != id || !(session.refreshToken == h(token) || session.refreshToken == token)
    case Logout(token) => !(session.refreshToken == h(token) || session.refreshToken == token)
    case RevokeAll(userId) => session.userId != userId
    case _ => true
  }

  lemma {:induction false} SparedStays(h: Hash, s: State, steps: seq<Step>, id: string)
    requires Runs(h, s, steps) && id in s.tables.sessions
    requires forall step | step in steps :: Spares(h, step, id, s.tables.sessions[id])
    ensures id in Run(h, s, steps).tables.sessions
    ensures Run(h, s, steps).tables.sessions[id] == s.tables.sessions[id]
    decreases |steps|
  {
    if steps != [] {
      assert steps[0] in steps;
      SparedStays(h, Next(h, s, steps[0]), steps[1..], id);
    }
  }

  /**
   * A valid rotation goes through: whoever presents the token behind the stored value,
   * hashed or legacy, before it expires, after any steps that neither revoked the session
   * nor consumed the token, rotates it, and the rotation is logged.
   */
  lemma ValidRotates(h: Hash, s: State, steps: seq<Step>, id: string, q: nat, token: string, newStored: string,
      expiresAt: nat, now: nat)
    requires Runs(h, s, steps) && id in s.tables.sessions && !s.tables.sessions[id].revoked
    requires forall step | step in steps :: Spares(h, step, id, s.tables.sessions[id])
    requires s.tables.sessions[id].refreshToken == h(token) || s.tables.sessions[id].refreshToken == token
    requires now < s.tables.sessions[id].expiresAt
    requires q !in Run(h, s, steps).pending && Fresh(h, Run(h, s, steps).issued, newStored)
    ensures var before := Run(h, s, steps);
            var session := s.tables.sessions[id];
            var rotate := RotateUpdate(q, id, session.userId, token, newStored, expiresAt, now);
            Enabled(h, before, rotate)
            && var after := Next(h, before, rotate);
               id in after.tables.sessions
               && after.tables.sessions[id] == Session(session.userId, newStored, false, expiresAt)
               && after.log == before.log + [Rotation(q, id, session.userId, token, session.refreshToken)]
               && q in after.pending
  {
    SparedStays(h, s, steps, id);
  }

  /** Revocation can run in every state, and afterwards every session it names is revoked. */
  lemma RevocationTakesEffect(h: Hash, s: State, token: string, userId: string, id: string)
    requires id in s.tables.sessions
    ensures Enabled(h, s, Logout(token)) && Enabled(h, s, RevokeAll(userId))
    ensures var session := s.tables.sessions[id];
            session.refreshToken == h(token) || session.refreshToken == token ==>
              id in Next(h, s, Logout(token)).tables.sessions && Next(h, s, Logout(token)).tables.sessions[id].revoked
    ensures s.tables.sessions[id].userId == userId ==>
              id in Next(h, s, RevokeAll(userId)).tables.sessions
                  && Next(h, s, RevokeAll(userId)).tables.sessions[id].revoked
  {
  }

  /** With the clock past its expiry, a session is never rotated again. */
  lemma {:induction false} ExpiredForever(h: Hash, s: State, steps: seq<Step>, id: string)
    requires Runs(h, s, steps) && id in s.tables.sessions
    requires forall step | step in steps :: step.RotateUpdate? ==> step.now >= s.tables.sessions[id].expiresAt
    ensures id in Run(h, s, steps).tables.sessions
    ensures Run(h, s, steps).tables.sessions[id].refreshToken == s.tables.sessions[id].refreshToken
    ensures Run(h, s, steps).tables.sessions[id].expiresAt == s.tables.sessions[id].expiresAt
    ensures |s.log| <= |Run(h, s, steps).log|
    ensures forall i | |s.log| <= i < |Run(h, s, steps).log| :: Run(h, s, steps).log[i].sessionId != id
    ensures forall i | 0 <= i < |s.log| :: Run(h, s, steps).log[i] == s.log[i]
    decreases |steps|
  {
    if steps != [] {
      assert steps[0] in steps;
      ExpiredStep(h, s, steps[0], id);
      hide Next, Enabled;
      ExpiredForever(h, Next(h, s, steps[0]), steps[1..], id);
    }
  }

  lemma ExpiredStep(h: Hash, s: State, step: Step, id: string)
    requires Enabled(h, s, step) && id in s.tables.sessions
    requires step.RotateUpdate? ==> step.now >= s.tables.sessions[id].expiresAt
    ensures var s' := Next(h, s, step);
            id in s'.tables.sessions
            && s'.tables.sessions[id].refreshToken == s.tables.sessions[id].refreshToken
            && s'.tables.sessions[id].expiresAt == s.tables.sessions[id].expiresAt
            && |s.log| <= |s'.log| <= |s.log| + 1
            && (forall i | 0 <= i < |s.log| :: s'.log[i] == s.log[i])
            && (|s.log| < |s'.log| ==> s'.log[|s.log|].sessionId != id)
  {
  }

  /** Every rotation was made by the owner of its session. */
  ghost predicate Owned(s: State) {
    forall i | 0 <= i < |s.log| ::
      s.log[i].sessionId in s.tables.sessions && s.tables.sessions[s.log[i].sessionId].userId == s.log[i].userId
  }

  lemma OwnedKept(h: Hash, s: State, step: Step)
    requires Owned(s) && Enabled(h, s, step)
    ensures Owned(Next(h, s, step))
  {
  }

  lemma {:induction false} OwnedRun(h: Hash, s: State, steps: seq<Step>)
    requires Owned(s) && Runs(h, s, steps)
    ensures Owned(Run(h, s, steps))
    decreases |steps|
  {
    hide Owned, Next, Enabled;
    if steps != [] {
      OwnedKept(h, s, steps[0]);
      OwnedRun(h, Next(h, s, steps[0]), steps[1..]);
    }
  }

  /** Sessions never change hands: over every run, each rotation was asked for by the session's user. */
  lemma OnlyOwnersRotate(h: Hash, steps: seq<Step>)
    requires Runs(h, Start, steps)
    ensures Owned(Run(h, Start, steps))
  {
    OwnedRun(h, Start, steps);
  }

  /** A revoked session stays as it is and is never rotated again, whatever runs afterwards. */
  lemma {:induction false} RevokedForever(h: Hash, s: State, steps: seq<Step>, id: string)
    requires Runs(h, s, steps) && id in s.tables.sessions && s.tables.sessions[id].revoked
    ensures id in Run(h, s, steps).tables.sessions && Run(h, s, steps).tables.sessions[id] == s.tables.sessions[id]
    ensures |s.log| <= |Run(h, s, steps).log|
    ensures forall i | |s.log| <= i < |Run(h, s, steps).log| :: Run(h, s, steps).log[i].sessionId != id
    ensures forall i | 0 <= i < |s.log| :: Run(h, s, steps).log[i] == s.log[i]
    decreases |steps|
  {
    if steps != [] {
      var s' := Next(h, s, steps[0]);
      assert id in s'.tables.sessions && s'.tables.sessions[id] == s.tables.sessions[id];
      RevokedForever(h, s', steps[1..], id);
    }
  }
}
