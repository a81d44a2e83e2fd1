/** Authentication sessions: login, authentication, logout and deactivation. Expiry writes a row without
    a new version, so the no-ABA argument is weaker here than elsewhere. One tenant is modelled, and
    a session's identifier stands for its token, since token hashes are unique. */
module Auth {
  import opened Prelude

  datatype SessionState = Active | Revoked | Expired

  datatype SessionRow = SessionRow(user: Id, state: SessionState, expiresAt: Instant, lastSeen: Instant, version: int)
  {
    /** Validate passes and changes nothing. */
    predicate Passes(now: Instant) { state == Active && now < expiresAt }

    /** The row after Validate: an error may still have changed it. */
    function Validated(now: Instant): SessionRow {
      if state == Revoked || Passes(now) then this else this.(state := Expired)
    }

    predicate TouchDue(now: Instant, interval: int) { now - lastSeen >= interval }

    function Touched(now: Instant): SessionRow { this.(lastSeen := now, version := version + 1) }

    function Revoke(): Result<SessionRow> {
      if state == Revoked then Ok(this)
      else if state == Expired then Err(Conflict)
      else Ok(this.(state := Revoked, version := version + 1))
    }
  }

  function NewSession(user: Id, now: Instant, ttl: int): Result<SessionRow> {
    if user == NO_ID || ttl <= 0 then Err(Validation)
    else Ok(SessionRow(user, Active, now + ttl, now, 1))
  }

  datatype UserRow = UserRow(active: bool, version: int) {
    function Deactivate(): UserRow {
      if !active then this else this.(active := false, version := version + 1)
    }
  }

  datatype Tables = Tables(users: map<Id, UserRow>, sessions: map<Id, SessionRow>)

  // ---------- The protocol

  /** `readAt` and `clockAt` number the events at which the session and the clock were read. */
  datatype Op =
    | LoggingIn(sid: Id, row: SessionRow)
    | Reading(sid: Id, seen: SessionRow, readAt: nat)
    | Passed(sid: Id, seen: SessionRow, readAt: nat, at: Instant, clockAt: nat)
    | Expiring(sid: Id, seen: SessionRow)
    | Touching(sid: Id, seen: SessionRow, at: Instant)
    | LoggingOut(sid: Id, seen: SessionRow, row: SessionRow)
    | Deactivating(uid: Id, seenUser: UserRow)

  /** A successful Authenticate, with the numbers of the events at which it read session, clock and
      user. */
  datatype Grant = Grant(sid: Id, user: Id, at: Instant, readAt: nat, clockAt: nat, userAt: nat)

  datatype State = State(now: Instant, tables: Tables, ops: set<Op>, grants: seq<Grant>, steps: nat)

  datatype Event =
    | Register(uid: Id)
    | BeginLogin(uid: Id, sid: Id, at: Instant, ttl: int)
    | ReadSession(sid: Id)
    | ReadClock(sid: Id, seen: SessionRow, readAt: nat)
    | ReadUser(sid: Id, seen: SessionRow, readAt: nat, at: Instant, clockAt: nat, interval: int)
    | BeginLogout(sid: Id, actor: Id)
    | BeginDeactivate(uid: Id)
    | Commit(op: Op)
    | Crash(op: Op)
    | Tick(to: Instant)

  /** UPDATE auth_sessions ... WHERE version = expected. */
  function UpdateSession(t: Tables, sid: Id, row: SessionRow, expected: int): Result<Tables> {
    if sid in t.sessions && t.sessions[sid].version == expected
    then Ok(t.(sessions := t.sessions[sid := row])) else Err(Conflict)
  }

  /** RevokeSessionsForUser, on one row. */
  function RevokedFor(row: SessionRow, user: Id): SessionRow {
    if row.user == user && row.state == Active then row.(state := Revoked, version := row.version + 1) else row
  }

  function RevokeSessions(sessions: map<Id, SessionRow>, user: Id): map<Id, SessionRow> {
    map sid | sid in sessions :: RevokedFor(sessions[sid], user)
  }

  function Transact(t: Tables, op: Op): Result<Tables> {
    match op
    case LoggingIn(sid, row) => if sid in t.sessions then Err(Conflict) else Ok(t.(sessions := t.sessions[sid := row]))
    case Expiring(sid, seen) => UpdateSession(t, sid, seen.(state := Expired), seen.version)
    case Touching(sid, seen, at) => UpdateSession(t, sid, seen.Touched(at), seen.version)
    case LoggingOut(sid, seen, row) => UpdateSession(t, sid, row, seen.version)
    case Deactivating(uid, seen) =>
      if uid in t.users && t.users[uid].version == seen.version
      then Ok(Tables(t.users[uid := seen.Deactivate()], RevokeSessions(t.sessions, uid))) else Err(Conflict)
    case _ => Err(Validation)
  }

  /** What an event does besides counting. */
  function Effect(s: State, e: Event): State {
    match e
    case Register(uid) =>
      if uid in s.tables.users then s else s.(tables := s.tables.(users := s.tables.users[uid := UserRow(true, 1)]))
    case BeginLogin(uid, sid, at, ttl) =>
      if uid !in s.tables.users || !s.tables.users[uid].active then s
      else (
        match NewSession(uid, at, ttl)
        case Ok(row) => s.(ops := s.ops + {LoggingIn(sid, row)})
        case Err(_) => s
      )
    case ReadSession(sid) =>
      if sid in s.tables.sessions then s.(ops := s.ops + {Reading(sid, s.tables.sessions[sid], s.steps)}) else s
    case ReadClock(sid, seen, readAt) =>
      if Reading(sid, seen, readAt) !in s.ops then s
      else if seen.Passes(s.now) then s.(ops := s.ops + {Passed(sid, seen, readAt, s.now, s.steps)})
      else if seen.Validated(s.now).state == Expired then s.(ops := s.ops + {Expiring(sid, seen)})
      else s
    case ReadUser(sid, seen, readAt, at, clockAt, interval) =>
      if Passed(sid, seen, readAt, at, clockAt) !in s.ops || seen.user !in s.tables.users
         || !s.tables.users[seen.user].active then s
      else s.(grants := s.grants + [Grant(sid, seen.user, at, readAt, clockAt, s.steps)],
              ops := if seen.TouchDue(at, interval) then s.ops + {Touching(sid, seen, at)} else s.ops)
    case BeginLogout(sid, actor) =>
      if sid !in s.tables.sessions || s.tables.sessions[sid].user != actor then s
      else (
        match s.tables.sessions[sid].Revoke()
        case Ok(row) => s.(ops := s.ops + {LoggingOut(sid, s.tables.sessions[sid], row)})
        case Err(_) => s
      )
    case BeginDeactivate(uid) =>
      if uid in s.tables.users then s.(ops := s.ops + {Deactivating(uid, s.tables.users[uid])}) else s
    case Commit(op) =>
      if op !in s.ops then s
      else (
        match Transact(s.tables, op)
        case Ok(tables) => s.(tables := tables, ops := s.ops - {op})
        case Err(_) => s.(ops := s.ops - {op})
      )
    case Crash(op) => s.(ops := s.ops - {op})
    case Tick(to) => if s.now <= to then s.(now := to) else s
  }

  function Next(s: State, e: Event): State { Effect(s, e).(steps := s.steps + 1) }

  function Run(s: State, events: seq<Event>): State
    decreases |events|
  {
    if events == [] then s else Run(Next(s, events[0]), events[1..])
  }

  predicate Initial(s: State) {
    s.tables == Tables(map[], map[]) && s.ops == {} && s.grants == []
  }

  // ---------- The invariant

  /** How a session row can stand to an older one: unchanged, marked expired in place, or newer. Who it
      belongs to and when it ends never change, and revocation is final. */
  predicate Succeeds(before: SessionRow, after: SessionRow) {
    && after.user == before.user && after.expiresAt == before.expiresAt
    && (after == before || (before.state == Active && after == before.(state := Expired)) || after.version > before.version)
    && (before.state == Revoked ==> after == before)
  }

  predicate UserSucceeds(before: UserRow, after: UserRow) {
    (after == before || after.version > before.version) && (!before.active ==> after == before)
  }

  ghost predicate TablesAdvance(t: Tables, t': Tables) {
    && (forall k | k in t.sessions :: k in t'.sessions && Succeeds(t.sessions[k], t'.sessions[k]))
    && (forall u | u in t.users :: u in t'.users && UserSucceeds(t.users[u], t'.users[u]))
  }

  ghost predicate Seen(t: Tables, sid: Id, seen: SessionRow) {
    sid in t.sessions && Succeeds(seen, t.sessions[sid])
  }

  ghost predicate SessionsOk(t: Tables, now: Instant) {
    forall k | k in t.sessions && t.sessions[k].state == Expired :: t.sessions[k].expiresAt <= now
  }

  ghost predicate OpOk(s: State, op: Op) {
    match op
    case LoggingIn(_, row) => row.state == Active
    case Reading(sid, seen, readAt) =>
      Seen(s.tables, sid, seen) && readAt < s.steps && (seen.state == Expired ==> seen.expiresAt <= s.now)
    case Passed(sid, seen, readAt, at, clockAt) =>
      Seen(s.tables, sid, seen) && seen.Passes(at) && at <= s.now && readAt < clockAt < s.steps
    case Expiring(sid, seen) => Seen(s.tables, sid, seen) && seen.state != Revoked && seen.expiresAt <= s.now
    case Touching(sid, seen, at) => Seen(s.tables, sid, seen) && seen.Passes(at)
    case LoggingOut(sid, seen, row) => Seen(s.tables, sid, seen) && seen.Revoke() == Ok(row)
    case Deactivating(uid, seenUser) =>
      uid in s.tables.users && UserSucceeds(seenUser, s.tables.users[uid])
  }

  ghost predicate GrantOk(s: State, g: Grant) {
    && g.readAt < g.clockAt < g.userAt < s.steps
    && g.sid in s.tables.sessions && g.user == s.tables.sessions[g.sid].user
    && g.at < s.tables.sessions[g.sid].expiresAt && g.at <= s.now
  }

  ghost predicate Inv(s: State) {
    && SessionsOk(s.tables, s.now)
    && (forall op | op in s.ops :: OpOk(s, op))
    && (forall g | g in s.grants :: GrantOk(s, g))
  }

  // ---------- Steps

  /** A guarded session write met the row it saw, or that row marked expired. */
  lemma GuardedWriteMeets(t: Tables, sid: Id, seen: SessionRow, row: SessionRow)
    requires Seen(t, sid, seen) && UpdateSession(t, sid, row, seen.version).Ok?
    ensures t.sessions[sid] == seen || (seen.state == Active && t.sessions[sid] == seen.(state := Expired))
  {
  }

  lemma CommitKeeps(s: State, op: Op)
    requires Inv(s) && op in s.ops && Transact(s.tables, op).Ok?
    ensures var t' := Transact(s.tables, op).value;
      TablesAdvance(s.tables, t') && SessionsOk(t', s.now)
  {
    assert OpOk(s, op);
    match op
    case Expiring(sid, seen) => GuardedWriteMeets(s.tables, sid, seen, seen.(state := Expired));
    case Touching(sid, seen, at) => GuardedWriteMeets(s.tables, sid, seen, seen.Touched(at));
    case LoggingOut(sid, seen, row) => GuardedWriteMeets(s.tables, sid, seen, row);
    case _ =>
  }

  lemma OpStaysOk(s: State, s': State, op: Op)
    requires OpOk(s, op) && TablesAdvance(s.tables, s'.tables) && s.now <= s'.now && s.steps <= s'.steps
    ensures OpOk(s', op)
  {
  }

  lemma TablesAdvanceTransitive(a: Tables, b: Tables, c: Tables)
    requires TablesAdvance(a, b) && TablesAdvance(b, c)
    ensures TablesAdvance(a, c)
  {
    forall k | k in a.sessions
      ensures k in c.sessions && Succeeds(a.sessions[k], c.sessions[k])
    {
      assert Succeeds(a.sessions[k], b.sessions[k]) && Succeeds(b.sessions[k], c.sessions[k]);
    }
    forall u | u in a.users
      ensures u in c.users && UserSucceeds(a.users[u], c.users[u])
    {
      assert UserSucceeds(a.users[u], b.users[u]) && UserSucceeds(b.users[u], c.users[u]);
    }
  }

  lemma EffectKeeps(s: State, e: Event)
    requires Inv(s)
    ensures TablesAdvance(s.tables, Next(s, e).tables) && SessionsOk(Next(s, e).tables, Next(s, e).now)
    ensures s.now <= Next(s, e).now
  {
    if e.Commit? && e.op in s.ops && Transact(s.tables, e.op).Ok? {
      CommitKeeps(s, e.op);
    }
  }

  lemma NewOpOk(s: State, e: Event, op: Op)
    requires Inv(s) && op in Next(s, e).ops && op !in s.ops
    ensures OpOk(Next(s, e), op)
  {
    match e
    case ReadClock(sid, seen, readAt) => assert OpOk(s, Reading(sid, seen, readAt));
    case ReadUser(sid, seen, readAt, at, clockAt, interval) => assert OpOk(s, Passed(sid, seen, readAt, at, clockAt));
    case _ =>
  }

  lemma GrantsKeep(s: State, e: Event)
    requires Inv(s) && TablesAdvance(s.tables, Next(s, e).tables) && s.now <= Next(s, e).now
    ensures forall g | g in Next(s, e).grants :: GrantOk(Next(s, e), g)
  {
    forall g | g in Next(s, e).grants
      ensures GrantOk(Next(s, e), g)
    {
      if g in s.grants {
        assert GrantOk(s, g);
      } else {
        assert OpOk(s, Passed(e.sid, e.seen, e.readAt, e.at, e.clockAt));
      }
    }
  }

  lemma StepKeeps(s: State, e: Event)
    requires Inv(s)
    ensures Inv(Next(s, e)) && TablesAdvance(s.tables, Next(s, e).tables) && s.now <= Next(s, e).now
  {
    EffectKeeps(s, e);
    GrantsKeep(s, e);
    var s' := Next(s, e);
    forall op | op in s'.ops
      ensures OpOk(s', op)
    {
      if op in s.ops { OpStaysOk(s, s', op); } else { NewOpOk(s, e, op); }
    }
  }

  lemma {:induction false} RunKeeps(s: State, events: seq<Event>)
    requires Inv(s)
    ensures Inv(Run(s, events)) && TablesAdvance(s.tables, Run(s, events).tables)
    ensures s.now <= Run(s, events).now && s.steps <= Run(s, events).steps
    decreases |events|
  {
    if events != [] {
      var s1 := Next(s, events[0]);
      StepKeeps(s, events[0]);
      RunKeeps(s1, events[1..]);
      TablesAdvanceTransitive(s.tables, s1.tables, Run(s, events).tables);
    }
  }

  // ---------- Main results

  /** Every guarded session write, however late, met the row its call had seen, or that very row
      marked expired in place: the one change that keeps its version. */
  lemma CommitMeetsSeenOrExpired(s: State, events: seq<Event>, op: Op)
    requires Initial(s) && op in Run(s, events).ops && Transact(Run(s, events).tables, op).Ok?
    requires op.Expiring? || op.Touching? || op.LoggingOut?
    ensures op.sid in Run(s, events).tables.sessions
    ensures var row := Run(s, events).tables.sessions[op.sid];
      row == op.seen || (op.seen.state == Active && row == op.seen.(state := Expired))
  {
    RunKeeps(s, events);
    var t := Run(s, events).tables;
    assert OpOk(Run(s, events), op);
    match op
    case Expiring(sid, seen) => GuardedWriteMeets(t, sid, seen, seen.(state := Expired));
    case Touching(sid, seen, at) => GuardedWriteMeets(t, sid, seen, seen.Touched(at));
    case LoggingOut(sid, seen, row) => GuardedWriteMeets(t, sid, seen, row);
  }

  lemma {:induction false} RunSnoc(s: State, events: seq<Event>, e: Event)
    ensures Run(s, events + [e]) == Next(Run(s, events), e)
    decreases |events|
  {
    if events != [] {
      assert (events + [e])[1..] == events[1..] + [e];
      RunSnoc(Next(s, events[0]), events[1..], e);
    }
  }

  /** One more event at the end of a run. */
  lemma Then(s: State, before: seq<Event>, e: Event) returns (events: seq<Event>)
    ensures events == before + [e] && Run(s, events) == Next(Run(s, before), e)
  {
    RunSnoc(s, before, e);
    events := before + [e];
  }

  /** And that exception is real. In this run a session is read, passes and is about to be touched when
      its end comes; it is marked expired; and the late touch makes it active again. */
  lemma TouchRevivesAnExpiredSession() returns (s: State, events: seq<Event>, expired: seq<Event>, sid: Id)
    ensures Initial(s) && expired <= events
    ensures sid in Run(s, expired).tables.sessions && Run(s, expired).tables.sessions[sid].state == Expired
    ensures sid in Run(s, events).tables.sessions && Run(s, events).tables.sessions[sid].state == Active
  {
    sid, s := 9, State(0, Tables(map[], map[]), {}, [], 0);
    var row := SessionRow(1, Active, 10, 0, 1);
    events := AboutToTouch(s, row);
    events := Then(s, events, Tick(10));
    events := Then(s, events, ReadSession(9));
    events := Then(s, events, ReadClock(9, row, 7));
    events := Then(s, events, Commit(Expiring(9, row)));
    assert Run(s, events).tables.sessions[9] == row.(state := Expired);
    expired := events;
    events := Then(s, events, Commit(Touching(9, row, 0)));
  }

  lemma AboutToTouch(s: State, row: SessionRow) returns (events: seq<Event>)
    requires s == State(0, Tables(map[], map[]), {}, [], 0) && row == SessionRow(1, Active, 10, 0, 1)
    ensures var s1 := Run(s, events);
      s1.now == 0 && s1.steps == 6 && s1.tables.sessions == map[9 := row] && Touching(9, row, 0) in s1.ops
  {
    events := Then(s, [], Register(1));
    events := Then(s, events, BeginLogin(1, 9, 0, 10));
    events := Then(s, events, Commit(LoggingIn(9, row)));
    assert Run(s, events).tables == Tables(map[1 := UserRow(true, 1)], map[9 := row]);
    events := Then(s, events, ReadSession(9));
    events := Then(s, events, ReadClock(9, row, 3));
    events := Then(s, events, ReadUser(9, row, 3, 0, 4, 0));
  }

  /** Revocation is final. */
  lemma RevokedIsAbsorbing(s: State, events: seq<Event>, later: seq<Event>, sid: Id)
    requires Initial(s) && sid in Run(s, events).tables.sessions
    requires Run(s, events).tables.sessions[sid].state == Revoked
    ensures sid in Run(Run(s, events), later).tables.sessions
    ensures Run(Run(s, events), later).tables.sessions[sid] == Run(s, events).tables.sessions[sid]
  {
    RunKeeps(s, events);
    RunKeeps(Run(s, events), later);
  }

  /** Nothing about session `sid` that was read from event `n` on can be granted. */
  ghost predicate RevokedSince(s: State, sid: Id, n: nat) {
    && n <= s.steps && sid in s.tables.sessions && s.tables.sessions[sid].state == Revoked
    && (forall op | op in s.ops && op.Reading? && op.sid == sid && op.readAt >= n :: op.seen.state == Revoked)
    && (forall op | op in s.ops && op.Passed? && op.sid == sid :: op.readAt < n)
    && (forall g | g in s.grants && g.sid == sid :: g.readAt < n)
  }

  lemma RevokedSinceStep(s: State, e: Event, sid: Id, n: nat)
    requires Inv(s) && RevokedSince(s, sid, n)
    ensures RevokedSince(Next(s, e), sid, n)
  {
    StepKeeps(s, e);
  }

  lemma {:induction false} RevokedSinceRun(s: State, events: seq<Event>, sid: Id, n: nat)
    requires Inv(s) && RevokedSince(s, sid, n)
    ensures RevokedSince(Run(s, events), sid, n)
    decreases |events|
  {
    if events != [] {
      StepKeeps(s, events[0]);
      RevokedSinceStep(s, events[0], sid, n);
      RevokedSinceRun(Next(s, events[0]), events[1..], sid, n);
    }
  }

  /** Once a session is revoked, by logout or by deactivation, no authentication that reads the session
      after that succeeds. */
  lemma NoGrantAfterRevocation(s: State, events: seq<Event>, later: seq<Event>, sid: Id, g: Grant)
    requires Initial(s) && sid in Run(s, events).tables.sessions
    requires Run(s, events).tables.sessions[sid].state == Revoked
    requires g in Run(Run(s, events), later).grants && g.sid == sid
    ensures g.readAt < Run(s, events).steps
  {
    RunKeeps(s, events);
    var s1 := Run(s, events);
    forall op | op in s1.ops && (op.Reading? || op.Passed?) && op.sid == sid
      ensures op.readAt < s1.steps
    {
      assert OpOk(s1, op);
    }
    forall g | g in s1.grants
      ensures g.readAt < s1.steps
    {
      assert GrantOk(s1, g);
    }
    RevokedSinceRun(s1, later, sid, s1.steps);
  }

  ghost predicate InactiveSince(s: State, uid: Id, n: nat) {
    && n <= s.steps && uid in s.tables.users && !s.tables.users[uid].active
    && (forall g | g in s.grants && g.user == uid :: g.userAt < n)
  }

  lemma {:induction false} InactiveSinceRun(s: State, events: seq<Event>, uid: Id, n: nat)
    requires Inv(s) && InactiveSince(s, uid, n)
    ensures InactiveSince(Run(s, events), uid, n)
    decreases |events|
  {
    if events != [] {
      StepKeeps(s, events[0]);
      assert UserSucceeds(s.tables.users[uid], Next(s, events[0]).tables.users[uid]);
      InactiveSinceRun(Next(s, events[0]), events[1..], uid, n);
    }
  }

  /** Once a user is deactivated, no authentication that reads the user after that succeeds, for any of
      the user's sessions, including those a login or a touch in flight still puts in place. */
  lemma NoGrantAfterDeactivation(s: State, events: seq<Event>, later: seq<Event>, uid: Id, g: Grant)
    requires Initial(s) && uid in Run(s, events).tables.users && !Run(s, events).tables.users[uid].active
    requires g in Run(Run(s, events), later).grants && g.user == uid
    ensures g.userAt < Run(s, events).steps
  {
    RunKeeps(s, events);
    var s1 := Run(s, events);
    forall g | g in s1.grants
      ensures g.userAt < s1.steps
    {
      assert GrantOk(s1, g);
    }
    InactiveSinceRun(s1, later, uid, s1.steps);
  }

  ghost predicate ExpiredSince(s: State, sid: Id, n: nat) {
    && n <= s.steps && sid in s.tables.sessions && s.tables.sessions[sid].expiresAt <= s.now
    && (forall op | op in s.ops && op.Passed? && op.sid == sid :: op.clockAt < n)
    && (forall g | g in s.grants && g.sid == sid :: g.clockAt < n)
  }

  lemma ExpiredSinceStep(s: State, e: Event, sid: Id, n: nat)
    requires Inv(s) && ExpiredSince(s, sid, n)
    ensures ExpiredSince(Next(s, e), sid, n)
  {
    StepKeeps(s, e);
    assert Succeeds(s.tables.sessions[sid], Next(s, e).tables.sessions[sid]);
    if e.ReadClock? && Reading(e.sid, e.seen, e.readAt) in s.ops {
      assert OpOk(s, Reading(e.sid, e.seen, e.readAt));
    }
  }

  lemma {:induction false} ExpiredSinceRun(s: State, events: seq<Event>, sid: Id, n: nat)
    requires Inv(s) && ExpiredSince(s, sid, n)
    ensures ExpiredSince(Run(s, events), sid, n)
    decreases |events|
  {
    if events != [] {
      StepKeeps(s, events[0]);
      ExpiredSinceStep(s, events[0], sid, n);
      ExpiredSinceRun(Next(s, events[0]), events[1..], sid, n);
    }
  }

  /** Once the clock has reached a session's end, no authentication that reads the clock after that
      succeeds, whatever state the row is put in. */
  lemma NoGrantAfterExpiry(s: State, events: seq<Event>, later: seq<Event>, sid: Id, g: Grant)
    requires Initial(s) && sid in Run(s, events).tables.sessions
    requires Run(s, events).tables.sessions[sid].expiresAt <= Run(s, events).now
    requires g in Run(Run(s, events), later).grants && g.sid == sid
    ensures g.clockAt < Run(s, events).steps
  {
    RunKeeps(s, events);
    var s1 := Run(s, events);
    forall op | op in s1.ops && op.Passed?
      ensures op.clockAt < s1.steps
    {
      assert OpOk(s1, op);
    }
    forall g | g in s1.grants
      ensures g.clockAt < s1.steps
    {
      assert GrantOk(s1, g);
    }
    ExpiredSinceRun(s1, later, sid, s1.steps);
  }

  /** A committed deactivation leaves the user inactive and none of the user's sessions active; a
      committed logout leaves its session revoked. */
  lemma RevocationTakesEffect(s: State, events: seq<Event>, op: Op)
    requires Initial(s) && op in Run(s, events).ops && Transact(Run(s, events).tables, op).Ok?
    ensures var t := Next(Run(s, events), Commit(op)).tables;
      && (op.LoggingOut? ==> op.sid in t.sessions && t.sessions[op.sid].state == Revoked)
      && (op.Deactivating? ==>
            && op.uid in t.users && !t.users[op.uid].active
            && forall sid | sid in t.sessions && t.sessions[sid].user == op.uid :: t.sessions[sid].state != Active)
  {
    RunKeeps(s, events);
    assert OpOk(Run(s, events), op);
  }
}
