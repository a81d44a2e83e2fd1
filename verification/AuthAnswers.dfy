/** What each authentication call writes, told by the rows before and after, and that a session which nobody
    ended still works. */
module AuthAnswers {
  import opened Prelude
  import opened Auth

  // ---------- What commits write

  /** A login of an active user computes a session that lasts for the length asked for from its reading on. */
  lemma LoginIsAsAsked(s: State, uid: Id, sid: Id, at: Instant, ttl: int)
    ensures Next(s, BeginLogin(uid, sid, at, ttl)).ops
         == if uid in s.tables.users && s.tables.users[uid].active && uid != NO_ID && ttl > 0
            then s.ops + {LoggingIn(sid, SessionRow(uid, Active, at + ttl, at, 1))} else s.ops
  {
  }

  /** A logout is computed exactly for the session's own user, and not for an expired session. */
  lemma LogoutIsAsAsked(s: State, sid: Id, actor: Id)
    ensures Next(s, BeginLogout(sid, actor)).ops
         == if sid !in s.tables.sessions || s.tables.sessions[sid].user != actor || s.tables.sessions[sid].state == Expired
            then s.ops
            else var x := s.tables.sessions[sid];
                 s.ops + {LoggingOut(sid, x, if x.state == Revoked then x
                                             else SessionRow(x.user, Revoked, x.expiresAt, x.lastSeen, x.version + 1))}
  {
  }

  /** A clock reading passes an active session before its end; a session at or past its end, unless it is
      revoked, is to be marked expired. */
  lemma ClockReadingAnswers(s: State, sid: Id, seen: SessionRow, readAt: nat)
    requires Reading(sid, seen, readAt) in s.ops
    ensures Next(s, ReadClock(sid, seen, readAt)).ops
         == if seen.state == Active && s.now < seen.expiresAt then s.ops + {Passed(sid, seen, readAt, s.now, s.steps)}
            else if seen.state != Revoked then s.ops + {Expiring(sid, seen)}
            else s.ops
  {
  }

  /** Of the calls that write a session, each writes its own and no other, exactly at the version it read: a
      login under a new id, an expiry in place, a touch with its reading as the new last use. */
  lemma SessionWrites(t: Tables, op: Op)
    ensures op.LoggingIn? ==>
      Transact(t, op) == if op.sid in t.sessions then Err(Conflict) else Ok(t.(sessions := t.sessions[op.sid := op.row]))
    ensures op.Expiring? || op.Touching? || op.LoggingOut? ==>
      (Transact(t, op).Ok? <==> op.sid in t.sessions && t.sessions[op.sid].version == op.seen.version)
    ensures op.Expiring? && Transact(t, op).Ok? ==>
      Transact(t, op).value == t.(sessions := t.sessions[op.sid :=
        SessionRow(op.seen.user, Expired, op.seen.expiresAt, op.seen.lastSeen, op.seen.version)])
    ensures op.Touching? && Transact(t, op).Ok? ==>
      Transact(t, op).value == t.(sessions := t.sessions[op.sid :=
        SessionRow(op.seen.user, op.seen.state, op.seen.expiresAt, op.at, op.seen.version + 1)])
    ensures op.LoggingOut? && Transact(t, op).Ok? ==>
      Transact(t, op).value == t.(sessions := t.sessions[op.sid := op.row])
  {
  }

  /** A deactivation takes effect exactly when its user has not changed since it was read. It makes that user
      inactive and revokes the user's active sessions; every session of anybody else, and every session
      that was not active, is exactly as it was, and so is every other user. */
  lemma DeactivationSparesTheOthers(s: State, events: seq<Event>, uid: Id, seen: UserRow)
    requires Initial(s) && Deactivating(uid, seen) in Run(s, events).ops
    ensures var t := Run(s, events).tables;
      Transact(t, Deactivating(uid, seen)).Ok? <==> uid in t.users && t.users[uid] == seen
    ensures var t, t' := Run(s, events).tables, Next(Run(s, events), Commit(Deactivating(uid, seen))).tables;
      uid in t.users && t.users[uid] == seen ==>
        && uid in t'.users && !t'.users[uid].active
        && t'.users.Keys == t.users.Keys && (forall u | u in t.users && u != uid :: t'.users[u] == t.users[u])
        && t'.sessions.Keys == t.sessions.Keys
        && (forall sid | sid in t.sessions && (t.sessions[sid].user != uid || t.sessions[sid].state != Active) ::
              t'.sessions[sid] == t.sessions[sid])
        && (forall sid | sid in t.sessions && t.sessions[sid].user == uid && t.sessions[sid].state == Active ::
              var x := t.sessions[sid];
              t'.sessions[sid] == SessionRow(uid, Revoked, x.expiresAt, x.lastSeen, x.version + 1))
  {
    RunKeeps(s, events);
    assert OpOk(Run(s, events), Deactivating(uid, seen));
  }

  // ---------- Sessions that nobody ended

  /** The session is usable: active, before its end, and its user is active. */
  ghost predicate Alive(s: State, sid: Id, uid: Id, end: Instant) {
    && sid in s.tables.sessions && s.tables.sessions[sid].user == uid
    && s.tables.sessions[sid].state == Active && s.tables.sessions[sid].expiresAt == end
    && uid in s.tables.users && s.tables.users[uid].active
  }

  /** The event ends the session: its own logout, or its own user's deactivation. */
  predicate Ends(e: Event, sid: Id, uid: Id) {
    e.Commit? && ((e.op.LoggingOut? && e.op.sid == sid) || (e.op.Deactivating? && e.op.uid == uid))
  }

  lemma AliveSeen(s: State, sid: Id, uid: Id, end: Instant)
    requires Inv(s) && Alive(s, sid, uid, end) && s.now < end
    ensures forall op | op in s.ops && op.Expiring? :: op.sid != sid
    ensures forall op | op in s.ops && op.Touching? && op.sid == sid ::
              op.seen.state == Active && op.seen.user == uid && op.seen.expiresAt == end
  {
    forall op | op in s.ops && (op.Expiring? || op.Touching?) && op.sid == sid
      ensures op.Touching? && op.seen.state == Active && op.seen.user == uid && op.seen.expiresAt == end
    {
      assert OpOk(s, op);
      assert Succeeds(op.seen, s.tables.sessions[sid]);
    }
  }

  lemma AliveStep(s: State, e: Event, sid: Id, uid: Id, end: Instant)
    requires Inv(s) && Alive(s, sid, uid, end) && s.now < end && !Ends(e, sid, uid)
    ensures Alive(Next(s, e), sid, uid, end)
  {
    AliveSeen(s, sid, uid, end);
    if e.Commit? && e.op in s.ops && Transact(s.tables, e.op).Ok? {
      assert OpOk(s, e.op);
    }
  }

  lemma {:induction false} AliveRun(s: State, later: seq<Event>, sid: Id, uid: Id, end: Instant)
    requires Inv(s) && Alive(s, sid, uid, end) && Run(s, later).now < end
    requires forall e | e in later :: !Ends(e, sid, uid)
    ensures Alive(Run(s, later), sid, uid, end) && Inv(Run(s, later))
    decreases |later|
  {
    if later != [] {
      StepKeeps(s, later[0]);
      RunKeeps(Next(s, later[0]), later[1..]);
      AliveStep(s, later[0], sid, uid, end);
      AliveRun(Next(s, later[0]), later[1..], sid, uid, end);
    }
  }

  /** One undisturbed Authenticate. */
  function AuthenticateNow(s: State, sid: Id, interval: int): State
    requires sid in s.tables.sessions
  {
    var x := s.tables.sessions[sid];
    var s1 := Next(s, ReadSession(sid));
    var s2 := Next(s1, ReadClock(sid, x, s.steps));
    Next(s2, ReadUser(sid, x, s.steps, s.now, s1.steps, interval))
  }

  /** It grants access exactly to a live session before its end, and then asks for a touch exactly when the
      interval has passed since the last one. */
  lemma AuthenticateNowGrantsExactlyWhen(s: State, sid: Id, interval: int)
    requires Inv(s) && sid in s.tables.sessions
    ensures var x, s3 := s.tables.sessions[sid], AuthenticateNow(s, sid, interval);
      if x.state == Active && s.now < x.expiresAt && x.user in s.tables.users && s.tables.users[x.user].active
      then && |s3.grants| == |s.grants| + 1
           && s3.grants[|s.grants|].sid == sid && s3.grants[|s.grants|].user == x.user && s3.grants[|s.grants|].at == s.now
           && (s.now - x.lastSeen >= interval ==> Touching(sid, x, s.now) in s3.ops)
           && (s.now - x.lastSeen < interval ==> forall op | op in s3.ops && op.Touching? :: op in s.ops)
      else s3.grants == s.grants
  {
    NoOldPass(s);
  }

  /** The reading at hand has just been numbered, so nothing older has its number. */
  lemma NoOldPass(s: State)
    requires Inv(s)
    ensures forall op | op in s.ops && op.Passed? :: op.clockAt < s.steps
  {
    forall op | op in s.ops && op.Passed?
      ensures op.clockAt < s.steps
    {
      assert OpOk(s, op);
    }
  }

  /** In every run, a session of an active user that has not reached its end, and that neither its own logout
      nor its own user's deactivation has hit, still works, whatever else has happened: expiries and
      touches in flight, other users' logouts and deactivations, crashes. */
  lemma UnendedSessionsWork(s: State, events: seq<Event>, later: seq<Event>, sid: Id, uid: Id, end: Instant, interval: int)
    requires Initial(s) && Alive(Run(s, events), sid, uid, end)
    requires Run(Run(s, events), later).now < end && forall e | e in later :: !Ends(e, sid, uid)
    ensures var s2 := Run(Run(s, events), later);
      && Alive(s2, sid, uid, end)
      && |AuthenticateNow(s2, sid, interval).grants| == |s2.grants| + 1
      && AuthenticateNow(s2, sid, interval).grants[|s2.grants|].sid == sid
  {
    RunKeeps(s, events);
    AliveRun(Run(s, events), later, sid, uid, end);
    AuthenticateNowGrantsExactlyWhen(Run(Run(s, events), later), sid, interval);
  }

  /** And a login puts such a session in place. */
  lemma LoginMakesALiveSession(s: State, events: seq<Event>, sid: Id, row: SessionRow)
    requires Initial(s) && LoggingIn(sid, row) in Run(s, events).ops && sid !in Run(s, events).tables.sessions
    requires row.user in Run(s, events).tables.users && Run(s, events).tables.users[row.user].active
    ensures Alive(Next(Run(s, events), Commit(LoggingIn(sid, row))), sid, row.user, row.expiresAt)
  {
    RunKeeps(s, events);
    assert OpOk(Run(s, events), LoggingIn(sid, row));
  }
}
