/** The authentication services as the code runs them, proved to do what Auth says. `others` stands for
    everybody else wherever the code holds no transaction. */
module AuthStore {
  import opened Prelude
  import opened Auth

  type Interference = (nat, Tables) -> Tables

  /** The mutable copy of a session row. */
  class Session {
    const user: Id
    const expiresAt: Instant
    var state: SessionState
    var lastSeen: Instant
    var version: int

    constructor (row: SessionRow)
      ensures Row() == row
    {
      user, expiresAt, state, lastSeen, version := row.user, row.expiresAt, row.state, row.lastSeen, row.version;
    }

    function Row(): SessionRow
      reads this
    {
      SessionRow(user, state, expiresAt, lastSeen, version)
    }

    /** Unlike the other methods, this one may change the copy and fail, and it keeps the version. */
    method Validate(now: Instant) returns (err: Option<Fault>)
      modifies this
      ensures Row() == old(Row()).Validated(now)
      ensures err == if old(Row()).Passes(now) then None else Some(Unauthorized)
    {
      if state == Revoked { return Some(Unauthorized); }
      if state == Expired || now >= expiresAt {
        state := Expired;
        return Some(Unauthorized);
      }
      return None;
    }

    method Touch(now: Instant, interval: int) returns (changed: bool)
      modifies this
      ensures changed == old(Row()).TouchDue(now, interval)
      ensures Row() == if changed then old(Row()).Touched(now) else old(Row())
    {
      if now - lastSeen < interval { return false; }
      lastSeen := now;
      version := version + 1;
      return true;
    }

    method Revoke() returns (err: Option<Fault>)
      modifies this
      ensures Meets(old(Row()).Revoke(), old(Row()), Row(), err)
    {
      if state == Revoked { return None; }
      if state == Expired { return Some(Conflict); }
      state := Revoked;
      version := version + 1;
      return None;
    }
  }

  class Store {
    var users: map<Id, UserRow>
    var sessions: map<Id, SessionRow>

    constructor ()
      ensures Contents() == Tables(map[], map[])
    {
      users, sessions := map[], map[];
    }

    function Contents(): Tables
      reads this
    {
      Tables(users, sessions)
    }

    method Become(t: Tables)
      modifies this
      ensures Contents() == t
    {
      users, sessions := t.users, t.sessions;
    }

    method UpdateSessionRow(sid: Id, row: SessionRow, expected: int) returns (err: Option<Fault>)
      modifies this`sessions
      ensures Meets(UpdateSession(old(Contents()), sid, row, expected), old(Contents()), Contents(), err)
    {
      if sid !in sessions || sessions[sid].version != expected { return Some(Conflict); }
      sessions := sessions[sid := row];
      return None;
    }

    /** One UPDATE over all rows of a user. */
    method RevokeSessionsForUser(uid: Id) returns (count: nat)
      modifies this`sessions
      ensures sessions == RevokeSessions(old(sessions), uid)
      ensures sessions.Keys == old(sessions).Keys
      ensures forall sid | sid in old(sessions) ::
                var x := old(sessions)[sid];
                sessions[sid] == if x.user == uid && x.state == Active
                                 then SessionRow(uid, Revoked, x.expiresAt, x.lastSeen, x.version + 1) else x
      ensures count == |set sid | sid in old(sessions) && old(sessions)[sid] != sessions[sid]|
    {
      var rest := sessions.Keys;
      ghost var changed: set<Id> := {};
      count := 0;
      while rest != {}
        invariant rest <= sessions.Keys == old(sessions).Keys
        invariant forall sid | sid in sessions ::
                    sessions[sid] == if sid in rest then old(sessions)[sid] else RevokedFor(old(sessions)[sid], uid)
        invariant changed == set sid | sid in old(sessions) && old(sessions)[sid] != sessions[sid]
        invariant count == |changed|
        decreases rest
      {
        var sid :| sid in rest;
        rest := rest - {sid};
        if sessions[sid].user == uid && sessions[sid].state == Active {
          sessions := sessions[sid := sessions[sid].(state := Revoked, version := sessions[sid].version + 1)];
          changed := changed + {sid};
          count := count + 1;
        }
      }
    }

    /** `uid` is the user stored under the given address; comparing the password is opaque. */
    method Login(others: Interference, now: Instant, request: Id, uid: Id, passwordMatches: bool, sid: Id, ttl: int)
      returns (err: Option<Fault>)
      modifies this
      ensures var before := old(Contents());
        if request == NO_ID then err == Some(Validation) && Contents() == before
        else if uid !in before.users || !before.users[uid].active || !passwordMatches then err == Some(Unauthorized) && Contents() == before
        else match NewSession(uid, now, ttl)
             case Err(fault) => err == Some(fault) && Contents() == before
             case Ok(row) => Meets(Transact(others(0, before), LoggingIn(sid, row)), others(0, before), Contents(), err)
    {
      if request == NO_ID { return Some(Validation); }
      if uid !in users { return Some(Unauthorized); }
      if !users[uid].active || !passwordMatches { return Some(Unauthorized); }
      var session := NewSession(uid, now, ttl);
      if session.Err? { return Some(session.fault); }
      Become(others(0, Contents()));
      if sid in sessions { return Some(Conflict); }
      sessions := sessions[sid := session.value];
      return None;
    }

    /** Authenticate: read the session, read the clock, validate, read the user, and touch. It succeeds
        exactly when the row passes at the clock reading and the user is active when read; a lost
        touch does not matter. */
    method Authenticate(others: Interference, now: Instant, sid: Id, interval: int) returns (err: Option<Fault>)
      modifies this
      ensures var before := old(Contents());
        if sid !in before.sessions then err == Some(Unauthorized) && Contents() == before
        else
          var seen, read := before.sessions[sid], others(0, before);
          if !seen.Passes(now) then
            && err == Some(Unauthorized)
            && Contents() == if seen.state == Revoked then read
                             else match Transact(read, Expiring(sid, seen)) case Ok(t) => t case Err(_) => read
          else if seen.user !in read.users then err == Some(NotFound) && Contents() == read
          else if !read.users[seen.user].active then err == Some(Unauthorized) && Contents() == read
          else
            var met := others(1, read);
            && err == None
            && Contents() == if !seen.TouchDue(now, interval) then met
                             else match Transact(met, Touching(sid, seen, now)) case Ok(t) => t case Err(_) => met
    {
      if sid !in sessions { return Some(Unauthorized); }
      var session := new Session(sessions[sid]);
      var original := session.version;
      Become(others(0, Contents()));
      err := session.Validate(now);
      if err.Some? {
        if session.state == Expired {
          var ignored := UpdateSessionRow(sid, session.Row(), original);
        }
        return;
      }
      if session.user !in users { return Some(NotFound); }
      if !users[session.user].active { return Some(Unauthorized); }
      Become(others(1, Contents()));
      var due := session.Touch(now, interval);
      if due {
        var lost := UpdateSessionRow(sid, session.Row(), original);
        if lost.Some? && lost.value != Conflict { return lost; }
      }
      return None;
    }

    method Logout(others: Interference, sid: Id, actor: Id) returns (err: Option<Fault>)
      modifies this
      ensures var before := old(Contents());
        if sid !in before.sessions then err == Some(NotFound) && Contents() == before
        else if before.sessions[sid].user != actor then err == Some(Forbidden) && Contents() == before
        else var seen := before.sessions[sid];
             match seen.Revoke()
             case Err(fault) => err == Some(fault) && Contents() == before
             case Ok(row) => Meets(Transact(others(0, before), LoggingOut(sid, seen, row)), others(0, before), Contents(), err)
    {
      if sid !in sessions { return Some(NotFound); }
      var session := new Session(sessions[sid]);
      if session.user != actor { return Some(Forbidden); }
      var previous := session.version;
      err := session.Revoke();
      if err.Some? { return; }
      Become(others(0, Contents()));
      err := UpdateSessionRow(sid, session.Row(), previous);
    }

    method DeactivateUser(others: Interference, mayDeactivate: bool, uid: Id) returns (err: Option<Fault>)
      modifies this
      ensures var before := old(Contents());
        if !mayDeactivate then err == Some(Forbidden) && Contents() == before
        else if uid !in before.users then err == Some(NotFound) && Contents() == before
        else Meets(Transact(others(0, before), Deactivating(uid, before.users[uid])), others(0, before), Contents(), err)
    {
      if !mayDeactivate { return Some(Forbidden); }
      if uid !in users { return Some(NotFound); }
      var seen := users[uid];
      var user := seen.Deactivate();
      Become(others(0, Contents()));
      if uid !in users || users[uid].version != seen.version { return Some(Conflict); }
      users := users[uid := user];
      var revoked := RevokeSessionsForUser(uid);
      return None;
    }
  }
}
