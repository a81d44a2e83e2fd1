/** The program services as the code runs them, proved to do what Enrolment says. `others` stands for
    everybody else wherever the code holds no transaction. */
module EnrolmentStore {
  import opened Prelude
  import opened Versions
  import opened Enrolment

  type Interference = (nat, Tables) -> Tables

  /** The mutable copy of a program row. */
  class Program {
    const coordinator: Id
    const capacity: int
    const startsAt: Instant
    const endsAt: Instant
    var state: ProgramState
    var version: int

    constructor (row: ProgramRow)
      ensures Row() == row
    {
      coordinator, capacity, startsAt, endsAt := row.coordinator, row.capacity, row.startsAt, row.endsAt;
      state, version := row.state, row.version;
    }

    function Row(): ProgramRow
      reads this
    {
      ProgramRow(coordinator, capacity, startsAt, endsAt, state, version)
    }

    method Transition(next: ProgramState, allowed: seq<ProgramState>) returns (err: Option<Fault>)
      modifies this
      ensures Meets(old(Row()).Transition(next, set a | a in allowed), old(Row()), Row(), err)
    {
      for i := 0 to |allowed|
        invariant Row() == old(Row()) && state !in allowed[..i]
      {
        if state == allowed[i] {
          state := next;
          version := version + 1;
          return None;
        }
        assert allowed[..i + 1] == allowed[..i] + [allowed[i]];
      }
      assert allowed[..|allowed|] == allowed;
      return Some(Conflict);
    }

    method OpenEnrollment(now: Instant) returns (err: Option<Fault>)
      modifies this
      ensures Meets(old(Row()).OpenEnrollment(now), old(Row()), Row(), err)
    {
      if now >= startsAt { return Some(Precondition); }
      assert (set a | a in [Draft]) == {Draft};
      err := Transition(Enrolling, [Draft]);
    }

    method Start(now: Instant) returns (err: Option<Fault>)
      modifies this
      ensures Meets(old(Row()).Start(now), old(Row()), Row(), err)
    {
      if now < startsAt || now >= endsAt { return Some(Precondition); }
      assert (set a | a in [Enrolling]) == {Enrolling};
      err := Transition(ProgramState.Active, [Enrolling]);
    }
  }

  class Store {
    var programs: map<Id, ProgramRow>
    var members: map<Id, MemberRow>
    var keys: map<string, KeyRow>

    constructor ()
      ensures Contents() == Tables(map[], map[], map[])
    {
      programs, members, keys := map[], map[], map[];
    }

    function Contents(): Tables
      reads this
    {
      Tables(programs, members, keys)
    }

    method Become(t: Tables)
      modifies this
      ensures Contents() == t
    {
      programs, members, keys := t.programs, t.members, t.keys;
    }

    method CountActiveMembers(program: Id) returns (count: nat)
      ensures count == |ActiveMembers(members, program)|
    {
      ghost var counted: set<Id> := {};
      var rest := members.Keys;
      count := 0;
      while rest != {}
        invariant rest <= members.Keys
        invariant counted == set m | m in ActiveMembers(members, program) && m !in rest
        invariant count == |counted|
        decreases rest
      {
        var m :| m in rest;
        rest := rest - {m};
        if members[m].program == program && members[m].state == MemberState.Active {
          counted := counted + {m};
          count := count + 1;
        }
      }
      assert counted == ActiveMembers(members, program);
    }

    method FindMember(program: Id, user: Id) returns (found: Result<Id>)
      ensures found == Err(NotFound) <==> !IsMember(members, program, user)
      ensures found.Ok? ==> found.value in members && members[found.value].program == program
                            && members[found.value].user == user
      ensures found.Ok? || found == Err(NotFound)
    {
      var rest := members.Keys;
      while rest != {}
        invariant rest <= members.Keys
        invariant forall m | m in members && m !in rest :: members[m].program != program || members[m].user != user
        decreases rest
      {
        var m :| m in rest;
        if members[m].program == program && members[m].user == user { return Ok(m); }
        rest := rest - {m};
      }
      return Err(NotFound);
    }

    method InsertProgramMember(m: Id, program: Id, user: Id) returns (err: Option<Fault>)
      modifies this`members
      ensures Meets(InsertMember(old(members), m, program, user), old(members), members, err)
    {
      var existing := FindMember(program, user);
      if existing.Ok? || m in members { return Some(Conflict); }
      members := members[m := MemberRow(program, user, MemberState.Active)];
      return None;
    }

    method UpdateProgram(pid: Id, row: ProgramRow, expected: int) returns (err: Option<Fault>)
      modifies this`programs
      ensures Meets(Update(ProgramVersion, old(programs), pid, row, expected), old(programs), programs, err)
    {
      if pid !in programs || programs[pid].version != expected { return Some(Conflict); }
      programs := programs[pid := row];
      return None;
    }

    /** `edition` says whether the edition is there and active. */
    method CreateProgram(others: Interference, caller: Caller, edition: Option<bool>, pid: Id, coordinator: Id,
                         capacity: int, startsAt: Instant, endsAt: Instant, m: Id)
      returns (err: Option<Fault>)
      modifies this
      ensures var before := old(Contents());
        if caller.Refusal().Some? then err == caller.Refusal() && Contents() == before
        else match edition
             case None => err == Some(NotFound) && Contents() == before
             case Some(active) =>
               if !active then err == Some(Precondition) && Contents() == before
               else match NewProgram(coordinator, capacity, startsAt, endsAt)
                    case Err(fault) => err == Some(fault) && Contents() == before
                    case Ok(_) => Meets(Create(others(0, before), pid, coordinator, capacity, startsAt, endsAt, m),
                                        others(0, before), Contents(), err)
    {
      if !caller.complete { return Some(Unauthorized); }
      if !caller.known { return Some(NotFound); }
      if !caller.permitted { return Some(Forbidden); }
      if edition == None { return Some(NotFound); }
      if !edition.value { return Some(Precondition); }
      var row := NewProgram(coordinator, capacity, startsAt, endsAt);
      if row.Err? { return Some(row.fault); }
      Become(others(0, Contents()));
      if pid in programs { return Some(Conflict); }
      var before := Contents();
      programs := programs[pid := row.value];
      err := InsertProgramMember(m, pid, coordinator);
      if err.Some? { Become(before); }
    }

    /** Start of a program: read it, count its members, and only then write it under its version. */
    method StartProgram(others: Interference, caller: Caller, now: Instant, pid: Id, actor: Id) returns (err: Option<Fault>)
      modifies this
      ensures var before := old(Contents());
        if caller.Refusal().Some? then err == caller.Refusal() && Contents() == before
        else if pid !in before.programs then err == Some(NotFound) && Contents() == before
        else if before.programs[pid].coordinator != actor then err == Some(Forbidden) && Contents() == before
        else var seen, counted := before.programs[pid], others(0, before);
             match Started(counted, pid, seen, now)
             case Err(fault) => err == Some(fault) && Contents() == counted
             case Ok(row) => Meets(Transact(others(1, counted), Starting(pid, seen, row), 0, 0),
                                   others(1, counted), Contents(), err)
    {
      if !caller.complete { return Some(Unauthorized); }
      if !caller.known { return Some(NotFound); }
      if !caller.permitted { return Some(Forbidden); }
      if pid !in programs { return Some(NotFound); }
      var program := new Program(programs[pid]);
      if program.coordinator != actor { return Some(Forbidden); }
      var previous := program.version;
      Become(others(0, Contents()));
      var count := CountActiveMembers(pid);
      if count < 2 { return Some(Precondition); }
      err := program.Start(now);
      if err.Some? { return; }
      Become(others(1, Contents()));
      err := UpdateProgram(pid, program.Row(), previous);
    }

    /** The transaction of Join. */
    method TryJoin(now: Instant, m: Id, program: Id, user: Id, key: string, hash: string) returns (answer: Result<Id>)
      requires MembersOk(Contents())
      modifies this
      ensures match JoinTx(old(Contents()), now, m, program, user, key, hash)
              case Ok((after, member)) => answer == Ok(member) && Contents() == after
              case Err(fault) => answer == Err(fault) && Contents() == old(Contents())
    {
      if key in keys && keys[key].program == program && keys[key].user == user {
        if keys[key].hash != hash { return Err(Conflict); }
        answer := FindMember(program, user);
        return;
      }
      if program !in programs { return Err(NotFound); }
      if !programs[program].CanAcceptMembers(now) { return Err(Precondition); }
      var count := CountActiveMembers(program);
      if count >= programs[program].capacity { return Err(Conflict); }
      var before := members;
      var err := InsertProgramMember(m, program, user);
      if err.Some? { return Err(err.value); }
      if TrimSpace(key) == "" || |hash| != 64 { members := before; return Err(Validation); }
      if TrimSpace(key) in keys { members := before; return Err(Conflict); }
      keys := keys[TrimSpace(key) := KeyRow(program, user, hash, m)];
      return Ok(m);
    }

    /** Join with its fallback: after a conflict the existing member is read outside the transaction. */
    method Join(others: Interference, caller: Caller, now: Instant, m: Id, program: Id, user: Id, key: string, hash: string)
      returns (answer: Result<Id>)
      requires forall i: nat, t | MembersOk(t) :: MembersOk(others(i, t))
      requires MembersOk(Contents())
      modifies this
      ensures caller.Refusal().Some? ==> answer == Err(caller.Refusal().value) && Contents() == old(Contents())
      ensures caller.Refusal() == None ==>
        var met := others(0, old(Contents()));
        match JoinTx(met, now, m, program, user, key, hash)
        case Ok((after, member)) => answer == Ok(member) && Contents() == after
        case Err(Conflict) =>
          var read := others(1, met);
          && Contents() == read
          && answer == (match GetMember(read.members, program, user)
                        case Ok(existing) => Ok(existing)
                        case Err(_) => Err(Conflict))
        case Err(fault) => answer == Err(fault) && Contents() == met
    {
      if !caller.complete { return Err(Unauthorized); }
      if !caller.known { return Err(NotFound); }
      if !caller.permitted { return Err(Forbidden); }
      Become(others(0, Contents()));
      answer := TryJoin(now, m, program, user, key, hash);
      if answer == Err(Conflict) {
        Become(others(1, Contents()));
        var existing := FindMember(program, user);
        if existing.Ok? { answer := existing; }
      }
    }

    /** AddMembersAtomically: one transaction around the whole loop. */
    method AddMembersAtomically(now: Instant, actor: Id, program: Id, batch: seq<(Id, Id)>, users: Users)
      returns (err: Option<Fault>)
      modifies this
      ensures Meets(AddMembers(old(Contents()), now, actor, program, batch, users), old(Contents()), Contents(), err)
    {
      if |batch| == 0 { return Some(Validation); }
      if program !in programs { return Some(NotFound); }
      if programs[program].coordinator != actor || !programs[program].CanAcceptMembers(now) { return Some(Forbidden); }
      var count := CountActiveMembers(program);
      if count + |batch| > programs[program].capacity { return Some(Conflict); }
      var before := members;
      var seen: set<Id> := {};
      for i := 0 to |batch|
        invariant programs == old(programs) && keys == old(keys)
        invariant AddAll(before, program, batch, {}, users) == AddAll(members, program, batch[i..], seen, users)
      {
        var user := batch[i].1;
        assert batch[i..][1..] == batch[i + 1..];
        if user in seen { members := before; return Some(Validation); }
        seen := seen + {user};
        if user !in users.known { members := before; return Some(NotFound); }
        if user !in users.researchers { members := before; return Some(Precondition); }
        err := InsertProgramMember(batch[i].0, program, user);
        if err.Some? { members := before; return; }
      }
      return None;
    }
  }
}
