/** What each enrolment call answers and writes, told by its request and the rows before and after. */
module EnrolmentAnswers {
  import opened Prelude
  import opened Versions
  import opened Enrolment

  // ---------- Create

  /** A program is created exactly for a coordinator, with room for two, in a proper window, under new ids;
      it is a draft, and its coordinator is its one new member. */
  lemma CreateAnswers(t: Tables, pid: Id, coordinator: Id, capacity: int, startsAt: Instant, endsAt: Instant, m: Id)
    requires TablesOk(t)
    ensures Create(t, pid, coordinator, capacity, startsAt, endsAt, m).Ok? <==>
            coordinator != NO_ID && capacity >= 2 && startsAt < endsAt && pid !in t.programs && m !in t.members
    ensures Create(t, pid, coordinator, capacity, startsAt, endsAt, m).Ok? ==>
            Create(t, pid, coordinator, capacity, startsAt, endsAt, m).value
            == Tables(t.programs[pid := ProgramRow(coordinator, capacity, startsAt, endsAt, Draft, 1)],
                      t.members[m := MemberRow(pid, coordinator, MemberState.Active)], t.keys)
  {
    assert pid !in t.programs ==> !IsMember(t.members, pid, coordinator);
  }

  // ---------- Transitions

  /** A program is opened exactly by its coordinator before its start, from draft. */
  lemma OpenIsAcceptedExactlyWhen(s: State, pid: Id, seen: ProgramRow, at: Instant)
    requires Loaded(pid, seen) in s.ops
    ensures Begin(s, BeginOpen(pid, seen, at))
         == if seen.state == Draft && at < seen.startsAt
            then Some(Opening(pid, seen, ProgramRow(seen.coordinator, seen.capacity, seen.startsAt, seen.endsAt,
                                                    Enrolling, seen.version + 1)))
            else None
  {
  }

  /** It is started exactly with two active members, inside its window, from enrolling. */
  lemma StartIsAcceptedExactlyWhen(s: State, pid: Id, seen: ProgramRow, at: Instant)
    requires Loaded(pid, seen) in s.ops
    ensures Begin(s, BeginStart(pid, seen, at))
         == if |ActiveMembers(s.tables.members, pid)| >= 2 && seen.state == Enrolling && seen.startsAt <= at < seen.endsAt
            then Some(Starting(pid, seen, ProgramRow(seen.coordinator, seen.capacity, seen.startsAt, seen.endsAt,
                                                     ProgramState.Active, seen.version + 1)))
            else None
  {
  }

  /** Only its coordinator gets hold of a program to change it. */
  lemma OnlyTheCoordinatorLoads(s: State, pid: Id, actor: Id)
    ensures Begin(s, Load(pid, actor))
         == if pid in s.tables.programs && s.tables.programs[pid].coordinator == actor
            then Some(Loaded(pid, s.tables.programs[pid])) else None
  {
  }

  /** A transition commits exactly when its program has not changed, and then writes just its row. */
  lemma TransitionWritesItsRow(s: State, events: seq<Event>, op: Op, assignments: nat, sessions: nat)
    requires Initial(s) && op in Run(s, events).ops && (op.Opening? || op.Starting?)
    ensures var t := Run(s, events).tables;
      Next(Run(s, events), Commit(op, assignments, sessions)).tables
      == if op.pid in t.programs && t.programs[op.pid] == op.seen then t.(programs := t.programs[op.pid := op.row]) else t
  {
    RunKeeps(s, events);
    assert OpOk(Run(s, events).tables, op);
  }

  // ---------- Join

  /** The program takes members at this reading, and has room. */
  predicate HasPlace(t: Tables, pid: Id, at: Instant) {
    && pid in t.programs && t.programs[pid].state == Enrolling && at < t.programs[pid].startsAt
    && |set m | m in t.members && t.members[m].program == pid && t.members[m].state == MemberState.Active|
       < t.programs[pid].capacity
  }

  /** In every run, a join by somebody who is no member, under a trimmed key that nobody has used, succeeds
      exactly while the program takes members and has fewer active ones than its capacity; it then adds
      that member and records the key, and otherwise nothing changes. */
  lemma NewMemberJoinsExactlyWhen(s: State, events: seq<Event>, m: Id, pid: Id, user: Id, key: string, hash: string, at: Instant)
    requires Initial(s)
    requires var t := Run(s, events).tables;
      && m !in t.members && key !in t.keys && TrimSpace(key) == key != "" && |hash| == 64
      && forall k | k in t.members :: t.members[k].program != pid || t.members[k].user != user
    ensures var t := Run(s, events).tables;
      if HasPlace(t, pid, at) then
        Join(t, at, m, pid, user, key, hash)
        == (Tables(t.programs, t.members[m := MemberRow(pid, user, MemberState.Active)],
                   t.keys[key := KeyRow(pid, user, hash, m)]), Ok(m))
      else
        && Join(t, at, m, pid, user, key, hash).0 == t
        && Join(t, at, m, pid, user, key, hash).1
           == Err(if pid !in t.programs then NotFound
                  else if t.programs[pid].state != Enrolling || t.programs[pid].startsAt <= at then Precondition
                  else Conflict)
  {
    var t := Run(s, events).tables;
    assert !IsMember(t.members, pid, user);
    assert ActiveMembers(t.members, pid)
        == set k | k in t.members && t.members[k].program == pid && t.members[k].state == MemberState.Active;
  }

  /** Trimming takes white space off both ends, and nothing else. */
  lemma {:induction false} TrimmedShape(s: string) returns (i: nat, j: nat)
    ensures i <= j <= |s| && TrimSpace(s) == s[i..j]
    ensures (forall k | 0 <= k < i :: s[k] in " \t\n\r") && (forall k | j <= k < |s| :: s[k] in " \t\n\r")
    ensures i < j ==> s[i] !in " \t\n\r" && s[j - 1] !in " \t\n\r"
    decreases |s|
  {
    if s != [] && IsSpace(s[0]) {
      i, j := TrimmedShape(s[1..]);
      assert s[1..][i..j] == s[i + 1..j + 1];
      forall k | 0 <= k < i + 1 ensures s[k] in " \t\n\r" { if k > 0 { assert s[k] == s[1..][k - 1]; } }
      forall k | j + 1 <= k < |s| ensures s[k] in " \t\n\r" { assert s[k] == s[1..][k - 1]; }
      i, j := i + 1, j + 1;
    } else if s != [] && IsSpace(s[|s| - 1]) {
      i, j := TrimmedShape(s[..|s| - 1]);
      assert s[..|s| - 1][i..j] == s[i..j];
      forall k | j <= k < |s| ensures s[k] in " \t\n\r" { if k < |s| - 1 { assert s[k] == s[..|s| - 1][k]; } }
    } else {
      i, j := 0, |s|;
    }
  }

  // ---------- Batches

  ghost predicate NewcomersAll(t: Tables, pid: Id, batch: seq<(Id, Id)>) {
    && (forall i | 0 <= i < |batch| :: batch[i].0 !in t.members
          && forall m | m in t.members :: t.members[m].program != pid || t.members[m].user != batch[i].1)
    && (forall i, j | 0 <= i < j < |batch| :: batch[i].0 != batch[j].0 && batch[i].1 != batch[j].1)
  }

  ghost predicate Qualified(batch: seq<(Id, Id)>, users: Users) {
    forall i | 0 <= i < |batch| :: batch[i].1 in users.known && batch[i].1 in users.researchers
  }

  lemma FirstNewcomer(t: Tables, pid: Id, batch: seq<(Id, Id)>)
    requires batch != [] && batch[0].0 !in t.members && !IsMember(t.members, pid, batch[0].1)
    ensures var t1 := t.(members := t.members[batch[0].0 := MemberRow(pid, batch[0].1, MemberState.Active)]);
      NewcomersAll(t, pid, batch) <==> NewcomersAll(t1, pid, batch[1..])
  {
    var t1 := t.(members := t.members[batch[0].0 := MemberRow(pid, batch[0].1, MemberState.Active)]);
    assert forall i | 0 <= i < |batch[1..]| :: batch[1..][i] == batch[i + 1];
    if NewcomersAll(t1, pid, batch[1..]) {
      forall i | 0 <= i < |batch|
        ensures batch[i].0 !in t.members
        ensures forall m | m in t.members :: t.members[m].program != pid || t.members[m].user != batch[i].1
        ensures i > 0 ==> batch[0].0 != batch[i].0 && batch[0].1 != batch[i].1
      {
        if i > 0 {
          assert batch[1..][i - 1] == batch[i];
          assert t1.members[batch[0].0].user == batch[0].1;
          assert forall m | m in t.members :: m in t1.members;
        }
      }
      forall i, j | 0 <= i < j < |batch|
        ensures batch[i].0 != batch[j].0 && batch[i].1 != batch[j].1
      {
        if i > 0 { assert batch[1..][i - 1] == batch[i] && batch[1..][j - 1] == batch[j]; }
      }
    }
  }

  lemma {:induction false} AllGoIn(t: Tables, pid: Id, batch: seq<(Id, Id)>, seen: set<Id>, users: Users)
    requires forall u | u in seen :: IsMember(t.members, pid, u)
    ensures AddAll(t.members, pid, batch, seen, users).Ok? <==> NewcomersAll(t, pid, batch) && Qualified(batch, users)
    decreases |batch|
  {
    if batch != [] {
      var (m, user) := batch[0];
      assert forall i | 0 <= i < |batch[1..]| :: batch[1..][i] == batch[i + 1];
      assert Qualified(batch, users) <==> user in users.known && user in users.researchers && Qualified(batch[1..], users) by {
        if Qualified(batch[1..], users) && user in users.known && user in users.researchers {
          forall i | 0 <= i < |batch|
            ensures batch[i].1 in users.known && batch[i].1 in users.researchers
          {
            if i > 0 { assert batch[1..][i - 1] == batch[i]; }
          }
        }
      }
      if m !in t.members && !IsMember(t.members, pid, user) {
        FirstNewcomer(t, pid, batch);
        var t1 := t.(members := t.members[m := MemberRow(pid, user, MemberState.Active)]);
        StillMembers(t, t1, pid, seen, m, user);
        AllGoIn(t1, pid, batch[1..], seen + {user}, users);
      }
    }
  }

  lemma StillMembers(t: Tables, t1: Tables, pid: Id, seen: set<Id>, m: Id, user: Id)
    requires m !in t.members && t1.members == t.members[m := MemberRow(pid, user, MemberState.Active)]
    requires forall u | u in seen :: IsMember(t.members, pid, u)
    ensures forall u | u in seen + {user} :: IsMember(t1.members, pid, u)
  {
    forall u | u in seen + {user}
      ensures IsMember(t1.members, pid, u)
    {
      if u == user {
        assert t1.members[m].user == user;
      } else {
        var k :| k in t.members && t.members[k].program == pid && t.members[k].user == u;
        assert t1.members[k].user == u;
      }
    }
  }

  /** A batch goes through exactly when it is not empty, the program's coordinator asks while the program
      takes members, all of it fits, and everybody in it is a known researcher, new to the program and
      listed once. What it then adds is said by BatchIsAllOrNothing. */
  lemma BatchIsAcceptedExactlyWhen(t: Tables, at: Instant, actor: Id, pid: Id, batch: seq<(Id, Id)>, users: Users)
    ensures AddMembers(t, at, actor, pid, batch, users).Ok? <==>
            && batch != [] && pid in t.programs && t.programs[pid].coordinator == actor
            && t.programs[pid].state == Enrolling && at < t.programs[pid].startsAt
            && |set m | m in t.members && t.members[m].program == pid && t.members[m].state == MemberState.Active| + |batch|
               <= t.programs[pid].capacity
            && NewcomersAll(t, pid, batch) && Qualified(batch, users)
  {
    AllGoIn(t, pid, batch, {}, users);
    assert ActiveMembers(t.members, pid)
        == set m | m in t.members && t.members[m].program == pid && t.members[m].state == MemberState.Active;
  }
}
