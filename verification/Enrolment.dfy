/** Study programs and their members: capacity, atomic batches, replayed joins, and the transitions a
    program can make. One tenant is modelled. */
module Enrolment {
  import opened Prelude
  import opened Versions

  datatype ProgramState = Draft | Enrolling | Active | ReviewPending | Archived | Cancelled

  datatype ProgramRow = ProgramRow(
    coordinator: Id, capacity: int, startsAt: Instant, endsAt: Instant, state: ProgramState, version: int)
  {
    function Transition(next: ProgramState, allowed: set<ProgramState>): Result<ProgramRow> {
      if state in allowed then Ok(this.(state := next, version := version + 1)) else Err(Conflict)
    }

    function OpenEnrollment(now: Instant): Result<ProgramRow> {
      if startsAt <= now then Err(Precondition) else Transition(Enrolling, {Draft})
    }

    function Start(now: Instant): Result<ProgramRow> {
      if now < startsAt || endsAt <= now then Err(Precondition) else Transition(ProgramState.Active, {Enrolling})
    }

    function RequestReview(): Result<ProgramRow> { Transition(ReviewPending, {ProgramState.Active}) }

    function Archive(): Result<ProgramRow> { Transition(Archived, {ReviewPending}) }

    predicate CanAcceptMembers(now: Instant) { state == Enrolling && now < startsAt }
  }

  function NewProgram(coordinator: Id, capacity: int, startsAt: Instant, endsAt: Instant): Result<ProgramRow> {
    if coordinator == NO_ID || capacity < 2 || endsAt <= startsAt then Err(Validation)
    else Ok(ProgramRow(coordinator, capacity, startsAt, endsAt, Draft, 1))
  }

  datatype MemberState = Active | Completed | Withdrawn

  datatype MemberRow = MemberRow(program: Id, user: Id, state: MemberState)

  /** An idempotency record of the join route; the route and the actor are part of it. */
  datatype KeyRow = KeyRow(program: Id, user: Id, hash: string, member: Id)

  datatype Tables = Tables(programs: map<Id, ProgramRow>, members: map<Id, MemberRow>, keys: map<string, KeyRow>)

  function ProgramVersion(p: ProgramRow): int { p.version }

  // ---------- Text

  predicate IsSpace(c: char) { c in {' ', '\t', '\n', '\r'} }

  /** strings.TrimSpace, for ASCII white space. */
  function TrimSpace(s: string): string
    decreases |s|
  {
    if s != [] && IsSpace(s[0]) then TrimSpace(s[1..])
    else if s != [] && IsSpace(s[|s| - 1]) then TrimSpace(s[..|s| - 1])
    else s
  }

  lemma {:induction false} TrimSpaceTwice(s: string)
    ensures TrimSpace(TrimSpace(s)) == TrimSpace(s)
    decreases |s|
  {
    if s != [] && IsSpace(s[0]) {
      TrimSpaceTwice(s[1..]);
    } else if s != [] && IsSpace(s[|s| - 1]) {
      TrimSpaceTwice(s[..|s| - 1]);
    }
  }

  // ---------- Queries

  function ActiveMembers(members: map<Id, MemberRow>, program: Id): set<Id> {
    set m | m in members && members[m].program == program && members[m].state == MemberState.Active
  }

  /** state NOT IN (completed, withdrawn). */
  function IncompleteMembers(members: map<Id, MemberRow>, program: Id): set<Id> {
    set m | m in members && members[m].program == program
            && members[m].state != Completed && members[m].state != Withdrawn
  }

  predicate IsMember(members: map<Id, MemberRow>, program: Id, user: Id) {
    exists m :: m in members && members[m].program == program && members[m].user == user
  }

  /** The member row of a user in a program; at most one exists. */
  ghost function GetMember(members: map<Id, MemberRow>, program: Id, user: Id): Result<Id> {
    if !IsMember(members, program, user) then Err(NotFound)
    else
      var m :| m in members && members[m].program == program && members[m].user == user;
      Ok(m)
  }

  /** repository.ProgramReadiness, as far as ReadyForReview reads it. */
  datatype Readiness = Readiness(
    activeMembers: nat, incompleteMembers: nat, activeAssignments: nat, openReadingSessions: nat)
  {
    predicate ReadyForReview() {
      activeMembers > 0 && incompleteMembers == 0 && activeAssignments == 0 && openReadingSessions == 0
    }
  }

  function ReadReadiness(t: Tables, program: Id, assignments: nat, sessions: nat): Readiness {
    Readiness(|ActiveMembers(t.members, program)|, |IncompleteMembers(t.members, program)|, assignments, sessions)
  }

  // ---------- Atomic calls

  /** INSERT INTO program_members. */
  function InsertMember(members: map<Id, MemberRow>, m: Id, program: Id, user: Id): Result<map<Id, MemberRow>> {
    if IsMember(members, program, user) then Err(Conflict)
    else Insert(members, m, MemberRow(program, user, MemberState.Active))
  }

  function Create(t: Tables, pid: Id, coordinator: Id, capacity: int, startsAt: Instant, endsAt: Instant, m: Id): Result<Tables> {
    var row :- NewProgram(coordinator, capacity, startsAt, endsAt);
    var programs :- Insert(t.programs, pid, row);
    var members :- InsertMember(t.members, m, pid, coordinator);
    Ok(t.(programs := programs, members := members))
  }

  /** The transaction of Join: the tables after it and the member it answers with. */
  ghost function JoinTx(t: Tables, now: Instant, m: Id, program: Id, user: Id, key: string, hash: string): Result<(Tables, Id)> {
    if key in t.keys && t.keys[key].program == program && t.keys[key].user == user then
      if t.keys[key].hash != hash then Err(Conflict)
      else
        var existing :- GetMember(t.members, program, user);
        Ok((t, existing))
    else
      var current :- Get(t.programs, program);
      if !current.CanAcceptMembers(now) then Err(Precondition)
      else if |ActiveMembers(t.members, program)| >= current.capacity then Err(Conflict)
      else
        var members :- InsertMember(t.members, m, program, user);
        if TrimSpace(key) == "" || |hash| != 64 then Err(Validation)
        else
          var keys :- Insert(t.keys, TrimSpace(key), KeyRow(program, user, hash, m));
          Ok((t.(members := members, keys := keys), m))
  }

  /** Join: a conflict is answered with the existing member, if there is one. */
  ghost function Join(t: Tables, now: Instant, m: Id, program: Id, user: Id, key: string, hash: string): (Tables, Result<Id>) {
    match JoinTx(t, now, m, program, user, key, hash)
    case Ok((after, member)) => (after, Ok(member))
    case Err(Conflict) =>
      (t, match GetMember(t.members, program, user) case Ok(existing) => Ok(existing) case Err(_) => Err(Conflict))
    case Err(fault) => (t, Err(fault))
  }

  /** Who exists, and who may do research. */
  datatype Users = Users(known: set<Id>, researchers: set<Id>)

  predicate InBatch(batch: seq<(Id, Id)>, user: Id) {
    exists i :: 0 <= i < |batch| && batch[i].1 == user
  }

  /** The loop of AddMembersAtomically over (member id, user id) pairs. */
  function AddAll(members: map<Id, MemberRow>, program: Id, batch: seq<(Id, Id)>, seen: set<Id>, users: Users): Result<map<Id, MemberRow>>
    decreases |batch|
  {
    if batch == [] then Ok(members)
    else if batch[0].1 in seen then Err(Validation)
    else if batch[0].1 !in users.known then Err(NotFound)
    else if batch[0].1 !in users.researchers then Err(Precondition)
    else
      var next :- InsertMember(members, batch[0].0, program, batch[0].1);
      AddAll(next, program, batch[1..], seen + {batch[0].1}, users)
  }

  function AddMembers(t: Tables, now: Instant, actor: Id, program: Id, batch: seq<(Id, Id)>, users: Users): Result<Tables> {
    if batch == [] then Err(Validation)
    else
      var row :- Get(t.programs, program);
      if row.coordinator != actor || !row.CanAcceptMembers(now) then Err(Forbidden)
      else if |ActiveMembers(t.members, program)| + |batch| > row.capacity then Err(Conflict)
      else
        var members :- AddAll(t.members, program, batch, {}, users);
        Ok(t.(members := members))
  }

  // ---------- The protocol

  /** Transitions read the program, and Start counts the members, before the transaction. */
  datatype Op =
    | Loaded(pid: Id, seen: ProgramRow)
    | Opening(pid: Id, seen: ProgramRow, row: ProgramRow)
    | Starting(pid: Id, seen: ProgramRow, row: ProgramRow)
    | Reviewing(pid: Id, seen: ProgramRow, row: ProgramRow)

  /** Clock readings are part of the events, in any order; nothing here needs time to move forward. */
  datatype State = State(tables: Tables, ops: set<Op>)

  datatype Event =
    | CreateProgram(pid: Id, coordinator: Id, capacity: int, startsAt: Instant, endsAt: Instant, m: Id)
    | JoinProgram(m: Id, pid: Id, user: Id, key: string, hash: string, at: Instant)
    | AddBatch(pid: Id, actor: Id, batch: seq<(Id, Id)>, users: Users, at: Instant)
    | Load(pid: Id, actor: Id)
    | BeginOpen(pid: Id, seen: ProgramRow, at: Instant)
    | BeginStart(pid: Id, seen: ProgramRow, at: Instant)
    | BeginReview(pid: Id, seen: ProgramRow, assignments: nat, sessions: nat)
    | Commit(op: Op, assignments: nat, sessions: nat)
    | Crash(op: Op)

  function Started(t: Tables, pid: Id, seen: ProgramRow, now: Instant): Result<ProgramRow> {
    if |ActiveMembers(t.members, pid)| < 2 then Err(Precondition) else seen.Start(now)
  }

  function Begin(s: State, e: Event): Option<Op> {
    match e
    case Load(pid, actor) =>
      if pid in s.tables.programs && s.tables.programs[pid].coordinator == actor
      then Some(Loaded(pid, s.tables.programs[pid])) else None
    case BeginOpen(pid, seen, at) =>
      if Loaded(pid, seen) !in s.ops then None
      else (match seen.OpenEnrollment(at) case Ok(row) => Some(Opening(pid, seen, row)) case Err(_) => None)
    case BeginStart(pid, seen, at) =>
      if Loaded(pid, seen) !in s.ops then None
      else (
        match Started(s.tables, pid, seen, at)
        case Ok(row) => Some(Starting(pid, seen, row))
        case Err(_) => None
      )
    case BeginReview(pid, seen, assignments, sessions) =>
      if Loaded(pid, seen) !in s.ops || !ReadReadiness(s.tables, pid, assignments, sessions).ReadyForReview() then None
      else (match seen.RequestReview() case Ok(row) => Some(Reviewing(pid, seen, row)) case Err(_) => None)
    case _ => None
  }

  function Transact(t: Tables, op: Op, assignments: nat, sessions: nat): Result<Tables> {
    match op
    case Loaded(_, _) => Err(Validation)
    case Reviewing(pid, seen, row) =>
      if !ReadReadiness(t, pid, assignments, sessions).ReadyForReview() then Err(Conflict)
      else
        var programs :- Update(ProgramVersion, t.programs, pid, row, seen.version);
        Ok(t.(programs := programs))
    case _ =>
      var programs :- Update(ProgramVersion, t.programs, op.pid, op.row, op.seen.version);
      Ok(t.(programs := programs))
  }

  function Or<T>(r: Result<T>, otherwise: T): T {
    match r
    case Ok(value) => value
    case Err(_) => otherwise
  }

  ghost function Next(s: State, e: Event): State {
    match e
    case CreateProgram(pid, coordinator, capacity, startsAt, endsAt, m) =>
      s.(tables := Or(Create(s.tables, pid, coordinator, capacity, startsAt, endsAt, m), s.tables))
    case JoinProgram(m, pid, user, key, hash, at) => s.(tables := Join(s.tables, at, m, pid, user, key, hash).0)
    case AddBatch(pid, actor, batch, users, at) =>
      s.(tables := Or(AddMembers(s.tables, at, actor, pid, batch, users), s.tables))
    case Commit(op, assignments, sessions) =>
      if op !in s.ops then s
      else s.(tables := Or(Transact(s.tables, op, assignments, sessions), s.tables), ops := s.ops - {op})
    case Crash(op) => s.(ops := s.ops - {op})
    case _ => (match Begin(s, e) case Some(op) => s.(ops := s.ops + {op}) case None => s)
  }

  ghost function Run(s: State, events: seq<Event>): State
    decreases |events|
  {
    if events == [] then s else Run(Next(s, events[0]), events[1..])
  }

  predicate Initial(s: State) {
    s.tables == Tables(map[], map[], map[]) && s.ops == {}
  }

  // ---------- The invariant

  ghost predicate MembersOk(t: Tables) {
    && (forall m | m in t.members ::
          t.members[m].program in t.programs && t.members[m].state == MemberState.Active)
    && (forall m, n | m in t.members && n in t.members && m != n ::
          t.members[m].program != t.members[n].program || t.members[m].user != t.members[n].user)
  }

  ghost predicate ProgramsOk(t: Tables) {
    forall pid | pid in t.programs ::
      var p, n := t.programs[pid], |ActiveMembers(t.members, pid)|;
      && n <= p.capacity
      && p.state in {Draft, Enrolling, ProgramState.Active}
      && (p.state == ProgramState.Active ==> n >= 2)
  }

  ghost predicate KeysOk(t: Tables) {
    forall k | k in t.keys ::
      && TrimSpace(k) == k && t.keys[k].member in t.members
      && t.members[t.keys[k].member].program == t.keys[k].program
      && t.members[t.keys[k].member].user == t.keys[k].user
  }

  ghost predicate TablesOk(t: Tables) { MembersOk(t) && ProgramsOk(t) && KeysOk(t) }

  ghost predicate OpOk(t: Tables, op: Op) {
    && Snapshot(ProgramVersion, t.programs, op.pid, op.seen)
    && match op
       case Loaded(_, _) => true
       case Opening(_, seen, row) => exists now :: seen.OpenEnrollment(now) == Ok(row)
       case Starting(pid, seen, row) =>
         |ActiveMembers(t.members, pid)| >= 2 && exists now :: seen.Start(now) == Ok(row)
       case Reviewing(_, _, _) => false
  }

  ghost predicate Inv(s: State) {
    TablesOk(s.tables) && forall op | op in s.ops :: OpOk(s.tables, op)
  }

  /** Programs advance; members and keys are only added. */
  ghost predicate TablesAdvance(t: Tables, t': Tables) {
    && Advances(ProgramVersion, t.programs, t'.programs)
    && (forall m | m in t.members :: m in t'.members && t'.members[m] == t.members[m])
    && (forall k | k in t.keys :: k in t'.keys && t'.keys[k] == t.keys[k])
  }

  // ---------- Counting

  lemma MembersOnlyGrow(t: Tables, t': Tables, pid: Id)
    requires TablesAdvance(t, t')
    ensures |ActiveMembers(t.members, pid)| <= |ActiveMembers(t'.members, pid)|
  {
    SubsetIsNotLarger(ActiveMembers(t.members, pid), ActiveMembers(t'.members, pid));
  }

  lemma OneMoreMember(members: map<Id, MemberRow>, m: Id, program: Id, user: Id, pid: Id)
    requires m !in members
    ensures |ActiveMembers(members[m := MemberRow(program, user, MemberState.Active)], pid)|
         == |ActiveMembers(members, pid)| + if pid == program then 1 else 0
  {
    var before := ActiveMembers(members, pid);
    var after := ActiveMembers(members[m := MemberRow(program, user, MemberState.Active)], pid);
    assert after == if pid == program then before + {m} else before;
  }

  /** No program is ever ready for review: an active member is an incomplete member. */
  lemma NeverReady(t: Tables, pid: Id, assignments: nat, sessions: nat)
    ensures !ReadReadiness(t, pid, assignments, sessions).ReadyForReview()
  {
    SubsetIsNotLarger(ActiveMembers(t.members, pid), IncompleteMembers(t.members, pid));
  }

  // ---------- What each call keeps

  lemma MemberInserted(t: Tables, t': Tables, m: Id, program: Id, user: Id)
    requires MembersOk(t) && program in t.programs && InsertMember(t.members, m, program, user).Ok?
    requires t'.members == InsertMember(t.members, m, program, user).value && t'.programs.Keys == t.programs.Keys
    ensures MembersOk(t')
    ensures forall pid :: |ActiveMembers(t'.members, pid)| == |ActiveMembers(t.members, pid)| + if pid == program then 1 else 0
  {
    forall pid { OneMoreMember(t.members, m, program, user, pid); }
  }

  lemma NewProgramKeeps(t: Tables, pid: Id, row: ProgramRow)
    requires MembersOk(t) && ProgramsOk(t) && KeysOk(t) && pid !in t.programs
    requires row.capacity >= 0 && row.state == Draft
    ensures var t1 := t.(programs := t.programs[pid := row]);
      TablesOk(t1) && TablesAdvance(t, t1) && ActiveMembers(t1.members, pid) == {}
  {
    assert ActiveMembers(t.members, pid) == {};
  }

  /** One more member, with room for it. */
  lemma NewMemberKeeps(t: Tables, m: Id, program: Id, user: Id)
    requires TablesOk(t) && program in t.programs && InsertMember(t.members, m, program, user).Ok?
    requires |ActiveMembers(t.members, program)| < t.programs[program].capacity
    ensures var t' := t.(members := InsertMember(t.members, m, program, user).value);
      TablesOk(t') && TablesAdvance(t, t')
  {
    var t' := t.(members := InsertMember(t.members, m, program, user).value);
    MemberInserted(t, t', m, program, user);
    RoomForMore(t, t', program);
    OnlyAdded(t, t');
  }

  lemma OnlyAdded(t: Tables, t': Tables)
    requires KeysOk(t) && t'.programs == t.programs && t'.keys == t.keys
    requires forall m | m in t.members :: m in t'.members && t'.members[m] == t.members[m]
    ensures KeysOk(t') && TablesAdvance(t, t')
  {
  }

  lemma RoomForMore(t: Tables, t': Tables, program: Id)
    requires ProgramsOk(t) && t'.programs == t.programs && program in t.programs
    requires |ActiveMembers(t.members, program)| < t.programs[program].capacity
    requires forall pid :: |ActiveMembers(t'.members, pid)| == |ActiveMembers(t.members, pid)| + if pid == program then 1 else 0
    ensures ProgramsOk(t')
  {
  }

  lemma CreateKeeps(t: Tables, pid: Id, coordinator: Id, capacity: int, startsAt: Instant, endsAt: Instant, m: Id)
    requires TablesOk(t) && Create(t, pid, coordinator, capacity, startsAt, endsAt, m).Ok?
    ensures var t' := Create(t, pid, coordinator, capacity, startsAt, endsAt, m).value;
      TablesOk(t') && TablesAdvance(t, t')
  {
    var row := NewProgram(coordinator, capacity, startsAt, endsAt).value;
    NewProgramKeeps(t, pid, row);
    NewMemberKeeps(t.(programs := t.programs[pid := row]), m, pid, coordinator);
  }

  /** What a join that changes the tables has found and does. */
  lemma JoinAdds(t: Tables, now: Instant, m: Id, program: Id, user: Id, key: string, hash: string)
    requires Join(t, now, m, program, user, key, hash).0 != t
    ensures program in t.programs && |ActiveMembers(t.members, program)| < t.programs[program].capacity
    ensures InsertMember(t.members, m, program, user).Ok? && TrimSpace(key) !in t.keys
    ensures Join(t, now, m, program, user, key, hash)
         == (t.(members := InsertMember(t.members, m, program, user).value,
                keys := t.keys[TrimSpace(key) := KeyRow(program, user, hash, m)]), Ok(m))
  {
  }

  lemma KeyInserted(t: Tables, key: string, row: KeyRow)
    requires TablesOk(t) && key !in t.keys && TrimSpace(key) == key
    requires row.member in t.members
    requires t.members[row.member].program == row.program && t.members[row.member].user == row.user
    ensures TablesOk(t.(keys := t.keys[key := row]))
  {
  }

  lemma JoinKeeps(t: Tables, now: Instant, m: Id, program: Id, user: Id, key: string, hash: string)
    requires TablesOk(t)
    ensures var t' := Join(t, now, m, program, user, key, hash).0;
      TablesOk(t') && TablesAdvance(t, t')
  {
    if Join(t, now, m, program, user, key, hash).0 != t {
      JoinAdds(t, now, m, program, user, key, hash);
      NewMemberKeeps(t, m, program, user);
      TrimSpaceTwice(key);
      KeyInserted(t.(members := InsertMember(t.members, m, program, user).value), TrimSpace(key),
                  KeyRow(program, user, hash, m));
    }
  }

  /** A batch that goes through adds every user of the batch, each one new and once. */
  lemma {:induction false} AddAllAdds(t: Tables, program: Id, batch: seq<(Id, Id)>, seen: set<Id>, users: Users)
    requires MembersOk(t) && program in t.programs && AddAll(t.members, program, batch, seen, users).Ok?
    ensures var t' := t.(members := AddAll(t.members, program, batch, seen, users).value);
      && MembersOk(t') && TablesAdvance(t, t')
      && (forall pid :: |ActiveMembers(t'.members, pid)|
                     == |ActiveMembers(t.members, pid)| + if pid == program then |batch| else 0)
      && (forall u :: IsMember(t'.members, program, u) <==>
                        IsMember(t.members, program, u) || InBatch(batch, u))
    decreases |batch|
  {
    if batch != [] {
      var t1 := t.(members := InsertMember(t.members, batch[0].0, program, batch[0].1).value);
      MemberInserted(t, t1, batch[0].0, program, batch[0].1);
      AddAllAdds(t1, program, batch[1..], seen + {batch[0].1}, users);
      BatchUsers(t.members, t1.members, program, batch);
    }
  }

  lemma BatchUsers(members: map<Id, MemberRow>, next: map<Id, MemberRow>, program: Id, batch: seq<(Id, Id)>)
    requires batch != [] && batch[0].0 !in members
    requires next == members[batch[0].0 := MemberRow(program, batch[0].1, MemberState.Active)]
    ensures forall u :: IsMember(next, program, u) || InBatch(batch[1..], u) <==>
                        IsMember(members, program, u) || InBatch(batch, u)
  {
    forall u
      ensures IsMember(next, program, u) <==> IsMember(members, program, u) || u == batch[0].1
    {
      if IsMember(members, program, u) {
        var m :| m in members && members[m].program == program && members[m].user == u;
        assert m in next && next[m].user == u;
      }
      if u == batch[0].1 {
        assert next[batch[0].0].user == u;
      }
    }
    forall u
      ensures InBatch(batch, u) <==> u == batch[0].1 || InBatch(batch[1..], u)
    {
      if i :| 0 <= i < |batch| && batch[i].1 == u {
        if i > 0 { assert batch[1..][i - 1].1 == u; }
      }
      if i :| 0 <= i < |batch[1..]| && batch[1..][i].1 == u {
        assert batch[i + 1].1 == u;
      }
    }
  }

  lemma AddMembersKeeps(t: Tables, now: Instant, actor: Id, program: Id, batch: seq<(Id, Id)>, users: Users)
    requires TablesOk(t) && AddMembers(t, now, actor, program, batch, users).Ok?
    ensures var t' := AddMembers(t, now, actor, program, batch, users).value;
      TablesOk(t') && TablesAdvance(t, t')
  {
    AddAllAdds(t, program, batch, {}, users);
  }

  lemma CommitKeeps(t: Tables, op: Op, assignments: nat, sessions: nat)
    requires TablesOk(t) && OpOk(t, op) && Transact(t, op, assignments, sessions).Ok?
    ensures var t' := Transact(t, op, assignments, sessions).value;
      TablesOk(t') && TablesAdvance(t, t') && t.programs[op.pid] == op.seen
  {
    assert t.programs[op.pid] == op.seen;
    ProgramWrittenKeeps(t, op.pid, op.row);
  }

  lemma ProgramWrittenKeeps(t: Tables, pid: Id, row: ProgramRow)
    requires TablesOk(t) && pid in t.programs && row.version > t.programs[pid].version
    requires row.capacity == t.programs[pid].capacity && row.state in {Enrolling, ProgramState.Active}
    requires row.state == ProgramState.Active ==> |ActiveMembers(t.members, pid)| >= 2
    ensures var t' := t.(programs := t.programs[pid := row]);
      TablesOk(t') && TablesAdvance(t, t')
  {
  }

  // ---------- Runs

  lemma OpStaysOk(t: Tables, t': Tables, op: Op)
    requires TablesAdvance(t, t') && OpOk(t, op)
    ensures OpOk(t', op)
  {
    MembersOnlyGrow(t, t', op.pid);
  }

  lemma BeginOk(s: State, e: Event)
    requires Inv(s) && Begin(s, e).Some?
    ensures OpOk(s.tables, Begin(s, e).value)
  {
    match e
    case Load(_, _) =>
    case BeginOpen(pid, seen, at) =>
      assert OpOk(s.tables, Loaded(pid, seen));
      assert seen.OpenEnrollment(at) == Ok(Begin(s, e).value.row);
    case BeginStart(pid, seen, at) =>
      assert OpOk(s.tables, Loaded(pid, seen));
      assert seen.Start(at) == Ok(Begin(s, e).value.row);
    case BeginReview(pid, seen, assignments, sessions) => NeverReady(s.tables, pid, assignments, sessions);
  }

  lemma CallKeeps(s: State, e: Event)
    requires Inv(s) && (e.CreateProgram? || e.JoinProgram? || e.AddBatch? || e.Commit?)
    ensures TablesOk(Next(s, e).tables) && TablesAdvance(s.tables, Next(s, e).tables)
  {
    match e
    case CreateProgram(pid, coordinator, capacity, startsAt, endsAt, m) =>
      if Create(s.tables, pid, coordinator, capacity, startsAt, endsAt, m).Ok? {
        CreateKeeps(s.tables, pid, coordinator, capacity, startsAt, endsAt, m);
      }
    case JoinProgram(m, pid, user, key, hash, at) => JoinKeeps(s.tables, at, m, pid, user, key, hash);
    case AddBatch(pid, actor, batch, users, at) =>
      if AddMembers(s.tables, at, actor, pid, batch, users).Ok? {
        AddMembersKeeps(s.tables, at, actor, pid, batch, users);
      }
    case Commit(op, assignments, sessions) =>
      if op in s.ops && Transact(s.tables, op, assignments, sessions).Ok? {
        CommitKeeps(s.tables, op, assignments, sessions);
      }
  }

  lemma StepKeeps(s: State, e: Event)
    requires Inv(s)
    ensures Inv(Next(s, e)) && TablesAdvance(s.tables, Next(s, e).tables)
  {
    match e
    case CreateProgram(_, _, _, _, _, _) => CallKeeps(s, e); OpsStayOk(s, Next(s, e));
    case JoinProgram(_, _, _, _, _, _) => CallKeeps(s, e); OpsStayOk(s, Next(s, e));
    case AddBatch(_, _, _, _, _) => CallKeeps(s, e); OpsStayOk(s, Next(s, e));
    case Commit(_, _, _) => CallKeeps(s, e); OpsStayOk(s, Next(s, e));
    case Crash(_) =>
    case _ => if Begin(s, e).Some? { BeginOk(s, e); }
  }

  lemma OpsStayOk(s: State, s': State)
    requires TablesAdvance(s.tables, s'.tables) && forall op | op in s.ops :: OpOk(s.tables, op)
    ensures forall op | op in s.ops :: OpOk(s'.tables, op)
  {
    forall op | op in s.ops
      ensures OpOk(s'.tables, op)
    {
      OpStaysOk(s.tables, s'.tables, op);
    }
  }

  lemma {:induction false} RunKeeps(s: State, events: seq<Event>)
    requires Inv(s)
    ensures Inv(Run(s, events)) && TablesAdvance(s.tables, Run(s, events).tables)
    decreases |events|
  {
    if events != [] {
      var s1 := Next(s, events[0]);
      StepKeeps(s, events[0]);
      RunKeeps(s1, events[1..]);
      AdvancesTransitive(ProgramVersion, s.tables.programs, s1.tables.programs, Run(s, events).tables.programs);
    }
  }

  // ---------- Main results

  /** Capacity is never exceeded, and an active program has at least two active members, although
      Start counts them outside its transaction. */
  lemma CapacityIsKept(s: State, events: seq<Event>, pid: Id)
    requires Initial(s) && pid in Run(s, events).tables.programs
    ensures var t := Run(s, events).tables;
      && |ActiveMembers(t.members, pid)| <= t.programs[pid].capacity
      && (t.programs[pid].state == ProgramState.Active ==> |ActiveMembers(t.members, pid)| >= 2)
  {
    RunKeeps(s, events);
  }

  /** A user has at most one member row in a program, and it never changes. */
  lemma OneRowPerMember(s: State, events: seq<Event>, later: seq<Event>, m: Id, n: Id)
    requires Initial(s) && m in Run(s, events).tables.members && n in Run(s, events).tables.members
    ensures var t, t' := Run(s, events).tables, Run(Run(s, events), later).tables;
      && m in t'.members && t'.members[m] == t.members[m]
      && (t.members[m].program == t.members[n].program && t.members[m].user == t.members[n].user ==> m == n)
  {
    RunKeeps(s, events);
    RunKeeps(Run(s, events), later);
  }

  /** A batch adds all of its users, who are distinct and were not members, or it changes nothing. */
  lemma BatchIsAllOrNothing(s: State, events: seq<Event>, pid: Id, actor: Id, batch: seq<(Id, Id)>, users: Users, at: Instant)
    requires Initial(s)
    ensures var t, t' := Run(s, events).tables, Next(Run(s, events), AddBatch(pid, actor, batch, users, at)).tables;
      if AddMembers(t, at, actor, pid, batch, users).Err? then t' == t
      else
        && t'.programs == t.programs && t'.keys == t.keys
        && |ActiveMembers(t'.members, pid)| == |ActiveMembers(t.members, pid)| + |batch|
        && (forall u :: IsMember(t'.members, pid, u) <==>
                          IsMember(t.members, pid, u) || InBatch(batch, u))
  {
    RunKeeps(s, events);
    var t := Run(s, events).tables;
    if AddMembers(t, at, actor, pid, batch, users).Ok? {
      AddAllAdds(t, pid, batch, {}, users);
    }
  }

  lemma MemberIsFound(t: Tables, m: Id)
    requires MembersOk(t) && m in t.members
    ensures GetMember(t.members, t.members[m].program, t.members[m].user) == Ok(m)
  {
  }

  predicate Recorded(t: Tables, key: string, pid: Id, user: Id) {
    key in t.keys && t.keys[key].program == pid && t.keys[key].user == user
  }

  /** A join by somebody who is a member already changes nothing. It answers with the member row if and
      only if the user's key is on record or the program still accepts members; whether the request
      is the same does not matter. */
  lemma JoinOfAMember(t: Tables, m: Id, pid: Id, user: Id, key: string, hash: string, m': Id, at: Instant)
    requires TablesOk(t) && m in t.members && t.members[m].program == pid && t.members[m].user == user
    ensures pid in t.programs && Join(t, at, m', pid, user, key, hash).0 == t
    ensures Join(t, at, m', pid, user, key, hash).1
         == if Recorded(t, key, pid, user) || t.programs[pid].CanAcceptMembers(at) then Ok(m) else Err(Precondition)
  {
    MemberIsFound(t, m);
    assert IsMember(t.members, pid, user);
  }

  /** Whoever a join answers with is the user's own row. */
  lemma JoinAnswers(t: Tables, now: Instant, m: Id, pid: Id, user: Id, key: string, hash: string)
    requires TablesOk(t) && Join(t, now, m, pid, user, key, hash).1.Ok?
    ensures var (t', answer) := Join(t, now, m, pid, user, key, hash);
      && answer.value in t'.members
      && t'.members[answer.value].program == pid && t'.members[answer.value].user == user
      && (t' != t ==> answer == Ok(m) && TrimSpace(key) in t'.keys && Recorded(t', TrimSpace(key), pid, user))
  {
    if Join(t, now, m, pid, user, key, hash).0 != t {
      JoinAdds(t, now, m, pid, user, key, hash);
    }
  }

  /** The store after an answered join and any continuation of the run. */
  lemma AfterJoin(s: State, events: seq<Event>, later: seq<Event>, m: Id, pid: Id, user: Id, key: string, hash: string, at: Instant)
    requires Initial(s) && Join(Run(s, events).tables, at, m, pid, user, key, hash).1.Ok?
    ensures var (t1, answer) := Join(Run(s, events).tables, at, m, pid, user, key, hash);
      var t := Run(Next(Run(s, events), JoinProgram(m, pid, user, key, hash, at)), later).tables;
      && TablesOk(t) && answer.value in t.members
      && t.members[answer.value].program == pid && t.members[answer.value].user == user
      && (t1 != Run(s, events).tables ==> Recorded(t, TrimSpace(key), pid, user))
  {
    RunKeeps(s, events);
    var e := JoinProgram(m, pid, user, key, hash, at);
    JoinAnswers(Run(s, events).tables, at, m, pid, user, key, hash);
    StepKeeps(Run(s, events), e);
    RunKeeps(Next(Run(s, events), e), later);
  }

  /** After a join that was answered, the same call at any later time leaves the store as it is. It gets
      the same answer if and only if its key is on record or the program still accepts members. */
  lemma ReplayedJoin(s: State, events: seq<Event>, later: seq<Event>,
                     m: Id, pid: Id, user: Id, key: string, hash: string, at: Instant, m': Id, at': Instant)
    requires Initial(s) && Join(Run(s, events).tables, at, m, pid, user, key, hash).1.Ok?
    ensures var t := Run(Next(Run(s, events), JoinProgram(m, pid, user, key, hash, at)), later).tables;
      && pid in t.programs && Join(t, at', m', pid, user, key, hash).0 == t
      && (Join(t, at', m', pid, user, key, hash).1 == Join(Run(s, events).tables, at, m, pid, user, key, hash).1
          <==> Recorded(t, key, pid, user) || t.programs[pid].CanAcceptMembers(at'))
  {
    AfterJoin(s, events, later, m, pid, user, key, hash, at);
    var t := Run(Next(Run(s, events), JoinProgram(m, pid, user, key, hash, at)), later).tables;
    JoinOfAMember(t, Join(Run(s, events).tables, at, m, pid, user, key, hash).1.value, pid, user, key, hash, m', at');
  }

  /** A join that added a member, under a trimmed key as the HTTP handler sends it, is idempotent: the
      same call at any later time returns the same member and leaves the store unchanged. */
  lemma AddingJoinIsIdempotent(s: State, events: seq<Event>, later: seq<Event>,
                               m: Id, pid: Id, user: Id, key: string, hash: string, at: Instant, m': Id, at': Instant)
    requires Initial(s) && TrimSpace(key) == key
    requires Join(Run(s, events).tables, at, m, pid, user, key, hash).0 != Run(s, events).tables
    ensures Join(Run(s, events).tables, at, m, pid, user, key, hash).1 == Ok(m)
    ensures var t := Run(Next(Run(s, events), JoinProgram(m, pid, user, key, hash, at)), later).tables;
      Join(t, at', m', pid, user, key, hash) == (t, Ok(m))
  {
    JoinAdds(Run(s, events).tables, at, m, pid, user, key, hash);
    AfterJoin(s, events, later, m, pid, user, key, hash, at);
    ReplayedJoin(s, events, later, m, pid, user, key, hash, at, m', at');
  }

  /** An answered join whose replay is refused. User 3 was added by a batch and joins under "k": the
      answer is the existing row, and nothing is recorded. After enrolment has closed at 10 the same
      call fails. */
  lemma ReplayIsRefused() returns (s: State, events: seq<Event>, hash: string)
    ensures Initial(s) && TrimSpace("k") == "k"
    ensures var t := Run(s, events).tables;
      Join(t, 5, 4, 1, 3, "k", hash) == (t, Ok(3)) && Join(t, 10, 5, 1, 3, "k", hash) == (t, Err(Precondition))
  {
    s, hash := State(Tables(map[], map[], map[]), {}), seq(64, _ => 'a');
    events := BatchInOpenProgram(s);
    JoinOfAMember(Run(s, events).tables, 3, 1, 3, "k", hash, 4, 5);
    JoinOfAMember(Run(s, events).tables, 3, 1, 3, "k", hash, 5, 10);
  }

  lemma BatchInOpenProgram(s: State) returns (events: seq<Event>)
    requires s == State(Tables(map[], map[], map[]), {})
    ensures var t := Run(s, events).tables;
      && TablesOk(t) && t.programs == map[1 := ProgramRow(2, 5, 10, 20, Enrolling, 2)] && t.keys == map[]
      && 3 in t.members && t.members[3] == MemberRow(1, 3, MemberState.Active)
  {
    var before := OpenProgram(s);
    var batch := AddBatch(1, 2, [(3, 3)], Users({3}, {3}), 5);
    BatchOfOne(Run(s, before).tables);
    RunSnoc(s, before, batch);
    events := before + [batch];
    RunKeeps(s, events);
  }

  /** Program 1 of coordinator 2 enrolls until 10. */
  lemma OpenProgram(s: State) returns (events: seq<Event>)
    requires s == State(Tables(map[], map[], map[]), {})
    ensures Run(s, events).tables == Tables(map[1 := ProgramRow(2, 5, 10, 20, Enrolling, 2)],
                                            map[2 := MemberRow(1, 2, MemberState.Active)], map[])
  {
    var program := ProgramRow(2, 5, 10, 20, Draft, 1);
    var enrolling := program.(state := Enrolling, version := 2);
    var create, open := CreateProgram(1, 2, 5, 10, 20, 2), Opening(1, program, enrolling);
    RunSnoc(s, [], create);
    assert Run(s, [create]).tables == Tables(map[1 := program], map[2 := MemberRow(1, 2, MemberState.Active)], map[]);
    RunSnoc(s, [create], Load(1, 2));
    RunSnoc(s, [create] + [Load(1, 2)], BeginOpen(1, program, 5));
    RunSnoc(s, [create] + [Load(1, 2)] + [BeginOpen(1, program, 5)], Commit(open, 0, 0));
    events := [create] + [Load(1, 2)] + [BeginOpen(1, program, 5)] + [Commit(open, 0, 0)];
  }

  lemma BatchOfOne(t: Tables)
    requires t.programs == map[1 := ProgramRow(2, 5, 10, 20, Enrolling, 2)]
    requires t.members == map[2 := MemberRow(1, 2, MemberState.Active)]
    ensures AddMembers(t, 5, 2, 1, [(3, 3)], Users({3}, {3}))
         == Ok(t.(members := t.members[3 := MemberRow(1, 3, MemberState.Active)]))
  {
    assert ActiveMembers(t.members, 1) == {2};
    assert !IsMember(t.members, 1, 3);
    assert [(3, 3)][1..] == [];
  }

  lemma {:induction false} RunSnoc(s: State, events: seq<Event>, e: Event)
    ensures Run(s, events + [e]) == Next(Run(s, events), e)
    decreases |events|
  {
    if events != [] {
      assert (events + [e])[1..] == events[1..] + [e];
      RunSnoc(Next(s, events[0]), events[1..], e);
    }
  }

  /** No program ever leaves the first three states: nothing is ever ready for review. */
  lemma NoProgramReachesReview(s: State, events: seq<Event>, pid: Id)
    requires Initial(s) && pid in Run(s, events).tables.programs
    ensures Run(s, events).tables.programs[pid].state in {Draft, Enrolling, ProgramState.Active}
  {
    RunKeeps(s, events);
  }
}
