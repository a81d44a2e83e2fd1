/** README.md:35 promises that reservations stay within the program window. Reserve checks it and Move
    does not, so the promise fails; this module says exactly when it is kept. */
module ReadingWindows {
  import opened Prelude
  import opened Versions
  import opened ReadingDomain
  import opened ReadingProtocol
  import opened ReadingSafety
  import opened ReadingResults

  /** Start and end of every program; no service changes them. */
  type Windows = Id -> (Instant, Instant)

  predicate Within(windows: Windows, program: Id, start: Instant, end: Instant) {
    windows(program).0 <= start && end <= windows(program).1
  }

  predicate Inside(windows: Windows, a: AssignmentRow) {
    Within(windows, a.program, a.windowStart, a.windowEnd)
  }

  predicate AllInside(windows: Windows, table: map<Id, AssignmentRow>) {
    forall k | k in table :: Inside(windows, table[k])
  }

  /** Reserve has read the window of its own program. */
  predicate TrueView(windows: Windows, e: Event) {
    e.BeginReserve? ==> (e.view.programStart, e.view.programEnd) == windows(e.program)
  }

  predicate ReservingInside(windows: Windows, ops: set<Op>) {
    forall op | op in ops && op.Reserving? :: Inside(windows, op.row)
  }

  lemma {:induction false} ReservationsBeginInside(s: State, events: seq<Event>, windows: Windows)
    requires ReservingInside(windows, s.ops) && forall e | e in events :: TrueView(windows, e)
    ensures ReservingInside(windows, Run(s, events).ops)
    decreases |events|
  {
    if events != [] {
      assert TrueView(windows, events[0]);
      ReservationsBeginInside(Next(s, events[0]), events[1..], windows);
    }
  }

  /** Of all commits, only a move to a window outside leaves it. */
  lemma CommitInside(pageCount: map<Id, int>, t: Tables, op: Op, windows: Windows)
    requires OpOk(pageCount, t, op) && Transact(t, op).Ok? && AllInside(windows, t.assignments)
    requires op.Reserving? ==> Inside(windows, op.row)
    ensures AllInside(windows, Transact(t, op).value.assignments) <==> (op.Moving? ==> Inside(windows, op.row))
  {
    CommitMeetsWhatItSaw(pageCount, t, op);
    CommitWritesOneRow(t, op);
    if !op.Reserving? && !op.Moving? {
      assert Inside(windows, t.assignments[op.id]);
      assert SamePlace(op.row, op.seen);
    }
    if op.Moving? {
      assert Transact(t, op).value.assignments[op.id] == op.row;
    }
  }

  lemma CommitWritesOneRow(t: Tables, op: Op)
    requires Transact(t, op).Ok?
    ensures !op.HoldingAssignment? && !op.HoldingSession?
    ensures Transact(t, op).value.assignments == t.assignments[op.id := op.row]
  {
  }

  /** An event takes a reservation out of its program's window if and only if it commits a move whose
      requested window is not inside. */
  lemma OnlyMovesLeaveTheWindow(s: State, events: seq<Event>, e: Event, windows: Windows)
    requires Initial(s) && forall x | x in events :: TrueView(windows, x)
    requires AllInside(windows, Run(s, events).tables.assignments)
    ensures var s1 := Run(s, events);
      AllInside(windows, Next(s1, e).tables.assignments) <==>
      !(e.Commit? && e.op in s1.ops && e.op.Moving? && Transact(s1.tables, e.op).Ok?
        && !Within(windows, e.op.seen.program, e.op.row.windowStart, e.op.row.windowEnd))
  {
    Reached(s, events);
    ReservationsBeginInside(s, events, windows);
    var s1 := Run(s, events);
    if e.Commit? && e.op in s1.ops && Transact(s1.tables, e.op).Ok? {
      assert OpOk(s1.pageCount, s1.tables, e.op);
      CommitInside(s1.pageCount, s1.tables, e.op, windows);
    }
  }

  /** What a caller of Move would have to check. */
  predicate MoveAsksInside(windows: Windows, e: Event) {
    e.BeginMove? ==> Within(windows, e.seen.program, e.start, e.end)
  }

  ghost predicate Kept(windows: Windows, s: State) {
    && Inv(s) && AllInside(windows, s.tables.assignments)
    && forall op | op in s.ops && (op.Reserving? || op.Moving?) :: Inside(windows, op.row)
  }

  lemma StepKept(s: State, e: Event, windows: Windows)
    requires Kept(windows, s) && TrueView(windows, e) && MoveAsksInside(windows, e)
    ensures Kept(windows, Next(s, e))
  {
    StepKeeps(s, e);
    if e.Commit? {
      if e.op in s.ops && Transact(s.tables, e.op).Ok? {
        assert OpOk(s.pageCount, s.tables, e.op);
        CommitInside(s.pageCount, s.tables, e.op, windows);
      }
    } else {
      BeginsInside(s, e, windows);
    }
  }

  lemma BeginsInside(s: State, e: Event, windows: Windows)
    requires !e.Commit? && TrueView(windows, e) && MoveAsksInside(windows, e)
    ensures Next(s, e).tables == s.tables
    ensures forall op | op in Next(s, e).ops && op !in s.ops && (op.Reserving? || op.Moving?) :: Inside(windows, op.row)
  {
  }

  lemma {:induction false} RunKept(s: State, events: seq<Event>, windows: Windows)
    requires Kept(windows, s) && forall e | e in events :: TrueView(windows, e) && MoveAsksInside(windows, e)
    ensures Kept(windows, Run(s, events))
    decreases |events|
  {
    if events != [] {
      assert events[0] in events;
      StepKept(s, events[0], windows);
      RunKept(Next(s, events[0]), events[1..], windows);
    }
  }

  /** As long as every requested move is inside, every reservation is. */
  lemma MovesInsideKeepTheWindow(s: State, events: seq<Event>, windows: Windows)
    requires Initial(s) && forall e | e in events :: TrueView(windows, e) && MoveAsksInside(windows, e)
    ensures AllInside(windows, Run(s, events).tables.assignments)
  {
    RunKept(s, events, windows);
  }

  lemma RunCons(s: State, e: Event, rest: seq<Event>)
    ensures Run(s, [e] + rest) == Run(Next(s, e), rest)
  {
    assert ([e] + rest)[1..] == rest;
  }

  /** A run that breaks the promise: reserve from 10 to 20 in a program from 10 to 20, then move to 30. */
  lemma AMoveLeavesTheWindow() returns (s: State, events: seq<Event>, windows: Windows, k: Id)
    ensures Initial(s) && forall e | e in events :: TrueView(windows, e)
    ensures k in Run(s, events).tables.assignments
    ensures !Inside(windows, Run(s, events).tables.assignments[k])
  {
    windows, k := _ => (10, 20), 1;
    s := State(10, map[5 := 100], Tables(map[], map[], map[], map[]), {});
    var pages := PageRange(1, 10);
    var row := AssignmentRow(1, 1, 5, 1, pages, 10, 20, Reserved, 0, NO_ID, ZERO_TIME, 1);
    var moved := row.(windowStart := 30, windowEnd := 40, version := 2);
    var reserve, move := Reserving(1, row), Moving(1, row, moved);
    var e0 := BeginReserve(1, 1, 1, 5, 1, pages, 10, 20, EnrolmentView(true, 10, 20, true, true));
    var e3 := BeginMove(1, row, 1, pages, 30, 40);
    var s1 := s.(ops := {reserve});
    var s2 := s.(tables := s.tables.(assignments := map[1 := row]));
    var s3 := s2.(ops := {HoldingAssignment(1, row)});
    var s4 := s3.(ops := {HoldingAssignment(1, row), move});
    assert Next(s, e0) == s1;
    assert Next(s1, Commit(reserve)) == s2 by {
      assert Conflicting(s1.tables.assignments, row, NO_ID) == {};
      assert s1.ops - {reserve} == {};
    }
    assert Next(s2, ReadAssignment(1, 1)) == s3;
    assert Next(s3, e3) == s4;
    assert Conflicting(s4.tables.assignments, moved, 1) == {};
    assert Next(s4, Commit(move)).tables.assignments == map[1 := moved];
    events := [e0] + ([Commit(reserve)] + ([ReadAssignment(1, 1)] + ([e3] + ([Commit(move)] + []))));
    RunCons(s, e0, [Commit(reserve)] + ([ReadAssignment(1, 1)] + ([e3] + ([Commit(move)] + []))));
    RunCons(s1, Commit(reserve), [ReadAssignment(1, 1)] + ([e3] + ([Commit(move)] + [])));
    RunCons(s2, ReadAssignment(1, 1), [e3] + ([Commit(move)] + []));
    RunCons(s3, e3, [Commit(move)] + []);
    RunCons(s4, Commit(move), []);
  }
}
