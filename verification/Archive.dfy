/** Archive jobs: rows, their state machine, the worker protocol over them, and what every run
    keeps. */
module Archive {
  import opened Prelude
  import opened Versions

  datatype JobState = Queued | Leased | Writing | RetryWait | Complete | PermanentFailed

  datatype JobRow = JobRow(
    program: Id, state: JobState, leaseOwner: Id, leaseToken: int, leaseUntil: Instant,
    attempt: int, maxAttempts: int, nextTryAt: Instant, version: int)
  {
    predicate Held() { state == Leased || state == Writing }

    function Claim(owner: Id, ttl: int, now: Instant): Result<JobRow> {
      if owner == NO_ID || ttl <= 0 then Err(Validation)
      else if Held() && now < leaseUntil then Err(Conflict)
      else if state == Complete || state == PermanentFailed then Err(Conflict)
      else if now < nextTryAt then Err(Precondition)
      else Ok(this.(state := Leased, leaseOwner := owner, leaseToken := leaseToken + 1,
                    leaseUntil := now + ttl, attempt := attempt + 1, version := version + 1))
    }

    function BeginWrite(owner: Id, token: int, now: Instant): Result<JobRow> {
      if state != Leased || leaseOwner != owner || leaseToken != token || leaseUntil <= now then Err(Conflict)
      else Ok(this.(state := Writing, version := version + 1))
    }

    function Succeed(owner: Id, token: int, now: Instant): Result<JobRow> {
      if state != Writing || leaseOwner != owner || leaseToken != token || leaseUntil <= now then Err(Conflict)
      else Ok(this.(state := Complete, leaseOwner := NO_ID, leaseUntil := ZERO_TIME, version := version + 1))
    }

    function Fail(owner: Id, token: int, backoff: int, now: Instant): Result<JobRow> {
      if !Held() then Err(Conflict)
      else if leaseOwner != owner || leaseToken != token then Err(Conflict)
      else if attempt >= maxAttempts
      then Ok(this.(state := PermanentFailed, leaseOwner := NO_ID, leaseUntil := ZERO_TIME, version := version + 1))
      else Ok(this.(state := RetryWait, leaseOwner := NO_ID, leaseUntil := ZERO_TIME,
                    nextTryAt := now + backoff, version := version + 1))
    }
  }

  function NewJob(program: Id, maxAttempts: int, now: Instant): Result<JobRow> {
    if program == NO_ID || maxAttempts < 1 then Err(Validation)
    else Ok(JobRow(program, Queued, NO_ID, 0, ZERO_TIME, 0, maxAttempts, now, 1))
  }

  function JobVersion(j: JobRow): int { j.version }

  // ---------- The protocol

  /** Stages of Process: a copy read, a row to be written, a row just written, and a written row that
      passed the readiness check. */
  datatype Op =
    | Loaded(id: Id, seen: JobRow)
    | Claiming(id: Id, seen: JobRow, row: JobRow)
    | Beginning(id: Id, seen: JobRow, row: JobRow)
    | Holding(id: Id, seen: JobRow)
    | Checked(id: Id, seen: JobRow)
    | Failing(id: Id, seen: JobRow, row: JobRow)
    | Succeeding(id: Id, seen: JobRow, row: JobRow)

  /** Committed claims, with whether they took the job from another holder, and committed failures. */
  datatype Mark = Took(id: Id, over: bool) | Gave(id: Id)

  datatype State = State(now: Instant, jobs: map<Id, JobRow>, snapshots: set<Id>, ops: set<Op>, history: seq<Mark>)

  /** `rest` is the part of a readiness answer that is not about archive leases, and `at` the clock
      reading it was asked with. */
  datatype Event =
    | Request(id: Id, program: Id, maxAttempts: int)
    | Load(id: Id)
    | BeginClaim(id: Id, seen: JobRow, owner: Id, ttl: int)
    | BeginWrite(id: Id, seen: JobRow)
    | Check(id: Id, seen: JobRow, rest: bool, at: Instant)
    | BeginFail(id: Id, seen: JobRow, backoff: int)
    | BeginSucceed(id: Id, seen: JobRow)
    | Commit(op: Op, rest: bool, at: Instant)
    | Crash(op: Op)
    | Tick(to: Instant)

  /** ReadyForArchive, as far as the archive jobs of the program matter: none holds an unexpired
      lease. */
  predicate Ready(jobs: map<Id, JobRow>, program: Id, now: Instant, rest: bool) {
    rest && forall k | k in jobs && jobs[k].program == program && jobs[k].Held() :: jobs[k].leaseUntil <= now
  }

  function Begin(s: State, e: Event): Option<Op> {
    match e
    case Load(id) => if id in s.jobs then Some(Loaded(id, s.jobs[id])) else None
    case BeginClaim(id, seen, owner, ttl) =>
      if Loaded(id, seen) !in s.ops then None
      else (match seen.Claim(owner, ttl, s.now) case Ok(row) => Some(Claiming(id, seen, row)) case Err(_) => None)
    case BeginWrite(id, seen) =>
      if Holding(id, seen) !in s.ops then None
      else (
        match seen.BeginWrite(seen.leaseOwner, seen.leaseToken, s.now)
        case Ok(row) => Some(Beginning(id, seen, row))
        case Err(_) => None
      )
    case Check(id, seen, rest, at) =>
      if at <= s.now && Holding(id, seen) in s.ops && seen.state == Writing && Ready(s.jobs, seen.program, at, rest)
      then Some(Checked(id, seen)) else None
    case BeginFail(id, seen, backoff) =>
      if Holding(id, seen) !in s.ops then None
      else (
        match seen.Fail(seen.leaseOwner, seen.leaseToken, backoff, s.now)
        case Ok(row) => Some(Failing(id, seen, row))
        case Err(_) => None
      )
    case BeginSucceed(id, seen) =>
      if Checked(id, seen) !in s.ops then None
      else (
        match seen.Succeed(seen.leaseOwner, seen.leaseToken, s.now)
        case Ok(row) => Some(Succeeding(id, seen, row))
        case Err(_) => None
      )
    case _ => None
  }

  /** One UPDATE; only the last one is inside a transaction with more checks. */
  function Write(s: State, op: Op, rest: bool, at: Instant): Option<State> {
    match op
    case Claiming(id, seen, row) => Written(s, op, s.history + [Took(id, seen.Held())])
    case Beginning(id, seen, row) => Written(s, op, s.history)
    case Failing(id, seen, row) => Written(s, op, s.history + [Gave(id)])
    case Succeeding(id, seen, row) =>
      if !Ready(s.jobs, row.program, at, rest) || row.program in s.snapshots then None
      else (
        match Written(s, op, s.history)
        case Some(s') => Some(s'.(snapshots := s'.snapshots + {row.program}))
        case None => None
      )
    case _ => None
  }

  function Written(s: State, op: Op, history: seq<Mark>): Option<State>
    requires op.Claiming? || op.Beginning? || op.Failing? || op.Succeeding?
  {
    match Update(JobVersion, s.jobs, op.id, op.row, op.seen.version)
    case Ok(jobs) => Some(s.(jobs := jobs, history := history, ops := s.ops - {op} + {Holding(op.id, op.row)}))
    case Err(_) => None
  }

  function Next(s: State, e: Event): State {
    match e
    case Request(id, program, maxAttempts) =>
      if id in s.jobs || exists k :: k in s.jobs && s.jobs[k].program == program then s
      else (
        match NewJob(program, maxAttempts, s.now)
        case Ok(row) => s.(jobs := s.jobs[id := row])
        case Err(_) => s
      )
    case Commit(op, rest, at) =>
      if op !in s.ops then s
      else (match Write(s, op, rest, at) case Some(s') => s' case None => s.(ops := s.ops - {op}))
    case Crash(op) => s.(ops := s.ops - {op})
    case Tick(to) => if s.now <= to then s.(now := to) else s
    case _ => (match Begin(s, e) case Some(op) => s.(ops := s.ops + {op}) case None => s)
  }

  function Run(s: State, events: seq<Event>): State
    decreases |events|
  {
    if events == [] then s else Run(Next(s, events[0]), events[1..])
  }

  predicate Initial(s: State) {
    s.jobs == map[] && s.snapshots == {} && s.ops == {} && s.history == []
  }

  // ---------- The invariant

  function Count(history: seq<Mark>, m: Mark): nat {
    if history == [] then 0
    else Count(history[..|history| - 1], m) + if history[|history| - 1] == m then 1 else 0
  }

  function Claims(history: seq<Mark>, id: Id): nat { Count(history, Took(id, true)) + Count(history, Took(id, false)) }

  function Takeovers(history: seq<Mark>, id: Id): nat { Count(history, Took(id, true)) }

  function Failures(history: seq<Mark>, id: Id): nat { Count(history, Gave(id)) }

  /** The books balance: every attempt ended in a failure, was taken over, or is still held. */
  ghost predicate RowOk(j: JobRow, history: seq<Mark>, id: Id) {
    var failures := Failures(history, id);
    && j.maxAttempts >= 1
    && j.attempt == j.leaseToken == Claims(history, id)
    && j.attempt == Takeovers(history, id) + failures + (if j.Held() then 1 else 0)
    && (if j.state == PermanentFailed then failures <= j.maxAttempts <= j.attempt else failures < j.maxAttempts)
    && (j.state == Queued ==> j.attempt == 0)
    && (j.state == RetryWait ==> j.attempt < j.maxAttempts)
    && (j.Held() ==> j.nextTryAt <= j.leaseUntil)
    && j.state != Complete
  }

  ghost predicate JobsOk(jobs: map<Id, JobRow>, history: seq<Mark>) {
    && (forall id | id in jobs :: RowOk(jobs[id], history, id))
    && (forall i | 0 <= i < |history| :: history[i].id in jobs)
  }

  ghost predicate Seen(jobs: map<Id, JobRow>, id: Id, seen: JobRow) { Snapshot(JobVersion, jobs, id, seen) }

  /** The store moved on, or the lease of the copy has run out. */
  ghost predicate Lost(jobs: map<Id, JobRow>, now: Instant, id: Id, seen: JobRow) {
    id in jobs && (jobs[id].version > seen.version || seen.leaseUntil <= now)
  }

  ghost predicate OpOk(s: State, op: Op) {
    && Seen(s.jobs, op.id, op.seen)
    && match op
       case Loaded(_, _) => true
       case Holding(_, _) => true
       case Claiming(_, seen, row) => exists owner, ttl, at :: seen.Claim(owner, ttl, at) == Ok(row)
       case Beginning(_, seen, row) => exists owner, token, at :: seen.BeginWrite(owner, token, at) == Ok(row)
       case Failing(_, seen, row) => exists owner, token, backoff, at :: seen.Fail(owner, token, backoff, at) == Ok(row)
       case Checked(id, seen) => seen.state == Writing && Lost(s.jobs, s.now, id, seen)
       case Succeeding(id, seen, _) => s.jobs[id].version > seen.version
  }

  ghost predicate Inv(s: State) {
    && JobsOk(s.jobs, s.history)
    && s.snapshots == {}
    && (forall op | op in s.ops :: OpOk(s, op))
  }

  lemma OpStaysOk(s: State, s': State, op: Op)
    requires OpOk(s, op) && Advances(JobVersion, s.jobs, s'.jobs) && s.now <= s'.now
    ensures OpOk(s', op)
  {
  }

  lemma {:induction false} CountOfOthers(history: seq<Mark>, m: Mark)
    requires forall i | 0 <= i < |history| :: history[i] != m
    ensures Count(history, m) == 0
  {
    if history != [] {
      CountOfOthers(history[..|history| - 1], m);
    }
  }

  /** One row is rewritten and at most one mark about it is added. */
  lemma RowWritten(jobs: map<Id, JobRow>, history: seq<Mark>, id: Id, row: JobRow, after: seq<Mark>)
    requires JobsOk(jobs, history) && id in jobs && RowOk(row, after, id)
    requires after == history || (exists m: Mark :: m.id == id && after == history + [m])
    ensures JobsOk(jobs[id := row], after)
  {
    if after != history {
      var m :| after == history + [m] && m.id == id;
      assert after[..|after| - 1] == history;
    }
  }

  lemma RequestKeeps(s: State, id: Id, program: Id, maxAttempts: int)
    requires JobsOk(s.jobs, s.history) && id !in s.jobs && NewJob(program, maxAttempts, s.now).Ok?
    ensures JobsOk(s.jobs[id := NewJob(program, maxAttempts, s.now).value], s.history)
  {
    CountOfOthers(s.history, Took(id, true));
    CountOfOthers(s.history, Took(id, false));
    CountOfOthers(s.history, Gave(id));
  }

  lemma ClaimedRowOk(j: JobRow, owner: Id, ttl: int, at: Instant, history: seq<Mark>, id: Id)
    requires RowOk(j, history, id) && j.Claim(owner, ttl, at).Ok?
    ensures RowOk(j.Claim(owner, ttl, at).value, history + [Took(id, j.Held())], id)
  {
    assert (history + [Took(id, j.Held())])[..|history|] == history;
  }

  lemma FailedRowOk(j: JobRow, owner: Id, token: int, backoff: int, at: Instant, history: seq<Mark>, id: Id)
    requires RowOk(j, history, id) && j.Fail(owner, token, backoff, at).Ok?
    ensures RowOk(j.Fail(owner, token, backoff, at).value, history + [Gave(id)], id)
  {
    assert (history + [Gave(id)])[..|history|] == history;
  }

  lemma WrittenRowOk(s: State, op: Op, rest: bool, at: Instant)
    requires Inv(s) && op in s.ops && Write(s, op, rest, at).Some?
    ensures !op.Succeeding? && op.id in s.jobs && s.jobs[op.id] == op.seen
    ensures (op.Claiming? || op.Beginning? || op.Failing?) && op.row.version > op.seen.version
    ensures RowOk(op.row, Write(s, op, rest, at).value.history, op.id)
  {
    assert OpOk(s, op);
    assert s.jobs[op.id] == op.seen;
    assert RowOk(op.seen, s.history, op.id);
    match op
    case Claiming(id, seen, row) =>
      var owner, ttl, at :| seen.Claim(owner, ttl, at) == Ok(row);
      ClaimedRowOk(seen, owner, ttl, at, s.history, id);
    case Failing(id, seen, row) =>
      var owner, token, backoff, at :| seen.Fail(owner, token, backoff, at) == Ok(row);
      FailedRowOk(seen, owner, token, backoff, at, s.history, id);
    case _ =>
  }

  /** What a committed write does to the row, the store and the history. */
  lemma WriteKeeps(s: State, op: Op, rest: bool, at: Instant)
    requires Inv(s) && op in s.ops && Write(s, op, rest, at).Some?
    ensures !op.Succeeding? && op.id in s.jobs && s.jobs[op.id] == op.seen
    ensures op.Claiming? || op.Beginning? || op.Failing?
    ensures var s' := Write(s, op, rest, at).value;
      && s'.jobs == s.jobs[op.id := op.row] && s'.ops == s.ops - {op} + {Holding(op.id, op.row)}
      && JobsOk(s'.jobs, s'.history) && s'.snapshots == {} && s'.now == s.now
      && Advances(JobVersion, s.jobs, s'.jobs)
  {
    WrittenRowOk(s, op, rest, at);
    RowWritten(s.jobs, s.history, op.id, op.row, Write(s, op, rest, at).value.history);
  }

  lemma BeginOk(s: State, e: Event)
    requires Inv(s) && Begin(s, e).Some?
    ensures OpOk(s, Begin(s, e).value)
  {
    match e
    case BeginClaim(id, seen, owner, ttl) =>
      assert OpOk(s, Loaded(id, seen));
      assert seen.Claim(owner, ttl, s.now) == Ok(Begin(s, e).value.row);
    case BeginWrite(id, seen) =>
      assert OpOk(s, Holding(id, seen));
      assert seen.BeginWrite(seen.leaseOwner, seen.leaseToken, s.now) == Ok(Begin(s, e).value.row);
    case BeginFail(id, seen, backoff) =>
      assert OpOk(s, Holding(id, seen));
      assert seen.Fail(seen.leaseOwner, seen.leaseToken, backoff, s.now) == Ok(Begin(s, e).value.row);
    case Check(id, seen, rest, at) =>
      assert OpOk(s, Holding(id, seen));
    case BeginSucceed(id, seen) =>
      assert OpOk(s, Checked(id, seen));
    case _ =>
  }

  lemma OpsStayOk(s: State, s': State)
    requires Advances(JobVersion, s.jobs, s'.jobs) && s.now <= s'.now
    requires forall op | op in s.ops :: OpOk(s, op)
    ensures forall op | op in s.ops :: OpOk(s', op)
  {
    forall op | op in s.ops
      ensures OpOk(s', op)
    {
      OpStaysOk(s, s', op);
    }
  }

  lemma CommitStepKeeps(s: State, op: Op, rest: bool, at: Instant)
    requires Inv(s) && op in s.ops
    ensures Inv(Next(s, Commit(op, rest, at))) && Advances(JobVersion, s.jobs, Next(s, Commit(op, rest, at)).jobs)
    ensures Next(s, Commit(op, rest, at)).now == s.now
  {
    var s' := Next(s, Commit(op, rest, at));
    if Write(s, op, rest, at).Some? {
      WriteKeeps(s, op, rest, at);
      OpsAfterWrite(s, s', op);
    } else {
      OpsStayOk(s, s');
    }
  }

  lemma OpsAfterWrite(s: State, s': State, op: Op)
    requires Advances(JobVersion, s.jobs, s'.jobs) && s.now <= s'.now
    requires forall other | other in s.ops :: OpOk(s, other)
    requires op.Claiming? || op.Beginning? || op.Failing?
    requires s'.ops == s.ops - {op} + {Holding(op.id, op.row)} && op.id in s'.jobs && s'.jobs[op.id] == op.row
    ensures forall other | other in s'.ops :: OpOk(s', other)
  {
    OpsStayOk(s, s');
    assert OpOk(s', Holding(op.id, op.row));
  }

  lemma BeginStepKeeps(s: State, e: Event)
    requires Inv(s) && Begin(s, e).Some?
    ensures Inv(s.(ops := s.ops + {Begin(s, e).value}))
  {
    var s' := s.(ops := s.ops + {Begin(s, e).value});
    BeginOk(s, e);
    OpStaysOk(s, s', Begin(s, e).value);
    OpsStayOk(s, s');
  }

  lemma StepKeeps(s: State, e: Event)
    requires Inv(s)
    ensures Inv(Next(s, e)) && Advances(JobVersion, s.jobs, Next(s, e).jobs) && s.now <= Next(s, e).now
  {
    match e
    case Request(id, program, maxAttempts) =>
      if Next(s, e) != s { RequestKeeps(s, id, program, maxAttempts); }
      OpsStayOk(s, Next(s, e));
    case Commit(op, rest, at) => if op in s.ops { CommitStepKeeps(s, op, rest, at); }
    case Crash(_) => OpsStayOk(s, Next(s, e));
    case Tick(_) => OpsStayOk(s, Next(s, e));
    case _ => if Begin(s, e).Some? { BeginStepKeeps(s, e); }
  }

  lemma {:induction false} RunKeeps(s: State, events: seq<Event>)
    requires Inv(s)
    ensures Inv(Run(s, events)) && Advances(JobVersion, s.jobs, Run(s, events).jobs)
    decreases |events|
  {
    if events != [] {
      var s1 := Next(s, events[0]);
      StepKeeps(s, events[0]);
      RunKeeps(s1, events[1..]);
      AdvancesTransitive(JobVersion, s.jobs, s1.jobs, Run(s, events).jobs);
    }
  }

  // ---------- Main results

  /** Through any crashes, takeovers and stale workers: token and attempt count the committed claims,
      which are the takeovers, the committed failures and the claim still held; failures stay within
      the bound; and a waiting job has attempts left. */
  lemma AttemptsBalance(s: State, events: seq<Event>, id: Id)
    requires Initial(s) && id in Run(s, events).jobs
    ensures var j, h := Run(s, events).jobs[id], Run(s, events).history;
      && j.attempt == j.leaseToken == Claims(h, id)
      && j.attempt == Takeovers(h, id) + Failures(h, id) + (if j.Held() then 1 else 0)
      && Failures(h, id) <= j.maxAttempts
      && (j.state == RetryWait ==> j.attempt < j.maxAttempts)
      && (j.state == PermanentFailed ==> j.attempt >= j.maxAttempts)
  {
    Reached(s, events);
    assert RowOk(Run(s, events).jobs[id], Run(s, events).history, id);
  }

  /** Without takeovers the bound on attempts holds. */
  lemma WithoutTakeoversAttemptsAreBounded(s: State, events: seq<Event>, id: Id)
    requires Initial(s) && id in Run(s, events).jobs && Takeovers(Run(s, events).history, id) == 0
    ensures Claims(Run(s, events).history, id) <= Run(s, events).jobs[id].maxAttempts
  {
    Reached(s, events);
    assert RowOk(Run(s, events).jobs[id], Run(s, events).history, id);
  }

  lemma OverrunByClaim(s: State, op: Op)
    requires OpOk(s, op) && (op.Claiming? || op.Beginning? || op.Failing?) && op.seen.attempt <= op.seen.maxAttempts
    requires op.seen.state == Queued ==> op.seen.attempt < op.seen.maxAttempts
    requires op.seen.state == RetryWait ==> op.seen.attempt < op.seen.maxAttempts
    ensures op.row.attempt > op.row.maxAttempts <==> op.Claiming? && op.seen.attempt == op.seen.maxAttempts
    ensures op.row.attempt > op.row.maxAttempts ==> op.seen.Held()
  {
  }

  /** In general it does not: a commit pushes the attempts past the bound exactly when it is a claim
      of a job at the bound, and such a claim takes the job over from a holder whose lease ran out. */
  lemma OverrunIsATakeover(s: State, events: seq<Event>, op: Op, rest: bool, at: Instant)
    requires Initial(s) && op in Run(s, events).ops && Write(Run(s, events), op, rest, at).Some?
    requires op.seen.attempt <= op.seen.maxAttempts
    ensures op.id in Run(s, events).jobs
    ensures var s1 := Run(s, events);
      var j, j' := s1.jobs[op.id], Next(s1, Commit(op, rest, at)).jobs[op.id];
      && (j'.attempt > j'.maxAttempts <==> op.Claiming? && j.attempt == j.maxAttempts)
      && (j'.attempt > j'.maxAttempts ==> j.Held())
  {
    Reached(s, events);
    var s1 := Run(s, events);
    WriteKeeps(s1, op, rest, at);
    assert RowOk(op.seen, s1.history, op.id);
    OverrunByClaim(s1, op);
  }

  lemma {:induction false} RunSnoc(s: State, events: seq<Event>, e: Event)
    ensures Run(s, events + [e]) == Next(Run(s, events), e)
    decreases |events|
  {
    if events != [] {
      assert (events + [e])[1..] == events[1..] + [e];
      RunSnoc(Next(s, events[0]), events[1..], e);
    }
  }

  /** A run that passes the bound: one attempt is allowed, the first worker's lease runs out, and a
      second worker claims the job. */
  lemma AttemptsOverrun() returns (s: State, events: seq<Event>, id: Id)
    ensures Initial(s) && id in Run(s, events).jobs
    ensures Run(s, events).jobs[id].attempt > Run(s, events).jobs[id].maxAttempts
  {
    id, s, events := 1, State(10, map[], {}, {}, []), [Request(1, 7, 1)];
    var queued := JobRow(7, Queued, NO_ID, 0, ZERO_TIME, 0, 1, 10, 1);
    var first := queued.(state := Leased, leaseOwner := 3, leaseToken := 1, leaseUntil := 15, attempt := 1, version := 2);
    var second := first.(leaseOwner := 4, leaseToken := 2, leaseUntil := 20, attempt := 2, version := 3);
    RunSnoc(s, [], Request(1, 7, 1));
    assert Run(s, events).jobs[1] == queued && Run(s, events).now == 10;
    events := ClaimedBy(s, events, 1, queued, 3, 5, first);
    RunSnoc(s, events, Tick(15));
    events := events + [Tick(15)];
    events := ClaimedBy(s, events, 1, first, 4, 5, second);
  }

  /** The live part of the path: a run in which a job is being written under an unexpired lease. */
  lemma AJobIsWritten() returns (s: State, events: seq<Event>, id: Id)
    ensures Initial(s) && id in Run(s, events).jobs
    ensures var j := Run(s, events).jobs[id]; j.state == Writing && Run(s, events).now < j.leaseUntil
  {
    id, s := 1, State(10, map[], {}, {}, []);
    var queued := JobRow(7, Queued, NO_ID, 0, ZERO_TIME, 0, 1, 10, 1);
    var first := queued.(state := Leased, leaseOwner := 3, leaseToken := 1, leaseUntil := 15, attempt := 1, version := 2);
    var writing := first.(state := Writing, version := 3);
    var commit := Commit(Beginning(1, first, writing), true, 10);
    RunSnoc(s, [], Request(1, 7, 1));
    assert Run(s, [Request(1, 7, 1)]).jobs[1] == queued && Run(s, [Request(1, 7, 1)]).now == 10;
    var claimed := ClaimedBy(s, [Request(1, 7, 1)], 1, queued, 3, 5, first);
    RunSnoc(s, claimed, BeginWrite(1, first));
    RunSnoc(s, claimed + [BeginWrite(1, first)], commit);
    events := claimed + [BeginWrite(1, first)] + [commit];
  }

  /** A worker loads, claims and commits with nobody in between. */
  lemma ClaimedBy(s: State, before: seq<Event>, id: Id, seen: JobRow, owner: Id, ttl: int, row: JobRow)
    returns (events: seq<Event>)
    requires id in Run(s, before).jobs && Run(s, before).jobs[id] == seen
    requires seen.Claim(owner, ttl, Run(s, before).now) == Ok(row)
    ensures id in Run(s, events).jobs && Run(s, events).jobs[id] == row && Run(s, events).now == Run(s, before).now
    ensures Holding(id, row) in Run(s, events).ops
  {
    var claiming := Commit(Claiming(id, seen, row), true, 0);
    RunSnoc(s, before, Load(id));
    RunSnoc(s, before + [Load(id)], BeginClaim(id, seen, owner, ttl));
    RunSnoc(s, before + [Load(id)] + [BeginClaim(id, seen, owner, ttl)], claiming);
    events := before + [Load(id)] + [BeginClaim(id, seen, owner, ttl)] + [claiming];
  }

  /** And nothing prevents it: any held job whose lease has run out can be claimed by anybody, whatever
      its attempts. So an expired lease is always recovered. */
  lemma ExpiredJobIsClaimable(s: State, events: seq<Event>, id: Id, owner: Id, ttl: int)
    requires Initial(s) && id in Run(s, events).jobs && owner != NO_ID && ttl > 0
    requires Run(s, events).jobs[id].Held() && Run(s, events).jobs[id].leaseUntil <= Run(s, events).now
    ensures var s1 := Run(s, events);
      var j := s1.jobs[id];
      && j.Claim(owner, ttl, s1.now).Ok?
      && var claim := Claiming(id, j, j.Claim(owner, ttl, s1.now).value);
         var s4 := Next(Next(Next(s1, Load(id)), BeginClaim(id, j, owner, ttl)), Commit(claim, true, s1.now));
         id in s4.jobs && s4.jobs[id].leaseOwner == owner && s4.jobs[id].attempt == j.attempt + 1
  {
    Reached(s, events);
    assert RowOk(Run(s, events).jobs[id], Run(s, events).history, id);
  }

  // ---------- Finished jobs, whether or not they can come about

  /** The row to be written is what the state machine makes of the row seen. */
  ghost predicate Derived(op: Op) {
    match op
    case Claiming(_, seen, row) => exists owner, ttl, at :: seen.Claim(owner, ttl, at) == Ok(row)
    case Beginning(_, seen, row) => exists owner, token, at :: seen.BeginWrite(owner, token, at) == Ok(row)
    case Failing(_, seen, row) => exists owner, token, backoff, at :: seen.Fail(owner, token, backoff, at) == Ok(row)
    case Succeeding(_, seen, row) => exists owner, token, at :: seen.Succeed(owner, token, at) == Ok(row)
    case _ => true
  }

  /** Workers hold old rows and write what follows from them. Nothing is said about the jobs, so this
      holds of any table with no operations in flight. */
  ghost predicate Orderly(s: State) {
    forall op | op in s.ops :: Seen(s.jobs, op.id, op.seen) && Derived(op)
  }

  lemma OrderlyWrite(s: State, op: Op, rest: bool, at: Instant)
    requires Orderly(s) && op in s.ops && Write(s, op, rest, at).Some?
    ensures op.Claiming? || op.Beginning? || op.Failing? || op.Succeeding?
    ensures op.id in s.jobs && s.jobs[op.id] == op.seen && op.row.version == op.seen.version + 1
    ensures op.seen.state !in {Complete, PermanentFailed}
    ensures var s' := Write(s, op, rest, at).value;
      && s'.jobs == s.jobs[op.id := op.row] && s'.ops == s.ops - {op} + {Holding(op.id, op.row)} && s'.now == s.now
  {
    assert Seen(s.jobs, op.id, op.seen) && Derived(op);
  }

  lemma StillSeen(s: State, s': State)
    requires Orderly(s) && Advances(JobVersion, s.jobs, s'.jobs)
    ensures forall op | op in s.ops :: Seen(s'.jobs, op.id, op.seen) && Derived(op)
  {
    forall op | op in s.ops
      ensures Seen(s'.jobs, op.id, op.seen) && Derived(op)
    {
      assert Seen(s.jobs, op.id, op.seen);
    }
  }

  lemma OrderlyBegin(s: State, e: Event)
    requires Orderly(s) && Begin(s, e).Some?
    ensures Seen(s.jobs, Begin(s, e).value.id, Begin(s, e).value.seen) && Derived(Begin(s, e).value)
  {
    match e
    case BeginClaim(id, seen, owner, ttl) => assert seen.Claim(owner, ttl, s.now) == Ok(Begin(s, e).value.row);
    case BeginWrite(id, seen) =>
      assert seen.BeginWrite(seen.leaseOwner, seen.leaseToken, s.now) == Ok(Begin(s, e).value.row);
    case BeginFail(id, seen, backoff) =>
      assert seen.Fail(seen.leaseOwner, seen.leaseToken, backoff, s.now) == Ok(Begin(s, e).value.row);
    case BeginSucceed(id, seen) =>
      assert seen.Succeed(seen.leaseOwner, seen.leaseToken, s.now) == Ok(Begin(s, e).value.row);
    case _ =>
  }

  lemma OrderlyCommit(s: State, e: Event)
    requires Orderly(s) && e.Commit?
    ensures Orderly(Next(s, e)) && Advances(JobVersion, s.jobs, Next(s, e).jobs)
    ensures forall id | id in s.jobs && s.jobs[id].state in {Complete, PermanentFailed} :: Next(s, e).jobs[id] == s.jobs[id]
  {
    if e.op in s.ops && Write(s, e.op, e.rest, e.at).Some? {
      OrderlyWrite(s, e.op, e.rest, e.at);
    }
    StillSeen(s, Next(s, e));
  }

  lemma OrderlyStep(s: State, e: Event)
    requires Orderly(s)
    ensures Orderly(Next(s, e)) && Advances(JobVersion, s.jobs, Next(s, e).jobs)
    ensures forall id | id in s.jobs && s.jobs[id].state in {Complete, PermanentFailed} :: Next(s, e).jobs[id] == s.jobs[id]
  {
    if e.Commit? {
      OrderlyCommit(s, e);
    } else {
      StillSeen(s, Next(s, e));
      if Begin(s, e).Some? { OrderlyBegin(s, e); }
    }
  }

  /** Complete and permanently failed jobs never change, in any run from any table of jobs. No run from
      the empty store completes a job, but a job that was complete would stay so. */
  lemma {:induction false} FinishedIsAbsorbing(s: State, events: seq<Event>, id: Id)
    requires Orderly(s) && id in s.jobs && s.jobs[id].state in {Complete, PermanentFailed}
    ensures id in Run(s, events).jobs && Run(s, events).jobs[id] == s.jobs[id]
    decreases |events|
  {
    if events != [] {
      OrderlyStep(s, events[0]);
      FinishedIsAbsorbing(Next(s, events[0]), events[1..], id);
    }
  }

  lemma {:induction false} RunsAreOrderly(s: State, events: seq<Event>)
    requires Orderly(s)
    ensures Orderly(Run(s, events))
    decreases |events|
  {
    if events != [] {
      OrderlyStep(s, events[0]);
      RunsAreOrderly(Next(s, events[0]), events[1..]);
    }
  }

  /** Whatever a worker has seen, and however late it commits, the row it overwrites is the one it saw. */
  lemma CommitOverwritesOnlySeenRows(s: State, events: seq<Event>, op: Op, rest: bool, at: Instant)
    requires Initial(s) && op in Run(s, events).ops && Write(Run(s, events), op, rest, at).Some?
    ensures op.id in Run(s, events).jobs && Run(s, events).jobs[op.id] == op.seen
  {
    Reached(s, events);
    WriteKeeps(Run(s, events), op, rest, at);
  }

  /** README.md:41 promises that a finished program can be archived. No run ever does: the readiness
      check counts the worker's own unexpired lease, and success needs that lease. No snapshot is
      stored and no job completes. */
  lemma NothingIsEverArchived(s: State, events: seq<Event>)
    requires Initial(s)
    ensures Run(s, events).snapshots == {}
    ensures forall id | id in Run(s, events).jobs :: Run(s, events).jobs[id].state != Complete
  {
    Reached(s, events);
    var s1 := Run(s, events);
    forall id | id in s1.jobs
      ensures s1.jobs[id].state != Complete
    {
      assert RowOk(s1.jobs[id], s1.history, id);
    }
  }

  /** Every state of a run from the empty store satisfies the invariant. */
  lemma Reached(s: State, events: seq<Event>)
    requires Initial(s)
    ensures Inv(Run(s, events))
  {
    RunKeeps(s, events);
  }
}
