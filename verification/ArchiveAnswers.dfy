/** What the archive worker does to its job, told by the rows before and after and the clock readings: each
    step of the protocol, and each way that Process ends. */
module ArchiveAnswers {
  import opened Prelude
  import opened Versions
  import opened Archive
  import opened ArchiveStore
  import E = Enrolment

  // ---------- Steps of the protocol

  predicate IsHeld(j: JobRow) { j.state == Leased || j.state == Writing }

  /** A job can be claimed at a reading that has reached its time and the end of any lease. */
  predicate ClaimableAt(j: JobRow, now: Instant) {
    && (j.state in {Queued, RetryWait} || (IsHeld(j) && j.leaseUntil <= now)) && j.nextTryAt <= now
  }

  function ClaimedJob(j: JobRow, owner: Id, until: Instant): JobRow {
    JobRow(j.program, Leased, owner, j.leaseToken + 1, until, j.attempt + 1, j.maxAttempts, j.nextTryAt, j.version + 1)
  }

  function WritingJob(j: JobRow): JobRow {
    JobRow(j.program, Writing, j.leaseOwner, j.leaseToken, j.leaseUntil, j.attempt, j.maxAttempts, j.nextTryAt, j.version + 1)
  }

  /** A job given up: nobody holds it, and either its attempts are used up for good or it waits. */
  function GivenUpJob(j: JobRow, next: Instant): JobRow {
    if j.attempt >= j.maxAttempts
    then JobRow(j.program, PermanentFailed, NO_ID, j.leaseToken, ZERO_TIME, j.attempt, j.maxAttempts, j.nextTryAt, j.version + 1)
    else JobRow(j.program, RetryWait, NO_ID, j.leaseToken, ZERO_TIME, j.attempt, j.maxAttempts, next, j.version + 1)
  }

  /** A requested job is queued and due at once. */
  lemma RequestWrites(s: State, id: Id, program: Id, maxAttempts: int)
    ensures Next(s, Request(id, program, maxAttempts)).jobs
         == if id in s.jobs || program == NO_ID || maxAttempts < 1 || exists k :: k in s.jobs && s.jobs[k].program == program
            then s.jobs
            else s.jobs[id := JobRow(program, Queued, NO_ID, 0, ZERO_TIME, 0, maxAttempts, s.now, 1)]
  {
  }

  /** What a worker computes from the row in its hands, and when. */
  lemma WorkerStepsExactly(s: State, e: Event)
    ensures e.BeginClaim? && Loaded(e.id, e.seen) in s.ops ==>
      Begin(s, e) == if e.owner != NO_ID && e.ttl > 0 && ClaimableAt(e.seen, s.now)
                     then Some(Claiming(e.id, e.seen, ClaimedJob(e.seen, e.owner, s.now + e.ttl))) else None
    ensures e.BeginWrite? && Holding(e.id, e.seen) in s.ops ==>
      Begin(s, e) == if e.seen.state == Leased && s.now < e.seen.leaseUntil
                     then Some(Beginning(e.id, e.seen, WritingJob(e.seen))) else None
    ensures e.BeginFail? && Holding(e.id, e.seen) in s.ops ==>
      Begin(s, e) == if IsHeld(e.seen)
                     then Some(Failing(e.id, e.seen, GivenUpJob(e.seen, s.now + e.backoff))) else None
    ensures e.Check? && Holding(e.id, e.seen) in s.ops ==>
      Begin(s, e) == if e.at <= s.now && e.seen.state == Writing && e.rest
                        && forall k | k in s.jobs && s.jobs[k].program == e.seen.program && IsHeld(s.jobs[k]) ::
                             s.jobs[k].leaseUntil <= e.at
                     then Some(Checked(e.id, e.seen)) else None
    ensures e.BeginSucceed? && Checked(e.id, e.seen) in s.ops ==>
      Begin(s, e) == if e.seen.state == Writing && s.now < e.seen.leaseUntil
                     then Some(Succeeding(e.id, e.seen, JobRow(
                       e.seen.program, Complete, NO_ID, e.seen.leaseToken, ZERO_TIME, e.seen.attempt, e.seen.maxAttempts,
                       e.seen.nextTryAt, e.seen.version + 1))) else None
  {
  }

  /** And what it computed is what a commit writes, to that row alone. */
  lemma WorkerWritesItsRow(s: State, events: seq<Event>, op: Op, rest: bool, at: Instant)
    requires Initial(s) && op in Run(s, events).ops && Write(Run(s, events), op, rest, at).Some?
    ensures op.Claiming? || op.Beginning? || op.Failing?
    ensures Next(Run(s, events), Commit(op, rest, at)).jobs == Run(s, events).jobs[op.id := op.row]
  {
    Reached(s, events);
    WriteKeeps(Run(s, events), op, rest, at);
  }

  /** A lease on a job cannot be taken before its end and can be from then on; a job that waits cannot be
      claimed before its time and can be from then on; a finished job cannot be claimed at all. */
  lemma JobClaimableExactlyWhen(s: State, events: seq<Event>, id: Id, owner: Id, ttl: int, at: Instant)
    requires Initial(s) && id in Run(s, events).jobs && owner != NO_ID && ttl > 0
    ensures var j := Run(s, events).jobs[id];
      j.Claim(owner, ttl, at).Ok? <==>
        || (IsHeld(j) && at >= j.leaseUntil)
        || (j.state in {Queued, RetryWait} && at >= j.nextTryAt)
  {
    Reached(s, events);
    assert RowOk(Run(s, events).jobs[id], Run(s, events).history, id);
  }

  // ---------- How Process ends

  /** Nobody else touches this job. */
  ghost predicate LeavesAlone(w: World, id: Id) {
    forall i: nat, t: Tables | id in t.jobs :: id in w.others(i, t).jobs && w.others(i, t).jobs[id] == t.jobs[id]
  }

  ghost predicate Forward(w: World) {
    forall i: nat, j: nat | i <= j :: w.clock(i) <= w.clock(j)
  }

  /** From row `j` to row `j'` one attempt was made and given up at reading `at`: nobody holds the job; it
      has failed for good exactly when its attempts are used up; and otherwise it cannot be claimed
      before that reading plus the backoff, and can be from then on. */
  ghost predicate GaveUp(w: World, j: JobRow, j': JobRow, at: Instant) {
    && j'.program == j.program && j'.maxAttempts == j.maxAttempts
    && j'.attempt == j.attempt + 1 && j'.leaseToken == j.leaseToken + 1
    && j'.leaseOwner == NO_ID && j'.leaseUntil == ZERO_TIME && !IsHeld(j')
    && (j'.state == PermanentFailed <==> j.attempt + 1 >= j.maxAttempts)
    && (j.attempt + 1 < j.maxAttempts ==>
          && j'.state == RetryWait
          && forall owner: Id, ttl: int, now: Instant | owner != NO_ID && ttl > 0 ::
               j'.Claim(owner, ttl, now).Ok? <==> now >= at + w.backoff(j.attempt + 1))
  }

  lemma GivenUpGaveUp(w: World, j: JobRow, copy: JobRow, at: Instant)
    requires copy.program == j.program && copy.maxAttempts == j.maxAttempts
    requires copy.attempt == j.attempt + 1 && copy.leaseToken == j.leaseToken + 1
    ensures GaveUp(w, j, GivenUpJob(copy, at + w.backoff(copy.attempt)), at)
  {
  }

  /** Failing the copy that is stored gives the job up, reports the cause, and changes nothing else. */
  lemma FailGivesUp(w: World, t: Tables, id: Id, copy: JobRow, owner: Id, now: Instant, cause: Fault)
    requires id in t.jobs && t.jobs[id] == copy && IsHeld(copy) && owner == copy.leaseOwner
    ensures FailOutcome(w, t, id, copy, owner, now, cause)
         == Outcome(t.(jobs := t.jobs[id := GivenUpJob(copy, now + w.backoff(copy.attempt))]), Some(cause))
  {
  }

  /** The job is left under the worker's own lease, which has run out. */
  ghost predicate LeftWriting(j: JobRow, j': JobRow, owner: Id, until: Instant) {
    j' == WritingJob(ClaimedJob(j, owner, until))
  }

  lemma CheckedGivesUp(w: World, t: Tables, id: Id, copy: JobRow, owner: Id, value: E.ProgramRow, ready: bool)
    requires id in t.jobs && t.jobs[id] == copy && copy.state == Writing && owner == copy.leaseOwner
    requires !ready || w.listing.Some? || copy.leaseUntil <= w.clock(3)
    ensures var o := CheckedOutcome(w, t, id, copy, owner, value, ready);
      if !ready || w.listing.Some? then
        && o.err == Some(if !ready then Precondition else w.listing.value)
        && o.after == t.(jobs := t.jobs[id := GivenUpJob(copy, w.clock(3) + w.backoff(copy.attempt))])
      else o == Outcome(t, Some(Conflict))
  {
    FailGivesUp(w, t, id, copy, owner, w.clock(3), Precondition);
    if w.listing.Some? { FailGivesUp(w, t, id, copy, owner, w.clock(3), w.listing.value); }
  }

  lemma WritingGivesUp(w: World, t: Tables, id: Id, copy: JobRow, owner: Id)
    requires id in t.jobs && t.jobs[id] == copy && copy.state == Writing && owner == copy.leaseOwner
    requires LeavesAlone(w, id) && Forward(w)
    ensures var o := WritingOutcome(w, t, id, copy, owner);
      && id in o.after.jobs
      && (|| (o.err == Some(NotFound) && o.after.jobs[id] == GivenUpJob(copy, w.clock(2) + w.backoff(copy.attempt)))
          || (o.err == Some(Precondition) && o.after.jobs[id] == GivenUpJob(copy, w.clock(3) + w.backoff(copy.attempt)))
          || (o.err == w.listing && w.listing.Some?
              && o.after.jobs[id] == GivenUpJob(copy, w.clock(3) + w.backoff(copy.attempt)))
          || (o.err == Some(Conflict) && o.after.jobs[id] == copy && copy.leaseUntil <= w.clock(3) && w.listing == None))
  {
    var read := w.others(2, t);
    var met := w.others(3, read);
    var last := w.others(4, met);
    assert read.jobs[id] == copy && met.jobs[id] == copy && last.jobs[id] == copy;
    if copy.program !in read.programs {
      FailGivesUp(w, met, id, copy, owner, w.clock(2), NotFound);
    } else {
      var ready := Ready(met.jobs, copy.program, w.clock(2), w.rest(0));
      assert ready ==> copy.leaseUntil <= w.clock(2);
      CheckedGivesUp(w, last, id, copy, owner, read.programs[copy.program], ready);
    }
  }

  /** The row of a claimable job, taken and written. */
  lemma ProcessReachesWriting(w: World, t: Tables, id: Id, owner: Id, ttl: int) returns (writing: Tables)
    requires id in t.jobs && ClaimableAt(t.jobs[id], w.clock(0)) && owner != NO_ID && ttl > 0
    requires LeavesAlone(w, id) && !w.cancelled && w.clock(1) < w.clock(0) + ttl
    ensures var copy := WritingJob(ClaimedJob(t.jobs[id], owner, w.clock(0) + ttl));
      && id in writing.jobs && writing.jobs[id] == copy
      && ProcessOutcome(w, t, id, owner, ttl) == WritingOutcome(w, writing, id, copy, owner)
  {
    var row := ClaimedJob(t.jobs[id], owner, w.clock(0) + ttl);
    assert t.jobs[id].Claim(owner, ttl, w.clock(0)) == Ok(row);
    var met := w.others(0, t);
    var leased := met.(jobs := met.jobs[id := row]);
    var next := w.others(1, leased);
    assert next.jobs[id] == row;
    writing := next.(jobs := next.jobs[id := WritingJob(row)]);
  }

  /** When nobody else touches the job, and the worker claims it and gets as far as writing before its
      lease runs out, the job is given up, with the fault saying why; unless the lease has run out by
      the last reading and the claims could be listed: then it is left to be taken over. */
  lemma ProcessGivesUp(w: World, t: Tables, id: Id, owner: Id, ttl: int)
    requires id in t.jobs && ClaimableAt(t.jobs[id], w.clock(0)) && owner != NO_ID && ttl > 0
    requires LeavesAlone(w, id) && Forward(w) && !w.cancelled && w.clock(1) < w.clock(0) + ttl
    ensures var o := ProcessOutcome(w, t, id, owner, ttl);
      && id in o.after.jobs
      && (|| (o.err == Some(NotFound) && GaveUp(w, t.jobs[id], o.after.jobs[id], w.clock(2)))
          || (o.err == Some(Precondition) && GaveUp(w, t.jobs[id], o.after.jobs[id], w.clock(3)))
          || (o.err == w.listing && w.listing.Some? && GaveUp(w, t.jobs[id], o.after.jobs[id], w.clock(3)))
          || (o.err == Some(Conflict) && LeftWriting(t.jobs[id], o.after.jobs[id], owner, w.clock(0) + ttl)
              && w.clock(0) + ttl <= w.clock(3) && w.listing == None))
  {
    var writing := ProcessReachesWriting(w, t, id, owner, ttl);
    var copy := WritingJob(ClaimedJob(t.jobs[id], owner, w.clock(0) + ttl));
    WritingGivesUp(w, writing, id, copy, owner);
    GivenUpGaveUp(w, t.jobs[id], copy, w.clock(2));
    GivenUpGaveUp(w, t.jobs[id], copy, w.clock(3));
  }

  /** The answer of a worker that nobody disturbs: its own lease makes the program look busy, so it gives
      the job up, and it changes nothing else. */
  lemma UndisturbedWorkerGivesUp(w: World, t: Tables, id: Id, owner: Id, ttl: int)
    requires id in t.jobs && ClaimableAt(t.jobs[id], w.clock(0)) && owner != NO_ID && ttl > 0
    requires (forall i: nat, x: Tables :: w.others(i, x) == x) && Forward(w) && !w.cancelled
    requires w.clock(2) < w.clock(0) + ttl && t.jobs[id].program in t.programs
    ensures var o := ProcessOutcome(w, t, id, owner, ttl);
      && o.err == Some(Precondition) && id in o.after.jobs
      && GaveUp(w, t.jobs[id], o.after.jobs[id], w.clock(3))
      && o.after == t.(jobs := t.jobs[id := o.after.jobs[id]])
  {
    var row := ClaimedJob(t.jobs[id], owner, w.clock(0) + ttl);
    var copy := WritingJob(row);
    assert t.jobs[id].Claim(owner, ttl, w.clock(0)) == Ok(row);
    var leased := t.(jobs := t.jobs[id := row]);
    var writing := leased.(jobs := leased.jobs[id := copy]);
    assert w.clock(1) <= w.clock(2);
    assert ProcessOutcome(w, t, id, owner, ttl) == WritingOutcome(w, writing, id, copy, owner);
    assert writing.jobs[id] == copy && !Ready(writing.jobs, copy.program, w.clock(2), w.rest(0));
    CheckedGivesUp(w, writing, id, copy, owner, writing.programs[copy.program], false);
    GivenUpGaveUp(w, t.jobs[id], copy, w.clock(3));
    assert writing.jobs[id := GivenUpJob(copy, w.clock(3) + w.backoff(copy.attempt))]
        == t.jobs[id := GivenUpJob(copy, w.clock(3) + w.backoff(copy.attempt))];
  }

  /** A worker that is cancelled after its claim gives the job up. */
  lemma CancelledWorkerGivesUp(w: World, t: Tables, id: Id, owner: Id, ttl: int)
    requires id in t.jobs && ClaimableAt(t.jobs[id], w.clock(0)) && owner != NO_ID && ttl > 0
    requires LeavesAlone(w, id) && w.cancelled
    ensures var o := ProcessOutcome(w, t, id, owner, ttl);
      && o.err == Some(Cancelled) && id in o.after.jobs && GaveUp(w, t.jobs[id], o.after.jobs[id], w.clock(1))
  {
    var row := ClaimedJob(t.jobs[id], owner, w.clock(0) + ttl);
    assert t.jobs[id].Claim(owner, ttl, w.clock(0)) == Ok(row);
    var met := w.others(0, t);
    var leased := met.(jobs := met.jobs[id := row]);
    var next := w.others(1, leased);
    assert next.jobs[id] == row;
    FailGivesUp(w, next, id, row, owner, w.clock(1), Cancelled);
    GivenUpGaveUp(w, t.jobs[id], row, w.clock(1));
  }

  /** A worker whose lease has run out before it begins to write leaves the job under that lease. */
  lemma LateWorkerLeavesItsLease(w: World, t: Tables, id: Id, owner: Id, ttl: int)
    requires id in t.jobs && ClaimableAt(t.jobs[id], w.clock(0)) && owner != NO_ID && ttl > 0
    requires LeavesAlone(w, id) && !w.cancelled && w.clock(0) + ttl <= w.clock(1)
    ensures var o := ProcessOutcome(w, t, id, owner, ttl);
      && o.err == Some(Conflict) && id in o.after.jobs
      && o.after.jobs[id] == ClaimedJob(t.jobs[id], owner, w.clock(0) + ttl)
  {
    var row := ClaimedJob(t.jobs[id], owner, w.clock(0) + ttl);
    assert t.jobs[id].Claim(owner, ttl, w.clock(0)) == Ok(row);
    var met := w.others(0, t);
    var leased := met.(jobs := met.jobs[id := row]);
    assert w.others(1, leased).jobs[id] == row;
  }

  /** A job that cannot be claimed is left as it is. */
  lemma UnclaimableJobIsLeft(w: World, t: Tables, id: Id, owner: Id, ttl: int)
    requires id !in t.jobs || !ClaimableAt(t.jobs[id], w.clock(0)) || owner == NO_ID || ttl <= 0
    ensures var o := ProcessOutcome(w, t, id, owner, ttl); o.after == t && o.err.Some?
  {
  }

  /** What a closing would do, if one could come about: the job is complete, the program archived and its
      snapshot stored, all three or none, and nothing else changes. */
  lemma ClosingWouldArchive(w: World, t: Tables, id: Id, copy: JobRow, owner: Id, value: E.ProgramRow, ready: bool)
    requires CheckedOutcome(w, t, id, copy, owner, value, ready).err == None
    ensures ready && copy.state == Writing && owner == copy.leaseOwner && w.clock(3) < copy.leaseUntil
    ensures value.state == E.ReviewPending
    ensures var met, o := w.others(5, t), CheckedOutcome(w, t, id, copy, owner, value, ready);
      && copy.program !in met.snapshots && o.after.snapshots == met.snapshots + {copy.program}
      && id in met.jobs && o.after.jobs == met.jobs[id := JobRow(
           copy.program, Complete, NO_ID, copy.leaseToken, ZERO_TIME, copy.attempt, copy.maxAttempts, copy.nextTryAt,
           copy.version + 1)]
      && copy.program in met.programs && o.after.programs == met.programs[copy.program := E.ProgramRow(
           value.coordinator, value.capacity, value.startsAt, value.endsAt, E.Archived, value.version + 1)]
  {
  }
}
