/** The archive worker as the code runs it: several separate commits, with everybody else in between.
    The functions say what each stage leaves and answers; the methods are proved to do exactly that,
    for all `others`; and the lemmas at the end say why the worker never succeeds. */
module ArchiveStore {
  import opened Prelude
  import opened Versions
  import opened Archive
  import E = Enrolment

  type Jobs = map<Id, JobRow>

  type Programs = map<Id, E.ProgramRow>

  function ProgramVersion(p: E.ProgramRow): int { p.version }

  datatype Tables = Tables(jobs: Jobs, programs: Programs, snapshots: set<Id>)

  /** What one run of Process meets: everybody else at each point between two statements, its clock
      readings, the part of each readiness answer that is not about archive leases, the backoff of an
      attempt, whether the context was cancelled after the claim, and the outcome of listing claims. */
  datatype World = World(
    others: (nat, Tables) -> Tables, clock: nat -> Instant, rest: nat -> bool, backoff: int -> int,
    cancelled: bool, listing: Option<Fault>)

  datatype Outcome = Outcome(after: Tables, err: Option<Fault>)

  // ---------- What each stage does

  /** failJob on the worker's own copy. */
  function FailOutcome(w: World, t: Tables, id: Id, copy: JobRow, owner: Id, now: Instant, cause: Fault): Outcome {
    match copy.Fail(owner, copy.leaseToken, w.backoff(copy.attempt), now)
    case Err(fault) => Outcome(t, Some(fault))
    case Ok(row) =>
      match Update(JobVersion, t.jobs, id, row, copy.version)
      case Ok(jobs) => Outcome(t.(jobs := jobs), Some(cause))
      case Err(fault) => Outcome(t, Some(fault))
  }

  /** The closing transaction: readiness, snapshot, job and program together, or nothing. */
  function CloseOutcome(t: Tables, id: Id, row: JobRow, expected: int, program: E.ProgramRow, programExpected: int,
                        now: Instant, rest: bool): Outcome
  {
    if !Ready(t.jobs, row.program, now, rest) || row.program in t.snapshots then Outcome(t, Some(Conflict))
    else
      match (Update(JobVersion, t.jobs, id, row, expected),
             Update(ProgramVersion, t.programs, row.program, program, programExpected))
      case (Ok(jobs), Ok(programs)) => Outcome(Tables(jobs, programs, t.snapshots + {row.program}), None)
      case _ => Outcome(t, Some(Conflict))
  }

  /** From a readiness answer on. `value` is the program as read. */
  function CheckedOutcome(w: World, t: Tables, id: Id, copy: JobRow, owner: Id, value: E.ProgramRow, ready: bool): Outcome {
    if !ready then FailOutcome(w, t, id, copy, owner, w.clock(3), Precondition)
    else if w.listing.Some? then FailOutcome(w, t, id, copy, owner, w.clock(3), w.listing.value)
    else
      match copy.Succeed(owner, copy.leaseToken, w.clock(3))
      case Err(fault) => Outcome(t, Some(fault))
      case Ok(row) =>
        match value.Archive()
        case Err(fault) => FailOutcome(w, t, id, row, owner, w.clock(4), fault)
        case Ok(archived) =>
          CloseOutcome(w.others(5, t), id, row, copy.version, archived, value.version, w.clock(4), w.rest(1))
  }

  /** From the written begin on: read the program, then readiness, then list the claims. */
  function WritingOutcome(w: World, t: Tables, id: Id, copy: JobRow, owner: Id): Outcome {
    var read := w.others(2, t);
    var met := w.others(3, read);
    if copy.program !in read.programs then FailOutcome(w, met, id, copy, owner, w.clock(2), NotFound)
    else CheckedOutcome(w, w.others(4, met), id, copy, owner, read.programs[copy.program],
                        Ready(met.jobs, copy.program, w.clock(2), w.rest(0)))
  }

  /** From the written claim on. */
  function LeasedOutcome(w: World, t: Tables, id: Id, copy: JobRow, owner: Id): Outcome {
    var met := w.others(1, t);
    if w.cancelled then FailOutcome(w, met, id, copy, owner, w.clock(1), Cancelled)
    else
      match copy.BeginWrite(owner, copy.leaseToken, w.clock(1))
      case Err(fault) => Outcome(met, Some(fault))
      case Ok(row) =>
        match Update(JobVersion, met.jobs, id, row, copy.version)
        case Err(fault) => Outcome(met, Some(fault))
        case Ok(jobs) => WritingOutcome(w, met.(jobs := jobs), id, row, owner)
  }

  function ProcessOutcome(w: World, t: Tables, id: Id, owner: Id, ttl: int): Outcome {
    if id !in t.jobs then Outcome(t, Some(NotFound))
    else
      match t.jobs[id].Claim(owner, ttl, w.clock(0))
      case Err(fault) => Outcome(t, Some(fault))
      case Ok(row) =>
        var met := w.others(0, t);
        match Update(JobVersion, met.jobs, id, row, t.jobs[id].version)
        case Err(fault) => Outcome(met, Some(fault))
        case Ok(jobs) => LeasedOutcome(w, met.(jobs := jobs), id, row, owner)
  }

  /** The mutable copy of a job row. */
  class Job {
    const program: Id
    const maxAttempts: int
    var state: JobState
    var leaseOwner: Id
    var leaseToken: int
    var leaseUntil: Instant
    var attempt: int
    var nextTryAt: Instant
    var version: int

    constructor (row: JobRow)
      ensures Row() == row
    {
      program, maxAttempts, state := row.program, row.maxAttempts, row.state;
      leaseOwner, leaseToken, leaseUntil := row.leaseOwner, row.leaseToken, row.leaseUntil;
      attempt, nextTryAt, version := row.attempt, row.nextTryAt, row.version;
    }

    function Row(): JobRow
      reads this
    {
      JobRow(program, state, leaseOwner, leaseToken, leaseUntil, attempt, maxAttempts, nextTryAt, version)
    }

    method Claim(owner: Id, ttl: int, now: Instant) returns (err: Option<Fault>)
      modifies this
      ensures Meets(old(Row()).Claim(owner, ttl, now), old(Row()), Row(), err)
    {
      if owner == NO_ID || ttl <= 0 { return Some(Validation); }
      if state == Leased || state == Writing {
        if now < leaseUntil { return Some(Conflict); }
      }
      if state != Queued && state != RetryWait && state != Leased && state != Writing { return Some(Conflict); }
      if now < nextTryAt { return Some(Precondition); }
      state := Leased;
      leaseOwner := owner;
      leaseToken := leaseToken + 1;
      leaseUntil := now + ttl;
      attempt := attempt + 1;
      version := version + 1;
      return None;
    }

    method BeginWrite(owner: Id, token: int, now: Instant) returns (err: Option<Fault>)
      modifies this
      ensures Meets(old(Row()).BeginWrite(owner, token, now), old(Row()), Row(), err)
    {
      if state != Leased || leaseOwner != owner || leaseToken != token || now >= leaseUntil { return Some(Conflict); }
      state := Writing;
      version := version + 1;
      return None;
    }

    method Succeed(owner: Id, token: int, now: Instant) returns (err: Option<Fault>)
      modifies this
      ensures Meets(old(Row()).Succeed(owner, token, now), old(Row()), Row(), err)
    {
      if state != Writing || leaseOwner != owner || leaseToken != token || now >= leaseUntil { return Some(Conflict); }
      state := Complete;
      leaseOwner := NO_ID;
      leaseUntil := ZERO_TIME;
      version := version + 1;
      return None;
    }

    method Fail(owner: Id, token: int, backoff: int, now: Instant) returns (err: Option<Fault>)
      modifies this
      ensures Meets(old(Row()).Fail(owner, token, backoff, now), old(Row()), Row(), err)
    {
      if state != Leased && state != Writing { return Some(Conflict); }
      if leaseOwner != owner || leaseToken != token { return Some(Conflict); }
      leaseOwner := NO_ID;
      leaseUntil := ZERO_TIME;
      if attempt >= maxAttempts {
        state := PermanentFailed;
      } else {
        state := RetryWait;
        nextTryAt := now + backoff;
      }
      version := version + 1;
      return None;
    }
  }

  class Store {
    var jobs: Jobs
    var programs: Programs
    var snapshots: set<Id>

    constructor ()
      ensures Contents() == Tables(map[], map[], {})
    {
      jobs, programs, snapshots := map[], map[], {};
    }

    function Contents(): Tables
      reads this
    {
      Tables(jobs, programs, snapshots)
    }

    method Become(t: Tables)
      modifies this
      ensures Contents() == t
    {
      jobs, programs, snapshots := t.jobs, t.programs, t.snapshots;
    }

    method InsertArchiveJob(id: Id, row: JobRow) returns (err: Option<Fault>)
      modifies this`jobs
      ensures err == None <==> id !in old(jobs) && forall k | k in old(jobs) :: old(jobs)[k].program != row.program
      ensures jobs == if err == None then old(jobs)[id := row] else old(jobs)
    {
      if id in jobs || exists k :: k in jobs && jobs[k].program == row.program { return Some(Conflict); }
      jobs := jobs[id := row];
      return None;
    }

    method UpdateArchiveJob(id: Id, row: JobRow, expected: int) returns (err: Option<Fault>)
      modifies this`jobs
      ensures Meets(Update(JobVersion, old(jobs), id, row, expected), old(jobs), jobs, err)
    {
      if id !in jobs || jobs[id].version != expected { return Some(Conflict); }
      jobs := jobs[id := row];
      return None;
    }

    /** The part of GetProgramReadiness that counts archive leases, and ReadyForArchive on it. */
    method ReadyForArchive(program: Id, now: Instant, rest: bool) returns (ready: bool)
      ensures ready <==> Ready(jobs, program, now, rest)
      ensures ready <==> rest && forall k | k in jobs && jobs[k].program == program ::
                jobs[k].state !in {Leased, Writing} || jobs[k].leaseUntil <= now
    {
      var leases := 0;
      var left := jobs.Keys;
      while left != {}
        invariant left <= jobs.Keys && leases >= 0
        invariant leases == 0 <==> forall k | k in jobs && k !in left && jobs[k].program == program && jobs[k].Held() ::
                                     jobs[k].leaseUntil <= now
        decreases left
      {
        var k :| k in left;
        left := left - {k};
        if jobs[k].program == program && jobs[k].Held() && jobs[k].leaseUntil > now {
          leases := leases + 1;
        }
      }
      ready := rest && leases == 0;
    }

    method FailJob(w: World, job: Job, id: Id, owner: Id, now: Instant, cause: Fault) returns (err: Option<Fault>)
      modifies this, job
      ensures FailOutcome(w, old(Contents()), id, old(job.Row()), owner, now, cause) == Outcome(Contents(), err)
    {
      var previous := job.version;
      err := job.Fail(owner, job.leaseToken, w.backoff(job.attempt), now);
      if err.Some? { return; }
      err := UpdateArchiveJob(id, job.Row(), previous);
      if err.Some? { return; }
      return Some(cause);
    }

    method CompleteJob(id: Id, row: JobRow, expected: int, program: E.ProgramRow, programExpected: int,
                       now: Instant, rest: bool)
      returns (err: Option<Fault>)
      modifies this
      ensures CloseOutcome(old(Contents()), id, row, expected, program, programExpected, now, rest) == Outcome(Contents(), err)
    {
      var ready := ReadyForArchive(row.program, now, rest);
      if !ready { return Some(Conflict); }
      if row.program in snapshots { return Some(Conflict); }
      var before := Contents();
      snapshots := snapshots + {row.program};
      err := UpdateArchiveJob(id, row, expected);
      if err.Some? { Become(before); return; }
      if row.program !in programs || programs[row.program].version != programExpected {
        Become(before);
        return Some(Conflict);
      }
      programs := programs[row.program := program];
    }

    /** The whole worker. */
    method Process(w: World, id: Id, owner: Id, ttl: int) returns (err: Option<Fault>)
      modifies this
      ensures ProcessOutcome(w, old(Contents()), id, owner, ttl) == Outcome(Contents(), err)
    {
      if id !in jobs { return Some(NotFound); }
      var job := new Job(jobs[id]);
      var claimVersion := job.version;
      err := job.Claim(owner, ttl, w.clock(0));
      if err.Some? { return; }
      Become(w.others(0, Contents()));
      err := UpdateArchiveJob(id, job.Row(), claimVersion);
      if err.Some? { return; }
      err := ProcessLeased(w, job, id, owner);
    }

    method ProcessLeased(w: World, job: Job, id: Id, owner: Id) returns (err: Option<Fault>)
      modifies this, job
      ensures LeasedOutcome(w, old(Contents()), id, old(job.Row()), owner) == Outcome(Contents(), err)
    {
      Become(w.others(1, Contents()));
      if w.cancelled {
        err := FailJob(w, job, id, owner, w.clock(1), Cancelled);
        return;
      }
      var beginVersion := job.version;
      err := job.BeginWrite(owner, job.leaseToken, w.clock(1));
      if err.Some? { return; }
      err := UpdateArchiveJob(id, job.Row(), beginVersion);
      if err.Some? { return; }
      err := ProcessWriting(w, job, id, owner);
    }

    method ProcessWriting(w: World, job: Job, id: Id, owner: Id) returns (err: Option<Fault>)
      modifies this, job
      ensures WritingOutcome(w, old(Contents()), id, old(job.Row()), owner) == Outcome(Contents(), err)
    {
      Become(w.others(2, Contents()));
      if job.program !in programs {
        Become(w.others(3, Contents()));
        err := FailJob(w, job, id, owner, w.clock(2), NotFound);
        return;
      }
      var value := programs[job.program];
      Become(w.others(3, Contents()));
      var ready := ReadyForArchive(job.program, w.clock(2), w.rest(0));
      Become(w.others(4, Contents()));
      err := ProcessChecked(w, job, id, owner, value, ready);
    }

    method ProcessChecked(w: World, job: Job, id: Id, owner: Id, value: E.ProgramRow, ready: bool)
      returns (err: Option<Fault>)
      modifies this, job
      ensures CheckedOutcome(w, old(Contents()), id, old(job.Row()), owner, value, ready) == Outcome(Contents(), err)
    {
      if !ready {
        err := FailJob(w, job, id, owner, w.clock(3), Precondition);
        return;
      }
      if w.listing.Some? {
        err := FailJob(w, job, id, owner, w.clock(3), w.listing.value);
        return;
      }
      var completeVersion := job.version;
      err := job.Succeed(owner, job.leaseToken, w.clock(3));
      if err.Some? { return; }
      var archived := value.Archive();
      if archived.Err? {
        err := FailJob(w, job, id, owner, w.clock(4), archived.fault);
        return;
      }
      Become(w.others(5, Contents()));
      err := CompleteJob(id, job.Row(), completeVersion, archived.value, value.version, w.clock(4), w.rest(1));
    }
  }

  // ---------- Why it never succeeds

  /** Everybody else keeps the protocol's rules for job rows, and the clock does not go back. */
  ghost predicate Fair(w: World) {
    && (forall i: nat, t: Tables :: Advances(JobVersion, t.jobs, w.others(i, t).jobs))
    && (forall i: nat, j: nat | i <= j :: w.clock(i) <= w.clock(j))
  }

  /** Everybody else leaves the snapshots alone. */
  ghost predicate KeepsSnapshots(w: World) {
    forall i: nat, t: Tables :: w.others(i, t).snapshots == t.snapshots
  }

  /** A failed stage that has only advanced the jobs. */
  ghost predicate Failed(w: World, before: Tables, o: Outcome) {
    && o.err.Some? && Advances(JobVersion, before.jobs, o.after.jobs)
    && (KeepsSnapshots(w) ==> o.after.snapshots == before.snapshots)
  }

  lemma FailFails(w: World, t: Tables, id: Id, copy: JobRow, owner: Id, now: Instant, cause: Fault)
    ensures Failed(w, t, FailOutcome(w, t, id, copy, owner, now, cause))
  {
  }

  lemma OthersAdvance(w: World, i: nat, t: Tables)
    requires Fair(w)
    ensures Advances(JobVersion, t.jobs, w.others(i, t).jobs)
    ensures KeepsSnapshots(w) ==> w.others(i, t).snapshots == t.snapshots
  {
  }

  lemma FailedLater(w: World, a: Tables, b: Tables, o: Outcome)
    requires Advances(JobVersion, a.jobs, b.jobs) && (KeepsSnapshots(w) ==> b.snapshots == a.snapshots)
    requires Failed(w, b, o)
    ensures Failed(w, a, o)
  {
    AdvancesTransitive(JobVersion, a.jobs, b.jobs, o.after.jobs);
  }

  /** Once the stored row has left the worker's copy behind, or the copy's lease has run out by the
      reading that success is judged by, a positive readiness answer does not help. */
  lemma CheckedFails(w: World, t: Tables, id: Id, copy: JobRow, owner: Id, value: E.ProgramRow, ready: bool)
    requires Fair(w) && id in t.jobs
    requires ready ==> t.jobs[id].version > copy.version || copy.leaseUntil <= w.clock(2)
    ensures Failed(w, t, CheckedOutcome(w, t, id, copy, owner, value, ready))
  {
    OthersAdvance(w, 5, t);
    if !ready {
      FailFails(w, t, id, copy, owner, w.clock(3), Precondition);
    } else if w.listing.Some? {
      FailFails(w, t, id, copy, owner, w.clock(3), w.listing.value);
    } else if copy.Succeed(owner, copy.leaseToken, w.clock(3)).Ok? {
      assert t.jobs[id].version > copy.version;
      var row := copy.Succeed(owner, copy.leaseToken, w.clock(3)).value;
      match value.Archive() {
        case Err(fault) => FailFails(w, t, id, row, owner, w.clock(4), fault);
        case Ok(archived) =>
          var met := w.others(5, t);
          assert met.jobs[id].version > copy.version;
      }
    }
  }

  lemma WritingFails(w: World, t: Tables, id: Id, copy: JobRow, owner: Id)
    requires Fair(w) && id in t.jobs && t.jobs[id] == copy && copy.state == Writing
    ensures Failed(w, t, WritingOutcome(w, t, id, copy, owner))
  {
    var read := w.others(2, t);
    var met := w.others(3, read);
    var last := w.others(4, met);
    OthersAdvance(w, 2, t);
    OthersAdvance(w, 3, read);
    OthersAdvance(w, 4, met);
    AdvancesTransitive(JobVersion, t.jobs, read.jobs, met.jobs);
    AdvancesTransitive(JobVersion, t.jobs, met.jobs, last.jobs);
    if copy.program !in read.programs {
      FailFails(w, met, id, copy, owner, w.clock(2), NotFound);
      FailedLater(w, t, met, WritingOutcome(w, t, id, copy, owner));
    } else {
      var ready := Ready(met.jobs, copy.program, w.clock(2), w.rest(0));
      assert met.jobs[id] == copy || met.jobs[id].version > copy.version;
      assert Advances(JobVersion, met.jobs, last.jobs);
      CheckedFails(w, last, id, copy, owner, read.programs[copy.program], ready);
      FailedLater(w, t, last, WritingOutcome(w, t, id, copy, owner));
    }
  }

  lemma LeasedFails(w: World, t: Tables, id: Id, copy: JobRow, owner: Id)
    requires Fair(w) && id in t.jobs && t.jobs[id] == copy
    ensures Failed(w, t, LeasedOutcome(w, t, id, copy, owner))
  {
    var met := w.others(1, t);
    OthersAdvance(w, 1, t);
    FailFails(w, met, id, copy, owner, w.clock(1), Cancelled);
    FailedLater(w, t, met, FailOutcome(w, met, id, copy, owner, w.clock(1), Cancelled));
    if !w.cancelled && copy.BeginWrite(owner, copy.leaseToken, w.clock(1)).Ok? {
      var row := copy.BeginWrite(owner, copy.leaseToken, w.clock(1)).value;
      if Update(JobVersion, met.jobs, id, row, copy.version).Ok? {
        var writing := met.(jobs := met.jobs[id := row]);
        WritingFails(w, writing, id, row, owner);
        AdvancesTransitive(JobVersion, t.jobs, met.jobs, writing.jobs);
        FailedLater(w, t, writing, LeasedOutcome(w, t, id, copy, owner));
      }
    }
  }

  /** Whatever the others commit in between, the worker reports a fault, has only advanced the jobs, and
      has stored no snapshot: its own unexpired lease is counted against it, and without that lease it
      cannot succeed. */
  lemma ProcessNeverSucceeds(w: World, t: Tables, id: Id, owner: Id, ttl: int)
    requires Fair(w)
    ensures Failed(w, t, ProcessOutcome(w, t, id, owner, ttl))
  {
    var met := w.others(0, t);
    OthersAdvance(w, 0, t);
    if id in t.jobs && t.jobs[id].Claim(owner, ttl, w.clock(0)).Ok? {
      var row := t.jobs[id].Claim(owner, ttl, w.clock(0)).value;
      if Update(JobVersion, met.jobs, id, row, t.jobs[id].version).Ok? {
        var leased := met.(jobs := met.jobs[id := row]);
        LeasedFails(w, leased, id, row, owner);
        AdvancesTransitive(JobVersion, t.jobs, met.jobs, leased.jobs);
        FailedLater(w, t, leased, ProcessOutcome(w, t, id, owner, ttl));
      }
    }
  }

  ghost predicate NoneInReview(programs: Programs) {
    forall k | k in programs :: programs[k].state != E.ReviewPending
  }

  /** A second reason, which needs nothing of the clock, of the comparison of lease ends with it, or of
      how others treat jobs: while no program is in review, none can be archived. */
  lemma ProcessNeedsAProgramInReview(w: World, t: Tables, id: Id, owner: Id, ttl: int)
    requires NoneInReview(t.programs)
    requires forall i: nat, x: Tables | NoneInReview(x.programs) :: NoneInReview(w.others(i, x).programs)
    ensures ProcessOutcome(w, t, id, owner, ttl).err.Some?
  {
    if id in t.jobs && t.jobs[id].Claim(owner, ttl, w.clock(0)).Ok? {
      var row := t.jobs[id].Claim(owner, ttl, w.clock(0)).value;
      var met := w.others(0, t);
      if Update(JobVersion, met.jobs, id, row, t.jobs[id].version).Ok? {
        LeasedNeedsAProgramInReview(w, met.(jobs := met.jobs[id := row]), id, row, owner);
      }
    }
  }

  lemma LeasedNeedsAProgramInReview(w: World, t: Tables, id: Id, copy: JobRow, owner: Id)
    requires NoneInReview(t.programs)
    requires forall i: nat, x: Tables | NoneInReview(x.programs) :: NoneInReview(w.others(i, x).programs)
    ensures LeasedOutcome(w, t, id, copy, owner).err.Some?
  {
    var met := w.others(1, t);
    if !w.cancelled && copy.BeginWrite(owner, copy.leaseToken, w.clock(1)).Ok? {
      var row := copy.BeginWrite(owner, copy.leaseToken, w.clock(1)).value;
      if Update(JobVersion, met.jobs, id, row, copy.version).Ok? {
        var writing := met.(jobs := met.jobs[id := row]);
        assert NoneInReview(writing.programs);
        var read := w.others(2, writing);
        assert copy.program in read.programs ==> read.programs[copy.program].Archive().Err?;
      }
    }
  }
}
