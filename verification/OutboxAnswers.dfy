/** What each outbox statement does to the stored events, told by readings and fields; when a failed event
    comes back; and whose a leased event is. */
module OutboxAnswers {
  import opened Prelude
  import opened Outbox

  /** An event waits for its turn and its time has come. */
  predicate Waits(e: EventRow) { e.state == Pending || e.state == RetryWait }

  predicate DueAt(e: EventRow, now: Instant) { Waits(e) && e.nextTryAt <= now }

  /** No other due event is older, or as old with a smaller id. */
  predicate OldestDue(events: map<Id, EventRow>, k: Id, now: Instant) {
    && k in events && DueAt(events[k], now)
    && forall o | o in events && o != k && DueAt(events[o], now) ::
         events[k].createdAt < events[o].createdAt || (events[k].createdAt == events[o].createdAt && k < o)
  }

  lemma OldestIsFirst(s: State, k: Id, now: Instant)
    requires Inv(s)
    ensures FirstDue(s.events, k, now) <==> OldestDue(s.events, k, now)
  {
    forall o | o in s.events
      ensures s.events[o].Eligible(now) <==> DueAt(s.events[o], now)
    {
      assert RowOk(s.events[o], s.maxAttempts);
    }
  }

  /** A new event is due at once, with no attempts behind it, and an insert changes nothing else. */
  lemma InsertWrites(s: State, id: Id, now: Instant)
    ensures Next(s, Insert(id, now)).events
         == if id in s.events then s.events
            else s.events[id := EventRow(Pending, 0, now, NO_ID, 0, None, now)]
  {
  }

  /** A claim takes the oldest due event, and that one alone, until its reading plus the length asked for. */
  lemma ClaimWrites(s: State, events: seq<Event>, id: Id, owner: Id, now: Instant, ttl: int)
    requires Initial(s)
    ensures var s1 := Run(s, events);
      Next(s1, Claim(id, owner, now, ttl)).events
      == if OldestDue(s1.events, id, now)
         then var e := s1.events[id];
              s1.events[id := EventRow(Leased, e.attempt + 1, e.nextTryAt, owner, e.leaseToken + 1, Some(now + ttl), e.createdAt)]
         else s1.events
  {
    RunKeeps(s, events);
    OldestIsFirst(Run(s, events), id, now);
  }

  ghost predicate Holds(e: EventRow, owner: Id, token: int, until: Instant) {
    e.state == Leased && e.leaseOwner == owner && e.leaseToken == token && e.leaseUntil == Some(until)
  }

  /** A leased event is its holder's alone. It is changed exactly by the holder's completion with a reading
      before the end of the lease, which delivers it, and by the holder's failure, early or late, which
      makes it wait for the time asked for, or fails it for good when its attempts are used up. */
  lemma LeasedEventIsItsHolders(s: State, events: seq<Event>, e: Event, k: Id, owner: Id, token: int, until: Instant)
    requires Initial(s) && k in Run(s, events).events && Holds(Run(s, events).events[k], owner, token, until)
    ensures var s1 := Run(s, events);
      var row := s1.events[k];
      k in Next(s1, e).events && Next(s1, e).events[k]
      == if e.Complete? && e.id == k && e.owner == owner && e.token == token && e.now < until
         then EventRow(Delivered, row.attempt, row.nextTryAt, NO_ID, token, None, row.createdAt)
         else if e.Fail? && e.read in s1.readings && e.read.id == k && e.read.owner == owner && e.read.token == token
         then EventRow(if row.attempt >= s.maxAttempts then PermanentFailed else RetryWait,
                       row.attempt, e.next, NO_ID, token, None, row.createdAt)
         else row
  {
    RunKeeps(s, events);
    assert RowOk(Run(s, events).events[k], s.maxAttempts);
  }

  /** A waiting event is changed only by a claim whose reading has reached its time. */
  lemma WaitingStep(s: State, e: Event, k: Id)
    requires Inv(s) && k in s.events && s.events[k].state == RetryWait
    requires e.Claim? ==> e.now < s.events[k].nextTryAt
    ensures k in Next(s, e).events && Next(s, e).events[k] == s.events[k]
  {
  }

  lemma {:induction false} WaitingRun(s: State, later: seq<Event>, k: Id)
    requires Inv(s) && k in s.events && s.events[k].state == RetryWait
    requires forall c | c in later && c.Claim? :: c.now < s.events[k].nextTryAt
    ensures Inv(Run(s, later)) && k in Run(s, later).events && Run(s, later).events[k] == s.events[k]
    decreases |later|
  {
    if later != [] {
      StepKeeps(s, later[0]);
      assert later[0] in later;
      WaitingStep(s, later[0], k);
      WaitingRun(Next(s, later[0]), later[1..], k);
    }
  }

  /** Over runs, after a failure that leaves event `k` waiting until `next`: statements with readings before
      `next` leave it as it is, and after them a claim of `k` succeeds exactly when its reading has
      reached `next` and no other due event is older. */
  lemma FailedEventWaits(s: State, events: seq<Event>, read: Reading, next: Instant, later: seq<Event>,
                         owner: Id, now: Instant, ttl: int)
    requires Initial(s)
    requires var s1 := Run(s, events);
      && read in s1.readings && read.id in s1.events && s1.events[read.id].HeldBy(read.owner, read.token)
      && s1.events[read.id].attempt < s.maxAttempts
    requires forall c | c in later && c.Claim? :: c.now < next
    ensures var s1, k := Run(s, events), read.id;
      var s2 := Next(s1, Fail(read, next));
      var s3 := Run(s2, later);
      && k in s2.events && s2.events[k].state == RetryWait
      && k in s3.events && s3.events[k] == s2.events[k]
      && k in Next(s3, Claim(k, owner, now, ttl)).events
      && (Next(s3, Claim(k, owner, now, ttl)).events[k] != s3.events[k] <==>
            && next <= now
            && forall o | o in s3.events && o != k && DueAt(s3.events[o], now) ::
                 s3.events[k].createdAt < s3.events[o].createdAt
                 || (s3.events[k].createdAt == s3.events[o].createdAt && k < o))
      && (Next(s3, Claim(k, owner, now, ttl)).events[k] != s3.events[k] ==>
            Holds(Next(s3, Claim(k, owner, now, ttl)).events[k], owner, s1.events[k].leaseToken + 1, now + ttl))
  {
    RunKeeps(s, events);
    FailedIsWaiting(Run(s, events), read, next);
    var s2 := Next(Run(s, events), Fail(read, next));
    WaitingRun(s2, later, read.id);
    OldestIsFirst(Run(s2, later), read.id, now);
  }

  lemma FailedIsWaiting(s: State, read: Reading, next: Instant)
    requires Inv(s) && read in s.readings && read.id in s.events && s.events[read.id].HeldBy(read.owner, read.token)
    requires s.events[read.id].attempt < s.maxAttempts
    ensures var s2 := Next(s, Fail(read, next));
      var e := s.events[read.id];
      && Inv(s2) && read.id in s2.events
      && s2.events[read.id] == EventRow(RetryWait, e.attempt, next, NO_ID, e.leaseToken, None, e.createdAt)
  {
    StepKeeps(s, Fail(read, next));
    assert RowOk(s.events[read.id], s.maxAttempts);
  }

  /** In particular, a worker's turn that fails at reading `at` on the given attempt keeps the event away
      from every claim with a reading before `at` plus the backoff, which is at least a second. */
  lemma BackoffIsServed(s: State, events: seq<Event>, read: Reading, attempt: int, at: Instant, later: seq<Event>)
    requires Initial(s)
    requires var s1 := Run(s, events);
      && read in s1.readings && read.id in s1.events && s1.events[read.id].HeldBy(read.owner, read.token)
      && s1.events[read.id].attempt == attempt < s.maxAttempts
    requires forall c | c in later && c.Claim? :: c.now < at + Backoff(attempt)
    ensures at + 1 <= at + Backoff(attempt)
    ensures var s2 := Next(Run(s, events), Fail(read, at + Backoff(attempt)));
      && read.id in Run(s2, later).events && Run(s2, later).events[read.id] == s2.events[read.id]
      && s2.events[read.id].state == RetryWait && s2.events[read.id].nextTryAt == at + Backoff(attempt)
  {
    BackoffShape(attempt, attempt);
    RunKeeps(s, events);
    FailedIsWaiting(Run(s, events), read, at + Backoff(attempt));
    WaitingRun(Next(Run(s, events), Fail(read, at + Backoff(attempt))), later, read.id);
  }
}
