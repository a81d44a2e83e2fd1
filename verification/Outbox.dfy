/** Outbox delivery: claim, dispatch, complete or fail, with a lease, a fencing token and a bounded
    number of attempts. */
module Outbox {
  import opened Prelude

  datatype EventState = Pending | Leased | Delivered | RetryWait | PermanentFailed

  /** `leaseUntil` is None for NULL. */
  datatype EventRow = EventRow(
    state: EventState, attempt: int, nextTryAt: Instant,
    leaseOwner: Id, leaseToken: int, leaseUntil: Option<Instant>, createdAt: Instant)
  {
    /** The WHERE clause of the SELECT in ClaimOutbox. */
    predicate Eligible(now: Instant) {
      && (state == Pending || state == RetryWait) && nextTryAt <= now
      && (leaseUntil == None || leaseUntil.value <= now)
    }

    predicate HeldBy(owner: Id, token: int) {
      state == Leased && leaseOwner == owner && leaseToken == token
    }

    function Claimed(owner: Id, until: Instant): EventRow {
      this.(state := Leased, leaseOwner := owner, leaseToken := leaseToken + 1,
            leaseUntil := Some(until), attempt := attempt + 1)
    }

    function Completed(): EventRow {
      this.(state := Delivered, leaseOwner := NO_ID, leaseUntil := None)
    }

    function Failed(final: bool, next: Instant): EventRow {
      this.(state := if final then PermanentFailed else RetryWait,
            leaseOwner := NO_ID, leaseUntil := None, nextTryAt := next)
    }
  }

  function NewEvent(now: Instant): EventRow {
    EventRow(Pending, 0, now, NO_ID, 0, None, now)
  }

  /** Exponential, between one second and a little over two minutes. */
  function Backoff(attempt: int): (seconds: int) {
    var bounded := if attempt < 1 then 1 else if attempt > 8 then 8 else attempt;
    Pow2(bounded - 1)
  }

  function Pow2(n: nat): (p: nat) {
    if n == 0 then 1 else 2 * Pow2(n - 1)
  }

  lemma {:induction false} Pow2Grows(m: nat, n: nat)
    requires m <= n
    ensures 1 <= Pow2(m) <= Pow2(n)
  {
    if m > 0 {
      Pow2Grows(m - 1, n - 1);
    } else if n > 0 {
      Pow2Grows(0, n - 1);
    }
  }

  /** Backoff never shrinks, stays within 1 and 128 seconds, and doubles until it is capped. */
  lemma BackoffShape(a: int, b: int)
    requires a <= b
    ensures 1 <= Backoff(a) <= Backoff(b) <= 128
    ensures 1 <= a < 8 ==> Backoff(a + 1) == 2 * Backoff(a)
    ensures (a <= 1 ==> Backoff(a) == 1) && (a >= 8 ==> Backoff(a) == 128)
  {
    var x := if a < 1 then 1 else if a > 8 then 8 else a;
    var y := if b < 1 then 1 else if b > 8 then 8 else b;
    Pow2Grows(x - 1, y - 1);
    Pow2Grows(y - 1, 7);
    assert Pow2(7) == 128 by {
      assert Pow2(2) == 4 && Pow2(4) == 16 && Pow2(6) == 64;
    }
  }

  // ---------- The protocol

  /** The first statement of FailOutbox has read `attempts`; its UPDATE is still to come. */
  datatype Reading = Reading(id: Id, owner: Id, token: int, attempts: int)

  datatype State = State(maxAttempts: int, events: map<Id, EventRow>, readings: set<Reading>)

  /** Every statement carries the clock reading it was issued with, in any order. Anybody may issue
      any of them. */
  datatype Event =
    | Insert(id: Id, now: Instant)
    | Claim(id: Id, owner: Id, now: Instant, ttl: int)
    | Complete(id: Id, owner: Id, token: int, now: Instant)
    | ReadAttempt(id: Id, owner: Id, token: int)
    | Fail(read: Reading, next: Instant)
    | Crash(read: Reading)

  /** ORDER BY created_at, id. */
  predicate Earlier(events: map<Id, EventRow>, a: Id, b: Id)
    requires a in events && b in events
  {
    events[a].createdAt < events[b].createdAt || (events[a].createdAt == events[b].createdAt && a < b)
  }

  predicate FirstDue(events: map<Id, EventRow>, id: Id, now: Instant) {
    && id in events && events[id].Eligible(now)
    && forall k | k in events && k != id && events[k].Eligible(now) :: Earlier(events, id, k)
  }

  function Next(s: State, e: Event): State {
    match e
    case Insert(id, now) =>
      if id in s.events then s else s.(events := s.events[id := NewEvent(now)])
    case Claim(id, owner, now, ttl) =>
      if FirstDue(s.events, id, now) then s.(events := s.events[id := s.events[id].Claimed(owner, now + ttl)]) else s
    case Complete(id, owner, token, now) =>
      if id in s.events && s.events[id].HeldBy(owner, token) && s.events[id].leaseUntil != None
         && s.events[id].leaseUntil.value > now
      then s.(events := s.events[id := s.events[id].Completed()]) else s
    case ReadAttempt(id, owner, token) =>
      if id in s.events && s.events[id].HeldBy(owner, token)
      then s.(readings := s.readings + {Reading(id, owner, token, s.events[id].attempt)}) else s
    case Fail(read, next) =>
      if read !in s.readings then s
      else if read.id in s.events && s.events[read.id].HeldBy(read.owner, read.token)
      then s.(events := s.events[read.id := s.events[read.id].Failed(read.attempts >= s.maxAttempts, next)],
              readings := s.readings - {read})
      else s.(readings := s.readings - {read})
    case Crash(read) => s.(readings := s.readings - {read})
  }

  function Run(s: State, events: seq<Event>): State
    decreases |events|
  {
    if events == [] then s else Run(Next(s, events[0]), events[1..])
  }

  predicate Initial(s: State) {
    s.maxAttempts >= 1 && s.events == map[] && s.readings == {}
  }

  // ---------- The invariant

  ghost predicate RowOk(e: EventRow, maxAttempts: int) {
    && e.attempt == e.leaseToken
    && match e.state
       case Pending => e.attempt == 0 && e.leaseUntil == None
       case Leased => 1 <= e.attempt <= maxAttempts && e.leaseUntil.Some?
       case RetryWait => 1 <= e.attempt < maxAttempts && e.leaseUntil == None
       case Delivered => 1 <= e.attempt <= maxAttempts && e.leaseUntil == None
       case PermanentFailed => e.attempt == maxAttempts && e.leaseUntil == None
  }

  ghost predicate Inv(s: State) {
    && s.maxAttempts >= 1
    && (forall k | k in s.events :: RowOk(s.events[k], s.maxAttempts))
    && (forall r | r in s.readings :: r.attempts == r.token)
  }

  lemma StepKeeps(s: State, e: Event)
    requires Inv(s)
    ensures Inv(Next(s, e)) && Next(s, e).maxAttempts == s.maxAttempts
  {
  }

  lemma {:induction false} RunKeeps(s: State, events: seq<Event>)
    requires Inv(s)
    ensures Inv(Run(s, events)) && Run(s, events).maxAttempts == s.maxAttempts
    decreases |events|
  {
    if events != [] {
      StepKeeps(s, events[0]);
      RunKeeps(Next(s, events[0]), events[1..]);
    }
  }

  // ---------- Main results

  /** In every run the fencing token counts the attempts, attempts stay within the bound, a waiting
      event has attempts left, and an event fails for good exactly at the bound. */
  lemma AttemptsAreBounded(s: State, events: seq<Event>, k: Id)
    requires Initial(s) && k in Run(s, events).events
    ensures var e := Run(s, events).events[k];
      && e.attempt == e.leaseToken && 0 <= e.attempt <= s.maxAttempts
      && (e.state == RetryWait ==> e.attempt < s.maxAttempts)
      && (e.state == PermanentFailed ==> e.attempt == s.maxAttempts)
  {
    RunKeeps(s, events);
    assert RowOk(Run(s, events).events[k], s.maxAttempts);
  }

  /** Delivered and permanently failed events never change. */
  lemma {:induction false} FinalIsAbsorbing(s: State, events: seq<Event>, k: Id)
    requires k in s.events && s.events[k].state in {Delivered, PermanentFailed}
    ensures k in Run(s, events).events && Run(s, events).events[k] == s.events[k]
    decreases |events|
  {
    if events != [] {
      FinalIsAbsorbing(Next(s, events[0]), events[1..], k);
    }
  }

  /** FailOutbox reads the attempt count in one statement and writes in another. Thanks to the token
      in the guard, a write that takes effect has judged the current count, not an old one. */
  lemma FailJudgesTheCurrentAttempt(s: State, events: seq<Event>, read: Reading, next: Instant)
    requires Initial(s)
    requires var s1 := Run(s, events);
      read in s1.readings && read.id in s1.events && s1.events[read.id].HeldBy(read.owner, read.token)
    ensures var s1 := Run(s, events);
      Next(s1, Fail(read, next)).events[read.id].state
      == if s1.events[read.id].attempt >= s.maxAttempts then PermanentFailed else RetryWait
  {
    RunKeeps(s, events);
    assert RowOk(Run(s, events).events[read.id], s.maxAttempts);
  }

  // ---------- Termination

  /** How many more claims, completions and failures this event can take. */
  function Weight(e: EventRow, maxAttempts: int): int {
    match e.state
    case Pending => 2 * (maxAttempts - e.attempt)
    case RetryWait => 2 * (maxAttempts - e.attempt)
    case Leased => 2 * (maxAttempts - e.attempt) + 1
    case _ => 0
  }

  /** One unit for each of them. */
  function Budget(events: map<Id, EventRow>, maxAttempts: int): set<(Id, int)> {
    set k, i | k in events && 0 <= i < Weight(events[k], maxAttempts) :: (k, i)
  }

  predicate Works(s: State, e: Event) {
    !e.Insert? && Next(s, e).events != s.events
  }

  /** Effective claims, completions and failures of a run. */
  function Work(s: State, events: seq<Event>): nat
    decreases |events|
  {
    if events == [] then 0
    else (if Works(s, events[0]) then 1 else 0) + Work(Next(s, events[0]), events[1..])
  }

  /** The budget that the inserts of a run bring in. */
  function Allowance(maxAttempts: nat, events: seq<Event>): nat {
    if events == [] then 0
    else (if events[0].Insert? then 2 * maxAttempts else 0) + Allowance(maxAttempts, events[1..])
  }

  function Inserts(events: seq<Event>): nat {
    if events == [] then 0 else (if events[0].Insert? then 1 else 0) + Inserts(events[1..])
  }

  lemma ProperSubsetIsSmaller<T>(a: set<T>, b: set<T>, x: T)
    requires a <= b && x in b && x !in a
    ensures |a| < |b|
  {
    SubsetIsNotLarger(a, b - {x});
  }

  /** Lowering one event's weight shrinks the budget. */
  lemma LighterShrinks(events: map<Id, EventRow>, k: Id, e: EventRow, maxAttempts: int)
    requires k in events && Weight(e, maxAttempts) < Weight(events[k], maxAttempts) && Weight(events[k], maxAttempts) > 0
    ensures |Budget(events[k := e], maxAttempts)| < |Budget(events, maxAttempts)|
  {
    var last := Weight(events[k], maxAttempts) - 1;
    assert (k, last) in Budget(events, maxAttempts) && (k, last) !in Budget(events[k := e], maxAttempts);
    ProperSubsetIsSmaller(Budget(events[k := e], maxAttempts), Budget(events, maxAttempts), (k, last));
  }

  lemma WorkSpendsBudget(s: State, e: Event)
    requires Inv(s) && Works(s, e)
    ensures |Budget(Next(s, e).events, s.maxAttempts)| < |Budget(s.events, s.maxAttempts)|
  {
    var k := match e
      case Claim(id, _, _, _) => id
      case Complete(id, _, _, _) => id
      case Fail(read, _) => read.id
      case _ => NO_ID;
    assert RowOk(s.events[k], s.maxAttempts);
    LighterShrinks(s.events, k, Next(s, e).events[k], s.maxAttempts);
  }

  lemma InsertAddsBudget(events: map<Id, EventRow>, k: Id, now: Instant, maxAttempts: nat)
    requires k !in events
    ensures |Budget(events[k := NewEvent(now)], maxAttempts)| <= |Budget(events, maxAttempts)| + 2 * maxAttempts
  {
    var added := set i | 0 <= i < 2 * maxAttempts :: (k, i);
    assert Budget(events[k := NewEvent(now)], maxAttempts) == Budget(events, maxAttempts) + added;
    PairsBound(k, 2 * maxAttempts);
  }

  lemma {:induction false} PairsBound(k: Id, n: nat)
    ensures |set i | 0 <= i < n :: (k, i)| <= n
  {
    var all := set i | 0 <= i < n :: (k, i);
    if n > 0 {
      PairsBound(k, n - 1);
      assert all == (set i | 0 <= i < n - 1 :: (k, i)) + {(k, n - 1)};
    } else {
      assert all == {};
    }
  }

  /** All the work a run can do is bounded by the budget it starts with and the events it inserts;
      with no inserts, delivery ends. */
  lemma {:induction false} WorkIsBounded(s: State, events: seq<Event>)
    requires Inv(s)
    ensures Work(s, events) + |Budget(Run(s, events).events, s.maxAttempts)|
         <= |Budget(s.events, s.maxAttempts)| + Allowance(s.maxAttempts, events)
    decreases |events|
  {
    if events != [] {
      var e := events[0];
      StepKeeps(s, e);
      WorkIsBounded(Next(s, e), events[1..]);
      if Works(s, e) {
        WorkSpendsBudget(s, e);
      } else if e.Insert? && e.id !in s.events {
        InsertAddsBudget(s.events, e.id, e.now, s.maxAttempts);
      }
    }
  }

  /** From an empty outbox: at most 2 * maxAttempts effective statements per inserted event. */
  lemma WorkPerEvent(s: State, events: seq<Event>)
    requires Initial(s)
    ensures Work(s, events) <= 2 * s.maxAttempts * Inserts(events)
  {
    WorkIsBounded(s, events);
    assert Budget(s.events, s.maxAttempts) == {};
    AllowanceIsPerInsert(s.maxAttempts, events);
  }

  lemma {:induction false} AllowanceIsPerInsert(maxAttempts: nat, events: seq<Event>)
    ensures Allowance(maxAttempts, events) == 2 * maxAttempts * Inserts(events)
  {
    if events != [] {
      AllowanceIsPerInsert(maxAttempts, events[1..]);
      var rest := Inserts(events[1..]);
      assert 2 * maxAttempts * (1 + rest) == 2 * maxAttempts + 2 * maxAttempts * rest;
    }
  }

  // ---------- Recovery

  /** README.md:49 promises that expired work is recovered. For the outbox it is not: once a lease has
      run out, the only statement at a later time that changes the event is the UPDATE of its own
      holder's FailOutbox. */
  lemma OnlyTheHolderFreesAnExpiredLease(s: State, e: Event, k: Id)
    requires Inv(s) && k in s.events && s.events[k].state == Leased
    requires e.Complete? ==> s.events[k].leaseUntil.value <= e.now
    ensures Next(s, e).events[k] != s.events[k]
       <==> e.Fail? && e.read in s.readings && e.read.id == k && s.events[k].HeldBy(e.read.owner, e.read.token)
  {
    assert RowOk(s.events[k], s.maxAttempts);
  }

  /** Whatever claims and completions come later, and whoever else fails something: the event stays
      as it is, so a worker that crashed leaves its event leased for ever. */
  lemma {:induction false} ExpiredLeaseIsNeverRecovered(s: State, events: seq<Event>, k: Id)
    requires Inv(s) && k in s.events && s.events[k].state == Leased
    requires forall i | 0 <= i < |events| && events[i].Complete? :: s.events[k].leaseUntil.value <= events[i].now
    requires forall i | 0 <= i < |events| && events[i].Fail? ::
               events[i].read.id != k || !s.events[k].HeldBy(events[i].read.owner, events[i].read.token)
    ensures k in Run(s, events).events && Run(s, events).events[k] == s.events[k]
    decreases |events|
  {
    if events != [] {
      StepKeeps(s, events[0]);
      OnlyTheHolderFreesAnExpiredLease(s, events[0], k);
      ExpiredLeaseIsNeverRecovered(Next(s, events[0]), events[1..], k);
    }
  }

  lemma {:induction false} RunSnoc(s: State, events: seq<Event>, e: Event)
    ensures Run(s, events + [e]) == Next(Run(s, events), e)
    decreases |events|
  {
    if events != [] {
      assert (events + [e])[1..] == events[1..] + [e];
      RunSnoc(Next(s, events[0]), events[1..], e);
    }
  }

  /** A stranded event: worker 7 claims event 1 until 15 and crashes before it completes or fails it. */
  lemma ACrashedWorkerStrandsItsEvent() returns (s: State, events: seq<Event>)
    ensures Initial(s) && Inv(Run(s, events)) && Run(s, events).readings == {}
    ensures 1 in Run(s, events).events
    ensures var e := Run(s, events).events[1]; e.state == Leased && e.leaseOwner == 7 && e.leaseUntil == Some(15)
    ensures forall later: seq<Event> |
              && (forall i | 0 <= i < |later| && later[i].Complete? :: 15 <= later[i].now)
              && (forall i | 0 <= i < |later| && later[i].Fail? :: later[i].read.owner != 7) ::
              1 in Run(Run(s, events), later).events && Run(Run(s, events), later).events[1] == Run(s, events).events[1]
  {
    s := State(3, map[], {});
    events := [Insert(1, 10)] + [Claim(1, 7, 10, 5)];
    RunSnoc(s, [], Insert(1, 10));
    RunSnoc(s, [Insert(1, 10)], Claim(1, 7, 10, 5));
    assert Run(s, [Insert(1, 10)]).events == map[1 := NewEvent(10)];
    assert FirstDue(map[1 := NewEvent(10)], 1, 10);
    RunKeeps(s, events);
    var s1 := Run(s, events);
    forall later: seq<Event> |
      && (forall i | 0 <= i < |later| && later[i].Complete? :: 15 <= later[i].now)
      && (forall i | 0 <= i < |later| && later[i].Fail? :: later[i].read.owner != 7)
      ensures 1 in Run(s1, later).events && Run(s1, later).events[1] == s1.events[1]
    {
      ExpiredLeaseIsNeverRecovered(s1, later, 1);
    }
  }
}
