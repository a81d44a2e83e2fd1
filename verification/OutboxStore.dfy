/** The outbox statements and the worker as the code runs them, proved to be steps of the protocol in
    Outbox. `others` stands for everybody else between two statements. */
module OutboxStore {
  import opened Prelude
  import opened Outbox

  type Events = map<Id, EventRow>

  class Store {
    const maxAttempts: int
    var events: Events

    constructor (maxAttempts: int)
      ensures events == map[] && this.maxAttempts == maxAttempts
    {
      this.maxAttempts := maxAttempts;
      events := map[];
    }

    method InsertOutbox(id: Id, now: Instant) returns (err: Option<Fault>)
      modifies this
      ensures events == Next(State(maxAttempts, old(events), {}), Insert(id, now)).events
      ensures err == if id in old(events) then Some(Conflict) else None
    {
      if id in events { return Some(Conflict); }
      events := events[id := NewEvent(now)];
      return None;
    }

    /** SELECT ... ORDER BY created_at, id LIMIT 1. */
    method FirstDueEvent(now: Instant) returns (found: Option<Id>)
      ensures found.Some? ==> FirstDue(events, found.value, now)
      ensures found == None ==> forall k | k in events :: !events[k].Eligible(now)
    {
      found := None;
      var rest := events.Keys;
      while rest != {}
        invariant rest <= events.Keys
        invariant found == None ==> forall k | k in events :: k in rest || !events[k].Eligible(now)
        invariant found.Some? ==>
                    && found.value in events && found.value !in rest && events[found.value].Eligible(now)
                    && forall k | k in events && k != found.value && events[k].Eligible(now) ::
                         k in rest || Earlier(events, found.value, k)
        decreases rest
      {
        var k :| k in rest;
        rest := rest - {k};
        if events[k].Eligible(now) && (found == None || Earlier(events, k, found.value)) {
          found := Some(k);
        }
      }
    }

    method ClaimOutbox(owner: Id, now: Instant, ttl: int) returns (claimed: Result<(Id, EventRow)>)
      modifies this
      ensures claimed.Err? ==> events == old(events) && forall k | k in events :: !events[k].Eligible(now)
      ensures claimed.Ok? ==>
                var id := claimed.value.0;
                && FirstDue(old(events), id, now)
                && events == Next(State(maxAttempts, old(events), {}), Claim(id, owner, now, ttl)).events
                && events[id] == claimed.value.1
    {
      var first := FirstDueEvent(now);
      if first == None { return Err(NotFound); }
      var id := first.value;
      events := events[id := events[id].Claimed(owner, now + ttl)];
      return Ok((id, events[id]));
    }

    method CompleteOutbox(id: Id, owner: Id, token: int, now: Instant) returns (err: Option<Fault>)
      modifies this
      ensures events == Next(State(maxAttempts, old(events), {}), Complete(id, owner, token, now)).events
      ensures err == if id in old(events) && old(events)[id].HeldBy(owner, token)
                        && old(events)[id].leaseUntil != None && old(events)[id].leaseUntil.value > now
                     then None else Some(Conflict)
    {
      if id !in events || events[id].state != Leased || events[id].leaseOwner != owner
         || events[id].leaseToken != token || events[id].leaseUntil == None || events[id].leaseUntil.value <= now {
        return Some(Conflict);
      }
      events := events[id := events[id].Completed()];
      return None;
    }

    method FailOutbox(others: Events -> Events, id: Id, owner: Id, token: int, next: Instant)
      returns (err: Option<Fault>)
      modifies this
      ensures id !in old(events) || !old(events)[id].HeldBy(owner, token) ==>
                err == Some(NotFound) && events == old(events)
      ensures id in old(events) && old(events)[id].HeldBy(owner, token) ==>
                var read, met := Reading(id, owner, token, old(events)[id].attempt), others(old(events));
                && events == Next(State(maxAttempts, met, {read}), Fail(read, next)).events
                && err == if id in met && met[id].HeldBy(owner, token) then None else Some(Conflict)
    {
      if id !in events || !events[id].HeldBy(owner, token) { return Some(NotFound); }
      var attempts := events[id].attempt;
      var final := false;
      if attempts >= maxAttempts { final := true; }
      events := others(events);
      if id !in events || !events[id].HeldBy(owner, token) { return Some(Conflict); }
      events := events[id := events[id].Failed(final, next)];
      return None;
    }

    /** One turn of the worker: claim the first due event, dispatch it, complete or fail it. The
        dispatch takes until `later`; `failure` is its result. Like Go's joined errors, `errs` lists
        what went wrong. */
    method Run(others: (nat, Events) -> Events, owner: Id, now: Instant, ttl: int, failure: Option<Fault>, later: Instant)
      returns (errs: seq<Fault>, ghost worked: Option<Id>)
      modifies this
      ensures worked == None <==> forall k | k in old(events) :: !old(events)[k].Eligible(now)
      ensures worked == None ==> events == old(events) && errs == []
      ensures worked.Some? ==>
                var id := worked.value;
                && FirstDue(old(events), id, now)
                && var row := old(events)[id].Claimed(owner, now + ttl);
                   var met := others(0, old(events)[id := row]);
                   if failure == None then
                     && events == Next(State(maxAttempts, met, {}), Complete(id, owner, row.leaseToken, later)).events
                     && errs == if id in met && met[id].HeldBy(owner, row.leaseToken) && met[id].leaseUntil != None
                                   && met[id].leaseUntil.value > later then [] else [Conflict]
                   else if id !in met || !met[id].HeldBy(owner, row.leaseToken) then
                     events == met && errs == [failure.value, NotFound]
                   else
                     var read := Reading(id, owner, row.leaseToken, met[id].attempt);
                     var met' := others(1, met);
                     && events == Next(State(maxAttempts, met', {read}), Fail(read, later + Backoff(row.attempt))).events
                     && errs == if id in met' && met'[id].HeldBy(owner, row.leaseToken)
                                then [failure.value] else [failure.value, Conflict]
    {
      var claim := ClaimOutbox(owner, now, ttl);
      if claim.Err? { return [], None; }
      var id, row := claim.value.0, claim.value.1;
      worked := Some(id);
      events := others(0, events);
      var err;
      if failure.Some? {
        err := FailOutbox(t => others(1, t), id, owner, row.leaseToken, later + Backoff(row.attempt));
        return if err.Some? then [failure.value, err.value] else [failure.value], worked;
      }
      err := CompleteOutbox(id, owner, row.leaseToken, later);
      return if err.Some? then [err.value] else [], worked;
    }
  }
}
