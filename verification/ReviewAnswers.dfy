/** What a review call has done once it has committed, told by its request and the rows before and after,
    and how long a lease lasts; see ReadingAnswers. */
module ReviewAnswers {
  import opened Prelude
  import opened Versions
  import opened ReviewDomain
  import opened ReviewProtocol
  import opened ReviewSafety

  function Met(s: State, events: seq<Event>, e: Event, later: seq<Event>): State {
    Run(Next(Run(s, events), e), later)
  }

  function After(s: State, events: seq<Event>, e: Event, later: seq<Event>, op: Op): State {
    Next(Met(s, events, e, later), Commit(op))
  }

  ghost predicate Commits(s: State, events: seq<Event>, e: Event, later: seq<Event>, op: Op) {
    && Initial(s) && Begin(Run(s, events), e) == Some(op)
    && op in Met(s, events, e, later).ops && Transact(Met(s, events, e, later).tables, op).Ok?
  }

  lemma Arriving(s: State, events: seq<Event>, e: Event, later: seq<Event>, op: Op)
    requires Commits(s, events, e, later, op)
    ensures Inv(Run(s, events)) && Inv(Met(s, events, e, later)) && Inv(After(s, events, e, later, op))
    ensures After(s, events, e, later, op).tables == Transact(Met(s, events, e, later).tables, op).value
  {
    Reached(s, events);
    AlwaysKept(Run(s, events), e, later, op);
    CommitGives(Met(s, events, e, later), op);
  }

  lemma AlwaysKept(s: State, e: Event, later: seq<Event>, op: Op)
    requires Inv(s)
    ensures Inv(Run(Next(s, e), later)) && Inv(Next(Run(Next(s, e), later), Commit(op)))
  {
    StepKeeps(s, e);
    RunKeeps(Next(s, e), later);
    StepKeeps(Run(Next(s, e), later), Commit(op));
  }

  lemma CommitGives(s: State, op: Op)
    requires op in s.ops && Transact(s.tables, op).Ok?
    ensures Next(s, Commit(op)).tables == Transact(s.tables, op).value
  {
  }

  lemma KeptAfter(s: State, events: seq<Event>, e: Event, later: seq<Event>, op: Op)
    requires Initial(s)
    ensures Inv(After(s, events, e, later, op))
  {
    Reached(s, events);
    AlwaysKept(Run(s, events), e, later, op);
  }

  lemma CommittingAssign(s: State, events: seq<Event>, e: Event, later: seq<Event>, op: Op)
    requires op.Assigning? && Commits(s, events, e, later, op)
    ensures var t := Met(s, events, e, later).tables;
      && op.cid in t.claims && t.claims[op.cid] == op.claimSeen && op.rid !in t.reviews
      && After(s, events, e, later, op).tables
         == t.(reviews := t.reviews[op.rid := op.review], claims := t.claims[op.cid := op.claim])
  {
    Arriving(s, events, e, later, op);
    AssignWrites(Met(s, events, e, later), op);
  }

  lemma AssignWrites(s: State, op: Op)
    requires Inv(s) && op in s.ops && op.Assigning? && Transact(s.tables, op).Ok?
    ensures s.tables.claims[op.cid] == op.claimSeen && op.rid !in s.tables.reviews
    ensures Transact(s.tables, op).value
         == s.tables.(reviews := s.tables.reviews[op.rid := op.review], claims := s.tables.claims[op.cid := op.claim])
  {
    assert OpOk(s.tables, op);
  }

  lemma CommittingDispute(s: State, events: seq<Event>, e: Event, later: seq<Event>, op: Op)
    requires op.Disputing? && Commits(s, events, e, later, op)
    ensures var t := Met(s, events, e, later).tables;
      && op.cid in t.claims && t.claims[op.cid] == op.claimSeen && op.did !in t.disputes
      && After(s, events, e, later, op).tables
         == t.(claims := t.claims[op.cid := op.claim], disputes := t.disputes[op.did := op.dispute])
  {
    Arriving(s, events, e, later, op);
    DisputeWrites(Met(s, events, e, later), op);
  }

  lemma DisputeWrites(s: State, op: Op)
    requires Inv(s) && op in s.ops && op.Disputing? && Transact(s.tables, op).Ok?
    ensures s.tables.claims[op.cid] == op.claimSeen && op.did !in s.tables.disputes
    ensures Transact(s.tables, op).value
         == s.tables.(claims := s.tables.claims[op.cid := op.claim], disputes := s.tables.disputes[op.did := op.dispute])
  {
    assert OpOk(s.tables, op);
    DisputeCurrent(s.tables, op);
  }

  lemma CommittingDecide(s: State, events: seq<Event>, e: Event, later: seq<Event>, op: Op)
    requires op.Deciding? && Commits(s, events, e, later, op)
    ensures var t := Met(s, events, e, later).tables;
      && op.rid in t.reviews && t.reviews[op.rid] == op.seen && op.cid in t.claims && t.claims[op.cid] == op.claimSeen
      && op.did !in t.decisions
      && After(s, events, e, later, op).tables
         == t.(reviews := t.reviews[op.rid := op.review], claims := t.claims[op.cid := op.claim],
               decisions := t.decisions[op.did := op.decision])
  {
    Arriving(s, events, e, later, op);
    DecideWrites(Met(s, events, e, later), op);
  }

  lemma DecideWrites(s: State, op: Op)
    requires Inv(s) && op in s.ops && op.Deciding? && Transact(s.tables, op).Ok?
    ensures s.tables.reviews[op.rid] == op.seen && s.tables.claims[op.cid] == op.claimSeen && op.did !in s.tables.decisions
    ensures Transact(s.tables, op).value
         == s.tables.(reviews := s.tables.reviews[op.rid := op.review], claims := s.tables.claims[op.cid := op.claim],
                      decisions := s.tables.decisions[op.did := op.decision])
  {
    assert OpOk(s.tables, op);
    DecideCurrent(s.tables, op);
  }

  lemma CommittingLease(s: State, events: seq<Event>, e: Event, later: seq<Event>, op: Op)
    requires (op.Claiming? || op.Renewing?) && Commits(s, events, e, later, op)
    ensures var t := Met(s, events, e, later).tables;
      && op.rid in t.reviews && t.reviews[op.rid] == op.seen
      && After(s, events, e, later, op).tables == t.(reviews := t.reviews[op.rid := op.review])
  {
    Arriving(s, events, e, later, op);
    LeaseSeen(Met(s, events, e, later), op);
    LeaseWrites(Met(s, events, e, later).tables, op);
  }

  lemma LeaseSeen(s: State, op: Op)
    requires Inv(s) && op in s.ops && (op.Claiming? || op.Renewing?)
    ensures SeenReview(s.tables, op.rid, op.seen)
  {
    assert OpOk(s.tables, op);
  }

  lemma LeaseWrites(t: Tables, op: Op)
    requires (op.Claiming? || op.Renewing?) && SeenReview(t, op.rid, op.seen) && Transact(t, op).Ok?
    ensures t.reviews[op.rid] == op.seen
    ensures Transact(t, op).value == t.(reviews := t.reviews[op.rid := op.review])
  {
  }

  // ---------- Assign

  /** A review is assigned to whom it was asked for, on the claim it was asked for, and nothing else
      changes. */
  lemma AssignedAsAsked(s: State, events: seq<Event>, e: Event, later: seq<Event>, op: Op)
    requires e.BeginAssign? && Commits(s, events, e, later, op)
    ensures e.mayReview && e.reviewer != e.claimSeen.author
    ensures var t, t' := Met(s, events, e, later).tables, After(s, events, e, later, op).tables;
      && e.cid in t.claims && t.claims[e.cid] == e.claimSeen && e.claimSeen.state in {Pending, ClaimState.Disputed}
      && e.rid !in t.reviews
      && t' == t.(
           claims := t.claims[e.cid := ClaimRow(e.claimSeen.author, Assigned, e.rid, e.claimSeen.version + 1)],
           reviews := t.reviews[e.rid := ReviewRow(e.cid, e.claimSeen.author, e.reviewer, Queued, NO_ID, 0, ZERO_TIME, 0, 1)])
  {
    AssignBegun(Run(s, events), e, op);
    CommittingAssign(s, events, e, later, op);
  }

  lemma AssignBegun(s: State, e: Event, op: Op)
    requires e.BeginAssign? && Begin(s, e) == Some(op)
    ensures e.mayReview && e.reviewer != e.claimSeen.author && e.claimSeen.state in {Pending, ClaimState.Disputed}
    ensures op == Assigning(e.cid, e.claimSeen, ClaimRow(e.claimSeen.author, Assigned, e.rid, e.claimSeen.version + 1),
                            e.rid, ReviewRow(e.cid, e.claimSeen.author, e.reviewer, Queued, NO_ID, 0, ZERO_TIME, 0, 1))
  {
  }

  // ---------- Leases

  /** What a row says about its lease: who holds it, under which token, until when. */
  ghost predicate Leases(r: ReviewRow, owner: Id, token: int, until: Instant) {
    r.state == Leased && r.leaseOwner == owner && r.leaseToken == token && r.leaseUntil == until
  }

  /** The same review at the next version, under a lease. */
  function UnderLease(r: ReviewRow, owner: Id, token: int, until: Instant, attempt: int): ReviewRow {
    ReviewRow(r.claim, r.author, r.reviewer, Leased, owner, token, until, attempt, r.version + 1)
  }

  /** A lease claim that commits was asked for by the review's own reviewer, when nobody held an unexpired
      lease, and grants a lease of the length asked for from the clock reading on, under the next token. */
  lemma ClaimGrantsALease(s: State, events: seq<Event>, e: Event, later: seq<Event>, op: Op)
    requires e.BeginClaim? && Commits(s, events, e, later, op)
    ensures e.actor == e.seen.reviewer && e.owner != NO_ID && e.ttl > 0
    ensures var t, t', at := Met(s, events, e, later).tables, After(s, events, e, later, op).tables, Run(s, events).now;
      && e.rid in t.reviews && t.reviews[e.rid] == e.seen && e.seen.state in {Queued, Leased, ReviewState.Expired}
      && (e.seen.state == Leased ==> e.seen.leaseUntil <= at)
      && t' == t.(reviews := t.reviews[e.rid :=
                    UnderLease(e.seen, e.owner, e.seen.leaseToken + 1, at + e.ttl, e.seen.attempt + 1)])
  {
    ClaimBegun(Run(s, events), e, op);
    CommittingLease(s, events, e, later, op);
  }

  lemma ClaimBegun(s: State, e: Event, op: Op)
    requires e.BeginClaim? && Begin(s, e) == Some(op)
    ensures e.actor == e.seen.reviewer && e.owner != NO_ID && e.ttl > 0
    ensures e.seen.state == Leased ==> e.seen.leaseUntil <= s.now
    ensures op == Claiming(e.rid, e.seen, UnderLease(e.seen, e.owner, e.seen.leaseToken + 1, s.now + e.ttl,
                                                     e.seen.attempt + 1), s.now)
    ensures e.seen.state in {Queued, Leased, ReviewState.Expired}
  {
  }

  /** A renewal that commits was asked for by the review's own reviewer with the newest owner and token
      while the lease ran, and makes it last for the length asked for from the clock reading on. */
  lemma RenewExtendsTheLease(s: State, events: seq<Event>, e: Event, later: seq<Event>, op: Op)
    requires e.BeginRenew? && Commits(s, events, e, later, op)
    ensures e.actor == e.seen.reviewer
    ensures var t, t', at := Met(s, events, e, later).tables, After(s, events, e, later, op).tables, Run(s, events).now;
      && e.rid in t.reviews && t.reviews[e.rid] == e.seen
      && Leases(e.seen, e.owner, e.token, e.seen.leaseUntil) && at < e.seen.leaseUntil
      && t' == t.(reviews := t.reviews[e.rid := UnderLease(e.seen, e.owner, e.token, at + e.ttl, e.seen.attempt)])
  {
    RenewBegun(Run(s, events), e, op);
    CommittingLease(s, events, e, later, op);
  }

  lemma RenewBegun(s: State, e: Event, op: Op)
    requires e.BeginRenew? && Begin(s, e) == Some(op)
    ensures e.actor == e.seen.reviewer && Leases(e.seen, e.owner, e.token, e.seen.leaseUntil) && s.now < e.seen.leaseUntil
    ensures op == Renewing(e.rid, e.seen, UnderLease(e.seen, e.owner, e.token, s.now + e.ttl, e.seen.attempt), s.now)
  {
  }

  /** While a row stands, its lease can be taken by nobody with a reading before its end, and by anybody,
      on behalf of the reviewer, with a reading from its end on; and its holder, and nobody else, can
      renew it or decide with a reading before its end, and not after. */
  lemma LeaseHoldsUntilItsEnd(r: ReviewRow, owner: Id, token: int, until: Instant,
                              who: Id, byToken: int, ttl: int, at: Instant)
    requires Leases(r, owner, token, until)
    ensures r.Claim(who, ttl, at).Ok? <==> at >= until && who != NO_ID && ttl > 0
    ensures r.Complete(who, byToken, at).Ok? <==> at < until && who == owner && byToken == token
    ensures r.Renew(who, byToken, ttl, at).Ok? <==> at < until && who == owner && byToken == token
  {
  }

  /** Over runs: the row of a lease is first rewritten by a claim whose reading had reached the end of the
      lease, or by a renewal or a decision of its holder whose reading had not. */
  lemma LeaseEndsProperly(s: State, events: seq<Event>, e: Event, rid: Id, owner: Id, token: int, until: Instant)
    requires Initial(s) && rid in Run(s, events).tables.reviews
    requires Leases(Run(s, events).tables.reviews[rid], owner, token, until)
    requires rid in Next(Run(s, events), e).tables.reviews
    requires Next(Run(s, events), e).tables.reviews[rid] != Run(s, events).tables.reviews[rid]
    ensures e.Commit? && (e.op.Claiming? || e.op.Renewing? || e.op.Deciding?) && e.op.rid == rid
    ensures e.op.Claiming? <==> e.op.at >= until
    ensures e.op.Deciding? ==> e.op.owner == owner && e.op.token == token
    ensures e.op.Renewing? ==>
      var r := Next(Run(s, events), e).tables.reviews[rid]; Leases(r, owner, token, r.leaseUntil)
  {
    Reached(s, events);
    assert OpOk(Run(s, events).tables, e.op);
    RewrittenProperly(Run(s, events).tables, e.op, rid, owner, token, until);
  }

  lemma RewrittenProperly(t: Tables, op: Op, rid: Id, owner: Id, token: int, until: Instant)
    requires DisputesOk(t) && OpOk(t, op) && Transact(t, op).Ok?
    requires rid in t.reviews && Leases(t.reviews[rid], owner, token, until)
    requires Transact(t, op).value.reviews[rid] != t.reviews[rid]
    ensures (op.Claiming? || op.Renewing? || op.Deciding?) && op.rid == rid
    ensures op.Claiming? <==> op.at >= until
    ensures op.Deciding? ==> op.owner == owner && op.token == token
    ensures op.Renewing? ==>
      var r := Transact(t, op).value.reviews[rid]; Leases(r, owner, token, r.leaseUntil)
  {
    if op.Resolving? { ResolveNeverCommits(t, op); }
  }

  lemma RowStays(s: State, more: seq<Event>, rid: Id)
    requires Inv(s) && rid in s.tables.reviews && rid in Run(s, more).tables.reviews
    requires Run(s, more).tables.reviews[rid].version == s.tables.reviews[rid].version
    ensures Inv(Run(s, more)) && Run(s, more).tables.reviews[rid] == s.tables.reviews[rid]
  {
    RunKeeps(s, more);
  }

  /** One undisturbed claim: read, compute, commit. */
  function ClaimNow(s: State, rid: Id, owner: Id, ttl: int): State
    requires rid in s.tables.reviews
  {
    var r := s.tables.reviews[rid];
    var s1 := Next(Next(s, ReadReview(rid)), BeginClaim(rid, r, r.reviewer, owner, ttl));
    match r.Claim(owner, ttl, s.now)
    case Ok(row) => Next(s1, Commit(Claiming(rid, r, row, s.now)))
    case Err(_) => s1
  }

  lemma ClaimNowTakes(s: State, rid: Id, owner: Id, ttl: int, holder: Id, token: int, until: Instant)
    requires rid in s.tables.reviews && Leases(s.tables.reviews[rid], holder, token, until)
    requires owner != NO_ID && ttl > 0
    ensures rid in ClaimNow(s, rid, owner, ttl).tables.reviews
    ensures var r := ClaimNow(s, rid, owner, ttl).tables.reviews[rid];
      if s.now >= until then Leases(r, owner, token + 1, s.now + ttl) else r == s.tables.reviews[rid]
  {
  }

  /** The lease of `rid` is `owner`'s until `until`: nobody takes it with a reading before that and anybody
      can from then on; `owner` can decide before that and cannot from then on. */
  ghost predicate Lasts(s: State, rid: Id, owner: Id, token: int, until: Instant) {
    && rid in s.tables.reviews && Leases(s.tables.reviews[rid], owner, token, until)
    && (forall at: Instant :: s.tables.reviews[rid].Complete(owner, token, at).Ok? <==> at < until)
    && (forall at: Instant, who: Id, ttl: int | who != NO_ID && ttl > 0 ::
          s.tables.reviews[rid].Claim(who, ttl, at).Ok? <==> at >= until)
    && (forall who: Id, ttl: int | who != NO_ID && ttl > 0 ::
          && rid in ClaimNow(s, rid, who, ttl).tables.reviews
          && (ClaimNow(s, rid, who, ttl).tables.reviews[rid].leaseToken == token + 1 <==> s.now >= until))
  }

  lemma LeaseLasts(s: State, more: seq<Event>, rid: Id, owner: Id, token: int, until: Instant)
    requires Inv(s) && rid in s.tables.reviews && Leases(s.tables.reviews[rid], owner, token, until)
    requires rid in Run(s, more).tables.reviews
    requires Run(s, more).tables.reviews[rid].version == s.tables.reviews[rid].version
    ensures Lasts(Run(s, more), rid, owner, token, until)
  {
    RowStays(s, more, rid);
    var s3 := Run(s, more);
    forall at: Instant
      ensures s3.tables.reviews[rid].Complete(owner, token, at).Ok? <==> at < until
    {
      LeaseHoldsUntilItsEnd(s3.tables.reviews[rid], owner, token, until, owner, token, 1, at);
    }
    forall at: Instant, who: Id, ttl: int | who != NO_ID && ttl > 0
      ensures s3.tables.reviews[rid].Claim(who, ttl, at).Ok? <==> at >= until
    {
      LeaseHoldsUntilItsEnd(s3.tables.reviews[rid], owner, token, until, who, token, ttl, at);
    }
    forall who: Id, ttl: int | who != NO_ID && ttl > 0
      ensures && rid in ClaimNow(s3, rid, who, ttl).tables.reviews
              && (ClaimNow(s3, rid, who, ttl).tables.reviews[rid].leaseToken == token + 1 <==> s3.now >= until)
    {
      ClaimNowTakes(s3, rid, who, ttl, owner, token, until);
    }
  }

  lemma RenewedRow(s: State, events: seq<Event>, e: Event, later: seq<Event>, op: Op)
    requires e.BeginRenew? && Commits(s, events, e, later, op)
    ensures var s2 := After(s, events, e, later, op);
      && e.rid in s2.tables.reviews && s2.tables.reviews[e.rid].version == e.seen.version + 1
      && Leases(s2.tables.reviews[e.rid], e.owner, e.token, Run(s, events).now + e.ttl)
  {
    RenewExtendsTheLease(s, events, e, later, op);
  }

  /** Over runs, after a committed renewal: as long as the row has not been rewritten, the lease lasts until
      the reading plus the length asked for. */
  lemma RenewedLeaseLasts(s: State, events: seq<Event>, e: Event, later: seq<Event>, op: Op, more: seq<Event>)
    requires e.BeginRenew? && Commits(s, events, e, later, op)
    requires var t := Run(After(s, events, e, later, op), more).tables;
      e.rid in t.reviews && t.reviews[e.rid].version == e.seen.version + 1
    ensures Lasts(Run(After(s, events, e, later, op), more), e.rid, e.owner, e.token, Run(s, events).now + e.ttl)
  {
    RenewedRow(s, events, e, later, op);
    KeptAfter(s, events, e, later, op);
    LeaseLasts(After(s, events, e, later, op), more, e.rid, e.owner, e.token, Run(s, events).now + e.ttl);
  }

  lemma GrantedRow(s: State, events: seq<Event>, e: Event, later: seq<Event>, op: Op)
    requires e.BeginClaim? && Commits(s, events, e, later, op)
    ensures var s2 := After(s, events, e, later, op);
      && e.rid in s2.tables.reviews && s2.tables.reviews[e.rid].version == e.seen.version + 1
      && Leases(s2.tables.reviews[e.rid], e.owner, e.seen.leaseToken + 1, Run(s, events).now + e.ttl)
  {
    ClaimGrantsALease(s, events, e, later, op);
  }

  /** The same for the lease that a claim grants. */
  lemma GrantedLeaseLasts(s: State, events: seq<Event>, e: Event, later: seq<Event>, op: Op, more: seq<Event>)
    requires e.BeginClaim? && Commits(s, events, e, later, op)
    requires var t := Run(After(s, events, e, later, op), more).tables;
      e.rid in t.reviews && t.reviews[e.rid].version == e.seen.version + 1
    ensures Lasts(Run(After(s, events, e, later, op), more), e.rid, e.owner, e.seen.leaseToken + 1, Run(s, events).now + e.ttl)
  {
    GrantedRow(s, events, e, later, op);
    KeptAfter(s, events, e, later, op);
    LeaseLasts(After(s, events, e, later, op), more, e.rid, e.owner, e.seen.leaseToken + 1, Run(s, events).now + e.ttl);
  }

  // ---------- Decide

  /** A decision that commits was made by the review's own reviewer with the newest owner and token, and
      stores the outcome asked for in the decision row and in the claim, and touches nothing else. */
  lemma DecidedAsAsked(s: State, events: seq<Event>, e: Event, later: seq<Event>, op: Op)
    requires e.BeginDecide? && Commits(s, events, e, later, op)
    ensures e.actor == e.seen.reviewer && Run(s, events).now < e.seen.leaseUntil
    ensures Leases(e.seen, e.owner, e.token, e.seen.leaseUntil)
    ensures var t, t', cid := Met(s, events, e, later).tables, After(s, events, e, later, op).tables, e.seen.claim;
      && e.rid in t.reviews && t.reviews[e.rid] == e.seen
      && cid in t.claims && t.claims[cid] == e.claimSeen && e.claimSeen.state == Assigned && e.claimSeen.review == e.rid
      && e.did !in t.decisions
      && t' == t.(
           reviews := t.reviews[e.rid := ReviewRow(
             cid, e.seen.author, e.seen.reviewer, Decided, NO_ID, e.token, ZERO_TIME, e.seen.attempt, e.seen.version + 1)],
           claims := t.claims[cid := ClaimRow(
             e.claimSeen.author, if e.accepted then Verified else Rejected, e.rid, e.claimSeen.version + 1)],
           decisions := t.decisions[e.did := DecisionRow(e.rid, cid, e.actor, e.accepted)])
  {
    DecideBegun(Run(s, events), e, op);
    CommittingDecide(s, events, e, later, op);
  }

  lemma DecideBegun(s: State, e: Event, op: Op)
    requires e.BeginDecide? && Begin(s, e) == Some(op)
    ensures e.actor == e.seen.reviewer && s.now < e.seen.leaseUntil && Leases(e.seen, e.owner, e.token, e.seen.leaseUntil)
    ensures e.claimSeen.state == Assigned && e.claimSeen.review == e.rid
    ensures op == Deciding(
              e.rid, e.seen,
              ReviewRow(e.seen.claim, e.seen.author, e.seen.reviewer, Decided, NO_ID, e.token, ZERO_TIME,
                        e.seen.attempt, e.seen.version + 1),
              e.seen.claim, e.claimSeen,
              ClaimRow(e.claimSeen.author, if e.accepted then Verified else Rejected, e.rid, e.claimSeen.version + 1),
              e.did, DecisionRow(e.rid, e.seen.claim, e.actor, e.accepted), e.owner, e.token, s.now)
  {
  }

  // ---------- Dispute

  /** A dispute that commits was opened by the claim's own author against a rejection, and touches nothing
      else. */
  lemma DisputedAsAsked(s: State, events: seq<Event>, e: Event, later: seq<Event>, op: Op)
    requires e.BeginDispute? && Commits(s, events, e, later, op)
    ensures e.actor == e.claimSeen.author && e.claimSeen.state == Rejected
    ensures var t, t' := Met(s, events, e, later).tables, After(s, events, e, later, op).tables;
      && e.cid in t.claims && t.claims[e.cid] == e.claimSeen && e.did !in t.disputes
      && t' == t.(
           claims := t.claims[e.cid := ClaimRow(e.claimSeen.author, ClaimState.Disputed, NO_ID, e.claimSeen.version + 1)],
           disputes := t.disputes[e.did := DisputeRow(e.cid, e.actor, Open, NO_ID, 1)])
  {
    DisputeBegun(Run(s, events), e, op);
    CommittingDispute(s, events, e, later, op);
  }

  lemma DisputeBegun(s: State, e: Event, op: Op)
    requires e.BeginDispute? && Begin(s, e) == Some(op)
    ensures e.actor == e.claimSeen.author && e.claimSeen.state == Rejected
    ensures op == Disputing(e.cid, e.claimSeen, ClaimRow(e.claimSeen.author, ClaimState.Disputed, NO_ID, e.claimSeen.version + 1),
                            e.did, DisputeRow(e.cid, e.actor, Open, NO_ID, 1))
  {
  }

  // ---------- What is computed when

  /** The calls that compute something, told by the rows they hold and their request. */
  lemma ReviewCallsAreAcceptedExactlyWhen(s: State, e: Event)
    requires e.BeginClaim? || e.BeginRenew? ==> HoldingReview(e.rid, e.seen) in s.ops
    requires e.BeginDecide? ==> HoldingReview(e.rid, e.seen) in s.ops && HoldingClaim(e.seen.claim, e.claimSeen) in s.ops
    requires e.BeginAssign? || e.BeginDispute? ==> HoldingClaim(e.cid, e.claimSeen) in s.ops
    ensures e.BeginAssign? ==> (Begin(s, e).Some? <==>
              && e.mayReview && e.reviewer != e.claimSeen.author && e.claimSeen.state in {Pending, ClaimState.Disputed}
              && 0 !in [e.rid, e.cid, e.claimSeen.author, e.reviewer])
    ensures e.BeginClaim? ==> (Begin(s, e).Some? <==>
              && e.actor == e.seen.reviewer && e.owner != NO_ID && e.ttl > 0
              && (e.seen.state in {Queued, ReviewState.Expired} || (e.seen.state == Leased && e.seen.leaseUntil <= s.now)))
    ensures e.BeginRenew? ==> (Begin(s, e).Some? <==>
              e.actor == e.seen.reviewer && Leases(e.seen, e.owner, e.token, e.seen.leaseUntil) && s.now < e.seen.leaseUntil)
    ensures e.BeginDecide? ==> (Begin(s, e).Some? <==>
              && e.actor == e.seen.reviewer && Leases(e.seen, e.owner, e.token, e.seen.leaseUntil) && s.now < e.seen.leaseUntil
              && e.claimSeen.state == Assigned && e.claimSeen.review == e.rid)
    ensures e.BeginDispute? ==> (Begin(s, e).Some? <==>
              e.actor == e.claimSeen.author && e.claimSeen.state == Rejected)
  {
  }

  /** The dispute rows of the resolution that never commits: resolved only by the one it was assigned to,
      who is not the one who opened it, with the outcome asked for. */
  lemma ResolvedByAnother(d: DisputeRow, who: Id, judge: Id, uphold: bool)
    requires d.Assign(who).Ok? && d.Assign(who).value.Resolve(uphold, judge).Ok?
    ensures d.state == Open && judge == who != d.openedBy && who != NO_ID
    ensures d.Assign(who).value.Resolve(uphold, judge).value
         == DisputeRow(d.claim, d.openedBy, if uphold then Upheld else Denied, who, d.version + 2)
  {
  }
}
