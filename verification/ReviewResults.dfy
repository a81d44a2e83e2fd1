/** The review services: main results, for every run. */
module ReviewResults {
  import opened Prelude
  import opened Versions
  import opened ReviewDomain
  import opened ReviewProtocol
  import opened ReviewSafety

  /** The fencing token is the attempt count and the number of committed lease claims. */
  lemma TokenCountsClaims(s: State, events: seq<Event>, rid: Id)
    requires Initial(s) && rid in Run(s, events).tables.reviews
    ensures var r := Run(s, events).tables.reviews[rid];
      r.leaseToken == r.attempt == Takes(Run(s, events).history, rid)
  {
    Reached(s, events);
    assert ReviewOk(Run(s, events).tables, Run(s, events).history, rid);
  }

  /** Whatever an operation in flight has seen, and however late it commits: every row its
      transaction overwrites is still the row it saw. */
  lemma CommitOverwritesOnlySeenRows(s: State, events: seq<Event>, op: Op)
    requires Initial(s)
    requires op in Run(s, events).ops && Transact(Run(s, events).tables, op).Ok?
    ensures var t := Run(s, events).tables;
      && (op.Assigning? ==> op.cid in t.claims && t.claims[op.cid] == op.claimSeen && op.rid !in t.reviews)
      && (op.Claiming? ==> op.rid in t.reviews && t.reviews[op.rid] == op.seen)
      && (op.Renewing? ==> op.rid in t.reviews && t.reviews[op.rid] == op.seen)
      && (op.Deciding? ==> op.rid in t.reviews && t.reviews[op.rid] == op.seen
                           && op.cid in t.claims && t.claims[op.cid] == op.claimSeen)
      && (op.Disputing? ==> op.cid in t.claims && t.claims[op.cid] == op.claimSeen)
      && !op.Resolving?
  {
    Reached(s, events);
    var t := Run(s, events).tables;
    assert OpOk(t, op);
    if op.Resolving? {
      ResolveNeverCommits(t, op);
    }
  }

  /** No ABA: a snapshot with the version of the stored row is the stored row. */
  lemma SameVersionIsSameRow(s: State, events: seq<Event>, op: Op)
    requires Initial(s) && op in Run(s, events).ops
    ensures var t := Run(s, events).tables;
      && (op.HoldingReview? || op.Claiming? || op.Renewing? || op.Deciding? ==>
            op.rid in t.reviews
            && (t.reviews[op.rid].version == op.seen.version ==> t.reviews[op.rid] == op.seen))
      && (op.HoldingClaim? || op.Assigning? || op.Deciding? || op.Disputing? ==>
            op.cid in t.claims
            && (t.claims[op.cid].version == op.claimSeen.version ==> t.claims[op.cid] == op.claimSeen))
  {
    Reached(s, events);
    assert OpOk(Run(s, events).tables, op);
  }

  lemma UnchangedCommits(t: Tables, history: seq<(Id, int)>, op: Op)
    requires TablesOk(t, history) && OpOk(t, op) && (op.Claiming? || op.Renewing? || op.Deciding?)
    requires op.rid in t.reviews && t.reviews[op.rid] == op.seen
    requires op.Deciding? ==> op.cid in t.claims && t.claims[op.cid] == op.claimSeen && op.did !in t.decisions
    ensures Transact(t, op).Ok?
  {
    if op.Deciding? { UndecidedHasNoDecision(t, op.rid); }
  }

  lemma UndecidedHasNoDecision(t: Tables, rid: Id)
    requires DecisionsOk(t) && rid in t.reviews && t.reviews[rid].state != Decided
    ensures forall d | d in t.decisions :: t.decisions[d].review != rid
  {
    forall d | d in t.decisions
      ensures t.decisions[d].review != rid
    {
      assert DecisionOk(t, d);
    }
  }

  /** A lease claim or a renewal commits exactly when the review has not changed, and a decision exactly
      when neither review nor claim has and its own id is new. */
  lemma CommitsExactlyWhenUnchanged(s: State, events: seq<Event>, op: Op)
    requires Initial(s) && op in Run(s, events).ops && (op.Claiming? || op.Renewing? || op.Deciding?)
    ensures var t := Run(s, events).tables;
      Transact(t, op).Ok? <==>
        && op.rid in t.reviews && t.reviews[op.rid] == op.seen
        && (op.Deciding? ==> op.cid in t.claims && t.claims[op.cid] == op.claimSeen && op.did !in t.decisions)
  {
    Reached(s, events);
    var s1 := Run(s, events);
    assert OpOk(s1.tables, op);
    if op.Deciding? && Transact(s1.tables, op).Ok? {
      DecideCurrent(s1.tables, op);
    }
    if op.rid in s1.tables.reviews && s1.tables.reviews[op.rid] == op.seen
       && (op.Deciding? ==> op.cid in s1.tables.claims && s1.tables.claims[op.cid] == op.claimSeen
                            && op.did !in s1.tables.decisions) {
      UnchangedCommits(s1.tables, s1.history, op);
    }
  }

  /** A review is assigned exactly when the claim has not changed, the review's id is new and the
      reviewer has had no review of this claim. */
  lemma AssignCommitsExactlyOnce(s: State, events: seq<Event>, op: Op)
    requires Initial(s) && op in Run(s, events).ops && op.Assigning?
    ensures var t := Run(s, events).tables;
      Transact(t, op).Ok? <==>
        && op.cid in t.claims && t.claims[op.cid] == op.claimSeen && op.rid !in t.reviews
        && forall k | k in t.reviews && t.reviews[k].claim == op.cid :: t.reviews[k].reviewer != op.review.reviewer
  {
    Reached(s, events);
    assert OpOk(Run(s, events).tables, op);
  }

  /** A dispute is opened exactly when the claim has not changed since its first rejection and the
      dispute's id is new; a second rejection is final. */
  lemma OnlyTheFirstRejectionIsDisputed(s: State, events: seq<Event>, op: Op)
    requires Initial(s) && op in Run(s, events).ops && op.Disputing?
    ensures var t := Run(s, events).tables;
      Transact(t, op).Ok? <==>
        && op.cid in t.claims && t.claims[op.cid] == op.claimSeen && op.claimSeen.version == 3
        && op.did !in t.disputes
  {
    Reached(s, events);
    var t := Run(s, events).tables;
    assert OpOk(t, op);
    assert ClaimOk(t, op.cid);
  }

  lemma LeaseChangesHands(t: Tables, op: Op, rid: Id)
    requires DisputesOk(t) && OpOk(t, op) && Transact(t, op).Ok?
    requires rid in t.reviews && t.reviews[rid].state == Leased
    requires Transact(t, op).value.reviews[rid].leaseToken != t.reviews[rid].leaseToken
    ensures op.Claiming? && op.rid == rid && t.reviews[rid] == op.seen && t.reviews[rid].leaseUntil <= op.at
    ensures Transact(t, op).value.reviews[rid].leaseToken == t.reviews[rid].leaseToken + 1
  {
    if op.Resolving? {
      ResolveNeverCommits(t, op);
    }
  }

  /** A held lease changes hands only by a claim whose clock reading had reached the lease's end. */
  lemma TakeoverOnlyAfterExpiry(s: State, events: seq<Event>, e: Event, rid: Id)
    requires Initial(s) && rid in Run(s, events).tables.reviews
    requires Run(s, events).tables.reviews[rid].state == Leased
    requires rid in Next(Run(s, events), e).tables.reviews
    requires Next(Run(s, events), e).tables.reviews[rid].leaseToken != Run(s, events).tables.reviews[rid].leaseToken
    ensures e.Commit? && e.op.Claiming? && e.op.rid == rid
    ensures Run(s, events).tables.reviews[rid].leaseUntil <= e.op.at <= Run(s, events).now
    ensures Next(Run(s, events), e).tables.reviews[rid].leaseToken == Run(s, events).tables.reviews[rid].leaseToken + 1
  {
    Reached(s, events);
    var s1 := Run(s, events);
    LeaseChangesHands(s1.tables, e.op, rid);
  }

  lemma DecisionByHolder(t: Tables, op: Op, rid: Id)
    requires DisputesOk(t) && OpOk(t, op) && Transact(t, op).Ok?
    requires rid in t.reviews && t.reviews[rid].state != Decided
    requires Transact(t, op).value.reviews[rid].state == Decided
    ensures op.Deciding? && op.rid == rid
    ensures t.reviews[rid].state == Leased && op.at < t.reviews[rid].leaseUntil
    ensures op.owner == t.reviews[rid].leaseOwner && op.token == t.reviews[rid].leaseToken
    ensures op.decision.reviewer == t.reviews[rid].reviewer
    ensures op.did !in t.decisions && Transact(t, op).value.decisions == t.decisions[op.did := op.decision]
  {
    if op.Resolving? {
      ResolveNeverCommits(t, op);
    }
  }

  /** A review is decided only by the holder of its newest token, who held the lease when the
      decision was computed; that holds even when the commit lands after the lease has run out. */
  lemma OnlyTheNewestHolderDecides(s: State, events: seq<Event>, e: Event, rid: Id)
    requires Initial(s) && rid in Run(s, events).tables.reviews
    requires rid in Next(Run(s, events), e).tables.reviews
    requires Run(s, events).tables.reviews[rid].state != Decided
    requires Next(Run(s, events), e).tables.reviews[rid].state == Decided
    ensures e.Commit? && e.op.Deciding? && e.op.rid == rid
    ensures var r := Run(s, events).tables.reviews[rid];
      && r.state == Leased && e.op.owner == r.leaseOwner && e.op.token == Takes(Run(s, events).history, rid)
      && e.op.at < r.leaseUntil && e.op.decision.reviewer == r.reviewer
  {
    Reached(s, events);
    var s1 := Run(s, events);
    DecisionByHolder(s1.tables, e.op, rid);
    assert ReviewOk(s1.tables, s1.history, rid);
  }

  /** Decision rows and decided reviews correspond one to one. */
  lemma DecisionsAreDecidedReviews(s: State, events: seq<Event>, rid: Id)
    requires Initial(s) && rid in Run(s, events).tables.reviews
    ensures var t := Run(s, events).tables;
      var mine := set d | d in t.decisions && t.decisions[d].review == rid;
      |mine| == if t.reviews[rid].state == Decided then 1 else 0
  {
    Reached(s, events);
    var t := Run(s, events).tables;
    var mine := set d | d in t.decisions && t.decisions[d].review == rid;
    if d :| d in mine {
      assert DecisionOk(t, d);
      assert mine == {d};
    }
    if t.reviews[rid].state == Decided {
      var d :| d in t.decisions && t.decisions[d].review == rid;
      assert d in mine;
    }
  }

  /** A claim's version never exceeds 6, and it gets at most two decisions. */
  lemma ClaimHistoryBound(s: State, events: seq<Event>, cid: Id)
    requires Initial(s) && cid in Run(s, events).tables.claims
    ensures Run(s, events).tables.claims[cid].version <= 6
    ensures |DecisionsOn(Run(s, events).tables.decisions, cid)| <= 2
  {
    Reached(s, events);
    assert ClaimOk(Run(s, events).tables, cid);
  }

  /** No decision is the author's own, and two decisions on one claim come from different reviewers. */
  lemma DecisionsAreIndependent(s: State, events: seq<Event>, d: Id, other: Id)
    requires Initial(s) && d in Run(s, events).tables.decisions
    ensures var t := Run(s, events).tables;
      && t.decisions[d].claim in t.claims
      && t.decisions[d].reviewer != t.claims[t.decisions[d].claim].author
      && (other in t.decisions && other != d && t.decisions[other].claim == t.decisions[d].claim ==>
            t.decisions[other].reviewer != t.decisions[d].reviewer)
  {
    Reached(s, events);
    var t := Run(s, events).tables;
    assert DecisionOk(t, d);
    assert ReviewOk(t, Run(s, events).history, t.decisions[d].review);
    if other in t.decisions {
      assert DecisionOk(t, other);
    }
  }

  /** A verified or rejected claim names a decided review, and that review's recorded outcome is the
      claim's state. */
  lemma ClaimStateIsTheRecordedOutcome(s: State, events: seq<Event>, cid: Id)
    requires Initial(s) && cid in Run(s, events).tables.claims
    requires Run(s, events).tables.claims[cid].state in {Verified, Rejected}
    ensures var t := Run(s, events).tables;
      var x := t.claims[cid];
      && x.review in t.reviews && t.reviews[x.review].claim == cid && t.reviews[x.review].state == Decided
      && exists d :: d in t.decisions && t.decisions[d].review == x.review && t.decisions[d].claim == cid
                     && (t.decisions[d].accepted <==> x.state == Verified)
  {
    Reached(s, events);
    var t := Run(s, events).tables;
    assert ClaimOk(t, cid);
    var d :| d in t.decisions && t.decisions[d].review == t.claims[cid].review;
    assert DecisionOk(t, d);
  }

  /** README.md:39 promises a dispute process, but no stored dispute ever leaves its first row, and
      no claim is ever resolved: ResolveDispute expects the version of its own in-memory
      assignment, which was never stored. */
  lemma DisputesStayOpen(s: State, events: seq<Event>)
    requires Initial(s)
    ensures var t := Run(s, events).tables;
      && (forall d | d in t.disputes :: t.disputes[d].state == Open && t.disputes[d].version == 1)
      && (forall cid | cid in t.claims :: t.claims[cid].state != Resolved)
  {
    Reached(s, events);
    var t := Run(s, events).tables;
    forall cid | cid in t.claims
      ensures t.claims[cid].state != Resolved
    {
      assert ClaimOk(t, cid);
    }
  }

  /** A review whose lease has run out can always be claimed again, by any owner; a review can be
      claimed at all exactly when it is undecided and not under an unexpired lease. */
  lemma ExpiredReviewIsClaimable(s: State, events: seq<Event>, rid: Id, owner: Id, ttl: int, now: Instant)
    requires Initial(s) && rid in Run(s, events).tables.reviews && owner != NO_ID && ttl > 0
    ensures var r := Run(s, events).tables.reviews[rid];
      r.Claim(owner, ttl, now).Ok? <==> r.state != Decided && (r.state == Leased ==> r.leaseUntil <= now)
  {
    Reached(s, events);
    assert ReviewOk(Run(s, events).tables, Run(s, events).history, rid);
  }
}
