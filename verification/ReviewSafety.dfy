/** What every run of the review protocol keeps. */
module ReviewSafety {
  import opened Prelude
  import opened Versions
  import opened ReviewDomain
  import opened ReviewProtocol

  /** How often review `rid` was claimed. */
  function Takes(history: seq<(Id, int)>, rid: Id): nat {
    if history == [] then 0
    else Takes(history[..|history| - 1], rid) + if history[|history| - 1].0 == rid then 1 else 0
  }

  function DecisionsOn(decisions: map<Id, DecisionRow>, cid: Id): set<Id> {
    set d | d in decisions && decisions[d].claim == cid
  }

  ghost predicate IsDisputed(disputes: map<Id, DisputeRow>, cid: Id) {
    exists d :: d in disputes && disputes[d].claim == cid
  }

  // ---------- The invariant

  ghost predicate ReviewOk(t: Tables, history: seq<(Id, int)>, rid: Id)
    requires rid in t.reviews
  {
    var r := t.reviews[rid];
    && rid != NO_ID
    && r.claim in t.claims && r.author == t.claims[r.claim].author && r.reviewer != r.author
    && r.leaseToken == r.attempt == Takes(history, rid)
    && r.state in {Queued, Leased, Decided}
    && (r.state == Leased <==> r.leaseOwner != NO_ID)
  }

  ghost predicate ReviewsOk(t: Tables, history: seq<(Id, int)>) {
    && (forall rid | rid in t.reviews :: ReviewOk(t, history, rid))
    && (forall i | 0 <= i < |history| :: history[i].0 in t.reviews)
    && (forall i, j | i in t.reviews && j in t.reviews && i != j ::
          t.reviews[i].claim != t.reviews[j].claim || t.reviews[i].reviewer != t.reviews[j].reviewer)
  }

  ghost predicate DecisionOk(t: Tables, d: Id)
    requires d in t.decisions
  {
    var x := t.decisions[d];
    && x.review in t.reviews && t.reviews[x.review].state == Decided
    && x.claim == t.reviews[x.review].claim && x.reviewer == t.reviews[x.review].reviewer
  }

  ghost predicate DecisionsOk(t: Tables) {
    && (forall d | d in t.decisions :: DecisionOk(t, d))
    && (forall i, j | i in t.decisions && j in t.decisions && i != j ::
          t.decisions[i].review != t.decisions[j].review)
    && (forall rid | rid in t.reviews && t.reviews[rid].state == Decided ::
          exists d :: d in t.decisions && t.decisions[d].review == rid)
  }

  /** The claim's current review is one of its own. */
  ghost predicate CurrentReview(t: Tables, cid: Id)
    requires cid in t.claims
  {
    t.claims[cid].review in t.reviews && t.reviews[t.claims[cid].review].claim == cid
  }

  ghost predicate ClaimOk(t: Tables, cid: Id)
    requires cid in t.claims
  {
    var x, n, disputed := t.claims[cid], |DecisionsOn(t.decisions, cid)|, IsDisputed(t.disputes, cid);
    match x.state
    case Pending => x.version == 1 && n == 0 && !disputed
    case Assigned =>
      && CurrentReview(t, cid) && t.reviews[x.review].state != Decided
      && (if disputed then x.version == 5 && n == 1 else x.version == 2 && n == 0)
    case Disputed => x.version == 4 && n == 1 && disputed
    case Resolved => false
    case _ =>
      && CurrentReview(t, cid) && t.reviews[x.review].state == Decided
      && (forall d | d in t.decisions && t.decisions[d].review == x.review ::
            t.decisions[d].accepted <==> x.state == Verified)
      && (if disputed then x.version == 6 && n == 2 else x.version == 3 && n == 1)
  }

  ghost predicate ClaimsOk(t: Tables) {
    NO_ID !in t.claims && forall cid | cid in t.claims :: ClaimOk(t, cid)
  }

  ghost predicate DisputesOk(t: Tables) {
    && (forall d | d in t.disputes ::
          t.disputes[d].state == Open && t.disputes[d].version == 1 && t.disputes[d].claim in t.claims)
    && (forall i, j | i in t.disputes && j in t.disputes && i != j :: t.disputes[i].claim != t.disputes[j].claim)
  }

  ghost predicate TablesOk(t: Tables, history: seq<(Id, int)>) {
    ReviewsOk(t, history) && DecisionsOk(t) && ClaimsOk(t) && DisputesOk(t)
  }

  ghost predicate SeenClaim(t: Tables, cid: Id, seen: ClaimRow) { Snapshot(ClaimVersion, t.claims, cid, seen) }

  ghost predicate SeenReview(t: Tables, rid: Id, seen: ReviewRow) { Snapshot(ReviewVersion, t.reviews, rid, seen) }

  ghost predicate OpOk(t: Tables, op: Op) {
    match op
    case Assigning(cid, claimSeen, claim, rid, review) =>
      && SeenClaim(t, cid, claimSeen) && claimSeen.Assign(rid) == Ok(claim)
      && NewReview(rid, cid, claimSeen.author, review.reviewer) == Ok(review)
    case Claiming(rid, seen, review, at) =>
      SeenReview(t, rid, seen) && exists owner, ttl :: seen.Claim(owner, ttl, at) == Ok(review)
    case Renewing(rid, seen, review, at) =>
      SeenReview(t, rid, seen) && exists owner, token, ttl :: seen.Renew(owner, token, ttl, at) == Ok(review)
    case HoldingClaim(cid, claimSeen) => SeenClaim(t, cid, claimSeen)
    case HoldingReview(rid, seen) => SeenReview(t, rid, seen)
    case Deciding(rid, seen, review, cid, claimSeen, claim, did, decision, owner, token, at) =>
      && SeenReview(t, rid, seen) && seen.Complete(owner, token, at) == Ok(review)
      && cid == seen.claim && SeenClaim(t, cid, claimSeen)
      && claimSeen.Decide(decision.accepted, rid) == Ok(claim)
      && decision == DecisionRow(rid, cid, seen.reviewer, decision.accepted)
    case Disputing(cid, claimSeen, claim, did, dispute) =>
      && SeenClaim(t, cid, claimSeen) && claimSeen.Dispute() == Ok(claim)
      && dispute == DisputeRow(cid, claimSeen.author, Open, NO_ID, 1)
    case HoldingDispute(did, disputeSeen) => disputeSeen.state == Open && disputeSeen.version == 1
    case Resolving(did, dispute, expected, cid, claimSeen, claim) => expected == 2
  }

  ghost predicate Inv(s: State) {
    && TablesOk(s.tables, s.history)
    && (forall op | op in s.ops :: OpOk(s.tables, op))
    && (forall op | op in s.ops && (op.Claiming? || op.Deciding?) :: op.at <= s.now)
  }

  ghost predicate TablesAdvance(t: Tables, t': Tables) {
    && Advances(ClaimVersion, t.claims, t'.claims)
    && Advances(ReviewVersion, t.reviews, t'.reviews)
    && (forall d | d in t.decisions :: d in t'.decisions && t'.decisions[d] == t.decisions[d])
    && (forall d | d in t.disputes :: d in t'.disputes && t'.disputes[d] == t.disputes[d])
  }

  // ---------- Commits

  /** Adding one decision on a claim adds one to the claim's count. */
  lemma OneMoreDecision(decisions: map<Id, DecisionRow>, did: Id, decision: DecisionRow, cid: Id)
    requires did !in decisions
    ensures |DecisionsOn(decisions[did := decision], cid)|
         == |DecisionsOn(decisions, cid)| + if decision.claim == cid then 1 else 0
  {
    var before, after := DecisionsOn(decisions, cid), DecisionsOn(decisions[did := decision], cid);
    if decision.claim == cid {
      assert after == before + {did};
    } else {
      assert after == before;
    }
  }

  lemma {:induction false} TakesOfOthers(history: seq<(Id, int)>, rid: Id)
    requires forall i | 0 <= i < |history| :: history[i].0 != rid
    ensures Takes(history, rid) == 0
  {
    if history != [] {
      TakesOfOthers(history[..|history| - 1], rid);
    }
  }

  lemma NewClaimOk(t: Tables, t': Tables, cid: Id, author: Id)
    requires forall d | d in t.decisions :: t.decisions[d].claim != cid
    requires forall d | d in t.disputes :: t.disputes[d].claim != cid
    requires t' == t.(claims := t.claims[cid := ReviewDomain.NewClaim(author)])
    ensures ClaimOk(t', cid)
  {
    assert DecisionsOn(t.decisions, cid) == {};
  }

  lemma NewClaimKeeps(t: Tables, history: seq<(Id, int)>, cid: Id, author: Id)
    requires TablesOk(t, history) && cid != NO_ID && cid !in t.claims
    ensures var t' := t.(claims := t.claims[cid := ReviewDomain.NewClaim(author)]);
      TablesOk(t', history) && TablesAdvance(t, t')
  {
    var t' := t.(claims := t.claims[cid := ReviewDomain.NewClaim(author)]);
    SameReviews(t, t', history);
    forall d | d in t.decisions
      ensures t.decisions[d].claim != cid
    {
      assert DecisionOk(t, d) && ReviewOk(t, history, t.decisions[d].review);
    }
    NewClaimOk(t, t', cid, author);
    OtherClaimsOk(t, t', cid);
  }

  /** Writing one review row keeps ReviewsOk when the row itself is in order and keeps, or newly takes,
      its place as the only review of its claim by its reviewer. */
  lemma ReviewWritten(t: Tables, t': Tables, history: seq<(Id, int)>, after: seq<(Id, int)>, rid: Id)
    requires ReviewsOk(t, history) && rid in t'.reviews && t'.reviews == t.reviews[rid := t'.reviews[rid]]
    requires forall cid | cid in t.claims :: cid in t'.claims && t'.claims[cid].author == t.claims[cid].author
    requires ReviewOk(t', after, rid)
    requires after == history || (|after| > 0 && after[..|after| - 1] == history && after[|after| - 1].0 == rid)
    requires forall k | k in t.reviews && k != rid ::
               t.reviews[k].claim != t'.reviews[rid].claim || t.reviews[k].reviewer != t'.reviews[rid].reviewer
    ensures ReviewsOk(t', after)
  {
    forall k | k in t'.reviews
      ensures ReviewOk(t', after, k)
    {
      if k != rid {
        assert ReviewOk(t, history, k);
      }
    }
    forall i | 0 <= i < |after|
      ensures after[i].0 in t'.reviews
    {
      if after != history && i < |after| - 1 {
        assert after[i] == history[i];
      }
    }
  }

  /** Claims other than `cid` do not notice changes to `cid`, its reviews, decisions and disputes. */
  lemma OtherClaimsOk(t: Tables, t': Tables, cid: Id)
    requires ClaimsOk(t) && NO_ID !in t'.claims
    requires t'.claims.Keys == t.claims.Keys + {cid}
    requires forall k | k in t.claims && k != cid :: t'.claims[k] == t.claims[k]
    requires forall r | r in t.reviews && t.reviews[r].claim != cid :: r in t'.reviews && t'.reviews[r] == t.reviews[r]
    requires forall k | k in t.claims && k != cid :: DecisionsOn(t'.decisions, k) == DecisionsOn(t.decisions, k)
    requires forall d | d in t'.decisions && t'.decisions[d].claim != cid ::
               d in t.decisions && t'.decisions[d] == t.decisions[d]
    requires forall d | d in t'.decisions && t'.decisions[d].claim == cid ::
               t'.decisions[d].review in t'.reviews && t'.reviews[t'.decisions[d].review].claim == cid
    requires forall k | k in t.claims && k != cid :: IsDisputed(t'.disputes, k) == IsDisputed(t.disputes, k)
    ensures forall k | k in t'.claims && k != cid :: ClaimOk(t', k)
  {
    forall k | k in t'.claims && k != cid
      ensures ClaimOk(t', k)
    {
      assert ClaimOk(t, k);
    }
  }

  /** Writing a review row that is undecided, and was, keeps DecisionsOk. */
  lemma UndecidedWritten(t: Tables, t': Tables, rid: Id)
    requires DecisionsOk(t) && rid in t'.reviews && t'.reviews == t.reviews[rid := t'.reviews[rid]]
    requires t'.reviews[rid].state != Decided && (rid in t.reviews ==> t.reviews[rid].state != Decided)
    requires t'.decisions == t.decisions
    ensures DecisionsOk(t')
  {
    forall d | d in t'.decisions
      ensures DecisionOk(t', d)
    {
      assert DecisionOk(t, d);
    }
  }

  lemma AssignedClaimOk(t: Tables, t': Tables, cid: Id, rid: Id)
    requires cid in t.claims && ClaimOk(t, cid) && t.claims[cid].Assign(rid).Ok?
    requires t'.claims == t.claims[cid := t.claims[cid].Assign(rid).value]
    requires t'.decisions == t.decisions && t'.disputes == t.disputes
    requires rid in t'.reviews && t'.reviews[rid].claim == cid && t'.reviews[rid].state == Queued
    ensures ClaimOk(t', cid)
  {
  }

  lemma AssignRows(t: Tables, t': Tables, history: seq<(Id, int)>, cid: Id, rid: Id)
    requires TablesOk(t, history) && cid in t.claims && t.claims[cid].Assign(rid).Ok?
    requires rid !in t.reviews && rid in t'.reviews
    requires NewReview(rid, cid, t.claims[cid].author, t'.reviews[rid].reviewer) == Ok(t'.reviews[rid])
    requires forall k | k in t.reviews :: t.reviews[k].claim != cid || t.reviews[k].reviewer != t'.reviews[rid].reviewer
    requires t' == t.(reviews := t.reviews[rid := t'.reviews[rid]],
                      claims := t.claims[cid := t.claims[cid].Assign(rid).value])
    ensures TablesOk(t', history)
  {
    TakesOfOthers(history, rid);
    ReviewWritten(t, t', history, history, rid);
    UndecidedWritten(t, t', rid);
    OtherClaimsOk(t, t', cid);
    AssignedClaimOk(t, t', cid, rid);
  }

  lemma LeasedClaimOk(t: Tables, t': Tables, cid: Id, rid: Id)
    requires cid in t.claims && ClaimOk(t, cid) && rid in t.reviews && rid in t'.reviews
    requires t' == t.(reviews := t.reviews[rid := t'.reviews[rid]])
    requires t'.reviews[rid].claim == t.reviews[rid].claim
    requires t.reviews[rid].state != Decided && t'.reviews[rid].state != Decided
    ensures ClaimOk(t', cid)
  {
  }

  /** A claim or a renewal: the review stays undecided and keeps its identity. */
  lemma LeaseRows(t: Tables, t': Tables, history: seq<(Id, int)>, rid: Id, after: seq<(Id, int)>)
    requires TablesOk(t, history) && rid in t.reviews && rid in t'.reviews && t.reviews[rid].state != Decided
    requires t' == t.(reviews := t.reviews[rid := t'.reviews[rid]])
    requires var review := t'.reviews[rid];
      && review == t.reviews[rid].(state := Leased, leaseOwner := review.leaseOwner, leaseToken := review.leaseToken,
                                   leaseUntil := review.leaseUntil, attempt := review.attempt, version := review.version)
      && review.leaseOwner != NO_ID && review.leaseToken == review.attempt
      && (|| (after == history && review.attempt == t.reviews[rid].attempt)
          || (after == history + [(rid, review.leaseToken)] && review.attempt == t.reviews[rid].attempt + 1))
    ensures TablesOk(t', after)
  {
    assert ReviewOk(t, history, rid);
    if after != history {
      assert after[..|after| - 1] == history;
    }
    ReviewWritten(t, t', history, after, rid);
    UndecidedWritten(t, t', rid);
    forall cid | cid in t'.claims
      ensures ClaimOk(t', cid)
    {
      LeasedClaimOk(t, t', cid, rid);
    }
  }

  /** The decision row and the state of its review appear together. */
  lemma DecisionWritten(t: Tables, t': Tables, did: Id)
    requires DecisionsOk(t) && did !in t.decisions && did in t'.decisions
    requires t'.decisions == t.decisions[did := t'.decisions[did]]
    requires var rid := t'.decisions[did].review;
      && rid in t'.reviews && t'.reviews == t.reviews[rid := t'.reviews[rid]]
      && forall d | d in t.decisions :: t.decisions[d].review != rid
    requires DecisionOk(t', did)
    ensures DecisionsOk(t')
  {
    forall rid | rid in t'.reviews && t'.reviews[rid].state == Decided
      ensures exists d :: d in t'.decisions && t'.decisions[d].review == rid
    {
      if rid == t'.decisions[did].review {
        assert t'.decisions[did].review == rid;
      } else {
        var d :| d in t.decisions && t.decisions[d].review == rid;
        assert t'.decisions[d].review == rid;
      }
    }
    forall d | d in t'.decisions
      ensures DecisionOk(t', d)
    {
      if d != did { assert DecisionOk(t, d); }
    }
  }

  lemma DecidedClaimOk(t: Tables, t': Tables, rid: Id, did: Id)
    requires rid in t.reviews && rid in t'.reviews && t'.reviews[rid].state == Decided
    requires t'.reviews[rid].claim == t.reviews[rid].claim && did !in t.decisions && did in t'.decisions
    requires t'.decisions == t.decisions[did := t'.decisions[did]] && t'.disputes == t.disputes
    requires t'.decisions[did].review == rid && t'.decisions[did].claim == t.reviews[rid].claim
    requires forall d | d in t.decisions :: t.decisions[d].review != rid
    requires var cid, accepted := t.reviews[rid].claim, t'.decisions[did].accepted;
      && cid in t.claims && ClaimOk(t, cid) && t.claims[cid].Decide(accepted, rid).Ok?
      && t'.claims == t.claims[cid := t.claims[cid].Decide(accepted, rid).value]
    ensures ClaimOk(t', t.reviews[rid].claim)
  {
    OneMoreDecision(t.decisions, did, t'.decisions[did], t.reviews[rid].claim);
  }

  lemma DecideRows(t: Tables, t': Tables, history: seq<(Id, int)>, rid: Id, owner: Id, token: int, at: Instant, did: Id)
    requires TablesOk(t, history) && rid in t.reviews && t.reviews[rid].Complete(owner, token, at).Ok?
    requires did !in t.decisions && did in t'.decisions && forall d | d in t.decisions :: t.decisions[d].review != rid
    requires t'.decisions[did]
          == DecisionRow(rid, t.reviews[rid].claim, t.reviews[rid].reviewer, t'.decisions[did].accepted)
    requires var cid, accepted := t.reviews[rid].claim, t'.decisions[did].accepted;
      && cid in t.claims && t.claims[cid].Decide(accepted, rid).Ok?
      && t' == t.(reviews := t.reviews[rid := t.reviews[rid].Complete(owner, token, at).value],
                  claims := t.claims[cid := t.claims[cid].Decide(accepted, rid).value],
                  decisions := t.decisions[did := t'.decisions[did]])
    ensures TablesOk(t', history)
  {
    var cid := t.reviews[rid].claim;
    assert ReviewOk(t, history, rid);
    ReviewWritten(t, t', history, history, rid);
    DecisionWritten(t, t', did);
    DecidedClaimOk(t, t', rid, did);
    OthersAfterDecision(t, t', cid, rid, did);
  }

  lemma OthersAfterDecision(t: Tables, t': Tables, cid: Id, rid: Id, did: Id)
    requires ClaimsOk(t) && DecisionsOk(t) && DecisionsOk(t') && cid in t.claims && cid in t'.claims
    requires t'.claims == t.claims[cid := t'.claims[cid]] && t'.disputes == t.disputes
    requires rid in t.reviews && rid in t'.reviews && t'.reviews == t.reviews[rid := t'.reviews[rid]]
    requires t.reviews[rid].claim == t'.reviews[rid].claim == cid
    requires did in t'.decisions && t'.decisions == t.decisions[did := t'.decisions[did]]
    requires t'.decisions[did].claim == cid && did !in t.decisions
    ensures forall k | k in t'.claims && k != cid :: ClaimOk(t', k)
  {
    forall k | k in t.claims && k != cid
      ensures DecisionsOn(t'.decisions, k) == DecisionsOn(t.decisions, k)
    {
    }
    forall d | d in t'.decisions
      ensures t'.decisions[d].review in t'.reviews && t'.reviews[t'.decisions[d].review].claim == t'.decisions[d].claim
    {
      assert DecisionOk(t', d);
    }
    OtherClaimsOk(t, t', cid);
  }

  lemma DisputedClaimOk(t: Tables, t': Tables, cid: Id, did: Id)
    requires cid in t.claims && ClaimOk(t, cid) && t.claims[cid].Dispute().Ok?
    requires t'.claims == t.claims[cid := t.claims[cid].Dispute().value]
    requires t'.decisions == t.decisions && t'.reviews == t.reviews
    requires did in t'.disputes && t'.disputes[did].claim == cid
    requires forall d | d in t.disputes :: t.disputes[d].claim != cid
    ensures ClaimOk(t', cid)
  {
  }

  lemma DisputeRows(t: Tables, t': Tables, history: seq<(Id, int)>, cid: Id, did: Id)
    requires TablesOk(t, history) && cid in t.claims && t.claims[cid].Dispute().Ok?
    requires did !in t.disputes && did in t'.disputes && forall d | d in t.disputes :: t.disputes[d].claim != cid
    requires t'.disputes[did].claim == cid && t'.disputes[did].state == Open && t'.disputes[did].version == 1
    requires t' == t.(claims := t.claims[cid := t.claims[cid].Dispute().value],
                      disputes := t.disputes[did := t'.disputes[did]])
    ensures TablesOk(t', history)
  {
    SameReviews(t, t', history);
    DisputedClaimOk(t, t', cid, did);
    OthersAfterDispute(t, t', cid, did);
    DisputesAfterDispute(t, t', cid, did);
  }

  lemma DisputesAfterDispute(t: Tables, t': Tables, cid: Id, did: Id)
    requires DisputesOk(t) && cid in t.claims && t.claims.Keys == t'.claims.Keys
    requires did in t'.disputes && t'.disputes == t.disputes[did := t'.disputes[did]]
    requires t'.disputes[did].claim == cid && t'.disputes[did].state == Open && t'.disputes[did].version == 1
    requires forall d | d in t.disputes :: t.disputes[d].claim != cid
    ensures DisputesOk(t')
  {
  }

  lemma OthersAfterDispute(t: Tables, t': Tables, cid: Id, did: Id)
    requires ClaimsOk(t) && DecisionsOk(t) && cid in t.claims && cid in t'.claims
    requires t'.claims == t.claims[cid := t'.claims[cid]]
    requires t'.reviews == t.reviews && t'.decisions == t.decisions
    requires did in t'.disputes && t'.disputes == t.disputes[did := t'.disputes[did]]
    requires t'.disputes[did].claim == cid && did !in t.disputes
    ensures forall k | k in t'.claims && k != cid :: ClaimOk(t', k)
  {
    forall k | k in t.claims && k != cid
      ensures IsDisputed(t'.disputes, k) == IsDisputed(t.disputes, k)
    {
      if d :| d in t.disputes && t.disputes[d].claim == k {
        assert t'.disputes[d].claim == k;
      }
    }
    forall d | d in t.decisions
      ensures t.decisions[d].review in t.reviews && t.reviews[t.decisions[d].review].claim == t.decisions[d].claim
    {
      assert DecisionOk(t, d);
    }
    OtherClaimsOk(t, t', cid);
  }

  /** Reviews and decisions do not depend on claim states. */
  lemma SameReviews(t: Tables, t': Tables, history: seq<(Id, int)>)
    requires ReviewsOk(t, history) && DecisionsOk(t) && t'.reviews == t.reviews && t'.decisions == t.decisions
    requires forall cid | cid in t.claims :: cid in t'.claims && t'.claims[cid].author == t.claims[cid].author
    ensures ReviewsOk(t', history) && DecisionsOk(t')
  {
    forall rid | rid in t'.reviews
      ensures ReviewOk(t', history, rid)
    {
      assert ReviewOk(t, history, rid);
    }
    forall d | d in t'.decisions
      ensures DecisionOk(t', d)
    {
      assert DecisionOk(t, d);
    }
  }

  // ---------- From operations to rows

  lemma AssignKeeps(t: Tables, history: seq<(Id, int)>, op: Op)
    requires TablesOk(t, history) && op.Assigning? && OpOk(t, op) && Transact(t, op).Ok?
    ensures t.claims[op.cid] == op.claimSeen
    ensures TablesOk(Transact(t, op).value, history) && TablesAdvance(t, Transact(t, op).value)
  {
    AssignRows(t, Transact(t, op).value, history, op.cid, op.rid);
  }

  lemma ClaimKeeps(t: Tables, history: seq<(Id, int)>, op: Op)
    requires TablesOk(t, history) && op.Claiming? && OpOk(t, op) && Transact(t, op).Ok?
    ensures t.reviews[op.rid] == op.seen
    ensures TablesOk(Transact(t, op).value, Recorded(history, op)) && TablesAdvance(t, Transact(t, op).value)
  {
    assert ReviewOk(t, history, op.rid);
    LeaseRows(t, Transact(t, op).value, history, op.rid, Recorded(history, op));
  }

  lemma RenewKeeps(t: Tables, history: seq<(Id, int)>, op: Op)
    requires TablesOk(t, history) && op.Renewing? && OpOk(t, op) && Transact(t, op).Ok?
    ensures t.reviews[op.rid] == op.seen
    ensures TablesOk(Transact(t, op).value, history) && TablesAdvance(t, Transact(t, op).value)
  {
    assert ReviewOk(t, history, op.rid);
    LeaseRows(t, Transact(t, op).value, history, op.rid, history);
  }

  /** A decision that commits found both of its snapshots current, and writes just this. */
  lemma DecideCurrent(t: Tables, op: Op)
    requires op.Deciding? && OpOk(t, op) && Transact(t, op).Ok?
    ensures t.reviews[op.rid] == op.seen && t.claims[op.cid] == op.claimSeen && op.did !in t.decisions
    ensures forall d | d in t.decisions :: t.decisions[d].review != op.rid
    ensures Transact(t, op).value == t.(reviews := t.reviews[op.rid := op.review], claims := t.claims[op.cid := op.claim],
                                        decisions := t.decisions[op.did := op.decision])
    ensures TablesAdvance(t, Transact(t, op).value)
    ensures op.seen.Complete(op.owner, op.token, op.at) == Ok(op.review) && op.cid == op.seen.claim
    ensures op.claimSeen.Decide(op.decision.accepted, op.rid) == Ok(op.claim)
    ensures op.decision == DecisionRow(op.rid, op.cid, op.seen.reviewer, op.decision.accepted)
  {
  }

  lemma DecideKeeps(t: Tables, history: seq<(Id, int)>, op: Op)
    requires TablesOk(t, history) && op.Deciding? && OpOk(t, op) && Transact(t, op).Ok?
    ensures t.reviews[op.rid] == op.seen && t.claims[op.cid] == op.claimSeen
    ensures TablesOk(Transact(t, op).value, history) && TablesAdvance(t, Transact(t, op).value)
  {
    DecideCurrent(t, op);
    var t' := Transact(t, op).value;
    DecideRows(t, t', history, op.rid, op.owner, op.token, op.at, op.did);
  }

  lemma DisputeCurrent(t: Tables, op: Op)
    requires op.Disputing? && OpOk(t, op) && Transact(t, op).Ok?
    ensures t.claims[op.cid] == op.claimSeen && op.did !in t.disputes
    ensures forall d | d in t.disputes :: t.disputes[d].claim != op.cid
    ensures Transact(t, op).value == t.(claims := t.claims[op.cid := op.claim],
                                        disputes := t.disputes[op.did := op.dispute])
  {
  }

  lemma DisputeKeeps(t: Tables, history: seq<(Id, int)>, op: Op)
    requires TablesOk(t, history) && op.Disputing? && OpOk(t, op) && Transact(t, op).Ok?
    ensures t.claims[op.cid] == op.claimSeen
    ensures TablesOk(Transact(t, op).value, history) && TablesAdvance(t, Transact(t, op).value)
  {
    DisputeCurrent(t, op);
    DisputeRows(t, Transact(t, op).value, history, op.cid, op.did);
  }

  /** The transaction of ResolveDispute never commits: it expects version 2 of a row at version 1. */
  lemma ResolveNeverCommits(t: Tables, op: Op)
    requires DisputesOk(t) && op.Resolving? && OpOk(t, op)
    ensures Transact(t, op).Err?
  {
  }

  lemma CommitKeeps(t: Tables, history: seq<(Id, int)>, op: Op)
    requires TablesOk(t, history) && OpOk(t, op) && Transact(t, op).Ok?
    ensures TablesOk(Transact(t, op).value, Recorded(history, op)) && TablesAdvance(t, Transact(t, op).value)
  {
    match op
    case Assigning(_, _, _, _, _) => AssignKeeps(t, history, op);
    case Claiming(_, _, _, _) => ClaimKeeps(t, history, op);
    case Renewing(_, _, _, _) => RenewKeeps(t, history, op);
    case Deciding(_, _, _, _, _, _, _, _, _, _, _) => DecideKeeps(t, history, op);
    case Disputing(_, _, _, _, _) => DisputeKeeps(t, history, op);
    case Resolving(_, _, _, _, _, _) => ResolveNeverCommits(t, op);
    case _ =>
  }

  // ---------- Runs

  lemma OpStaysOk(t: Tables, t': Tables, op: Op)
    requires TablesAdvance(t, t') && OpOk(t, op)
    ensures OpOk(t', op)
  {
  }

  lemma DecideBeginsOk(t: Tables, now: Instant, rid: Id, seen: ReviewRow, claimSeen: ClaimRow, actor: Id,
                       owner: Id, token: int, accepted: bool, did: Id)
    requires SeenReview(t, rid, seen) && SeenClaim(t, seen.claim, claimSeen)
    requires Decide(now, rid, seen, claimSeen, actor, owner, token, accepted, did).Ok?
    ensures var op := Decide(now, rid, seen, claimSeen, actor, owner, token, accepted, did).value;
      OpOk(t, op) && op.Deciding? && op.at == now
  {
  }

  lemma ResolveBeginsOk(t: Tables, did: Id, disputeSeen: DisputeRow, claimSeen: ClaimRow, actor: Id, resolver: Id,
                        mayReview: bool, reviewId: Id, uphold: bool)
    requires disputeSeen.state == Open && disputeSeen.version == 1
    requires ResolveDispute(did, disputeSeen, claimSeen, actor, resolver, mayReview, reviewId, uphold).Ok?
    ensures var op := ResolveDispute(did, disputeSeen, claimSeen, actor, resolver, mayReview, reviewId, uphold).value;
      OpOk(t, op) && op.Resolving?
  {
  }

  lemma BeginOpOk(s: State, e: Event)
    requires Inv(s) && Begin(s, e).Some?
    ensures var op := Begin(s, e).value;
      OpOk(s.tables, op) && (op.Claiming? || op.Deciding? ==> op.at <= s.now)
  {
    var op := Begin(s, e).value;
    match e
    case BeginAssign(cid, claimSeen, reviewer, mayReview, rid) =>
      assert OpOk(s.tables, HoldingClaim(cid, claimSeen));
    case BeginClaim(rid, seen, actor, owner, ttl) =>
      assert OpOk(s.tables, HoldingReview(rid, seen));
      assert seen.Claim(owner, ttl, s.now) == Ok(op.review);
    case BeginRenew(rid, seen, actor, owner, token, ttl) =>
      assert OpOk(s.tables, HoldingReview(rid, seen));
      assert seen.Renew(owner, token, ttl, s.now) == Ok(op.review);
    case BeginDecide(rid, seen, claimSeen, actor, owner, token, accepted, did) =>
      assert OpOk(s.tables, HoldingReview(rid, seen)) && OpOk(s.tables, HoldingClaim(seen.claim, claimSeen));
      DecideBeginsOk(s.tables, s.now, rid, seen, claimSeen, actor, owner, token, accepted, did);
    case BeginDispute(cid, claimSeen, actor, did) =>
      assert OpOk(s.tables, HoldingClaim(cid, claimSeen));
    case BeginResolve(did, disputeSeen, claimSeen, actor, resolver, mayReview, reviewId, uphold) =>
      assert OpOk(s.tables, HoldingDispute(did, disputeSeen));
      ResolveBeginsOk(s.tables, did, disputeSeen, claimSeen, actor, resolver, mayReview, reviewId, uphold);
    case _ =>
  }

  lemma BeginOk(s: State, e: Event)
    requires Inv(s) && Begin(s, e).Some?
    ensures Inv(s.(ops := s.ops + {Begin(s, e).value}))
  {
    BeginOpOk(s, e);
  }

  lemma TablesAdvanceTransitive(a: Tables, b: Tables, c: Tables)
    requires TablesAdvance(a, b) && TablesAdvance(b, c)
    ensures TablesAdvance(a, c)
  {
    AdvancesTransitive(ClaimVersion, a.claims, b.claims, c.claims);
    AdvancesTransitive(ReviewVersion, a.reviews, b.reviews, c.reviews);
  }

  lemma OpsStayOk(t: Tables, t': Tables, ops: set<Op>)
    requires TablesAdvance(t, t') && forall op | op in ops :: OpOk(t, op)
    ensures forall op | op in ops :: OpOk(t', op)
  {
    forall op | op in ops
      ensures OpOk(t', op)
    {
      OpStaysOk(t, t', op);
    }
  }

  lemma StepKeeps(s: State, e: Event)
    requires Inv(s)
    ensures Inv(Next(s, e)) && TablesAdvance(s.tables, Next(s, e).tables) && s.now <= Next(s, e).now
  {
    match e
    case NewClaim(cid, author) =>
      if cid != NO_ID && cid !in s.tables.claims {
        NewClaimKeeps(s.tables, s.history, cid, author);
        OpsStayOk(s.tables, Next(s, e).tables, s.ops);
      }
    case Commit(op) =>
      if op in s.ops && Transact(s.tables, op).Ok? {
        CommitKeeps(s.tables, s.history, op);
        OpsStayOk(s.tables, Next(s, e).tables, s.ops);
      }
    case Crash(op) =>
    case Tick(to) =>
    case _ => if Begin(s, e).Some? { BeginOk(s, e); }
  }

  lemma {:induction false} RunKeeps(s: State, events: seq<Event>)
    requires Inv(s)
    ensures Inv(Run(s, events)) && TablesAdvance(s.tables, Run(s, events).tables)
    decreases |events|
  {
    if events != [] {
      StepKeeps(s, events[0]);
      RunKeeps(Next(s, events[0]), events[1..]);
      TablesAdvanceTransitive(s.tables, Next(s, events[0]).tables, Run(s, events).tables);
    }
  }

  /** Every state of a run from the empty tables satisfies the invariant. */
  lemma Reached(s: State, events: seq<Event>)
    requires Initial(s)
    ensures Inv(Run(s, events))
  {
    RunKeeps(s, events);
  }
}
