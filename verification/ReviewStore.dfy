/** The review services as the code runs them, proved to do what ReviewProtocol says. `others`
    stands for everybody else, as in ReadingStore. */
module ReviewStore {
  import opened Prelude
  import opened Versions
  import Domain = ReviewDomain
  import opened ReviewProtocol

  type Interference = (nat, Tables) -> Tables

  ghost predicate Served(begun: Result<Op>, before: Tables, met: Tables, after: Tables, err: Option<Fault>) {
    match begun
    case Err(fault) => err == Some(fault) && after == before
    case Ok(op) => Meets(Transact(met, op), met, after, err)
  }

  class Store {
    var claims: map<Id, Domain.ClaimRow>
    var reviews: map<Id, Domain.ReviewRow>
    var decisions: map<Id, Domain.DecisionRow>
    var disputes: map<Id, Domain.DisputeRow>

    constructor ()
      ensures Contents() == Tables(map[], map[], map[], map[])
    {
      claims, reviews, decisions, disputes := map[], map[], map[], map[];
    }

    function Contents(): Tables
      reads this
    {
      Tables(claims, reviews, decisions, disputes)
    }

    method Become(t: Tables)
      modifies this
      ensures Contents() == t
    {
      claims, reviews, decisions, disputes := t.claims, t.reviews, t.decisions, t.disputes;
    }

    method UpdateClaim(cid: Id, row: Domain.ClaimRow, expected: int) returns (err: Option<Fault>)
      modifies this`claims
      ensures Meets(Update(ClaimVersion, old(claims), cid, row, expected), old(claims), claims, err)
    {
      if cid !in claims || claims[cid].version != expected { return Some(Conflict); }
      claims := claims[cid := row];
      return None;
    }

    method UpdateReviewAssignment(rid: Id, row: Domain.ReviewRow, expected: int) returns (err: Option<Fault>)
      modifies this`reviews
      ensures Meets(Update(ReviewVersion, old(reviews), rid, row, expected), old(reviews), reviews, err)
    {
      if rid !in reviews || reviews[rid].version != expected { return Some(Conflict); }
      reviews := reviews[rid := row];
      return None;
    }

    method UpdateDispute(did: Id, row: Domain.DisputeRow, expected: int) returns (err: Option<Fault>)
      modifies this`disputes
      ensures Meets(Update(DisputeVersion, old(disputes), did, row, expected), old(disputes), disputes, err)
    {
      if did !in disputes || disputes[did].version != expected { return Some(Conflict); }
      disputes := disputes[did := row];
      return None;
    }

    method InsertReviewAssignment(rid: Id, row: Domain.ReviewRow) returns (err: Option<Fault>)
      modifies this`reviews
      ensures Meets(InsertReview(old(reviews), rid, row), old(reviews), reviews, err)
    {
      if rid in reviews { return Some(Conflict); }
      if exists k :: k in reviews && reviews[k].claim == row.claim && reviews[k].reviewer == row.reviewer {
        return Some(Conflict);
      }
      reviews := reviews[rid := row];
      return None;
    }

    method InsertReviewDecision(did: Id, row: Domain.DecisionRow) returns (err: Option<Fault>)
      modifies this`decisions
      ensures Meets(InsertDecision(old(decisions), did, row), old(decisions), decisions, err)
    {
      if did in decisions || exists k :: k in decisions && decisions[k].review == row.review { return Some(Conflict); }
      decisions := decisions[did := row];
      return None;
    }

    method InsertClaimDispute(did: Id, row: Domain.DisputeRow) returns (err: Option<Fault>)
      modifies this`disputes
      ensures Meets(InsertDispute(old(disputes), did, row), old(disputes), disputes, err)
    {
      if did in disputes || exists k :: k in disputes && disputes[k].claim == row.claim { return Some(Conflict); }
      disputes := disputes[did := row];
      return None;
    }

    method Assign(others: Interference, cid: Id, reviewer: Id, mayAssign: bool, mayReview: bool, rid: Id)
      returns (err: Option<Fault>)
      modifies this
      ensures var before := old(Contents());
        if !mayAssign then err == Some(Forbidden) && Contents() == before
        else match Get(before.claims, cid)
        case Err(fault) => err == Some(fault) && Contents() == before
        case Ok(seen) => Served(ReviewProtocol.Assign(cid, seen, reviewer, mayReview, rid),
                                before, others(0, before), Contents(), err)
    {
      if !mayAssign { return Some(Forbidden); }
      if cid !in claims { return Some(NotFound); }
      var claim := new Domain.Claim(claims[cid]);
      if !mayReview { return Some(Precondition); }
      var review := Domain.NewReview(rid, cid, claim.author, reviewer);
      if review.Err? { return Some(review.fault); }
      var claimVersion := claim.version;
      err := claim.Assign(rid);
      if err.Some? { return; }
      Become(others(0, Contents()));
      var before := Contents();
      if cid !in claims { return Some(NotFound); }
      if claims[cid].version != claimVersion || claims[cid].author == reviewer { return Some(Conflict); }
      err := InsertReviewAssignment(rid, review.value);
      if err.Some? { return; }
      err := UpdateClaim(cid, claim.Row(), claimVersion);
      if err.Some? { Become(before); }
    }

    method ClaimReview(others: Interference, now: Instant, rid: Id, actor: Id, mayReview: bool, owner: Id, ttl: int)
      returns (err: Option<Fault>)
      modifies this
      ensures var before := old(Contents());
        if !mayReview then err == Some(Forbidden) && Contents() == before
        else match Get(before.reviews, rid)
        case Err(fault) => err == Some(fault) && Contents() == before
        case Ok(seen) => Served(ReviewProtocol.Claim(now, rid, seen, actor, owner, ttl),
                                before, others(0, before), Contents(), err)
    {
      if !mayReview { return Some(Forbidden); }
      if rid !in reviews { return Some(NotFound); }
      var review := new Domain.Review(reviews[rid]);
      if review.reviewer != actor { return Some(Forbidden); }
      var previous := review.version;
      err := review.Claim(owner, ttl, now);
      if err.Some? { return; }
      Become(others(0, Contents()));
      err := UpdateReviewAssignment(rid, review.Row(), previous);
    }

    method RenewReview(others: Interference, now: Instant, rid: Id, actor: Id, owner: Id, token: int, ttl: int)
      returns (err: Option<Fault>)
      modifies this
      ensures var before := old(Contents());
        match Get(before.reviews, rid)
        case Err(fault) => err == Some(fault) && Contents() == before
        case Ok(seen) => Served(Renew(now, rid, seen, actor, owner, token, ttl),
                                before, others(0, before), Contents(), err)
    {
      if rid !in reviews { return Some(NotFound); }
      var review := new Domain.Review(reviews[rid]);
      if review.reviewer != actor { return Some(Forbidden); }
      var previous := review.version;
      err := review.Renew(owner, token, ttl, now);
      if err.Some? { return; }
      Become(others(0, Contents()));
      err := UpdateReviewAssignment(rid, review.Row(), previous);
    }

    method WriteDecision(rid: Id, review: Domain.ReviewRow, reviewVersion: int,
                         cid: Id, claim: Domain.ClaimRow, claimVersion: int, did: Id, decision: Domain.DecisionRow,
                         owner: Id, token: int, ghost at: Instant,
                         ghost seen: Domain.ReviewRow, ghost claimSeen: Domain.ClaimRow)
      returns (err: Option<Fault>)
      requires seen.version == reviewVersion && claimSeen.version == claimVersion
      modifies this
      ensures Meets(Transact(old(Contents()),
                             Deciding(rid, seen, review, cid, claimSeen, claim, did, decision, owner, token, at)),
                    old(Contents()), Contents(), err)
    {
      var before := Contents();
      if rid !in reviews { return Some(NotFound); }
      if reviews[rid].version != reviewVersion || reviews[rid].leaseToken != token || reviews[rid].leaseOwner != owner {
        return Some(Conflict);
      }
      err := UpdateReviewAssignment(rid, review, reviewVersion);
      if err.Some? { return; }
      err := UpdateClaim(cid, claim, claimVersion);
      if err.Some? { Become(before); return; }
      err := InsertReviewDecision(did, decision);
      if err.Some? { Become(before); }
    }

    method Decide(others: Interference, now: Instant, rid: Id, actor: Id, owner: Id, token: int,
                  accepted: bool, did: Id)
      returns (err: Option<Fault>)
      modifies this
      ensures var before := old(Contents());
        match Get(before.reviews, rid)
        case Err(fault) => err == Some(fault) && Contents() == before
        case Ok(seen) =>
          if seen.reviewer != actor then err == Some(Forbidden) && Contents() == before
          else var read := others(0, before);
          match Get(read.claims, seen.claim)
          case Err(fault) => err == Some(fault) && Contents() == read
          case Ok(claimSeen) =>
            Served(ReviewProtocol.Decide(now, rid, seen, claimSeen, actor, owner, token, accepted, did),
                   read, others(1, read), Contents(), err)
    {
      if rid !in reviews { return Some(NotFound); }
      var review := new Domain.Review(reviews[rid]);
      if review.reviewer != actor { return Some(Forbidden); }
      Become(others(0, Contents()));
      var cid := review.claim;
      if cid !in claims { return Some(NotFound); }
      var claim := new Domain.Claim(claims[cid]);
      ghost var seen, claimSeen := review.Row(), claim.Row();
      var decision := Domain.DecisionRow(rid, cid, actor, accepted);
      var reviewVersion, claimVersion := review.version, claim.version;
      err := review.Complete(owner, token, now);
      if err.Some? { return; }
      err := claim.Decide(accepted, rid);
      if err.Some? { return; }
      Become(others(1, Contents()));
      err := WriteDecision(rid, review.Row(), reviewVersion, cid, claim.Row(), claimVersion, did, decision,
                           owner, token, now, seen, claimSeen);
    }

    method OpenDispute(others: Interference, cid: Id, actor: Id, did: Id) returns (err: Option<Fault>)
      modifies this
      ensures var before := old(Contents());
        match Get(before.claims, cid)
        case Err(fault) => err == Some(fault) && Contents() == before
        case Ok(seen) => Served(ReviewProtocol.OpenDispute(cid, seen, actor, did),
                                before, others(0, before), Contents(), err)
    {
      if cid !in claims { return Some(NotFound); }
      var claim := new Domain.Claim(claims[cid]);
      if claim.author != actor { return Some(Forbidden); }
      var claimVersion := claim.version;
      err := claim.Dispute();
      if err.Some? { return; }
      Become(others(0, Contents()));
      var before := Contents();
      err := UpdateClaim(cid, claim.Row(), claimVersion);
      if err.Some? { return; }
      err := InsertClaimDispute(did, Domain.DisputeRow(cid, actor, Domain.Open, NO_ID, 1));
      if err.Some? { Become(before); }
    }

    method WriteResolution(did: Id, dispute: Domain.DisputeRow, expected: int,
                           cid: Id, claim: Domain.ClaimRow, claimVersion: int, ghost claimSeen: Domain.ClaimRow)
      returns (err: Option<Fault>)
      requires claimSeen.version == claimVersion
      modifies this
      ensures Meets(Transact(old(Contents()), Resolving(did, dispute, expected, cid, claimSeen, claim)),
                    old(Contents()), Contents(), err)
    {
      var before := Contents();
      err := UpdateDispute(did, dispute, expected);
      if err.Some? { return; }
      err := UpdateClaim(cid, claim, claimVersion);
      if err.Some? { Become(before); }
    }

    method ResolveDispute(others: Interference, did: Id, actor: Id, resolver: Id, mayReview: bool,
                          reviewId: Id, uphold: bool)
      returns (err: Option<Fault>)
      modifies this
      ensures var before := old(Contents());
        match Get(before.disputes, did)
        case Err(fault) => err == Some(fault) && Contents() == before
        case Ok(held) =>
          var read := others(0, before);
          match Get(read.claims, held.claim)
          case Err(fault) => err == Some(fault) && Contents() == read
          case Ok(claimSeen) =>
            Served(ReviewProtocol.ResolveDispute(did, held, claimSeen, actor, resolver, mayReview, reviewId, uphold),
                   read, others(1, read), Contents(), err)
    {
      if did !in disputes { return Some(NotFound); }
      var dispute := new Domain.Dispute(disputes[did]);
      Become(others(0, Contents()));
      var cid := dispute.claim;
      if cid !in claims { return Some(NotFound); }
      var claim := new Domain.Claim(claims[cid]);
      ghost var claimSeen := claim.Row();
      if !mayReview || actor != resolver || actor == claim.author { return Some(Forbidden); }
      if dispute.state == Domain.Open {
        err := dispute.Assign(actor);
        if err.Some? { return; }
      }
      var disputeVersion, claimVersion := dispute.version, claim.version;
      err := dispute.Resolve(uphold, actor);
      if err.Some? { return; }
      if claim.state == Domain.Disputed {
        err := claim.Assign(reviewId);
        if err.Some? { return; }
      }
      err := claim.Resolve(reviewId);
      if err.Some? { return; }
      Become(others(1, Contents()));
      err := WriteResolution(did, dispute.Row(), disputeVersion, cid, claim.Row(), claimVersion, claimSeen);
    }
  }
}
