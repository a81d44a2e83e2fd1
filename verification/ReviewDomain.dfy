/** Review leases, claims and disputes: rows, their state machines, and the mutable copies that the
    services work on. One tenant is modelled; rows of different tenants never meet. */
module ReviewDomain {
  import opened Prelude

  datatype ReviewState = Queued | Leased | Decided | Expired | Cancelled

  datatype ReviewRow = ReviewRow(
    claim: Id, author: Id, reviewer: Id, state: ReviewState,
    leaseOwner: Id, leaseToken: int, leaseUntil: Instant, attempt: int, version: int)
  {
    function Claim(owner: Id, ttl: int, now: Instant): Result<ReviewRow> {
      if owner == NO_ID || ttl <= 0 then Err(Validation)
      else if state == Leased && now < leaseUntil then Err(Conflict)
      else if state != Queued && state != Leased && state != Expired then Err(Conflict)
      else Ok(this.(state := Leased, leaseOwner := owner, leaseToken := leaseToken + 1,
                    leaseUntil := now + ttl, attempt := attempt + 1, version := version + 1))
    }

    function Renew(owner: Id, token: int, ttl: int, now: Instant): Result<ReviewRow> {
      if state != Leased || leaseOwner != owner || leaseToken != token then Err(Conflict)
      else if leaseUntil <= now then Err(Conflict)
      else Ok(this.(leaseUntil := now + ttl, version := version + 1))
    }

    function Complete(owner: Id, token: int, now: Instant): Result<ReviewRow> {
      if state != Leased || leaseOwner != owner || leaseToken != token || leaseUntil <= now then Err(Conflict)
      else Ok(this.(state := Decided, leaseOwner := NO_ID, leaseUntil := ZERO_TIME, version := version + 1))
    }
  }

  function NewReview(id: Id, claim: Id, author: Id, reviewer: Id): Result<ReviewRow> {
    if id == NO_ID || claim == NO_ID || author == NO_ID || reviewer == NO_ID then Err(Validation)
    else if author == reviewer then Err(Precondition)
    else Ok(ReviewRow(claim, author, reviewer, Queued, NO_ID, 0, ZERO_TIME, 0, 1))
  }

  datatype ClaimState = Pending | Assigned | Verified | Rejected | Disputed | Resolved

  datatype ClaimRow = ClaimRow(author: Id, state: ClaimState, review: Id, version: int) {
    function Assign(reviewId: Id): Result<ClaimRow> {
      if state != Pending && state != Disputed then Err(Conflict)
      else if reviewId == NO_ID then Err(Validation)
      else Ok(this.(state := Assigned, review := reviewId, version := version + 1))
    }

    function Decide(accepted: bool, reviewId: Id): Result<ClaimRow> {
      if state != Assigned || review != reviewId then Err(Conflict)
      else Ok(this.(state := if accepted then Verified else Rejected, version := version + 1))
    }

    function Dispute(): Result<ClaimRow> {
      if state != Rejected then Err(Conflict)
      else Ok(this.(state := Disputed, review := NO_ID, version := version + 1))
    }

    function Resolve(reviewId: Id): Result<ClaimRow> {
      if state != Assigned || review != reviewId then Err(Conflict)
      else Ok(this.(state := Resolved, version := version + 1))
    }
  }

  function NewClaim(author: Id): ClaimRow { ClaimRow(author, Pending, NO_ID, 1) }

  datatype DisputeState = Open | Handled | Upheld | Denied

  /** `Handled` is the code's DisputeAssigned. */
  datatype DisputeRow = DisputeRow(claim: Id, openedBy: Id, state: DisputeState, resolver: Id, version: int) {
    function Assign(who: Id): Result<DisputeRow> {
      if state != Open then Err(Conflict)
      else if who == NO_ID || who == openedBy then Err(Precondition)
      else Ok(this.(state := Handled, resolver := who, version := version + 1))
    }

    function Resolve(uphold: bool, who: Id): Result<DisputeRow> {
      if state != Handled || resolver != who then Err(Conflict)
      else Ok(this.(state := if uphold then Upheld else Denied, version := version + 1))
    }
  }

  datatype DecisionRow = DecisionRow(review: Id, claim: Id, reviewer: Id, accepted: bool)

  class Review {
    const claim: Id
    const author: Id
    var reviewer: Id
    var state: ReviewState
    var leaseOwner: Id
    var leaseToken: int
    var leaseUntil: Instant
    var attempt: int
    var version: int

    constructor (row: ReviewRow)
      ensures Row() == row
    {
      claim, author, reviewer, state := row.claim, row.author, row.reviewer, row.state;
      leaseOwner, leaseToken, leaseUntil := row.leaseOwner, row.leaseToken, row.leaseUntil;
      attempt, version := row.attempt, row.version;
    }

    function Row(): ReviewRow
      reads this
    {
      ReviewRow(claim, author, reviewer, state, leaseOwner, leaseToken, leaseUntil, attempt, version)
    }

    method Claim(owner: Id, ttl: int, now: Instant) returns (err: Option<Fault>)
      modifies this
      ensures Meets(old(Row()).Claim(owner, ttl, now), old(Row()), Row(), err)
    {
      if owner == NO_ID || ttl <= 0 { return Some(Validation); }
      if state == Leased && now < leaseUntil { return Some(Conflict); }
      if state != Queued && state != Leased && state != Expired { return Some(Conflict); }
      state := Leased;
      leaseOwner := owner;
      leaseToken := leaseToken + 1;
      leaseUntil := now + ttl;
      attempt := attempt + 1;
      version := version + 1;
      return None;
    }

    method Renew(owner: Id, token: int, ttl: int, now: Instant) returns (err: Option<Fault>)
      modifies this
      ensures Meets(old(Row()).Renew(owner, token, ttl, now), old(Row()), Row(), err)
      ensures err == None ==> state == Leased && leaseOwner == owner && leaseToken == token && leaseUntil == now + ttl
    {
      if state != Leased || leaseOwner != owner || leaseToken != token { return Some(Conflict); }
      if now >= leaseUntil { return Some(Conflict); }
      leaseUntil := now + ttl;
      version := version + 1;
      return None;
    }

    method Complete(owner: Id, token: int, now: Instant) returns (err: Option<Fault>)
      modifies this
      ensures Meets(old(Row()).Complete(owner, token, now), old(Row()), Row(), err)
    {
      if state != Leased || leaseOwner != owner || leaseToken != token || now >= leaseUntil { return Some(Conflict); }
      state := Decided;
      leaseOwner := NO_ID;
      leaseUntil := ZERO_TIME;
      version := version + 1;
      return None;
    }
  }

  class Claim {
    const author: Id
    var state: ClaimState
    var review: Id
    var version: int

    constructor (row: ClaimRow)
      ensures Row() == row
    {
      author, state, review, version := row.author, row.state, row.review, row.version;
    }

    function Row(): ClaimRow
      reads this
    {
      ClaimRow(author, state, review, version)
    }

    method Assign(reviewId: Id) returns (err: Option<Fault>)
      modifies this
      ensures Meets(old(Row()).Assign(reviewId), old(Row()), Row(), err)
    {
      if state != Pending && state != Disputed { return Some(Conflict); }
      if reviewId == NO_ID { return Some(Validation); }
      state := Assigned;
      review := reviewId;
      version := version + 1;
      return None;
    }

    method Decide(accepted: bool, reviewId: Id) returns (err: Option<Fault>)
      modifies this
      ensures Meets(old(Row()).Decide(accepted, reviewId), old(Row()), Row(), err)
    {
      if state != Assigned || review != reviewId { return Some(Conflict); }
      if accepted { state := Verified; } else { state := Rejected; }
      version := version + 1;
      return None;
    }

    method Dispute() returns (err: Option<Fault>)
      modifies this
      ensures Meets(old(Row()).Dispute(), old(Row()), Row(), err)
    {
      if state != Rejected { return Some(Conflict); }
      state := Disputed;
      review := NO_ID;
      version := version + 1;
      return None;
    }

    method Resolve(reviewId: Id) returns (err: Option<Fault>)
      modifies this
      ensures Meets(old(Row()).Resolve(reviewId), old(Row()), Row(), err)
    {
      if state != Assigned || review != reviewId { return Some(Conflict); }
      state := Resolved;
      version := version + 1;
      return None;
    }
  }

  class Dispute {
    const claim: Id
    const openedBy: Id
    var state: DisputeState
    var resolver: Id
    var version: int

    constructor (row: DisputeRow)
      ensures Row() == row
    {
      claim, openedBy, state, resolver, version := row.claim, row.openedBy, row.state, row.resolver, row.version;
    }

    function Row(): DisputeRow
      reads this
    {
      DisputeRow(claim, openedBy, state, resolver, version)
    }

    method Assign(who: Id) returns (err: Option<Fault>)
      modifies this
      ensures Meets(old(Row()).Assign(who), old(Row()), Row(), err)
    {
      if state != Open { return Some(Conflict); }
      if who == NO_ID || who == openedBy { return Some(Precondition); }
      state := Handled;
      resolver := who;
      version := version + 1;
      return None;
    }

    method Resolve(uphold: bool, who: Id) returns (err: Option<Fault>)
      modifies this
      ensures Meets(old(Row()).Resolve(uphold, who), old(Row()), Row(), err)
    {
      if state != Handled || resolver != who { return Some(Conflict); }
      if uphold { state := Upheld; } else { state := Denied; }
      version := version + 1;
      return None;
    }
  }
}
