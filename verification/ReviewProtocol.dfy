/** The review services as a protocol over shared tables; see ReadingProtocol for the reading of
    events and operations in flight. */
module ReviewProtocol {
  import opened Prelude
  import opened Versions
  import opened ReviewDomain

  function ReviewVersion(r: ReviewRow): int { r.version }

  function ClaimVersion(c: ClaimRow): int { c.version }

  function DisputeVersion(d: DisputeRow): int { d.version }

  datatype Tables = Tables(
    claims: map<Id, ClaimRow>, reviews: map<Id, ReviewRow>,
    decisions: map<Id, DecisionRow>, disputes: map<Id, DisputeRow>)

  datatype Op =
    | HoldingClaim(cid: Id, claimSeen: ClaimRow)
    | HoldingReview(rid: Id, seen: ReviewRow)
    | HoldingDispute(did: Id, disputeSeen: DisputeRow)
    | Assigning(cid: Id, claimSeen: ClaimRow, claim: ClaimRow, rid: Id, review: ReviewRow)
    | Claiming(rid: Id, seen: ReviewRow, review: ReviewRow, at: Instant)
    | Renewing(rid: Id, seen: ReviewRow, review: ReviewRow, at: Instant)
    | Deciding(rid: Id, seen: ReviewRow, review: ReviewRow, cid: Id, claimSeen: ClaimRow, claim: ClaimRow,
               did: Id, decision: DecisionRow, owner: Id, token: int, at: Instant)
    | Disputing(cid: Id, claimSeen: ClaimRow, claim: ClaimRow, did: Id, dispute: DisputeRow)
    | Resolving(did: Id, dispute: DisputeRow, expected: int, cid: Id, claimSeen: ClaimRow, claim: ClaimRow)

  /** `history` records the committed lease claims: which review, which token. */
  datatype State = State(now: Instant, tables: Tables, ops: set<Op>, history: seq<(Id, int)>)

  datatype Event =
    | NewClaim(cid: Id, author: Id)
    | ReadClaim(cid: Id)
    | ReadReview(rid: Id)
    | ReadDispute(did: Id)
    | BeginAssign(cid: Id, claimSeen: ClaimRow, reviewer: Id, mayReview: bool, rid: Id)
    | BeginClaim(rid: Id, seen: ReviewRow, actor: Id, owner: Id, ttl: int)
    | BeginRenew(rid: Id, seen: ReviewRow, actor: Id, owner: Id, token: int, ttl: int)
    | BeginDecide(rid: Id, seen: ReviewRow, claimSeen: ClaimRow, actor: Id, owner: Id, token: int, accepted: bool, did: Id)
    | BeginDispute(cid: Id, claimSeen: ClaimRow, actor: Id, did: Id)
    | BeginResolve(did: Id, disputeSeen: DisputeRow, claimSeen: ClaimRow, actor: Id, resolver: Id, mayReview: bool,
                   reviewId: Id, uphold: bool)
    | Commit(op: Op)
    | Crash(op: Op)
    | Tick(to: Instant)

  // ---------- In-memory computation, after the reads

  function Assign(cid: Id, claimSeen: ClaimRow, reviewer: Id, mayReview: bool, rid: Id): Result<Op> {
    if !mayReview then Err(Precondition)
    else
      var review :- NewReview(rid, cid, claimSeen.author, reviewer);
      var claim :- claimSeen.Assign(rid);
      Ok(Assigning(cid, claimSeen, claim, rid, review))
  }

  function Claim(now: Instant, rid: Id, seen: ReviewRow, actor: Id, owner: Id, ttl: int): Result<Op> {
    if seen.reviewer != actor then Err(Forbidden)
    else
      var review :- seen.Claim(owner, ttl, now);
      Ok(Claiming(rid, seen, review, now))
  }

  function Renew(now: Instant, rid: Id, seen: ReviewRow, actor: Id, owner: Id, token: int, ttl: int): Result<Op> {
    if seen.reviewer != actor then Err(Forbidden)
    else
      var review :- seen.Renew(owner, token, ttl, now);
      Ok(Renewing(rid, seen, review, now))
  }

  function Decide(now: Instant, rid: Id, seen: ReviewRow, claimSeen: ClaimRow, actor: Id, owner: Id, token: int,
                  accepted: bool, did: Id): Result<Op>
  {
    if seen.reviewer != actor then Err(Forbidden)
    else
      var review :- seen.Complete(owner, token, now);
      var claim :- claimSeen.Decide(accepted, rid);
      Ok(Deciding(rid, seen, review, seen.claim, claimSeen, claim,
                  did, DecisionRow(rid, seen.claim, actor, accepted), owner, token, now))
  }

  function OpenDispute(cid: Id, claimSeen: ClaimRow, actor: Id, did: Id): Result<Op> {
    if claimSeen.author != actor then Err(Forbidden)
    else
      var claim :- claimSeen.Dispute();
      Ok(Disputing(cid, claimSeen, claim, did, DisputeRow(cid, actor, Open, NO_ID, 1)))
  }

  /** The expected version is taken after the in-memory Assign, as in the code. */
  function ResolveDispute(did: Id, disputeSeen: DisputeRow, claimSeen: ClaimRow, actor: Id, resolver: Id,
                          mayReview: bool, reviewId: Id, uphold: bool): Result<Op>
  {
    if !mayReview || actor != resolver || actor == claimSeen.author then Err(Forbidden)
    else
      var handled :- if disputeSeen.state == Open then disputeSeen.Assign(actor) else Ok(disputeSeen);
      var dispute :- handled.Resolve(uphold, actor);
      var underReview :- if claimSeen.state == Disputed then claimSeen.Assign(reviewId) else Ok(claimSeen);
      var claim :- underReview.Resolve(reviewId);
      Ok(Resolving(did, dispute, handled.version, disputeSeen.claim, claimSeen, claim))
  }

  // ---------- Transaction bodies

  function InsertReview(table: map<Id, ReviewRow>, rid: Id, review: ReviewRow): Result<map<Id, ReviewRow>> {
    if exists k :: k in table && table[k].claim == review.claim && table[k].reviewer == review.reviewer
    then Err(Conflict) else Insert(table, rid, review)
  }

  function InsertDecision(table: map<Id, DecisionRow>, did: Id, decision: DecisionRow): Result<map<Id, DecisionRow>> {
    if exists k :: k in table && table[k].review == decision.review
    then Err(Conflict) else Insert(table, did, decision)
  }

  function InsertDispute(table: map<Id, DisputeRow>, did: Id, dispute: DisputeRow): Result<map<Id, DisputeRow>> {
    if exists k :: k in table && table[k].claim == dispute.claim
    then Err(Conflict) else Insert(table, did, dispute)
  }

  function Transact(t: Tables, op: Op): Result<Tables> {
    match op
    case Assigning(cid, claimSeen, claim, rid, review) =>
      var current :- Get(t.claims, cid);
      if current.version != claimSeen.version || current.author == review.reviewer then Err(Conflict)
      else
        var reviews :- InsertReview(t.reviews, rid, review);
        var claims :- Update(ClaimVersion, t.claims, cid, claim, claimSeen.version);
        Ok(t.(reviews := reviews, claims := claims))
    case Claiming(rid, seen, review, _) =>
      var reviews :- Update(ReviewVersion, t.reviews, rid, review, seen.version);
      Ok(t.(reviews := reviews))
    case Renewing(rid, seen, review, _) =>
      var reviews :- Update(ReviewVersion, t.reviews, rid, review, seen.version);
      Ok(t.(reviews := reviews))
    case Deciding(rid, seen, review, cid, claimSeen, claim, did, decision, owner, token, _) =>
      var current :- Get(t.reviews, rid);
      if current.version != seen.version || current.leaseToken != token || current.leaseOwner != owner
      then Err(Conflict)
      else
        var reviews :- Update(ReviewVersion, t.reviews, rid, review, seen.version);
        var claims :- Update(ClaimVersion, t.claims, cid, claim, claimSeen.version);
        var decisions :- InsertDecision(t.decisions, did, decision);
        Ok(t.(reviews := reviews, claims := claims, decisions := decisions))
    case Disputing(cid, claimSeen, claim, did, dispute) =>
      var claims :- Update(ClaimVersion, t.claims, cid, claim, claimSeen.version);
      var disputes :- InsertDispute(t.disputes, did, dispute);
      Ok(t.(claims := claims, disputes := disputes))
    case Resolving(did, dispute, expected, cid, claimSeen, claim) =>
      var disputes :- Update(DisputeVersion, t.disputes, did, dispute, expected);
      var claims :- Update(ClaimVersion, t.claims, cid, claim, claimSeen.version);
      Ok(t.(disputes := disputes, claims := claims))
    case _ => Err(Validation)
  }

  // ---------- Runs

  function Begin(s: State, e: Event): Option<Op> {
    match e
    case ReadClaim(cid) => if cid in s.tables.claims then Some(HoldingClaim(cid, s.tables.claims[cid])) else None
    case ReadReview(rid) => if rid in s.tables.reviews then Some(HoldingReview(rid, s.tables.reviews[rid])) else None
    case ReadDispute(did) => if did in s.tables.disputes then Some(HoldingDispute(did, s.tables.disputes[did])) else None
    case BeginAssign(cid, claimSeen, reviewer, mayReview, rid) =>
      if HoldingClaim(cid, claimSeen) !in s.ops then None
      else Kept(Assign(cid, claimSeen, reviewer, mayReview, rid))
    case BeginClaim(rid, seen, actor, owner, ttl) =>
      if HoldingReview(rid, seen) !in s.ops then None else Kept(Claim(s.now, rid, seen, actor, owner, ttl))
    case BeginRenew(rid, seen, actor, owner, token, ttl) =>
      if HoldingReview(rid, seen) !in s.ops then None else Kept(Renew(s.now, rid, seen, actor, owner, token, ttl))
    case BeginDecide(rid, seen, claimSeen, actor, owner, token, accepted, did) =>
      if HoldingReview(rid, seen) !in s.ops || HoldingClaim(seen.claim, claimSeen) !in s.ops then None
      else Kept(Decide(s.now, rid, seen, claimSeen, actor, owner, token, accepted, did))
    case BeginDispute(cid, claimSeen, actor, did) =>
      if HoldingClaim(cid, claimSeen) !in s.ops then None else Kept(OpenDispute(cid, claimSeen, actor, did))
    case BeginResolve(did, disputeSeen, claimSeen, actor, resolver, mayReview, reviewId, uphold) =>
      if HoldingDispute(did, disputeSeen) !in s.ops || HoldingClaim(disputeSeen.claim, claimSeen) !in s.ops then None
      else Kept(ResolveDispute(did, disputeSeen, claimSeen, actor, resolver, mayReview, reviewId, uphold))
    case _ => None
  }

  function Recorded(history: seq<(Id, int)>, op: Op): seq<(Id, int)> {
    if op.Claiming? then history + [(op.rid, op.review.leaseToken)] else history
  }

  function Next(s: State, e: Event): State {
    match e
    case NewClaim(cid, author) =>
      if cid == NO_ID || cid in s.tables.claims then s
      else s.(tables := s.tables.(claims := s.tables.claims[cid := ReviewDomain.NewClaim(author)]))
    case Commit(op) =>
      if op !in s.ops then s
      else (
        match Transact(s.tables, op)
        case Ok(tables) => s.(tables := tables, ops := s.ops - {op}, history := Recorded(s.history, op))
        case Err(_) => s.(ops := s.ops - {op})
      )
    case Crash(op) => s.(ops := s.ops - {op})
    case Tick(to) => if s.now <= to then s.(now := to) else s
    case _ =>
      match Begin(s, e)
      case Some(op) => s.(ops := s.ops + {op})
      case None => s
  }

  function Run(s: State, events: seq<Event>): State
    decreases |events|
  {
    if events == [] then s else Run(Next(s, events[0]), events[1..])
  }

  predicate Initial(s: State) {
    s.now >= 1 && s.tables == Tables(map[], map[], map[], map[]) && s.ops == {} && s.history == []
  }
}
