/** A run that goes as far as the review services let a claim go: rejected, disputed, and decided again
    by somebody else. It shows that the bounds of ClaimHistoryBound are reached, and that disputes are
    stored at all. */
module ReviewRuns {
  import opened Prelude
  import opened Versions
  import opened ReviewDomain
  import opened ReviewProtocol
  import opened ReviewSafety

  lemma {:induction false} RunSnoc(s: State, events: seq<Event>, e: Event)
    ensures Run(s, events + [e]) == Next(Run(s, events), e)
    decreases |events|
  {
    if events != [] {
      assert (events + [e])[1..] == events[1..] + [e];
      RunSnoc(Next(s, events[0]), events[1..], e);
    }
  }

  /** One more event at the end of a run. */
  lemma Then(s: State, before: seq<Event>, e: Event) returns (events: seq<Event>)
    ensures events == before + [e] && Run(s, events) == Next(Run(s, before), e)
  {
    RunSnoc(s, before, e);
    events := before + [e];
  }

  /** An assignment with nobody in between. */
  lemma AssignedAlone(s: State, before: seq<Event>, cid: Id, reviewer: Id, rid: Id) returns (events: seq<Event>)
    requires var t := Run(s, before).tables;
      && cid in t.claims && t.claims[cid].Assign(rid).Ok? && NewReview(rid, cid, t.claims[cid].author, reviewer).Ok?
      && rid !in t.reviews && forall k | k in t.reviews :: t.reviews[k].claim != cid || t.reviews[k].reviewer != reviewer
    ensures var t := Run(s, before).tables;
      Run(s, events).tables
      == t.(reviews := t.reviews[rid := NewReview(rid, cid, t.claims[cid].author, reviewer).value],
            claims := t.claims[cid := t.claims[cid].Assign(rid).value])
    ensures Run(s, events).now == Run(s, before).now
  {
    var claim := Run(s, before).tables.claims[cid];
    events := Then(s, before, ReadClaim(cid));
    events := Then(s, events, BeginAssign(cid, claim, reviewer, true, rid));
    events := Then(s, events, Commit(Assign(cid, claim, reviewer, true, rid).value));
  }

  /** The row of a queued review, claimed by `owner` for five. */
  function Taken(r: ReviewRow, owner: Id, now: Instant): ReviewRow {
    r.(state := Leased, leaseOwner := owner, leaseToken := r.leaseToken + 1, leaseUntil := now + 5,
       attempt := r.attempt + 1, version := r.version + 1)
  }

  lemma TakenAlone(s: State, before: seq<Event>, rid: Id, owner: Id) returns (events: seq<Event>)
    requires var t := Run(s, before).tables; rid in t.reviews && t.reviews[rid].state == Queued && owner != NO_ID
    ensures var t := Run(s, before).tables;
      Run(s, events).tables == t.(reviews := t.reviews[rid := Taken(t.reviews[rid], owner, Run(s, before).now)])
    ensures Run(s, events).now == Run(s, before).now
  {
    var now, review := Run(s, before).now, Run(s, before).tables.reviews[rid];
    events := Then(s, before, ReadReview(rid));
    events := Then(s, events, BeginClaim(rid, review, review.reviewer, owner, 5));
    events := Then(s, events, Commit(Claiming(rid, review, Taken(review, owner, now), now)));
  }

  /** A decision by the holder with nobody in between. */
  lemma DecidedAlone(s: State, before: seq<Event>, rid: Id, accepted: bool, did: Id) returns (events: seq<Event>)
    requires var t := Run(s, before).tables;
      && rid in t.reviews && t.reviews[rid].state == Leased && Run(s, before).now < t.reviews[rid].leaseUntil
      && t.reviews[rid].claim in t.claims && t.claims[t.reviews[rid].claim].Decide(accepted, rid).Ok?
      && did !in t.decisions && forall d | d in t.decisions :: t.decisions[d].review != rid
    ensures var t := Run(s, before).tables;
      var r := t.reviews[rid];
      Run(s, events).tables
      == t.(reviews := t.reviews[rid := r.Complete(r.leaseOwner, r.leaseToken, Run(s, before).now).value],
            claims := t.claims[r.claim := t.claims[r.claim].Decide(accepted, rid).value],
            decisions := t.decisions[did := DecisionRow(rid, r.claim, r.reviewer, accepted)])
    ensures Run(s, events).now == Run(s, before).now
  {
    var now, review := Run(s, before).now, Run(s, before).tables.reviews[rid];
    var claim := Run(s, before).tables.claims[review.claim];
    events := Then(s, before, ReadReview(rid));
    events := Then(s, events, ReadClaim(review.claim));
    events := Then(s, events, BeginDecide(rid, review, claim, review.reviewer, review.leaseOwner, review.leaseToken, accepted, did));
    var op := Decide(now, rid, review, claim, review.reviewer, review.leaseOwner, review.leaseToken, accepted, did).value;
    events := Then(s, events, Commit(op));
  }

  lemma DisputedAlone(s: State, before: seq<Event>, cid: Id, did: Id) returns (events: seq<Event>)
    requires var t := Run(s, before).tables;
      && cid in t.claims && t.claims[cid].state == Rejected
      && did !in t.disputes && forall d | d in t.disputes :: t.disputes[d].claim != cid
    ensures var t := Run(s, before).tables;
      Run(s, events).tables == t.(claims := t.claims[cid := t.claims[cid].Dispute().value],
                                  disputes := t.disputes[did := DisputeRow(cid, t.claims[cid].author, Open, NO_ID, 1)])
    ensures Run(s, events).now == Run(s, before).now
  {
    var claim := Run(s, before).tables.claims[cid];
    events := Then(s, before, ReadClaim(cid));
    events := Then(s, events, BeginDispute(cid, claim, claim.author, did));
    events := Then(s, events, Commit(OpenDispute(cid, claim, claim.author, did).value));
  }

  /** Author 9's claim is assigned to 2, who rejects it, and is disputed. */
  lemma AStoredDispute() returns (s: State, events: seq<Event>)
    ensures Initial(s) && Run(s, events).now == 1
    ensures var t := Run(s, events).tables;
      && t.claims == map[1 := ClaimRow(9, Disputed, NO_ID, 4)]
      && t.disputes == map[31 := DisputeRow(1, 9, Open, NO_ID, 1)]
      && t.decisions == map[21 := DecisionRow(11, 1, 2, false)]
      && t.reviews.Keys == {11} && t.reviews[11].reviewer == 2
  {
    s := State(1, Tables(map[], map[], map[], map[]), {}, []);
    events := Then(s, [], Event.NewClaim(1, 9));
    events := AssignedAlone(s, events, 1, 2, 11);
    events := TakenAlone(s, events, 11, 7);
    events := DecidedAlone(s, events, 11, false, 21);
    assert Run(s, events).tables.claims == map[1 := ClaimRow(9, Rejected, 11, 3)];
    events := DisputedAlone(s, events, 1, 31);
  }

  /** And then assigned to 3, who accepts it. */
  lemma TheBoundIsReached() returns (s: State, events: seq<Event>)
    ensures Initial(s) && 1 in Run(s, events).tables.claims && Run(s, events).tables.claims[1].version == 6
    ensures |DecisionsOn(Run(s, events).tables.decisions, 1)| == 2
  {
    s, events := AStoredDispute();
    events := AssignedAlone(s, events, 1, 3, 12);
    events := TakenAlone(s, events, 12, 8);
    events := DecidedAlone(s, events, 12, true, 22);
    assert DecisionsOn(Run(s, events).tables.decisions, 1) == {21, 22};
  }
}
