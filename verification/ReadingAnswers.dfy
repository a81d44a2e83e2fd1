/** What a reading call has done once it has committed, told by its request and the rows before and
    after, and who may ask for it when. The specification functions of the protocol do not appear in
    these statements: they are what is being checked here. */
module ReadingAnswers {
  import opened Prelude
  import opened Versions
  import opened ReadingDomain
  import opened ReadingProtocol
  import opened ReadingSafety
  import opened ReadingResults

  /** The state a call meets when it commits: it computed after `events`, and `later` happened since. */
  function Met(s: State, events: seq<Event>, e: Event, later: seq<Event>): State {
    Run(Next(Run(s, events), e), later)
  }

  function After(s: State, events: seq<Event>, e: Event, later: seq<Event>, op: Op): Tables {
    Next(Met(s, events, e, later), Commit(op)).tables
  }

  /** In a run from the initial tables, call `e` has computed `op`, which commits after `later`. */
  ghost predicate Commits(s: State, events: seq<Event>, e: Event, later: seq<Event>, op: Op) {
    && Initial(s) && Begin(Run(s, events), e) == Some(op)
    && op in Met(s, events, e, later).ops && Transact(Met(s, events, e, later).tables, op).Ok?
  }

  lemma Committing(s: State, events: seq<Event>, e: Event, later: seq<Event>, op: Op)
    requires Commits(s, events, e, later, op)
    ensures Inv(Run(s, events)) && Run(s, events).pageCount == s.pageCount
    ensures Inv(Met(s, events, e, later)) && Met(s, events, e, later).pageCount == s.pageCount
    ensures OpOk(s.pageCount, Met(s, events, e, later).tables, op) && MeetsWhatItSaw(Met(s, events, e, later).tables, op)
    ensures After(s, events, e, later, op) == Transact(Met(s, events, e, later).tables, op).value
  {
    Reached(s, events);
    StepKeeps(Run(s, events), e);
    RunKeeps(Next(Run(s, events), e), later);
    CommitMeetsWhatItSaw(s.pageCount, Met(s, events, e, later).tables, op);
  }

  /** What is left of that for a call that writes one assignment row. */
  lemma CommittingRow(s: State, events: seq<Event>, e: Event, later: seq<Event>, op: Op)
    requires (op.Moving? || op.Expiring?) && Commits(s, events, e, later, op)
    ensures var t := Met(s, events, e, later).tables;
      && op.id in t.assignments && t.assignments[op.id] == op.seen
      && After(s, events, e, later, op) == t.(assignments := t.assignments[op.id := op.row])
  {
    Committing(s, events, e, later, op);
  }

  // ---------- Submit

  lemma SubmitWrites(pageCount: map<Id, int>, t: Tables, op: Op)
    requires op.Submitting? && OpOk(pageCount, t, op) && EvidenceInside(t) && Transact(t, op).Ok?
    ensures var t' := Transact(t, op).value;
      && t'.sessions == t.sessions[op.sid := op.session] && t'.assignments == t.assignments[op.id := op.row]
      && Added(t.observations, op.observations, t'.observations) && Added(t.claims, op.claims, t'.claims)
  {
    SubmitCurrent(t, op);
    ObservationsInserted(t.observations, op.observations);
    ClaimsInserted(t.claims, op.claims);
  }

  /** A submission that commits stores all that was handed in, as it was handed in, and nothing else. */
  lemma SubmittedEvidenceIsStored(s: State, events: seq<Event>, e: Event, later: seq<Event>, op: Op)
    requires e.BeginSubmit? && Commits(s, events, e, later, op)
    ensures var t, t' := Met(s, events, e, later).tables, After(s, events, e, later, op);
      && (forall k | k in t.claims :: k in t'.claims && t'.claims[k] == t.claims[k])
      && (forall i | 0 <= i < |e.quoted| ::
            && e.quoted[i].id !in t.claims && e.quoted[i].id in t'.claims
            && t'.claims[e.quoted[i].id] == Quotation(e.held.tenant, e.sid, e.seen.edition, e.author, e.quoted[i].pages))
      && (forall k | k in t'.claims && k !in t.claims :: exists i :: 0 <= i < |e.quoted| && e.quoted[i].id == k)
    ensures var t, t' := Met(s, events, e, later).tables, After(s, events, e, later, op);
      && (forall k | k in t.observations :: k in t'.observations && t'.observations[k] == t.observations[k])
      && (forall i | 0 <= i < |e.observed| ::
            && e.observed[i].id !in t.observations && e.observed[i].id in t'.observations
            && t'.observations[e.observed[i].id]
               == Observation(e.held.tenant, e.sid, e.observed[i].page, e.observed[i].sequence))
      && (forall k | k in t'.observations && k !in t.observations ::
            exists i :: 0 <= i < |e.observed| && e.observed[i].id == k)
  {
    Committing(s, events, e, later, op);
    SubmitBegun(Run(s, events), e, op);
    var t := Met(s, events, e, later).tables;
    SubmitWrites(s.pageCount, t, op);
    ClaimsAsHandedIn(t.claims, Transact(t, op).value.claims, e, op);
    ObservationsAsHandedIn(t.observations, Transact(t, op).value.observations, e, op);
  }

  lemma SubmitBegun(s: State, e: Event, op: Op)
    requires e.BeginSubmit? && Begin(s, e) == Some(op)
    ensures op.Submitting? && op.sid == e.sid && op.sessionSeen == e.held && op.id == e.held.assignment && op.seen == e.seen
    ensures op.observations == Notes(e.observed, e.held.tenant, e.sid)
    ensures op.claims == Quotations(e.quoted, e.held.tenant, e.sid, e.seen.edition, e.author)
    ensures e.member == e.held.member && e.observed != [] && e.quoted != []
    ensures e.held.state == Active && e.seen.state == InReading && e.seen.leaseOwner == e.sid
    ensures op.session == SessionRow(e.held.tenant, e.held.program, e.held.assignment, e.held.member,
                                     SessionState.Submitted, e.held.version + 1)
    ensures op.row == AssignmentRow(
              e.seen.tenant, e.seen.program, e.seen.edition, e.seen.member, e.seen.pages, e.seen.windowStart, e.seen.windowEnd,
              AssignmentState.Submitted, e.seen.leaseToken, NO_ID, ZERO_TIME, e.seen.version + 1)
  {
  }

  lemma ClaimsAsHandedIn(before: map<Id, Quotation>, after: map<Id, Quotation>, e: Event, op: Op)
    requires e.BeginSubmit? && op.Submitting? && Added(before, op.claims, after)
    requires op.claims == Quotations(e.quoted, e.held.tenant, e.sid, e.seen.edition, e.author)
    ensures forall i | 0 <= i < |e.quoted| ::
              && e.quoted[i].id !in before && e.quoted[i].id in after
              && after[e.quoted[i].id] == Quotation(e.held.tenant, e.sid, e.seen.edition, e.author, e.quoted[i].pages)
    ensures forall k | k in after && k !in before :: exists i :: 0 <= i < |e.quoted| && e.quoted[i].id == k
  {
    forall i | 0 <= i < |e.quoted|
      ensures && e.quoted[i].id !in before && e.quoted[i].id in after
              && after[e.quoted[i].id] == Quotation(e.held.tenant, e.sid, e.seen.edition, e.author, e.quoted[i].pages)
    {
      assert op.claims[i].0 == e.quoted[i].id;
    }
    forall k | k in after && k !in before
      ensures exists i :: 0 <= i < |e.quoted| && e.quoted[i].id == k
    {
      var i :| 0 <= i < |op.claims| && op.claims[i].0 == k;
      assert e.quoted[i].id == k;
    }
  }

  lemma ObservationsAsHandedIn(before: map<Id, Observation>, after: map<Id, Observation>, e: Event, op: Op)
    requires e.BeginSubmit? && op.Submitting? && Added(before, op.observations, after)
    requires op.observations == Notes(e.observed, e.held.tenant, e.sid)
    ensures forall i | 0 <= i < |e.observed| ::
              && e.observed[i].id !in before && e.observed[i].id in after
              && after[e.observed[i].id] == Observation(e.held.tenant, e.sid, e.observed[i].page, e.observed[i].sequence)
    ensures forall k | k in after && k !in before :: exists i :: 0 <= i < |e.observed| && e.observed[i].id == k
  {
    forall i | 0 <= i < |e.observed|
      ensures && e.observed[i].id !in before && e.observed[i].id in after
              && after[e.observed[i].id] == Observation(e.held.tenant, e.sid, e.observed[i].page, e.observed[i].sequence)
    {
      assert op.observations[i].0 == e.observed[i].id;
    }
    forall k | k in after && k !in before
      ensures exists i :: 0 <= i < |e.observed| && e.observed[i].id == k
    {
      var i :| 0 <= i < |op.observations| && op.observations[i].0 == k;
      assert e.observed[i].id == k;
    }
  }

  /** A submission that commits was made by the session's own member while the session held the lease,
      finishes session and section together, and touches no other row. */
  lemma SubmissionFinishesItsSection(s: State, events: seq<Event>, e: Event, later: seq<Event>, op: Op)
    requires e.BeginSubmit? && Commits(s, events, e, later, op)
    ensures e.member == e.held.member && e.observed != [] && e.quoted != []
    ensures var t, t', id := Met(s, events, e, later).tables, After(s, events, e, later, op), e.held.assignment;
      && e.sid in t.sessions && t.sessions[e.sid] == e.held && e.held.state == Active
      && id in t.assignments && t.assignments[id] == e.seen
      && e.seen.state == InReading && e.seen.leaseOwner == e.sid
      && t'.sessions == t.sessions[e.sid := SessionRow(e.held.tenant, e.held.program, id, e.held.member,
                                                        SessionState.Submitted, e.held.version + 1)]
      && t'.assignments == t.assignments[id := AssignmentRow(
           e.seen.tenant, e.seen.program, e.seen.edition, e.seen.member, e.seen.pages, e.seen.windowStart, e.seen.windowEnd,
           AssignmentState.Submitted, e.seen.leaseToken, NO_ID, ZERO_TIME, e.seen.version + 1)]
  {
    Committing(s, events, e, later, op);
    SubmitBegun(Run(s, events), e, op);
    SubmitWrites(s.pageCount, Met(s, events, e, later).tables, op);
  }

  /** And it is computed exactly for the session's own member, holding the lease, with observations at
      distinct positive positions and claims, all of them in the section and the edition. */
  lemma SubmitIsAcceptedExactlyWhen(s: State, e: Event)
    requires e.BeginSubmit? && HoldingSession(e.sid, e.held) in s.ops && HoldingAssignment(e.held.assignment, e.seen) in s.ops
    ensures Begin(s, e).Some? <==>
            && e.member == e.held.member && e.held.state == Active
            && e.seen.state == InReading && e.seen.leaseOwner == e.sid && e.seen.edition in s.pageCount
            && e.observed != [] && e.quoted != []
            && (forall i, j | 0 <= i < j < |e.observed| :: e.observed[i].sequence != e.observed[j].sequence)
            && (forall o | o in e.observed ::
                  o.sequence >= 1 && o.page >= 1 && e.seen.pages.start <= o.page <= e.seen.pages.end)
            && (forall c | c in e.quoted ::
                  && e.seen.pages.start <= c.pages.start <= c.pages.end <= e.seen.pages.end
                  && 1 <= c.pages.start && c.pages.end <= s.pageCount[e.seen.edition])
  {
    AcceptedEvidence(s.pageCount, e.seen.edition, e.seen.pages, e.observed, e.quoted);
  }

  // ---------- Reserve

  /** A reservation is computed exactly when program, member and edition are active, the pages are in
      the edition, the window is proper and inside the program's, and all identifiers are given. */
  lemma ReserveIsAcceptedExactlyWhen(s: State, e: Event)
    requires e.BeginReserve?
    ensures Begin(s, e).Some? <==>
            && e.view.programActive && e.view.memberActive && e.view.editionActive
            && e.edition in s.pageCount && 1 <= e.pages.start <= e.pages.end <= s.pageCount[e.edition]
            && e.view.programStart <= e.start < e.end <= e.view.programEnd
            && 0 !in [e.id, e.tenant, e.program, e.edition, e.member]
  {
  }

  /** And stores exactly what was asked for. */
  lemma ReservationIsAsAsked(s: State, events: seq<Event>, e: Event, later: seq<Event>, op: Op)
    requires e.BeginReserve? && Commits(s, events, e, later, op)
    ensures var t, t' := Met(s, events, e, later).tables, After(s, events, e, later, op);
      && e.id !in t.assignments
      && t' == t.(assignments := t.assignments[e.id := AssignmentRow(
           e.tenant, e.program, e.edition, e.member, e.pages, e.start, e.end, Reserved, 0, NO_ID, ZERO_TIME, 1)])
  {
    Committing(s, events, e, later, op);
  }

  // ---------- Move

  /** A move that commits was asked for by the reservation's own member while it was unused, gives it the
      pages and the window asked for, and touches nothing else. */
  lemma MoveIsAsAskedByTheMember(s: State, events: seq<Event>, e: Event, later: seq<Event>, op: Op)
    requires e.BeginMove? && Commits(s, events, e, later, op)
    ensures var t, t' := Met(s, events, e, later).tables, After(s, events, e, later, op);
      && e.id in t.assignments && t.assignments[e.id] == e.seen
      && e.member == e.seen.member && e.seen.state == Reserved
      && t' == t.(assignments := t.assignments[e.id := AssignmentRow(
           e.seen.tenant, e.seen.program, e.seen.edition, e.seen.member, e.pages, e.start, e.end, Reserved,
           e.seen.leaseToken, e.seen.leaseOwner, e.seen.leaseUntil, e.seen.version + 1)])
  {
    MoveBegun(Run(s, events), e, op);
    CommittingRow(s, events, e, later, op);
  }

  lemma MoveBegun(s: State, e: Event, op: Op)
    requires e.BeginMove? && Begin(s, e) == Some(op)
    ensures e.member == e.seen.member && e.seen.state == Reserved
    ensures op == Moving(e.id, e.seen, AssignmentRow(
              e.seen.tenant, e.seen.program, e.seen.edition, e.seen.member, e.pages, e.start, e.end, Reserved,
              e.seen.leaseToken, e.seen.leaseOwner, e.seen.leaseUntil, e.seen.version + 1))
  {
  }

  /** And a member's own unused reservation can be moved to any proper place in its edition. */
  lemma MoveIsAcceptedExactlyWhen(s: State, e: Event)
    requires e.BeginMove? && HoldingAssignment(e.id, e.seen) in s.ops
    ensures Begin(s, e).Some? <==>
            && e.member == e.seen.member && e.seen.state == Reserved && e.seen.edition in s.pageCount
            && 1 <= e.pages.start <= e.pages.end <= s.pageCount[e.seen.edition] && e.start < e.end
  {
  }

  // ---------- Start

  /** A session is computed exactly for the reservation's own active member, inside the reserved window,
      with a lease of positive length. */
  lemma StartIsAcceptedExactlyWhen(s: State, events: seq<Event>, e: Event)
    requires Initial(s) && e.BeginStart? && HoldingAssignment(e.id, e.seen) in Run(s, events).ops
    ensures Begin(Run(s, events), e).Some? <==>
            && e.member == e.seen.member && e.memberActive && e.seen.state == Reserved
            && e.seen.windowStart <= Run(s, events).now < e.seen.windowEnd && e.ttl > 0
            && 0 !in [e.sid, e.seen.tenant, e.seen.program, e.id, e.member]
  {
    Reached(s, events);
  }

  lemma StartBegun(s: State, e: Event, op: Op)
    requires e.BeginStart? && Begin(s, e) == Some(op)
    ensures op.Starting? && op.id == e.id && op.seen == e.seen && op.sid == e.sid
    ensures e.member == e.seen.member && e.memberActive && e.seen.windowStart <= s.now < e.seen.windowEnd
    ensures op.session == SessionRow(e.seen.tenant, e.seen.program, e.id, e.member, Active, 2)
    ensures op.row == AssignmentRow(
              e.seen.tenant, e.seen.program, e.seen.edition, e.seen.member, e.seen.pages, e.seen.windowStart, e.seen.windowEnd,
              InReading, e.seen.leaseToken + 1, e.sid, s.now + e.ttl, e.seen.version + 1)
  {
  }

  /** A start that commits puts the session and its lease in place, and touches nothing else. */
  lemma StartedInsideItsWindow(s: State, events: seq<Event>, e: Event, later: seq<Event>, op: Op)
    requires e.BeginStart? && Commits(s, events, e, later, op)
    ensures e.member == e.seen.member && e.memberActive
    ensures e.seen.windowStart <= Run(s, events).now < e.seen.windowEnd
    ensures var t, t', from := Met(s, events, e, later).tables, After(s, events, e, later, op), Run(s, events).now;
      && e.id in t.assignments && t.assignments[e.id] == e.seen && e.sid !in t.sessions
      && t' == t.(sessions := t.sessions[e.sid := SessionRow(e.seen.tenant, e.seen.program, e.id, e.member, Active, 2)],
                  assignments := t.assignments[e.id := AssignmentRow(
                    e.seen.tenant, e.seen.program, e.seen.edition, e.seen.member, e.seen.pages,
                    e.seen.windowStart, e.seen.windowEnd, InReading,
                    e.seen.leaseToken + 1, e.sid, from + e.ttl, e.seen.version + 1)])
  {
    Committing(s, events, e, later, op);
    StartBegun(Run(s, events), e, op);
    StartCurrent(Met(s, events, e, later).tables, op);
  }

  /** The rows that the sweep lists, told by their fields. */
  lemma ListsExactly(s: State, id: Id, at: Instant)
    requires Inv(s) && id in s.tables.assignments && at <= s.now
    ensures var a := s.tables.assignments[id];
      Begin(s, ListDue(id, at)).Some?
      <==> || (a.state == Reserved && at >= a.windowEnd)
           || (a.state == InReading && (at >= a.windowEnd || at >= a.leaseUntil))
  {
    assert RowOk(s.pageCount, s.tables.assignments[id]);
  }

  lemma RowStays(s: State, more: seq<Event>, id: Id)
    requires Inv(s) && id in s.tables.assignments && id in Run(s, more).tables.assignments
    requires Run(s, more).tables.assignments[id].version == s.tables.assignments[id].version
    ensures Inv(Run(s, more)) && Run(s, more).tables.assignments[id] == s.tables.assignments[id]
  {
    RunKeeps(s, more);
  }

  /** As long as the row of a started session has not been rewritten, the sweep lists it exactly from the
      end of its window or of its lease on, whichever comes first. */
  lemma SweepTakesAStartFromItsLeaseEnd(s: State, events: seq<Event>, e: Event, later: seq<Event>, op: Op,
                                        more: seq<Event>, at: Instant)
    requires e.BeginStart? && Commits(s, events, e, later, op)
    requires var s3 := Run(Next(Met(s, events, e, later), Commit(op)), more);
      && at <= s3.now && e.id in s3.tables.assignments
      && s3.tables.assignments[e.id].version == e.seen.version + 1
    ensures Begin(Run(Next(Met(s, events, e, later), Commit(op)), more), ListDue(e.id, at)).Some?
       <==> at >= e.seen.windowEnd || at >= Run(s, events).now + e.ttl
  {
    Committing(s, events, e, later, op);
    StartedInsideItsWindow(s, events, e, later, op);
    CommitStepKeeps(Met(s, events, e, later), op);
    var s2 := Next(Met(s, events, e, later), Commit(op));
    RowStays(s2, more, e.id);
    ListsExactly(Run(s2, more), e.id, at);
  }

  // ---------- Abandon

  /** An abandonment that commits was asked for by the session's own member, ends the session, releases the
      reservation unless the sweep had taken it, and touches nothing else. */
  lemma AbandonmentReleases(s: State, events: seq<Event>, e: Event, later: seq<Event>, op: Op)
    requires e.BeginAbandon? && Commits(s, events, e, later, op)
    ensures var t, t', id := Met(s, events, e, later).tables, After(s, events, e, later, op), e.held.assignment;
      && e.member == e.held.member
      && e.sid in t.sessions && t.sessions[e.sid] == e.held && e.held.state == Active
      && id in t.assignments && t.assignments[id] == e.seen
      && t'.sessions == t.sessions[e.sid := SessionRow(e.held.tenant, e.held.program, id, e.held.member,
                                                        Abandoned, e.held.version + 1)]
      && t'.assignments == (
           if e.seen.state == Expired then t.assignments
           else t.assignments[id := AssignmentRow(
             e.seen.tenant, e.seen.program, e.seen.edition, e.seen.member, e.seen.pages,
             e.seen.windowStart, e.seen.windowEnd, Released,
             e.seen.leaseToken, NO_ID, ZERO_TIME, e.seen.version + 1)])
      && t'.claims == t.claims && t'.observations == t.observations
  {
    Committing(s, events, e, later, op);
    AbandonBegun(Run(s, events), e, op);
    AbandonWrites(Met(s, events, e, later).tables, op);
  }

  lemma AbandonBegun(s: State, e: Event, op: Op)
    requires e.BeginAbandon? && Begin(s, e) == Some(op)
    ensures op.Abandoning? && op.sid == e.sid && op.sessionSeen == e.held && op.id == e.held.assignment && op.seen == e.seen
    ensures e.member == e.held.member && e.held.state in {Prepared, Active, Reopened}
    ensures op.session == SessionRow(e.held.tenant, e.held.program, e.held.assignment, e.held.member,
                                     Abandoned, e.held.version + 1)
    ensures op.row == if e.seen.state in {Released, Expired} then e.seen else AssignmentRow(
              e.seen.tenant, e.seen.program, e.seen.edition, e.seen.member, e.seen.pages, e.seen.windowStart, e.seen.windowEnd,
              Released, e.seen.leaseToken, NO_ID, ZERO_TIME, e.seen.version + 1)
  {
  }

  lemma AbandonWrites(t: Tables, op: Op)
    requires op.Abandoning? && op.id == op.sessionSeen.assignment && Coupled(t) && Transact(t, op).Ok?
    requires SeenSession(t, op.sid, op.sessionSeen) && SeenAssignment(t, op.id, op.seen)
    requires op.sessionSeen.state in {Prepared, Active, Reopened}
    ensures t.sessions[op.sid] == op.sessionSeen && t.assignments[op.id] == op.seen
    ensures op.sessionSeen.state == Active && op.seen.state != Released
    ensures Transact(t, op).value
         == t.(assignments := t.assignments[op.id := op.row], sessions := t.sessions[op.sid := op.session])
    ensures op.row == op.seen ==> t.assignments[op.id := op.row] == t.assignments
  {
    AbandonCurrent(t, op);
    assert Agree(op.sid, op.sessionSeen, op.seen);
  }

  /** And it is computed exactly for the session's own member while neither row is finished. */
  lemma AbandonIsAcceptedExactlyWhen(s: State, e: Event)
    requires e.BeginAbandon? && HoldingSession(e.sid, e.held) in s.ops && HoldingAssignment(e.held.assignment, e.seen) in s.ops
    ensures Begin(s, e).Some? <==>
            && e.member == e.held.member && e.held.state in {Prepared, Active, Reopened}
            && e.seen.state != AssignmentState.Submitted
  {
  }

  // ---------- Expiry

  /** One turn of the sweep takes away the lease and marks the row, and touches nothing else. */
  lemma ExpiryMarksItsRow(s: State, events: seq<Event>, e: Event, later: seq<Event>, op: Op)
    requires e.ListDue? && Commits(s, events, e, later, op)
    ensures var t, t' := Met(s, events, e, later).tables, After(s, events, e, later, op);
      && e.id in t.assignments && t.assignments[e.id].state in {Reserved, InReading}
      && var a := t.assignments[e.id];
         t' == t.(assignments := t.assignments[e.id := AssignmentRow(
           a.tenant, a.program, a.edition, a.member, a.pages, a.windowStart, a.windowEnd, Expired,
           a.leaseToken, NO_ID, ZERO_TIME, a.version + 1)])
  {
    ExpiryBegun(Run(s, events), e, op);
    CommittingRow(s, events, e, later, op);
  }

  lemma ExpiryBegun(s: State, e: Event, op: Op)
    requires e.ListDue? && Begin(s, e) == Some(op)
    ensures op.Expiring? && op.id == e.id && op.seen.state in {Reserved, InReading}
    ensures op.row == AssignmentRow(
              op.seen.tenant, op.seen.program, op.seen.edition, op.seen.member, op.seen.pages,
              op.seen.windowStart, op.seen.windowEnd, Expired, op.seen.leaseToken, NO_ID, ZERO_TIME, op.seen.version + 1)
  {
  }

  // ---------- Tenants

  /** What a call has in hand about a tenant's rows it has read as that tenant. */
  lemma ReadsStayInTheTenant(s: State, e: Event)
    ensures e.ReadAssignment? ==>
      (Begin(s, e).Some? <==> e.id in s.tables.assignments && s.tables.assignments[e.id].tenant == e.tenant)
    ensures e.ReadAssignment? && Begin(s, e).Some? ==>
      Begin(s, e).value == HoldingAssignment(e.id, s.tables.assignments[e.id])
    ensures e.ReadSession? ==>
      (Begin(s, e).Some? <==> e.sid in s.tables.sessions && s.tables.sessions[e.sid].tenant == e.tenant)
    ensures e.ReadSession? && Begin(s, e).Some? ==>
      Begin(s, e).value == HoldingSession(e.sid, s.tables.sessions[e.sid])
  {
  }
}
