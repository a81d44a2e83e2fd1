/** The reading services: main results, for every run. */
module ReadingResults {
  import opened Prelude
  import opened Versions
  import opened ReadingDomain
  import opened ReadingProtocol
  import opened ReadingSafety

  /** No page of an edition is booked by two live reservations of a program at the same instant. */
  lemma NeverDoubleBooked(s: State, events: seq<Event>, i: Id, j: Id, page: int, instant: Instant)
    requires Initial(s)
    requires var table := Run(s, events).tables.assignments;
      i in table && j in table && i != j && table[i].SameScope(table[j])
    ensures var table := Run(s, events).tables.assignments;
      !(table[i].Books(page, instant) && table[j].Books(page, instant))
  {
    Reached(s, events);
    var table := Run(s, events).tables.assignments;
    assert !table[i].Conflicts(table[j]);
    ConflictIsDoubleBooking(table[i], table[j]);
  }

  /** The rows that `op` is about to overwrite are the rows it saw, and the rows it inserts are new. */
  predicate MeetsWhatItSaw(t: Tables, op: Op) {
    match op
    case Reserving(id, _) => id !in t.assignments
    case Moving(id, seen, _) => id in t.assignments && t.assignments[id] == seen
    case Starting(id, seen, _, sid, _) => id in t.assignments && t.assignments[id] == seen && sid !in t.sessions
    case Abandoning(sid, sessionSeen, _, id, seen, _) =>
      && sid in t.sessions && t.sessions[sid] == sessionSeen
      && id in t.assignments && t.assignments[id] == seen
    case Submitting(sid, sessionSeen, _, id, seen, _, _, _) =>
      && sid in t.sessions && t.sessions[sid] == sessionSeen
      && id in t.assignments && t.assignments[id] == seen
    case Expiring(id, seen, _, _) => id in t.assignments && t.assignments[id] == seen
    case _ => false
  }

  lemma CommitMeetsWhatItSaw(pageCount: map<Id, int>, t: Tables, op: Op)
    requires OpOk(pageCount, t, op) && Transact(t, op).Ok?
    ensures MeetsWhatItSaw(t, op)
  {
    match op
    case Starting(_, _, _, _, _) => StartCurrent(t, op);
    case Abandoning(_, _, _, _, _, _) => AbandonCurrent(t, op);
    case Submitting(_, _, _, _, _, _, _, _) => SubmitCurrent(t, op);
    case _ =>
  }

  /** Whatever an operation in flight has seen, and however late it commits: when the transaction
      succeeds, every row it overwrites is still the row it saw. */
  lemma CommitOverwritesOnlySeenRows(s: State, events: seq<Event>, op: Op)
    requires Initial(s)
    requires op in Run(s, events).ops && Transact(Run(s, events).tables, op).Ok?
    ensures MeetsWhatItSaw(Run(s, events).tables, op)
  {
    Reached(s, events);
    CommitMeetsWhatItSaw(s.pageCount, Run(s, events).tables, op);
  }

  /** No ABA: a snapshot with the version of the stored row is the stored row. */
  lemma SameVersionIsSameRow(s: State, events: seq<Event>, op: Op)
    requires Initial(s) && op in Run(s, events).ops && !op.Reserving?
    ensures var t := Run(s, events).tables;
      && (!op.HoldingSession? ==> op.id in t.assignments
                                  && (t.assignments[op.id].version == op.seen.version ==> t.assignments[op.id] == op.seen))
      && (op.HoldingSession? || op.Abandoning? || op.Submitting? ==>
            op.sid in t.sessions
            && (t.sessions[op.sid].version == op.sessionSeen.version ==> t.sessions[op.sid] == op.sessionSeen))
  {
    Reached(s, events);
    assert OpOk(s.pageCount, Run(s, events).tables, op);
  }

  /** A reservation commits exactly when its id is new and no stored reservation conflicts with it. */
  lemma ReserveCommitsExactlyWhenFree(s: State, events: seq<Event>, id: Id, row: AssignmentRow)
    requires Initial(s) && Reserving(id, row) in Run(s, events).ops
    ensures var table := Run(s, events).tables.assignments;
      Transact(Run(s, events).tables, Reserving(id, row)).Ok?
      <==> id !in table && forall k | k in table :: !row.Conflicts(table[k])
  {
    Reached(s, events);
    var table := Run(s, events).tables.assignments;
    assert OpOk(s.pageCount, Run(s, events).tables, Reserving(id, row));
    forall k | k in table
      ensures row.Conflicts(table[k]) <==> k in Conflicting(table, row, NO_ID)
    {
    }
  }

  /** A move commits exactly when the reservation has not changed and its new place is free. */
  lemma MoveCommitsExactlyWhenFree(s: State, events: seq<Event>, op: Op)
    requires Initial(s) && op in Run(s, events).ops && op.Moving?
    ensures var t := Run(s, events).tables;
      Transact(t, op).Ok? <==>
        && MeetsWhatItSaw(t, op)
        && forall k | k in t.assignments && k != op.id :: !op.row.Conflicts(t.assignments[k])
  {
    Reached(s, events);
    var t := Run(s, events).tables;
    assert OpOk(s.pageCount, t, op);
    forall k | k in t.assignments && k != op.id
      ensures op.row.Conflicts(t.assignments[k]) <==> k in Conflicting(t.assignments, op.row, op.id)
    {
    }
  }

  predicate FreshIds<V>(table: map<Id, V>, news: seq<(Id, V)>) {
    && (forall i | 0 <= i < |news| :: news[i].0 !in table)
    && (forall i, j | 0 <= i < j < |news| :: news[i].0 != news[j].0)
  }

  /** Observations at new positions are inserted exactly when their ids are new. */
  lemma {:induction false} ObservationsGoIn(table: map<Id, Observation>, news: seq<(Id, Observation)>)
    requires forall k, i | k in table && 0 <= i < |news| :: !SamePosition(table[k], news[i].1)
    requires forall i, j | 0 <= i < j < |news| :: !SamePosition(news[i].1, news[j].1)
    ensures InsertObservations(table, news).Ok? <==> FreshIds(table, news)
    decreases |news|
  {
    if news != [] && news[0].0 !in table {
      var next := table[news[0].0 := news[0].1];
      assert forall i | 0 <= i < |news[1..]| :: news[1..][i] == news[i + 1];
      ObservationsGoIn(next, news[1..]);
      NextFresh(table, news);
    }
  }

  lemma {:induction false} ClaimsGoIn(table: map<Id, Quotation>, news: seq<(Id, Quotation)>)
    ensures InsertClaims(table, news).Ok? <==> FreshIds(table, news)
    decreases |news|
  {
    if news != [] && news[0].0 !in table {
      ClaimsGoIn(table[news[0].0 := news[0].1], news[1..]);
      NextFresh(table, news);
    }
  }

  lemma NextFresh<V>(table: map<Id, V>, news: seq<(Id, V)>)
    requires news != [] && news[0].0 !in table
    ensures FreshIds(table, news) <==> FreshIds(table[news[0].0 := news[0].1], news[1..])
  {
    assert forall i | 0 <= i < |news[1..]| :: news[1..][i] == news[i + 1];
    if FreshIds(table[news[0].0 := news[0].1], news[1..]) {
      forall i | 0 < i < |news|
        ensures news[i].0 !in table && news[i].0 != news[0].0
      {
        assert news[i] == news[1..][i - 1];
      }
      forall i, j | 0 <= i < j < |news|
        ensures news[i].0 != news[j].0
      {
        if i > 0 { assert news[i] == news[1..][i - 1] && news[j] == news[1..][j - 1]; }
      }
    }
  }

  lemma SubmissionGoesIn(t: Tables, op: Op)
    requires EvidenceInside(t) && op.Submitting? && op.sid in t.sessions && t.sessions[op.sid] == op.sessionSeen
    requires op.sessionSeen.state != SessionState.Submitted
    requires EvidenceFits(op.sid, op.sessionSeen.tenant, op.seen, op.observations, op.claims)
    ensures InsertEvidence(t.(sessions := t.sessions[op.sid := op.session], assignments := t.assignments[op.id := op.row]),
                           op.observations, op.claims).Ok?
       <==> FreshIds(t.observations, op.observations) && FreshIds(t.claims, op.claims)
  {
    forall k | k in t.observations
      ensures t.observations[k].session != op.sid
    {
      assert Evidenced(t, t.observations[k].tenant, t.observations[k].session);
    }
    ObservationsGoIn(t.observations, op.observations);
    ClaimsGoIn(t.claims, op.claims);
  }

  /** A submission commits exactly when neither session nor section has changed and its own ids are
      new: the positions it records are never taken. */
  lemma SubmitCommitsExactlyWhenUnchanged(s: State, events: seq<Event>, op: Op)
    requires Initial(s) && op in Run(s, events).ops && op.Submitting?
    ensures var t := Run(s, events).tables;
      Transact(t, op).Ok? <==>
        && MeetsWhatItSaw(t, op)
        && FreshIds(t.observations, op.observations) && FreshIds(t.claims, op.claims)
  {
    Reached(s, events);
    var t := Run(s, events).tables;
    assert OpOk(s.pageCount, t, op);
    if MeetsWhatItSaw(t, op) {
      SubmissionGoesIn(t, op);
    }
    if Transact(t, op).Ok? {
      SubmitCurrent(t, op);
    }
  }

  lemma UnchangedCommits(pageCount: map<Id, int>, t: Tables, op: Op)
    requires TablesOk(pageCount, t) && OpOk(pageCount, t, op) && MeetsWhatItSaw(t, op)
    ensures op.Starting? || op.Abandoning? || op.Expiring? ==> Transact(t, op).Ok?
  {
    if op.Starting? {
      var t1 := t.(assignments := t.assignments[op.id := op.row]);
      assert forall k | k in t1.sessions :: t1.sessions[k].assignment != op.id;
    }
  }

  /** A start, an abandonment or an expiry commits exactly when nothing it saw has changed. */
  lemma CommitsExactlyWhenUnchanged(s: State, events: seq<Event>, op: Op)
    requires Initial(s) && op in Run(s, events).ops && (op.Starting? || op.Abandoning? || op.Expiring?)
    ensures Transact(Run(s, events).tables, op).Ok? <==> MeetsWhatItSaw(Run(s, events).tables, op)
  {
    Reached(s, events);
    var t := Run(s, events).tables;
    if Transact(t, op).Ok? {
      CommitMeetsWhatItSaw(s.pageCount, t, op);
    }
    if MeetsWhatItSaw(t, op) {
      UnchangedCommits(s.pageCount, t, op);
    }
  }

  /** The sessions of assignment `k`. */
  function SessionsOf(t: Tables, k: Id): set<Id> {
    set sid | sid in t.sessions && t.sessions[sid].assignment == k
  }

  ghost predicate SessionsFollow(t: Tables, k: Id)
    requires k in t.assignments
  {
    var a := t.assignments[k];
    && |SessionsOf(t, k)| <= 1
    && (a.state == Reserved ==> SessionsOf(t, k) == {})
    && (a.state == InReading ==>
          SessionsOf(t, k) == {a.leaseOwner} && t.sessions[a.leaseOwner].state == Active)
    && (a.state == AssignmentState.Submitted ==> SessionsOf(t, k) != {})
    && a.leaseToken == |SessionsOf(t, k)|
    && (forall sid | sid in SessionsOf(t, k) ::
          && (t.sessions[sid].state == SessionState.Submitted <==> a.state == AssignmentState.Submitted)
          && (t.sessions[sid].state == Abandoned ==> a.state == Released || a.state == Expired)
          && (t.sessions[sid].state == Active ==> a.state == InReading || a.state == Expired))
  }

  lemma CoupledSessionsFollow(pageCount: map<Id, int>, t: Tables, k: Id)
    requires RowsOk(pageCount, t.assignments) && Coupled(t) && k in t.assignments
    ensures SessionsFollow(t, k)
  {
    assert t.assignments[k].leaseToken != 0 ==> HasSession(t, k);
    if sid :| sid in t.sessions && t.sessions[sid].assignment == k {
      assert SessionsOf(t, k) == {sid};
    }
  }

  /** Sessions and assignments stay coupled, and the lease token counts the sessions. */
  lemma SessionsFollowAssignments(s: State, events: seq<Event>, k: Id)
    requires Initial(s) && k in Run(s, events).tables.assignments
    ensures SessionsFollow(Run(s, events).tables, k)
  {
    Reached(s, events);
    CoupledSessionsFollow(s.pageCount, Run(s, events).tables, k);
  }

  /** A session whose assignment expired under it is never submitted, by anyone, however late. */
  lemma ExpiredIsNeverSubmitted(s: State, events: seq<Event>, later: seq<Event>, sid: Id)
    requires Initial(s)
    requires var t := Run(s, events).tables;
      && sid in t.sessions && t.sessions[sid].assignment in t.assignments
      && t.assignments[t.sessions[sid].assignment].state == Expired
    ensures var t := Run(Run(s, events), later).tables;
      sid in t.sessions && t.sessions[sid].state in {Active, Abandoned}
  {
    Reached(s, events);
    var s1 := Run(s, events);
    RunKeeps(s1, later);
    assert Finished(s1.tables.assignments[s1.tables.sessions[sid].assignment]);
  }

  /** A stored claim lies, for ever, in the pages of its section, and the section in its edition;
      neither the claim nor the section ever changes again. */
  lemma ClaimsLieInTheirSectionForEver(s: State, events: seq<Event>, later: seq<Event>, k: Id)
    requires Initial(s) && k in Run(s, events).tables.claims
    ensures var t, t' := Run(s, events).tables, Run(Run(s, events), later).tables;
      var sid := t.claims[k].session;
      && sid in t.sessions && t.sessions[sid].assignment in t.assignments
      && k in t'.claims && t'.claims[k] == t.claims[k]
      && sid in t'.sessions && t'.sessions[sid].assignment in t'.assignments
      && Section(t', sid) == Section(t, sid)
      && t.claims[k].pages.Valid() && t.claims[k].pages.Within(Section(t, sid).pages)
      && ValidatePageRange(s.pageCount, t.claims[k].edition, Section(t, sid).pages)
  {
    Reached(s, events);
    RunKeeps(Run(s, events), later);
    ClaimStays(s.pageCount, Run(s, events).tables, Run(Run(s, events), later).tables, k);
  }

  lemma ClaimStays(pageCount: map<Id, int>, t: Tables, t': Tables, k: Id)
    requires RowsOk(pageCount, t.assignments) && Coupled(t) && EvidenceInside(t) && TablesAdvance(t, t') && k in t.claims
    ensures var sid := t.claims[k].session;
      && sid in t.sessions && t.sessions[sid].assignment in t.assignments
      && k in t'.claims && t'.claims[k] == t.claims[k]
      && sid in t'.sessions && t'.sessions[sid].assignment in t'.assignments
      && Section(t', sid) == Section(t, sid)
      && t.claims[k].pages.Valid() && t.claims[k].pages.Within(Section(t, sid).pages)
      && ValidatePageRange(pageCount, t.claims[k].edition, Section(t, sid).pages)
  {
    assert Evidenced(t, t.claims[k].tenant, t.claims[k].session);
    assert Finished(Section(t, t.claims[k].session));
  }

  lemma ObservationsLieInTheirSection(s: State, events: seq<Event>, k: Id, other: Id)
    requires Initial(s) && k in Run(s, events).tables.observations
    ensures var t := Run(s, events).tables;
      var o := t.observations[k];
      && o.session in t.sessions && t.sessions[o.session].assignment in t.assignments
      && Section(t, o.session).pages.Has(o.page)
      && (other in t.observations && other != k ==> !SamePosition(o, t.observations[other]))
  {
    Reached(s, events);
  }

  ghost predicate DisjointWindows(a: AssignmentRow, b: AssignmentRow) {
    a.windowEnd <= b.windowStart || b.windowEnd <= a.windowStart
  }

  lemma OverlapMeansDisjointWindows(t: Tables, k: Id, l: Id)
    requires NoConflicts(t.assignments) && Coupled(t) && EvidenceInside(t)
    requires k in t.claims && l in t.claims && t.claims[k].pages.Overlaps(t.claims[l].pages)
    requires t.sessions[t.claims[k].session].assignment != t.sessions[t.claims[l].session].assignment
    requires Section(t, t.claims[k].session).SameScope(Section(t, t.claims[l].session))
    ensures DisjointWindows(Section(t, t.claims[k].session), Section(t, t.claims[l].session))
  {
    var a, b := Section(t, t.claims[k].session), Section(t, t.claims[l].session);
    assert a.state == AssignmentState.Submitted && b.state == AssignmentState.Submitted;
    assert !a.Conflicts(b);
  }

  /** Overlapping claims from different sections of one program and edition come from disjoint
      windows. */
  lemma OverlappingClaimsHaveDisjointWindows(s: State, events: seq<Event>, k: Id, l: Id)
    requires Initial(s)
    requires k in Run(s, events).tables.claims && l in Run(s, events).tables.claims
    ensures var t := Run(s, events).tables;
      var x, y := t.claims[k].session, t.claims[l].session;
      && x in t.sessions && t.sessions[x].assignment in t.assignments
      && y in t.sessions && t.sessions[y].assignment in t.assignments
      && (t.claims[k].pages.Overlaps(t.claims[l].pages)
          && t.sessions[x].assignment != t.sessions[y].assignment
          && Section(t, x).SameScope(Section(t, y))
          ==> DisjointWindows(Section(t, x), Section(t, y)))
  {
    Reached(s, events);
    var t := Run(s, events).tables;
    var x, y := t.claims[k].session, t.claims[l].session;
    assert Evidenced(t, t.claims[k].tenant, x) && Evidenced(t, t.claims[l].tenant, y);
    if && t.claims[k].pages.Overlaps(t.claims[l].pages)
       && t.sessions[x].assignment != t.sessions[y].assignment && Section(t, x).SameScope(Section(t, y)) {
      OverlapMeansDisjointWindows(t, k, l);
    }
  }

  lemma ExpiredByTheSweep(pageCount: map<Id, int>, t: Tables, op: Op, k: Id)
    requires OpOk(pageCount, t, op) && Transact(t, op).Ok? && k in t.assignments
    requires t.assignments[k].state != Expired && Transact(t, op).value.assignments[k].state == Expired
    ensures op.Expiring? && op.id == k && Due(t.assignments[k], op.at)
  {
    if op.Submitting? {
      SubmitCurrent(t, op);
    }
  }

  /** Only the sweep expires a row, and only one whose window end or lease was reached at the
      sweep's own clock reading. */
  lemma OnlyDueRowsExpire(s: State, events: seq<Event>, e: Event, k: Id)
    requires Initial(s) && k in Run(s, events).tables.assignments
    requires k in Next(Run(s, events), e).tables.assignments
    requires Run(s, events).tables.assignments[k].state != Expired
    requires Next(Run(s, events), e).tables.assignments[k].state == Expired
    ensures e.Commit? && e.op.Expiring? && e.op.id == k && e.op.at <= Run(s, events).now
    ensures Due(Run(s, events).tables.assignments[k], e.op.at)
  {
    Reached(s, events);
    ExpiredByTheSweep(s.pageCount, Run(s, events).tables, e.op, k);
  }

  /** Remark: Expire accepts exactly the listed rows and, without any deadline, every unused reservation:
      it is the query's filter that protects those. */
  lemma ExpireNeedsTheFilter(pageCount: map<Id, int>, a: AssignmentRow, now: Instant)
    requires RowOk(pageCount, a) && now >= 1
    ensures a.Expire(a.leaseToken, now).Ok? <==> Due(a, now) || a.state == Reserved
  {
    assert a.state == Reserved ==> a.leaseUntil == ZERO_TIME;
  }

  /** Remark: an unused reservation moves to any free window: no check mentions the program. */
  lemma MoveReachesAnyFreeWindow(pageCount: map<Id, int>, t: Tables, id: Id, pages: PageRange, start: Instant, end: Instant)
    requires id in t.assignments && t.assignments[id].state == Reserved
    requires ValidatePageRange(pageCount, t.assignments[id].edition, pages) && start < end
    requires Conflicting(t.assignments,
                         t.assignments[id].(pages := pages, windowStart := start, windowEnd := end), id) == {}
    ensures var seen := t.assignments[id];
      var row := seen.(pages := pages, windowStart := start, windowEnd := end, version := seen.version + 1);
      && Move(pageCount, id, seen, seen.member, pages, start, end) == Ok(Moving(id, seen, row))
      && Transact(t, Moving(id, seen, row)) == Ok(t.(assignments := t.assignments[id := row]))
  {
    var seen := t.assignments[id];
    var asked := seen.(pages := pages, windowStart := start, windowEnd := end);
    assert Conflicting(t.assignments, asked.(version := seen.version + 1), id) == Conflicting(t.assignments, asked, id);
  }
}
