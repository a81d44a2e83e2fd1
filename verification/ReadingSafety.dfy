/** What every run of the reading protocol keeps. */
module ReadingSafety {
  import opened Prelude
  import opened Versions
  import opened ReadingDomain
  import opened ReadingProtocol

  // ---------- The invariant

  ghost predicate RowOk(pageCount: map<Id, int>, a: AssignmentRow) {
    && ValidatePageRange(pageCount, a.edition, a.pages)
    && a.windowStart < a.windowEnd
    && (a.state == InReading <==> a.leaseOwner != NO_ID)
    && (a.state == InReading <==> a.leaseUntil != ZERO_TIME)
    && (a.state == Reserved ==> a.leaseToken == 0)
    && (a.state == InReading || a.state == AssignmentState.Submitted ==> a.leaseToken == 1)
  }

  ghost predicate RowsOk(pageCount: map<Id, int>, table: map<Id, AssignmentRow>) {
    NO_ID !in table && forall k | k in table :: RowOk(pageCount, table[k])
  }

  ghost predicate NoConflicts(table: map<Id, AssignmentRow>) {
    forall i, j | i in table && j in table && i != j :: !table[i].Conflicts(table[j])
  }

  /** How a session and its assignment may stand to each other. */
  ghost predicate Agree(sid: Id, x: SessionRow, a: AssignmentRow) {
    && x.tenant == a.tenant && x.member == a.member && a.leaseToken == 1
    && match x.state
       case Active => (a.state == InReading && a.leaseOwner == sid) || a.state == Expired
       case Submitted => a.state == AssignmentState.Submitted
       case Abandoned => a.state == Released || a.state == Expired
       case _ => false
  }

  ghost predicate Coupled(t: Tables) {
    && (forall sid | sid in t.sessions ::
          && t.sessions[sid].assignment in t.assignments
          && Agree(sid, t.sessions[sid], t.assignments[t.sessions[sid].assignment]))
    && (forall i, j | i in t.sessions && j in t.sessions && i != j ::
          t.sessions[i].assignment != t.sessions[j].assignment)
    && (forall k | k in t.assignments && t.assignments[k].state == InReading ::
          && t.assignments[k].leaseOwner in t.sessions
          && t.sessions[t.assignments[k].leaseOwner].assignment == k)
    && (forall k | k in t.assignments && t.assignments[k].leaseToken != 0 :: HasSession(t, k))
  }

  ghost predicate HasSession(t: Tables, k: Id) {
    exists sid :: sid in t.sessions && t.sessions[sid].assignment == k
  }

  /** The section that a submitted session's evidence must lie in. */
  ghost predicate Evidenced(t: Tables, tenant: Id, sid: Id) {
    && sid in t.sessions && t.sessions[sid].state == SessionState.Submitted
    && t.sessions[sid].tenant == tenant
    && t.sessions[sid].assignment in t.assignments
  }

  function Section(t: Tables, sid: Id): AssignmentRow
    requires sid in t.sessions && t.sessions[sid].assignment in t.assignments
  {
    t.assignments[t.sessions[sid].assignment]
  }

  ghost predicate EvidenceInside(t: Tables) {
    && (forall k | k in t.observations :: var o := t.observations[k];
          Evidenced(t, o.tenant, o.session) && Section(t, o.session).pages.Has(o.page))
    && (forall k | k in t.claims :: var c := t.claims[k];
          Evidenced(t, c.tenant, c.session) && c.pages.Valid()
          && c.edition == Section(t, c.session).edition
          && c.pages.Within(Section(t, c.session).pages))
    && (forall i, j | i in t.observations && j in t.observations && i != j ::
          !SamePosition(t.observations[i], t.observations[j]))
  }

  ghost predicate TablesOk(pageCount: map<Id, int>, t: Tables) {
    RowsOk(pageCount, t.assignments) && NoConflicts(t.assignments) && Coupled(t) && EvidenceInside(t)
  }

  ghost predicate SeenAssignment(t: Tables, id: Id, seen: AssignmentRow) {
    Snapshot(AssignmentVersion, t.assignments, id, seen)
  }

  ghost predicate SeenSession(t: Tables, sid: Id, seen: SessionRow) {
    Snapshot(SessionVersion, t.sessions, sid, seen)
  }

  /** Evidence of session `sid` inside its section, each observation at a position of its own. */
  ghost predicate EvidenceFits(sid: Id, tenant: Id, section: AssignmentRow,
                               notes: seq<(Id, Observation)>, quotations: seq<(Id, Quotation)>)
  {
    && (forall i | 0 <= i < |notes| :: var o := notes[i].1;
          o.tenant == tenant && o.session == sid && section.pages.Has(o.page))
    && (forall i, j | 0 <= i < j < |notes| :: notes[i].1.sequence != notes[j].1.sequence)
    && (forall i | 0 <= i < |quotations| :: var c := quotations[i].1;
          && c.tenant == tenant && c.session == sid && c.edition == section.edition
          && c.pages.Valid() && c.pages.Within(section.pages))
  }

  /** What an operation in flight knows: its snapshots are old rows, and the rows it will write were
      computed from them. Only the snapshots mention the tables. */
  ghost predicate OpOk(pageCount: map<Id, int>, t: Tables, op: Op) {
    match op
    case Reserving(id, row) =>
      id != NO_ID && RowOk(pageCount, row) && row.state == Reserved
    case Moving(id, seen, row) =>
      && SeenAssignment(t, id, seen) && seen.state == Reserved
      && row == seen.(pages := row.pages, windowStart := row.windowStart, windowEnd := row.windowEnd,
                      version := seen.version + 1)
      && ValidatePageRange(pageCount, row.edition, row.pages) && row.windowStart < row.windowEnd
    case Starting(id, seen, row, sid, session) =>
      && SeenAssignment(t, id, seen)
      && (exists until, now :: now >= 1 && seen.Start(sid, until, now) == Ok(row))
      && session == SessionRow(seen.tenant, seen.program, id, seen.member, Active, 2)
    case HoldingAssignment(id, seen) => SeenAssignment(t, id, seen)
    case HoldingSession(sid, sessionSeen) => SeenSession(t, sid, sessionSeen)
    case Abandoning(sid, sessionSeen, session, id, seen, row) =>
      && SeenSession(t, sid, sessionSeen) && sessionSeen.Abandon() == Ok(session)
      && id == sessionSeen.assignment
      && SeenAssignment(t, id, seen) && seen.Release() == Ok(row)
    case Submitting(sid, sessionSeen, session, id, seen, row, notes, quotations) =>
      && SeenSession(t, sid, sessionSeen) && sessionSeen.Submit() == Ok(session)
      && id == sessionSeen.assignment
      && SeenAssignment(t, id, seen) && seen.Submit(sid, seen.leaseToken) == Ok(row)
      && EvidenceFits(sid, sessionSeen.tenant, seen, notes, quotations)
    case Expiring(id, seen, row, at) =>
      && SeenAssignment(t, id, seen)
      && Due(seen, at) && seen.Expire(seen.leaseToken, at) == Ok(row)
  }

  ghost predicate Inv(s: State) {
    && s.now >= 1
    && TablesOk(s.pageCount, s.tables)
    && (forall op | op in s.ops :: OpOk(s.pageCount, s.tables, op))
    && (forall op | op in s.ops && op.Expiring? :: op.at <= s.now)
  }

  predicate Finished(a: AssignmentRow) { a.state != Reserved && a.state != InReading }

  /** The tables only move forward: versions grow, sessions keep their assignment, finished
      assignments are never written again, and evidence is only added. */
  ghost predicate TablesAdvance(t: Tables, t': Tables) {
    && Advances(AssignmentVersion, t.assignments, t'.assignments)
    && Advances(SessionVersion, t.sessions, t'.sessions)
    && (forall sid | sid in t.sessions ::
          sid in t'.sessions && t'.sessions[sid].assignment == t.sessions[sid].assignment)
    && (forall k | k in t.assignments && Finished(t.assignments[k]) ::
          k in t'.assignments && t'.assignments[k] == t.assignments[k])
    && (forall k | k in t.claims :: k in t'.claims && t'.claims[k] == t.claims[k])
    && (forall k | k in t.observations :: k in t'.observations && t'.observations[k] == t.observations[k])
  }

  lemma TablesAdvanceTransitive(a: Tables, b: Tables, c: Tables)
    requires TablesAdvance(a, b) && TablesAdvance(b, c)
    ensures TablesAdvance(a, c)
  {
    AdvancesTransitive(AssignmentVersion, a.assignments, b.assignments, c.assignments);
    AdvancesTransitive(SessionVersion, a.sessions, b.sessions, c.sessions);
  }

  // ---------- Beginnings

  lemma StartBeginsOk(pageCount: map<Id, int>, t: Tables, now: Instant, id: Id, seen: AssignmentRow, member: Id,
                      memberActive: bool, sid: Id, ttl: int)
    requires now >= 1 && SeenAssignment(t, id, seen) && Start(now, id, seen, member, memberActive, sid, ttl).Ok?
    ensures OpOk(pageCount, t, Start(now, id, seen, member, memberActive, sid, ttl).value)
  {
    var op := Start(now, id, seen, member, memberActive, sid, ttl).value;
    assert seen.Start(sid, now + ttl, now) == Ok(op.row);
  }

  lemma SubmitBeginsOk(pageCount: map<Id, int>, t: Tables, sid: Id, held: SessionRow, seen: AssignmentRow,
                       member: Id, author: Id, observed: seq<ObservationInput>, quoted: seq<ClaimInput>)
    requires SeenSession(t, sid, held) && SeenAssignment(t, held.assignment, seen)
    requires Submit(pageCount, sid, held, seen, member, author, observed, quoted).Ok?
    ensures OpOk(pageCount, t, Submit(pageCount, sid, held, seen, member, author, observed, quoted).value)
  {
    AcceptedEvidence(pageCount, seen.edition, seen.pages, observed, quoted);
  }

  lemma {:induction false} ObservationsAccepted(observed: seq<ObservationInput>, section: PageRange, seen: set<int>)
    ensures ObservedFault(observed, section, seen) == None
       <==> && DistinctSequences(observed) && ObservedInside(observed, section)
            && forall o | o in observed :: o.sequence !in seen
    decreases |observed|
  {
    if observed != [] {
      var first, rest := observed[0], observed[1..];
      ObservationsAccepted(rest, section, seen + {first.sequence});
      assert observed == [first] + rest;
      assert DistinctSequences(observed) <==>
             DistinctSequences(rest) && forall o | o in rest :: o.sequence != first.sequence;
    }
  }

  lemma {:induction false} QuotationsAccepted(quoted: seq<ClaimInput>, pageCount: map<Id, int>, edition: Id, section: PageRange)
    ensures QuotedFault(quoted, pageCount, edition, section) == None <==> QuotedInside(quoted, pageCount, edition, section)
    decreases |quoted|
  {
    if quoted != [] {
      QuotationsAccepted(quoted[1..], pageCount, edition, section);
      assert quoted == [quoted[0]] + quoted[1..];
    }
  }

  /** The checking loops find no fault exactly in evidence with distinct positions inside the section. */
  lemma AcceptedEvidence(pageCount: map<Id, int>, edition: Id, section: PageRange,
                         observed: seq<ObservationInput>, quoted: seq<ClaimInput>)
    ensures EvidenceFault(pageCount, edition, section, observed, quoted) == None
       <==> AcceptableEvidence(pageCount, edition, section, observed, quoted)
  {
    ObservationsAccepted(observed, section, {});
    QuotationsAccepted(quoted, pageCount, edition, section);
  }

  lemma MoveBeginsOk(pageCount: map<Id, int>, t: Tables, id: Id, seen: AssignmentRow, member: Id,
                     pages: PageRange, start: Instant, end: Instant)
    requires SeenAssignment(t, id, seen) && Move(pageCount, id, seen, member, pages, start, end).Ok?
    ensures OpOk(pageCount, t, Move(pageCount, id, seen, member, pages, start, end).value)
  {
  }

  lemma ListBeginsOk(pageCount: map<Id, int>, t: Tables, id: Id, at: Instant)
    requires id in t.assignments && Due(t.assignments[id], at) && Expire(id, t.assignments[id], at).Ok?
    ensures OpOk(pageCount, t, Expire(id, t.assignments[id], at).value)
  {
  }

  lemma BeginOk(s: State, e: Event)
    requires Inv(s) && Begin(s, e).Some?
    ensures OpOk(s.pageCount, s.tables, Begin(s, e).value)
    ensures Begin(s, e).value.Expiring? ==> Begin(s, e).value.at <= s.now
  {
    match e
    case BeginMove(id, seen, member, pages, start, end) =>
      assert OpOk(s.pageCount, s.tables, HoldingAssignment(id, seen));
      MoveBeginsOk(s.pageCount, s.tables, id, seen, member, pages, start, end);
    case BeginStart(id, seen, member, memberActive, sid, ttl) =>
      assert OpOk(s.pageCount, s.tables, HoldingAssignment(id, seen));
      StartBeginsOk(s.pageCount, s.tables, s.now, id, seen, member, memberActive, sid, ttl);
    case BeginAbandon(sid, held, seen, member) => HeldBeginOk(s, e);
    case BeginSubmit(sid, held, seen, member, author, observed, quoted) => HeldBeginOk(s, e);
    case ListDue(id, at) => ListBeginsOk(s.pageCount, s.tables, id, at);
    case _ =>
  }

  lemma HeldBeginOk(s: State, e: Event)
    requires Inv(s) && Begin(s, e).Some? && (e.BeginAbandon? || e.BeginSubmit?)
    ensures OpOk(s.pageCount, s.tables, Begin(s, e).value) && !Begin(s, e).value.Expiring?
  {
    assert OpOk(s.pageCount, s.tables, HoldingSession(e.sid, e.held));
    assert OpOk(s.pageCount, s.tables, HoldingAssignment(e.held.assignment, e.seen));
    if e.BeginSubmit? {
      SubmitBeginsOk(s.pageCount, s.tables, e.sid, e.held, e.seen, e.member, e.author, e.observed, e.quoted);
    }
  }

  // ---------- Commits, one kind of row change at a time

  predicate SamePlace(a: AssignmentRow, b: AssignmentRow) {
    && a.SameScope(b) && a.pages == b.pages
    && a.windowStart == b.windowStart && a.windowEnd == b.windowEnd
  }

  /** A row that keeps scope, pages and window keeps NoConflicts, whatever its new state. */
  lemma SamePlaceNoConflicts(table: map<Id, AssignmentRow>, id: Id, row: AssignmentRow)
    requires NoConflicts(table) && id in table && table[id].Live() && SamePlace(row, table[id])
    ensures NoConflicts(table[id := row])
  {
  }

  lemma PlacedNoConflicts(table: map<Id, AssignmentRow>, id: Id, row: AssignmentRow, exclude: Id)
    requires NoConflicts(table) && Conflicting(table, row, exclude) == {}
    requires exclude == id || exclude !in table
    ensures NoConflicts(table[id := row])
  {
    forall k | k in table && k != id
      ensures !row.Conflicts(table[k]) && !table[k].Conflicts(row)
    {
      assert k !in Conflicting(table, row, exclude);
    }
  }

  /** Only the assignment row at `id` changes, and it is not left leased. */
  lemma AssignmentChangeCoupled(t: Tables, id: Id, row: AssignmentRow)
    requires Coupled(t)
    requires row.state != InReading && (row.leaseToken != 0 ==> HasSession(t, id))
    requires forall sid | sid in t.sessions && t.sessions[sid].assignment == id :: Agree(sid, t.sessions[sid], row)
    ensures Coupled(t.(assignments := t.assignments[id := row]))
  {
    var t' := t.(assignments := t.assignments[id := row]);
    forall k | k in t'.assignments && t'.assignments[k].leaseToken != 0
      ensures HasSession(t', k)
    {
      assert HasSession(t, k);
    }
  }

  /** The assignment row at `id` and its one session change together. */
  lemma PairChangeCoupled(t: Tables, id: Id, row: AssignmentRow, sid: Id, x: SessionRow)
    requires Coupled(t) && id in t.assignments
    requires x.assignment == id && Agree(sid, x, row)
    requires sid in t.sessions ==> t.sessions[sid].assignment == id
    requires forall k | k in t.sessions && t.sessions[k].assignment == id :: k == sid
    requires row.state == InReading ==> row.leaseOwner == sid
    ensures Coupled(t.(assignments := t.assignments[id := row], sessions := t.sessions[sid := x]))
  {
    SessionsStay(t, id, row, sid, x);
  }

  lemma SessionsStay(t: Tables, id: Id, row: AssignmentRow, sid: Id, x: SessionRow)
    requires forall k | k in t.assignments && t.assignments[k].leaseToken != 0 :: HasSession(t, k)
    requires x.assignment == id && (sid in t.sessions ==> t.sessions[sid].assignment == id)
    ensures var t' := t.(assignments := t.assignments[id := row], sessions := t.sessions[sid := x]);
      forall k | k in t'.assignments && t'.assignments[k].leaseToken != 0 :: HasSession(t', k)
  {
    var t' := t.(assignments := t.assignments[id := row], sessions := t.sessions[sid := x]);
    forall k | k in t'.assignments && t'.assignments[k].leaseToken != 0
      ensures HasSession(t', k)
    {
      if k == id {
        assert t'.sessions[sid].assignment == k;
      } else {
        assert HasSession(t, k);
        var s :| s in t.sessions && t.sessions[s].assignment == k;
        assert t'.sessions[s].assignment == k;
      }
    }
  }

  /** Evidence hangs on submitted rows, and those are not touched. */
  lemma ChangeKeepsEvidence(t: Tables, t': Tables, id: Id)
    requires Coupled(t) && EvidenceInside(t)
    requires t'.observations == t.observations && t'.claims == t.claims
    requires id in t.assignments ==> t.assignments[id].state != AssignmentState.Submitted
    requires forall k | k in t.assignments && k != id :: k in t'.assignments && t'.assignments[k] == t.assignments[k]
    requires forall s | s in t.sessions && t.sessions[s].assignment != id ::
               s in t'.sessions && t'.sessions[s] == t.sessions[s]
    ensures EvidenceInside(t')
  {
  }

  lemma ReserveKeeps(pageCount: map<Id, int>, t: Tables, op: Op)
    requires TablesOk(pageCount, t) && op.Reserving? && OpOk(pageCount, t, op) && Transact(t, op).Ok?
    ensures TablesOk(pageCount, Transact(t, op).value) && TablesAdvance(t, Transact(t, op).value)
  {
    var t' := Transact(t, op).value;
    PlacedNoConflicts(t.assignments, op.id, op.row, NO_ID);
    AssignmentChangeCoupled(t, op.id, op.row);
    ChangeKeepsEvidence(t, t', op.id);
  }

  lemma MoveKeeps(pageCount: map<Id, int>, t: Tables, op: Op)
    requires TablesOk(pageCount, t) && op.Moving? && OpOk(pageCount, t, op) && Transact(t, op).Ok?
    ensures TablesOk(pageCount, Transact(t, op).value) && TablesAdvance(t, Transact(t, op).value)
  {
    var t' := Transact(t, op).value;
    assert t.assignments[op.id] == op.seen;
    PlacedNoConflicts(t.assignments, op.id, op.row, op.id);
    AssignmentChangeCoupled(t, op.id, op.row);
    ChangeKeepsEvidence(t, t', op.id);
  }

  /** The row of `id` in place of the old one: the same row, or an unfinished row moved on. */
  ghost predicate MovesOn(table: map<Id, AssignmentRow>, id: Id, row: AssignmentRow) {
    && id in table
    && (row == table[id] || (!Finished(table[id]) && SamePlace(row, table[id]) && row.version > table[id].version))
  }

  /** `x` in place of the one session of assignment `id`, or as its first. */
  ghost predicate OnlySession(t: Tables, id: Id, sid: Id, x: SessionRow) {
    && x.assignment == id
    && (sid in t.sessions ==> t.sessions[sid].assignment == id && t.sessions[sid].version < x.version)
    && (forall k | k in t.sessions && t.sessions[k].assignment == id :: k == sid)
  }

  lemma MovesOnKeeps(pageCount: map<Id, int>, table: map<Id, AssignmentRow>, id: Id, row: AssignmentRow)
    requires RowsOk(pageCount, table) && NoConflicts(table) && MovesOn(table, id, row) && RowOk(pageCount, row)
    ensures RowsOk(pageCount, table[id := row]) && NoConflicts(table[id := row])
    ensures Advances(AssignmentVersion, table, table[id := row])
  {
    if row == table[id] {
      assert table[id := row] == table;
    } else {
      SamePlaceNoConflicts(table, id, row);
    }
  }

  /** An unfinished assignment row moves on to a finished one that may have a session. */
  lemma AloneKeeps(pageCount: map<Id, int>, t: Tables, id: Id, row: AssignmentRow)
    requires TablesOk(pageCount, t) && MovesOn(t.assignments, id, row) && RowOk(pageCount, row)
    requires !Finished(t.assignments[id]) && row.state == Expired && row.leaseToken == t.assignments[id].leaseToken
    requires row.tenant == t.assignments[id].tenant && row.member == t.assignments[id].member
    ensures var t1 := t.(assignments := t.assignments[id := row]);
      TablesOk(pageCount, t1) && TablesAdvance(t, t1)
  {
    MovesOnKeeps(pageCount, t.assignments, id, row);
    AloneCoupled(t, id, row);
    AloneKeepsEvidence(t, id, row);
  }

  lemma AloneCoupled(t: Tables, id: Id, row: AssignmentRow)
    requires Coupled(t) && id in t.assignments
    requires !Finished(t.assignments[id]) && row.state == Expired && row.leaseToken == t.assignments[id].leaseToken
    requires row.tenant == t.assignments[id].tenant && row.member == t.assignments[id].member
    ensures Coupled(t.(assignments := t.assignments[id := row]))
  {
    AssignmentChangeCoupled(t, id, row);
  }

  lemma AloneKeepsEvidence(t: Tables, id: Id, row: AssignmentRow)
    requires Coupled(t) && EvidenceInside(t) && id in t.assignments && !Finished(t.assignments[id])
    ensures EvidenceInside(t.(assignments := t.assignments[id := row]))
  {
    ChangeKeepsEvidence(t, t.(assignments := t.assignments[id := row]), id);
  }

  lemma ExpireKeeps(pageCount: map<Id, int>, t: Tables, op: Op)
    requires TablesOk(pageCount, t) && op.Expiring? && OpOk(pageCount, t, op) && Transact(t, op).Ok?
    ensures TablesOk(pageCount, Transact(t, op).value) && TablesAdvance(t, Transact(t, op).value)
  {
    assert t.assignments[op.id] == op.seen;
    AloneKeeps(pageCount, t, op.id, op.row);
  }

  /** An assignment row and its one session change together. */
  lemma PairKeeps(pageCount: map<Id, int>, t: Tables, id: Id, row: AssignmentRow, sid: Id, x: SessionRow)
    requires TablesOk(pageCount, t) && MovesOn(t.assignments, id, row) && RowOk(pageCount, row)
    requires t.assignments[id].state != AssignmentState.Submitted
    requires OnlySession(t, id, sid, x) && Agree(sid, x, row)
    requires row.state == InReading ==> row.leaseOwner == sid
    ensures var t1 := t.(assignments := t.assignments[id := row], sessions := t.sessions[sid := x]);
      TablesOk(pageCount, t1) && TablesAdvance(t, t1)
  {
    MovesOnKeeps(pageCount, t.assignments, id, row);
    PairChangeCoupled(t, id, row, sid, x);
    PairChangeKeepsEvidence(t, id, row, sid, x);
    PairAdvances(t, id, row, sid, x);
  }

  lemma PairChangeKeepsEvidence(t: Tables, id: Id, row: AssignmentRow, sid: Id, x: SessionRow)
    requires Coupled(t) && EvidenceInside(t) && id in t.assignments
    requires t.assignments[id].state != AssignmentState.Submitted && OnlySession(t, id, sid, x)
    ensures EvidenceInside(t.(assignments := t.assignments[id := row], sessions := t.sessions[sid := x]))
  {
    ChangeKeepsEvidence(t, t.(assignments := t.assignments[id := row], sessions := t.sessions[sid := x]), id);
  }

  lemma PairAdvances(t: Tables, id: Id, row: AssignmentRow, sid: Id, x: SessionRow)
    requires MovesOn(t.assignments, id, row) && OnlySession(t, id, sid, x)
    ensures TablesAdvance(t, t.(assignments := t.assignments[id := row], sessions := t.sessions[sid := x]))
  {
  }

  /** A start that commits found its snapshot still current. */
  lemma StartCurrent(t: Tables, op: Op)
    requires op.Starting? && Transact(t, op).Ok? && SeenAssignment(t, op.id, op.seen)
    ensures t.assignments[op.id] == op.seen && op.sid !in t.sessions
    ensures forall k | k in t.sessions ::
              t.sessions[k].tenant != op.session.tenant || t.sessions[k].assignment != op.session.assignment
    ensures Transact(t, op).value
         == t.(assignments := t.assignments[op.id := op.row], sessions := t.sessions[op.sid := op.session])
  {
  }

  lemma StartKeeps(pageCount: map<Id, int>, t: Tables, op: Op)
    requires TablesOk(pageCount, t) && op.Starting? && OpOk(pageCount, t, op) && Transact(t, op).Ok?
    ensures TablesOk(pageCount, Transact(t, op).value) && TablesAdvance(t, Transact(t, op).value)
  {
    StartCurrent(t, op);
    PairKeeps(pageCount, t, op.id, op.row, op.sid, op.session);
  }

  /** An abandonment that commits found its snapshots still current. */
  lemma AbandonCurrent(t: Tables, op: Op)
    requires op.Abandoning? && Transact(t, op).Ok?
    requires SeenSession(t, op.sid, op.sessionSeen) && SeenAssignment(t, op.id, op.seen)
    ensures t.sessions[op.sid] == op.sessionSeen && t.assignments[op.id] == op.seen
    ensures Transact(t, op).value
         == t.(assignments := t.assignments[op.id := op.row], sessions := t.sessions[op.sid := op.session])
  {
  }

  lemma AbandonKeeps(pageCount: map<Id, int>, t: Tables, op: Op)
    requires TablesOk(pageCount, t) && op.Abandoning? && OpOk(pageCount, t, op) && Transact(t, op).Ok?
    ensures TablesOk(pageCount, Transact(t, op).value) && TablesAdvance(t, Transact(t, op).value)
  {
    AbandonCurrent(t, op);
    PairKeeps(pageCount, t, op.id, op.row, op.sid, op.session);
  }

  // ---------- Submission

  /** The table after inserting: what was there, and exactly the new rows, each under its id. */
  ghost predicate Added<V>(before: map<Id, V>, news: seq<(Id, V)>, after: map<Id, V>) {
    && (forall k | k in before :: k in after && after[k] == before[k])
    && (forall i | 0 <= i < |news| ::
          news[i].0 !in before && news[i].0 in after && after[news[i].0] == news[i].1)
    && (forall k | k in after && k !in before :: exists i :: 0 <= i < |news| && news[i].0 == k)
  }

  lemma AddedNext<V>(before: map<Id, V>, news: seq<(Id, V)>, after: map<Id, V>)
    requires news != [] && news[0].0 !in before
    requires Added(before[news[0].0 := news[0].1], news[1..], after)
    ensures Added(before, news, after)
  {
    var next := before[news[0].0 := news[0].1];
    forall i | 0 <= i < |news|
      ensures news[i].0 !in before && news[i].0 in after && after[news[i].0] == news[i].1
    {
      if i == 0 {
        assert news[0].0 in next;
      } else {
        assert news[i] == news[1..][i - 1];
      }
    }
    forall k | k in after && k !in before
      ensures exists i :: 0 <= i < |news| && news[i].0 == k
    {
      if k != news[0].0 {
        assert k !in next;
        var i :| 0 <= i < |news[1..]| && news[1..][i].0 == k;
        assert news[i + 1].0 == k;
      }
    }
  }

  lemma {:induction false} ObservationsInserted(before: map<Id, Observation>, news: seq<(Id, Observation)>)
    requires InsertObservations(before, news).Ok?
    requires forall i, j | i in before && j in before && i != j :: !SamePosition(before[i], before[j])
    ensures var after := InsertObservations(before, news).value;
      && Added(before, news, after)
      && (forall i, j | i in after && j in after && i != j :: !SamePosition(after[i], after[j]))
    decreases |news|
  {
    if news != [] {
      ObservationsInserted(before[news[0].0 := news[0].1], news[1..]);
      AddedNext(before, news, InsertObservations(before, news).value);
    }
  }

  lemma {:induction false} ClaimsInserted(before: map<Id, Quotation>, news: seq<(Id, Quotation)>)
    requires InsertClaims(before, news).Ok?
    ensures Added(before, news, InsertClaims(before, news).value)
    decreases |news|
  {
    if news != [] {
      ClaimsInserted(before[news[0].0 := news[0].1], news[1..]);
      AddedNext(before, news, InsertClaims(before, news).value);
    }
  }

  /** New evidence of session `sid` inside its submitted section keeps EvidenceInside. */
  lemma EvidenceAdded(t: Tables, sid: Id, notes: seq<(Id, Observation)>, quotations: seq<(Id, Quotation)>)
    requires EvidenceInside(t) && sid in t.sessions && Evidenced(t, t.sessions[sid].tenant, sid)
    requires EvidenceFits(sid, t.sessions[sid].tenant, Section(t, sid), notes, quotations)
    requires InsertEvidence(t, notes, quotations).Ok?
    ensures var t' := InsertEvidence(t, notes, quotations).value;
      && EvidenceInside(t') && t'.assignments == t.assignments && t'.sessions == t.sessions
      && TablesAdvance(t, t')
  {
    ObservationsInserted(t.observations, notes);
    ClaimsInserted(t.claims, quotations);
  }

  /** A submission that commits found its two snapshots still current. */
  lemma SubmitCurrent(t: Tables, op: Op)
    requires op.Submitting? && Transact(t, op).Ok?
    requires SeenSession(t, op.sid, op.sessionSeen) && SeenAssignment(t, op.id, op.seen)
    ensures t.sessions[op.sid] == op.sessionSeen && t.assignments[op.id] == op.seen
    ensures var t1 := t.(assignments := t.assignments[op.id := op.row], sessions := t.sessions[op.sid := op.session]);
      Transact(t, op) == InsertEvidence(t1, op.observations, op.claims)
  {
  }

  /** The session and assignment part of a submission. */
  lemma SubmitPairKeeps(pageCount: map<Id, int>, t: Tables, op: Op)
    requires TablesOk(pageCount, t) && op.Submitting? && OpOk(pageCount, t, op)
    requires op.sid in t.sessions && t.sessions[op.sid] == op.sessionSeen
    requires op.id in t.assignments && t.assignments[op.id] == op.seen
    ensures var t1 := t.(assignments := t.assignments[op.id := op.row], sessions := t.sessions[op.sid := op.session]);
      TablesOk(pageCount, t1) && TablesAdvance(t, t1)
  {
    PairKeeps(pageCount, t, op.id, op.row, op.sid, op.session);
  }

  lemma SubmitEvidenceKeeps(pageCount: map<Id, int>, t: Tables, op: Op)
    requires TablesOk(pageCount, t) && op.Submitting?
    requires op.sessionSeen.Submit() == Ok(op.session) && op.seen.Submit(op.sid, op.seen.leaseToken) == Ok(op.row)
    requires op.sid in t.sessions && t.sessions[op.sid] == op.session && op.id == op.session.assignment
    requires op.id in t.assignments && t.assignments[op.id] == op.row
    requires EvidenceFits(op.sid, op.sessionSeen.tenant, op.seen, op.observations, op.claims)
    requires InsertEvidence(t, op.observations, op.claims).Ok?
    ensures var t' := InsertEvidence(t, op.observations, op.claims).value;
      TablesOk(pageCount, t') && TablesAdvance(t, t')
  {
    EvidenceAdded(t, op.sid, op.observations, op.claims);
  }

  lemma SubmitKeeps(pageCount: map<Id, int>, t: Tables, op: Op)
    requires TablesOk(pageCount, t) && op.Submitting? && OpOk(pageCount, t, op) && Transact(t, op).Ok?
    ensures TablesOk(pageCount, Transact(t, op).value) && TablesAdvance(t, Transact(t, op).value)
  {
    SubmitCurrent(t, op);
    SubmitPairKeeps(pageCount, t, op);
    var t1 := t.(assignments := t.assignments[op.id := op.row], sessions := t.sessions[op.sid := op.session]);
    SubmitEvidenceKeeps(pageCount, t1, op);
    TablesAdvanceTransitive(t, t1, Transact(t, op).value);
  }

  lemma CommitKeeps(pageCount: map<Id, int>, t: Tables, op: Op)
    requires TablesOk(pageCount, t) && OpOk(pageCount, t, op) && Transact(t, op).Ok?
    ensures TablesOk(pageCount, Transact(t, op).value) && TablesAdvance(t, Transact(t, op).value)
  {
    match op
    case Reserving(_, _) => ReserveKeeps(pageCount, t, op);
    case Moving(_, _, _) => MoveKeeps(pageCount, t, op);
    case Starting(_, _, _, _, _) => StartKeeps(pageCount, t, op);
    case HoldingAssignment(_, _) =>
    case HoldingSession(_, _) =>
    case Abandoning(_, _, _, _, _, _) => AbandonKeeps(pageCount, t, op);
    case Submitting(_, _, _, _, _, _, _, _) => SubmitKeeps(pageCount, t, op);
    case Expiring(_, _, _, _) => ExpireKeeps(pageCount, t, op);
  }

  lemma OpStaysOk(pageCount: map<Id, int>, t: Tables, t': Tables, op: Op)
    requires TablesAdvance(t, t') && OpOk(pageCount, t, op)
    ensures OpOk(pageCount, t', op)
  {
  }

  // ---------- Runs

  lemma CommitStepKeeps(s: State, op: Op)
    requires Inv(s) && op in s.ops
    ensures Inv(Next(s, Commit(op))) && TablesAdvance(s.tables, Next(s, Commit(op)).tables)
  {
    var s' := Next(s, Commit(op));
    if Transact(s.tables, op).Ok? {
      CommitKeeps(s.pageCount, s.tables, op);
      forall other | other in s'.ops
        ensures OpOk(s.pageCount, s'.tables, other)
      {
        OpStaysOk(s.pageCount, s.tables, s'.tables, other);
      }
    }
  }

  lemma BeginStepKeeps(s: State, e: Event)
    requires Inv(s) && Begin(s, e).Some?
    ensures Inv(s.(ops := s.ops + {Begin(s, e).value}))
  {
    BeginOk(s, e);
  }

  lemma QuietStepKeeps(s: State, e: Event)
    requires Inv(s) && (e.Crash? || e.Tick?)
    ensures Inv(Next(s, e)) && Next(s, e).tables == s.tables && s.now <= Next(s, e).now
    ensures Next(s, e).pageCount == s.pageCount
  {
  }

  lemma StepKeeps(s: State, e: Event)
    requires Inv(s)
    ensures Inv(Next(s, e)) && TablesAdvance(s.tables, Next(s, e).tables)
    ensures Next(s, e).pageCount == s.pageCount && s.now <= Next(s, e).now
  {
    if e.Commit? {
      if e.op in s.ops { CommitStepKeeps(s, e.op); }
    } else if e.Crash? || e.Tick? {
      QuietStepKeeps(s, e);
    } else if Begin(s, e).Some? {
      BeginStepKeeps(s, e);
    }
  }

  lemma {:induction false} RunKeeps(s: State, events: seq<Event>)
    requires Inv(s)
    ensures Inv(Run(s, events)) && TablesAdvance(s.tables, Run(s, events).tables)
    ensures Run(s, events).pageCount == s.pageCount
    decreases |events|
  {
    if events != [] {
      var s1 := Next(s, events[0]);
      StepKeeps(s, events[0]);
      RunKeeps(s1, events[1..]);
      TablesAdvanceTransitive(s.tables, s1.tables, Run(s, events).tables);
    }
  }

  /** Every state of a run from the initial tables satisfies the invariant. */
  lemma Reached(s: State, events: seq<Event>)
    requires Initial(s)
    ensures Inv(Run(s, events)) && Run(s, events).pageCount == s.pageCount
  {
    RunKeeps(s, events);
  }
}
