/** The reading services as a protocol over shared tables.

    A service call reads rows one by one (Read events), then reads the clock and computes new rows in
    memory (a Begin event), and later runs its transaction against whatever the tables hold by
    then (a Commit event). In between, any other event may happen: other calls, crashes (the
    operation is dropped) and clock ticks. Every property holds for every sequence of events. */
module ReadingProtocol {
  import opened Prelude
  import opened Versions
  import opened ReadingDomain

  function AssignmentVersion(a: AssignmentRow): int { a.version }

  function SessionVersion(x: SessionRow): int { x.version }

  datatype Tables = Tables(
    assignments: map<Id, AssignmentRow>, sessions: map<Id, SessionRow>,
    observations: map<Id, Observation>, claims: map<Id, Quotation>)

  /** Operations in flight: rows that have been read, then the rows seen with the rows to be written. */
  datatype Op =
    | HoldingAssignment(id: Id, seen: AssignmentRow)
    | HoldingSession(sid: Id, sessionSeen: SessionRow)
    | Reserving(id: Id, row: AssignmentRow)
    | Moving(id: Id, seen: AssignmentRow, row: AssignmentRow)
    | Starting(id: Id, seen: AssignmentRow, row: AssignmentRow, sid: Id, session: SessionRow)
    | Abandoning(sid: Id, sessionSeen: SessionRow, session: SessionRow,
                 id: Id, seen: AssignmentRow, row: AssignmentRow)
    | Submitting(sid: Id, sessionSeen: SessionRow, session: SessionRow,
                 id: Id, seen: AssignmentRow, row: AssignmentRow,
                 observations: seq<(Id, Observation)>, claims: seq<(Id, Quotation)>)
    | Expiring(id: Id, seen: AssignmentRow, row: AssignmentRow, at: Instant)

  datatype State = State(now: Instant, pageCount: map<Id, int>, tables: Tables, ops: set<Op>)

  /** Rows of other services that Reserve reads without re-checking them at its commit. */
  datatype EnrolmentView = EnrolmentView(
    programActive: bool, programStart: Instant, programEnd: Instant, memberActive: bool, editionActive: bool)

  datatype ObservationInput = ObservationInput(id: Id, page: int, sequence: int)

  datatype ClaimInput = ClaimInput(id: Id, pages: PageRange)

  datatype Event =
    | BeginReserve(id: Id, tenant: Id, program: Id, edition: Id, member: Id, pages: PageRange,
                   start: Instant, end: Instant, view: EnrolmentView)
    | ReadAssignment(id: Id, tenant: Id)
    | ReadSession(sid: Id, tenant: Id)
    | BeginMove(id: Id, seen: AssignmentRow, member: Id, pages: PageRange, start: Instant, end: Instant)
    | BeginStart(id: Id, seen: AssignmentRow, member: Id, memberActive: bool, sid: Id, ttl: int)
    | BeginAbandon(sid: Id, held: SessionRow, seen: AssignmentRow, member: Id)
    | BeginSubmit(sid: Id, held: SessionRow, seen: AssignmentRow, member: Id, author: Id,
                  observed: seq<ObservationInput>, quoted: seq<ClaimInput>)
    | ListDue(id: Id, at: Instant)
    | Commit(op: Op)
    | Crash(op: Op)
    | Tick(to: Instant)

  // ---------- Reads and in-memory computation

  function GetAssignment(t: Tables, tenant: Id, id: Id): Result<AssignmentRow> {
    if id in t.assignments && t.assignments[id].tenant == tenant then Ok(t.assignments[id]) else Err(NotFound)
  }

  function GetSession(t: Tables, tenant: Id, sid: Id): Result<SessionRow> {
    if sid in t.sessions && t.sessions[sid].tenant == tenant then Ok(t.sessions[sid]) else Err(NotFound)
  }

  predicate ValidatePageRange(pageCount: map<Id, int>, edition: Id, pages: PageRange) {
    edition in pageCount && 1 <= pages.start <= pages.end <= pageCount[edition]
  }

  function Reserve(pageCount: map<Id, int>, id: Id, tenant: Id, program: Id, edition: Id, member: Id,
                   pages: PageRange, start: Instant, end: Instant, view: EnrolmentView): Result<Op>
  {
    if !view.programActive then Err(Precondition)
    else if !view.memberActive then Err(Precondition)
    else if edition !in pageCount then Err(NotFound)
    else if !view.editionActive then Err(Precondition)
    else if !ValidatePageRange(pageCount, edition, pages) then Err(Validation)
    else if start < view.programStart || view.programEnd < end then Err(Precondition)
    else
      var row :- NewAssignment(id, tenant, program, edition, member, pages, start, end);
      Ok(Reserving(id, row))
  }

  function Move(pageCount: map<Id, int>, id: Id, seen: AssignmentRow, member: Id,
                pages: PageRange, start: Instant, end: Instant): Result<Op>
  {
    if member != seen.member || seen.state != Reserved then Err(Forbidden)
    else if seen.edition !in pageCount then Err(NotFound)
    else if !ValidatePageRange(pageCount, seen.edition, pages) then Err(Validation)
    else if end <= start then Err(Validation)
    else Ok(Moving(id, seen, seen.(pages := pages, windowStart := start, windowEnd := end,
                                   version := seen.version + 1)))
  }

  function Start(now: Instant, id: Id, seen: AssignmentRow, member: Id, memberActive: bool, sid: Id, ttl: int): Result<Op> {
    if member != seen.member || !memberActive then Err(Forbidden)
    else if now < seen.windowStart || seen.windowEnd <= now then Err(Precondition)
    else
      var prepared :- NewSession(sid, seen.tenant, seen.program, id, member);
      var session :- prepared.Start();
      var row :- seen.Start(sid, now + ttl, now);
      Ok(Starting(id, seen, row, sid, session))
  }

  function Abandon(sid: Id, held: SessionRow, seen: AssignmentRow, member: Id): Result<Op> {
    if held.member != member then Err(Forbidden)
    else
      var session :- held.Abandon();
      var row :- seen.Release();
      Ok(Abandoning(sid, held, session, held.assignment, seen, row))
  }

  /** The first fault of the observations, in the order in which the loop meets them. */
  function ObservedFault(observed: seq<ObservationInput>, section: PageRange, seen: set<int>): Option<Fault>
    decreases |observed|
  {
    if observed == [] then None
    else if observed[0].sequence in seen then Some(Validation)
    else if !section.Has(observed[0].page) then Some(Precondition)
    else if observed[0].page < 1 || observed[0].sequence < 1 then Some(Validation)
    else ObservedFault(observed[1..], section, seen + {observed[0].sequence})
  }

  function QuotedFault(quoted: seq<ClaimInput>, pageCount: map<Id, int>, edition: Id, section: PageRange): Option<Fault>
    decreases |quoted|
  {
    if quoted == [] then None
    else if !ValidatePageRange(pageCount, edition, quoted[0].pages) then Some(Validation)
    else if !quoted[0].pages.Within(section) then Some(Precondition)
    else QuotedFault(quoted[1..], pageCount, edition, section)
  }

  function EvidenceFault(pageCount: map<Id, int>, edition: Id, section: PageRange,
                         observed: seq<ObservationInput>, quoted: seq<ClaimInput>): Option<Fault>
  {
    var first := ObservedFault(observed, section, {});
    if first.Some? then first else QuotedFault(quoted, pageCount, edition, section)
  }

  predicate DistinctSequences(observed: seq<ObservationInput>) {
    forall i, j | 0 <= i < j < |observed| :: observed[i].sequence != observed[j].sequence
  }

  /** Every observation is on a page of the section, at a positive position. */
  predicate ObservedInside(observed: seq<ObservationInput>, section: PageRange) {
    forall o | o in observed :: section.Has(o.page) && o.page >= 1 && o.sequence >= 1
  }

  predicate QuotedInside(quoted: seq<ClaimInput>, pageCount: map<Id, int>, edition: Id, section: PageRange) {
    forall c | c in quoted :: ValidatePageRange(pageCount, edition, c.pages) && c.pages.Within(section)
  }

  function Notes(observed: seq<ObservationInput>, tenant: Id, sid: Id): seq<(Id, Observation)> {
    seq(|observed|, i requires 0 <= i < |observed| =>
      (observed[i].id, Observation(tenant, sid, observed[i].page, observed[i].sequence)))
  }

  function Quotations(quoted: seq<ClaimInput>, tenant: Id, sid: Id, edition: Id, author: Id): seq<(Id, Quotation)> {
    seq(|quoted|, i requires 0 <= i < |quoted| =>
      (quoted[i].id, Quotation(tenant, sid, edition, author, quoted[i].pages)))
  }

  predicate AcceptableEvidence(pageCount: map<Id, int>, edition: Id, section: PageRange,
                               observed: seq<ObservationInput>, quoted: seq<ClaimInput>)
  {
    && DistinctSequences(observed) && ObservedInside(observed, section)
    && QuotedInside(quoted, pageCount, edition, section)
  }

  function Submit(pageCount: map<Id, int>, sid: Id, held: SessionRow, seen: AssignmentRow, member: Id, author: Id,
                  observed: seq<ObservationInput>, quoted: seq<ClaimInput>): Result<Op>
  {
    if observed == [] || quoted == [] then Err(Precondition)
    else if member != held.member || seen.leaseOwner != sid then Err(Conflict)
    else if seen.edition !in pageCount then Err(NotFound)
    else match EvidenceFault(pageCount, seen.edition, seen.pages, observed, quoted) {
      case Some(fault) => Err(fault)
      case None =>
        var session :- held.Submit();
        var row :- seen.Submit(sid, seen.leaseToken);
        Ok(Submitting(sid, held, session, held.assignment, seen, row,
                      Notes(observed, held.tenant, sid),
                      Quotations(quoted, held.tenant, sid, seen.edition, author)))
    }
  }

  /** The WHERE clause of ListExpiredAssignments. */
  predicate Due(a: AssignmentRow, now: Instant) {
    && (a.state == Reserved || a.state == InReading)
    && (a.windowEnd <= now || (a.leaseUntil != ZERO_TIME && a.leaseUntil <= now))
  }

  function Expire(id: Id, seen: AssignmentRow, at: Instant): Result<Op> {
    var row :- seen.Expire(seen.leaseToken, at);
    Ok(Expiring(id, seen, row, at))
  }

  // ---------- Transaction bodies

  /** The WHERE clause of FindAssignmentConflicts, on instants. */
  predicate Clashes(a: AssignmentRow, candidate: AssignmentRow) {
    && a.tenant == candidate.tenant && a.program == candidate.program && a.edition == candidate.edition
    && a.Live()
    && a.windowStart < candidate.windowEnd && a.windowEnd > candidate.windowStart
    && a.pages.start <= candidate.pages.end && a.pages.end >= candidate.pages.start
  }

  function Conflicting(table: map<Id, AssignmentRow>, candidate: AssignmentRow, exclude: Id): set<Id> {
    set k | k in table && k != exclude && Clashes(table[k], candidate)
  }

  function InsertSession(t: Tables, sid: Id, session: SessionRow): Result<Tables> {
    if exists k :: k in t.sessions && t.sessions[k].tenant == session.tenant
                   && t.sessions[k].assignment == session.assignment
    then Err(Conflict)
    else
      var sessions :- Insert(t.sessions, sid, session);
      Ok(t.(sessions := sessions))
  }

  predicate SamePosition(a: Observation, b: Observation) {
    a.tenant == b.tenant && a.session == b.session && a.sequence == b.sequence
  }

  function InsertObservations(table: map<Id, Observation>, news: seq<(Id, Observation)>): Result<map<Id, Observation>>
    decreases |news|
  {
    if news == [] then Ok(table)
    else if exists k :: k in table && SamePosition(table[k], news[0].1) then Err(Conflict)
    else
      var next :- Insert(table, news[0].0, news[0].1);
      InsertObservations(next, news[1..])
  }

  function InsertClaims(table: map<Id, Quotation>, news: seq<(Id, Quotation)>): Result<map<Id, Quotation>>
    decreases |news|
  {
    if news == [] then Ok(table)
    else
      var next :- Insert(table, news[0].0, news[0].1);
      InsertClaims(next, news[1..])
  }

  function InsertEvidence(t: Tables, notes: seq<(Id, Observation)>, quotations: seq<(Id, Quotation)>): Result<Tables> {
    var observations :- InsertObservations(t.observations, notes);
    var claims :- InsertClaims(t.claims, quotations);
    Ok(t.(observations := observations, claims := claims))
  }

  function Transact(t: Tables, op: Op): Result<Tables> {
    match op
    case Reserving(id, row) =>
      if Conflicting(t.assignments, row, NO_ID) != {} then Err(Conflict)
      else
        var assignments :- Insert(t.assignments, id, row);
        Ok(t.(assignments := assignments))
    case Moving(id, seen, row) =>
      if Conflicting(t.assignments, row, id) != {} then Err(Conflict)
      else
        var assignments :- Update(AssignmentVersion, t.assignments, id, row, seen.version);
        Ok(t.(assignments := assignments))
    case Starting(id, seen, row, sid, session) =>
      var current :- GetAssignment(t, seen.tenant, id);
      if current.version != seen.version || current.state != Reserved then Err(Conflict)
      else
        var assignments :- Update(AssignmentVersion, t.assignments, id, row, seen.version);
        InsertSession(t.(assignments := assignments), sid, session)
    case HoldingAssignment(_, _) => Err(Validation)
    case HoldingSession(_, _) => Err(Validation)
    case Abandoning(sid, sessionSeen, session, id, seen, row) =>
      var sessions :- Update(SessionVersion, t.sessions, sid, session, sessionSeen.version);
      var assignments :- Update(AssignmentVersion, t.assignments, id, row, seen.version);
      Ok(t.(sessions := sessions, assignments := assignments))
    case Submitting(sid, sessionSeen, session, id, seen, row, notes, quotations) =>
      var sessions :- Update(SessionVersion, t.sessions, sid, session, sessionSeen.version);
      var assignments :- Update(AssignmentVersion, t.assignments, id, row, seen.version);
      InsertEvidence(t.(sessions := sessions, assignments := assignments), notes, quotations)
    case Expiring(id, seen, row, _) =>
      var assignments :- Update(AssignmentVersion, t.assignments, id, row, seen.version);
      Ok(t.(assignments := assignments))
  }

  // ---------- Runs

  function Begin(s: State, e: Event): Option<Op> {
    match e
    case BeginReserve(id, tenant, program, edition, member, pages, start, end, view) =>
      Kept(Reserve(s.pageCount, id, tenant, program, edition, member, pages, start, end, view))
    case ReadAssignment(id, tenant) =>
      (match GetAssignment(s.tables, tenant, id) case Ok(row) => Some(HoldingAssignment(id, row)) case Err(_) => None)
    case ReadSession(sid, tenant) =>
      (match GetSession(s.tables, tenant, sid) case Ok(row) => Some(HoldingSession(sid, row)) case Err(_) => None)
    case BeginMove(id, seen, member, pages, start, end) =>
      if HoldingAssignment(id, seen) !in s.ops then None
      else Kept(Move(s.pageCount, id, seen, member, pages, start, end))
    case BeginStart(id, seen, member, memberActive, sid, ttl) =>
      if HoldingAssignment(id, seen) !in s.ops then None
      else Kept(Start(s.now, id, seen, member, memberActive, sid, ttl))
    case BeginAbandon(sid, held, seen, member) =>
      if HoldingSession(sid, held) !in s.ops || HoldingAssignment(held.assignment, seen) !in s.ops then None
      else Kept(Abandon(sid, held, seen, member))
    case BeginSubmit(sid, held, seen, member, author, observed, quoted) =>
      if HoldingSession(sid, held) !in s.ops || HoldingAssignment(held.assignment, seen) !in s.ops then None
      else Kept(Submit(s.pageCount, sid, held, seen, member, author, observed, quoted))
    case ListDue(id, at) =>
      if at > s.now || id !in s.tables.assignments || !Due(s.tables.assignments[id], at) then None
      else Kept(Expire(id, s.tables.assignments[id], at))
    case _ => None
  }

  function Next(s: State, e: Event): State {
    match e
    case Commit(op) =>
      if op !in s.ops then s
      else (
        match Transact(s.tables, op)
        case Ok(tables) => s.(tables := tables, ops := s.ops - {op})
        case Err(_) => s.(ops := s.ops - {op})
      )
    case Crash(op) => s.(ops := s.ops - {op})
    case Tick(to) => if s.now <= to then s.(now := to) else s
    case _ =>
      match Begin(s, e)
      case Some(op) => s.(ops := s.ops + {op})
      case None => s
  }

  function Run(s: State, events: seq<Event>): State
    decreases |events|
  {
    if events == [] then s else Run(Next(s, events[0]), events[1..])
  }

  predicate Initial(s: State) {
    s.now >= 1 && s.tables == Tables(map[], map[], map[], map[]) && s.ops == {}
  }
}
