/** The reading services as the code runs them: mutable tables, mutable copies, guarded updates and
    transaction bodies. Each service call is proved to do what ReadingProtocol says.

    The argument `others` stands for everybody else: at each point where the code holds no
    transaction, the tables may become `others(point, tables)`. The contracts hold for every such
    function. */
module ReadingStore {
  import opened Prelude
  import opened Versions
  import opened ReadingDomain
  import opened ReadingProtocol
  import opened ReadingSafety

  type Interference = (nat, Tables) -> Tables

  /** The outcome of a call: if its reads fail nothing changes; otherwise its transaction runs on
      the tables it meets, and commits or leaves them as they are. */
  ghost predicate Served(begun: Result<Op>, before: Tables, met: Tables, after: Tables, err: Option<Fault>) {
    match begun
    case Err(fault) => err == Some(fault) && after == before
    case Ok(op) => Meets(Transact(met, op), met, after, err)
  }

  /** Assignments only advance, and finished ones are never written again. */
  ghost predicate AssignmentsAdvance(before: map<Id, AssignmentRow>, after: map<Id, AssignmentRow>) {
    && Advances(AssignmentVersion, before, after)
    && forall k | k in before && Finished(before[k]) :: after[k] == before[k]
  }

  datatype Page = Page(limit: int, offset: int) {
    function Normalize(): (n: Page)
      ensures 1 <= n.limit <= 100 && n.offset >= 0
      ensures 1 <= limit <= 100 ==> n.limit == limit
      ensures limit < 1 ==> n.limit == 25
      ensures limit > 100 ==> n.limit == 100
      ensures n.offset == offset || (n.offset == 0 && offset < 0)
    {
      Page(if limit < 1 then 25 else if limit > 100 then 100 else limit, if offset < 0 then 0 else offset)
    }
  }

  /** LIMIT ... OFFSET ..., after normalisation. */
  function PageOf<T>(all: seq<T>, page: Page): seq<T> {
    var n := page.Normalize();
    var from := if n.offset < |all| then n.offset else |all|;
    all[from..if from + n.limit < |all| then from + n.limit else |all|]
  }

  /** ORDER BY window_end, id and ORDER BY window_start, page_start. */
  datatype Order = ByEnd | ByStart {
    function Key(r: (Id, AssignmentRow)): (int, int) {
      match this
      case ByEnd => (r.1.windowEnd, r.0)
      case ByStart => (r.1.windowStart, r.1.pages.start)
    }

    predicate NotAfter(a: (Id, AssignmentRow), b: (Id, AssignmentRow)) {
      Key(a).0 < Key(b).0 || (Key(a).0 == Key(b).0 && Key(a).1 <= Key(b).1)
    }

    predicate Sorted(rows: seq<(Id, AssignmentRow)>) {
      forall i, j | 0 <= i < j < |rows| :: NotAfter(rows[i], rows[j])
    }

    /** The position of a new row: before everything it is not after. */
    function Position(rows: seq<(Id, AssignmentRow)>, x: (Id, AssignmentRow)): (p: nat)
      ensures p <= |rows| && (p < |rows| ==> NotAfter(x, rows[p]))
      ensures forall i | 0 <= i < p :: !NotAfter(x, rows[i])
      decreases |rows|
    {
      if rows == [] || NotAfter(x, rows[0]) then 0
      else
        var p := Position(rows[1..], x);
        assert forall i | 1 <= i < p + 1 :: rows[i] == rows[1..][i - 1];
        p + 1
    }
  }

  /** Rows of the table, each at most once. */
  ghost predicate RowsOf(table: map<Id, AssignmentRow>, rows: seq<(Id, AssignmentRow)>) {
    && (forall r | r in rows :: r.0 in table && table[r.0] == r.1)
    && (forall i, j | 0 <= i < j < |rows| :: rows[i].0 != rows[j].0)
  }

  function Placed(order: Order, rows: seq<(Id, AssignmentRow)>, x: (Id, AssignmentRow)): seq<(Id, AssignmentRow)> {
    rows[..order.Position(rows, x)] + [x] + rows[order.Position(rows, x)..]
  }

  /** Element by element: those before the position, the new one, and those after it. */
  lemma PlacedAt(order: Order, rows: seq<(Id, AssignmentRow)>, x: (Id, AssignmentRow), i: nat)
    requires i <= |rows|
    ensures |Placed(order, rows, x)| == |rows| + 1
    ensures var p := order.Position(rows, x);
      Placed(order, rows, x)[i] == if i < p then rows[i] else if i == p then x else rows[i - 1]
  {
  }

  lemma PlacedMembers(order: Order, rows: seq<(Id, AssignmentRow)>, x: (Id, AssignmentRow), r: (Id, AssignmentRow))
    ensures r in Placed(order, rows, x) <==> r in rows || r == x
  {
    var p := order.Position(rows, x);
    assert r in Placed(order, rows, x) <==> r in rows[..p] || r == x || r in rows[p..];
    assert rows == rows[..p] + rows[p..];
  }

  lemma PlacedOnce(order: Order, rows: seq<(Id, AssignmentRow)>, x: (Id, AssignmentRow))
    requires forall i, j | 0 <= i < j < |rows| :: rows[i].0 != rows[j].0
    requires forall i | 0 <= i < |rows| :: rows[i].0 != x.0
    ensures var after := Placed(order, rows, x);
      forall i, j | 0 <= i < j < |after| :: after[i].0 != after[j].0
  {
    var after := Placed(order, rows, x);
    forall i, j | 0 <= i < j < |after|
      ensures after[i].0 != after[j].0
    {
      PlacedAt(order, rows, x, i);
      PlacedAt(order, rows, x, j);
    }
  }

  lemma PlacedInOrder(order: Order, rows: seq<(Id, AssignmentRow)>, x: (Id, AssignmentRow))
    requires order.Sorted(rows)
    ensures order.Sorted(Placed(order, rows, x))
  {
    var p, after := order.Position(rows, x), Placed(order, rows, x);
    forall i, j | 0 <= i < j < |after|
      ensures order.NotAfter(after[i], after[j])
    {
      PlacedAt(order, rows, x, i);
      PlacedAt(order, rows, x, j);
      if i < p {
        assert !order.NotAfter(x, rows[i]);
      }
      if j > p && i <= p {
        assert order.NotAfter(x, rows[p]);
        assert j - 1 > p ==> order.NotAfter(rows[p], rows[j - 1]);
      }
    }
  }

  lemma OneMoreRow(table: map<Id, AssignmentRow>, order: Order, rows: seq<(Id, AssignmentRow)>, k: Id)
    requires RowsOf(table, rows) && order.Sorted(rows) && k in table && forall r | r in rows :: r.0 != k
    ensures var after := Placed(order, rows, (k, table[k]));
      && RowsOf(table, after) && order.Sorted(after)
      && forall r :: r in after <==> r in rows || r == (k, table[k])
  {
    forall r: (Id, AssignmentRow)
      ensures r in Placed(order, rows, (k, table[k])) <==> r in rows || r == (k, table[k])
    {
      PlacedMembers(order, rows, (k, table[k]), r);
    }
    PlacedOnce(order, rows, (k, table[k]));
    PlacedInOrder(order, rows, (k, table[k]));
  }

  /** The earlier window end comes first, and of equal ones the smaller id. */
  predicate EndsFirst(a: (Id, AssignmentRow), b: (Id, AssignmentRow)) {
    a.1.windowEnd < b.1.windowEnd || (a.1.windowEnd == b.1.windowEnd && a.0 < b.0)
  }

  lemma EndsInOrder(table: map<Id, AssignmentRow>, rows: seq<(Id, AssignmentRow)>)
    requires RowsOf(table, rows) && ByEnd.Sorted(rows)
    ensures forall i, j | 0 <= i < j < |rows| :: EndsFirst(rows[i], rows[j])
  {
    forall i, j | 0 <= i < j < |rows|
      ensures EndsFirst(rows[i], rows[j])
    {
      assert ByEnd.NotAfter(rows[i], rows[j]) && rows[i].0 != rows[j].0;
    }
  }

  /** Whatever the first page leaves out comes after everything on it. */
  lemma LeftOutComesLater(all: seq<(Id, AssignmentRow)>, n: nat, r: (Id, AssignmentRow), out: (Id, AssignmentRow))
    requires n <= |all| && (forall i, j | 0 <= i < j < |all| :: EndsFirst(all[i], all[j]))
    requires r in all[..n] && out in all && out !in all[..n]
    ensures EndsFirst(r, out)
  {
    var i :| 0 <= i < n && all[i] == r;
    var j :| 0 <= j < |all| && all[j] == out;
    assert forall x | 0 <= x < n :: all[x] in all[..n];
  }

  /** What one turn of the sweep makes of the table it meets: the listed row expires exactly when it is
      still there. */
  function Turn(met: map<Id, AssignmentRow>, item: (Id, AssignmentRow), now: Instant): map<Id, AssignmentRow> {
    var expired := item.1.Expire(item.1.leaseToken, now);
    if item.0 in met && met[item.0] == item.1 && expired.Ok? then met[item.0 := expired.value] else met
  }

  type Meeting = (nat, map<Id, AssignmentRow>) -> map<Id, AssignmentRow>

  /** The table after turn `i`, when turn `i` met `mets[i]`. */
  function AfterTurns(start: map<Id, AssignmentRow>, listed: seq<(Id, AssignmentRow)>,
                      mets: seq<map<Id, AssignmentRow>>, n: nat, now: Instant): map<Id, AssignmentRow>
    requires n <= |mets| <= |listed|
  {
    if n == 0 then start else Turn(mets[n - 1], listed[n - 1], now)
  }

  /** `mets` are the tables the turns met, each left by the turn before and then changed by others. */
  ghost predicate Met(others: Meeting, start: map<Id, AssignmentRow>, listed: seq<(Id, AssignmentRow)>,
                      mets: seq<map<Id, AssignmentRow>>, now: Instant)
  {
    && |mets| <= |listed|
    && forall i: nat | i < |mets| :: mets[i] == others(i, AfterTurns(start, listed, mets, i, now))
  }

  /** A turn moved its row if and only if it met the row as listed; the row then stays as it was
      written, and otherwise somebody else had changed it. */
  ghost predicate Turned(table: map<Id, AssignmentRow>, item: (Id, AssignmentRow), met: map<Id, AssignmentRow>,
                         moved: bool, now: Instant)
  {
    var id, row := item.0, item.1;
    && id in met && id in table && row.Expire(row.leaseToken, now).Ok?
    && (moved <==> met[id] == row)
    && (moved ==> table[id] == row.Expire(row.leaseToken, now).value)
    && (!moved ==> met[id].version > row.version)
  }

  ghost predicate Swept(table: map<Id, AssignmentRow>, listed: seq<(Id, AssignmentRow)>,
                        mets: seq<map<Id, AssignmentRow>>, moved: set<nat>, now: Instant)
    requires |mets| <= |listed|
  {
    && (forall i: nat | i in moved :: i < |mets|)
    && forall i: nat | i < |mets| :: Turned(table, listed[i], mets[i], i in moved, now)
  }

  /** A sweep from `start` after `|mets|` turns. */
  ghost predicate Sweeping(others: Meeting, start: map<Id, AssignmentRow>, table: map<Id, AssignmentRow>,
                           listed: seq<(Id, AssignmentRow)>, mets: seq<map<Id, AssignmentRow>>, moved: set<nat>,
                           now: Instant)
  {
    && Met(others, start, listed, mets, now)
    && table == AfterTurns(start, listed, mets, |mets|, now)
    && Swept(table, listed, mets, moved, now)
    && AssignmentsAdvance(start, table)
  }

  class Store {
    const pageCount: map<Id, int>
    var assignments: map<Id, AssignmentRow>
    var sessions: map<Id, SessionRow>
    var observations: map<Id, Observation>
    var claims: map<Id, Quotation>

    constructor (pageCount: map<Id, int>)
      ensures Contents() == Tables(map[], map[], map[], map[]) && this.pageCount == pageCount
    {
      this.pageCount := pageCount;
      assignments, sessions, observations, claims := map[], map[], map[], map[];
    }

    function Contents(): Tables
      reads this
    {
      Tables(assignments, sessions, observations, claims)
    }

    /** Interference by other calls, and rollback of a transaction. */
    method Become(t: Tables)
      modifies this
      ensures Contents() == t
    {
      assignments, sessions, observations, claims := t.assignments, t.sessions, t.observations, t.claims;
    }

    // ---------- Queries

    method FindAssignmentConflicts(candidate: AssignmentRow, exclude: Id) returns (found: seq<(Id, AssignmentRow)>)
      ensures RowsOf(assignments, found) && ByStart.Sorted(found)
      ensures forall i, j | 0 <= i < j < |found| ::
                var a, b := found[i].1, found[j].1;
                a.windowStart < b.windowStart || (a.windowStart == b.windowStart && a.pages.start <= b.pages.start)
      ensures forall k | k in assignments :: (k, assignments[k]) in found <==> k in Conflicting(assignments, candidate, exclude)
      ensures candidate.Live() ==> forall k | k in assignments ::
                (k, assignments[k]) in found <==> k != exclude && candidate.Conflicts(assignments[k])
    {
      found := [];
      var rest := assignments.Keys;
      while rest != {}
        invariant rest <= assignments.Keys && RowsOf(assignments, found) && ByStart.Sorted(found)
        invariant forall k | k in assignments ::
                    (k, assignments[k]) in found <==> k in Conflicting(assignments, candidate, exclude) && k !in rest
        decreases rest
      {
        var k :| k in rest;
        if k != exclude && Clashes(assignments[k], candidate) {
          OneMoreRow(assignments, ByStart, found, k);
          found := Placed(ByStart, found, (k, assignments[k]));
        }
        rest := rest - {k};
      }
    }

    /** `all` is every due row in the order of the query; `rows` is the page asked for. */
    method ListExpiredAssignments(now: Instant, page: Page)
      returns (rows: seq<(Id, AssignmentRow)>, all: seq<(Id, AssignmentRow)>)
      ensures RowsOf(assignments, all) && ByEnd.Sorted(all)
      ensures forall i, j | 0 <= i < j < |all| :: EndsFirst(all[i], all[j])
      ensures forall k | k in assignments :: (k, assignments[k]) in all <==> Due(assignments[k], now)
      ensures rows == PageOf(all, page)
    {
      all := [];
      var rest := assignments.Keys;
      while rest != {}
        invariant rest <= assignments.Keys && RowsOf(assignments, all) && ByEnd.Sorted(all)
        invariant forall k | k in assignments ::
                    (k, assignments[k]) in all <==> Due(assignments[k], now) && k !in rest
        decreases rest
      {
        var k :| k in rest;
        if Due(assignments[k], now) {
          OneMoreRow(assignments, ByEnd, all, k);
          all := Placed(ByEnd, all, (k, assignments[k]));
        }
        rest := rest - {k};
      }
      rows := PageOf(all, page);
      EndsInOrder(assignments, all);
    }

    // ---------- Guarded writes

    method InsertAssignment(id: Id, row: AssignmentRow) returns (err: Option<Fault>)
      modifies this`assignments
      ensures Meets(Insert(old(assignments), id, row), old(assignments), assignments, err)
    {
      if id in assignments { return Some(Conflict); }
      assignments := assignments[id := row];
      return None;
    }

    method UpdateAssignment(id: Id, row: AssignmentRow, expected: int) returns (err: Option<Fault>)
      modifies this`assignments
      ensures Meets(Update(AssignmentVersion, old(assignments), id, row, expected), old(assignments), assignments, err)
    {
      if id !in assignments || assignments[id].version != expected { return Some(Conflict); }
      assignments := assignments[id := row];
      return None;
    }

    method InsertReadingSession(sid: Id, row: SessionRow) returns (err: Option<Fault>)
      modifies this`sessions
      ensures Meets(InsertSession(old(Contents()), sid, row), old(Contents()), Contents(), err)
    {
      if exists k :: k in sessions && sessions[k].tenant == row.tenant && sessions[k].assignment == row.assignment {
        return Some(Conflict);
      }
      if sid in sessions { return Some(Conflict); }
      sessions := sessions[sid := row];
      return None;
    }

    method UpdateReadingSession(sid: Id, row: SessionRow, expected: int) returns (err: Option<Fault>)
      modifies this`sessions
      ensures Meets(Update(SessionVersion, old(sessions), sid, row, expected), old(sessions), sessions, err)
    {
      if sid !in sessions || sessions[sid].version != expected { return Some(Conflict); }
      sessions := sessions[sid := row];
      return None;
    }

    // ---------- Services

    method Reserve(others: Interference, id: Id, tenant: Id, program: Id, edition: Id, member: Id,
                   pages: PageRange, start: Instant, end: Instant, view: EnrolmentView)
      returns (err: Option<Fault>)
      modifies this
      ensures Served(ReadingProtocol.Reserve(pageCount, id, tenant, program, edition, member, pages, start, end, view),
                     old(Contents()), others(0, old(Contents())), Contents(), err)
    {
      if !view.programActive { return Some(Precondition); }
      if !view.memberActive { return Some(Precondition); }
      if edition !in pageCount { return Some(NotFound); }
      if !view.editionActive { return Some(Precondition); }
      if !ValidatePageRange(pageCount, edition, pages) { return Some(Validation); }
      if start < view.programStart || end > view.programEnd { return Some(Precondition); }
      var row := NewAssignment(id, tenant, program, edition, member, pages, start, end);
      if row.Err? { return Some(row.fault); }
      Become(others(0, Contents()));
      var conflicts := FindAssignmentConflicts(row.value, NO_ID);
      if |conflicts| > 0 {
        assert conflicts[0] in conflicts;
        return Some(Conflict);
      }
      assert Conflicting(assignments, row.value, NO_ID) == {};
      err := InsertAssignment(id, row.value);
    }

    method MoveReservation(others: Interference, id: Id, tenant: Id, member: Id,
                           pages: PageRange, start: Instant, end: Instant)
      returns (err: Option<Fault>)
      modifies this
      ensures var before := old(Contents());
        match GetAssignment(before, tenant, id)
        case Err(fault) => err == Some(fault) && Contents() == before
        case Ok(seen) => Served(Move(pageCount, id, seen, member, pages, start, end),
                                before, others(0, before), Contents(), err)
    {
      if id !in assignments || assignments[id].tenant != tenant { return Some(NotFound); }
      var assignment := new Assignment(assignments[id]);
      ghost var seen := assignment.Row();
      if member != assignment.member || assignment.state != Reserved { return Some(Forbidden); }
      if assignment.edition !in pageCount { return Some(NotFound); }
      if !ValidatePageRange(pageCount, assignment.edition, pages) { return Some(Validation); }
      if end <= start { return Some(Validation); }
      var previous := assignment.version;
      assignment.pages := pages;
      assignment.windowStart := start;
      assignment.windowEnd := end;
      assignment.version := assignment.version + 1;
      assert Move(pageCount, id, seen, member, pages, start, end) == Ok(Moving(id, seen, assignment.Row()));
      Become(others(0, Contents()));
      err := WriteMove(id, assignment.Row(), previous, seen);
    }

    method WriteMove(id: Id, row: AssignmentRow, expected: int, ghost seen: AssignmentRow) returns (err: Option<Fault>)
      requires seen.version == expected
      modifies this`assignments
      ensures Meets(Transact(old(Contents()), Moving(id, seen, row)), old(Contents()), Contents(), err)
    {
      var conflicts := FindAssignmentConflicts(row, id);
      if |conflicts| > 0 {
        assert conflicts[0] in conflicts;
        return Some(Conflict);
      }
      assert Conflicting(assignments, row, id) == {};
      err := UpdateAssignment(id, row, expected);
    }

    method Start(others: Interference, now: Instant, id: Id, tenant: Id, member: Id, memberActive: bool,
                 sid: Id, ttl: int)
      returns (err: Option<Fault>)
      modifies this
      ensures var before := old(Contents());
        match GetAssignment(before, tenant, id)
        case Err(fault) => err == Some(fault) && Contents() == before
        case Ok(seen) => Served(ReadingProtocol.Start(now, id, seen, member, memberActive, sid, ttl),
                                before, others(0, before), Contents(), err)
    {
      if id !in assignments || assignments[id].tenant != tenant { return Some(NotFound); }
      var assignment := new Assignment(assignments[id]);
      if member != assignment.member || !memberActive { return Some(Forbidden); }
      if now < assignment.windowStart || now >= assignment.windowEnd { return Some(Precondition); }
      var prepared := NewSession(sid, tenant, assignment.program, id, member);
      if prepared.Err? { return Some(prepared.fault); }
      var session := new Session(prepared.value);
      err := session.Start();
      if err.Some? { return; }
      var previous := assignment.version;
      err := assignment.Start(sid, now + ttl, now);
      if err.Some? { return; }
      Become(others(0, Contents()));
      var before := Contents();
      if id !in assignments || assignments[id].tenant != assignment.tenant { return Some(NotFound); }
      if assignments[id].version != previous || assignments[id].state != Reserved { return Some(Conflict); }
      err := UpdateAssignment(id, assignment.Row(), previous);
      if err.Some? { return; }
      err := InsertReadingSession(sid, session.Row());
      if err.Some? { Become(before); }
    }

    method Abandon(others: Interference, sid: Id, tenant: Id, member: Id) returns (err: Option<Fault>)
      modifies this
      ensures var before := old(Contents());
        match GetSession(before, tenant, sid)
        case Err(fault) => err == Some(fault) && Contents() == before
        case Ok(held) =>
          var read := others(0, before);
          match GetAssignment(read, tenant, held.assignment)
          case Err(fault) => err == Some(fault) && Contents() == read
          case Ok(seen) => Served(ReadingProtocol.Abandon(sid, held, seen, member),
                                  read, others(1, read), Contents(), err)
    {
      if sid !in sessions || sessions[sid].tenant != tenant { return Some(NotFound); }
      var session := new Session(sessions[sid]);
      Become(others(0, Contents()));
      var id := session.assignment;
      if id !in assignments || assignments[id].tenant != tenant { return Some(NotFound); }
      var assignment := new Assignment(assignments[id]);
      if session.member != member { return Some(Forbidden); }
      var sessionVersion, assignmentVersion := session.version, assignment.version;
      ghost var held, seen := session.Row(), assignment.Row();
      err := session.Abandon();
      if err.Some? { return; }
      err := assignment.Release();
      if err.Some? { return; }
      assert ReadingProtocol.Abandon(sid, held, seen, member)
          == Ok(Abandoning(sid, held, session.Row(), id, seen, assignment.Row()));
      Become(others(1, Contents()));
      var before := Contents();
      err := UpdateReadingSession(sid, session.Row(), sessionVersion);
      if err.Some? { return; }
      err := UpdateAssignment(id, assignment.Row(), assignmentVersion);
      if err.Some? { Become(before); }
    }

    /** The two loops of Submit that check and build the evidence, in the order of the code. */
    method BuildEvidence(tenant: Id, sid: Id, edition: Id, author: Id, section: PageRange,
                         observed: seq<ObservationInput>, quoted: seq<ClaimInput>)
      returns (err: Option<Fault>, notes: seq<(Id, Observation)>, quotations: seq<(Id, Quotation)>)
      requires edition in pageCount
      ensures err == EvidenceFault(pageCount, edition, section, observed, quoted)
      ensures err == None ==> notes == Notes(observed, tenant, sid)
      ensures err == None ==> quotations == Quotations(quoted, tenant, sid, edition, author)
      ensures err == None ==> |notes| == |observed| && forall i | 0 <= i < |observed| ::
                notes[i] == (observed[i].id, Observation(tenant, sid, observed[i].page, observed[i].sequence))
      ensures err == None ==> |quotations| == |quoted| && forall i | 0 <= i < |quoted| ::
                quotations[i] == (quoted[i].id, Quotation(tenant, sid, edition, author, quoted[i].pages))
    {
      notes, quotations := [], [];
      var seen: set<int> := {};
      for i := 0 to |observed|
        invariant ObservedFault(observed, section, {}) == ObservedFault(observed[i..], section, seen)
        invariant notes == Notes(observed[..i], tenant, sid)
      {
        var item := observed[i];
        assert observed[i..][1..] == observed[i + 1..];
        if item.sequence in seen { return Some(Validation), notes, quotations; }
        seen := seen + {item.sequence};
        if item.page < section.start || item.page > section.end { return Some(Precondition), notes, quotations; }
        if item.page < 1 || item.sequence < 1 { return Some(Validation), notes, quotations; }
        notes := notes + [(item.id, Observation(tenant, sid, item.page, item.sequence))];
      }
      assert observed[..|observed|] == observed;
      for i := 0 to |quoted|
        invariant QuotedFault(quoted, pageCount, edition, section) == QuotedFault(quoted[i..], pageCount, edition, section)
        invariant quotations == Quotations(quoted[..i], tenant, sid, edition, author)
      {
        var item := quoted[i];
        assert quoted[i..][1..] == quoted[i + 1..];
        if !ValidatePageRange(pageCount, edition, item.pages) { return Some(Validation), notes, quotations; }
        if item.pages.start < section.start || item.pages.end > section.end {
          return Some(Precondition), notes, quotations;
        }
        quotations := quotations + [(item.id, Quotation(tenant, sid, edition, author, item.pages))];
      }
      assert quoted[..|quoted|] == quoted;
      err := None;
    }

    method InsertSubmission(notes: seq<(Id, Observation)>, quotations: seq<(Id, Quotation)>)
      returns (err: Option<Fault>)
      modifies this`observations, this`claims
      ensures Meets(InsertEvidence(old(Contents()), notes, quotations), old(Contents()), Contents(), err)
    {
      var before, beforeClaims := observations, claims;
      for i := 0 to |notes|
        invariant InsertObservations(before, notes) == InsertObservations(observations, notes[i..])
        invariant claims == beforeClaims
      {
        var id, note := notes[i].0, notes[i].1;
        assert notes[i..][1..] == notes[i + 1..];
        if (exists k :: k in observations && SamePosition(observations[k], note)) || id in observations {
          observations := before;
          return Some(Conflict);
        }
        observations := observations[id := note];
      }
      for i := 0 to |quotations|
        invariant InsertObservations(before, notes) == Ok(observations)
        invariant InsertClaims(beforeClaims, quotations) == InsertClaims(claims, quotations[i..])
      {
        var id, quotation := quotations[i].0, quotations[i].1;
        assert quotations[i..][1..] == quotations[i + 1..];
        if id in claims {
          observations, claims := before, beforeClaims;
          return Some(Conflict);
        }
        claims := claims[id := quotation];
      }
      return None;
    }

    method WriteSubmission(sid: Id, session: SessionRow, sessionVersion: int,
                           id: Id, row: AssignmentRow, assignmentVersion: int,
                           notes: seq<(Id, Observation)>, quotations: seq<(Id, Quotation)>,
                           ghost sessionSeen: SessionRow, ghost seen: AssignmentRow)
      returns (err: Option<Fault>)
      requires sessionSeen.version == sessionVersion && seen.version == assignmentVersion
      modifies this
      ensures Meets(Transact(old(Contents()), Submitting(sid, sessionSeen, session, id, seen, row, notes, quotations)),
                    old(Contents()), Contents(), err)
    {
      var before := Contents();
      err := UpdateReadingSession(sid, session, sessionVersion);
      if err.Some? { return; }
      err := UpdateAssignment(id, row, assignmentVersion);
      if err.Some? { Become(before); return; }
      err := InsertSubmission(notes, quotations);
      if err.Some? { Become(before); }
    }

    method Submit(others: Interference, sid: Id, tenant: Id, member: Id, author: Id,
                  observed: seq<ObservationInput>, quoted: seq<ClaimInput>)
      returns (err: Option<Fault>)
      modifies this
      ensures var before := old(Contents());
        if observed == [] || quoted == [] then err == Some(Precondition) && Contents() == before
        else match GetSession(before, tenant, sid)
        case Err(fault) => err == Some(fault) && Contents() == before
        case Ok(held) =>
          var read := others(0, before);
          match GetAssignment(read, tenant, held.assignment)
          case Err(fault) => err == Some(fault) && Contents() == read
          case Ok(seen) =>
            Served(ReadingProtocol.Submit(pageCount, sid, held, seen, member, author, observed, quoted),
                   read, others(1, read), Contents(), err)
    {
      if |observed| == 0 || |quoted| == 0 { return Some(Precondition); }
      if sid !in sessions || sessions[sid].tenant != tenant { return Some(NotFound); }
      var session := new Session(sessions[sid]);
      ghost var sessionSeen := session.Row();
      Become(others(0, Contents()));
      var id := session.assignment;
      if id !in assignments || assignments[id].tenant != tenant { return Some(NotFound); }
      var assignment := new Assignment(assignments[id]);
      ghost var seen := assignment.Row();
      if member != session.member || assignment.leaseOwner != sid { return Some(Conflict); }
      if assignment.edition !in pageCount { return Some(NotFound); }
      var notes, quotations;
      err, notes, quotations :=
        BuildEvidence(tenant, sid, assignment.edition, author, assignment.pages, observed, quoted);
      if err.Some? { return; }
      var sessionVersion, assignmentVersion := session.version, assignment.version;
      err := session.Submit();
      if err.Some? { return; }
      err := assignment.Submit(sid, assignment.leaseToken);
      if err.Some? { return; }
      Become(others(1, Contents()));
      err := WriteSubmission(sid, session.Row(), sessionVersion, id, assignment.Row(), assignmentVersion,
                             notes, quotations, sessionSeen, seen);
    }

    /** One turn of the sweep: expire the listed row in memory, let others commit, then write. */
    method ExpireOne(met: map<Id, AssignmentRow>, now: Instant, id: Id, row: AssignmentRow)
      returns (written: bool)
      requires id in assignments && Snapshot(AssignmentVersion, assignments, id, row) && Due(row, now)
      requires AssignmentsAdvance(assignments, met)
      modifies this`assignments
      ensures AssignmentsAdvance(old(assignments), assignments)
      ensures row.Expire(row.leaseToken, now).Ok? && assignments == Turn(met, (id, row), now)
      ensures written <==> met[id] == row
      ensures !written ==> met[id].version > row.version
    {
      var value := new Assignment(row);
      var err := value.Expire(value.leaseToken, now);
      assert err == None;
      ghost var before := assignments;
      assignments := met;
      err := UpdateAssignment(id, value.Row(), row.version);
      written := err == None;
      if written {
        assert met[id] == row;
        AssignmentsAdvanceTransitive(before, met, assignments);
      }
    }

    /** One sweep: list once, then expire row by row, with other calls in between. The count is the
        number of turns that met their row as listed, and exactly those rows were moved. */
    method ExpireAssignments(others: Meeting, now: Instant, limit: int)
      returns (completed: nat, ghost listed: seq<(Id, AssignmentRow)>,
               ghost mets: seq<map<Id, AssignmentRow>>, ghost moved: set<nat>)
      requires OnlyAdvance(others)
      modifies this`assignments
      ensures |listed| <= Page(limit, 0).Normalize().limit
      ensures RowsOf(old(assignments), listed) && forall r | r in listed :: Due(r.1, now)
      ensures |listed| < Page(limit, 0).Normalize().limit ==>
                forall k | k in old(assignments) && Due(old(assignments)[k], now) :: (k, old(assignments)[k]) in listed
      ensures forall r, k | r in listed && k in old(assignments) && Due(old(assignments)[k], now)
                            && (k, old(assignments)[k]) !in listed :: EndsFirst(r, (k, old(assignments)[k]))
      ensures |mets| == |listed| && completed == |moved|
      ensures Sweeping(others, old(assignments), assignments, listed, mets, moved, now)
    {
      var values, all := ListExpiredAssignments(now, Page(limit, 0));
      assert forall r | r in values :: r in all;
      assert |values| < Page(limit, 0).Normalize().limit ==> values == all;
      listed := values;
      forall r, k | r in listed && k in assignments && Due(assignments[k], now) && (k, assignments[k]) !in listed
        ensures EndsFirst(r, (k, assignments[k]))
      {
        assert values == all[..|values|];
        LeftOutComesLater(all, |values|, r, (k, assignments[k]));
      }
      completed, mets, moved := ExpireListed(others, now, values);
    }

    /** The loop of the sweep. */
    method ExpireListed(others: Meeting, now: Instant, values: seq<(Id, AssignmentRow)>)
      returns (completed: nat, ghost mets: seq<map<Id, AssignmentRow>>, ghost moved: set<nat>)
      requires OnlyAdvance(others)
      requires forall r | r in values :: r.0 in assignments && assignments[r.0] == r.1 && Due(r.1, now)
      modifies this`assignments
      ensures |mets| == |values| && completed == |moved|
      ensures Sweeping(others, old(assignments), assignments, values, mets, moved, now)
    {
      mets, moved, completed := [], {}, 0;
      SweepStarts(others, assignments, values, now);
      var i := 0;
      while i < |values|
        invariant 0 <= i == |mets| <= |values| && completed == |moved|
        invariant Sweeping(others, old(assignments), assignments, values, mets, moved, now)
      {
        assert values[i] in values;
        var written;
        written, mets, moved := ExpireNext(others, now, values, i, old(assignments), mets, moved);
        if written { completed := completed + 1; }
        i := i + 1;
      }
    }

    method ExpireNext(others: Meeting, now: Instant, values: seq<(Id, AssignmentRow)>, i: nat,
                      ghost start: map<Id, AssignmentRow>, ghost mets: seq<map<Id, AssignmentRow>>, ghost moved: set<nat>)
      returns (written: bool, ghost mets': seq<map<Id, AssignmentRow>>, ghost moved': set<nat>)
      requires OnlyAdvance(others) && i == |mets| < |values|
      requires values[i].0 in start && start[values[i].0] == values[i].1 && Due(values[i].1, now)
      requires Sweeping(others, start, assignments, values, mets, moved, now)
      modifies this`assignments
      ensures Sweeping(others, start, assignments, values, mets', moved', now)
      ensures |mets'| == i + 1 && |moved'| == |moved| + if written then 1 else 0
    {
      ghost var before, met := assignments, others(i, assignments);
      ListedIsSeen(start, before, values[i]);
      MeetingAdvances(others, i, before);
      written := ExpireOne(others(i, assignments), now, values[i].0, values[i].1);
      SweepStep(others, start, before, met, assignments, values, mets, moved, now);
      mets', moved' := mets + [met], if written then moved + {i} else moved;
    }
  }

  /** Everybody else keeps the protocol's rules for assignment rows. */
  ghost predicate OnlyAdvance(others: Meeting) {
    forall i: nat, t :: AssignmentsAdvance(t, others(i, t))
  }

  lemma MeetingAdvances(others: Meeting, i: nat, t: map<Id, AssignmentRow>)
    requires OnlyAdvance(others)
    ensures AssignmentsAdvance(t, others(i, t))
  {
  }

  lemma ListedIsSeen(start: map<Id, AssignmentRow>, table: map<Id, AssignmentRow>, item: (Id, AssignmentRow))
    requires AssignmentsAdvance(start, table) && item.0 in start && start[item.0] == item.1
    ensures item.0 in table && Snapshot(AssignmentVersion, table, item.0, item.1)
  {
  }

  lemma AssignmentsAdvanceTransitive(a: map<Id, AssignmentRow>, b: map<Id, AssignmentRow>, c: map<Id, AssignmentRow>)
    requires AssignmentsAdvance(a, b) && AssignmentsAdvance(b, c)
    ensures AssignmentsAdvance(a, c)
  {
    AdvancesTransitive(AssignmentVersion, a, b, c);
  }

  lemma SweepStarts(others: Meeting, start: map<Id, AssignmentRow>, listed: seq<(Id, AssignmentRow)>, now: Instant)
    ensures Sweeping(others, start, start, listed, [], {}, now)
  {
  }

  /** A moved row is finished, so it stays. */
  lemma StaysTurned(before: map<Id, AssignmentRow>, after: map<Id, AssignmentRow>, item: (Id, AssignmentRow),
                    met: map<Id, AssignmentRow>, moved: bool, now: Instant)
    requires AssignmentsAdvance(before, after) && Turned(before, item, met, moved, now)
    ensures Turned(after, item, met, moved, now)
  {
    assert moved ==> Finished(before[item.0]);
  }

  /** One more turn. */
  lemma SweepTurn(before: map<Id, AssignmentRow>, met: map<Id, AssignmentRow>, after: map<Id, AssignmentRow>,
                  listed: seq<(Id, AssignmentRow)>, mets: seq<map<Id, AssignmentRow>>, moved: set<nat>, now: Instant)
    requires |mets| < |listed| && AssignmentsAdvance(before, after) && Swept(before, listed, mets, moved, now)
    requires var id, row := listed[|mets|].0, listed[|mets|].1;
      && id in met && id in after && row.Expire(row.leaseToken, now).Ok?
      && after == Turn(met, listed[|mets|], now) && (met[id] != row ==> met[id].version > row.version)
    ensures var id, row := listed[|mets|].0, listed[|mets|].1;
      Swept(after, listed, mets + [met], if met[id] == row then moved + {|mets|} else moved, now)
  {
    var id, row := listed[|mets|].0, listed[|mets|].1;
    var moved' := if met[id] == row then moved + {|mets|} else moved;
    forall i: nat | i < |mets| + 1
      ensures Turned(after, listed[i], (mets + [met])[i], i in moved', now)
    {
      if i < |mets| {
        StaysTurned(before, after, listed[i], mets[i], i in moved, now);
      }
    }
  }

  lemma SweepStep(others: Meeting, start: map<Id, AssignmentRow>, before: map<Id, AssignmentRow>,
                  met: map<Id, AssignmentRow>, after: map<Id, AssignmentRow>, listed: seq<(Id, AssignmentRow)>,
                  mets: seq<map<Id, AssignmentRow>>, moved: set<nat>, now: Instant)
    requires |mets| < |listed| && Sweeping(others, start, before, listed, mets, moved, now)
    requires AssignmentsAdvance(before, after) && met == others(|mets|, before)
    requires var id, row := listed[|mets|].0, listed[|mets|].1;
      && id in met && id in after && row.Expire(row.leaseToken, now).Ok?
      && after == Turn(met, listed[|mets|], now) && (met[id] != row ==> met[id].version > row.version)
    ensures Sweeping(others, start, after, listed, mets + [met],
                     if met[listed[|mets|].0] == listed[|mets|].1 then moved + {|mets|} else moved, now)
    ensures |mets| !in moved
  {
    SweepTurn(before, met, after, listed, mets, moved, now);
    MetTurn(others, start, listed, mets, now);
    AssignmentsAdvanceTransitive(start, before, after);
  }

  lemma MetTurn(others: Meeting, start: map<Id, AssignmentRow>, listed: seq<(Id, AssignmentRow)>,
                mets: seq<map<Id, AssignmentRow>>, now: Instant)
    requires |mets| < |listed| && Met(others, start, listed, mets, now)
    ensures var met := others(|mets|, AfterTurns(start, listed, mets, |mets|, now));
      && Met(others, start, listed, mets + [met], now)
      && AfterTurns(start, listed, mets + [met], |mets| + 1, now) == Turn(met, listed[|mets|], now)
  {
    var met := others(|mets|, AfterTurns(start, listed, mets, |mets|, now));
    forall i: nat | i < |mets| + 1
      ensures (mets + [met])[i] == others(i, AfterTurns(start, listed, mets + [met], i, now))
    {
      SameTurns(start, listed, mets, met, i, now);
      if i < |mets| { assert mets[i] == others(i, AfterTurns(start, listed, mets, i, now)); }
    }
  }

  lemma SameTurns(start: map<Id, AssignmentRow>, listed: seq<(Id, AssignmentRow)>,
                  mets: seq<map<Id, AssignmentRow>>, met: map<Id, AssignmentRow>, n: nat, now: Instant)
    requires n <= |mets| < |listed|
    ensures AfterTurns(start, listed, mets + [met], n, now) == AfterTurns(start, listed, mets, n, now)
  {
  }

  lemma {:induction false} MetsAreDetermined(others: Meeting, start: map<Id, AssignmentRow>, listed: seq<(Id, AssignmentRow)>,
                                             mets: seq<map<Id, AssignmentRow>>, mets': seq<map<Id, AssignmentRow>>,
                                             now: Instant, n: nat)
    requires Met(others, start, listed, mets, now) && Met(others, start, listed, mets', now)
    requires n <= |mets| == |mets'|
    ensures forall i | 0 <= i < n :: mets[i] == mets'[i]
  {
    if n > 0 {
      MetsAreDetermined(others, start, listed, mets, mets', now, n - 1);
      assert AfterTurns(start, listed, mets, n - 1, now) == AfterTurns(start, listed, mets', n - 1, now);
    }
  }

  /** What ExpireAssignments promises leaves no choice: who was listed and what the others did determine
      the tables met, the rows moved, and so the count. */
  lemma SweepIsDetermined(others: Meeting, start: map<Id, AssignmentRow>, listed: seq<(Id, AssignmentRow)>, now: Instant,
                          table: map<Id, AssignmentRow>, mets: seq<map<Id, AssignmentRow>>, moved: set<nat>,
                          table': map<Id, AssignmentRow>, mets': seq<map<Id, AssignmentRow>>, moved': set<nat>)
    requires Sweeping(others, start, table, listed, mets, moved, now) && |mets| == |listed|
    requires Sweeping(others, start, table', listed, mets', moved', now) && |mets'| == |listed|
    ensures mets == mets' && moved == moved' && |moved| == |moved'| && table == table'
  {
    MetsAreDetermined(others, start, listed, mets, mets', now, |listed|);
    assert mets == mets';
    forall i: nat
      ensures i in moved <==> i in moved'
    {
      if i < |listed| {
        assert Turned(table, listed[i], mets[i], i in moved, now) && Turned(table', listed[i], mets[i], i in moved', now);
      }
    }
  }
}
