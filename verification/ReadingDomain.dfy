/** Page reservations and reading sessions: rows, their state machines, and the mutable copies
    that the services work on. */
module ReadingDomain {
  import opened Prelude

  datatype PageRange = PageRange(start: int, end: int) {
    predicate Valid() { 1 <= start <= end }

    predicate Overlaps(other: PageRange) { start <= other.end && other.start <= end }

    predicate Has(page: int) { start <= page <= end }

    predicate Within(outer: PageRange) { outer.start <= start && end <= outer.end }
  }

  datatype AssignmentState = Reserved | InReading | Submitted | Released | Expired

  datatype AssignmentRow = AssignmentRow(
    tenant: Id, program: Id, edition: Id, member: Id, pages: PageRange,
    windowStart: Instant, windowEnd: Instant, state: AssignmentState,
    leaseToken: int, leaseOwner: Id, leaseUntil: Instant, version: int)
  {
    predicate Live() { state != AssignmentState.Released && state != AssignmentState.Expired }

    predicate SameScope(other: AssignmentRow) {
      tenant == other.tenant && program == other.program && edition == other.edition
    }

    predicate Conflicts(other: AssignmentRow) {
      && SameScope(other)
      && Live() && other.Live()
      && windowStart < other.windowEnd && other.windowStart < windowEnd
      && pages.Overlaps(other.pages)
    }

    /** The reservation holds `page` at `instant`; windows are half open. */
    predicate Books(page: int, instant: Instant) {
      Live() && pages.Has(page) && windowStart <= instant < windowEnd
    }

    function Start(owner: Id, until: Instant, now: Instant): Result<AssignmentRow> {
      if state != Reserved then Err(Conflict)
      else if owner == NO_ID || until <= now then Err(Validation)
      else Ok(this.(state := InReading, leaseOwner := owner, leaseUntil := until,
                    leaseToken := leaseToken + 1, version := version + 1))
    }

    function Submit(owner: Id, token: int): Result<AssignmentRow> {
      if state != InReading || leaseOwner != owner || leaseToken != token then Err(Conflict)
      else Ok(this.(state := AssignmentState.Submitted, leaseOwner := NO_ID,
                    leaseUntil := ZERO_TIME, version := version + 1))
    }

    /** A released or expired row is left as it is, and that is a success. */
    function Release(): Result<AssignmentRow> {
      if state == AssignmentState.Submitted then Err(Conflict)
      else if !Live() then Ok(this)
      else Ok(this.(state := Released, leaseOwner := NO_ID, leaseUntil := ZERO_TIME,
                    version := version + 1))
    }

    function Expire(expectedToken: int, now: Instant): Result<AssignmentRow> {
      if leaseToken != expectedToken then Err(Conflict)
      else if state != Reserved && state != InReading then Err(Conflict)
      else if now < windowEnd && now < leaseUntil then Err(Precondition)
      else Ok(this.(state := Expired, leaseOwner := NO_ID, leaseUntil := ZERO_TIME,
                    version := version + 1))
    }
  }

  function NewAssignment(id: Id, tenant: Id, program: Id, edition: Id, member: Id,
                         pages: PageRange, start: Instant, end: Instant): Result<AssignmentRow>
  {
    if id == NO_ID || tenant == NO_ID || program == NO_ID || edition == NO_ID || member == NO_ID then Err(Validation)
    else if !pages.Valid() then Err(Validation)
    else if end <= start then Err(Validation)
    else Ok(AssignmentRow(tenant, program, edition, member, pages, start, end, Reserved,
                          0, NO_ID, ZERO_TIME, 1))
  }

  datatype SessionState =
    Prepared | Active | Submitted | Accepted | Abandoned | Reopened

  datatype SessionRow = SessionRow(
    tenant: Id, program: Id, assignment: Id, member: Id, state: SessionState, version: int)
  {
    function Start(): Result<SessionRow> {
      if state != Prepared && state != Reopened then Err(Conflict)
      else Ok(this.(state := Active, version := version + 1))
    }

    function Submit(): Result<SessionRow> {
      if state != Active then Err(Conflict)
      else Ok(this.(state := SessionState.Submitted, version := version + 1))
    }

    function Abandon(): Result<SessionRow> {
      if state != Prepared && state != Active && state != Reopened then Err(Conflict)
      else Ok(this.(state := Abandoned, version := version + 1))
    }
  }

  function NewSession(id: Id, tenant: Id, program: Id, assignment: Id, member: Id): Result<SessionRow> {
    if id == NO_ID || tenant == NO_ID || program == NO_ID || assignment == NO_ID || member == NO_ID then Err(Validation)
    else Ok(SessionRow(tenant, program, assignment, member, Prepared, 1))
  }

  /** Evidence handed in with a submission. */
  datatype Observation = Observation(tenant: Id, session: Id, page: int, sequence: int)

  datatype Quotation = Quotation(tenant: Id, session: Id, edition: Id, author: Id, pages: PageRange)

  /** Conflicts is exactly double booking: some page is held by both at some instant. */
  lemma ConflictIsDoubleBooking(a: AssignmentRow, b: AssignmentRow)
    requires a.pages.Valid() && b.pages.Valid()
    requires a.windowStart < a.windowEnd && b.windowStart < b.windowEnd
    ensures a.Conflicts(b) <==>
            a.SameScope(b) && exists page, instant :: a.Books(page, instant) && b.Books(page, instant)
  {
    if a.Conflicts(b) {
      var page := if a.pages.start < b.pages.start then b.pages.start else a.pages.start;
      var instant := if a.windowStart < b.windowStart then b.windowStart else a.windowStart;
      assert a.Books(page, instant) && b.Books(page, instant);
    }
  }

  /** The mutable copy of an assignment row. */
  class Assignment {
    const tenant: Id
    const program: Id
    const edition: Id
    var member: Id
    var pages: PageRange
    var windowStart: Instant
    var windowEnd: Instant
    var state: AssignmentState
    var leaseToken: int
    var leaseOwner: Id
    var leaseUntil: Instant
    var version: int

    constructor (row: AssignmentRow)
      ensures Row() == row
    {
      tenant, program, edition, member := row.tenant, row.program, row.edition, row.member;
      pages, windowStart, windowEnd := row.pages, row.windowStart, row.windowEnd;
      state, leaseToken, leaseOwner := row.state, row.leaseToken, row.leaseOwner;
      leaseUntil, version := row.leaseUntil, row.version;
    }

    function Row(): AssignmentRow
      reads this
    {
      AssignmentRow(tenant, program, edition, member, pages, windowStart, windowEnd, state,
                    leaseToken, leaseOwner, leaseUntil, version)
    }

    method Start(owner: Id, until: Instant, now: Instant) returns (err: Option<Fault>)
      modifies this
      ensures Meets(old(Row()).Start(owner, until, now), old(Row()), Row(), err)
    {
      if state != Reserved { return Some(Conflict); }
      if owner == NO_ID || until <= now { return Some(Validation); }
      state := InReading;
      leaseOwner := owner;
      leaseUntil := until;
      leaseToken := leaseToken + 1;
      version := version + 1;
      return None;
    }

    method Submit(owner: Id, token: int) returns (err: Option<Fault>)
      modifies this
      ensures Meets(old(Row()).Submit(owner, token), old(Row()), Row(), err)
    {
      if state != InReading || leaseOwner != owner || leaseToken != token { return Some(Conflict); }
      state := AssignmentState.Submitted;
      leaseOwner := NO_ID;
      leaseUntil := ZERO_TIME;
      version := version + 1;
      return None;
    }

    method Release() returns (err: Option<Fault>)
      modifies this
      ensures Meets(old(Row()).Release(), old(Row()), Row(), err)
    {
      if state == AssignmentState.Submitted { return Some(Conflict); }
      if state == Released || state == Expired { return None; }
      state := Released;
      leaseOwner := NO_ID;
      leaseUntil := ZERO_TIME;
      version := version + 1;
      return None;
    }

    method Expire(expectedToken: int, now: Instant) returns (err: Option<Fault>)
      modifies this
      ensures Meets(old(Row()).Expire(expectedToken, now), old(Row()), Row(), err)
    {
      if leaseToken != expectedToken { return Some(Conflict); }
      if state != Reserved && state != InReading { return Some(Conflict); }
      if now < windowEnd && now < leaseUntil { return Some(Precondition); }
      state := Expired;
      leaseOwner := NO_ID;
      leaseUntil := ZERO_TIME;
      version := version + 1;
      return None;
    }
  }

  /** The mutable copy of a reading session row. */
  class Session {
    const tenant: Id
    const program: Id
    const assignment: Id
    const member: Id
    var state: SessionState
    var version: int

    constructor (row: SessionRow)
      ensures Row() == row
    {
      tenant, program, assignment, member := row.tenant, row.program, row.assignment, row.member;
      state, version := row.state, row.version;
    }

    function Row(): SessionRow
      reads this
    {
      SessionRow(tenant, program, assignment, member, state, version)
    }

    method Start() returns (err: Option<Fault>)
      modifies this
      ensures Meets(old(Row()).Start(), old(Row()), Row(), err)
    {
      if state != Prepared && state != Reopened { return Some(Conflict); }
      state := Active;
      version := version + 1;
      return None;
    }

    method Submit() returns (err: Option<Fault>)
      modifies this
      ensures Meets(old(Row()).Submit(), old(Row()), Row(), err)
    {
      if state != Active { return Some(Conflict); }
      state := SessionState.Submitted;
      version := version + 1;
      return None;
    }

    method Abandon() returns (err: Option<Fault>)
      modifies this
      ensures Meets(old(Row()).Abandon(), old(Row()), Row(), err)
    {
      if state != Prepared && state != Active && state != Reopened { return Some(Conflict); }
      state := Abandoned;
      version := version + 1;
      return None;
    }
  }
}
