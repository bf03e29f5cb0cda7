/**
 Mobile-money transactions: several server instances share one table.  A request reserves a row
 before it contacts the provider; callbacks, polls and the batch job report statuses that race
 on a conditional update.  Every database statement and every provider call is one atomic step,
 so a call in flight is a program counter with the values the code holds in local variables.
 */
module Momo {
  import opened Wrappers
  import opened Runs

  datatype Kind = Collection | Disbursement

  datatype Status = Pending | Successful | Failed

  type Ref = nat  // the UUID of a transaction

  /** A row of the table; amounts are whole cents. */
  datatype Row = Row(kind: Kind, status: Status, amount: nat, currency: string, externalId: string,
                     party: string, reason: Option<string>)

  datatype Dto = Dto(amount: nat, currency: string, externalId: string, party: string)

  /** What the provider says of a transaction; its status may be none of the known three. */
  datatype Resource = Resource(status: Option<Status>, amount: int, currency: string, externalId: string,
                               reason: Option<string>)

  datatype Error = Conflict | NotFound | BadRequest | ProviderUnavailable

  /** A payment request that reached the provider. */
  datatype Charge = Charge(ref: Ref, kind: Kind, amount: nat, currency: string, externalId: string, party: string)

  /** A status report that reached the conditional update. */
  datatype Report = Report(ref: Ref, kind: Kind, resource: Resource)

  datatype Handler =
    | Reserving(ref: Ref, kind: Kind, dto: Dto)
    | Charging(ref: Ref, kind: Kind, dto: Dto)
    | Validating(ref: Ref, kind: Kind, resource: Resource)
    | Fetching(ref: Ref, kind: Kind, snapshot: Row)
    | Updating(ref: Ref, kind: Kind, resource: Resource)
    | Persisting(ref: Ref, kind: Kind, resource: Resource, record: Row)
    | Reading(ref: Ref, kind: Kind, resource: Resource)
    | Done(result: Result<(Ref, Row), Error>, reported: Option<Status>)

  /** The table with its unique (type, external id) index, the calls in flight, and the histories. */
  datatype State = State(rows: map<Ref, Row>, index: map<(Kind, string), Ref>, handlers: map<nat, Handler>,
                         used: set<Ref>, charges: seq<Charge>, reports: seq<Report>)

  datatype Action =
    | Pay(h: nat, kind: Kind, dto: Dto, ref: Ref)
    | Callback(h: nat, kind: Kind, resource: Resource)
    | Refresh(h: nat, kind: Kind, ref: Ref)
    | Fetched(h: nat, resource: Resource)
    | Advance(h: nat)
    | Crash(h: nat)

  // ----- Database statements -------------------------------------------------------------

  function Find(s: State, ref: Ref): Option<Row> {
    if ref in s.rows then Some(s.rows[ref]) else None
  }

  function FindByExternalId(s: State, externalId: string, kind: Kind): Option<Ref> {
    if (kind, externalId) in s.index then Some(s.index[(kind, externalId)]) else None
  }

  predicate Terminal(status: Status) {
    status != Pending
  }

  /** INSERT ... ON CONFLICT (reference_id) DO UPDATE ... WHERE status = 'PENDING'. */
  function Persist(s: State, ref: Ref, record: Row): Result<State, Error> {
    if ref in s.rows then
      Ok(if s.rows[ref].status == Pending
         then s.(rows := s.rows[ref := s.rows[ref].(status := record.status, reason := record.reason)])
         else s)
    else if (record.kind, record.externalId) in s.index then Err(Conflict)
    else Ok(s.(rows := s.rows[ref := record], index := s.index[(record.kind, record.externalId) := ref]))
  }

  function NewRow(kind: Kind, dto: Dto): Row {
    Row(kind, Pending, dto.amount, dto.currency, dto.externalId, dto.party, None)
  }

  predicate SamePayment(row: Row, dto: Dto) {
    row.amount == dto.amount && row.currency == dto.currency && row.party == dto.party
  }

  /** `validateResource` */
  predicate Matches(resource: Resource, row: Row) {
    && resource.status.Some? && resource.externalId == row.externalId
    && resource.currency == row.currency && resource.amount == row.amount
  }

  // ----- Steps ---------------------------------------------------------------------------

  function SetHandler(s: State, h: nat, p: Handler): State {
    s.(handlers := s.handlers[h := p])
  }

  function AdvanceStep(s: State, h: nat, p: Handler): State {
    match p {
      case Reserving(ref, kind, dto) =>
        (match Persist(s, ref, NewRow(kind, dto)) {
           case Err(e) => SetHandler(s, h, Done(Err(e), None))
           case Ok(t) => SetHandler(t, h, Charging(ref, kind, dto))
         })
      case Charging(ref, kind, dto) =>
        SetHandler(s.(charges := s.charges + [Charge(ref, kind, dto.amount, dto.currency, dto.externalId, dto.party)]),
                   h, Done(Ok((ref, NewRow(kind, dto))), None))
      case Validating(ref, kind, resource) =>
        var existing := Find(s, ref);
        if existing.None? || !Matches(resource, existing.value) then SetHandler(s, h, Done(Err(BadRequest), None))
        else SetHandler(s, h, Updating(ref, kind, resource))
      case Updating(ref, kind, resource) =>
        var existing := Find(s, ref);
        if existing.None? || resource.status.None? then SetHandler(s, h, Done(Err(NotFound), None))
        else if Terminal(existing.value.status) && resource.status.value != existing.value.status
        then SetHandler(s, h, Done(Ok((ref, existing.value)), resource.status))
        else SetHandler(s, h, Persisting(ref, kind, resource,
                                         existing.value.(status := resource.status.value, reason := resource.reason)))
      case Persisting(ref, kind, resource, record) =>
        (match Persist(s, ref, record) {
           case Err(e) => SetHandler(s, h, Done(Err(e), None))
           case Ok(t) => SetHandler(t.(reports := t.reports + [Report(ref, kind, resource)]), h, Reading(ref, kind, resource))
         })
      case Reading(ref, kind, resource) =>
        var row := Find(s, ref);
        SetHandler(s, h, if row.Some? then Done(Ok((ref, row.value)), resource.status) else Done(Err(NotFound), None))
      case Fetching(_, _, _) => s
      case Done(_, _) => s
    }
  }

  function PayStep(s: State, h: nat, kind: Kind, dto: Dto, ref: Ref): State {
    if h in s.handlers || ref in s.used then s
    else
      match FindByExternalId(s, dto.externalId, kind) {
        case None => SetHandler(s.(used := s.used + {ref}), h, Reserving(ref, kind, dto))
        case Some(known) =>
          if known !in s.rows || !SamePayment(s.rows[known], dto) then SetHandler(s, h, Done(Err(Conflict), None))
          else SetHandler(s, h, Done(Ok((known, s.rows[known])), None))
      }
  }

  function CallbackStep(s: State, h: nat, kind: Kind, resource: Resource): State {
    if h in s.handlers then s
    else
      match FindByExternalId(s, resource.externalId, kind) {
        case None => SetHandler(s, h, Done(Err(NotFound), None))
        case Some(ref) => SetHandler(s, h, Validating(ref, kind, resource))
      }
  }

  function RefreshStep(s: State, h: nat, kind: Kind, ref: Ref): State {
    if h in s.handlers then s
    else
      match Find(s, ref) {
        case None => SetHandler(s, h, Done(Err(NotFound), None))
        case Some(row) => SetHandler(s, h, if row.kind == kind then Fetching(ref, kind, row) else Done(Err(BadRequest), None))
      }
  }

  function FetchedStep(s: State, h: nat, resource: Resource): State {
    if h in s.handlers && s.handlers[h].Fetching? then
      var p := s.handlers[h];
      SetHandler(s, h, if Matches(resource, p.snapshot) then Updating(p.ref, p.kind, resource) else Done(Err(BadRequest), None))
    else s
  }

  function Step(s: State, a: Action): State {
    match a {
      case Pay(h, kind, dto, ref) => PayStep(s, h, kind, dto, ref)
      case Callback(h, kind, resource) => CallbackStep(s, h, kind, resource)
      case Refresh(h, kind, ref) => RefreshStep(s, h, kind, ref)
      case Fetched(h, resource) => FetchedStep(s, h, resource)
      case Advance(h) => if h in s.handlers then AdvanceStep(s, h, s.handlers[h]) else s
      case Crash(h) => s.(handlers := s.handlers - {h})
    }
  }

  /** The call a step belongs to. */
  function Owner(a: Action): nat {
    a.h
  }

  // ----- The invariant -------------------------------------------------------------------

  /** The unique index is exactly the (type, external id) of the rows. */
  ghost predicate IndexSound(s: State) {
    && (forall ref :: ref in s.rows ==>
          (s.rows[ref].kind, s.rows[ref].externalId) in s.index && s.index[(s.rows[ref].kind, s.rows[ref].externalId)] == ref)
    && (forall key :: key in s.index ==>
          s.index[key] in s.rows && s.rows[s.index[key]].kind == key.0 && s.rows[s.index[key]].externalId == key.1)
    && (forall ref :: ref in s.rows ==> ref in s.used)
  }

  ghost predicate SameDetails(a: Row, b: Row) {
    a == b.(status := a.status, reason := a.reason)
  }

  /** A charge has a row with its reference, type, external id, amount, currency and party. */
  ghost predicate ChargeRecorded(s: State, c: Charge) {
    && c.ref in s.rows
    && s.rows[c.ref].kind == c.kind && s.rows[c.ref].externalId == c.externalId
    && s.rows[c.ref].amount == c.amount && s.rows[c.ref].currency == c.currency && s.rows[c.ref].party == c.party
  }

  ghost predicate ChargesSound(s: State) {
    && (forall i :: 0 <= i < |s.charges| ==> ChargeRecorded(s, s.charges[i]))
    && (forall i, j :: 0 <= i < j < |s.charges| ==> s.charges[i].ref != s.charges[j].ref)
  }

  ghost predicate Uncharged(s: State, ref: Ref) {
    forall i :: 0 <= i < |s.charges| ==> s.charges[i].ref != ref
  }

  /** What reports leave a transaction with: each replaces its status and reason until one has been terminal. */
  ghost function Reported(reports: seq<Report>, ref: Ref): (Status, Option<string>) {
    if reports == [] then (Pending, None)
    else
      var before, last := Reported(reports[..|reports| - 1], ref), reports[|reports| - 1];
      if before.0 == Pending && last.ref == ref && last.resource.status.Some?
      then (last.resource.status.value, last.resource.reason) else before
  }

  /** A report has the type, external id, currency and amount of its row. */
  ghost predicate ReportMatched(s: State, r: Report) {
    && r.ref in s.rows && r.resource.status.Some?
    && s.rows[r.ref].kind == r.kind && s.rows[r.ref].externalId == r.resource.externalId
    && s.rows[r.ref].currency == r.resource.currency && s.rows[r.ref].amount == r.resource.amount
  }

  ghost predicate StatusesSound(s: State) {
    && (forall ref :: ref in s.rows ==> (s.rows[ref].status, s.rows[ref].reason) == Reported(s.reports, ref))
    && (forall ref :: ref !in s.rows ==> Reported(s.reports, ref) == (Pending, None))
    && (forall i :: 0 <= i < |s.reports| ==> ReportMatched(s, s.reports[i]))
  }

  ghost predicate Owns(p: Handler, ref: Ref) {
    (p.Reserving? && p.ref == ref) || (p.Charging? && p.ref == ref)
  }

  ghost predicate OwnersDistinct(s: State) {
    forall h, k, ref :: h in s.handlers && k in s.handlers && Owns(s.handlers[h], ref) && Owns(s.handlers[k], ref) ==> h == k
  }

  ghost predicate Settled(s: State, ref: Ref, status: Option<Status>) {
    ref in s.rows && (status.Some? && Terminal(status.value) ==> Terminal(s.rows[ref].status))
  }

  /** What a call in flight knows at each point. */
  ghost predicate HandlerSound(s: State, p: Handler) {
    match p {
      case Reserving(ref, _, _) => ref in s.used && ref !in s.rows
      case Charging(ref, kind, dto) =>
        ref in s.used && ref in s.rows && SameDetails(s.rows[ref], NewRow(kind, dto)) && Uncharged(s, ref)
      case Validating(ref, kind, resource) => ref in s.rows && s.rows[ref].kind == kind
      case Fetching(ref, kind, snapshot) => ref in s.rows && s.rows[ref].kind == kind && SameDetails(snapshot, s.rows[ref])
      case Updating(ref, kind, resource) => ref in s.rows && s.rows[ref].kind == kind && Matches(resource, s.rows[ref])
      case Persisting(ref, kind, resource, record) =>
        && ref in s.rows && s.rows[ref].kind == kind && Matches(resource, s.rows[ref])
        && SameDetails(record, s.rows[ref]) && Some(record.status) == resource.status && record.reason == resource.reason
      case Reading(ref, kind, resource) => Settled(s, ref, resource.status)
      case Done(result, reported) =>
        result.Ok? ==>
          && result.value.0 in s.rows
          && SameDetails(result.value.1, s.rows[result.value.0])
          && (Terminal(result.value.1.status) ==> result.value.1 == s.rows[result.value.0])
          && (reported.Some? && Terminal(reported.value) ==> Terminal(result.value.1.status))
    }
  }

  ghost predicate Inv(s: State) {
    && IndexSound(s) && ChargesSound(s) && StatusesSound(s) && OwnersDistinct(s)
    && (forall h :: h in s.handlers ==> HandlerSound(s, s.handlers[h]))
  }

  /** Rows are never deleted, their details never change, and a terminal row never changes at all. */
  ghost predicate Evolves(s: State, t: State) {
    forall ref :: ref in s.rows ==>
      ref in t.rows && SameDetails(s.rows[ref], t.rows[ref]) && (Terminal(s.rows[ref].status) ==> t.rows[ref] == s.rows[ref])
  }

  // ----- One step keeps it ---------------------------------------------------------------

  lemma PersistEvolves(s: State, ref: Ref, record: Row)
    ensures Persist(s, ref, record).Ok? ==> Evolves(s, Persist(s, ref, record).value)
  {
  }

  lemma StepEvolves(s: State, a: Action)
    ensures Evolves(s, Step(s, a))
  {
    if a.Advance? && a.h in s.handlers {
      var p := s.handlers[a.h];
      if p.Reserving? {
        PersistEvolves(s, p.ref, NewRow(p.kind, p.dto));
      } else if p.Persisting? {
        PersistEvolves(s, p.ref, p.record);
      }
      hide Persist, Evolves;
      EvolvesSame(s, Step(s, a));
    }
  }

  lemma EvolvesSame(s: State, t: State)
    ensures t.rows == s.rows ==> Evolves(s, t)
    ensures forall u: State :: u.rows == t.rows && Evolves(s, u) ==> Evolves(s, t)
  {
  }

  /** A call keeps what it knows while others run, as long as nobody else uses its reference. */
  lemma HandlerStable(s: State, t: State, p: Handler)
    requires HandlerSound(s, p) && Evolves(s, t) && s.used <= t.used
    requires forall ref :: Owns(p, ref) ==> (ref in t.rows ==> ref in s.rows)
    requires forall ref :: Owns(p, ref) && Uncharged(s, ref) ==> Uncharged(t, ref)
    ensures HandlerSound(t, p)
  {
    if p.Reserving? || p.Charging? {
      assert Owns(p, p.ref);
    }
  }

  lemma OwnersAfterMove(s: State, t: State, h: nat, p: Handler)
    requires OwnersDistinct(s) && t.handlers == s.handlers[h := p]
    requires forall ref :: Owns(p, ref) ==> h in s.handlers && Owns(s.handlers[h], ref)
    ensures OwnersDistinct(t)
  {
  }

  /** A step that only moves one call keeps the invariant when the call's new point is sound. */
  lemma MoveKeepsInv(s: State, h: nat, p: Handler)
    requires Inv(s) && HandlerSound(s, p)
    requires forall ref :: Owns(p, ref) ==> h in s.handlers && Owns(s.handlers[h], ref)
    ensures Inv(SetHandler(s, h, p))
  {
    hide IndexSound, ChargesSound, StatusesSound, HandlerSound;
    var t := SetHandler(s, h, p);
    SameTables(s, t);
    OwnersAfterMove(s, t, h, p);
    hide OwnersDistinct;
    forall k | k in t.handlers ensures HandlerSound(t, t.handlers[k]) {
      SameTablesHandler(s, t, t.handlers[k]);
    }
  }

  lemma SameTables(s: State, t: State)
    requires t == s.(handlers := t.handlers)
    ensures IndexSound(s) ==> IndexSound(t)
    ensures ChargesSound(s) ==> ChargesSound(t)
    ensures StatusesSound(s) ==> StatusesSound(t)
  {
  }

  lemma SameTablesHandler(s: State, t: State, p: Handler)
    requires t == s.(handlers := t.handlers)
    ensures HandlerSound(s, p) ==> HandlerSound(t, p)
  {
  }

  /** Drawing a fresh reference. */
  lemma StartReservingKeepsInv(s: State, h: nat, kind: Kind, dto: Dto, ref: Ref)
    requires Inv(s) && h !in s.handlers && ref !in s.used
    ensures Inv(SetHandler(s.(used := s.used + {ref}), h, Reserving(ref, kind, dto)))
  {
    hide Reported, Matches;
    var u := s.(used := s.used + {ref});
    var t := SetHandler(u, h, Reserving(ref, kind, dto));
    forall k | k in s.handlers ensures HandlerSound(t, t.handlers[k]) && !Owns(s.handlers[k], ref) {
      HandlerStable(s, t, s.handlers[k]);
    }
  }

  /** The reservation: the row is inserted unless the index refuses it. */
  lemma ReserveKeepsInv(s: State, h: nat)
    requires Inv(s) && h in s.handlers && s.handlers[h].Reserving?
    ensures Inv(AdvanceStep(s, h, s.handlers[h]))
  {
    hide Reported, ReportMatched, Matches;
    var p := s.handlers[h];
    var t := AdvanceStep(s, h, p);
    assert Owns(p, p.ref);
    if Persist(s, p.ref, NewRow(p.kind, p.dto)).Err? {
      MoveKeepsInv(s, h, Done(Err(Conflict), None));
    } else {
      ReservedTables(s, t, p.ref, NewRow(p.kind, p.dto));
      forall k | k in s.handlers && k != h ensures HandlerSound(t, s.handlers[k]) {
        assert !Owns(s.handlers[k], p.ref);
        HandlerStable(s, t, s.handlers[k]);
      }
      assert Uncharged(t, p.ref) by {
        assert forall i :: 0 <= i < |s.charges| ==> ChargeRecorded(s, s.charges[i]);
      }
      assert forall ref :: Owns(t.handlers[h], ref) ==> ref == p.ref && Owns(p, ref);
      OwnersAfterMove(s, t, h, t.handlers[h]);
      hide IndexSound, ChargesSound, StatusesSound, OwnersDistinct;
    }
  }

  lemma ChargesEvolve(s: State, t: State)
    requires ChargesSound(s) && Evolves(s, t) && t.charges == s.charges
    ensures ChargesSound(t)
  {
    forall i | 0 <= i < |t.charges| ensures ChargeRecorded(t, t.charges[i]) {
      assert ChargeRecorded(s, s.charges[i]);
    }
  }

  lemma ReportEvolves(s: State, t: State, r: Report)
    requires ReportMatched(s, r) && Evolves(s, t)
    ensures ReportMatched(t, r)
  {
  }

  lemma ReservedIndex(s: State, t: State, ref: Ref, record: Row)
    requires IndexSound(s) && ref !in s.rows && ref in s.used && (record.kind, record.externalId) !in s.index
    requires t.rows == s.rows[ref := record] && t.index == s.index[(record.kind, record.externalId) := ref] && t.used == s.used
    ensures IndexSound(t)
  {
  }

  lemma ReservedTables(s: State, t: State, ref: Ref, record: Row)
    requires IndexSound(s) && ChargesSound(s) && StatusesSound(s)
    requires ref !in s.rows && ref in s.used && record.status == Pending && record.reason == None
    requires (record.kind, record.externalId) !in s.index
    requires t == s.(rows := s.rows[ref := record], index := s.index[(record.kind, record.externalId) := ref], handlers := t.handlers)
    ensures IndexSound(t) && ChargesSound(t) && StatusesSound(t)
    ensures Evolves(s, t)
  {
    hide IndexSound, ChargesSound, StatusesSound;
    ReservedIndex(s, t, ref, record);
    assert Evolves(s, t);
    ChargesEvolve(s, t);
    ReservedStatuses(s, t, ref, record);
  }

  lemma ReservedStatuses(s: State, t: State, ref: Ref, record: Row)
    requires StatusesSound(s) && Evolves(s, t) && ref !in s.rows && record.status == Pending && record.reason == None
    requires t.rows == s.rows[ref := record] && t.reports == s.reports
    ensures StatusesSound(t)
  {
    hide Reported;
    forall i | 0 <= i < |t.reports| ensures ReportMatched(t, t.reports[i]) {
      ReportEvolves(s, t, s.reports[i]);
    }
    hide ReportMatched;
  }

  /** The charge: the only provider call a reference ever makes. */
  lemma ChargeKeepsInv(s: State, h: nat)
    requires Inv(s) && h in s.handlers && s.handlers[h].Charging?
    ensures Inv(AdvanceStep(s, h, s.handlers[h]))
  {
    hide Reported, ReportMatched, Matches;
    var p := s.handlers[h];
    var t := AdvanceStep(s, h, p);
    assert Owns(p, p.ref) && HandlerSound(s, p);
    ChargedTables(s, t, Charge(p.ref, p.kind, p.dto.amount, p.dto.currency, p.dto.externalId, p.dto.party));
    forall k | k in s.handlers && k != h ensures HandlerSound(t, s.handlers[k]) {
      assert !Owns(s.handlers[k], p.ref);
      HandlerStable(s, t, s.handlers[k]);
    }
    assert HandlerSound(t, t.handlers[h]);
    OwnersAfterMove(s, t, h, t.handlers[h]);
    hide IndexSound, ChargesSound, StatusesSound, HandlerSound, OwnersDistinct;
  }

  lemma ChargedTables(s: State, t: State, c: Charge)
    requires IndexSound(s) && ChargesSound(s) && StatusesSound(s)
    requires ChargeRecorded(s, c) && Uncharged(s, c.ref)
    requires t == s.(charges := s.charges + [c], handlers := t.handlers)
    ensures IndexSound(t) && ChargesSound(t) && StatusesSound(t)
  {
    hide Reported;
    forall i | 0 <= i < |t.charges| ensures ChargeRecorded(t, t.charges[i]) {
      if i < |s.charges| {
        assert ChargeRecorded(s, s.charges[i]);
      }
    }
    forall i | 0 <= i < |t.reports| ensures ReportMatched(t, t.reports[i]) {
      assert ReportMatched(s, s.reports[i]);
    }
  }

  lemma ReportedAppend(reports: seq<Report>, r: Report, ref: Ref)
    ensures Reported(reports + [r], ref) ==
            if Reported(reports, ref).0 == Pending && r.ref == ref && r.resource.status.Some?
            then (r.resource.status.value, r.resource.reason) else Reported(reports, ref)
  {
    assert (reports + [r])[..|reports + [r]| - 1] == reports;
  }

  lemma UpdatedIndex(s: State, t: State, ref: Ref, row: Row)
    requires IndexSound(s) && ref in s.rows && SameDetails(row, s.rows[ref])
    requires t.rows == s.rows[ref := row] && t.index == s.index && t.used == s.used
    ensures IndexSound(t)
  {
  }

  lemma UpdatedStatuses(s: State, t: State, r: Report, row: Row)
    requires StatusesSound(s) && r.ref in s.rows && r.resource.status.Some? && Evolves(s, t) && ReportMatched(s, r)
    requires if s.rows[r.ref].status == Pending
             then row.status == r.resource.status.value && row.reason == r.resource.reason
             else row == s.rows[r.ref]
    requires t.rows == s.rows[r.ref := row] && t.reports == s.reports + [r]
    ensures StatusesSound(t)
  {
    forall ref: Ref ensures Reported(t.reports, ref) ==
            if Reported(s.reports, ref).0 == Pending && r.ref == ref
            then (r.resource.status.value, r.resource.reason) else Reported(s.reports, ref) {
      ReportedAppend(s.reports, r, ref);
    }
    hide Reported;
    forall i | 0 <= i < |t.reports| ensures ReportMatched(t, t.reports[i]) {
      ReportEvolves(s, t, if i < |s.reports| then s.reports[i] else r);
    }
    hide ReportMatched;
  }

  /** The conditional update: only a Pending row takes the reported status. */
  lemma UpdatedTables(s: State, t: State, r: Report, record: Row)
    requires IndexSound(s) && ChargesSound(s) && StatusesSound(s)
    requires ReportMatched(s, r) && SameDetails(record, s.rows[r.ref])
    requires Some(record.status) == r.resource.status && record.reason == r.resource.reason
    requires Persist(s, r.ref, record).Ok?
    requires t == Persist(s, r.ref, record).value.(handlers := t.handlers, reports := s.reports + [r])
    ensures IndexSound(t) && ChargesSound(t) && StatusesSound(t)
    ensures Evolves(s, t) && Settled(t, r.ref, r.resource.status)
  {
    hide IndexSound, ChargesSound, StatusesSound, Reported;
    var row := t.rows[r.ref];
    assert t.rows == s.rows[r.ref := row];
    UpdatedIndex(s, t, r.ref, row);
    ChargesEvolve(s, t);
    UpdatedStatuses(s, t, r, row);
  }

  lemma PersistKeepsInv(s: State, h: nat)
    requires Inv(s) && h in s.handlers && s.handlers[h].Persisting?
    ensures Inv(AdvanceStep(s, h, s.handlers[h]))
  {
    hide IndexSound, ChargesSound, StatusesSound, OwnersDistinct, Matches, SameDetails, Evolves, Uncharged;
    var p := s.handlers[h];
    assert HandlerSound(s, p);
    PersistedMatches(s, h);
    PersistedPoint(s, h);
    var t := AdvanceStep(s, h, p);
    UpdatedTables(s, t, Report(p.ref, p.kind, p.resource), p.record);
    hide AdvanceStep, Persist, HandlerSound, Settled;
    forall k | k in s.handlers && k != h ensures HandlerSound(t, s.handlers[k]) {
      SameUncharged(s, t);
      HandlerStable(s, t, s.handlers[k]);
    }
    ReadingSound(t, p.ref, p.kind, p.resource);
    OwnersAfterMove(s, t, h, t.handlers[h]);
  }

  lemma PersistedMatches(s: State, h: nat)
    requires Inv(s) && h in s.handlers && s.handlers[h].Persisting?
    ensures ReportMatched(s, Report(s.handlers[h].ref, s.handlers[h].kind, s.handlers[h].resource))
  {
    hide IndexSound, ChargesSound, StatusesSound, OwnersDistinct;
    assert HandlerSound(s, s.handlers[h]);
  }

  lemma SameUncharged(s: State, t: State)
    requires t.charges == s.charges
    ensures forall ref :: Uncharged(s, ref) ==> Uncharged(t, ref)
  {
  }

  /** The conditional write touches rows it finds, adds its report, and moves the call on to its last read. */
  lemma PersistedPoint(s: State, h: nat)
    requires h in s.handlers && s.handlers[h].Persisting? && s.handlers[h].ref in s.rows
    ensures
      var p := s.handlers[h];
      var t := AdvanceStep(s, h, p);
      && Persist(s, p.ref, p.record).Ok?
      && t == Persist(s, p.ref, p.record).value.(handlers := t.handlers, reports := s.reports + [Report(p.ref, p.kind, p.resource)])
      && t.handlers == s.handlers[h := Reading(p.ref, p.kind, p.resource)]
      && t.rows.Keys == s.rows.Keys && t.charges == s.charges && t.used == s.used
  {
  }

  lemma ReadingSound(t: State, ref: Ref, kind: Kind, resource: Resource)
    requires Settled(t, ref, resource.status)
    ensures HandlerSound(t, Reading(ref, kind, resource))
  {
  }

  lemma AdvanceKeepsInv(s: State, h: nat)
    requires Inv(s) && h in s.handlers
    ensures Inv(AdvanceStep(s, h, s.handlers[h]))
  {
    hide Inv;
    var p := s.handlers[h];
    match p {
      case Reserving(_, _, _) => ReserveKeepsInv(s, h);
      case Charging(_, _, _) => ChargeKeepsInv(s, h);
      case Persisting(_, _, _, _) => PersistKeepsInv(s, h);
      case Fetching(_, _, _) =>
      case Done(_, _) =>
      case Validating(_, _, _) => ReadKeepsInv(s, h);
      case Updating(_, _, _) => ReadKeepsInv(s, h);
      case Reading(_, _, _) => ReadKeepsInv(s, h);
    }
  }

  /** The steps that only read a row. */
  lemma ReadKeepsInv(s: State, h: nat)
    requires Inv(s) && h in s.handlers
    requires s.handlers[h].Validating? || s.handlers[h].Updating? || s.handlers[h].Reading?
    ensures Inv(AdvanceStep(s, h, s.handlers[h]))
  {
    hide IndexSound, ChargesSound, StatusesSound, OwnersDistinct;
    var p := s.handlers[h];
    assert HandlerSound(s, p);
    var t := AdvanceStep(s, h, p);
    assert t == SetHandler(s, h, t.handlers[h]);
    assert HandlerSound(s, t.handlers[h]);
    hide HandlerSound, Inv;
    MoveKeepsInv(s, h, t.handlers[h]);
  }

  lemma CrashKeepsInv(s: State, h: nat)
    requires Inv(s)
    ensures Inv(s.(handlers := s.handlers - {h}))
  {
    hide IndexSound, ChargesSound, StatusesSound, HandlerSound;
    var t := s.(handlers := s.handlers - {h});
    SameTables(s, t);
    forall k | k in t.handlers ensures HandlerSound(t, t.handlers[k]) {
      SameTablesHandler(s, t, t.handlers[k]);
    }
  }

  lemma PayKeepsInv(s: State, h: nat, kind: Kind, dto: Dto, ref: Ref)
    requires Inv(s)
    ensures Inv(PayStep(s, h, kind, dto, ref))
  {
    if h !in s.handlers && ref !in s.used {
      hide Inv;
      if FindByExternalId(s, dto.externalId, kind).None? {
        StartReservingKeepsInv(s, h, kind, dto, ref);
      } else {
        MoveKeepsInv(s, h, PayStep(s, h, kind, dto, ref).handlers[h]);
      }
    }
  }

  lemma CallbackKeepsInv(s: State, h: nat, kind: Kind, resource: Resource)
    requires Inv(s)
    ensures Inv(CallbackStep(s, h, kind, resource))
  {
    if h !in s.handlers {
      var p := CallbackStep(s, h, kind, resource).handlers[h];
      assert HandlerSound(s, p);
      hide Inv;
      MoveKeepsInv(s, h, p);
    }
  }

  lemma RefreshKeepsInv(s: State, h: nat, kind: Kind, ref: Ref)
    requires Inv(s)
    ensures Inv(RefreshStep(s, h, kind, ref))
  {
    if h !in s.handlers {
      hide Inv;
      MoveKeepsInv(s, h, RefreshStep(s, h, kind, ref).handlers[h]);
    }
  }

  lemma FetchedKeepsInv(s: State, h: nat, resource: Resource)
    requires Inv(s)
    ensures Inv(FetchedStep(s, h, resource))
  {
    if h in s.handlers && s.handlers[h].Fetching? {
      assert HandlerSound(s, s.handlers[h]);
      hide Inv;
      MoveKeepsInv(s, h, FetchedStep(s, h, resource).handlers[h]);
    }
  }

  /** Every step of every instance, crashes included, keeps the invariant. */
  lemma StepKeepsInv(s: State, a: Action)
    requires Inv(s)
    ensures Inv(Step(s, a))
  {
    hide Inv, PayStep, CallbackStep, RefreshStep, FetchedStep, AdvanceStep;
    match a {
      case Pay(h, kind, dto, ref) => PayKeepsInv(s, h, kind, dto, ref);
      case Callback(h, kind, resource) => CallbackKeepsInv(s, h, kind, resource);
      case Refresh(h, kind, ref) => RefreshKeepsInv(s, h, kind, ref);
      case Fetched(h, resource) => FetchedKeepsInv(s, h, resource);
      case Advance(h) =>
        if h in s.handlers {
          AdvanceKeepsInv(s, h);
        }
      case Crash(h) => CrashKeepsInv(s, h);
    }
  }

  // ----- Whole runs ----------------------------------------------------------------------

  ghost predicate Empty(s: State) {
    s.rows == map[] && s.index == map[] && s.handlers == map[] && s.charges == [] && s.reports == []
  }

  lemma EmptyInv(s: State)
    requires Empty(s)
    ensures Inv(s)
  {
  }

  lemma {:induction false} RunKeepsInv(s: State, actions: seq<Action>)
    requires Inv(s)
    ensures Inv(Run(Step, s, actions))
    decreases |actions|
  {
    if actions != [] {
      hide Step, Inv;
      StepKeepsInv(s, actions[0]);
      RunKeepsInv(Step(s, actions[0]), actions[1..]);
    }
  }

  /**
   One charge per reference.  Over any interleaving of requests, retries and crashes on any number
   of instances, the provider sees at most one charge per (type, external id), and every charge
   has a row with the same reference, amount, currency and party.
   */
  lemma AtMostOneCharge(s: State, actions: seq<Action>)
    requires Empty(s)
    ensures
      var t := Run(Step, s, actions);
      && (forall i, j :: 0 <= i < j < |t.charges| ==>
            (t.charges[i].kind, t.charges[i].externalId) != (t.charges[j].kind, t.charges[j].externalId))
      && (forall i :: 0 <= i < |t.charges| ==> ChargeRecorded(t, t.charges[i]))
  {
    RunKeepsInv(s, actions);
    var t := Run(Step, s, actions);
    forall i, j | 0 <= i < j < |t.charges|
      ensures (t.charges[i].kind, t.charges[i].externalId) != (t.charges[j].kind, t.charges[j].externalId)
    {
      assert ChargeRecorded(t, t.charges[i]) && ChargeRecorded(t, t.charges[j]);
    }
  }

  ghost predicate TerminalReport(r: Report, ref: Ref) {
    r.ref == ref && r.resource.status.Some? && Terminal(r.resource.status.value)
  }

  /** The first terminal report of a transaction. */
  ghost predicate FirstTerminal(reports: seq<Report>, ref: Ref, i: int) {
    && 0 <= i < |reports| && TerminalReport(reports[i], ref)
    && forall j :: 0 <= j < i ==> !TerminalReport(reports[j], ref)
  }

  lemma {:induction false} ReportedIsFirst(reports: seq<Report>, ref: Ref)
    ensures Reported(reports, ref).0 == Pending ==> forall i :: 0 <= i < |reports| ==> !TerminalReport(reports[i], ref)
    ensures Reported(reports, ref).0 != Pending ==>
              exists i :: FirstTerminal(reports, ref, i) &&
                          (Some(Reported(reports, ref).0), Reported(reports, ref).1) == (reports[i].resource.status, reports[i].resource.reason)
    decreases |reports|
  {
    if reports != [] {
      var n := |reports| - 1;
      var before := reports[..n];
      ReportedIsFirst(before, ref);
      if Reported(before, ref).0 != Pending {
        var i :| FirstTerminal(before, ref, i) &&
                 (Some(Reported(before, ref).0), Reported(before, ref).1) == (before[i].resource.status, before[i].resource.reason);
        assert reports[i] == before[i];
        assert FirstTerminal(reports, ref, i) by {
          assert forall j :: 0 <= j < i ==> reports[j] == before[j];
        }
      } else {
        assert forall j :: 0 <= j < n ==> reports[j] == before[j];
        if TerminalReport(reports[n], ref) {
          assert FirstTerminal(reports, ref, n);
        }
      }
    }
  }

  /**
   First terminal report wins.  In every reachable state a Pending row has had no terminal report; any
   other row has the status and reason of its first terminal report; and every report that reached the
   database had its row's type, external id, currency and amount.
   */
  lemma StatusIsFirstTerminalReport(s: State, actions: seq<Action>, ref: Ref)
    requires Empty(s) && ref in Run(Step, s, actions).rows
    ensures
      var t := Run(Step, s, actions);
      var row := t.rows[ref];
      && (row.status == Pending ==> forall i :: 0 <= i < |t.reports| ==> !TerminalReport(t.reports[i], ref))
      && (row.status != Pending ==>
            exists i :: FirstTerminal(t.reports, ref, i) &&
                        (Some(row.status), row.reason) == (t.reports[i].resource.status, t.reports[i].resource.reason))
      && (forall i :: 0 <= i < |t.reports| && t.reports[i].ref == ref ==>
            && t.reports[i].kind == row.kind && t.reports[i].resource.externalId == row.externalId
            && t.reports[i].resource.currency == row.currency && t.reports[i].resource.amount == row.amount)
  {
    RunKeepsInv(s, actions);
    var t := Run(Step, s, actions);
    ReportedIsFirst(t.reports, ref);
    hide Run, Reported, Step, IndexSound, ChargesSound, OwnersDistinct, HandlerSound;
    forall i | 0 <= i < |t.reports| && t.reports[i].ref == ref
      ensures t.reports[i].kind == t.rows[ref].kind && t.reports[i].resource.externalId == t.rows[ref].externalId
      ensures t.reports[i].resource.currency == t.rows[ref].currency && t.reports[i].resource.amount == t.rows[ref].amount
    {
      assert ReportMatched(t, t.reports[i]);
    }
  }

  /**
   A repeated request is answered.  When a row is stored with a request's type and external id, the
   request ends at once: with that row if amount, currency and party are the same, refused otherwise.
   */
  lemma RepeatIsAnswered(s: State, h: nat, kind: Kind, dto: Dto, uuid: Ref, ref: Ref)
    requires Inv(s) && h !in s.handlers && uuid !in s.used
    requires ref in s.rows && s.rows[ref].kind == kind && s.rows[ref].externalId == dto.externalId
    ensures
      var row := s.rows[ref];
      var same := row.amount == dto.amount && row.currency == dto.currency && row.party == dto.party;
      Step(s, Pay(h, kind, dto, uuid)) == SetHandler(s, h, Done(if same then Ok((ref, row)) else Err(Conflict), None))
  {
    hide ChargesSound, StatusesSound, OwnersDistinct, HandlerSound;
  }

  lemma StepKeepsReports(s: State, a: Action)
    ensures s.reports <= Step(s, a).reports
  {
    hide Matches, SamePayment, Find, FindByExternalId;
  }

  lemma {:induction false} RunKeepsReports(s: State, actions: seq<Action>)
    ensures s.reports <= Run(Step, s, actions).reports
    decreases |actions|
  {
    if actions != [] {
      hide Step;
      StepKeepsReports(s, actions[0]);
      RunKeepsReports(Step(s, actions[0]), actions[1..]);
    }
  }

  /** Details never change and a terminal row is final, over any run. */
  lemma {:induction false} RunEvolves(s: State, actions: seq<Action>)
    ensures Evolves(s, Run(Step, s, actions))
    decreases |actions|
  {
    if actions != [] {
      hide Step;
      StepEvolves(s, actions[0]);
      RunEvolves(Step(s, actions[0]), actions[1..]);
    }
  }

  /**
   What callers hold.  A row handed to any caller carries the stored payment; once it is terminal it
   is the stored row for good; and a caller that reported a terminal status always gets a terminal row.
   */
  lemma CallerGetsWinningRow(s: State, before: seq<Action>, after: seq<Action>, h: nat)
    requires Empty(s) && h in Run(Step, s, before).handlers
    requires Run(Step, s, before).handlers[h].Done? && Run(Step, s, before).handlers[h].result.Ok?
    ensures
      var p := Run(Step, s, before).handlers[h];
      var (ref, row) := p.result.value;
      var t := Run(Step, Run(Step, s, before), after);
      && ref in t.rows && SameDetails(row, t.rows[ref])
      && (Terminal(row.status) ==> t.rows[ref] == row)
      && (p.reported.Some? && Terminal(p.reported.value) ==> Terminal(row.status))
  {
    EmptyInv(s);
    hide IndexSound, ChargesSound, StatusesSound, OwnersDistinct, Matches, Empty;
    RunKeepsInv(s, before);
    var u := Run(Step, s, before);
    assert HandlerSound(u, u.handlers[h]);
    RunEvolves(u, after);
    hide Run;
  }
}
