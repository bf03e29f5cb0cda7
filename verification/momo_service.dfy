/**
 The mobile-money service as its methods are written: statements in order, with an await between
 each, during which other calls on any instance take steps of their own.  Each method is shown to
 be a run of the protocol, whatever the others do, so the protocol's theorems hold of it.
 */
module MomoService {
  import opened Wrappers
  import opened Runs
  import opened Momo

  // ----- Runs seen from one call ---------------------------------------------------------

  /** No step among the gaps of a call belongs to k. */
  ghost predicate Quiet(gap: seq<Action>, gaps: seq<seq<Action>>, k: nat) {
    Others(Owner, gap, k) && forall g :: g in gaps ==> Others(Owner, g, k)
  }

  lemma {:induction false} RunLeavesOthers(s: State, actions: seq<Action>, h: nat)
    requires Others(Owner, actions, h)
    ensures h in Run(Step, s, actions).handlers <==> h in s.handlers
    ensures h in s.handlers ==> Run(Step, s, actions).handlers[h] == s.handlers[h]
    decreases |actions|
  {
    if actions != [] {
      hide Step;
      StepLeavesOthers(s, actions[0], h);
      assert forall i :: 0 <= i < |actions[1..]| ==> actions[1..][i] == actions[i + 1];
      RunLeavesOthers(Step(s, actions[0]), actions[1..], h);
    }
  }

  lemma PersistLeavesHandlers(s: State, ref: Ref, record: Row)
    ensures Persist(s, ref, record).Ok? ==> Persist(s, ref, record).value.handlers == s.handlers
  {
  }

  /** Others never move a call that is not theirs. */
  lemma StepLeavesOthers(s: State, a: Action, h: nat)
    requires a.h != h
    ensures h in Step(s, a).handlers <==> h in s.handlers
    ensures h in s.handlers ==> Step(s, a).handlers[h] == s.handlers[h]
  {
    hide Persist, Matches, Find, FindByExternalId, SamePayment;
    if a.Advance? && a.h in s.handlers {
      var p := s.handlers[a.h];
      if p.Reserving? {
        PersistLeavesHandlers(s, p.ref, NewRow(p.kind, p.dto));
      } else if p.Persisting? {
        PersistLeavesHandlers(s, p.ref, p.record);
      }
    }
  }

  /** A gap and then one step of the call itself. */
  lemma GapThenStep(s: State, gap: seq<Action>, last: Action)
    requires Inv(s)
    ensures Inv(Run(Step, s, gap)) && Inv(Run(Step, s, gap + [last]))
    ensures Run(Step, s, gap + [last]) == Step(Run(Step, s, gap), last)
  {
    hide Inv, Run, Step;
    RunSnoc(Step, s, gap, last);
    RunKeepsInv(s, gap);
    RunKeepsInv(s, gap + [last]);
  }

  lemma InFlight(s: State, h: nat)
    requires Inv(s) && h in s.handlers
    ensures HandlerSound(s, s.handlers[h])
  {
    hide IndexSound, ChargesSound, StatusesSound, OwnersDistinct, HandlerSound;
  }

  // ----- Answers to a payment request ----------------------------------------------------

  /** What became of the call to the provider. */
  datatype Delivery = NotSent | AnswerLost | Accepted

  /** A row is the answer to a request: it is stored under the request's reference with the request's details. */
  ghost predicate Answers(s: State, kind: Kind, dto: Dto, r: (Ref, Row)) {
    && (kind, dto.externalId) in s.index && s.index[(kind, dto.externalId)] == r.0
    && r.0 in s.rows && Requested(s.rows[r.0], kind, dto) && SameDetails(r.1, s.rows[r.0])
  }

  ghost predicate Named(row: Row, kind: Kind, externalId: string) {
    row.kind == kind && row.externalId == externalId
  }

  /** A row holds exactly what a request asks for. */
  ghost predicate Requested(row: Row, kind: Kind, dto: Dto) {
    Named(row, kind, dto.externalId) && row.amount == dto.amount && row.currency == dto.currency && row.party == dto.party
  }

  /** What the provider says agrees with a row. */
  ghost predicate Agrees(resource: Resource, row: Row) {
    && resource.status.Some? && resource.externalId == row.externalId
    && resource.currency == row.currency && resource.amount == row.amount
  }

  ghost predicate Unnamed(s: State, kind: Kind, externalId: string) {
    forall ref :: ref in s.rows ==> !Named(s.rows[ref], kind, externalId)
  }

  /** The index finds a row exactly when one of that name is stored. */
  lemma IndexIsNames(s: State, kind: Kind, externalId: string)
    requires Inv(s)
    ensures FindByExternalId(s, externalId, kind).None? <==> Unnamed(s, kind, externalId)
    ensures forall ref :: ref in s.rows && Named(s.rows[ref], kind, externalId) ==>
              FindByExternalId(s, externalId, kind) == Some(ref)
  {
    hide ChargesSound, StatusesSound, OwnersDistinct, HandlerSound;
  }

  ghost predicate Charged(s: State, ref: Ref, kind: Kind, dto: Dto) {
    exists i :: 0 <= i < |s.charges| && s.charges[i] == Charge(ref, kind, dto.amount, dto.currency, dto.externalId, dto.party)
  }

  lemma ChargedLast(s: State, ref: Ref, kind: Kind, dto: Dto)
    requires |s.charges| > 0
    requires s.charges[|s.charges| - 1] == Charge(ref, kind, dto.amount, dto.currency, dto.externalId, dto.party)
    ensures Charged(s, ref, kind, dto)
  {
  }

  lemma IndexedRow(s: State, kind: Kind, externalId: string)
    requires Inv(s)
    ensures
      (kind, externalId) in s.index ==>
        && s.index[(kind, externalId)] in s.rows
        && var row := s.rows[s.index[(kind, externalId)]];
        row.kind == kind && row.externalId == externalId
  {
    hide ChargesSound, StatusesSound, OwnersDistinct, HandlerSound;
  }

  /** A reserved row answers the request it was reserved for. */
  lemma ReservedAnswers(s: State, kind: Kind, dto: Dto, ref: Ref)
    requires Inv(s) && ref in s.rows && SameDetails(s.rows[ref], NewRow(kind, dto))
    ensures Answers(s, kind, dto, (ref, NewRow(kind, dto)))
  {
    hide ChargesSound, StatusesSound, OwnersDistinct, HandlerSound;
  }

  // ----- The service ---------------------------------------------------------------------

  class MomoBackend {
    var rows: map<Ref, Row>
    var index: map<(Kind, string), Ref>
    var handlers: map<nat, Handler>
    var used: set<Ref>
    var charges: seq<Charge>
    var reports: seq<Report>

    function Contents(): State
      reads this
    {
      State(rows, index, handlers, used, charges, reports)
    }

    constructor ()
      ensures Empty(Contents())
    {
      rows, index, handlers := map[], map[], map[];
      used, charges, reports := {}, [], [];
    }

    method SetContents(s: State)
      modifies this
      ensures Contents() == s
    {
      rows, index, handlers := s.rows, s.index, s.handlers;
      used, charges, reports := s.used, s.charges, s.reports;
    }

    /** An await: other calls take any number of steps. */
    method Interleave(h: nat, actions: seq<Action>)
      requires Others(Owner, actions, h)
      modifies this
      ensures Contents() == Run(Step, old(Contents()), actions)
      ensures h in handlers <==> h in old(handlers)
      ensures h in old(handlers) ==> handlers[h] == old(handlers)[h]
    {
      hide Step;
      ghost var before := Contents();
      for i := 0 to |actions|
        invariant Contents() == Run(Step, before, actions[..i])
        invariant h in handlers <==> h in before.handlers
        invariant h in before.handlers ==> handlers[h] == before.handlers[h]
      {
        ghost var now := Contents();
        var next := Step(Contents(), actions[i]);
        StepLeavesOthers(now, actions[i], h);
        SetContents(next);
        RunSnoc(Step, before, actions[..i], actions[i]);
        assert actions[..i + 1] == actions[..i] + [actions[i]];
      }
      assert actions[..|actions|] == actions;
    }

    /** The upsert statement of `persist`. */
    method PersistRow(ref: Ref, record: Row) returns (r: Result<(), Error>)
      modifies this`rows, this`index
      ensures r.Ok? <==> Persist(old(Contents()), ref, record).Ok?
      ensures r.Ok? ==> Contents() == Persist(old(Contents()), ref, record).value
      ensures r.Err? ==> r.error == Conflict && Contents() == old(Contents())
    {
      if ref in rows {
        if rows[ref].status == Pending {
          rows := rows[ref := rows[ref].(status := record.status, reason := record.reason)];
        }
        return Ok(());
      }
      if (record.kind, record.externalId) in index {
        return Err(Conflict);
      }
      rows := rows[ref := record];
      index := index[(record.kind, record.externalId) := ref];
      return Ok(());
    }

    method MoveTo(h: nat, p: Handler)
      modifies this`handlers
      ensures handlers == old(handlers)[h := p]
    {
      handlers := handlers[h := p];
    }

    /** The lookup of `requestToPay` and `transfer`: a known reference is answered, or refused, without a charge. */
    method StartPayment(h: nat, kind: Kind, dto: Dto, uuid: Ref) returns (known: Option<Result<(Ref, Row), Error>>)
      requires Inv(Contents()) && h !in handlers && uuid !in used
      modifies this
      ensures Contents() == Step(old(Contents()), Pay(h, kind, dto, uuid)) && Inv(Contents())
      ensures h in handlers && handlers[h] == if known.Some? then Done(known.value, None) else Reserving(uuid, kind, dto)
      ensures known.None? <==> Unnamed(old(Contents()), kind, dto.externalId)
      ensures forall ref :: ref in old(rows) && Named(old(rows)[ref], kind, dto.externalId) ==>
                known == Some(if Requested(old(rows)[ref], kind, dto) then Ok((ref, old(rows)[ref])) else Err(Conflict))
      ensures known.Some? && known.value.Err? ==> known.value.error == Conflict
      ensures known.Some? && known.value.Ok? ==> Answers(Contents(), kind, dto, known.value.value)
      ensures known.Some? ==> (kind, dto.externalId) in index
      ensures rows == old(rows)
    {
      hide Inv;
      PayKeepsInv(Contents(), h, kind, dto, uuid);
      IndexedRow(Contents(), kind, dto.externalId);
      IndexIsNames(Contents(), kind, dto.externalId);
      if (kind, dto.externalId) in index {
        var ref := index[(kind, dto.externalId)];
        var r: Result<(Ref, Row), Error> := Err(Conflict);
        if ref in rows && SamePayment(rows[ref], dto) {
          r := Ok((ref, rows[ref]));
        }
        MoveTo(h, Done(r, None));
        return Some(r);
      }
      used := used + {uuid};
      MoveTo(h, Reserving(uuid, kind, dto));
      return None;
    }

    /** The durable reservation, before the provider is contacted. */
    method ReserveRow(h: nat, uuid: Ref, kind: Kind, dto: Dto, gap: seq<Action>) returns (ok: bool)
      requires Inv(Contents()) && h in handlers && handlers[h] == Reserving(uuid, kind, dto) && Others(Owner, gap, h)
      modifies this
      ensures Contents() == Run(Step, old(Contents()), gap + [Advance(h)]) && Inv(Contents())
      ensures h in handlers && handlers[h] == if ok then Charging(uuid, kind, dto) else Done(Err(Conflict), None)
      ensures !ok ==> (kind, dto.externalId) in index && index[(kind, dto.externalId)] != uuid
    {
      hide Inv, Run;
      ghost var s0 := Contents();
      Interleave(h, gap);
      GapThenStep(s0, gap, Advance(h));
      InFlight(Contents(), h);
      IndexedRow(Contents(), kind, dto.externalId);
      var saved := PersistRow(uuid, NewRow(kind, dto));
      ok := saved.Ok?;
      MoveTo(h, if ok then Charging(uuid, kind, dto) else Done(Err(Conflict), None));
    }

    /** The provider call: it may never leave, or its answer may be lost after the charge. */
    method CallProvider(h: nat, uuid: Ref, kind: Kind, dto: Dto, delivery: Delivery, gap: seq<Action>)
      returns (ok: bool, ghost own: seq<Action>)
      requires Inv(Contents()) && h in handlers && handlers[h] == Charging(uuid, kind, dto) && Others(Owner, gap, h)
      modifies this
      ensures Contents() == Run(Step, old(Contents()), gap + own) && Inv(Contents())
      ensures own == match delivery { case NotSent => [Crash(h)] case AnswerLost => [Advance(h), Crash(h)] case Accepted => [Advance(h)] }
      ensures ok <==> delivery.Accepted?
      ensures ok ==> h in handlers && handlers[h] == Done(Ok((uuid, NewRow(kind, dto))), None)
      ensures !ok ==> h !in handlers
      ensures Answers(Contents(), kind, dto, (uuid, NewRow(kind, dto)))
      ensures !delivery.NotSent? ==> Charged(Contents(), uuid, kind, dto)
    {
      hide Inv, Run;
      ghost var s0 := Contents();
      Interleave(h, gap);
      GapThenStep(s0, gap, Crash(h));
      GapThenStep(s0, gap, Advance(h));
      InFlight(Contents(), h);
      ReservedAnswers(Contents(), kind, dto, uuid);
      if delivery.NotSent? {
        handlers := handlers - {h};
        return false, [Crash(h)];
      }
      charges := charges + [Charge(uuid, kind, dto.amount, dto.currency, dto.externalId, dto.party)];
      MoveTo(h, Done(Ok((uuid, NewRow(kind, dto))), None));
      own := [Advance(h)];
      ChargedLast(Contents(), uuid, kind, dto);
      if delivery.Accepted? {
        return true, own;
      }
      GapThenStep(s0, gap + own, Crash(h));
      assert gap + own + [Crash(h)] == gap + [Advance(h), Crash(h)];
      handlers := handlers - {h};
      ChargedLast(Contents(), uuid, kind, dto);
      return false, [Advance(h), Crash(h)];
    }

    /**
     `requestToPay` and `transfer`: look up, reserve, charge.  Whatever the outcome, the reference is
     taken from then on.  A request whose reference is already taken is answered with the row stored
     under it exactly when that row holds the same amount, currency and party, and never charged; a
     call whose provider answer was lost leaves such a row for a retry.  A new reference succeeds
     exactly when nobody else takes it first and the provider accepts the charge.
     */
    method RequestPayment(h: nat, kind: Kind, dto: Dto, uuid: Ref, delivery: Delivery, gap1: seq<Action>, gap2: seq<Action>)
      returns (r: Result<(Ref, Row), Error>, ghost trace: seq<Action>)
      requires Inv(Contents()) && h !in handlers && uuid !in used
      requires Others(Owner, gap1, h) && Others(Owner, gap2, h)
      modifies this
      ensures Contents() == Run(Step, old(Contents()), trace) && Inv(Contents())
      ensures if r == Err(ProviderUnavailable) then h !in handlers else h in handlers && handlers[h] == Done(r, None)
      ensures (kind, dto.externalId) in index
      ensures r.Ok? ==> Answers(Contents(), kind, dto, r.value)
      ensures forall ref :: ref in old(rows) && Named(old(rows)[ref], kind, dto.externalId) ==>
                && trace == [Pay(h, kind, dto, uuid)]
                && r == if Requested(old(rows)[ref], kind, dto) then Ok((ref, old(rows)[ref])) else Err(Conflict)
      ensures Unnamed(old(Contents()), kind, dto.externalId) ==>
                && (r == Err(Conflict) <==> index[(kind, dto.externalId)] != uuid)
                && (r.Ok? <==> index[(kind, dto.externalId)] == uuid && delivery.Accepted?)
                && (r.Ok? ==> r.value == (uuid, NewRow(kind, dto)) && Charged(Contents(), uuid, kind, dto))
      ensures r.Err? ==> r.error in {Conflict, ProviderUnavailable}
      ensures r == Err(ProviderUnavailable) ==> Answers(Contents(), kind, dto, (uuid, NewRow(kind, dto)))
      ensures trace == [Pay(h, kind, dto, uuid)] <==> !Unnamed(old(Contents()), kind, dto.externalId)
    {
      hide Inv, Run, Step;
      ghost var s0 := Contents();
      var known := StartPayment(h, kind, dto, uuid);
      trace := [Pay(h, kind, dto, uuid)];
      RunOne(Step, s0, Pay(h, kind, dto, uuid));
      if known.Some? {
        return known.value, trace;
      }
      var reserved := ReserveRow(h, uuid, kind, dto, gap1);
      RunConcat(Step, s0, trace, gap1 + [Advance(h)]);
      trace := trace + (gap1 + [Advance(h)]);
      if !reserved {
        return Err(Conflict), trace;
      }
      var ok;
      ghost var own: seq<Action>;
      ok, own := CallProvider(h, uuid, kind, dto, delivery, gap2);
      RunConcat(Step, s0, trace, gap2 + own);
      trace := trace + (gap2 + own);
      return if ok then Ok((uuid, NewRow(kind, dto))) else Err(ProviderUnavailable), trace;
    }

    /** The first read of `upsertStatus`: a conflicting change of a terminal row is refused here. */
    method ReadAndDecide(h: nat, ref: Ref, kind: Kind, resource: Resource, gap: seq<Action>)
      returns (r: Result<Row, (Ref, Row)>)
      requires Inv(Contents()) && h in handlers && handlers[h] == Updating(ref, kind, resource) && Others(Owner, gap, h)
      modifies this
      ensures Contents() == Run(Step, old(Contents()), gap + [Advance(h)]) && Inv(Contents())
      ensures r.Ok? ==> h in handlers && handlers[h] == Persisting(ref, kind, resource, r.value)
      ensures r.Err? ==> h in handlers && handlers[h] == Done(Ok(r.error), resource.status) && r.error.0 == ref
      ensures r.Err? ==> Terminal(r.error.1.status)
    {
      hide Inv, Run;
      ghost var s0 := Contents();
      Interleave(h, gap);
      GapThenStep(s0, gap, Advance(h));
      InFlight(Contents(), h);
      var existing := rows[ref];
      var next := resource.status.value;
      if Terminal(existing.status) && next != existing.status {
        MoveTo(h, Done(Ok((ref, existing)), resource.status));
        return Err((ref, existing));
      }
      var updated := existing.(status := next, reason := resource.reason);
      MoveTo(h, Persisting(ref, kind, resource, updated));
      return Ok(updated);
    }

    /** The conditional write of `upsertStatus`. */
    method WriteStatus(h: nat, ref: Ref, kind: Kind, resource: Resource, record: Row, gap: seq<Action>)
      requires Inv(Contents()) && h in handlers && handlers[h] == Persisting(ref, kind, resource, record) && Others(Owner, gap, h)
      modifies this
      ensures Contents() == Run(Step, old(Contents()), gap + [Advance(h)]) && Inv(Contents())
      ensures h in handlers && handlers[h] == Reading(ref, kind, resource)
      ensures Report(ref, kind, resource) in reports
    {
      hide Inv, Run;
      ghost var s0 := Contents();
      Interleave(h, gap);
      GapThenStep(s0, gap, Advance(h));
      InFlight(Contents(), h);
      var written := PersistRow(ref, record);
      reports := reports + [Report(ref, kind, resource)];
      MoveTo(h, Reading(ref, kind, resource));
    }

    /** The last read of `upsertStatus`: the caller gets the row as it now stands. */
    method ReadBack(h: nat, ref: Ref, kind: Kind, resource: Resource, gap: seq<Action>) returns (row: Row)
      requires Inv(Contents()) && h in handlers && handlers[h] == Reading(ref, kind, resource) && Others(Owner, gap, h)
      modifies this
      ensures Contents() == Run(Step, old(Contents()), gap + [Advance(h)]) && Inv(Contents())
      ensures h in handlers && handlers[h] == Done(Ok((ref, row)), resource.status)
    {
      hide Inv, Run;
      ghost var s0 := Contents();
      Interleave(h, gap);
      GapThenStep(s0, gap, Advance(h));
      InFlight(Contents(), h);
      row := rows[ref];
      MoveTo(h, Done(Ok((ref, row)), resource.status));
    }

    /** `upsertStatus`: read, refuse a conflicting terminal change, update conditionally, read again. */
    method UpsertStatus(h: nat, ref: Ref, kind: Kind, resource: Resource, gaps: seq<seq<Action>>)
      returns (r: (Ref, Row), ghost trace: seq<Action>)
      requires Inv(Contents()) && h in handlers && handlers[h] == Updating(ref, kind, resource)
      requires |gaps| == 3 && forall g :: g in gaps ==> Others(Owner, g, h)
      modifies this
      ensures Contents() == Run(Step, old(Contents()), trace) && Inv(Contents())
      ensures r.0 == ref && h in handlers && handlers[h] == Done(Ok(r), resource.status)
      ensures Recorded(Contents(), r, kind, resource)
      ensures trace in {gaps[0] + [Advance(h)],
                        gaps[0] + [Advance(h)] + (gaps[1] + [Advance(h)]) + (gaps[2] + [Advance(h)])}
    {
      hide Inv, Run, Step;
      ghost var s0 := Contents();
      var decided := ReadAndDecide(h, ref, kind, resource, gaps[0]);
      trace := gaps[0] + [Advance(h)];
      if decided.Err? {
        return decided.error, trace;
      }
      WriteStatus(h, ref, kind, resource, decided.value, gaps[1]);
      ghost var s2 := Contents();
      RunConcat(Step, s0, trace, gaps[1] + [Advance(h)]);
      trace := trace + (gaps[1] + [Advance(h)]);
      var row := ReadBack(h, ref, kind, resource, gaps[2]);
      RunKeepsReports(s2, gaps[2] + [Advance(h)]);
      RunConcat(Step, s0, trace, gaps[2] + [Advance(h)]);
      trace := trace + (gaps[2] + [Advance(h)]);
      r := (ref, row);
    }

    /** The first statement of `applyCallback`. */
    method StartCallback(h: nat, kind: Kind, payload: Resource) returns (r: Option<Ref>)
      requires Inv(Contents()) && h !in handlers
      modifies this
      ensures Contents() == Step(old(Contents()), Callback(h, kind, payload)) && Inv(Contents())
      ensures h in handlers
      ensures r.None? ==> handlers[h] == Done(Err(NotFound), None)
      ensures r.Some? ==> handlers[h] == Validating(r.value, kind, payload)
      ensures r.None? <==> Unnamed(old(Contents()), kind, payload.externalId)
      ensures r.Some? ==> r.value in rows && Named(rows[r.value], kind, payload.externalId)
      ensures rows == old(rows)
    {
      StepKeepsInv(Contents(), Callback(h, kind, payload));
      hide Inv;
      IndexIsNames(Contents(), kind, payload.externalId);
      IndexedRow(Contents(), kind, payload.externalId);
      if (kind, payload.externalId) !in index {
        MoveTo(h, Done(Err(NotFound), None));
        return None;
      }
      var ref := index[(kind, payload.externalId)];
      MoveTo(h, Validating(ref, kind, payload));
      return Some(ref);
    }

    /** The check of a callback's payload against the stored transaction. */
    method CheckPayload(h: nat, ref: Ref, kind: Kind, payload: Resource, gap: seq<Action>) returns (ok: bool)
      requires Inv(Contents()) && h in handlers && handlers[h] == Validating(ref, kind, payload) && Others(Owner, gap, h)
      modifies this
      ensures Contents() == Run(Step, old(Contents()), gap + [Advance(h)]) && Inv(Contents())
      ensures h in handlers && handlers[h] == if ok then Updating(ref, kind, payload) else Done(Err(BadRequest), None)
      ensures ref in rows && (ok <==> Agrees(payload, rows[ref]))
    {
      hide Inv, Run;
      ghost var s0 := Contents();
      Interleave(h, gap);
      GapThenStep(s0, gap, Advance(h));
      InFlight(Contents(), h);
      ok := Matches(payload, rows[ref]);
      MoveTo(h, if ok then Updating(ref, kind, payload) else Done(Err(BadRequest), None));
    }

    /** `applyCallback`: find the transaction, check the payload against it, record its status. */
    method ApplyCallback(h: nat, kind: Kind, payload: Resource, gap: seq<Action>, gaps: seq<seq<Action>>)
      returns (r: Result<(Ref, Row), Error>, ghost trace: seq<Action>)
      requires Inv(Contents()) && h !in handlers && |gaps| == 3 && Quiet(gap, gaps, h)
      modifies this
      ensures Contents() == Run(Step, old(Contents()), trace) && Inv(Contents())
      ensures h in handlers && handlers[h] == Done(r, if r.Ok? then payload.status else None)
      ensures r == Err(NotFound) <==> Unnamed(old(Contents()), kind, payload.externalId)
      ensures forall ref :: ref in old(rows) && Named(old(rows)[ref], kind, payload.externalId) ==>
                && (r.Ok? <==> payload.status.Some? && payload.currency == old(rows)[ref].currency && payload.amount == old(rows)[ref].amount)
                && (r.Ok? ==> r.value.0 == ref)
                && (r.Err? ==> r.error == BadRequest)
      ensures r.Ok? ==> Recorded(Contents(), r.value, kind, payload)
      ensures r.Ok? ==> r.value.0 in rows && (Terminal(r.value.1.status) ==> rows[r.value.0] == r.value.1)
      ensures r.Ok? && Terminal(payload.status.value) ==> Terminal(r.value.1.status)
    {
      hide Inv, Run, Step;
      ghost var s0 := Contents();
      var found := StartCallback(h, kind, payload);
      trace := [Callback(h, kind, payload)];
      RunOne(Step, s0, Callback(h, kind, payload));
      if found.None? {
        return Err(NotFound), trace;
      }
      ghost var s1 := Contents();
      OnlyName(s0, kind, payload.externalId, found.value);
      var ok := CheckPayload(h, found.value, kind, payload, gap);
      DetailsStay(s1, gap + [Advance(h)], found.value);
      RunConcat(Step, s0, trace, gap + [Advance(h)]);
      trace := trace + (gap + [Advance(h)]);
      if !ok {
        return Err(BadRequest), trace;
      }
      ghost var rest: seq<Action>;
      var updated;
      updated, rest := UpsertStatus(h, found.value, kind, payload, gaps);
      RunConcat(Step, s0, trace, rest);
      DoneRow(Contents(), h);
      return Ok(updated), trace + rest;
    }

    /** The read and product check of `refreshStatus`. */
    method StartRefresh(h: nat, kind: Kind, ref: Ref) returns (r: Result<Row, Error>)
      requires Inv(Contents()) && h !in handlers
      modifies this
      ensures Contents() == Step(old(Contents()), Refresh(h, kind, ref)) && Inv(Contents())
      ensures h in handlers
      ensures r.Err? ==> handlers[h] == Done(Err(r.error), None)
      ensures r.Ok? ==> handlers[h] == Fetching(ref, kind, r.value)
      ensures r.Ok? <==> ref in old(rows) && old(rows)[ref].kind == kind
      ensures r.Ok? ==> r.value == old(rows)[ref]
      ensures r.Err? ==> r.error == if ref in old(rows) then BadRequest else NotFound
    {
      StepKeepsInv(Contents(), Refresh(h, kind, ref));
      hide Inv;
      if ref !in rows {
        MoveTo(h, Done(Err(NotFound), None));
        return Err(NotFound);
      }
      var existing := rows[ref];
      if existing.kind != kind {
        MoveTo(h, Done(Err(BadRequest), None));
        return Err(BadRequest);
      }
      MoveTo(h, Fetching(ref, kind, existing));
      return Ok(existing);
    }

    /** The provider's answer, or its absence, checked against the row read before the call. */
    method ReceiveAnswer(h: nat, ref: Ref, kind: Kind, existing: Row, answer: Option<Resource>, gap: seq<Action>)
      returns (ok: bool, ghost last: Action)
      requires Inv(Contents()) && h in handlers && handlers[h] == Fetching(ref, kind, existing) && Others(Owner, gap, h)
      modifies this
      ensures last.h == h && Contents() == Run(Step, old(Contents()), gap + [last]) && Inv(Contents())
      ensures ok <==> answer.Some? && Agrees(answer.value, existing)
      ensures ok ==> h in handlers && handlers[h] == Updating(ref, kind, answer.value)
    {
      hide Inv, Run;
      ghost var s0 := Contents();
      Interleave(h, gap);
      last := if answer.Some? then Fetched(h, answer.value) else Crash(h);
      GapThenStep(s0, gap, last);
      if answer.None? {
        handlers := handlers - {h};
        ok := false;
      } else {
        ok := Matches(answer.value, existing);
        MoveTo(h, if ok then Updating(ref, kind, answer.value) else Done(Err(BadRequest), None));
      }
    }

    /** `refreshStatus`: ask the provider about one transaction and record the answer. */
    method RefreshStatus(h: nat, kind: Kind, ref: Ref, answer: Option<Resource>, gap: seq<Action>, gaps: seq<seq<Action>>)
      returns (r: Result<(Ref, Row), Error>, ghost trace: seq<Action>)
      requires Inv(Contents()) && h !in handlers && |gaps| == 3 && Quiet(gap, gaps, h)
      modifies this
      ensures Contents() == Run(Step, old(Contents()), trace) && Inv(Contents())
      ensures r == Err(NotFound) <==> ref !in old(rows)
      ensures ref in old(rows) ==>
                var row := old(rows)[ref];
                && (r.Ok? <==> && row.kind == kind && answer.Some? && answer.value.status.Some?
                               && answer.value.externalId == row.externalId && answer.value.currency == row.currency
                               && answer.value.amount == row.amount)
                && (r == Err(ProviderUnavailable) <==> row.kind == kind && answer.None?)
                && (r.Err? ==> r.error in {BadRequest, ProviderUnavailable})
      ensures r.Ok? ==> Recorded(Contents(), r.value, kind, answer.value)
      ensures r.Ok? ==> r.value.0 == ref && h in handlers && handlers[h] == Done(r, answer.value.status)
      ensures forall k :: k != h && Quiet(gap, gaps, k) ==> Others(Owner, trace, k)
    {
      hide Inv, Run, Step, Quiet;
      ghost var s0 := Contents();
      var started := StartRefresh(h, kind, ref);
      trace := [Refresh(h, kind, ref)];
      RunOne(Step, s0, Refresh(h, kind, ref));
      if started.Err? {
        return Err(started.error), trace;
      }
      QuietParts(gap, gaps);
      var ok;
      ghost var last: Action;
      ok, last := ReceiveAnswer(h, ref, kind, started.value, answer, gap);
      RunConcat(Step, s0, trace, gap + [last]);
      QuietTrace(trace, gap, last, gaps);
      trace := trace + (gap + [last]);
      if !ok {
        return Err(if answer.None? then ProviderUnavailable else BadRequest), trace;
      }
      ghost var rest: seq<Action>;
      var updated;
      updated, rest := UpsertStatus(h, ref, kind, answer.value, gaps);
      RunConcat(Step, s0, trace, rest);
      QuietUpsert(trace, rest, h, gap, gaps);
      return Ok(updated), trace + rest;
    }

    /** `listPending`: the references of the Pending rows, each once, in some order. */
    method ListPending() returns (pending: seq<Ref>)
      ensures forall ref :: ref in pending <==> ref in rows && rows[ref].status == Pending
      ensures forall i, j :: 0 <= i < j < |pending| ==> pending[i] != pending[j]
    {
      pending := [];
      var left := rows.Keys;
      while left != {}
        invariant left <= rows.Keys
        invariant forall ref :: ref in pending <==> ref in rows && ref !in left && rows[ref].status == Pending
        invariant forall i, j :: 0 <= i < j < |pending| ==> pending[i] != pending[j]
        decreases left
      {
        var ref :| ref in left;
        left := left - {ref};
        if rows[ref].status == Pending {
          pending := pending + [ref];
        }
      }
    }

    /**
     `reconcilePending`: refresh every transaction that was Pending when listed, one after the other,
     collecting the rows of those that could be refreshed.  A listed transaction whose answer matched
     it and was terminal ends terminal, and no collected terminal row differs from the stored one.
     */
    method ReconcilePending(first: nat, answer: nat -> Option<Resource>, gap: nat -> seq<Action>, gaps: nat -> seq<seq<Action>>)
      returns (results: seq<(Ref, Row)>, ghost listed: seq<Ref>, ghost trace: seq<Action>)
      requires Inv(Contents()) && forall k :: k in handlers ==> k < first
      requires forall i :: |gaps(i)| == 3 && forall k :: k >= first ==> Quiet(gap(i), gaps(i), k)
      modifies this
      ensures Contents() == Run(Step, old(Contents()), trace) && Inv(Contents())
      ensures forall ref :: ref in listed <==> ref in old(rows) && old(rows)[ref].status == Pending
      ensures forall i, j :: 0 <= i < j < |listed| ==> listed[i] != listed[j]
      ensures Evolves(old(Contents()), Contents())
      ensures (forall ref :: ref in listed ==> ref in old(rows)) && RefsOf(results) == RefreshedOf(old(rows), listed, answer, |listed|)
      ensures forall r :: r in results ==> r.0 in listed && r.0 in rows && (Terminal(r.1.status) ==> rows[r.0] == r.1)
      ensures forall i :: 0 <= i < |listed| && Answered(answer(i), old(rows)[listed[i]]) ==> Terminal(rows[listed[i]].status)
    {
      hide Inv, Run, Step, Quiet, Answered, Refreshed, RefsOf, RefreshedOf, Evolves, ResultsStored, AnswersApplied;
      ghost var s0 := Contents();
      var pending := ListPending();
      listed := pending;
      results, trace := [], [];
      NothingYet(s0, listed, answer);
      assert Contents() == Run(Step, s0, []) by { RunNothing(s0); }
      for i := 0 to |pending|
        invariant Contents() == Run(Step, s0, trace) && Inv(Contents()) && Evolves(s0, Contents())
        invariant forall k :: k in handlers ==> k < first + i
        invariant forall ref :: ref in listed ==> ref in s0.rows
        invariant RefsOf(results) == RefreshedOf(s0.rows, listed, answer, i)
        invariant ResultsStored(Contents(), listed, results)
        invariant AnswersApplied(s0, Contents(), listed, i, answer)
      {
        ghost var before := Contents();
        ghost var rest: seq<Action>;
        var refreshed;
        SameRefreshed(s0, before, answer(i), pending[i]);
        refreshed, rest := RefreshListed(first + i, pending[i], answer(i), gap(i), gaps(i));
        RunConcat(Step, s0, trace, rest);
        NoNewHandlers(before, rest, first, i, gap(i), gaps(i));
        KeptResults(before, Contents(), listed, results);
        KeptAnswers(s0, before, Contents(), listed, i, answer);
        trace := trace + rest;
        OneMore(s0.rows, Contents(), listed, answer, i, results, refreshed);
        if refreshed.Ok? {
          results := results + [refreshed.value];
        }
      }
      AllReconciled(s0, Contents(), listed, results, answer);
    }

    /** One turn of the reconciliation loop. */
    method RefreshListed(h: nat, ref: Ref, answer: Option<Resource>, gap: seq<Action>, gaps: seq<seq<Action>>)
      returns (r: Result<(Ref, Row), Error>, ghost trace: seq<Action>)
      requires Inv(Contents()) && h !in handlers && |gaps| == 3 && Quiet(gap, gaps, h) && ref in rows
      modifies this
      ensures Contents() == Run(Step, old(Contents()), trace) && Inv(Contents()) && Evolves(old(Contents()), Contents())
      ensures ref in rows
      ensures r.Ok? ==> r.value.0 == ref && (Terminal(r.value.1.status) ==> rows[ref] == r.value.1)
      ensures r.Ok? <==> Refreshed(answer, old(rows)[ref])
      ensures Answered(answer, old(rows)[ref]) ==> Terminal(rows[ref].status)
      ensures forall k :: k != h && Quiet(gap, gaps, k) ==> Others(Owner, trace, k)
    {
      hide Inv, Run, Step, Quiet;
      ghost var before := Contents();
      var kind := rows[ref].kind;
      r, trace := RefreshStatus(h, kind, ref, answer, gap, gaps);
      RunEvolves(before, trace);
      if r.Ok? {
        DoneRow(Contents(), h);
      }
    }
  }

  /** The provider answered for a row and the answer agreed with it. */
  ghost predicate Refreshed(answer: Option<Resource>, row: Row) {
    answer.Some? && Agrees(answer.value, row)
  }

  /** Of the first n listed transactions, in their order, those whose answer agreed with them. */
  ghost function RefreshedOf(rows: map<Ref, Row>, listed: seq<Ref>, answer: nat -> Option<Resource>, n: nat): seq<Ref>
    requires n <= |listed| && forall ref :: ref in listed ==> ref in rows
  {
    if n == 0 then []
    else
      var before := RefreshedOf(rows, listed, answer, n - 1);
      if Refreshed(answer(n - 1), rows[listed[n - 1]]) then before + [listed[n - 1]] else before
  }

  ghost function RefsOf(results: seq<(Ref, Row)>): seq<Ref> {
    seq(|results|, i requires 0 <= i < |results| => results[i].0)
  }

  /** The provider's answer for a row matched it and was terminal. */
  ghost predicate Answered(answer: Option<Resource>, row: Row) {
    answer.Some? && Agrees(answer.value, row) && Terminal(answer.value.status.value)
  }

  /** The collected rows are listed ones, and stored as collected once terminal. */
  ghost predicate ResultsStored(s: State, listed: seq<Ref>, results: seq<(Ref, Row)>) {
    forall r :: r in results ==> r.0 in listed && r.0 in s.rows && (Terminal(r.1.status) ==> s.rows[r.0] == r.1)
  }

  /** The first n listed transactions whose answer was terminal and matched are terminal. */
  ghost predicate AnswersApplied(s0: State, s: State, listed: seq<Ref>, n: nat, answer: nat -> Option<Resource>) {
    && n <= |listed|
    && forall j :: 0 <= j < n ==>
         && listed[j] in s0.rows && listed[j] in s.rows
         && (Answered(answer(j), s0.rows[listed[j]]) ==> Terminal(s.rows[listed[j]].status))
  }

  /** A report reached the database, or the row it was for is final. */
  ghost predicate Recorded(s: State, r: (Ref, Row), kind: Kind, resource: Resource) {
    Report(r.0, kind, resource) in s.reports || Terminal(r.1.status)
  }

  lemma OnlyName(s: State, kind: Kind, externalId: string, ref: Ref)
    requires Inv(s) && ref in s.rows && Named(s.rows[ref], kind, externalId)
    ensures forall other :: other in s.rows && Named(s.rows[other], kind, externalId) ==> other == ref
    ensures !Unnamed(s, kind, externalId)
  {
    IndexIsNames(s, kind, externalId);
    hide Inv;
  }

  /** Later steps change no details. */
  lemma DetailsStay(s: State, actions: seq<Action>, ref: Ref)
    requires ref in s.rows
    ensures ref in Run(Step, s, actions).rows && SameDetails(s.rows[ref], Run(Step, s, actions).rows[ref])
  {
    hide Run;
    RunEvolves(s, actions);
  }

  lemma NothingYet(s: State, listed: seq<Ref>, answer: nat -> Option<Resource>)
    requires forall ref :: ref in listed ==> ref in s.rows
    ensures RefsOf([]) == RefreshedOf(s.rows, listed, answer, 0)
    ensures ResultsStored(s, listed, []) && AnswersApplied(s, s, listed, 0, answer) && Evolves(s, s)
  {
  }

  /** One more listed transaction: its row is collected exactly when its answer agreed. */
  lemma OneMore(rows: map<Ref, Row>, s: State, listed: seq<Ref>, answer: nat -> Option<Resource>, i: nat,
                results: seq<(Ref, Row)>, r: Result<(Ref, Row), Error>)
    requires i < |listed| && forall ref :: ref in listed ==> ref in rows
    requires RefsOf(results) == RefreshedOf(rows, listed, answer, i) && ResultsStored(s, listed, results)
    requires r.Ok? <==> Refreshed(answer(i), rows[listed[i]])
    requires r.Ok? ==> r.value.0 == listed[i] && listed[i] in s.rows && (Terminal(r.value.1.status) ==> s.rows[listed[i]] == r.value.1)
    ensures
      var next := if r.Ok? then results + [r.value] else results;
      RefsOf(next) == RefreshedOf(rows, listed, answer, i + 1) && ResultsStored(s, listed, next)
  {
    hide Refreshed;
    if r.Ok? {
      assert RefsOf(results + [r.value]) == RefsOf(results) + [listed[i]];
    }
  }

  lemma AllReconciled(s0: State, s: State, listed: seq<Ref>, results: seq<(Ref, Row)>, answer: nat -> Option<Resource>)
    requires ResultsStored(s, listed, results) && AnswersApplied(s0, s, listed, |listed|, answer)
    requires forall ref :: ref in listed ==> ref in s0.rows
    ensures forall r :: r in results ==> r.0 in listed && r.0 in s.rows && (Terminal(r.1.status) ==> s.rows[r.0] == r.1)
    ensures forall i :: 0 <= i < |listed| ==> listed[i] in s.rows
    ensures forall i :: 0 <= i < |listed| && Answered(answer(i), s0.rows[listed[i]]) ==> Terminal(s.rows[listed[i]].status)
  {
    hide Answered;
  }

  lemma SameRefreshed(s: State, t: State, answer: Option<Resource>, ref: Ref)
    requires Evolves(s, t) && ref in s.rows
    ensures ref in t.rows && (Refreshed(answer, s.rows[ref]) <==> Refreshed(answer, t.rows[ref]))
  {
  }

  lemma KeptResults(s: State, t: State, listed: seq<Ref>, results: seq<(Ref, Row)>)
    requires ResultsStored(s, listed, results) && Evolves(s, t)
    ensures ResultsStored(t, listed, results)
  {
  }

  /** One more turn of the loop: what held before still holds, and the new answer was applied. */
  lemma KeptAnswers(s0: State, s: State, t: State, listed: seq<Ref>, n: nat, answer: nat -> Option<Resource>)
    requires AnswersApplied(s0, s, listed, n, answer) && n < |listed|
    requires Evolves(s0, s) && Evolves(s, t) && listed[n] in s0.rows
    requires listed[n] in s.rows && listed[n] in t.rows
    requires Answered(answer(n), s.rows[listed[n]]) ==> Terminal(t.rows[listed[n]].status)
    ensures AnswersApplied(s0, t, listed, n + 1, answer)
    ensures Evolves(s0, t)
  {
    assert SameDetails(s0.rows[listed[n]], s.rows[listed[n]]);
  }

  lemma RunNothing(s: State)
    ensures Run(Step, s, []) == s
  {
  }

  /** A finished call holds a row that is stored as it is once terminal. */
  lemma DoneRow(s: State, h: nat)
    requires Inv(s) && h in s.handlers && s.handlers[h].Done? && s.handlers[h].result.Ok?
    ensures
      var p := s.handlers[h];
      var (ref, row) := p.result.value;
      && ref in s.rows && (Terminal(row.status) ==> row == s.rows[ref])
      && (p.reported.Some? && Terminal(p.reported.value) ==> Terminal(row.status) && Terminal(s.rows[ref].status))
  {
    assert HandlerSound(s, s.handlers[h]);
  }

  /** Refreshing one transaction leaves every later call id unused. */
  lemma NoNewHandlers(s: State, rest: seq<Action>, first: nat, i: nat, gap: seq<Action>, gaps: seq<seq<Action>>)
    requires forall k :: k in s.handlers ==> k < first + i
    requires forall k :: k != first + i && Quiet(gap, gaps, k) ==> Others(Owner, rest, k)
    requires forall k :: k >= first ==> Quiet(gap, gaps, k)
    ensures forall k :: k in Run(Step, s, rest).handlers ==> k < first + i + 1
  {
    hide Run, Quiet;
    forall k: nat | k >= first + i + 1 ensures k !in Run(Step, s, rest).handlers {
      assert Quiet(gap, gaps, k);
      RunLeavesOthers(s, rest, k);
    }
  }

  lemma QuietParts(gap: seq<Action>, gaps: seq<seq<Action>>)
    ensures forall k :: Quiet(gap, gaps, k) ==> Others(Owner, gap, k) && forall g :: g in gaps ==> Others(Owner, g, k)
  {
  }

  lemma QuietTrace(trace: seq<Action>, gap: seq<Action>, last: Action, gaps: seq<seq<Action>>)
    ensures forall k :: k != last.h && Others(Owner, trace, k) && Quiet(gap, gaps, k) ==> Others(Owner, trace + (gap + [last]), k)
  {
    forall k | k != last.h && Others(Owner, trace, k) && Quiet(gap, gaps, k) ensures Others(Owner, trace + (gap + [last]), k) {
      OthersConcat(Owner, gap, [last], k);
      OthersConcat(Owner, trace, gap + [last], k);
    }
  }

  /** The steps of `upsertStatus` are its own and those of its gaps. */
  lemma QuietUpsert(trace: seq<Action>, rest: seq<Action>, h: nat, gap: seq<Action>, gaps: seq<seq<Action>>)
    requires |gaps| == 3
    requires rest in {gaps[0] + [Advance(h)],
                      gaps[0] + [Advance(h)] + (gaps[1] + [Advance(h)]) + (gaps[2] + [Advance(h)])}
    ensures forall k :: k != h && Others(Owner, trace, k) && Quiet(gap, gaps, k) ==> Others(Owner, trace + rest, k)
  {
    forall k | k != h && Others(Owner, trace, k) && Quiet(gap, gaps, k) ensures Others(Owner, trace + rest, k) {
      assert gaps[0] in gaps && gaps[1] in gaps && gaps[2] in gaps;
      var own := [Advance(h)];
      assert Others(Owner, own, k);
      OthersConcat(Owner, gaps[0], own, k);
      OthersConcat(Owner, gaps[1], own, k);
      OthersConcat(Owner, gaps[2], own, k);
      OthersConcat(Owner, gaps[0] + own, gaps[1] + own, k);
      OthersConcat(Owner, gaps[0] + own + (gaps[1] + own), gaps[2] + own, k);
      OthersConcat(Owner, trace, rest, k);
    }
  }
}
