/**
 The intent service and its store as their methods are written: statements in order, with an await
 between each, during which calls on any instance, the ledger and crashes take steps of their own.
 Each method is shown to be a run of the protocol whatever the others do, so the protocol's
 theorems hold of it; the in-memory store is shown to do what the database statements do.
 */
module IntentService {
  import opened Wrappers
  import opened Runs
  import opened Amounts
  import opened Payments
  import opened Intents

  // ----- Runs seen from one call ---------------------------------------------------------

  lemma ClaimLeavesHandlers(s: State, id: Id, hash: Hash)
    ensures ClaimHash(s, id, hash).Ok? ==> ClaimHash(s, id, hash).value.handlers == s.handlers
  {
  }

  lemma InsertLeavesHandlers(s: State, id: Id, row: Row)
    ensures InsertIntent(s, id, row).Ok? ==> InsertIntent(s, id, row).value.0.handlers == s.handlers
  {
  }

  lemma CreateLeavesOthers(s: State, h: nat, k: nat, input: NativePayment, key: string, id: Id)
    requires h != k
    ensures k in CreateStep(s, h, input, key, id).handlers <==> k in s.handlers
    ensures k in s.handlers ==> CreateStep(s, h, input, key, id).handlers[k] == s.handlers[k]
  {
    hide ValidatePayment, ValidKey, InsertIntent, SameRequest, NewRow, FindResult;
    if ValidatePayment(input).Ok? {
      ValidIsAmount(input);
      InsertLeavesHandlers(s, id, NewRow(input, key));
    }
  }

  lemma AdvanceLeavesOthers(s: State, h: nat, k: nat, p: Handler)
    requires h != k
    ensures k in AdvanceStep(s, h, p).handlers <==> k in s.handlers
    ensures k in s.handlers ==> AdvanceStep(s, h, p).handlers[k] == s.handlers[k]
  {
    hide ClaimHash, ParsePayment, FindResult;
    if p.Claiming? && p.xdr.Signed? {
      ClaimLeavesHandlers(s, p.id, HashOf(p.xdr.tx));
    }
  }

  /** Others never move a call that is not theirs. */
  lemma StepLeavesOthers(s: State, a: Action, h: nat)
    requires a.h != h
    ensures h in Step(s, a).handlers <==> h in s.handlers
    ensures h in s.handlers ==> Step(s, a).handlers[h] == s.handlers[h]
  {
    hide CreateStep, AdvanceStep, ParsePayment, RowPayment;
    if a.Create? {
      CreateLeavesOthers(s, a.h, h, a.input, a.key, a.id);
    } else if a.Advance? && a.h in s.handlers {
      AdvanceLeavesOthers(s, a.h, h, s.handlers[a.h]);
    }
  }

  /** A gap and then one step of the call itself. */
  lemma GapThenStep(s: State, gap: seq<Action>, last: Action)
    requires Inv(s)
    ensures Inv(Run(Step, s, gap)) && Inv(Run(Step, s, gap + [last]))
    ensures Run(Step, s, gap + [last]) == Step(Run(Step, s, gap), last)
  {
    hide Inv, Run, Step;
    RunSnoc(Step, s, gap, last);
    RunKeepsInv(s, gap);
    RunKeepsInv(s, gap + [last]);
  }

  lemma InFlight(s: State, h: nat)
    requires Inv(s) && h in s.handlers
    ensures HandlerSound(s, s.handlers[h])
  {
    hide RowsSound, KeysSound, HashesSound, BroadcastsSound, HandlerSound;
  }

  // ----- What a call can rely on ---------------------------------------------------------

  /** A bound row and the ledger entry of its hash, once there, stay for the rest of any run. */
  lemma BoundStays(s: State, actions: seq<Action>, id: Id, hash: Hash)
    requires Inv(s) && Bound(s, id, hash)
    ensures Bound(Run(Step, s, actions), id, hash)
    ensures hash in s.ledger ==> hash in Run(Step, s, actions).ledger && Run(Step, s, actions).ledger[hash] == s.ledger[hash]
  {
    hide Inv, Run;
    RunKeepsInv(s, actions);
  }

  /** A settled row says what the ledger says. */
  lemma SettledTruth(s: State, id: Id, hash: Hash)
    requires Inv(s) && Bound(s, id, hash) && s.rows[id].status != Pending
    ensures hash in s.ledger && s.rows[id].status == Outcome(s.ledger[hash])
  {
    hide ValidatePayment, PaysExactly, RowPayment, KeysSound, HashesSound, BroadcastsSound, HandlerSound;
    assert RowSound(s.rows[id], s.ledger);
  }

  function Outcome(success: bool): Status {
    if success then Succeeded else Failed
  }

  /** A refused claim is refused for good: this intent will never be bound to this transaction. */
  lemma RefusedClaimIsFinal(s: State, actions: seq<Action>, id: Id, hash: Hash)
    requires Inv(s) && id in s.rows && ClaimHash(s, id, hash).Err?
    ensures !Bound(Run(Step, s, actions), id, hash)
  {
    hide Run, RowsSound, KeysSound, BroadcastsSound, HandlerSound, RowSound;
    RunKeepsInv(s, actions);
    var t := Run(Step, s, actions);
    assert RowEvolves(s.rows[id], t.rows[id]);
    if s.rows[id].hash.None? {
      var other := s.hashes[hash];
      assert Bound(s, other, hash);
      assert RowEvolves(s.rows[other], t.rows[other]);
    }
  }

  // ----- The service ---------------------------------------------------------------------

  class IntentBackend {
    var rows: map<Id, Row>
    var keys: map<string, Id>
    var hashes: map<Hash, Id>
    var handlers: map<nat, Handler>
    var ledger: map<Hash, bool>
    var broadcasts: seq<Broadcast>

    function Contents(): State
      reads this
    {
      State(rows, keys, hashes, handlers, ledger, broadcasts)
    }

    constructor ()
      ensures Empty(Contents())
    {
      rows, keys, hashes := map[], map[], map[];
      handlers, ledger, broadcasts := map[], map[], [];
    }

    method SetContents(s: State)
      modifies this
      ensures Contents() == s
    {
      rows, keys, hashes := s.rows, s.keys, s.hashes;
      handlers, ledger, broadcasts := s.handlers, s.ledger, s.broadcasts;
    }

    method MoveTo(h: nat, p: Handler)
      modifies this`handlers
      ensures handlers == old(handlers)[h := p]
    {
      handlers := handlers[h := p];
    }

    /** An await: other calls, the ledger and crashes take any number of steps. */
    method Interleave(h: nat, actions: seq<Action>)
      requires Others(Owner, actions, h)
      modifies this
      ensures Contents() == Run(Step, old(Contents()), actions)
      ensures h in handlers <==> h in old(handlers)
      ensures h in old(handlers) ==> handlers[h] == old(handlers)[h]
    {
      hide Step;
      ghost var before := Contents();
      for i := 0 to |actions|
        invariant Contents() == Run(Step, before, actions[..i])
        invariant h in handlers <==> h in before.handlers
        invariant h in before.handlers ==> handlers[h] == before.handlers[h]
      {
        ghost var now := Contents();
        var next := Step(Contents(), actions[i]);
        StepLeavesOthers(now, actions[i], h);
        SetContents(next);
        RunSnoc(Step, before, actions[..i], actions[i]);
        assert actions[..i + 1] == actions[..i] + [actions[i]];
      }
      assert actions[..|actions|] == actions;
    }

    // --- The store's statements ---

    /** INSERT ... ON CONFLICT (idempotency_key), against the primary key and the unique key index. */
    method CreateIntent(id: Id, row: Row) returns (r: Result<Id, Fault>)
      modifies this`rows, this`keys
      ensures r.Ok? <==> InsertIntent(old(Contents()), id, row).Ok?
      ensures r.Ok? ==> (Contents(), r.value) == InsertIntent(old(Contents()), id, row).value
      ensures r.Err? ==> r.error == Conflict && Contents() == old(Contents())
    {
      if row.key in keys {
        return Ok(keys[row.key]);
      }
      if id in rows {
        return Err(Conflict);
      }
      rows := rows[id := row];
      keys := keys[row.key := id];
      return Ok(id);
    }

    /** `claimHash`: bind the row to the hash unless either is taken. */
    method ClaimRow(id: Id, hash: Hash) returns (r: Result<Row, Fault>)
      modifies this`rows, this`hashes
      ensures r.Ok? <==> ClaimHash(old(Contents()), id, hash).Ok?
      ensures r.Ok? ==> Contents() == ClaimHash(old(Contents()), id, hash).value && id in rows && r.value == rows[id]
      ensures r.Err? ==> r.error == Conflict && Contents() == old(Contents())
    {
      if id !in rows || (rows[id].hash.Some? && rows[id].hash != Some(hash)) {
        return Err(Conflict);
      }
      if hash in hashes && hashes[hash] != id {
        return Err(Conflict);
      }
      rows := rows[id := rows[id].(hash := Some(hash))];
      hashes := hashes[hash := id];
      return Ok(rows[id]);
    }

    /** The conditional update of `settle`. */
    method SettlePending(id: Id, hash: Hash, status: Status)
      modifies this`rows
      ensures Contents() == SettleRow(old(Contents()), id, hash, status)
    {
      if id in rows && rows[id].hash == Some(hash) && rows[id].status == Pending {
        rows := rows[id := rows[id].(status := status)];
      }
    }

    // --- create ---

    /**
     `create`.  A key gives one intent: the answer is the row stored under it, and only for the same
     request; a reused key with other details is refused and changes nothing.
     */
    method Create(h: nat, input: NativePayment, key: string, uuid: Id) returns (r: Result<(Id, Row), Fault>)
      requires Inv(Contents()) && h !in handlers
      modifies this
      ensures Contents() == Step(old(Contents()), Action.Create(h, input, key, uuid)) && Inv(Contents())
      ensures h in handlers && handlers[h] == Done(r)
      ensures r.Ok? ==> key in keys && keys[key] == r.value.0 && r.value.0 in rows && rows[r.value.0] == r.value.1
      ensures r.Ok? ==> SameRequest(r.value.1, input)
      ensures r.Ok? <==> && ValidatePayment(input).Ok? && ValidKey(key)
                         && if key in old(keys) then SameRequest(old(rows)[old(keys)[key]], input) else uuid !in old(rows)
      ensures r.Err? || key in old(keys) ==> rows == old(rows) && keys == old(keys)
      ensures r.Err? ==> r.error == if ValidatePayment(input).Err? then Rejected(ValidatePayment(input).error) else Conflict
    {
      hide Inv, Evolves, RowSound, ValidatePayment, ValidKey, SameRequest, NewRow, IsAmount;
      ghost var s0 := Contents();
      CreateKeepsInv(s0, h, input, key, uuid);
      KeysKnown(s0);
      var check := ValidatePayment(input);
      if check.Err? {
        r := Err(Rejected(check.error));
        MoveTo(h, Done(r));
        return;
      }
      if !ValidKey(key) {
        r := Err(Conflict);
        MoveTo(h, Done(r));
        return;
      }
      ValidIsAmount(input);
      NewRowFields(input, key);
      NewRowSound(input, key, map[]);
      var saved := CreateIntent(uuid, NewRow(input, key));
      if saved.Err? {
        r := Err(Conflict);
      } else if !SameRequest(rows[saved.value], input) {
        r := Err(Conflict);
      } else {
        r := Ok((saved.value, rows[saved.value]));
      }
      MoveTo(h, Done(r));
    }

    // --- settle and reconcile ---

    /** `verifyTransaction`: one ledger query, current or stale. */
    method VerifyTransaction(h: nat, id: Id, hash: Hash, current: bool, gap: seq<Action>) returns (status: Status)
      requires Inv(Contents()) && h in handlers && handlers[h] == Verifying(id, hash) && Others(Owner, gap, h)
      modifies this
      ensures Contents() == Run(Step, old(Contents()), gap + [Query(h, current)]) && Inv(Contents())
      ensures h in handlers && handlers[h] == Settling(id, hash, status)
      ensures Bound(Contents(), id, hash)
      ensures status != Pending <==> current && hash in ledger
      ensures status != Pending ==> status == Outcome(ledger[hash])
    {
      hide Inv, Run, ParsePayment, RowPayment, CreateStep, SubmitStep, ReconcileStep, IncludeStep;
      ghost var s0 := Contents();
      Interleave(h, gap);
      GapThenStep(s0, gap, Query(h, current));
      InFlight(Contents(), h);
      status := if current && hash in ledger then Outcome(ledger[hash]) else Pending;
      MoveTo(h, Settling(id, hash, status));
    }

    /** The update of `settle`, after an await. */
    method ApplySettlement(h: nat, id: Id, hash: Hash, status: Status, gap: seq<Action>)
      requires Inv(Contents()) && h in handlers && handlers[h] == Settling(id, hash, status) && Others(Owner, gap, h)
      modifies this
      ensures Contents() == Run(Step, old(Contents()), gap + [Advance(h)]) && Inv(Contents())
      ensures h in handlers && handlers[h] == Reading(id, status)
    {
      hide Inv, Run, ParsePayment, RowPayment, CreateStep, SubmitStep, ReconcileStep, IncludeStep;
      ghost var s0 := Contents();
      Interleave(h, gap);
      GapThenStep(s0, gap, Advance(h));
      InFlight(Contents(), h);
      SettlePending(id, hash, status);
      MoveTo(h, Reading(id, status));
    }

    /** The read that ends `settle`. */
    method ReadBack(h: nat, id: Id, status: Status, gap: seq<Action>) returns (row: Row)
      requires Inv(Contents()) && h in handlers && handlers[h] == Reading(id, status) && Others(Owner, gap, h)
      modifies this
      ensures Contents() == Run(Step, old(Contents()), gap + [Advance(h)]) && Inv(Contents())
      ensures h in handlers && handlers[h] == Done(Ok((id, row)))
      ensures id in rows && rows[id] == row && (status != Pending ==> row.status == status)
    {
      hide Inv, Run, ParsePayment, RowPayment, CreateStep, SubmitStep, ReconcileStep, IncludeStep;
      ghost var s0 := Contents();
      Interleave(h, gap);
      GapThenStep(s0, gap, Advance(h));
      InFlight(Contents(), h);
      row := rows[id];
      MoveTo(h, Done(Ok((id, row))));
    }

    /** `settle(id, hash, await verifyTransaction(hash))`: query, update, read. */
    method VerifyAndSettle(h: nat, id: Id, hash: Hash, current: bool, gaps: seq<seq<Action>>)
      returns (row: Row, ghost trace: seq<Action>)
      requires Inv(Contents()) && h in handlers && handlers[h] == Verifying(id, hash)
      requires |gaps| == 3 && forall g :: g in gaps ==> Others(Owner, g, h)
      modifies this
      ensures Contents() == Run(Step, old(Contents()), trace) && Inv(Contents())
      ensures trace == gaps[0] + [Query(h, current)] + (gaps[1] + [Advance(h)]) + (gaps[2] + [Advance(h)])
      ensures h in handlers && handlers[h] == Done(Ok((id, row)))
      ensures id in rows && rows[id] == row && row.hash == Some(hash)
      ensures row.status != Pending ==> hash in ledger && row.status == Outcome(ledger[hash])
      ensures current && hash in old(ledger) ==> row.status == Outcome(old(ledger)[hash])
    {
      hide Inv, Run, Step, Bound;
      ghost var s0 := Contents();
      assert Bound(s0, id, hash) by { VerifyingBound(s0, h); }
      var status := VerifyTransaction(h, id, hash, current, gaps[0]);
      trace := gaps[0] + [Query(h, current)];
      BoundStays(s0, trace, id, hash);
      ApplySettlement(h, id, hash, status, gaps[1]);
      RunConcat(Step, s0, trace, gaps[1] + [Advance(h)]);
      trace := trace + (gaps[1] + [Advance(h)]);
      row := ReadBack(h, id, status, gaps[2]);
      RunConcat(Step, s0, trace, gaps[2] + [Advance(h)]);
      trace := trace + (gaps[2] + [Advance(h)]);
      BoundStays(s0, trace, id, hash);
      BoundRow(Contents(), id, hash);
      if row.status != Pending {
        SettledTruth(Contents(), id, hash);
      }
    }

    /** The first read of `reconcile`: an unbound or settled intent is answered at once. */
    method StartReconcile(h: nat, id: Id) returns (r: Result<Row, Fault>)
      requires Inv(Contents()) && h !in handlers
      modifies this
      ensures Contents() == Step(old(Contents()), Action.Reconcile(h, id)) && Inv(Contents())
      ensures r.Ok? <==> id in old(rows)
      ensures r.Err? ==> r.error == NotFound
      ensures r.Ok? ==> r.value == old(rows)[id] && rows == old(rows) && ledger == old(ledger)
      ensures h in handlers
      ensures handlers[h] == if r.Err? then Done(Err(r.error))
                             else if r.value.hash.None? || r.value.status != Pending then Done(Ok((id, r.value)))
                             else Verifying(id, r.value.hash.value)
    {
      hide Inv, Evolves;
      ReconcileKeepsInv(Contents(), h, id);
      if id !in rows {
        MoveTo(h, Done(Err(NotFound)));
        return Err(NotFound);
      }
      var row := rows[id];
      if row.hash.None? || row.status != Pending {
        MoveTo(h, Done(Ok((id, row))));
      } else {
        MoveTo(h, Verifying(id, row.hash.value));
      }
      return Ok(row);
    }

    /**
     `reconcile`.  Whatever other calls do meanwhile, one reconcile with a current answer brings an
     intent whose transaction is in the ledger to that transaction's outcome.
     */
    method Reconcile(h: nat, id: Id, current: bool, gaps: seq<seq<Action>>)
      returns (r: Result<(Id, Row), Fault>, ghost trace: seq<Action>)
      requires Inv(Contents()) && h !in handlers
      requires |gaps| == 3 && forall g :: g in gaps ==> Others(Owner, g, h)
      modifies this
      ensures Contents() == Run(Step, old(Contents()), trace) && Inv(Contents())
      ensures h in handlers && handlers[h] == Done(r)
      ensures r.Ok? <==> id in old(rows)
      ensures r.Err? ==> r.error == NotFound
      ensures r.Ok? ==> r.value.0 == id && id in rows && rows[id] == r.value.1
      ensures r.Ok? && r.value.1.status != Pending ==> && r.value.1.hash.Some? && r.value.1.hash.value in ledger
                                                        && r.value.1.status == Outcome(ledger[r.value.1.hash.value])
      ensures && id in old(rows) && old(rows)[id].hash.Some? && current
              && old(rows)[id].hash.value in old(ledger) ==>
                rows[id].status == Outcome(old(ledger)[old(rows)[id].hash.value])
    {
      hide Inv, Run, Step;
      ghost var s0 := Contents();
      var started := StartReconcile(h, id);
      trace := [Action.Reconcile(h, id)];
      RunOne(Step, s0, Action.Reconcile(h, id));
      if started.Err? {
        return Err(started.error), trace;
      }
      var row := started.value;
      if row.hash.None? || row.status != Pending {
        if row.status != Pending {
          SettledHasHash(s0, id);
          SettledTruth(s0, id, row.hash.value);
        }
        return Ok((id, row)), trace;
      }
      ghost var rest: seq<Action>;
      row, rest := VerifyAndSettle(h, id, row.hash.value, current, gaps);
      RunConcat(Step, s0, trace, rest);
      return Ok((id, row)), trace + rest;
    }

    // --- submit ---

    /** The read and first check of `submit`. */
    method StartSubmit(h: nat, id: Id, xdr: Envelope) returns (r: Result<NativePayment, Fault>)
      requires Inv(Contents()) && h !in handlers
      modifies this
      ensures Contents() == Step(old(Contents()), Action.Submit(h, id, xdr)) && Inv(Contents())
      ensures r.Ok? <==> id in old(rows) && ParsePayment(xdr, Some(RowPayment(old(rows)[id]))).Ok?
      ensures rows == old(rows) && ledger == old(ledger) && h in handlers
      ensures r.Ok? ==> handlers[h] == Claiming(id, xdr, r.value) && r.value == RowPayment(rows[id]) && xdr.Signed?
      ensures r.Err? ==> handlers[h] == Done(Err(r.error))
      ensures r.Err? ==> r.error == if id in old(rows) then Rejected(ParsePayment(xdr, Some(RowPayment(old(rows)[id]))).error)
                                    else NotFound
    {
      hide Inv, RowPayment, ParsePayment, Evolves, PaysExactly;
      SubmitKeepsInv(Contents(), h, id, xdr);
      if id !in rows {
        MoveTo(h, Done(Err(NotFound)));
        return Err(NotFound);
      }
      var payment := RowPayment(rows[id]);
      var parsed := ParsePayment(xdr, Some(payment));
      if parsed.Err? {
        MoveTo(h, Done(Err(Rejected(parsed.error))));
        return Err(Rejected(parsed.error));
      }
      ParsedPays(xdr, payment);
      MoveTo(h, Claiming(id, xdr, payment));
      return Ok(payment);
    }

    /** The bind of `submit`, after an await: the hash is stored before anything is sent. */
    method BindHash(h: nat, id: Id, xdr: Envelope, payment: NativePayment, gap: seq<Action>) returns (r: Result<Row, Fault>)
      requires Inv(Contents()) && h in handlers && handlers[h] == Claiming(id, xdr, payment) && Others(Owner, gap, h)
      requires xdr.Signed?
      modifies this
      ensures Contents() == Run(Step, old(Contents()), gap + [Advance(h)]) && Inv(Contents())
      ensures h in handlers && id in rows
      ensures r.Ok? ==> Bound(Contents(), id, HashOf(xdr.tx)) && r.value == rows[id]
      ensures r.Ok? ==> handlers[h] == if r.value.status != Pending then Done(Ok((id, r.value)))
                                       else Broadcasting(id, xdr, payment)
      ensures r.Err? ==> r.error == Conflict
      ensures r.Err? ==> handlers[h] == Done(Err(r.error)) && ClaimHash(Contents(), id, HashOf(xdr.tx)).Err?
    {
      hide Inv, Run, ParsePayment, RowPayment, CreateStep, SubmitStep, ReconcileStep, IncludeStep;
      ghost var s0 := Contents();
      Interleave(h, gap);
      GapThenStep(s0, gap, Advance(h));
      InFlight(Contents(), h);
      var claimed := ClaimRow(id, HashOf(xdr.tx));
      if claimed.Err? {
        MoveTo(h, Done(Err(Conflict)));
        return Err(Conflict);
      }
      var row := claimed.value;
      MoveTo(h, if row.status != Pending then Done(Ok((id, row))) else Broadcasting(id, xdr, payment));
      return Ok(row);
    }

    /** The broadcast of `submitSignedTransaction`: its second check passes, and the transport's answer is ignored. */
    method Send(h: nat, id: Id, xdr: Envelope, payment: NativePayment, gap: seq<Action>)
      requires Inv(Contents()) && h in handlers && handlers[h] == Broadcasting(id, xdr, payment) && Others(Owner, gap, h)
      requires xdr.Signed?
      modifies this
      ensures Contents() == Run(Step, old(Contents()), gap + [Advance(h)]) && Inv(Contents())
      ensures h in handlers && handlers[h] == Verifying(id, HashOf(xdr.tx))
      ensures Bound(Contents(), id, HashOf(xdr.tx))
      ensures |broadcasts| > 0 && broadcasts[|broadcasts| - 1] == Broadcast(id, HashOf(xdr.tx))
    {
      hide Inv, Run, ParsePayment, RowPayment, CreateStep, SubmitStep, ReconcileStep, IncludeStep, AdvanceStep;
      ghost var s0 := Contents();
      Interleave(h, gap);
      GapThenStep(s0, gap, Advance(h));
      InFlight(Contents(), h);
      BroadcastSends(Contents(), h);
      broadcasts := broadcasts + [Broadcast(id, HashOf(xdr.tx))];
      MoveTo(h, Verifying(id, HashOf(xdr.tx)));
    }

    /**
     `submit`.  It succeeds exactly when the envelope passes the check for the intent and the intent
     ends up bound to it; so of several concurrent envelopes at most one is accepted, and sending the
     accepted one again always succeeds.
     */
    method Submit(h: nat, id: Id, xdr: Envelope, current: bool, bindGap: seq<Action>, sendGap: seq<Action>, gaps: seq<seq<Action>>)
      returns (r: Result<(Id, Row), Fault>, ghost trace: seq<Action>)
      requires Inv(Contents()) && h !in handlers && Others(Owner, bindGap, h) && Others(Owner, sendGap, h)
      requires |gaps| == 3 && forall g :: g in gaps ==> Others(Owner, g, h)
      modifies this
      ensures Contents() == Run(Step, old(Contents()), trace) && Inv(Contents())
      ensures h in handlers && handlers[h] == Done(r)
      ensures r.Ok? <==> && id in old(rows) && ParsePayment(xdr, Some(RowPayment(old(rows)[id]))).Ok?
                         && xdr.Signed? && Bound(Contents(), id, HashOf(xdr.tx))
      ensures r == Err(NotFound) <==> id !in old(rows)
      ensures id in old(rows) ==>
                var parsed := ParsePayment(xdr, Some(RowPayment(old(rows)[id])));
                if parsed.Err? then r == Err(Rejected(parsed.error)) else r.Err? ==> r.error == Conflict
      ensures r.Ok? ==> r.value.0 == id && rows[id] == r.value.1
      ensures r.Ok? && r.value.1.status != Pending ==> && HashOf(xdr.tx) in ledger
                                                        && r.value.1.status == Outcome(ledger[HashOf(xdr.tx)])
      ensures r.Ok? && current && HashOf(xdr.tx) in old(ledger) ==>
                r.value.1.status == Outcome(old(ledger)[HashOf(xdr.tx)])
    {
      hide Inv, Run, Step, ParsePayment, RowPayment, Bound, ClaimHash;
      ghost var s0 := Contents();
      var started := StartSubmit(h, id, xdr);
      trace := [Action.Submit(h, id, xdr)];
      RunOne(Step, s0, Action.Submit(h, id, xdr));
      if started.Err? {
        return Err(started.error), trace;
      }
      ghost var s1 := Contents();
      var claimed := BindHash(h, id, xdr, started.value, bindGap);
      RunConcat(Step, s0, trace, bindGap + [Advance(h)]);
      trace := trace + (bindGap + [Advance(h)]);
      LedgerStays(s0, trace, HashOf(xdr.tx));
      if claimed.Err? {
        RefusedNow(Contents(), id, HashOf(xdr.tx));
        return Err(claimed.error), trace;
      }
      if claimed.value.status != Pending {
        BoundRow(Contents(), id, HashOf(xdr.tx));
        SettledTruth(Contents(), id, HashOf(xdr.tx));
        return Ok((id, claimed.value)), trace;
      }
      Send(h, id, xdr, started.value, sendGap);
      RunConcat(Step, s0, trace, sendGap + [Advance(h)]);
      trace := trace + (sendGap + [Advance(h)]);
      LedgerStays(s0, trace, HashOf(xdr.tx));
      ghost var rest: seq<Action>;
      var row;
      row, rest := VerifyAndSettle(h, id, HashOf(xdr.tx), current, gaps);
      RunConcat(Step, s0, trace, rest);
      BoundRow(Contents(), id, HashOf(xdr.tx));
      return Ok((id, row)), trace + rest;
    }
  }

  // ----- The in-memory store -------------------------------------------------------------

  /** An intent as the map keeps it: the request's own text, where a row keeps a number. */
  datatype Intent = Intent(input: NativePayment, key: string, status: Status, hash: Option<Hash>)

  /** The row a database would hold for it. */
  function StoredRow(i: Intent): Row
    requires IsAmount(i.input.amount)
  {
    NewRow(i.input, i.key).(status := i.status, hash := i.hash)
  }

  ghost predicate Mirrors(intents: map<Id, Intent>, rows: map<Id, Row>) {
    && intents.Keys == rows.Keys
    && forall id :: id in intents ==> IsAmount(intents[id].input.amount) && rows[id] == StoredRow(intents[id])
  }

  lemma StoredFields(i: Intent)
    requires IsAmount(i.input.amount)
    ensures StoredRow(i).key == i.key && StoredRow(i).status == i.status && StoredRow(i).hash == i.hash
  {
  }

  lemma MirroredFields(intents: map<Id, Intent>, rows: map<Id, Row>)
    requires Mirrors(intents, rows)
    ensures intents.Keys == rows.Keys
    ensures forall id :: id in intents ==>
              && rows[id].key == intents[id].key && rows[id].status == intents[id].status && rows[id].hash == intents[id].hash
  {
    hide IsAmount, StoredRow;
    forall id | id in intents
      ensures rows[id].key == intents[id].key && rows[id].status == intents[id].status && rows[id].hash == intents[id].hash
    {
      StoredFields(intents[id]);
    }
  }

  lemma MirroredInsert(intents: map<Id, Intent>, rows: map<Id, Row>, id: Id, i: Intent)
    requires Mirrors(intents, rows) && IsAmount(i.input.amount)
    ensures Mirrors(intents[id := i], rows[id := StoredRow(i)])
  {
    hide IsAmount, StoredRow;
  }

  /** Binding and settling an intent is binding and settling its row. */
  lemma MirroredUpdate(intents: map<Id, Intent>, rows: map<Id, Row>, id: Id, status: Status, hash: Option<Hash>)
    requires Mirrors(intents, rows) && id in intents
    ensures Mirrors(intents[id := intents[id].(status := status, hash := hash)],
                    rows[id := rows[id].(status := status, hash := hash)])
  {
    hide IsAmount;
    var i := intents[id].(status := status, hash := hash);
    assert StoredRow(i) == StoredRow(intents[id]).(status := status, hash := hash);
    hide StoredRow;
    MirroredInsert(intents, rows, id, i);
  }

  lemma SavedPayment(i: Intent)
    requires IsAmount(i.input.amount)
    ensures
      var saved := RowPayment(StoredRow(i));
      && saved.sender == i.input.sender && saved.recipient == i.input.recipient && saved.asset == i.input.asset
      && Stroops(saved.amount) == Stroops(i.input.amount) && MemoText(saved.memo) == MemoText(i.input.memo)
  {
    hide Stroops, RowAmount, ToNumeric, IsAmount;
    RowRoundTrip(i.input.amount);
  }

  /** Text or number, the service decides alike: the same envelopes pass, and the same requests count as repeated. */
  lemma SameDecisions(i: Intent, xdr: Envelope, input: NativePayment)
    requires IsAmount(i.input.amount)
    ensures ParsePayment(xdr, Some(i.input)).Ok? <==> ParsePayment(xdr, Some(RowPayment(StoredRow(i)))).Ok?
    ensures SameRequest(StoredRow(i), input) <==>
            && i.input.sender == input.sender && i.input.recipient == input.recipient && i.input.asset == input.asset
            && Stroops(i.input.amount) == Stroops(input.amount) && MemoText(i.input.memo) == MemoText(input.memo)
  {
    SavedPayment(i);
    hide Stroops, RowPayment, StoredRow, ParsePayment, ValidatePayment;
    var saved := RowPayment(StoredRow(i));
    ParseAccepts(xdr, i.input);
    ParseAccepts(xdr, saved);
    SameRequestValid(saved, i.input);
  }

  /**
   The store without a database: one map, searched where the database has unique indexes.  Against
   any database state that mirrors the map and has sound indexes it gives the same answers, and the
   state after the database statement mirrors the new map.
   */
  class MemoryIntentStore {
    var intents: map<Id, Intent>

    constructor ()
      ensures intents == map[]
    {
      intents := map[];
    }

    /** The first intent under a key, if any. */
    method FindByKey(key: string) returns (found: Option<Id>)
      ensures found.Some? ==> found.value in intents && intents[found.value].key == key
      ensures found.None? ==> forall id :: id in intents ==> intents[id].key != key
    {
      var left := intents.Keys;
      while left != {}
        invariant left <= intents.Keys
        invariant forall id :: id in intents && id !in left ==> intents[id].key != key
        decreases left
      {
        var id :| id in left;
        if intents[id].key == key {
          return Some(id);
        }
        left := left - {id};
      }
      return None;
    }

    /** Whether another intent already holds the hash. */
    method HeldByAnother(id: Id, hash: Hash) returns (held: bool)
      ensures held <==> exists other :: other in intents && other != id && intents[other].hash == Some(hash)
    {
      var left := intents.Keys;
      while left != {}
        invariant left <= intents.Keys
        invariant forall other :: other in intents && other !in left ==> other == id || intents[other].hash != Some(hash)
        decreases left
      {
        var other :| other in left;
        if other != id && intents[other].hash == Some(hash) {
          return true;
        }
        left := left - {other};
      }
      return false;
    }

    /** `createIntent`, with a UUID not in use. */
    method CreateIntent(ghost s: State, id: Id, intent: Intent) returns (known: Id)
      requires Mirrors(intents, s.rows) && KeysSound(s) && id !in s.rows && IsAmount(intent.input.amount)
      modifies this
      ensures InsertIntent(s, id, StoredRow(intent)).Ok? && known == InsertIntent(s, id, StoredRow(intent)).value.1
      ensures Mirrors(intents, InsertIntent(s, id, StoredRow(intent)).value.0.rows) && known in intents
      ensures intents == if known == id then old(intents)[id := intent] else old(intents)
    {
      hide IsAmount, StoredRow, Mirrors;
      StoredFields(intent);
      MirroredFields(intents, s.rows);
      MirroredInsert(intents, s.rows, id, intent);
      var existing := FindByKey(intent.key);
      if existing.Some? {
        return existing.value;
      }
      intents := intents[id := intent];
      return id;
    }

    /** `claimHash` of a stored intent. */
    method ClaimIntent(ghost s: State, id: Id, hash: Hash) returns (r: Result<Intent, Fault>)
      requires Mirrors(intents, s.rows) && HashesSound(s) && id in s.rows
      modifies this
      ensures r.Ok? <==> ClaimHash(s, id, hash).Ok?
      ensures r.Ok? ==> Mirrors(intents, ClaimHash(s, id, hash).value.rows)
      ensures r.Ok? ==> intents == old(intents)[id := r.value] && r.value == old(intents)[id].(hash := Some(hash))
      ensures r.Err? ==> r.error == Conflict && intents == old(intents)
    {
      hide IsAmount, StoredRow, Mirrors;
      MirroredFields(intents, s.rows);
      MirroredUpdate(intents, s.rows, id, intents[id].status, Some(hash));
      var intent := intents[id];
      if intent.hash.Some? && intent.hash != Some(hash) {
        return Err(Conflict);
      }
      var held := HeldByAnother(id, hash);
      if held {
        return Err(Conflict);
      }
      intents := intents[id := intent.(hash := Some(hash))];
      return Ok(intents[id]);
    }

    /** `settle` of a stored intent: a foreign hash is refused aloud where the database updates nothing. */
    method Settle(ghost s: State, id: Id, hash: Hash, status: Status) returns (r: Result<Intent, Fault>)
      requires Mirrors(intents, s.rows) && id in s.rows
      modifies this
      ensures Mirrors(intents, SettleRow(s, id, hash, status).rows) && id in intents
      ensures r == if Bound(s, id, hash) then Ok(intents[id]) else Err(Conflict)
      ensures intents == old(intents)[id := old(intents)[id].(status := intents[id].status)]
    {
      hide IsAmount, StoredRow, Mirrors;
      MirroredFields(intents, s.rows);
      MirroredUpdate(intents, s.rows, id, status, intents[id].hash);
      var intent := intents[id];
      if intent.hash != Some(hash) {
        return Err(Conflict);
      }
      if intent.status != Pending {
        return Ok(intent);
      }
      intents := intents[id := intent.(status := status)];
      return Ok(intents[id]);
    }
  }

  lemma KeysKnown(s: State)
    requires Inv(s)
    ensures forall key :: key in s.keys ==> s.keys[key] in s.rows
  {
    hide RowsSound, HashesSound, BroadcastsSound, HandlerSound;
  }

  lemma VerifyingBound(s: State, h: nat)
    requires Inv(s) && h in s.handlers && s.handlers[h].Verifying?
    ensures Bound(s, s.handlers[h].id, s.handlers[h].hash)
  {
    assert HandlerSound(s, s.handlers[h]);
  }

  lemma BoundRow(s: State, id: Id, hash: Hash)
    ensures Bound(s, id, hash) <==> id in s.rows && s.rows[id].hash == Some(hash)
  {
  }

  lemma SettledHasHash(s: State, id: Id)
    requires Inv(s) && id in s.rows && s.rows[id].status != Pending
    ensures s.rows[id].hash.Some? && Bound(s, id, s.rows[id].hash.value)
  {
    hide ValidatePayment, PaysExactly, RowPayment, KeysSound, HashesSound, BroadcastsSound, HandlerSound;
    assert RowSound(s.rows[id], s.ledger);
  }

  lemma RefusedNow(s: State, id: Id, hash: Hash)
    requires Inv(s) && id in s.rows && ClaimHash(s, id, hash).Err?
    ensures !Bound(s, id, hash)
  {
    hide Inv, ClaimHash, Bound;
    RefusedClaimIsFinal(s, [], id, hash);
  }

  lemma LedgerStays(s: State, actions: seq<Action>, hash: Hash)
    requires Inv(s)
    ensures hash in s.ledger ==> hash in Run(Step, s, actions).ledger && Run(Step, s, actions).ledger[hash] == s.ledger[hash]
  {
    hide Inv, Run;
    RunKeepsInv(s, actions);
  }
}
