/**
 Payment intents: any number of server instances create, submit and reconcile intents against one
 database, one append-only ledger and a Horizon server whose answers may lag.  Every database
 statement, broadcast and ledger query is one atomic step; a call in flight is a program counter
 with the values its code holds, and may vanish at any point.
 */
module Intents {
  import opened Wrappers
  import opened Runs
  import opened Amounts
  import opened Payments

  type Id = nat  // the UUID of an intent

  datatype Status = Pending | Succeeded | Failed

  /** The hash of a transaction, as a free constructor: different transactions never share one. */
  datatype Hash = HashOf(tx: Tx)

  /** A row of the table; the amount is the NUMERIC(30,12) value in units of 10^-12. */
  datatype Row = Row(key: string, sender: Address, recipient: Address, amount: nat, asset: string,
                     memo: Option<string>, status: Status, hash: Option<Hash>)

  datatype Fault = Conflict | NotFound | Rejected(error: Error)

  /** An envelope handed to Horizon on behalf of an intent. */
  datatype Broadcast = Broadcast(id: Id, hash: Hash)

  datatype Handler =
    | Claiming(id: Id, xdr: Envelope, payment: NativePayment)
    | Broadcasting(id: Id, xdr: Envelope, payment: NativePayment)
    | Verifying(id: Id, hash: Hash)
    | Settling(id: Id, hash: Hash, answer: Status)
    | Reading(id: Id, answer: Status)
    | Done(result: Result<(Id, Row), Fault>)

  /** The table with its two unique indexes, the calls in flight, the ledger, and the history of broadcasts. */
  datatype State = State(rows: map<Id, Row>, keys: map<string, Id>, hashes: map<Hash, Id>,
                         handlers: map<nat, Handler>, ledger: map<Hash, bool>, broadcasts: seq<Broadcast>)

  datatype Action =
    | Create(h: nat, input: NativePayment, key: string, id: Id)
    | Submit(h: nat, id: Id, xdr: Envelope)
    | Reconcile(h: nat, id: Id)
    | Query(h: nat, current: bool)
    | Advance(h: nat)
    | Crash(h: nat)
    | Include(h: nat, tx: Tx, success: bool)

  // ----- Rows ----------------------------------------------------------------------------

  /** The row converter `intent`, as far as the payment goes. */
  function RowPayment(row: Row): NativePayment {
    NativePayment(row.sender, row.recipient, RowAmount(row.amount), row.asset,
                  if MemoText(row.memo) == "" then None else row.memo)
  }

  function NewRow(input: NativePayment, key: string): Row
    requires IsAmount(input.amount)
  {
    Row(key, input.sender, input.recipient, ToNumeric(input.amount), input.asset, input.memo, Pending, None)
  }

  /** The white space and line terminators that `trim` removes. */
  predicate IsSpace(c: char) {
    || c in {' ', '\t', '\n', '\r', '\U{000B}', '\U{000C}', '\U{00A0}', '\U{FEFF}'}
    || c in {'\U{1680}', '\U{2028}', '\U{2029}', '\U{202F}', '\U{205F}', '\U{3000}'}
    || '\U{2000}' <= c <= '\U{200A}'
  }

  function TrimStart(s: string): string {
    if s != "" && IsSpace(s[0]) then TrimStart(s[1..]) else s
  }

  function TrimEnd(s: string): string {
    if s != "" && IsSpace(s[|s| - 1]) then TrimEnd(s[..|s| - 1]) else s
  }

  /** `length`: characters beyond the basic plane are two code units. */
  function Utf16Length(s: string): nat {
    if s == "" then 0 else (if s[0] as int < 0x1_0000 then 1 else 2) + Utf16Length(s[1..])
  }

  /** `key.trim()` is not empty and `key.length` is at most 200. */
  predicate ValidKey(key: string) {
    TrimEnd(TrimStart(key)) != "" && Utf16Length(key) <= 200
  }

  /** The saved row is the same request: the check behind "key reused with different details". */
  predicate SameRequest(row: Row, input: NativePayment) {
    var saved := RowPayment(row);
    && saved.sender == input.sender && saved.recipient == input.recipient && saved.asset == input.asset
    && Stroops(saved.amount) == Stroops(input.amount)
    && MemoText(saved.memo) == MemoText(input.memo)
  }

  predicate AllSpace(s: string) {
    forall i :: 0 <= i < |s| ==> IsSpace(s[i])
  }

  lemma AllSpaceParts(s: string)
    requires s != ""
    ensures AllSpace(s) <==> IsSpace(s[0]) && AllSpace(s[1..])
    ensures AllSpace(s) <==> IsSpace(s[|s| - 1]) && AllSpace(s[..|s| - 1])
  {
    hide IsSpace;
    assert s == [s[0]] + s[1..] && s == s[..|s| - 1] + [s[|s| - 1]];
    assert forall i :: 1 <= i < |s| ==> s[i] == s[1..][i - 1];
    assert forall i :: 0 <= i < |s| - 1 ==> s[i] == s[..|s| - 1][i];
  }

  lemma {:induction false} TrimEndBlank(s: string)
    ensures TrimEnd(s) == "" <==> AllSpace(s)
  {
    hide IsSpace;
    if s != "" {
      AllSpaceParts(s);
      if IsSpace(s[|s| - 1]) {
        TrimEndBlank(s[..|s| - 1]);
      }
    }
  }

  lemma {:induction false} TrimStartBlank(s: string)
    ensures AllSpace(TrimStart(s)) <==> AllSpace(s)
  {
    hide IsSpace;
    if s != "" && IsSpace(s[0]) {
      AllSpaceParts(s);
      TrimStartBlank(s[1..]);
    }
  }

  lemma {:induction false} Utf16Bounds(s: string)
    ensures |s| <= Utf16Length(s) <= 2 * |s|
    ensures (forall i :: 0 <= i < |s| ==> s[i] as int < 0x1_0000) ==> Utf16Length(s) == |s|
    ensures (forall i :: 0 <= i < |s| ==> s[i] as int >= 0x1_0000) ==> Utf16Length(s) == 2 * |s|
  {
    if s != "" {
      Utf16Bounds(s[1..]);
      assert forall i :: 0 <= i < |s| - 1 ==> s[1..][i] == s[i + 1];
    }
  }

  /**
   Which idempotency keys are usable: those with a character that is not white space, and with at
   most 200 characters, of which those beyond the basic plane count twice.
   */
  lemma ValidKeyMeans(key: string)
    ensures ValidKey(key) <==> (exists i :: 0 <= i < |key| && !IsSpace(key[i])) && Utf16Length(key) <= 200
    ensures ValidKey(key) ==> 1 <= |key| <= 200
    ensures (exists i :: 0 <= i < |key| && !IsSpace(key[i])) && |key| <= 100 ==> ValidKey(key)
    ensures (exists i :: 0 <= i < |key| && !IsSpace(key[i])) && (forall i :: 0 <= i < |key| ==> key[i] as int < 0x1_0000) ==>
              (ValidKey(key) <==> |key| <= 200)
  {
    TrimStartBlank(key);
    TrimEndBlank(TrimStart(key));
    Utf16Bounds(key);
    hide IsSpace, TrimStart, TrimEnd, Utf16Length;
  }

  // ----- Database statements -------------------------------------------------------------

  /** INSERT ... ON CONFLICT (idempotency_key) ... RETURNING: the row under the key, new or old. */
  function InsertIntent(s: State, id: Id, row: Row): Result<(State, Id), Fault> {
    if row.key in s.keys then Ok((s, s.keys[row.key]))
    else if id in s.rows then Err(Conflict)
    else Ok((s.(rows := s.rows[id := row], keys := s.keys[row.key := id]), id))
  }

  /** UPDATE ... SET transaction_hash WHERE id AND (hash IS NULL OR hash = $2), under the unique hash index. */
  function ClaimHash(s: State, id: Id, hash: Hash): Result<State, Fault> {
    if id !in s.rows || (s.rows[id].hash.Some? && s.rows[id].hash != Some(hash)) then Err(Conflict)
    else if hash in s.hashes && s.hashes[hash] != id then Err(Conflict)
    else Ok(s.(rows := s.rows[id := s.rows[id].(hash := Some(hash))], hashes := s.hashes[hash := id]))
  }

  /** UPDATE ... SET status WHERE id AND transaction_hash = $2 AND status = 'PENDING'. */
  function SettleRow(s: State, id: Id, hash: Hash, status: Status): State {
    if id in s.rows && s.rows[id].hash == Some(hash) && s.rows[id].status == Pending
    then s.(rows := s.rows[id := s.rows[id].(status := status)])
    else s
  }

  // ----- Steps ---------------------------------------------------------------------------

  function SetHandler(s: State, h: nat, p: Handler): State {
    s.(handlers := s.handlers[h := p])
  }

  function FindResult(s: State, id: Id): Result<(Id, Row), Fault> {
    if id in s.rows then Ok((id, s.rows[id])) else Err(NotFound)
  }

  function CreateStep(s: State, h: nat, input: NativePayment, key: string, id: Id): State {
    if h in s.handlers then s
    else if ValidatePayment(input).Err? then SetHandler(s, h, Done(Err(Rejected(ValidatePayment(input).error))))
    else if !ValidKey(key) then SetHandler(s, h, Done(Err(Conflict)))
    else
      match InsertIntent(s, id, NewRow(input, key)) {
        case Err(e) => SetHandler(s, h, Done(Err(e)))
        case Ok(saved) =>
          var (t, known) := saved;
          SetHandler(t, h, if known in t.rows && SameRequest(t.rows[known], input) then Done(FindResult(t, known))
                           else Done(Err(Conflict)))
      }
  }

  function SubmitStep(s: State, h: nat, id: Id, xdr: Envelope): State {
    if h in s.handlers then s
    else if id !in s.rows then SetHandler(s, h, Done(Err(NotFound)))
    else
      var payment := RowPayment(s.rows[id]);
      match ParsePayment(xdr, Some(payment)) {
        case Err(e) => SetHandler(s, h, Done(Err(Rejected(e))))
        case Ok(_) => SetHandler(s, h, Claiming(id, xdr, payment))
      }
  }

  function ReconcileStep(s: State, h: nat, id: Id): State {
    if h in s.handlers then s
    else if id !in s.rows then SetHandler(s, h, Done(Err(NotFound)))
    else
      var row := s.rows[id];
      if row.hash.None? || row.status != Pending then SetHandler(s, h, Done(Ok((id, row))))
      else SetHandler(s, h, Verifying(id, row.hash.value))
  }

  /** `verifyTransaction`: an up-to-date answer reports inclusion, anything else is PENDING. */
  function LedgerAnswer(s: State, hash: Hash, current: bool): Status {
    if current && hash in s.ledger then (if s.ledger[hash] then Succeeded else Failed) else Pending
  }

  function QueryStep(s: State, h: nat, current: bool): State {
    if h in s.handlers && s.handlers[h].Verifying? then
      var p := s.handlers[h];
      SetHandler(s, h, Settling(p.id, p.hash, LedgerAnswer(s, p.hash, current)))
    else s
  }

  function AdvanceStep(s: State, h: nat, p: Handler): State {
    match p {
      case Claiming(id, xdr, payment) =>
        if !xdr.Signed? then s
        else
          (match ClaimHash(s, id, HashOf(xdr.tx)) {
             case Err(e) => SetHandler(s, h, Done(Err(e)))
             case Ok(t) =>
               SetHandler(t, h, if id in t.rows && t.rows[id].status != Pending then Done(FindResult(t, id))
                                else Broadcasting(id, xdr, payment))
           })
      case Broadcasting(id, xdr, payment) =>
        (match ParsePayment(xdr, Some(payment)) {
           case Err(e) => SetHandler(s, h, Done(Err(Rejected(e))))
           case Ok(tx) =>
             if tx.source != payment.sender then SetHandler(s, h, Done(Err(Rejected(SourceMismatch))))
             else SetHandler(s.(broadcasts := s.broadcasts + [Broadcast(id, HashOf(tx))]), h, Verifying(id, HashOf(tx)))
         })
      case Verifying(_, _) => s
      case Settling(id, hash, answer) => SetHandler(SettleRow(s, id, hash, answer), h, Reading(id, answer))
      case Reading(id, _) => SetHandler(s, h, Done(FindResult(s, id)))
      case Done(_) => s
    }
  }

  function IncludeStep(s: State, tx: Tx, success: bool): State {
    if HashOf(tx) in s.ledger then s else s.(ledger := s.ledger[HashOf(tx) := success])
  }

  function Step(s: State, a: Action): State {
    match a {
      case Create(h, input, key, id) => CreateStep(s, h, input, key, id)
      case Submit(h, id, xdr) => SubmitStep(s, h, id, xdr)
      case Reconcile(h, id) => ReconcileStep(s, h, id)
      case Query(h, current) => QueryStep(s, h, current)
      case Advance(h) => if h in s.handlers then AdvanceStep(s, h, s.handlers[h]) else s
      case Crash(h) => s.(handlers := s.handlers - {h})
      case Include(_, tx, success) => IncludeStep(s, tx, success)
    }
  }

  /** The call a step belongs to. */
  function Owner(a: Action): nat {
    a.h
  }

  // ----- The invariant -------------------------------------------------------------------

  /** A row holds a valid payment, pays exactly what its bound transaction pays, and tells the truth about it. */
  ghost predicate RowSound(row: Row, ledger: map<Hash, bool>) {
    && ValidatePayment(RowPayment(row)).Ok?
    && (row.hash.Some? ==> PaysExactly(row.hash.value.tx, RowPayment(row)))
    && (row.status != Pending ==>
          row.hash.Some? && row.hash.value in ledger && (ledger[row.hash.value] <==> row.status == Succeeded))
  }

  ghost predicate RowsSound(s: State) {
    forall id :: id in s.rows ==> RowSound(s.rows[id], s.ledger)
  }

  ghost predicate KeysSound(s: State) {
    && (forall id :: id in s.rows ==> s.rows[id].key in s.keys && s.keys[s.rows[id].key] == id)
    && (forall key :: key in s.keys ==> s.keys[key] in s.rows && s.rows[s.keys[key]].key == key)
  }

  ghost predicate HashesSound(s: State) {
    && (forall id :: id in s.rows && s.rows[id].hash.Some? ==>
          s.rows[id].hash.value in s.hashes && s.hashes[s.rows[id].hash.value] == id)
    && (forall hash :: hash in s.hashes ==> s.hashes[hash] in s.rows && s.rows[s.hashes[hash]].hash == Some(hash))
  }

  ghost predicate Bound(s: State, id: Id, hash: Hash) {
    id in s.rows && s.rows[id].hash == Some(hash)
  }

  ghost predicate BroadcastsSound(s: State) {
    forall i :: 0 <= i < |s.broadcasts| ==> Bound(s, s.broadcasts[i].id, s.broadcasts[i].hash)
  }

  /** What a call in flight knows at each point. */
  ghost predicate HandlerSound(s: State, p: Handler) {
    match p {
      case Claiming(id, xdr, payment) =>
        id in s.rows && payment == RowPayment(s.rows[id]) && ParsePayment(xdr, Some(payment)).Ok?
      case Broadcasting(id, xdr, payment) =>
        && xdr.Signed? && Bound(s, id, HashOf(xdr.tx)) && payment == RowPayment(s.rows[id])
        && ParsePayment(xdr, Some(payment)).Ok?
      case Verifying(id, hash) => Bound(s, id, hash)
      case Settling(id, hash, answer) =>
        && Bound(s, id, hash)
        && (answer != Pending ==> hash in s.ledger && (s.ledger[hash] <==> answer == Succeeded))
      case Reading(id, answer) => id in s.rows && (answer != Pending ==> s.rows[id].status == answer)
      case Done(result) =>
        result.Ok? ==>
          && result.value.0 in s.rows && RowPayment(result.value.1) == RowPayment(s.rows[result.value.0])
          && (result.value.1.status != Pending ==> result.value.1 == s.rows[result.value.0])
    }
  }

  ghost predicate Inv(s: State) {
    && RowsSound(s) && KeysSound(s) && HashesSound(s) && BroadcastsSound(s)
    && (forall h :: h in s.handlers ==> HandlerSound(s, s.handlers[h]))
  }

  /** Details and bindings never change, settled rows never change, ledger entries never change. */
  ghost predicate RowEvolves(a: Row, b: Row) {
    && b == a.(status := b.status, hash := b.hash)
    && (a.hash.Some? ==> b.hash == a.hash)
    && (a.status != Pending ==> b.status == a.status)
    && (a.status != Pending && a.hash.Some? ==> b == a)
  }

  ghost predicate LedgerGrows(a: map<Hash, bool>, b: map<Hash, bool>) {
    forall hash :: hash in a ==> hash in b && b[hash] == a[hash]
  }

  ghost predicate Evolves(s: State, t: State) {
    && LedgerGrows(s.ledger, t.ledger)
    && s.broadcasts <= t.broadcasts
    && forall id :: id in s.rows ==> id in t.rows && RowEvolves(s.rows[id], t.rows[id])
  }

  // ----- Rows and payments ---------------------------------------------------------------

  lemma SamePayment(a: Row, b: Row)
    requires RowEvolves(a, b)
    ensures RowPayment(a) == RowPayment(b)
  {
  }

  /** A validated request gives a row that reads back as the same valid payment. */
  lemma NewRowSound(input: NativePayment, key: string, ledger: map<Hash, bool>)
    requires ValidatePayment(input).Ok? && IsAmount(input.amount)
    ensures RowSound(NewRow(input, key), ledger) && SameRequest(NewRow(input, key), input)
  {
    hide Stroops, RowAmount, ToNumeric, IsAmount, ValidatePayment, PaysExactly;
    RowRoundTrip(input.amount);
    SameRequestValid(RowPayment(NewRow(input, key)), input);
  }

  /** Validity looks only at what a saved request is compared by. */
  lemma SameRequestValid(p: NativePayment, q: NativePayment)
    requires p.sender == q.sender && p.recipient == q.recipient && p.asset == q.asset
    requires Stroops(p.amount) == Stroops(q.amount) && MemoText(p.memo) == MemoText(q.memo)
    ensures ValidatePayment(p).Ok? <==> ValidatePayment(q).Ok?
  {
    hide Stroops;
    assert Utf8Length("") == 0;
  }

  /** An envelope that parses for a row pays exactly that row. */
  lemma ParsedPays(xdr: Envelope, p: NativePayment)
    requires ParsePayment(xdr, Some(p)).Ok?
    ensures xdr.Signed? && PaysExactly(xdr.tx, p) && ParsePayment(xdr, Some(p)).value == xdr.tx
    ensures xdr.tx.source == p.sender
  {
    ParseAccepts(xdr, p);
    hide Stroops, ValidatePayment, MatchesPayment, BackendMemoMatches;
  }

  lemma RowSoundGrows(row: Row, a: map<Hash, bool>, b: map<Hash, bool>)
    requires RowSound(row, a) && LedgerGrows(a, b)
    ensures RowSound(row, b)
  {
    hide ValidatePayment, PaysExactly, RowPayment;
  }

  lemma BoundRowSound(row: Row, hash: Hash, ledger: map<Hash, bool>)
    requires RowSound(row, ledger) && PaysExactly(hash.tx, RowPayment(row))
    requires row.hash.Some? ==> row.hash.value == hash
    ensures RowSound(row.(hash := Some(hash)), ledger)
  {
    assert RowPayment(row.(hash := Some(hash))) == RowPayment(row);
    hide ValidatePayment, PaysExactly, RowPayment;
  }

  lemma SettledRowSound(row: Row, hash: Hash, status: Status, ledger: map<Hash, bool>)
    requires RowSound(row, ledger) && row.hash == Some(hash)
    requires status != Pending ==> hash in ledger && (ledger[hash] <==> status == Succeeded)
    ensures RowSound(row.(status := status), ledger)
  {
    assert RowPayment(row.(status := status)) == RowPayment(row);
    hide ValidatePayment, PaysExactly, RowPayment;
  }

  // ----- One step keeps it ---------------------------------------------------------------

  /** A call keeps what it knows while others run. */
  lemma HandlerStable(s: State, t: State, p: Handler)
    requires HandlerSound(s, p) && Evolves(s, t) && RowsSound(s)
    ensures HandlerSound(t, p)
  {
    if p.Done? {
      if p.result.Ok? {
        var id := p.result.value.0;
        SamePayment(s.rows[id], t.rows[id]);
        assert RowSound(s.rows[id], s.ledger);
      }
    } else {
      SamePayment(s.rows[p.id], t.rows[p.id]);
    }
    hide RowPayment, ParsePayment, ValidatePayment, PaysExactly;
  }

  lemma HandlersStable(s: State, t: State, h: nat)
    requires Inv(s) && Evolves(s, t)
    ensures forall k :: k in s.handlers && k != h ==> HandlerSound(t, s.handlers[k])
  {
    forall k | k in s.handlers && k != h ensures HandlerSound(t, s.handlers[k]) {
      HandlerStable(s, t, s.handlers[k]);
    }
  }

  lemma BroadcastsStable(s: State, t: State)
    requires BroadcastsSound(s) && Evolves(s, t) && t.broadcasts == s.broadcasts
    ensures BroadcastsSound(t)
  {
    forall i | 0 <= i < |t.broadcasts| ensures Bound(t, t.broadcasts[i].id, t.broadcasts[i].hash) {
      assert Bound(s, s.broadcasts[i].id, s.broadcasts[i].hash);
    }
  }

  lemma EvolvesWhenTablesSame(s: State, t: State)
    requires t.rows == s.rows && LedgerGrows(s.ledger, t.ledger) && s.broadcasts <= t.broadcasts
    ensures Evolves(s, t)
  {
  }

  /** A step that only moves one call keeps the invariant when the call's new point is sound. */
  lemma MoveKeepsInv(s: State, h: nat, p: Handler)
    requires Inv(s) && HandlerSound(s, p)
    ensures Inv(SetHandler(s, h, p)) && Evolves(s, SetHandler(s, h, p))
  {
    var t := SetHandler(s, h, p);
    hide RowSound, HandlerSound, RowPayment, ParsePayment, Bound;
    EvolvesWhenTablesSame(s, t);
    hide Evolves;
    HandlersStable(s, t, h);
    HandlerStable(s, t, p);
    BroadcastsStable(s, t);
  }

  /** Sound tables and one call's new point make a sound state; the other calls keep what they know. */
  lemma TablesMakeInv(s: State, t: State, h: nat, p: Handler)
    requires Inv(s) && Evolves(s, t) && t.handlers == s.handlers[h := p] && HandlerSound(t, p)
    requires RowsSound(t) && KeysSound(t) && HashesSound(t) && BroadcastsSound(t)
    ensures Inv(t)
  {
    hide RowsSound, KeysSound, HashesSound, BroadcastsSound, HandlerSound, Evolves;
    HandlersStable(s, t, h);
  }

  lemma InsertTables(s: State, t: State, id: Id, row: Row)
    requires RowsSound(s) && KeysSound(s) && HashesSound(s)
    requires id !in s.rows && row.key !in s.keys && row.hash.None? && RowSound(row, s.ledger)
    requires t == s.(rows := s.rows[id := row], keys := s.keys[row.key := id], handlers := t.handlers)
    ensures RowsSound(t) && KeysSound(t) && HashesSound(t) && Evolves(s, t)
  {
    hide RowSound, KeysSound, HashesSound;
    InsertKeys(s, t, id, row);
    InsertHashes(s, t, id, row);
  }

  lemma InsertKeys(s: State, t: State, id: Id, row: Row)
    requires KeysSound(s) && id !in s.rows && row.key !in s.keys
    requires t.rows == s.rows[id := row] && t.keys == s.keys[row.key := id]
    ensures KeysSound(t)
  {
  }

  lemma InsertHashes(s: State, t: State, id: Id, row: Row)
    requires HashesSound(s) && id !in s.rows && row.hash.None?
    requires t.rows == s.rows[id := row] && t.hashes == s.hashes
    ensures HashesSound(t)
  {
  }

  /** A new row under an unused key. */
  lemma InsertKeepsInv(s: State, h: nat, id: Id, row: Row, p: Handler)
    requires Inv(s) && id !in s.rows && row.key !in s.keys && row.hash.None? && RowSound(row, s.ledger)
    requires p == Done(Ok((id, row)))
    ensures
      var t := SetHandler(s.(rows := s.rows[id := row], keys := s.keys[row.key := id]), h, p);
      Inv(t) && Evolves(s, t)
  {
    hide RowSound, RowPayment, ParsePayment;
    var t := SetHandler(s.(rows := s.rows[id := row], keys := s.keys[row.key := id]), h, p);
    InsertTables(s, t, id, row);
    hide KeysSound, HashesSound, RowsSound, Evolves;
    BroadcastsStable(s, t);
    assert HandlerSound(t, p);
    hide HandlerSound;
    TablesMakeInv(s, t, h, p);
  }

  lemma NewRowFields(input: NativePayment, key: string)
    requires IsAmount(input.amount)
    ensures NewRow(input, key).key == key && NewRow(input, key).hash.None? && NewRow(input, key).status == Pending
  {
  }

  lemma ValidIsAmount(p: NativePayment)
    requires ValidatePayment(p).Ok?
    ensures IsAmount(p.amount)
  {
    hide IsAmount, Utf8Length;
  }

  /** A valid request under an unused key: a new row, returned as stored. */
  lemma CreateInserts(s: State, h: nat, input: NativePayment, key: string, id: Id)
    requires ValidatePayment(input).Ok? && IsAmount(input.amount) && ValidKey(key)
    requires h !in s.handlers && key !in s.keys && id !in s.rows
    ensures
      var row := NewRow(input, key);
      CreateStep(s, h, input, key, id) ==
      SetHandler(s.(rows := s.rows[id := row], keys := s.keys[key := id]), h, Done(Ok((id, row))))
  {
    hide ValidatePayment, ValidKey, IsAmount, SameRequest, RowSound, NewRow;
    NewRowSound(input, key, s.ledger);
    NewRowFields(input, key);
  }

  /** Any other request changes no table: it is refused, or answered with the row already under its key. */
  lemma CreateAnswers(s: State, h: nat, input: NativePayment, key: string, id: Id)
    requires h !in s.handlers
    requires ValidatePayment(input).Err? || !ValidKey(key) || key in s.keys || id in s.rows
    ensures
      var t := CreateStep(s, h, input, key, id);
      && h in t.handlers && t == SetHandler(s, h, t.handlers[h]) && t.handlers[h].Done?
      && (t.handlers[h].result.Ok? ==>
            && key in s.keys && s.keys[key] in s.rows
            && t.handlers[h].result.value == (s.keys[key], s.rows[s.keys[key]])
            && SameRequest(s.rows[s.keys[key]], input))
  {
    hide ValidatePayment, ValidKey, SameRequest, NewRow;
    if ValidatePayment(input).Ok? {
      ValidIsAmount(input);
      NewRowFields(input, key);
    }
  }

  lemma CreateKeepsInv(s: State, h: nat, input: NativePayment, key: string, id: Id)
    requires Inv(s)
    ensures Inv(CreateStep(s, h, input, key, id)) && Evolves(s, CreateStep(s, h, input, key, id))
  {
    hide Inv, RowSound, Evolves, RowEvolves, ValidatePayment, SameRequest, ValidKey, RowPayment, NewRow, ParsePayment, IsAmount;
    if h in s.handlers {
      EvolvesWhenTablesSame(s, s);
      assert CreateStep(s, h, input, key, id) == s;
    } else if ValidatePayment(input).Ok? && ValidKey(key) && key !in s.keys && id !in s.rows {
      hide CreateStep;
      ValidIsAmount(input);
      NewRowSound(input, key, s.ledger);
      NewRowFields(input, key);
      CreateInserts(s, h, input, key, id);
      InsertKeepsInv(s, h, id, NewRow(input, key), Done(Ok((id, NewRow(input, key)))));
    } else {
      hide CreateStep;
      CreateAnswers(s, h, input, key, id);
      MoveKeepsInv(s, h, CreateStep(s, h, input, key, id).handlers[h]);
    }
  }

  lemma SubmitKeepsInv(s: State, h: nat, id: Id, xdr: Envelope)
    requires Inv(s)
    ensures Inv(SubmitStep(s, h, id, xdr)) && Evolves(s, SubmitStep(s, h, id, xdr))
  {
    hide RowsSound, KeysSound, HashesSound, BroadcastsSound, RowSound, Evolves, RowEvolves, ParsePayment, RowPayment;
    var t := SubmitStep(s, h, id, xdr);
    if h in s.handlers {
      EvolvesWhenTablesSame(s, s);
    } else {
      assert HandlerSound(s, t.handlers[h]);
      hide HandlerSound, Inv;
      MoveKeepsInv(s, h, t.handlers[h]);
    }
  }

  lemma ReconcileKeepsInv(s: State, h: nat, id: Id)
    requires Inv(s)
    ensures Inv(ReconcileStep(s, h, id)) && Evolves(s, ReconcileStep(s, h, id))
  {
    hide RowsSound, KeysSound, HashesSound, BroadcastsSound, RowSound, Evolves, RowEvolves, ParsePayment, RowPayment;
    var t := ReconcileStep(s, h, id);
    if h in s.handlers {
      EvolvesWhenTablesSame(s, s);
    } else {
      assert HandlerSound(s, t.handlers[h]);
      hide HandlerSound, Inv;
      MoveKeepsInv(s, h, t.handlers[h]);
    }
  }

  lemma QueryKeepsInv(s: State, h: nat, current: bool)
    requires Inv(s)
    ensures Inv(QueryStep(s, h, current)) && Evolves(s, QueryStep(s, h, current))
  {
    hide RowsSound, KeysSound, HashesSound, BroadcastsSound, RowSound, Evolves, ParsePayment, RowPayment, Bound;
    var t := QueryStep(s, h, current);
    if h in s.handlers && s.handlers[h].Verifying? {
      assert HandlerSound(s, s.handlers[h]);
      MoveKeepsInv(s, h, t.handlers[h]);
    } else {
      EvolvesWhenTablesSame(s, s);
    }
  }

  /** One row changes, keeping its key. */
  lemma RowUpdated(s: State, t: State, id: Id, row: Row)
    requires RowsSound(s) && KeysSound(s) && id in s.rows
    requires t.rows == s.rows[id := row] && t.keys == s.keys && t.ledger == s.ledger && t.broadcasts == s.broadcasts
    requires RowSound(row, s.ledger) && RowEvolves(s.rows[id], row)
    ensures RowsSound(t) && KeysSound(t) && Evolves(s, t)
  {
    hide RowSound;
    RowUpdatedKeys(s, t, id, row);
    hide KeysSound;
  }

  lemma RowUpdatedKeys(s: State, t: State, id: Id, row: Row)
    requires KeysSound(s) && id in s.rows && row.key == s.rows[id].key
    requires t.rows == s.rows[id := row] && t.keys == s.keys
    ensures KeysSound(t)
  {
  }

  lemma ClaimHashes(s: State, t: State, id: Id, hash: Hash)
    requires HashesSound(s) && id in s.rows && ClaimHash(s, id, hash).Ok?
    requires t.rows == s.rows[id := s.rows[id].(hash := Some(hash))] && t.hashes == s.hashes[hash := id]
    ensures HashesSound(t)
  {
  }

  lemma SameHashes(s: State, t: State, id: Id, row: Row)
    requires HashesSound(s) && id in s.rows && row.hash == s.rows[id].hash
    requires t.rows == s.rows[id := row] && t.hashes == s.hashes
    ensures HashesSound(t)
  {
  }

  /** The bind: only an unbound row, or one already bound to this very hash, takes it. */
  lemma ClaimTables(s: State, t: State, id: Id, hash: Hash)
    requires RowsSound(s) && KeysSound(s) && HashesSound(s)
    requires id in s.rows && PaysExactly(hash.tx, RowPayment(s.rows[id]))
    requires ClaimHash(s, id, hash).Ok? && t == ClaimHash(s, id, hash).value.(handlers := t.handlers)
    ensures RowsSound(t) && KeysSound(t) && HashesSound(t) && Evolves(s, t) && Bound(t, id, hash)
  {
    hide RowSound, RowPayment, PaysExactly, KeysSound, HashesSound, Evolves;
    assert RowSound(s.rows[id], s.ledger);
    BoundRowSound(s.rows[id], hash, s.ledger);
    hide RowsSound;
    RowUpdated(s, t, id, s.rows[id].(hash := Some(hash)));
    ClaimHashes(s, t, id, hash);
  }

  lemma ClaimKeepsInv(s: State, h: nat)
    requires Inv(s) && h in s.handlers && s.handlers[h].Claiming?
    ensures Inv(AdvanceStep(s, h, s.handlers[h])) && Evolves(s, AdvanceStep(s, h, s.handlers[h]))
  {
    hide RowPayment, PaysExactly, ParsePayment, Evolves, RowsSound, KeysSound, HashesSound, BroadcastsSound;
    var p := s.handlers[h];
    assert HandlerSound(s, p);
    ParsedPays(p.xdr, p.payment);
    var t := AdvanceStep(s, h, p);
    var hash := HashOf(p.xdr.tx);
    if ClaimHash(s, p.id, hash).Err? {
      MoveKeepsInv(s, h, Done(Err(Conflict)));
    } else {
      ClaimTables(s, t, p.id, hash);
      BroadcastsStable(s, t);
      SamePayment(s.rows[p.id], t.rows[p.id]);
      assert HandlerSound(t, t.handlers[h]);
      TablesMakeInv(s, t, h, t.handlers[h]);
    }
  }

  lemma AppendedBroadcast(s: State, t: State, b: Broadcast)
    requires BroadcastsSound(s) && Bound(s, b.id, b.hash)
    requires t.rows == s.rows && t.broadcasts == s.broadcasts + [b]
    ensures BroadcastsSound(t)
  {
    hide Bound;
    forall i | 0 <= i < |t.broadcasts| ensures Bound(t, t.broadcasts[i].id, t.broadcasts[i].hash) {
      if i < |s.broadcasts| {
        assert t.broadcasts[i] == s.broadcasts[i];
        assert Bound(s, s.broadcasts[i].id, s.broadcasts[i].hash);
      }
      SameRowsSameBound(s, t, t.broadcasts[i]);
    }
  }

  lemma SameRowsSameBound(s: State, t: State, b: Broadcast)
    requires t.rows == s.rows
    ensures Bound(t, b.id, b.hash) <==> Bound(s, b.id, b.hash)
  {
  }

  /** The broadcast: only what the row is already bound to is ever sent. */
  lemma BroadcastKeepsInv(s: State, h: nat)
    requires Inv(s) && h in s.handlers && s.handlers[h].Broadcasting?
    ensures Inv(AdvanceStep(s, h, s.handlers[h])) && Evolves(s, AdvanceStep(s, h, s.handlers[h]))
  {
    hide RowPayment, PaysExactly, ParsePayment, RowSound, RowEvolves, BroadcastsSound;
    var p := s.handlers[h];
    assert HandlerSound(s, p);
    ParsedPays(p.xdr, p.payment);
    BroadcastSends(s, h);
    var t := AdvanceStep(s, h, p);
    EvolvesWhenTablesSame(s, t);
    AppendedBroadcast(s, t, Broadcast(p.id, HashOf(p.xdr.tx)));
    hide Evolves;
    TablesMakeInv(s, t, h, t.handlers[h]);
  }

  /** At the broadcast point the second check passes again: the row's payment has not changed. */
  lemma BroadcastSends(s: State, h: nat)
    requires Inv(s) && h in s.handlers && s.handlers[h].Broadcasting?
    ensures
      var p := s.handlers[h];
      && p.xdr.Signed?
      && AdvanceStep(s, h, p) == SetHandler(s.(broadcasts := s.broadcasts + [Broadcast(p.id, HashOf(p.xdr.tx))]), h,
                                            Verifying(p.id, HashOf(p.xdr.tx)))
  {
    hide RowPayment, PaysExactly, ParsePayment, RowsSound, KeysSound, HashesSound, BroadcastsSound;
    var p := s.handlers[h];
    assert HandlerSound(s, p);
    ParsedPays(p.xdr, p.payment);
  }

  lemma SettleTables(s: State, id: Id, hash: Hash, status: Status)
    requires RowsSound(s) && KeysSound(s) && HashesSound(s) && Bound(s, id, hash)
    requires status != Pending ==> hash in s.ledger && (s.ledger[hash] <==> status == Succeeded)
    ensures
      var t := SettleRow(s, id, hash, status);
      && RowsSound(t) && KeysSound(t) && HashesSound(t) && Evolves(s, t)
      && (status != Pending ==> t.rows[id].status == status)
  {
    hide RowPayment, PaysExactly, ValidatePayment;
    var t := SettleRow(s, id, hash, status);
    assert RowSound(s.rows[id], s.ledger);
    hide KeysSound, HashesSound, RowsSound, Evolves;
    SettledRowSound(s.rows[id], hash, status, s.ledger);
    assert status != Pending ==> t.rows[id].status == status;
    hide RowSound;
    if s.rows[id].status == Pending {
      RowUpdated(s, t, id, t.rows[id]);
      SameHashes(s, t, id, t.rows[id]);
    } else {
      EvolvesWhenTablesSame(s, s);
    }
  }

  /** Only the tables' rows, keys, hashes and ledger matter to their soundness. */
  lemma SameTables(s: State, t: State)
    requires t.rows == s.rows && t.keys == s.keys && t.hashes == s.hashes && t.ledger == s.ledger
    ensures RowsSound(t) == RowsSound(s) && KeysSound(t) == KeysSound(s) && HashesSound(t) == HashesSound(s)
  {
    hide RowSound;
  }

  /** The settlement: only a row still Pending and bound to the hash takes the answer, and the answer is true. */
  lemma SettleKeepsInv(s: State, h: nat)
    requires Inv(s) && h in s.handlers && s.handlers[h].Settling?
    ensures Inv(AdvanceStep(s, h, s.handlers[h])) && Evolves(s, AdvanceStep(s, h, s.handlers[h]))
  {
    hide RowPayment, PaysExactly, ParsePayment, RowSound, RowsSound, KeysSound, HashesSound, BroadcastsSound, RowEvolves;
    var p := s.handlers[h];
    assert HandlerSound(s, p);
    var u := SettleRow(s, p.id, p.hash, p.answer);
    SettleTables(s, p.id, p.hash, p.answer);
    var t := AdvanceStep(s, h, p);
    SameTables(u, t);
    assert Evolves(s, t);
    BroadcastsStable(s, t);
    assert HandlerSound(t, t.handlers[h]);
    hide Evolves, HandlerSound;
    TablesMakeInv(s, t, h, t.handlers[h]);
  }

  lemma AdvanceKeepsInv(s: State, h: nat)
    requires Inv(s) && h in s.handlers
    ensures Inv(AdvanceStep(s, h, s.handlers[h])) && Evolves(s, AdvanceStep(s, h, s.handlers[h]))
  {
    hide RowSound, RowPayment, ParsePayment;
    var p := s.handlers[h];
    match p {
      case Claiming(_, _, _) => ClaimKeepsInv(s, h);
      case Broadcasting(_, _, _) => BroadcastKeepsInv(s, h);
      case Settling(_, _, _) => SettleKeepsInv(s, h);
      case Reading(_, _) => MoveKeepsInv(s, h, AdvanceStep(s, h, p).handlers[h]);
      case Verifying(_, _) => EvolvesWhenTablesSame(s, s);
      case Done(_) => EvolvesWhenTablesSame(s, s);
    }
  }

  /** A ledger that grows leaves everything known about it true. */
  lemma IncludeKeepsInv(s: State, tx: Tx, success: bool)
    requires Inv(s)
    ensures Inv(IncludeStep(s, tx, success)) && Evolves(s, IncludeStep(s, tx, success))
  {
    hide RowSound, HandlerSound, Bound, RowEvolves;
    var t := IncludeStep(s, tx, success);
    EvolvesWhenTablesSame(s, t);
    forall id | id in t.rows ensures RowSound(t.rows[id], t.ledger) {
      RowSoundGrows(s.rows[id], s.ledger, t.ledger);
    }
    hide Evolves;
    forall k | k in t.handlers ensures HandlerSound(t, t.handlers[k]) {
      HandlerStable(s, t, s.handlers[k]);
    }
    BroadcastsStable(s, t);
  }

  lemma CrashKeepsInv(s: State, h: nat)
    requires Inv(s)
    ensures Inv(s.(handlers := s.handlers - {h})) && Evolves(s, s.(handlers := s.handlers - {h}))
  {
    hide RowSound, HandlerSound, Bound, RowEvolves;
    var t := s.(handlers := s.handlers - {h});
    EvolvesWhenTablesSame(s, t);
    hide Evolves;
    forall k | k in t.handlers ensures HandlerSound(t, t.handlers[k]) {
      HandlerStable(s, t, s.handlers[k]);
    }
    BroadcastsStable(s, t);
  }

  /** Every step of every instance, crashes and ledger closes included, keeps the invariant and only moves forward. */
  lemma StepKeepsInv(s: State, a: Action)
    requires Inv(s)
    ensures Inv(Step(s, a)) && Evolves(s, Step(s, a))
  {
    hide Inv, Evolves, CreateStep, SubmitStep, ReconcileStep, QueryStep, AdvanceStep, IncludeStep;
    match a {
      case Create(h, input, key, id) => CreateKeepsInv(s, h, input, key, id);
      case Submit(h, id, xdr) => SubmitKeepsInv(s, h, id, xdr);
      case Reconcile(h, id) => ReconcileKeepsInv(s, h, id);
      case Query(h, current) => QueryKeepsInv(s, h, current);
      case Advance(h) =>
        if h in s.handlers {
          AdvanceKeepsInv(s, h);
        } else {
          EvolvesWhenTablesSame(s, s);
        }
      case Crash(h) => CrashKeepsInv(s, h);
      case Include(_, tx, success) => IncludeKeepsInv(s, tx, success);
    }
  }

  // ----- Intents no envelope can pay -----------------------------------------------------

  /** A valid request above the ledger's range is stored like any other, and no envelope is ever accepted for it. */
  lemma OversizedIntentStored(s: State, h: nat, input: NativePayment, key: string, id: Id)
    requires ValidatePayment(input).Ok? && Stroops(input.amount).Some? && Stroops(input.amount).value > MAX_INT64
    requires ValidKey(key) && h !in s.handlers && key !in s.keys && id !in s.rows
    ensures
      var t := CreateStep(s, h, input, key, id);
      && id in t.rows && key in t.keys && t.keys[key] == id
      && h in t.handlers && t.handlers[h] == Done(Ok((id, t.rows[id])))
      && forall xdr :: ParsePayment(xdr, Some(RowPayment(t.rows[id]))).Err?
  {
    hide ValidatePayment, ValidKey, Stroops, ParsePayment, NewRow, CreateStep, RowPayment;
    ValidIsAmount(input);
    CreateInserts(s, h, input, key, id);
    NewRowFields(input, key);
    NewRowSound(input, key, map[]);
    SavedStroops(NewRow(input, key), input);
    var payment := RowPayment(NewRow(input, key));
    forall xdr ensures ParsePayment(xdr, Some(payment)).Err? {
      AmountBeyondLedgerNeverParses(xdr, payment);
    }
  }

  lemma SavedStroops(row: Row, input: NativePayment)
    requires SameRequest(row, input)
    ensures Stroops(RowPayment(row).amount) == Stroops(input.amount)
  {
    hide Stroops, RowPayment;
  }

  /** The smallest such amount, on an empty database. */
  lemma OversizedIntentExample(s: State, h: nat, sender: Address, recipient: Address, id: Id)
    requires Empty(s) && sender.Account? && recipient.Account? && sender != recipient
    ensures
      var input := NativePayment(sender, recipient, "922337203685.4775808", "XLM", None);
      var t := CreateStep(s, h, input, "key", id);
      && ValidatePayment(input).Ok? && id in t.rows
      && forall xdr :: ParsePayment(xdr, Some(RowPayment(t.rows[id]))).Err?
  {
    hide ParsePayment, CreateStep, RowPayment, Stroops;
    var input := NativePayment(sender, recipient, "922337203685.4775808", "XLM", None);
    FirstBeyondLedger();
    assert !IsSpace("key"[0]);
    ValidKeyMeans("key");
    hide ValidKey;
    OversizedIntentStored(s, h, input, "key", id);
  }

  // ----- Whole runs ----------------------------------------------------------------------

  ghost predicate Empty(s: State) {
    s.rows == map[] && s.keys == map[] && s.hashes == map[] && s.handlers == map[] && s.broadcasts == []
  }

  lemma EvolvesTransitive(s: State, t: State, u: State)
    requires Evolves(s, t) && Evolves(t, u)
    ensures Evolves(s, u)
  {
    forall id | id in s.rows ensures id in u.rows && RowEvolves(s.rows[id], u.rows[id]) {
      assert RowEvolves(s.rows[id], t.rows[id]) && RowEvolves(t.rows[id], u.rows[id]);
    }
  }

  lemma {:induction false} RunKeepsInv(s: State, actions: seq<Action>)
    requires Inv(s)
    ensures Inv(Run(Step, s, actions)) && Evolves(s, Run(Step, s, actions))
    decreases |actions|
  {
    if actions == [] {
      EvolvesWhenTablesSame(s, s);
    } else {
      hide Step, Inv, Evolves;
      StepKeepsInv(s, actions[0]);
      RunKeepsInv(Step(s, actions[0]), actions[1..]);
      EvolvesTransitive(s, Step(s, actions[0]), Run(Step, s, actions));
    }
  }

  lemma EmptyInv(s: State)
    requires Empty(s)
    ensures Inv(s)
  {
  }

  /**
   Settlement is truthful and final.  In every reachable state a SUCCEEDED or FAILED intent has a
   bound hash whose ledger entry has that outcome, and whatever happens later leaves the row as it is.
   */
  lemma SettlementTruthfulAndFinal(s: State, before: seq<Action>, after: seq<Action>, id: Id)
    requires Empty(s) && id in Run(Step, s, before).rows && Run(Step, s, before).rows[id].status != Pending
    ensures
      var t := Run(Step, s, before);
      var row := t.rows[id];
      && row.hash.Some? && row.hash.value in t.ledger
      && (row.status == Succeeded <==> t.ledger[row.hash.value])
      && id in Run(Step, t, after).rows && Run(Step, t, after).rows[id] == row
  {
    EmptyInv(s);
    hide Run;
    RunKeepsInv(s, before);
    RunKeepsInv(Run(Step, s, before), after);
    assert RowSound(Run(Step, s, before).rows[id], Run(Step, s, before).ledger);
    hide ValidatePayment, PaysExactly, RowPayment, HandlerSound;
  }

  /** The binding of an intent to a transaction never changes, and no two intents share one. */
  lemma BindingUniqueAndFinal(s: State, before: seq<Action>, after: seq<Action>, i: Id, j: Id)
    requires Empty(s) && i in Run(Step, s, before).rows && Run(Step, s, before).rows[i].hash.Some?
    ensures
      var hash := Run(Step, s, before).rows[i].hash;
      var t := Run(Step, Run(Step, s, before), after);
      && i in t.rows && t.rows[i].hash == hash
      && (j in t.rows && t.rows[j].hash == hash ==> j == i)
  {
    EmptyInv(s);
    hide Run;
    RunKeepsInv(s, before);
    RunKeepsInv(Run(Step, s, before), after);
    hide RowsSound, HandlerSound, KeysSound;
  }

  /** What was sent is the transaction bound in the intent's row, and pays exactly that intent. */
  ghost predicate IntendedBroadcast(s: State, b: Broadcast) {
    && b.id in s.rows && s.rows[b.id].hash == Some(b.hash)
    && PaysExactly(b.hash.tx, RowPayment(s.rows[b.id]))
  }

  lemma BoundPays(s: State, id: Id)
    requires RowsSound(s) && id in s.rows && s.rows[id].hash.Some?
    ensures PaysExactly(s.rows[id].hash.value.tx, RowPayment(s.rows[id]))
  {
    hide PaysExactly, RowPayment, ValidatePayment;
    assert RowSound(s.rows[id], s.ledger);
  }

  /**
   At most one distinct transaction is ever broadcast for an intent, at most one intent ever has a
   given transaction broadcast for it; it is the one bound in the intent's row and pays exactly that intent.
   */
  lemma OneBroadcastPerIntent(s: State, actions: seq<Action>)
    requires Empty(s)
    ensures
      var t := Run(Step, s, actions);
      && (forall i :: 0 <= i < |t.broadcasts| ==> IntendedBroadcast(t, t.broadcasts[i]))
      && (forall i, j :: 0 <= i < |t.broadcasts| && 0 <= j < |t.broadcasts| ==>
            (t.broadcasts[i].id == t.broadcasts[j].id <==> t.broadcasts[i].hash == t.broadcasts[j].hash))
  {
    EmptyInv(s);
    RunKeepsInv(s, actions);
    var t := Run(Step, s, actions);
    hide RowsSound, KeysSound, HandlerSound, PaysExactly, RowPayment, Run;
    forall i, j | 0 <= i < |t.broadcasts| && 0 <= j < |t.broadcasts|
      ensures t.broadcasts[i].id == t.broadcasts[j].id <==> t.broadcasts[i].hash == t.broadcasts[j].hash
    {
      assert Bound(t, t.broadcasts[i].id, t.broadcasts[i].hash) && Bound(t, t.broadcasts[j].id, t.broadcasts[j].hash);
    }
    forall i | 0 <= i < |t.broadcasts|
      ensures IntendedBroadcast(t, t.broadcasts[i])
    {
      assert Bound(t, t.broadcasts[i].id, t.broadcasts[i].hash);
      BoundPays(t, t.broadcasts[i].id);
    }
  }

  lemma CreateSendsNothing(s: State, h: nat, input: NativePayment, key: string, id: Id)
    ensures CreateStep(s, h, input, key, id).broadcasts == s.broadcasts
  {
    hide ValidatePayment, SameRequest, ValidKey, NewRow, IsAmount, FindResult;
    if ValidatePayment(input).Ok? {
      ValidIsAmount(input);
    }
  }

  lemma OtherPointsSendNothing(s: State, h: nat, p: Handler)
    requires !p.Broadcasting?
    ensures AdvanceStep(s, h, p).broadcasts == s.broadcasts
  {
    hide ParsePayment, RowPayment, FindResult;
  }

  lemma OnlyBroadcastingSends(s: State, a: Action)
    requires Step(s, a).broadcasts != s.broadcasts
    ensures a.Advance? && a.h in s.handlers && s.handlers[a.h].Broadcasting?
  {
    hide RowPayment, ParsePayment, CreateStep, AdvanceStep;
    if a.Create? {
      CreateSendsNothing(s, a.h, a.input, a.key, a.id);
    } else if a.Advance? && a.h in s.handlers && !s.handlers[a.h].Broadcasting? {
      OtherPointsSendNothing(s, a.h, s.handlers[a.h]);
    }
  }

  /** A broadcast happens only when its hash is already stored in the intent's row. */
  lemma BoundBeforeBroadcast(s: State, a: Action)
    requires Inv(s) && Step(s, a).broadcasts != s.broadcasts
    ensures
      var t := Step(s, a);
      && |t.broadcasts| == |s.broadcasts| + 1
      && var b := t.broadcasts[|s.broadcasts|];
      b.id in s.rows && s.rows[b.id].hash == Some(b.hash)
  {
    OnlyBroadcastingSends(s, a);
    hide AdvanceStep, RowPayment, RowsSound, KeysSound, HashesSound;
    BroadcastSends(s, a.h);
    assert HandlerSound(s, s.handlers[a.h]);
  }

  // ----- Progress ------------------------------------------------------------------------

  /** The run of one undisturbed submit whose transaction the ledger includes. */
  function SubmitRun(h: nat, id: Id, xdr: Envelope, success: bool): seq<Action>
    requires xdr.Signed?
  {
    [Submit(h, id, xdr), Advance(h), Advance(h), Include(h, xdr.tx, success), Query(h, true), Advance(h), Advance(h)]
  }

  lemma RunSeven(s: State, a: seq<Action>)
    requires |a| == 7
    ensures Run(Step, s, a) == Step(Step(Step(Step(Step(Step(Step(s, a[0]), a[1]), a[2]), a[3]), a[4]), a[5]), a[6])
  {
    hide Step;
    assert a[1..][1..] == a[2..] && a[2..][1..] == a[3..] && a[3..][1..] == a[4..];
    assert a[4..][1..] == a[5..] && a[5..][1..] == a[6..] && a[6..][1..] == [];
    RunFirst(s, a);
    RunFirst(Step(s, a[0]), a[1..]);
    RunFirst(Step(Step(s, a[0]), a[1]), a[2..]);
    RunFirst(Step(Step(Step(s, a[0]), a[1]), a[2]), a[3..]);
    RunFirst(Step(Step(Step(Step(s, a[0]), a[1]), a[2]), a[3]), a[4..]);
    RunFirst(Step(Step(Step(Step(Step(s, a[0]), a[1]), a[2]), a[3]), a[4]), a[5..]);
    RunFirst(Step(Step(Step(Step(Step(Step(s, a[0]), a[1]), a[2]), a[3]), a[4]), a[5]), a[6..]);
  }

  lemma RunFirst(s: State, a: seq<Action>)
    requires a != []
    ensures Run(Step, s, a) == Run(Step, Step(s, a[0]), a[1..])
  {
    hide Step;
  }

  /** Bind, in a row that is free for a hash that is free. */
  lemma BindsFree(s: State, h: nat, id: Id, xdr: Envelope)
    requires Inv(s) && h !in s.handlers && id in s.rows && s.rows[id].hash.None? && xdr.Signed?
    requires ParsePayment(xdr, Some(RowPayment(s.rows[id]))).Ok? && HashOf(xdr.tx) !in s.hashes
    ensures
      var t := Step(Step(s, Submit(h, id, xdr)), Advance(h));
      && h in t.handlers && t.handlers[h] == Broadcasting(id, xdr, RowPayment(s.rows[id]))
      && id in t.rows && t.rows[id] == s.rows[id].(hash := Some(HashOf(xdr.tx))) && t.ledger == s.ledger
      && t.broadcasts == s.broadcasts
  {
    hide ParsePayment, RowPayment, KeysSound, HashesSound, BroadcastsSound, HandlerSound, ValidatePayment, PaysExactly;
    var t := Step(s, Submit(h, id, xdr));
    assert t == SetHandler(s, h, Claiming(id, xdr, RowPayment(s.rows[id])));
    assert RowSound(s.rows[id], s.ledger);
    assert s.rows[id].status == Pending;
  }

  /** From a bound and sent intent to its ledger outcome. */
  lemma SettlesSent(s: State, h: nat, id: Id, tx: Tx, success: bool)
    requires h in s.handlers && s.handlers[h] == Verifying(id, HashOf(tx)) && HashOf(tx) !in s.ledger
    requires id in s.rows && s.rows[id].hash == Some(HashOf(tx)) && s.rows[id].status == Pending
    ensures
      var t := Step(Step(Step(Step(s, Include(h, tx, success)), Query(h, true)), Advance(h)), Advance(h));
      var settled := s.rows[id].(status := if success then Succeeded else Failed);
      && id in t.rows && t.rows[id] == settled && t.broadcasts == s.broadcasts
      && h in t.handlers && t.handlers[h] == Done(Ok((id, settled)))
  {
    hide ParsePayment, RowPayment, ClaimHash;
  }

  /**
   An accepted envelope settles its intent.  From any reachable state, the undisturbed submit of an
   envelope that passes the check for an unbound intent and whose hash is unused returns the intent,
   once included, with the ledger's outcome; the envelope is broadcast exactly once.
   */
  lemma PayableIntentsSettle(s: State, h: nat, id: Id, xdr: Envelope, success: bool)
    requires Inv(s) && h !in s.handlers && id in s.rows && s.rows[id].hash.None?
    requires ParsePayment(xdr, Some(RowPayment(s.rows[id]))).Ok?
    requires xdr.Signed? && HashOf(xdr.tx) !in s.hashes && HashOf(xdr.tx) !in s.ledger
    ensures
      var t := Run(Step, s, SubmitRun(h, id, xdr, success));
      var settled := s.rows[id].(hash := Some(HashOf(xdr.tx)), status := if success then Succeeded else Failed);
      && id in t.rows && t.rows[id] == settled
      && h in t.handlers && t.handlers[h] == Done(Ok((id, settled)))
      && t.broadcasts == s.broadcasts + [Broadcast(id, HashOf(xdr.tx))]
  {
    hide Step, Inv, ParsePayment, RowPayment, Run;
    RunSeven(s, SubmitRun(h, id, xdr, success));
    BindsFree(s, h, id, xdr);
    UnboundIsPending(s, id);
    var bound := Step(Step(s, Submit(h, id, xdr)), Advance(h));
    StepKeepsInv(s, Submit(h, id, xdr));
    StepKeepsInv(Step(s, Submit(h, id, xdr)), Advance(h));
    BroadcastSends(bound, h);
    var sent := Step(bound, Advance(h));
    AdvanceIs(bound, h);
    SettlesSent(sent, h, id, xdr.tx, success);
  }

  lemma AdvanceIs(s: State, h: nat)
    requires h in s.handlers
    ensures Step(s, Advance(h)) == AdvanceStep(s, h, s.handlers[h])
  {
    hide AdvanceStep;
  }

  lemma UnboundIsPending(s: State, id: Id)
    requires Inv(s) && id in s.rows && s.rows[id].hash.None?
    ensures s.rows[id].status == Pending
  {
    hide ValidatePayment, PaysExactly, RowPayment, HandlerSound, KeysSound, HashesSound, BroadcastsSound;
    assert RowSound(s.rows[id], s.ledger);
  }

  // ----- Money ---------------------------------------------------------------------------

  ghost function SucceededIds(s: State): set<Id> {
    set id | id in s.rows && s.rows[id].status == Succeeded
  }

  /** The stroops a row asks for. */
  ghost function Asked(row: Row): nat {
    if Stroops(RowPayment(row).amount).Some? then Stroops(RowPayment(row).amount).value else 0
  }

  /** The stroops a single-payment transaction moves. */
  ghost function Moved(hash: Hash): nat {
    if |hash.tx.operations| == 1 && hash.tx.operations[0].Payment? then hash.tx.operations[0].units else 0
  }

  ghost function AskedSum(rows: map<Id, Row>, ids: set<Id>): nat
    requires forall id :: id in ids ==> id in rows
  {
    if ids == {} then 0 else
      var id :| id in ids;
      Asked(rows[id]) + AskedSum(rows, ids - {id})
  }

  ghost function MovedSum(hashes: set<Hash>): nat {
    if hashes == {} then 0 else
      var hash :| hash in hashes;
      Moved(hash) + MovedSum(hashes - {hash})
  }

  lemma {:induction false} MovedSumRemove(hashes: set<Hash>, hash: Hash)
    requires hash in hashes
    ensures MovedSum(hashes) == Moved(hash) + MovedSum(hashes - {hash})
    decreases |hashes|
  {
    hide Moved;
    var other :| other in hashes && MovedSum(hashes) == Moved(other) + MovedSum(hashes - {other});
    if other != hash {
      MovedSumRemove(hashes - {other}, hash);
      MovedSumRemove(hashes - {hash}, other);
      assert hashes - {other} - {hash} == hashes - {hash} - {other};
    }
  }

  ghost predicate HasHash(rows: map<Id, Row>, ids: set<Id>) {
    forall id :: id in ids ==> id in rows && rows[id].hash.Some?
  }

  ghost function HashesOf(rows: map<Id, Row>, ids: set<Id>): set<Hash>
    requires HasHash(rows, ids)
  {
    set id | id in ids :: rows[id].hash.value
  }

  /** Distinct intents paid by distinct transactions of the same amounts: the sums agree. */
  lemma {:induction false} SumsAgree(rows: map<Id, Row>, ids: set<Id>)
    requires HasHash(rows, ids)
    requires forall i, j :: i in ids && j in ids && rows[i].hash == rows[j].hash ==> i == j
    requires forall id :: id in ids ==> Asked(rows[id]) == Moved(rows[id].hash.value)
    ensures AskedSum(rows, ids) == MovedSum(HashesOf(rows, ids))
    decreases |ids|
  {
    hide Asked, Moved;
    if ids == {} {
      assert HashesOf(rows, ids) == {};
    } else {
      var id :| id in ids && AskedSum(rows, ids) == Asked(rows[id]) + AskedSum(rows, ids - {id});
      var hash := rows[id].hash.value;
      SumsAgree(rows, ids - {id});
      assert HashesOf(rows, ids - {id}) == HashesOf(rows, ids) - {hash};
      assert hash in HashesOf(rows, ids);
      MovedSumRemove(HashesOf(rows, ids), hash);
    }
  }

  lemma PaidIsAsked(row: Row)
    requires row.hash.Some? && PaysExactly(row.hash.value.tx, RowPayment(row))
    ensures Asked(row) == Moved(row.hash.value)
  {
    hide Stroops, RowPayment;
  }

  /**
   No intent is settled on another's money.  In every reachable state the SUCCEEDED intents map one
   to one into successful ledger transactions, each paying that intent's recipient exactly its
   stroops from its sender, so the two sums are equal.
   */
  lemma SucceededIntentsArePaid(s: State, actions: seq<Action>)
    requires Empty(s)
    ensures
      var t := Run(Step, s, actions);
      var ids := SucceededIds(t);
      && HasHash(t.rows, ids)
      && (forall id :: id in ids ==>
            var hash := t.rows[id].hash.value;
            && hash in t.ledger && t.ledger[hash]
            && PaysExactly(hash.tx, RowPayment(t.rows[id])))
      && (forall i, j :: i in ids && j in ids && t.rows[i].hash == t.rows[j].hash ==> i == j)
      && AskedSum(t.rows, ids) == MovedSum(HashesOf(t.rows, ids))
  {
    EmptyInv(s);
    RunKeepsInv(s, actions);
    var t := Run(Step, s, actions);
    var ids := SucceededIds(t);
    hide ValidatePayment, RowPayment, PaysExactly, HandlerSound, Moved, Asked, Run;
    forall id | id in ids ensures t.rows[id].hash.Some? && Asked(t.rows[id]) == Moved(t.rows[id].hash.value) {
      assert RowSound(t.rows[id], t.ledger);
      PaidIsAsked(t.rows[id]);
    }
    SumsAgree(t.rows, ids);
  }
}
