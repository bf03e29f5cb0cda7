/**
 The escrow contract: many escrows in many assets held by one contract address, each created,
 funded, and then released before its expiry or refunded after it.
 */
module Escrows {
  import opened Wrappers
  import opened Tokens

  datatype Status = Created | Funded | Released | Refunded

  datatype Escrow = Escrow(asset: Address, sender: Address, recipient: Address, amount: int,
                           expiresAt: nat, status: Status)

  datatype Error = InvalidAmount | InvalidExpiry | EscrowNotFound | InvalidState
                 | Trap  // a missing authorisation, a refused transfer, an id past 64 bits

  /** A token movement the contract made on behalf of one escrow. */
  datatype Movement = In(id: nat, payer: Address, amount: int) | Out(id: nat, payee: Address, amount: int)

  /** Contract storage, the token balances, and the history of the contract's own transfers. */
  datatype State = State(contract: Address, nextId: nat, escrows: map<nat, Escrow>, tokens: Balances,
                         log: seq<Movement>)

  /** Ledger time, the addresses that authorised the call, and whether the token contract refuses on its own account. */
  datatype Env = Env(now: nat, auths: set<Address>, tokenRefuses: bool)

  datatype Call =
    | CreateEscrow(asset: Address, amount: int, sender: Address, recipient: Address, expiresAt: nat)
    | Fund(id: nat)
    | Release(id: nat)
    | Refund(id: nat)
    | OtherTransfer(asset: Address, payer: Address, payee: Address, units: nat)
    | OtherMint(asset: Address, payee: Address, units: nat)

  datatype Event = Event(env: Env, call: Call)

  // ----- One call ------------------------------------------------------------------------

  /** No code in the contract authorises as the contract, so its own address never passes `require_auth`. */
  predicate Authorised(s: State, env: Env, who: Address) {
    who in env.auths && who != s.contract
  }

  function TokenTransfer(s: State, env: Env, asset: Address, payer: Address, payee: Address, amount: nat): Option<Balances> {
    if env.tokenRefuses then None else Transfer(s.tokens, asset, payer, payee, amount)
  }

  function CreateStep(s: State, env: Env, c: Call): (State, Result<nat, Error>)
    requires c.CreateEscrow?
  {
    if c.amount <= 0 || c.amount > MAX_I128 then (s, Err(InvalidAmount))
    else if c.expiresAt <= env.now then (s, Err(InvalidExpiry))
    else if !Authorised(s, env, c.sender) || s.nextId >= MAX_U64 then (s, Err(Trap))
    else
      var e := Escrow(c.asset, c.sender, c.recipient, c.amount, c.expiresAt, Created);
      (s.(escrows := s.escrows[s.nextId := e], nextId := s.nextId + 1), Ok(s.nextId))
  }

  /** What funding, releasing and refunding share: pay, then store the new status. */
  function PayStep(s: State, env: Env, id: nat, payer: Address, payee: Address, status: Status, m: Movement)
    : (State, Result<(), Error>)
    requires id in s.escrows && s.escrows[id].amount >= 0
  {
    var e := s.escrows[id];
    if !Authorised(s, env, e.sender) then (s, Err(Trap))
    else match TokenTransfer(s, env, e.asset, payer, payee, e.amount) {
      case None => (s, Err(Trap))
      case Some(b) =>
        (s.(tokens := b, escrows := s.escrows[id := e.(status := status)], log := s.log + [m]), Ok(()))
    }
  }

  function FundStep(s: State, env: Env, id: nat): (State, Result<(), Error>)
    requires id in s.escrows ==> s.escrows[id].amount >= 0
  {
    if id !in s.escrows then (s, Err(EscrowNotFound))
    else
      var e := s.escrows[id];
      if e.status != Created then (s, Err(InvalidState))
      else if env.now >= e.expiresAt then (s, Err(InvalidExpiry))
      else PayStep(s, env, id, e.sender, s.contract, Funded, In(id, e.sender, e.amount))
  }

  function ReleaseStep(s: State, env: Env, id: nat): (State, Result<(), Error>)
    requires id in s.escrows ==> s.escrows[id].amount >= 0
  {
    if id !in s.escrows then (s, Err(EscrowNotFound))
    else
      var e := s.escrows[id];
      if e.status != Funded then (s, Err(InvalidState))
      else if env.now >= e.expiresAt then (s, Err(InvalidExpiry))
      else PayStep(s, env, id, s.contract, e.recipient, Released, Out(id, e.recipient, e.amount))
  }

  function RefundStep(s: State, env: Env, id: nat): (State, Result<(), Error>)
    requires id in s.escrows ==> s.escrows[id].amount >= 0
  {
    if id !in s.escrows then (s, Err(EscrowNotFound))
    else
      var e := s.escrows[id];
      if e.status != Funded then (s, Err(InvalidState))
      else if env.now < e.expiresAt then (s, Err(InvalidExpiry))
      else PayStep(s, env, id, s.contract, e.sender, Refunded, Out(id, e.sender, e.amount))
  }

  /** A transfer nobody made through this contract; the contract's own tokens cannot be the source. */
  function OtherTransferStep(s: State, env: Env, c: Call): State
    requires c.OtherTransfer?
  {
    if !Authorised(s, env, c.payer) then s
    else match TokenTransfer(s, env, c.asset, c.payer, c.payee, c.units) {
      case None => s
      case Some(b) => s.(tokens := b)
    }
  }

  predicate AmountsPositive(s: State) {
    forall id :: id in s.escrows ==> 0 < s.escrows[id].amount <= MAX_I128
  }

  function Step(s: State, ev: Event): State
    requires AmountsPositive(s)
  {
    match ev.call {
      case CreateEscrow(_, _, _, _, _) => CreateStep(s, ev.env, ev.call).0
      case Fund(id) => FundStep(s, ev.env, id).0
      case Release(id) => ReleaseStep(s, ev.env, id).0
      case Refund(id) => RefundStep(s, ev.env, id).0
      case OtherTransfer(_, _, _, _) => OtherTransferStep(s, ev.env, ev.call)
      case OtherMint(asset, payee, amount) => s.(tokens := Mint(s.tokens, asset, payee, amount))
    }
  }

  // ----- The contract --------------------------------------------------------------------

  /** The deployed contract; every method writes the fields the way the contract writes its storage. */
  class EscrowContract {
    const contract: Address
    var nextId: nat
    var escrows: map<nat, Escrow>
    var tokens: Balances
    ghost var log: seq<Movement>

    ghost function Contents(): State
      reads this
    {
      State(contract, nextId, escrows, tokens, log)
    }

    constructor (contract: Address, tokens: Balances)
      ensures Contents() == State(contract, 0, map[], tokens, [])
    {
      this.contract := contract;
      this.nextId := 0;
      this.escrows := map[];
      this.tokens := tokens;
      this.log := [];
    }

    method Create(env: Env, c: Call) returns (r: Result<nat, Error>)
      requires c.CreateEscrow?
      modifies this
      ensures (Contents(), r) == CreateStep(old(Contents()), env, c)
    {
      if c.amount <= 0 || c.amount > MAX_I128 {
        return Err(InvalidAmount);
      }
      if c.expiresAt <= env.now {
        return Err(InvalidExpiry);
      }
      if c.sender !in env.auths || c.sender == contract || nextId >= MAX_U64 {
        return Err(Trap);
      }
      var id := nextId;
      escrows := escrows[id := Escrow(c.asset, c.sender, c.recipient, c.amount, c.expiresAt, Created)];
      nextId := id + 1;
      return Ok(id);
    }

    method LoadEscrow(id: nat) returns (r: Result<Escrow, Error>)
      ensures r == if id in escrows then Ok(escrows[id]) else Err(EscrowNotFound)
    {
      if id in escrows {
        return Ok(escrows[id]);
      }
      return Err(EscrowNotFound);
    }

    method SaveEscrow(id: nat, e: Escrow)
      modifies this`escrows
      ensures escrows == old(escrows)[id := e]
    {
      escrows := escrows[id := e];
    }

    method FundEscrow(env: Env, id: nat) returns (r: Result<(), Error>)
      requires AmountsPositive(Contents())
      modifies this
      ensures (Contents(), r) == FundStep(old(Contents()), env, id)
    {
      var loaded := LoadEscrow(id);
      if loaded.Err? {
        return Err(loaded.error);
      }
      var e := loaded.value;
      if e.status != Created {
        return Err(InvalidState);
      }
      if env.now >= e.expiresAt {
        return Err(InvalidExpiry);
      }
      if e.sender !in env.auths || e.sender == contract || env.tokenRefuses {
        return Err(Trap);
      }
      var moved := Transfer(tokens, e.asset, e.sender, contract, e.amount);
      if moved.None? {
        return Err(Trap);
      }
      tokens := moved.value;
      log := log + [In(id, e.sender, e.amount)];
      e := e.(status := Funded);
      SaveEscrow(id, e);
      return Ok(());
    }

    method ReleaseEscrow(env: Env, id: nat) returns (r: Result<(), Error>)
      requires AmountsPositive(Contents())
      modifies this
      ensures (Contents(), r) == ReleaseStep(old(Contents()), env, id)
    {
      var loaded := LoadEscrow(id);
      if loaded.Err? {
        return Err(loaded.error);
      }
      var e := loaded.value;
      if e.status != Funded {
        return Err(InvalidState);
      }
      if env.now >= e.expiresAt {
        return Err(InvalidExpiry);
      }
      if e.sender !in env.auths || e.sender == contract || env.tokenRefuses {
        return Err(Trap);
      }
      var moved := Transfer(tokens, e.asset, contract, e.recipient, e.amount);
      if moved.None? {
        return Err(Trap);
      }
      tokens := moved.value;
      log := log + [Out(id, e.recipient, e.amount)];
      e := e.(status := Released);
      SaveEscrow(id, e);
      return Ok(());
    }

    method RefundEscrow(env: Env, id: nat) returns (r: Result<(), Error>)
      requires AmountsPositive(Contents())
      modifies this
      ensures (Contents(), r) == RefundStep(old(Contents()), env, id)
    {
      var loaded := LoadEscrow(id);
      if loaded.Err? {
        return Err(loaded.error);
      }
      var e := loaded.value;
      if e.status != Funded {
        return Err(InvalidState);
      }
      if env.now < e.expiresAt {
        return Err(InvalidExpiry);
      }
      if e.sender !in env.auths || e.sender == contract || env.tokenRefuses {
        return Err(Trap);
      }
      var moved := Transfer(tokens, e.asset, contract, e.sender, e.amount);
      if moved.None? {
        return Err(Trap);
      }
      tokens := moved.value;
      log := log + [Out(id, e.sender, e.amount)];
      e := e.(status := Refunded);
      SaveEscrow(id, e);
      return Ok(());
    }
  }

  // ----- Funded sums ---------------------------------------------------------------------

  function Held(e: Escrow, asset: Address): int {
    if e.status == Funded && e.asset == asset then e.amount else 0
  }

  /** The sum of the amounts of the Funded escrows of one asset among the first n ids. */
  ghost function FundedSum(escrows: map<nat, Escrow>, asset: Address, n: nat): int {
    if n == 0 then 0
    else FundedSum(escrows, asset, n - 1) + (if n - 1 in escrows then Held(escrows[n - 1], asset) else 0)
  }

  lemma {:induction false} FundedSumUpdate(escrows: map<nat, Escrow>, asset: Address, n: nat, id: nat, e: Escrow)
    ensures FundedSum(escrows[id := e], asset, n) ==
            if id < n
            then FundedSum(escrows, asset, n) + Held(e, asset) - (if id in escrows then Held(escrows[id], asset) else 0)
            else FundedSum(escrows, asset, n)
  {
    if n > 0 {
      FundedSumUpdate(escrows, asset, n - 1, id, e);
    }
  }

  // ----- The invariant -------------------------------------------------------------------

  /** The movements made for one escrow, in order. */
  ghost function MovementsOf(log: seq<Movement>, id: nat): seq<Movement> {
    if log == [] then []
    else
      var rest := MovementsOf(log[..|log| - 1], id);
      if log[|log| - 1].id == id then rest + [log[|log| - 1]] else rest
  }

  /** The only history an escrow in a given status can have. */
  ghost function ExpectedMovements(id: nat, e: Escrow): seq<Movement> {
    match e.status {
      case Created => []
      case Funded => [In(id, e.sender, e.amount)]
      case Released => [In(id, e.sender, e.amount), Out(id, e.recipient, e.amount)]
      case Refunded => [In(id, e.sender, e.amount), Out(id, e.sender, e.amount)]
    }
  }

  ghost predicate HistoryMatches(s: State) {
    && (forall id :: id in s.escrows ==> MovementsOf(s.log, id) == ExpectedMovements(id, s.escrows[id]))
    && (forall id :: id !in s.escrows ==> MovementsOf(s.log, id) == [])
  }

  ghost predicate Solvent(s: State) {
    forall asset :: FundedSum(s.escrows, asset, s.nextId) <= Balance(s.tokens, asset, s.contract)
  }

  ghost predicate Inv(s: State) {
    && s.nextId <= MAX_U64
    && (forall id: nat :: id in s.escrows <==> id < s.nextId)
    && AmountsPositive(s)
    && (forall id :: id in s.escrows ==> s.escrows[id].sender != s.contract)
    && BalancesInRange(s.tokens)
    && HistoryMatches(s)
    && Solvent(s)
  }

  /** What the contract holds beyond its obligations in one asset. */
  ghost function Surplus(s: State, asset: Address): int {
    Balance(s.tokens, asset, s.contract) - FundedSum(s.escrows, asset, s.nextId)
  }

  lemma MovementsOfAppend(log: seq<Movement>, m: Movement, id: nat)
    ensures MovementsOf(log + [m], id) == if m.id == id then MovementsOf(log, id) + [m] else MovementsOf(log, id)
  {
    assert (log + [m])[..|log + [m]| - 1] == log;
  }

  lemma PayKeepsHistory(s: State, t: State, id: nat, status: Status, m: Movement)
    requires HistoryMatches(s) && id in s.escrows && m.id == id
    requires t.escrows == s.escrows[id := s.escrows[id].(status := status)] && t.log == s.log + [m]
    requires ExpectedMovements(id, s.escrows[id].(status := status)) == ExpectedMovements(id, s.escrows[id]) + [m]
    ensures HistoryMatches(t)
  {
    hide MovementsOf, ExpectedMovements;
    forall i ensures MovementsOf(t.log, i) == if i == id then MovementsOf(s.log, i) + [m] else MovementsOf(s.log, i) {
      MovementsOfAppend(s.log, m, i);
    }
    forall i | i in t.escrows ensures MovementsOf(t.log, i) == ExpectedMovements(i, t.escrows[i]) {
      if i != id {
        assert t.escrows[i] == s.escrows[i];
        SameMovements(i, s.escrows[i], t.escrows[i]);
      }
    }
  }

  lemma SameMovements(id: nat, a: Escrow, b: Escrow)
    requires a == b
    ensures ExpectedMovements(id, a) == ExpectedMovements(id, b)
  {
  }

  lemma PayKeepsSolvent(s: State, t: State, id: nat, payer: Address, payee: Address, status: Status)
    requires Solvent(s) && id in s.escrows && id < s.nextId && s.escrows[id].amount > 0
    requires status == Funded ==> s.escrows[id].status == Created && payer != s.contract && payee == s.contract
    requires status != Funded ==> s.escrows[id].status == Funded && payer == s.contract
    requires Transfer(s.tokens, s.escrows[id].asset, payer, payee, s.escrows[id].amount) == Some(t.tokens)
    requires t.escrows == s.escrows[id := s.escrows[id].(status := status)]
    requires t.nextId == s.nextId && t.contract == s.contract
    ensures Solvent(t)
  {
    hide FundedSum, Transfer, Balance;
    forall asset ensures FundedSum(t.escrows, asset, t.nextId) <= Balance(t.tokens, asset, t.contract) {
      FundedSumUpdate(s.escrows, asset, s.nextId, id, s.escrows[id].(status := status));
      assert FundedSum(s.escrows, asset, s.nextId) <= Balance(s.tokens, asset, s.contract);
    }
  }

  lemma PayKeepsInv(s: State, env: Env, id: nat, payer: Address, payee: Address, status: Status, m: Movement)
    requires Inv(s) && id in s.escrows && m.id == id
    requires status == Funded ==> s.escrows[id].status == Created && payer != s.contract && payee == s.contract
    requires status != Funded ==> s.escrows[id].status == Funded && payer == s.contract
    requires ExpectedMovements(id, s.escrows[id].(status := status)) == ExpectedMovements(id, s.escrows[id]) + [m]
    ensures Inv(PayStep(s, env, id, payer, payee, status, m).0)
  {
    var t, r := PayStep(s, env, id, payer, payee, status, m).0, PayStep(s, env, id, payer, payee, status, m).1;
    if r.Ok? {
      hide HistoryMatches, Solvent, Transfer, ExpectedMovements;
      PayKeepsHistory(s, t, id, status, m);
      PayKeepsSolvent(s, t, id, payer, payee, status);
    }
  }

  lemma CreateKeepsInv(s: State, env: Env, c: Call)
    requires Inv(s) && c.CreateEscrow?
    ensures Inv(CreateStep(s, env, c).0)
  {
    var t, r := CreateStep(s, env, c).0, CreateStep(s, env, c).1;
    if r.Ok? {
      forall asset ensures FundedSum(t.escrows, asset, t.nextId) == FundedSum(s.escrows, asset, s.nextId) {
        FundedSumUpdate(s.escrows, asset, s.nextId, s.nextId, t.escrows[s.nextId]);
      }
    }
  }

  lemma OthersKeepInv(s: State, ev: Event)
    requires Inv(s) && (ev.call.OtherTransfer? || ev.call.OtherMint?)
    ensures Inv(Step(s, ev))
  {
    hide FundedSum, MovementsOf, Transfer;
    var t := Step(s, ev);
    assert t == s.(tokens := t.tokens);
    forall asset ensures FundedSum(t.escrows, asset, t.nextId) <= Balance(t.tokens, asset, t.contract) {
      assert FundedSum(s.escrows, asset, s.nextId) <= Balance(s.tokens, asset, s.contract);
    }
  }

  /** Every call, and everything others do with the tokens, keeps the invariant. */
  lemma StepKeepsInv(s: State, ev: Event)
    requires Inv(s)
    ensures Inv(Step(s, ev))
  {
    hide FundedSum, MovementsOf, PayStep, CreateStep, OtherTransferStep, HistoryMatches, Solvent;
    match ev.call {
      case CreateEscrow(_, _, _, _, _) => CreateKeepsInv(s, ev.env, ev.call);
      case Fund(id) =>
        if id in s.escrows && s.escrows[id].status == Created {
          var e := s.escrows[id];
          PayKeepsInv(s, ev.env, id, e.sender, s.contract, Funded, In(id, e.sender, e.amount));
        }
      case Release(id) =>
        if id in s.escrows && s.escrows[id].status == Funded {
          var e := s.escrows[id];
          PayKeepsInv(s, ev.env, id, s.contract, e.recipient, Released, Out(id, e.recipient, e.amount));
        }
      case Refund(id) =>
        if id in s.escrows && s.escrows[id].status == Funded {
          var e := s.escrows[id];
          PayKeepsInv(s, ev.env, id, s.contract, e.sender, Refunded, Out(id, e.sender, e.amount));
        }
      case OtherTransfer(_, _, _, _) => OthersKeepInv(s, ev);
      case OtherMint(_, _, _) => OthersKeepInv(s, ev);
    }
  }

  // ----- Whole runs ----------------------------------------------------------------------

  ghost predicate Fresh(s: State) {
    s.nextId == 0 && s.escrows == map[] && s.log == [] && BalancesInRange(s.tokens)
  }

  /** The state after a sequence of calls, from a state that keeps the invariant. */
  ghost function Run(s: State, events: seq<Event>): (t: State)
    requires Inv(s)
    ensures Inv(t)
    decreases |events|
  {
    if events == [] then s
    else
      StepKeepsInv(s, events[0]);
      Run(Step(s, events[0]), events[1..])
  }

  lemma FreshInv(s: State)
    requires Fresh(s)
    ensures Inv(s)
  {
  }

  /**
   Solvency.  From deployment, after any calls by anyone, the contract holds at least the sum of
   the Funded escrows of every asset, and each escrow's transfers are exactly those of its status:
   none, one in, or one in and then one equal amount out to the stored recipient or sender.
   */
  lemma SolventForever(s: State, events: seq<Event>, asset: Address, id: nat)
    requires Fresh(s)
    ensures Inv(s)
    ensures
      var t := Run(s, events);
      && FundedSum(t.escrows, asset, t.nextId) <= Balance(t.tokens, asset, t.contract)
      && MovementsOf(t.log, id) == if id in t.escrows then ExpectedMovements(id, t.escrows[id]) else []
  {
    FreshInv(s);
    assert Solvent(Run(s, events)) && HistoryMatches(Run(s, events));
  }

  /** Only an issuer changes the supply of an asset. */
  lemma StepKeepsSupply(s: State, ev: Event, asset: Address)
    requires Inv(s) && !ev.call.OtherMint?
    ensures Supply(Step(s, ev).tokens, asset) == Supply(s.tokens, asset)
  {
    hide Supply, FundedSum, MovementsOf, Transfer;
    match ev.call {
      case CreateEscrow(_, _, _, _, _) =>
      case Fund(id) =>
        if id in s.escrows { TransferSupplyIfMade(s, s.escrows[id].asset, s.escrows[id].sender, s.contract, s.escrows[id].amount, asset); }
      case Release(id) =>
        if id in s.escrows { TransferSupplyIfMade(s, s.escrows[id].asset, s.contract, s.escrows[id].recipient, s.escrows[id].amount, asset); }
      case Refund(id) =>
        if id in s.escrows { TransferSupplyIfMade(s, s.escrows[id].asset, s.contract, s.escrows[id].sender, s.escrows[id].amount, asset); }
      case OtherTransfer(a, payer, payee, amount) =>
        TransferSupplyIfMade(s, a, payer, payee, amount, asset);
    }
  }

  lemma TransferSupplyIfMade(s: State, asset: Address, payer: Address, payee: Address, amount: nat, other: Address)
    ensures
      var b := Transfer(s.tokens, asset, payer, payee, amount);
      b.Some? ==> Supply(b.value, other) == Supply(s.tokens, other)
  {
    if Transfer(s.tokens, asset, payer, payee, amount).Some? {
      TransferKeepsSupply(s.tokens, asset, payer, payee, amount, other);
    }
  }

  lemma PaySurplus(s: State, env: Env, id: nat, payer: Address, payee: Address, status: Status, m: Movement, asset: Address)
    requires Inv(s) && id in s.escrows
    requires status == Funded ==> s.escrows[id].status == Created && payer != s.contract && payee == s.contract
    requires status != Funded ==> s.escrows[id].status == Funded && payer == s.contract
    ensures
      var t := PayStep(s, env, id, payer, payee, status, m).0;
      && Surplus(t, asset) >= Surplus(s, asset)
      && (Surplus(t, asset) > Surplus(s, asset) ==> payer == payee)
  {
    hide MovementsOf, HistoryMatches, Solvent, Transfer;
    FundedSumUpdate(s.escrows, asset, s.nextId, id, s.escrows[id].(status := status));
  }

  /** Nothing the contract does eats into the surplus; it grows only by tokens sent to the contract address. */
  lemma SurplusNeverShrinks(s: State, ev: Event, asset: Address)
    requires Inv(s)
    ensures Surplus(Step(s, ev), asset) >= Surplus(s, asset)
    ensures Surplus(Step(s, ev), asset) > Surplus(s, asset) ==>
              || (ev.call.OtherTransfer? && ev.call.payee == s.contract)
              || (ev.call.OtherMint? && ev.call.payee == s.contract)
              || (ev.call.Release? && ev.call.id in s.escrows && s.escrows[ev.call.id].recipient == s.contract)
  {
    hide MovementsOf, HistoryMatches, Solvent, PayStep, FundedSum, Transfer;
    match ev.call {
      case CreateEscrow(_, _, _, _, _) =>
        var t := Step(s, ev);
        if s.nextId in t.escrows {
          FundedSumUpdate(s.escrows, asset, s.nextId, s.nextId, t.escrows[s.nextId]);
          FundedSumSkips(t.escrows, asset, s.nextId);
        }
      case Fund(id) =>
        if id in s.escrows && s.escrows[id].status == Created {
          var e := s.escrows[id];
          PaySurplus(s, ev.env, id, e.sender, s.contract, Funded, In(id, e.sender, e.amount), asset);
        }
      case Release(id) =>
        if id in s.escrows && s.escrows[id].status == Funded {
          var e := s.escrows[id];
          PaySurplus(s, ev.env, id, s.contract, e.recipient, Released, Out(id, e.recipient, e.amount), asset);
        }
      case Refund(id) =>
        if id in s.escrows && s.escrows[id].status == Funded {
          var e := s.escrows[id];
          PaySurplus(s, ev.env, id, s.contract, e.sender, Refunded, Out(id, e.sender, e.amount), asset);
        }
      case OtherTransfer(_, _, _, _) =>
      case OtherMint(_, _, _) =>
    }
  }

  lemma FundedSumSkips(escrows: map<nat, Escrow>, asset: Address, n: nat)
    requires n in escrows && escrows[n].status != Funded
    ensures FundedSum(escrows, asset, n + 1) == FundedSum(escrows, asset, n)
  {
  }

  // ----- Paying out ----------------------------------------------------------------------

  lemma {:induction false} HeldWithinSum(s: State, asset: Address, id: nat, n: nat)
    requires Inv(s) && id < n <= s.nextId
    ensures Held(s.escrows[id], asset) <= FundedSum(s.escrows, asset, n)
  {
    if id < n - 1 {
      HeldWithinSum(s, asset, id, n - 1);
    } else {
      FundedSumNonNegative(s, asset, n - 1);
    }
  }

  lemma {:induction false} FundedSumNonNegative(s: State, asset: Address, n: nat)
    requires Inv(s)
    ensures FundedSum(s.escrows, asset, n) >= 0
  {
    if n > 0 {
      FundedSumNonNegative(s, asset, n - 1);
    }
  }

  /** Whether a holder's balance can take an amount more without leaving 128 bits. */
  predicate HasRoom(s: State, asset: Address, payee: Address, amount: int) {
    payee == s.contract || Balance(s.tokens, asset, payee) + amount <= MAX_I128
  }

  /**
   A Funded escrow's payout never fails for lack of funds: the contract holds the amount, so the
   token makes the transfer exactly when the payee has room, and a supply of 128 bits always leaves it room.
   */
  lemma PayoutCovered(s: State, id: nat, payee: Address)
    requires Inv(s) && id in s.escrows && s.escrows[id].status == Funded
    ensures
      var e := s.escrows[id];
      && e.amount <= Balance(s.tokens, e.asset, s.contract)
      && (Transfer(s.tokens, e.asset, s.contract, payee, e.amount).Some? <==> HasRoom(s, e.asset, payee, e.amount))
      && (Supply(s.tokens, e.asset) <= MAX_I128 ==> HasRoom(s, e.asset, payee, e.amount))
  {
    hide Supply, Transfer;
    var e := s.escrows[id];
    HeldWithinSum(s, e.asset, id, s.nextId);
    assert Solvent(s);
    if payee != s.contract {
      TwoBalancesWithinSupply(s.tokens, e.asset, s.contract, payee);
    }
  }

  /**
   A Funded escrow whose sender authorises, in a token that does not refuse: before the expiry
   release succeeds and refund does not, from the expiry on refund succeeds and release does not.
   */
  lemma ExactlyOneExit(s: State, env: Env, id: nat)
    requires Inv(s) && id in s.escrows && s.escrows[id].status == Funded
    ensures
      var e := s.escrows[id];
      && (ReleaseStep(s, env, id).1.Ok? <==>
          && env.now < e.expiresAt && e.sender in env.auths && !env.tokenRefuses
          && HasRoom(s, e.asset, e.recipient, e.amount))
      && (RefundStep(s, env, id).1.Ok? <==>
          && env.now >= e.expiresAt && e.sender in env.auths && !env.tokenRefuses
          && HasRoom(s, e.asset, e.sender, e.amount))
  {
    hide Supply, Transfer, HasRoom;
    PayoutCovered(s, id, s.escrows[id].recipient);
    PayoutCovered(s, id, s.escrows[id].sender);
  }

  lemma PaidTokens(s: State, env: Env, id: nat, payer: Address, payee: Address, status: Status, m: Movement)
    requires id in s.escrows && s.escrows[id].amount >= 0
    requires PayStep(s, env, id, payer, payee, status, m).1.Ok?
    ensures
      var t, e := PayStep(s, env, id, payer, payee, status, m).0, s.escrows[id];
      && t.contract == s.contract && t.escrows == s.escrows[id := e.(status := status)]
      && (forall w :: Balance(t.tokens, e.asset, w) == Balance(s.tokens, e.asset, w) + Delta(payer, payee, e.amount, w))
      && (forall a, w :: a != e.asset ==> Balance(t.tokens, a, w) == Balance(s.tokens, a, w))
  {
    hide Transfer, Balance, Delta;
  }

  /** Funding and then refunding gives every holder of every asset back its balance. */
  lemma FundThenRefund(s: State, env: Env, later: Env, id: nat, asset: Address, who: Address)
    requires Inv(s) && FundStep(s, env, id).1.Ok? && AmountsPositive(FundStep(s, env, id).0)
    requires RefundStep(FundStep(s, env, id).0, later, id).1.Ok?
    ensures Balance(RefundStep(FundStep(s, env, id).0, later, id).0.tokens, asset, who) == Balance(s.tokens, asset, who)
  {
    hide PayStep, Balance, HistoryMatches, Solvent, BalancesInRange;
    var e, t := s.escrows[id], FundStep(s, env, id).0;
    PaidTokens(s, env, id, e.sender, s.contract, Funded, In(id, e.sender, e.amount));
    PaidTokens(t, later, id, s.contract, e.sender, Refunded, Out(id, e.sender, e.amount));
  }

  /** Funding and then releasing moves the amount from sender to recipient and touches nobody else. */
  lemma FundThenRelease(s: State, env: Env, later: Env, id: nat, asset: Address, who: Address)
    requires Inv(s) && FundStep(s, env, id).1.Ok? && AmountsPositive(FundStep(s, env, id).0)
    requires ReleaseStep(FundStep(s, env, id).0, later, id).1.Ok?
    ensures
      var e := s.escrows[id];
      Balance(ReleaseStep(FundStep(s, env, id).0, later, id).0.tokens, asset, who) ==
      Balance(s.tokens, asset, who)
      + (if asset == e.asset && who == e.recipient then e.amount else 0)
      - (if asset == e.asset && who == e.sender then e.amount else 0)
  {
    hide PayStep, Balance, HistoryMatches, Solvent, BalancesInRange;
    var e, t := s.escrows[id], FundStep(s, env, id).0;
    PaidTokens(s, env, id, e.sender, s.contract, Funded, In(id, e.sender, e.amount));
    PaidTokens(t, later, id, s.contract, e.recipient, Released, Out(id, e.recipient, e.amount));
  }

  // ----- Lives ---------------------------------------------------------------------------

  /**
   The contract moves money only for the depositor: an escrow changes only by its own fund, release
   or refund call, with its sender's authorisation, and the contract's balance falls only in such a
   release or refund, by that escrow's amount in that escrow's asset.
   */
  lemma OnlyTheSenderMoves(s: State, ev: Event, id: nat, asset: Address)
    requires Inv(s) && id in s.escrows
    ensures
      var t := Step(s, ev);
      && (id in t.escrows && t.escrows[id] != s.escrows[id] ==>
            ev.call in {Fund(id), Release(id), Refund(id)} && s.escrows[id].sender in ev.env.auths)
      && (Balance(t.tokens, asset, t.contract) < Balance(s.tokens, asset, s.contract) ==>
            && (ev.call.Release? || ev.call.Refund?) && ev.call.id in s.escrows
            && var e := s.escrows[ev.call.id];
            && e.status == Funded && e.sender in ev.env.auths && e.asset == asset
            && Balance(t.tokens, asset, t.contract) == Balance(s.tokens, asset, s.contract) - e.amount)
  {
    hide Transfer, Balance, FundedSum, MovementsOf;
    var moved := OtherMoved(s, ev, asset);
    if ev.call.Fund? && ev.call.id in s.escrows && FundStep(s, ev.env, ev.call.id).1.Ok? {
      var e := s.escrows[ev.call.id];
      PaidTokens(s, ev.env, ev.call.id, e.sender, s.contract, Funded, In(ev.call.id, e.sender, e.amount));
    } else if ev.call.Release? && ev.call.id in s.escrows && ReleaseStep(s, ev.env, ev.call.id).1.Ok? {
      var e := s.escrows[ev.call.id];
      PaidTokens(s, ev.env, ev.call.id, s.contract, e.recipient, Released, Out(ev.call.id, e.recipient, e.amount));
    } else if ev.call.Refund? && ev.call.id in s.escrows && RefundStep(s, ev.env, ev.call.id).1.Ok? {
      var e := s.escrows[ev.call.id];
      PaidTokens(s, ev.env, ev.call.id, s.contract, e.sender, Refunded, Out(ev.call.id, e.sender, e.amount));
    }
  }

  /** Other token traffic never takes from the contract. */
  lemma OtherMoved(s: State, ev: Event, asset: Address) returns (after: nat)
    requires Inv(s)
    ensures ev.call.OtherTransfer? || ev.call.OtherMint? ==>
              && after == Balance(Step(s, ev).tokens, asset, s.contract) >= Balance(s.tokens, asset, s.contract)
              && Step(s, ev).escrows == s.escrows && Step(s, ev).contract == s.contract
  {
    hide FundedSum, MovementsOf;
    after := Balance(Step(s, ev).tokens, asset, s.contract);
  }

  /** When an escrow is created, and what refuses it; it takes the next id and nothing else changes. */
  lemma CreateAccepts(s: State, env: Env, c: Call)
    requires Inv(s) && c.CreateEscrow?
    ensures
      var (t, r) := CreateStep(s, env, c);
      var inRange := 0 < c.amount <= MAX_I128;
      && (r.Ok? <==>
          inRange && env.now < c.expiresAt && c.sender in env.auths && c.sender != s.contract && s.nextId < MAX_U64)
      && (r.Ok? ==>
          && r.value == s.nextId && t.nextId == s.nextId + 1 && t.escrows.Keys == s.escrows.Keys + {r.value}
          && (forall id :: id in s.escrows ==> t.escrows[id] == s.escrows[id])
          && t.tokens == s.tokens && t.log == s.log
          && var e := t.escrows[r.value];
          && e.asset == c.asset && e.sender == c.sender && e.recipient == c.recipient
          && e.amount == c.amount && e.expiresAt == c.expiresAt && e.status == Created)
      && (r.Err? ==> t == s)
      && (r == Err(InvalidAmount) <==> !inRange)
      && (r == Err(InvalidExpiry) <==> inRange && c.expiresAt <= env.now)
      && (r.Err? ==> r.error in {InvalidAmount, InvalidExpiry, Trap})
  {
    hide HistoryMatches, Solvent, BalancesInRange;
  }

  /** What refuses a payment: the wrong id, then the wrong status, then the wrong time, then a trap; and nothing changes. */
  lemma Refusals(s: State, env: Env, id: nat)
    requires Inv(s)
    ensures
      var (fund, release, refund) := (FundStep(s, env, id), ReleaseStep(s, env, id), RefundStep(s, env, id));
      && (fund.1.Err? ==> fund.0 == s) && (release.1.Err? ==> release.0 == s) && (refund.1.Err? ==> refund.0 == s)
      && (id !in s.escrows ==> fund.1 == release.1 == refund.1 == Err(EscrowNotFound))
      && (id in s.escrows ==>
            var e := s.escrows[id];
            && (fund.1 == Err(InvalidState) <==> e.status != Created)
            && (release.1 == Err(InvalidState) <==> e.status != Funded)
            && (refund.1 == Err(InvalidState) <==> e.status != Funded)
            && (fund.1 == Err(InvalidExpiry) <==> e.status == Created && env.now >= e.expiresAt)
            && (release.1 == Err(InvalidExpiry) <==> e.status == Funded && env.now >= e.expiresAt)
            && (refund.1 == Err(InvalidExpiry) <==> e.status == Funded && env.now < e.expiresAt)
            && EscrowNotFound !in ErrorsOf(fund.1) + ErrorsOf(release.1) + ErrorsOf(refund.1)
            && InvalidAmount !in ErrorsOf(fund.1) + ErrorsOf(release.1) + ErrorsOf(refund.1))
  {
    hide HistoryMatches, Solvent, BalancesInRange, Transfer;
  }

  function ErrorsOf(r: Result<(), Error>): set<Error> {
    if r.Err? then {r.error} else {}
  }

  /** Funding succeeds exactly before the expiry, once, with the sender's authorisation and money. */
  lemma FundAccepts(s: State, env: Env, id: nat)
    requires Inv(s) && id in s.escrows
    ensures
      var e := s.escrows[id];
      && (FundStep(s, env, id).1.Ok? <==>
          && e.status == Created && env.now < e.expiresAt && e.sender in env.auths && !env.tokenRefuses
          && e.amount <= Balance(s.tokens, e.asset, e.sender)
          && Balance(s.tokens, e.asset, s.contract) + e.amount <= MAX_I128)
      && (Supply(s.tokens, e.asset) <= MAX_I128 && e.amount <= Balance(s.tokens, e.asset, e.sender) ==>
            Balance(s.tokens, e.asset, s.contract) + e.amount <= MAX_I128)
  {
    hide Supply, Balance;
    TwoBalancesWithinSupply(s.tokens, s.escrows[id].asset, s.escrows[id].sender, s.contract);
  }

  /**
   One payment from end to end.  An escrow created, funded and released moves exactly the amount
   asked for, in the asset asked for, from the sender to the recipient; refunded instead, it moves nothing.
   */
  lemma LifeOfPayment(s: State, env: Env, c: Call, funding: Env, exit: Env, asset: Address, who: Address)
    requires Inv(s) && c.CreateEscrow? && CreateStep(s, env, c).1.Ok?
    requires FundStep(CreateStep(s, env, c).0, funding, s.nextId).1.Ok?
    ensures
      var id := s.nextId;
      var funded := FundStep(CreateStep(s, env, c).0, funding, id).0;
      && CreateStep(s, env, c).1.value == id && id !in s.escrows && c.sender in env.auths && env.now < c.expiresAt
      && Inv(funded)
      && (ReleaseStep(funded, exit, id).1.Ok? ==>
            && exit.now < c.expiresAt
            && Balance(ReleaseStep(funded, exit, id).0.tokens, asset, who) ==
               Balance(s.tokens, asset, who) + if asset == c.asset then Delta(c.sender, c.recipient, c.amount, who) else 0)
      && (RefundStep(funded, exit, id).1.Ok? ==>
            && exit.now >= c.expiresAt
            && Balance(RefundStep(funded, exit, id).0.tokens, asset, who) == Balance(s.tokens, asset, who))
  {
    var id := s.nextId;
    StepKeepsInv(s, Event(env, c));
    var created := CreateStep(s, env, c).0;
    assert created.tokens == s.tokens && created.escrows[id] == Escrow(c.asset, c.sender, c.recipient, c.amount, c.expiresAt, Created);
    StepKeepsInv(created, Event(funding, Fund(id)));
    var funded := FundStep(created, funding, id).0;
    hide Transfer, Balance, Delta, Inv;
    Positive(funded);
    FundedFields(created, funding, id);
    if ReleaseStep(funded, exit, id).1.Ok? {
      FundThenRelease(created, funding, exit, id, asset, who);
    }
    if RefundStep(funded, exit, id).1.Ok? {
      FundThenRefund(created, funding, exit, id, asset, who);
    }
  }

  lemma FundedFields(s: State, env: Env, id: nat)
    requires Inv(s) && FundStep(s, env, id).1.Ok?
    ensures
      var t := FundStep(s, env, id).0;
      id in s.escrows && id in t.escrows && t.escrows[id] == s.escrows[id].(status := Funded)
  {
    hide Transfer, Balance;
  }

  /** The statuses that can follow a status. */
  ghost predicate Follows(a: Status, b: Status) {
    a == b || a == Created || (a == Funded && b != Created)
  }

  lemma StepFollows(s: State, ev: Event, id: nat)
    requires Inv(s) && id in s.escrows
    ensures
      var t := Step(s, ev);
      && id in t.escrows && t.escrows[id] == s.escrows[id].(status := t.escrows[id].status)
      && Follows(s.escrows[id].status, t.escrows[id].status)
      && (s.escrows[id].status == Created && ev.env.now >= s.escrows[id].expiresAt ==> t.escrows[id].status == Created)
      && (s.escrows[id].status == Created ==> t.escrows[id].status in {Created, Funded})
  {
    hide FundedSum, MovementsOf, Transfer, HistoryMatches, Solvent;
  }

  /** The terms of an escrow never change, its status only moves forward, and a settled escrow stays settled. */
  lemma {:induction false} LifeForward(s: State, events: seq<Event>, id: nat)
    requires Inv(s) && id in s.escrows
    ensures
      var t := Run(s, events);
      && id in t.escrows && t.escrows[id] == s.escrows[id].(status := t.escrows[id].status)
      && Follows(s.escrows[id].status, t.escrows[id].status)
    decreases |events|
  {
    if events != [] {
      hide Step, Inv, AmountsPositive;
      Positive(s);
      StepFollows(s, events[0], id);
      StepKeepsInv(s, events[0]);
      LifeForward(Step(s, events[0]), events[1..], id);
    }
  }

  lemma Positive(s: State)
    requires Inv(s)
    ensures AmountsPositive(s)
  {
  }

  /** Every call of the run happens at or after a time. */
  ghost predicate NotBefore(events: seq<Event>, time: nat) {
    forall i :: 0 <= i < |events| ==> time <= events[i].env.now
  }

  /** An escrow left unfunded until it expires is never funded afterwards. */
  lemma {:induction false} ExpiredNeverFunded(s: State, events: seq<Event>, id: nat)
    requires Inv(s) && id in s.escrows && s.escrows[id].status == Created
    requires NotBefore(events, s.escrows[id].expiresAt)
    ensures id in Run(s, events).escrows && Run(s, events).escrows[id] == s.escrows[id]
    decreases |events|
  {
    if events != [] {
      hide Step, Inv, AmountsPositive;
      Positive(s);
      StepFollows(s, events[0], id);
      StepKeepsInv(s, events[0]);
      assert forall i :: 0 <= i < |events[1..]| ==> events[1..][i] == events[i + 1];
      ExpiredNeverFunded(Step(s, events[0]), events[1..], id);
    }
  }
}
