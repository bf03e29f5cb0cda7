/**
 The multisig contract: a fixed signer set, proposals that gather approvals, and two families of
 proposals, plain records and token transfers, numbered by one counter.
 */
module Multisig {
  import opened Wrappers
  import opened Runs
  import opened Tokens

  datatype Proposal = Proposal(to: Address, amount: int, approvals: seq<Address>, executed: bool)

  datatype TransferProposal = TransferProposal(asset: Address, to: Address, amount: int,
                                               approvals: seq<Address>, executed: bool)

  datatype Error =
    | AlreadyInitialized | NotInitialized | InvalidThreshold | NotASigner | ProposalNotFound
    | AlreadyApproved | AlreadyExecuted | ThresholdNotMet | InvalidAmount | DuplicateSigner
    | Trap  // a missing authorisation, a failed token transfer, an id past 64 bits

  /** An approval given by an authorised propose or approve call. */
  datatype Approval = Approval(id: nat, who: Address)

  datatype State = State(contract: Address, signers: Option<seq<Address>>, threshold: Option<nat>,
                         nextId: Option<nat>, proposals: map<nat, Proposal>,
                         transfers: map<nat, TransferProposal>, tokens: Balances, log: seq<Approval>)

  datatype Env = Env(auths: set<Address>, tokenRefuses: bool)

  datatype Call =
    | Initialize(signerList: seq<Address>, threshold: nat)
    | Propose(who: Address, to: Address, amount: int)
    | Approve(who: Address, id: nat)
    | Execute(id: nat)
    | ProposeTransfer(who: Address, asset: Address, to: Address, amount: int)
    | ApproveTransfer(who: Address, id: nat)
    | ExecuteTransfer(id: nat)
    | OtherTransfer(asset: Address, payer: Address, payee: Address, units: nat)
    | OtherMint(asset: Address, payee: Address, units: nat)

  datatype Event = Event(env: Env, call: Call)

  // ----- One call ------------------------------------------------------------------------

  predicate Authorised(contract: Address, env: Env, who: Address) {
    who in env.auths && who != contract
  }

  predicate Distinct(s: seq<Address>) {
    forall i, j :: 0 <= i < j < |s| ==> s[i] != s[j]
  }

  /** The first signer, in order, that repeats an earlier one or did not authorise. */
  function CheckSigners(contract: Address, env: Env, list: seq<Address>, i: nat): Result<(), Error>
    requires i <= |list|
    decreases |list| - i
  {
    if i == |list| then Ok(())
    else if list[i] in list[..i] then Err(DuplicateSigner)
    else if !Authorised(contract, env, list[i]) then Err(Trap)
    else CheckSigners(contract, env, list, i + 1)
  }

  function InitializeStep(s: State, env: Env, list: seq<Address>, threshold: nat): (State, Result<(), Error>) {
    if s.signers.Some? then (s, Err(AlreadyInitialized))
    else if threshold == 0 || threshold > |list| then (s, Err(InvalidThreshold))
    else
      match CheckSigners(s.contract, env, list, 0) {
        case Err(e) => (s, Err(e))
        case Ok(_) => (s.(signers := Some(list), threshold := Some(threshold), nextId := Some(0)), Ok(()))
      }
  }

  function RequireSigner(signers: Option<seq<Address>>, who: Address): Result<(), Error> {
    if signers.None? then Err(NotInitialized)
    else if who !in signers.value then Err(NotASigner)
    else Ok(())
  }

  /** The checks both propose calls make; on success the id the proposal gets. */
  function ProposeCheck(s: State, env: Env, who: Address, amount: int): Result<nat, Error> {
    if amount <= 0 || amount > MAX_I128 then Err(InvalidAmount)
    else if !Authorised(s.contract, env, who) then Err(Trap)
    else if RequireSigner(s.signers, who).Err? then Err(RequireSigner(s.signers, who).error)
    else if s.nextId.None? then Err(NotInitialized)
    else if s.nextId.value >= MAX_U64 then Err(Trap)
    else Ok(s.nextId.value)
  }

  function ProposeStep(s: State, env: Env, who: Address, to: Address, amount: int): (State, Result<nat, Error>) {
    match ProposeCheck(s, env, who, amount) {
      case Err(e) => (s, Err(e))
      case Ok(id) =>
        (s.(proposals := s.proposals[id := Proposal(to, amount, [who], false)], nextId := Some(id + 1),
         log := s.log + [Approval(id, who)]), Ok(id))
    }
  }

  function ProposeTransferStep(s: State, env: Env, who: Address, asset: Address, to: Address, amount: int)
    : (State, Result<nat, Error>)
  {
    match ProposeCheck(s, env, who, amount) {
      case Err(e) => (s, Err(e))
      case Ok(id) =>
        (s.(transfers := s.transfers[id := TransferProposal(asset, to, amount, [who], false)],
         nextId := Some(id + 1), log := s.log + [Approval(id, who)]), Ok(id))
    }
  }

  function ApproveStep(s: State, env: Env, who: Address, id: nat): (State, Result<(), Error>) {
    if !Authorised(s.contract, env, who) then (s, Err(Trap))
    else if RequireSigner(s.signers, who).Err? then (s, Err(RequireSigner(s.signers, who).error))
    else if id !in s.proposals then (s, Err(ProposalNotFound))
    else
      var p := s.proposals[id];
      if p.executed then (s, Err(AlreadyExecuted))
      else if who in p.approvals then (s, Err(AlreadyApproved))
      else
        (s.(proposals := s.proposals[id := p.(approvals := p.approvals + [who])],
         log := s.log + [Approval(id, who)]), Ok(()))
  }

  function ApproveTransferStep(s: State, env: Env, who: Address, id: nat): (State, Result<(), Error>) {
    if !Authorised(s.contract, env, who) then (s, Err(Trap))
    else if RequireSigner(s.signers, who).Err? then (s, Err(RequireSigner(s.signers, who).error))
    else if id !in s.transfers then (s, Err(ProposalNotFound))
    else
      var p := s.transfers[id];
      if p.executed then (s, Err(AlreadyExecuted))
      else if who in p.approvals then (s, Err(AlreadyApproved))
      else
        (s.(transfers := s.transfers[id := p.(approvals := p.approvals + [who])],
         log := s.log + [Approval(id, who)]), Ok(()))
  }

  function ExecuteStep(s: State, id: nat): (State, Result<(), Error>) {
    if id !in s.proposals then (s, Err(ProposalNotFound))
    else
      var p := s.proposals[id];
      if p.executed then (s, Err(AlreadyExecuted))
      else if s.threshold.None? then (s, Err(NotInitialized))
      else if |p.approvals| < s.threshold.value then (s, Err(ThresholdNotMet))
      else (s.(proposals := s.proposals[id := p.(executed := true)]), Ok(()))
  }

  function PayOut(s: State, env: Env, p: TransferProposal): Option<Balances> {
    if env.tokenRefuses || p.amount < 0 then None
    else Transfer(s.tokens, p.asset, s.contract, p.to, p.amount)
  }

  function ExecuteTransferStep(s: State, env: Env, id: nat): (State, Result<(), Error>) {
    if id !in s.transfers then (s, Err(ProposalNotFound))
    else
      var p := s.transfers[id];
      if p.executed then (s, Err(AlreadyExecuted))
      else if s.threshold.None? then (s, Err(NotInitialized))
      else if |p.approvals| < s.threshold.value then (s, Err(ThresholdNotMet))
      else
        match PayOut(s, env, p) {
          case None => (s, Err(Trap))
          case Some(b) => (s.(tokens := b, transfers := s.transfers[id := p.(executed := true)]), Ok(()))
        }
  }

  /** A transfer nobody made through this contract; the contract's own tokens cannot be the source. */
  function OtherTransferred(s: State, env: Env, asset: Address, payer: Address, payee: Address, units: nat): Option<Balances> {
    if !Authorised(s.contract, env, payer) || env.tokenRefuses then None
    else Transfer(s.tokens, asset, payer, payee, units)
  }

  function Step(s: State, ev: Event): State {
    match ev.call {
      case Initialize(list, threshold) => InitializeStep(s, ev.env, list, threshold).0
      case Propose(who, to, amount) => ProposeStep(s, ev.env, who, to, amount).0
      case Approve(who, id) => ApproveStep(s, ev.env, who, id).0
      case Execute(id) => ExecuteStep(s, id).0
      case ProposeTransfer(who, asset, to, amount) => ProposeTransferStep(s, ev.env, who, asset, to, amount).0
      case ApproveTransfer(who, id) => ApproveTransferStep(s, ev.env, who, id).0
      case ExecuteTransfer(id) => ExecuteTransferStep(s, ev.env, id).0
      case OtherTransfer(asset, payer, payee, units) =>
        var moved := OtherTransferred(s, ev.env, asset, payer, payee, units);
        if moved.Some? then s.(tokens := moved.value) else s
      case OtherMint(asset, payee, units) => s.(tokens := Mint(s.tokens, asset, payee, units))
    }
  }

  // ----- The contract --------------------------------------------------------------------

  class MultisigContract {
    const contract: Address
    var signers: Option<seq<Address>>
    var threshold: Option<nat>
    var nextId: Option<nat>
    var proposals: map<nat, Proposal>
    var transfers: map<nat, TransferProposal>
    var tokens: Balances
    ghost var log: seq<Approval>

    ghost function Contents(): State
      reads this
    {
      State(contract, signers, threshold, nextId, proposals, transfers, tokens, log)
    }

    constructor (contract: Address, tokens: Balances)
      ensures Contents() == State(contract, None, None, None, map[], map[], tokens, [])
    {
      this.contract := contract;
      signers, threshold, nextId := None, None, None;
      proposals, transfers := map[], map[];
      this.tokens := tokens;
      log := [];
    }

    method InitializeContract(env: Env, list: seq<Address>, newThreshold: nat) returns (r: Result<(), Error>)
      modifies this
      ensures (Contents(), r) == InitializeStep(old(Contents()), env, list, newThreshold)
    {
      if signers.Some? {
        return Err(AlreadyInitialized);
      }
      if newThreshold == 0 || newThreshold > |list| {
        return Err(InvalidThreshold);
      }
      var unique: seq<Address> := [];
      for i := 0 to |list|
        invariant unique == list[..i]
        invariant Contents() == old(Contents())
        invariant CheckSigners(contract, env, list, 0) == CheckSigners(contract, env, list, i)
      {
        if list[i] in unique {
          return Err(DuplicateSigner);
        }
        if list[i] !in env.auths || list[i] == contract {
          return Err(Trap);
        }
        unique := unique + [list[i]];
      }
      signers := Some(list);
      threshold := Some(newThreshold);
      nextId := Some(0);
      return Ok(());
    }

    /** Passes exactly the registered signers, and tells a contract without signers from a stranger. */
    method CheckSigner(who: Address) returns (r: Result<(), Error>)
      ensures r.Ok? <==> signers.Some? && who in signers.value
      ensures r == Err(NotInitialized) <==> signers.None?
      ensures r == Err(NotASigner) <==> signers.Some? && who !in signers.value
    {
      if signers.None? {
        return Err(NotInitialized);
      }
      if who !in signers.value {
        return Err(NotASigner);
      }
      return Ok(());
    }

    method ProposeTransaction(env: Env, who: Address, to: Address, amount: int) returns (r: Result<nat, Error>)
      modifies this
      ensures (Contents(), r) == ProposeStep(old(Contents()), env, who, to, amount)
    {
      if amount <= 0 || amount > MAX_I128 {
        return Err(InvalidAmount);
      }
      if who !in env.auths || who == contract {
        return Err(Trap);
      }
      var signer := CheckSigner(who);
      if signer.Err? {
        return Err(signer.error);
      }
      if nextId.None? {
        return Err(NotInitialized);
      }
      var id := nextId.value;
      if id >= MAX_U64 {
        return Err(Trap);
      }
      var approvals := [who];
      proposals := proposals[id := Proposal(to, amount, approvals, false)];
      nextId := Some(id + 1);
      log := log + [Approval(id, who)];
      return Ok(id);
    }

    method ApproveProposal(env: Env, who: Address, id: nat) returns (r: Result<(), Error>)
      modifies this
      ensures (Contents(), r) == ApproveStep(old(Contents()), env, who, id)
    {
      if who !in env.auths || who == contract {
        return Err(Trap);
      }
      var signer := CheckSigner(who);
      if signer.Err? {
        return Err(signer.error);
      }
      if id !in proposals {
        return Err(ProposalNotFound);
      }
      var p := proposals[id];
      if p.executed {
        return Err(AlreadyExecuted);
      }
      if who in p.approvals {
        return Err(AlreadyApproved);
      }
      p := p.(approvals := p.approvals + [who]);
      proposals := proposals[id := p];
      log := log + [Approval(id, who)];
      return Ok(());
    }

    method ExecuteProposal(id: nat) returns (r: Result<(), Error>)
      modifies this
      ensures (Contents(), r) == ExecuteStep(old(Contents()), id)
    {
      if id !in proposals {
        return Err(ProposalNotFound);
      }
      var p := proposals[id];
      if p.executed {
        return Err(AlreadyExecuted);
      }
      if threshold.None? {
        return Err(NotInitialized);
      }
      if |p.approvals| < threshold.value {
        return Err(ThresholdNotMet);
      }
      p := p.(executed := true);
      proposals := proposals[id := p];
      return Ok(());
    }

    method ProposeAssetTransfer(env: Env, who: Address, asset: Address, to: Address, amount: int)
      returns (r: Result<nat, Error>)
      modifies this
      ensures (Contents(), r) == ProposeTransferStep(old(Contents()), env, who, asset, to, amount)
    {
      if amount <= 0 || amount > MAX_I128 {
        return Err(InvalidAmount);
      }
      if who !in env.auths || who == contract {
        return Err(Trap);
      }
      var signer := CheckSigner(who);
      if signer.Err? {
        return Err(signer.error);
      }
      if nextId.None? {
        return Err(NotInitialized);
      }
      var id := nextId.value;
      if id >= MAX_U64 {
        return Err(Trap);
      }
      transfers := transfers[id := TransferProposal(asset, to, amount, [who], false)];
      nextId := Some(id + 1);
      log := log + [Approval(id, who)];
      return Ok(id);
    }

    method ApproveAssetTransfer(env: Env, who: Address, id: nat) returns (r: Result<(), Error>)
      modifies this
      ensures (Contents(), r) == ApproveTransferStep(old(Contents()), env, who, id)
    {
      if who !in env.auths || who == contract {
        return Err(Trap);
      }
      var signer := CheckSigner(who);
      if signer.Err? {
        return Err(signer.error);
      }
      if id !in transfers {
        return Err(ProposalNotFound);
      }
      var p := transfers[id];
      if p.executed {
        return Err(AlreadyExecuted);
      }
      if who in p.approvals {
        return Err(AlreadyApproved);
      }
      p := p.(approvals := p.approvals + [who]);
      transfers := transfers[id := p];
      log := log + [Approval(id, who)];
      return Ok(());
    }

    method ExecuteAssetTransfer(env: Env, id: nat) returns (r: Result<(), Error>)
      modifies this
      ensures (Contents(), r) == ExecuteTransferStep(old(Contents()), env, id)
    {
      if id !in transfers {
        return Err(ProposalNotFound);
      }
      var p := transfers[id];
      if p.executed {
        return Err(AlreadyExecuted);
      }
      if threshold.None? {
        return Err(NotInitialized);
      }
      if |p.approvals| < threshold.value {
        return Err(ThresholdNotMet);
      }
      if env.tokenRefuses || p.amount < 0 {
        return Err(Trap);
      }
      var moved := Transfer(tokens, p.asset, contract, p.to, p.amount);
      if moved.None? {
        return Err(Trap);
      }
      tokens := moved.value;
      p := p.(executed := true);
      transfers := transfers[id := p];
      return Ok(());
    }
  }

  // ----- Signers -------------------------------------------------------------------------

  /** The loop stops at this signer: it repeats one of the earlier ones, which are distinct and authorised. */
  ghost predicate RepeatsEarlier(contract: Address, env: Env, list: seq<Address>, k: int) {
    && 0 <= k < |list| && Distinct(list[..k]) && list[k] in list[..k]
    && forall j :: 0 <= j < k ==> Authorised(contract, env, list[j])
  }

  lemma {:induction false} CheckSignersFrom(contract: Address, env: Env, list: seq<Address>, i: nat)
    requires i <= |list| && Distinct(list[..i])
    requires forall j :: 0 <= j < i ==> Authorised(contract, env, list[j])
    ensures CheckSigners(contract, env, list, i).Ok? <==>
            Distinct(list) && forall j :: 0 <= j < |list| ==> Authorised(contract, env, list[j])
    ensures CheckSigners(contract, env, list, i) == Err(DuplicateSigner) <==>
            exists k :: i <= k && RepeatsEarlier(contract, env, list, k)
    ensures CheckSigners(contract, env, list, i).Err? ==> CheckSigners(contract, env, list, i).error in {DuplicateSigner, Trap}
    decreases |list| - i
  {
    if i == |list| {
      assert list[..i] == list;
    } else if list[i] in list[..i] {
      var j :| 0 <= j < i && list[..i][j] == list[i];
      assert list[j] == list[i];
      assert RepeatsEarlier(contract, env, list, i);
    } else if Authorised(contract, env, list[i]) {
      assert list[..i + 1] == list[..i] + [list[i]];
      DistinctAppend(list[..i], list[i]);
      CheckSignersFrom(contract, env, list, i + 1);
    } else {
      assert !RepeatsEarlier(contract, env, list, i);
    }
  }

  /**
   The signer loop accepts exactly the duplicate-free lists whose every member authorised, once, with a
   threshold in range; it then stores that list and that threshold and starts counting at zero.
   */
  lemma InitializeAccepts(s: State, env: Env, list: seq<Address>, threshold: nat)
    ensures
      var (t, r) := InitializeStep(s, env, list, threshold);
      && (r.Ok? <==>
          && s.signers.None? && 1 <= threshold <= |list| && Distinct(list)
          && forall j :: 0 <= j < |list| ==> Authorised(s.contract, env, list[j]))
      && (r.Ok? ==>
          && t.signers == Some(list) && t.threshold == Some(threshold) && t.nextId == Some(0)
          && t.proposals == s.proposals && t.transfers == s.transfers && t.tokens == s.tokens && t.log == s.log)
      && (r.Err? ==> t == s)
      && (r == Err(AlreadyInitialized) <==> s.signers.Some?)
      && (r == Err(InvalidThreshold) <==> s.signers.None? && !(1 <= threshold <= |list|))
      && (r == Err(DuplicateSigner) <==>
          s.signers.None? && 1 <= threshold <= |list| && exists k :: RepeatsEarlier(s.contract, env, list, k))
  {
    CheckSignersFrom(s.contract, env, list, 0);
  }

  function Members(s: seq<Address>): set<Address> {
    set a | a in s
  }

  lemma {:induction false} DistinctSize(s: seq<Address>)
    requires Distinct(s)
    ensures |Members(s)| == |s|
  {
    if s != [] {
      var n := |s| - 1;
      DistinctSize(s[..n]);
      assert s == s[..n] + [s[n]];
      assert Members(s) == Members(s[..n]) + {s[n]};
      assert s[n] !in s[..n];
    }
  }

  lemma SubsetSize(a: set<Address>, b: set<Address>)
    requires a <= b
    ensures |a| <= |b|
  {
    assert b == a + (b - a);
  }

  /** A duplicate-free list of signers shorter than the signer list misses one of them. */
  lemma MissingSigner(approvals: seq<Address>, signers: seq<Address>) returns (who: Address)
    requires Distinct(approvals) && Distinct(signers) && |approvals| < |signers|
    ensures who in signers && who !in approvals
  {
    DistinctSize(approvals);
    DistinctSize(signers);
    if Members(signers) <= Members(approvals) {
      SubsetSize(Members(signers), Members(approvals));
      assert false;
    }
    who :| who in Members(signers) && who !in Members(approvals);
  }

  // ----- The invariant -------------------------------------------------------------------

  /** Who approved a proposal, in the order of the history. */
  ghost function ApproversOf(log: seq<Approval>, id: nat): seq<Address> {
    if log == [] then []
    else
      var last, rest := log[|log| - 1], ApproversOf(log[..|log| - 1], id);
      if last.id == id then rest + [last.who] else rest
  }

  ghost predicate ApprovalsSound(s: State, id: nat, approvals: seq<Address>, executed: bool)
    requires s.signers.Some? && s.threshold.Some?
  {
    && approvals == ApproversOf(s.log, id)
    && Distinct(approvals)
    && (forall a :: a in approvals ==> a in s.signers.value)
    && (executed ==> |approvals| >= s.threshold.value)
  }

  ghost predicate Configured(s: State) {
    && s.signers.Some? && s.threshold.Some? && s.nextId.Some?
    && Distinct(s.signers.value) && s.contract !in s.signers.value
    && 1 <= s.threshold.value <= |s.signers.value|
    && s.nextId.value <= MAX_U64
  }

  /** Every id below the counter lives in exactly one of the two maps, and no other id in either. */
  ghost predicate IdsPartitioned(s: State)
    requires s.nextId.Some?
  {
    && (forall id: nat :: id < s.nextId.value <==> id in s.proposals || id in s.transfers)
    && (forall id: nat :: !(id in s.proposals && id in s.transfers))
  }

  ghost predicate Blank(s: State) {
    && s.signers.None? && s.threshold.None? && s.nextId.None?
    && s.proposals == map[] && s.transfers == map[] && s.log == []
  }

  ghost predicate Active(s: State) {
    && Configured(s) && IdsPartitioned(s)
    && (forall id :: id in s.proposals ==>
          ApprovalsSound(s, id, s.proposals[id].approvals, s.proposals[id].executed) && s.proposals[id].amount > 0)
    && (forall id :: id in s.transfers ==>
          ApprovalsSound(s, id, s.transfers[id].approvals, s.transfers[id].executed) && s.transfers[id].amount > 0)
    && (forall id: nat :: id >= s.nextId.value ==> ApproversOf(s.log, id) == [])
  }

  ghost predicate Inv(s: State) {
    BalancesInRange(s.tokens) && (Blank(s) || Active(s))
  }

  lemma ApproversOfAppend(log: seq<Approval>, a: Approval, id: nat)
    ensures ApproversOf(log + [a], id) == if a.id == id then ApproversOf(log, id) + [a.who] else ApproversOf(log, id)
  {
    assert (log + [a])[..|log + [a]| - 1] == log;
  }

  lemma AppendLog(log: seq<Approval>, a: Approval)
    ensures forall id: nat :: ApproversOf(log + [a], id) ==
                              if a.id == id then ApproversOf(log, id) + [a.who] else ApproversOf(log, id)
  {
    forall id: nat ensures ApproversOf(log + [a], id) ==
                           if a.id == id then ApproversOf(log, id) + [a.who] else ApproversOf(log, id) {
      ApproversOfAppend(log, a, id);
    }
  }

  lemma DistinctAppend(s: seq<Address>, a: Address)
    requires Distinct(s) && a !in s
    ensures Distinct(s + [a])
  {
  }

  lemma InitializeKeepsInv(s: State, env: Env, list: seq<Address>, threshold: nat)
    requires Inv(s)
    ensures Inv(InitializeStep(s, env, list, threshold).0)
  {
    hide CheckSigners;
    InitializeAccepts(s, env, list, threshold);
    assert list != [] ==> ApproversOf([], 0) == [];
  }

  /** One more approver at one id leaves every other proposal's approvals sound. */
  lemma SoundAfterApproval(s: State, t: State, a: Approval, id: nat, approvals: seq<Address>, executed: bool)
    requires Configured(s) && t.signers == s.signers && t.threshold == s.threshold && t.log == s.log + [a]
    requires ApprovalsSound(s, id, approvals, executed)
    requires a.id == id ==> a.who in s.signers.value && a.who !in approvals && !executed
    ensures ApprovalsSound(t, id, if a.id == id then approvals + [a.who] else approvals, executed)
  {
    ApproversOfAppend(s.log, a, id);
    if a.id == id {
      DistinctAppend(approvals, a.who);
    }
  }

  lemma OthersStaySound(s: State, t: State, a: Approval)
    requires Active(s) && t.signers == s.signers && t.threshold == s.threshold && t.log == s.log + [a]
    ensures forall i :: i in s.proposals && i != a.id ==>
              ApprovalsSound(t, i, s.proposals[i].approvals, s.proposals[i].executed)
    ensures forall i :: i in s.transfers && i != a.id ==>
              ApprovalsSound(t, i, s.transfers[i].approvals, s.transfers[i].executed)
  {
    hide ApprovalsSound, IdsPartitioned;
    forall i | i in s.proposals && i != a.id
      ensures ApprovalsSound(t, i, s.proposals[i].approvals, s.proposals[i].executed)
    {
      SoundAfterApproval(s, t, a, i, s.proposals[i].approvals, s.proposals[i].executed);
    }
    forall i | i in s.transfers && i != a.id
      ensures ApprovalsSound(t, i, s.transfers[i].approvals, s.transfers[i].executed)
    {
      SoundAfterApproval(s, t, a, i, s.transfers[i].approvals, s.transfers[i].executed);
    }
  }

  lemma FirstApproval(s: State, t: State, a: Approval)
    requires Configured(s) && t.signers == s.signers && t.threshold == s.threshold && t.log == s.log + [a]
    requires ApproversOf(s.log, a.id) == [] && a.who in s.signers.value
    ensures ApprovalsSound(t, a.id, [a.who], false)
  {
    ApproversOfAppend(s.log, a, a.id);
  }

  /** A proposal of either family under the next id, approved by its proposer, keeps the state active. */
  lemma ActiveAfterProposal(s: State, t: State, a: Approval)
    requires Active(s) && t.log == s.log + [a] && a.who in s.signers.value
    requires t.signers == s.signers && t.threshold == s.threshold && t.contract == s.contract
    requires Some(a.id) == s.nextId && a.id < MAX_U64 && t.nextId == Some(a.id + 1)
    requires || (t.transfers == s.transfers && a.id in t.proposals
                 && t.proposals == s.proposals[a.id := t.proposals[a.id]]
                 && t.proposals[a.id].amount > 0
                 && t.proposals[a.id].approvals == [a.who] && !t.proposals[a.id].executed)
             || (t.proposals == s.proposals && a.id in t.transfers
                 && t.transfers == s.transfers[a.id := t.transfers[a.id]]
                 && t.transfers[a.id].amount > 0
                 && t.transfers[a.id].approvals == [a.who] && !t.transfers[a.id].executed)
    ensures Active(t)
  {
    hide ApproversOf, Distinct, ApprovalsSound;
    AppendLog(s.log, a);
    OthersStaySound(s, t, a);
    FirstApproval(s, t, a);
  }

  lemma ProposeKeepsInv(s: State, env: Env, who: Address, to: Address, amount: int)
    requires Inv(s)
    ensures Inv(ProposeStep(s, env, who, to, amount).0)
  {
    hide ApprovalsSound, BalancesInRange, Distinct;
    var t := ProposeStep(s, env, who, to, amount).0;
    if t != s {
      ActiveAfterProposal(s, t, Approval(s.nextId.value, who));
      hide Active;
    }
  }

  lemma ProposeTransferKeepsInv(s: State, env: Env, who: Address, asset: Address, to: Address, amount: int)
    requires Inv(s)
    ensures Inv(ProposeTransferStep(s, env, who, asset, to, amount).0)
  {
    hide ApprovalsSound, BalancesInRange, Distinct;
    var t := ProposeTransferStep(s, env, who, asset, to, amount).0;
    if t != s {
      ActiveAfterProposal(s, t, Approval(s.nextId.value, who));
      hide Active;
    }
  }

  /** A signer's new approval of a pending proposal, whichever family it is in, keeps the state active. */
  lemma ActiveAfterApproval(s: State, t: State, a: Approval)
    requires Active(s) && t.log == s.log + [a] && a.who in s.signers.value
    requires t.signers == s.signers && t.threshold == s.threshold && t.nextId == s.nextId && t.contract == s.contract
    requires t.proposals.Keys == s.proposals.Keys && t.transfers.Keys == s.transfers.Keys
    requires a.id in s.proposals || a.id in s.transfers
    requires forall i :: i in s.proposals && i != a.id ==> t.proposals[i] == s.proposals[i]
    requires forall i :: i in s.transfers && i != a.id ==> t.transfers[i] == s.transfers[i]
    requires a.id in s.proposals ==>
               && !s.proposals[a.id].executed && a.who !in s.proposals[a.id].approvals
               && t.proposals[a.id] == s.proposals[a.id].(approvals := s.proposals[a.id].approvals + [a.who])
    requires a.id in s.transfers ==>
               && !s.transfers[a.id].executed && a.who !in s.transfers[a.id].approvals
               && t.transfers[a.id] == s.transfers[a.id].(approvals := s.transfers[a.id].approvals + [a.who])
    ensures Active(t)
  {
    hide ApproversOf, Distinct, ApprovalsSound;
    AppendLog(s.log, a);
    OthersStaySound(s, t, a);
    if a.id in s.proposals {
      SoundAfterApproval(s, t, a, a.id, s.proposals[a.id].approvals, false);
    } else {
      SoundAfterApproval(s, t, a, a.id, s.transfers[a.id].approvals, false);
    }
  }

  lemma ApproveKeepsInv(s: State, env: Env, who: Address, id: nat)
    requires Inv(s)
    ensures Inv(ApproveStep(s, env, who, id).0)
  {
    hide ApprovalsSound, BalancesInRange, Distinct;
    var t := ApproveStep(s, env, who, id).0;
    if t != s {
      ActiveAfterApproval(s, t, Approval(id, who));
      hide Active;
    }
  }

  lemma ApproveTransferKeepsInv(s: State, env: Env, who: Address, id: nat)
    requires Inv(s)
    ensures Inv(ApproveTransferStep(s, env, who, id).0)
  {
    hide ApprovalsSound, BalancesInRange, Distinct;
    var t := ApproveTransferStep(s, env, who, id).0;
    if t != s {
      ActiveAfterApproval(s, t, Approval(id, who));
      hide Active;
    }
  }

  lemma ExecuteKeepsInv(s: State, id: nat)
    requires Inv(s)
    ensures Inv(ExecuteStep(s, id).0)
  {
    hide ApproversOf, Distinct, BalancesInRange;
  }

  lemma ExecuteTransferKeepsInv(s: State, env: Env, id: nat)
    requires Inv(s)
    ensures Inv(ExecuteTransferStep(s, env, id).0)
  {
    hide ApproversOf, Distinct, Transfer;
  }

  lemma OthersKeepInv(s: State, ev: Event)
    requires Inv(s) && (ev.call.OtherTransfer? || ev.call.OtherMint?)
    ensures Inv(Step(s, ev))
  {
    SameOutsideTokens(s, Step(s, ev));
    hide Transfer, Blank, Active;
  }

  lemma SameOutsideTokens(s: State, t: State)
    requires t == s.(tokens := t.tokens)
    ensures Blank(s) ==> Blank(t)
    ensures Active(s) ==> Active(t)
  {
    hide ApproversOf, Distinct;
  }

  /** Every call, and everything others do with the tokens, keeps the invariant. */
  lemma StepKeepsInv(s: State, ev: Event)
    requires Inv(s)
    ensures Inv(Step(s, ev))
  {
    hide Inv, InitializeStep, ProposeStep, ProposeTransferStep, ApproveStep, ApproveTransferStep, ExecuteStep, ExecuteTransferStep;
    match ev.call {
      case Initialize(list, threshold) => InitializeKeepsInv(s, ev.env, list, threshold);
      case Propose(who, to, amount) => ProposeKeepsInv(s, ev.env, who, to, amount);
      case ProposeTransfer(who, asset, to, amount) => ProposeTransferKeepsInv(s, ev.env, who, asset, to, amount);
      case Approve(who, id) => ApproveKeepsInv(s, ev.env, who, id);
      case ApproveTransfer(who, id) => ApproveTransferKeepsInv(s, ev.env, who, id);
      case Execute(id) => ExecuteKeepsInv(s, id);
      case ExecuteTransfer(id) => ExecuteTransferKeepsInv(s, ev.env, id);
      case OtherTransfer(_, _, _, _) => OthersKeepInv(s, ev);
      case OtherMint(_, _, _) => OthersKeepInv(s, ev);
    }
  }

  lemma {:induction false} RunKeepsInv(s: State, events: seq<Event>)
    requires Inv(s)
    ensures Inv(Run(Step, s, events))
    decreases |events|
  {
    if events != [] {
      StepKeepsInv(s, events[0]);
      RunKeepsInv(Step(s, events[0]), events[1..]);
    }
  }

  // ----- Only signers act ----------------------------------------------------------------

  /** The address a propose or approve call is made for. */
  function Actor(c: Call): Option<Address> {
    match c {
      case Propose(who, _, _) => Some(who)
      case ProposeTransfer(who, _, _, _) => Some(who)
      case Approve(who, _) => Some(who)
      case ApproveTransfer(who, _) => Some(who)
      case _ => None
    }
  }

  /**
   Only signers act.  A propose or approve call changes anything only for a registered signer that
   authorised it, and no other call but an initialisation or an execution touches signers,
   threshold, counter, proposals or history.
   */
  lemma OnlySignersAct(s: State, ev: Event)
    requires Inv(s)
    ensures
      var t := Step(s, ev);
      && (Actor(ev.call).Some? && t != s ==>
            && s.signers.Some? && Actor(ev.call).value in s.signers.value
            && Actor(ev.call).value in ev.env.auths
            && |t.log| == |s.log| + 1 && t.log[|s.log|].who == Actor(ev.call).value)
      && (t.(tokens := s.tokens) != s ==>
            Actor(ev.call).Some? || ev.call.Initialize? || ev.call.Execute? || ev.call.ExecuteTransfer?)
  {
    hide Transfer, ApproversOf;
  }

  // ----- Executed means approved ---------------------------------------------------------

  /** The event is a propose call by this address, or an approve call by it for this id, authorised by it. */
  ghost predicate Authored(ev: Event, a: Approval) {
    && a.who in ev.env.auths
    && match ev.call {
         case Propose(who, _, _) => who == a.who
         case ProposeTransfer(who, _, _, _) => who == a.who
         case Approve(who, id) => who == a.who && id == a.id
         case ApproveTransfer(who, id) => who == a.who && id == a.id
         case _ => false
       }
  }

  /** The event succeeded and recorded this approval; a propose call did so for the id it created. */
  ghost predicate Recorded(s: State, ev: Event, a: Approval) {
    && Authored(ev, a)
    && Step(s, ev).log == s.log + [a]
    && (ev.call.Propose? ==> s.nextId == Some(a.id) && a.id in Step(s, ev).proposals)
    && (ev.call.ProposeTransfer? ==> s.nextId == Some(a.id) && a.id in Step(s, ev).transfers)
  }

  lemma StepLog(s: State, ev: Event)
    ensures Step(s, ev).log == s.log
            || (exists a :: Recorded(s, ev, a))
  {
    if Step(s, ev).log != s.log {
      var a := Step(s, ev).log[|s.log|];
      assert Recorded(s, ev, a);
    }
  }

  lemma RunPrefix(s: State, events: seq<Event>, i: nat)
    requires events != [] && i < |events[1..]|
    ensures Run(Step, s, events[..i + 1]) == Run(Step, Step(s, events[0]), events[1..][..i])
  {
    hide Step;
    assert events[..i + 1][0] == events[0] && events[..i + 1][1..] == events[1..][..i];
  }

  /** Each approval a run records was recorded by a call of it that succeeded, for the approval's own id. */
  lemma {:induction false} RunLog(s: State, events: seq<Event>, k: nat)
    requires |s.log| <= k < |Run(Step, s, events).log|
    ensures exists i :: 0 <= i < |events| && Recorded(Run(Step, s, events[..i]), events[i], Run(Step, s, events).log[k])
    decreases |events|
  {
    var t := Step(s, events[0]);
    StepLog(s, events[0]);
    hide Step, Recorded;
    RunExtendsLog(t, events[1..]);
    if k < |t.log| {
      var a :| Recorded(s, events[0], a);
      LastRecorded(s, events[0], a);
      assert Run(Step, s, events).log[k] == a;
      assert Run(Step, s, events[..0]) == s;
      assert Recorded(Run(Step, s, events[..0]), events[0], Run(Step, s, events).log[k]);
    } else {
      RunLog(t, events[1..], k);
      var i :| 0 <= i < |events[1..]| && Recorded(Run(Step, t, events[1..][..i]), events[1..][i], Run(Step, t, events[1..]).log[k]);
      RunPrefix(s, events, i);
      assert events[i + 1] == events[1..][i];
      assert Recorded(Run(Step, s, events[..i + 1]), events[i + 1], Run(Step, s, events).log[k]);
    }
  }

  lemma LastRecorded(s: State, ev: Event, a: Approval)
    requires Recorded(s, ev, a)
    ensures Step(s, ev).log == s.log + [a]
  {
  }

  lemma {:induction false} RunExtendsLog(s: State, events: seq<Event>)
    ensures s.log <= Run(Step, s, events).log
    decreases |events|
  {
    if events != [] {
      StepLog(s, events[0]);
      hide Step;
      RunExtendsLog(Step(s, events[0]), events[1..]);
    }
  }

  lemma {:induction false} ApproverInLog(log: seq<Approval>, id: nat, who: Address)
    requires who in ApproversOf(log, id)
    ensures exists k :: 0 <= k < |log| && log[k] == Approval(id, who)
  {
    var n := |log| - 1;
    if log[n] != Approval(id, who) {
      ApproverInLog(log[..n], id, who);
      var k :| 0 <= k < n && log[..n][k] == Approval(id, who);
      assert log[k] == Approval(id, who);
    }
  }

  ghost predicate IsExecuted(s: State, id: nat) {
    (id in s.proposals && s.proposals[id].executed) || (id in s.transfers && s.transfers[id].executed)
  }

  ghost function Approvers(s: State, id: nat): seq<Address> {
    if id in s.proposals then s.proposals[id].approvals
    else if id in s.transfers then s.transfers[id].approvals
    else []
  }

  /** Some call of the run recorded this address's approval of this proposal. */
  ghost predicate ApprovedInRun(s: State, events: seq<Event>, id: nat, who: Address) {
    exists i :: 0 <= i < |events| && Recorded(Run(Step, s, events[..i]), events[i], Approval(id, who))
  }

  /**
   Executed means approved.  From deployment, after any calls by anyone, an executed proposal has
   at least threshold distinct approvers, each a signer and each the author of a call it authorised
   that succeeded: an approve call of that very id, or the propose call that created it.
   */
  lemma ExecutedMeansApproved(s: State, events: seq<Event>, id: nat)
    requires Blank(s) && BalancesInRange(s.tokens)
    requires IsExecuted(Run(Step, s, events), id)
    ensures
      var t := Run(Step, s, events);
      var approvers := Members(Approvers(t, id));
      && t.signers.Some? && t.threshold.Some? && 1 <= t.threshold.value <= |t.signers.value|
      && |approvers| >= t.threshold.value
      && approvers <= Members(t.signers.value)
      && forall a :: a in approvers ==> ApprovedInRun(s, events, id, a)
  {
    RunKeepsInv(s, events);
    var t := Run(Step, s, events);
    DistinctSize(Approvers(t, id));
    forall a | a in Members(Approvers(t, id)) ensures ApprovedInRun(s, events, id, a) {
      assert a in ApproversOf(t.log, id);
      ApproverInLog(t.log, id, a);
      var k :| 0 <= k < |t.log| && t.log[k] == Approval(id, a);
      RunLog(s, events, k);
    }
  }

  // ----- Progress ------------------------------------------------------------------------

  ghost predicate Pending(s: State, id: nat) {
    (id in s.proposals && !s.proposals[id].executed) || (id in s.transfers && !s.transfers[id].executed)
  }

  ghost function Missing(s: State, id: nat): nat {
    if s.threshold.Some? && |Approvers(s, id)| < s.threshold.value then s.threshold.value - |Approvers(s, id)| else 0
  }

  ghost function ApproveCall(s: State, who: Address, id: nat): Event {
    Event(Env({who}, false), if id in s.proposals then Approve(who, id) else ApproveTransfer(who, id))
  }

  /** A signer that has not approved can, and that brings the proposal one approval nearer. */
  lemma ApproveProgress(s: State, id: nat, who: Address)
    requires Inv(s) && Pending(s, id)
    requires who in s.signers.value && who !in Approvers(s, id)
    ensures
      var t := Step(s, ApproveCall(s, who, id));
      && Inv(t) && Pending(t, id) && Approvers(t, id) == Approvers(s, id) + [who]
      && t.signers == s.signers && t.threshold == s.threshold && t.tokens == s.tokens && t.contract == s.contract
      && (id in s.proposals <==> id in t.proposals)
      && (id in s.transfers ==> id in t.transfers && t.transfers[id] == s.transfers[id].(approvals := Approvers(t, id)))
  {
    hide ApproversOf;
    StepKeepsInv(s, ApproveCall(s, who, id));
  }

  /** Signers that have not yet approved, called one after the other until the threshold is met. */
  lemma {:induction false} DriveToThreshold(s: State, id: nat) returns (events: seq<Event>)
    requires Inv(s) && Pending(s, id)
    ensures |events| == Missing(s, id)
    ensures forall i :: 0 <= i < |events| ==> exists who :: who in s.signers.value && who !in Approvers(s, id) &&
                                                            events[i] == ApproveCall(s, who, id)
    ensures
      var t := Run(Step, s, events);
      && Inv(t) && Pending(t, id) && Missing(t, id) == 0
      && t.tokens == s.tokens && t.contract == s.contract && t.threshold == s.threshold
      && (id in s.proposals <==> id in t.proposals)
      && (id in s.transfers ==> id in t.transfers && t.transfers[id] == s.transfers[id].(approvals := Approvers(t, id)))
    decreases Missing(s, id)
  {
    hide ApproversOf, Step;
    if Missing(s, id) == 0 {
      events := [];
    } else {
      var who := MissingSigner(Approvers(s, id), s.signers.value);
      var call := ApproveCall(s, who, id);
      ApproveProgress(s, id, who);
      var t := Step(s, call);
      var rest := DriveToThreshold(t, id);
      events := [call] + rest;
      assert events[1..] == rest;
      assert Run(Step, s, events) == Run(Step, t, rest);
      forall i | 0 <= i < |events|
        ensures exists w :: w in s.signers.value && w !in Approvers(s, id) && events[i] == ApproveCall(s, w, id)
      {
        if i > 0 {
          var w :| w in t.signers.value && w !in Approvers(t, id) && rest[i - 1] == ApproveCall(t, w, id);
          assert w in s.signers.value && w !in Approvers(s, id) && events[i] == ApproveCall(s, w, id);
        }
      }
    }
  }

  /** The contract's tokens cover the transfer, and the payee has room. */
  ghost predicate Covered(s: State, p: TransferProposal) {
    && p.amount <= Balance(s.tokens, p.asset, s.contract)
    && (p.to == s.contract || Balance(s.tokens, p.asset, p.to) + p.amount <= MAX_I128)
  }

  /**
   Progress.  Every unexecuted proposal can be driven to its threshold by signers that have not
   approved it, in exactly as many calls as approvals are missing; a plain proposal then executes,
   and a transfer executes exactly when the contract's tokens cover it.
   */
  lemma Progress(s: State, id: nat) returns (events: seq<Event>)
    requires Inv(s) && Pending(s, id)
    ensures |events| == Missing(s, id)
    ensures
      var t := Run(Step, s, events);
      && (id in s.proposals ==> ExecuteStep(t, id).1.Ok?)
      && (id in s.transfers ==>
            (ExecuteTransferStep(t, Env({}, false), id).1.Ok? <==> Covered(s, s.transfers[id])))
  {
    hide ApproversOf, Transfer, Step, Run;
    events := DriveToThreshold(s, id);
  }

  // ----- Outflow -------------------------------------------------------------------------

  /** What an executed transfer took out of the contract in one asset. */
  function PaidOut(contract: Address, p: TransferProposal, asset: Address): int {
    if p.executed && p.asset == asset && p.to != contract then p.amount else 0
  }

  ghost function PaidSum(contract: Address, transfers: map<nat, TransferProposal>, asset: Address, n: nat): int {
    if n == 0 then 0
    else
      PaidSum(contract, transfers, asset, n - 1)
      + (if n - 1 in transfers then PaidOut(contract, transfers[n - 1], asset) else 0)
  }

  lemma {:induction false} PaidSumUpdate(contract: Address, transfers: map<nat, TransferProposal>, asset: Address,
                                         n: nat, id: nat, p: TransferProposal)
    ensures PaidSum(contract, transfers[id := p], asset, n) ==
            PaidSum(contract, transfers, asset, n)
            + (if id < n then PaidOut(contract, p, asset) - (if id in transfers then PaidOut(contract, transfers[id], asset) else 0) else 0)
  {
    if n > 0 {
      PaidSumUpdate(contract, transfers, asset, n - 1, id, p);
    }
  }

  ghost function TotalPaid(s: State, asset: Address): int {
    PaidSum(s.contract, s.transfers, asset, if s.nextId.Some? then s.nextId.value else 0)
  }

  /** Tokens that reached the contract from outside in one event. */
  ghost function Inflow(s: State, ev: Event, asset: Address): int {
    match ev.call {
      case OtherTransfer(a, payer, payee, units) =>
        if a == asset && payee == s.contract && OtherTransferred(s, ev.env, a, payer, payee, units).Some? then units else 0
      case OtherMint(a, payee, units) =>
        if a == asset && payee == s.contract && Balance(s.tokens, a, payee) + units <= MAX_I128 then units else 0
      case _ => 0
    }
  }

  ghost function TotalInflow(s: State, events: seq<Event>, asset: Address): int
    decreases |events|
  {
    if events == [] then 0
    else Inflow(s, events[0], asset) + TotalInflow(Step(s, events[0]), events[1..], asset)
  }

  /** Calls on plain proposals and fresh transfer proposals pay nothing. */
  lemma ProposalsPayNothing(s: State, ev: Event, asset: Address)
    requires Inv(s) && !ev.call.ExecuteTransfer? && !ev.call.OtherTransfer? && !ev.call.OtherMint?
    ensures TotalPaid(Step(s, ev), asset) == TotalPaid(s, asset)
  {
    hide ApproversOf, Distinct, Transfer, PaidSum, CheckSigners, RequireSigner;
    var t := Step(s, ev);
    if t != s {
      match ev.call {
        case Initialize(_, _) => NothingPaid(s, asset);
        case Propose(_, _, _) => PaidSumOneMore(t, asset, s.nextId.value);
        case ProposeTransfer(_, _, _, _) =>
          var id := s.nextId.value;
          PaidSumUpdate(s.contract, s.transfers, asset, id, id, t.transfers[id]);
          PaidSumOneMore(t, asset, id);
        case Approve(_, _) =>
        case ApproveTransfer(_, id) =>
          PaidSumUpdate(s.contract, s.transfers, asset, s.nextId.value, id, t.transfers[id]);
        case Execute(_) =>
      }
    }
  }

  lemma ExecutionPays(s: State, env: Env, id: nat, asset: Address)
    requires Inv(s)
    ensures
      var t := ExecuteTransferStep(s, env, id).0;
      Balance(t.tokens, asset, t.contract) + TotalPaid(t, asset)
      == Balance(s.tokens, asset, s.contract) + TotalPaid(s, asset)
  {
    hide ApproversOf, Distinct, Transfer, PaidSum, Balance;
    var t := ExecuteTransferStep(s, env, id).0;
    if t != s {
      PaidSumUpdate(s.contract, s.transfers, asset, s.nextId.value, id, t.transfers[id]);
    }
  }

  lemma StepOutflow(s: State, ev: Event, asset: Address)
    requires Inv(s)
    ensures
      var t := Step(s, ev);
      Balance(t.tokens, asset, t.contract) + TotalPaid(t, asset)
      == Balance(s.tokens, asset, s.contract) + TotalPaid(s, asset) + Inflow(s, ev, asset)
  {
    hide Inv, Transfer, Balance, PaidSum, CheckSigners, RequireSigner;
    if ev.call.ExecuteTransfer? {
      ExecutionPays(s, ev.env, ev.call.id, asset);
    } else if !ev.call.OtherTransfer? && !ev.call.OtherMint? {
      ProposalsPayNothing(s, ev, asset);
    }
  }

  lemma NothingPaid(s: State, asset: Address)
    requires Inv(s)
    ensures s.nextId.None? ==> TotalPaid(s, asset) == 0 && PaidSum(s.contract, s.transfers, asset, 0) == 0
  {
  }

  lemma PaidSumOneMore(t: State, asset: Address, n: nat)
    requires n in t.transfers ==> !t.transfers[n].executed
    ensures PaidSum(t.contract, t.transfers, asset, n + 1) == PaidSum(t.contract, t.transfers, asset, n)
  {
  }

  /**
   Outflow.  Over any run, what left the contract in an asset is the sum of its executed transfer
   proposals: the balance moved by exactly the inflow less what those proposals took out.
   */
  lemma {:induction false} OutflowExact(s: State, events: seq<Event>, asset: Address)
    requires Inv(s)
    ensures
      var t := Run(Step, s, events);
      Balance(t.tokens, asset, t.contract) + TotalPaid(t, asset)
      == Balance(s.tokens, asset, s.contract) + TotalPaid(s, asset) + TotalInflow(s, events, asset)
    decreases |events|
  {
    if events != [] {
      hide Step, Inv, Inflow, TotalPaid, Balance;
      StepOutflow(s, events[0], asset);
      StepKeepsInv(s, events[0]);
      OutflowExact(Step(s, events[0]), events[1..], asset);
    }
  }

  /** An executed proposal stays executed as it is, so it pays once. */
  lemma ExecutedIsFinal(s: State, ev: Event, id: nat)
    requires Inv(s) && IsExecuted(s, id)
    ensures
      var t := Step(s, ev);
      && IsExecuted(t, id)
      && (id in s.proposals ==> id in t.proposals && t.proposals[id] == s.proposals[id])
      && (id in s.transfers ==> id in t.transfers && t.transfers[id] == s.transfers[id])
  {
    hide ApprovalsSound, Distinct, PayOut, OtherTransferred, CheckSigners, RequireSigner, BalancesInRange;
  }

  /** Over any run, an executed proposal is never touched again. */
  lemma {:induction false} ExecutedForever(s: State, events: seq<Event>, id: nat)
    requires Inv(s) && IsExecuted(s, id)
    ensures
      var t := Run(Step, s, events);
      && IsExecuted(t, id)
      && (id in s.proposals ==> id in t.proposals && t.proposals[id] == s.proposals[id])
      && (id in s.transfers ==> id in t.transfers && t.transfers[id] == s.transfers[id])
    decreases |events|
  {
    if events != [] {
      hide Step, Inv;
      ExecutedIsFinal(s, events[0], id);
      StepKeepsInv(s, events[0]);
      ExecutedForever(Step(s, events[0]), events[1..], id);
    }
  }

  /** From deployment on, the ids below the shared counter, and no others, live in exactly one of the two maps. */
  lemma IdsUnique(s: State, events: seq<Event>, id: nat)
    requires Blank(s) && BalancesInRange(s.tokens)
    ensures
      var t := Run(Step, s, events);
      && (id in t.proposals || id in t.transfers <==> t.nextId.Some? && id < t.nextId.value)
      && !(id in t.proposals && id in t.transfers)
  {
    RunKeepsInv(s, events);
    hide Run, ApprovalsSound, Configured;
  }

  // ----- What was asked is what is stored and paid ---------------------------------------

  /** When a propose call succeeds, and what refuses it. */
  lemma ProposeAccepts(s: State, env: Env, who: Address, amount: int)
    requires Inv(s)
    ensures
      var r := ProposeCheck(s, env, who, amount);
      var inRange := 0 < amount <= MAX_I128;
      var willing := who in env.auths && who != s.contract;
      && (r.Ok? <==> inRange && willing && s.signers.Some? && who in s.signers.value && s.nextId.value < MAX_U64)
      && (r.Ok? ==> s.nextId == Some(r.value))
      && (r == Err(InvalidAmount) <==> !inRange)
      && (r == Err(NotInitialized) <==> inRange && willing && s.signers.None?)
      && (r == Err(NotASigner) <==> inRange && willing && s.signers.Some? && who !in s.signers.value)
  {
    hide ApprovalsSound, Distinct;
  }

  /** A successful propose call stores exactly what it was asked for, under the next id, approved by its proposer alone. */
  lemma ProposalStored(s: State, env: Env, who: Address, to: Address, amount: int)
    requires ProposeStep(s, env, who, to, amount).1.Ok?
    ensures
      var (t, r) := ProposeStep(s, env, who, to, amount);
      var id := r.value;
      && s.nextId == Some(id) && t.nextId == Some(id + 1) && t.proposals.Keys == s.proposals.Keys + {id}
      && t.proposals[id].to == to && t.proposals[id].amount == amount
      && t.proposals[id].approvals == [who] && !t.proposals[id].executed
      && (forall k :: k in s.proposals && k != id ==> t.proposals[k] == s.proposals[k])
      && t.transfers == s.transfers && t.tokens == s.tokens
  {
  }

  lemma TransferProposalStored(s: State, env: Env, who: Address, asset: Address, to: Address, amount: int)
    requires ProposeTransferStep(s, env, who, asset, to, amount).1.Ok?
    ensures
      var (t, r) := ProposeTransferStep(s, env, who, asset, to, amount);
      var id := r.value;
      && s.nextId == Some(id) && t.nextId == Some(id + 1) && t.transfers.Keys == s.transfers.Keys + {id}
      && t.transfers[id].asset == asset && t.transfers[id].to == to && t.transfers[id].amount == amount
      && t.transfers[id].approvals == [who] && !t.transfers[id].executed
      && (forall k :: k in s.transfers && k != id ==> t.transfers[k] == s.transfers[k])
      && t.proposals == s.proposals && t.tokens == s.tokens
  {
  }

  ghost predicate ProposalsKept(s: State, t: State) {
    forall id :: id in s.proposals ==>
      && id in t.proposals && t.proposals[id].to == s.proposals[id].to && t.proposals[id].amount == s.proposals[id].amount
      && s.proposals[id].approvals <= t.proposals[id].approvals
  }

  ghost predicate TransfersKept(s: State, t: State) {
    forall id :: id in s.transfers ==>
      && id in t.transfers && t.transfers[id].asset == s.transfers[id].asset
      && t.transfers[id].to == s.transfers[id].to && t.transfers[id].amount == s.transfers[id].amount
      && s.transfers[id].approvals <= t.transfers[id].approvals
  }

  /** What a proposal asks for never changes, nor do signers and threshold; approvals are only added. */
  ghost predicate TermsKept(s: State, t: State) {
    && t.contract == s.contract
    && (s.signers.Some? ==> t.signers == s.signers && t.threshold == s.threshold)
    && ProposalsKept(s, t) && TransfersKept(s, t)
  }

  lemma StepKeepsProposals(s: State, ev: Event)
    requires Inv(s)
    ensures ProposalsKept(s, Step(s, ev))
  {
    hide ApprovalsSound, ApproversOf, Distinct, PayOut, OtherTransferred, CheckSigners, RequireSigner, BalancesInRange;
  }

  lemma StepKeepsTransfers(s: State, ev: Event)
    requires Inv(s)
    ensures TransfersKept(s, Step(s, ev))
  {
    hide ApprovalsSound, ApproversOf, Distinct, PayOut, OtherTransferred, CheckSigners, RequireSigner, BalancesInRange;
  }

  lemma StepKeepsTerms(s: State, ev: Event)
    requires Inv(s)
    ensures TermsKept(s, Step(s, ev))
  {
    hide ApprovalsSound, ApproversOf, Distinct, PayOut, OtherTransferred, CheckSigners, RequireSigner, BalancesInRange;
    hide ProposalsKept, TransfersKept, IdsPartitioned;
    StepKeepsProposals(s, ev);
    StepKeepsTransfers(s, ev);
  }

  lemma {:induction false} RunKeepsTerms(s: State, events: seq<Event>)
    requires Inv(s)
    ensures TermsKept(s, Run(Step, s, events))
    decreases |events|
  {
    if events != [] {
      hide Step, Inv, TermsKept;
      StepKeepsTerms(s, events[0]);
      StepKeepsInv(s, events[0]);
      RunKeepsTerms(Step(s, events[0]), events[1..]);
      TermsTransitive(s, Step(s, events[0]), Run(Step, s, events));
    } else {
      hide Inv;
    }
  }

  lemma TermsTransitive(s: State, t: State, u: State)
    requires TermsKept(s, t) && TermsKept(t, u)
    ensures TermsKept(s, u)
  {
  }

  /** When an approval succeeds, and what refuses it; it adds exactly that approval. */
  lemma ApproveAccepts(s: State, env: Env, who: Address, id: nat)
    requires Inv(s)
    ensures
      var (t, r) := ApproveStep(s, env, who, id);
      var willing := who in env.auths && who != s.contract;
      var signer := willing && s.signers.Some? && who in s.signers.value;
      && (r.Ok? <==> signer && id in s.proposals && !s.proposals[id].executed && who !in s.proposals[id].approvals)
      && (r.Ok? ==> t.proposals == s.proposals[id := s.proposals[id].(approvals := s.proposals[id].approvals + [who])])
      && (r == Err(NotInitialized) <==> willing && s.signers.None?)
      && (r == Err(NotASigner) <==> willing && s.signers.Some? && who !in s.signers.value)
      && (r == Err(ProposalNotFound) <==> signer && id !in s.proposals)
      && (r == Err(AlreadyExecuted) <==> signer && id in s.proposals && s.proposals[id].executed)
      && (r == Err(AlreadyApproved) <==>
          signer && id in s.proposals && !s.proposals[id].executed && who in s.proposals[id].approvals)
  {
    hide ApprovalsSound, Distinct;
  }

  lemma ApproveTransferAccepts(s: State, env: Env, who: Address, id: nat)
    requires Inv(s)
    ensures
      var (t, r) := ApproveTransferStep(s, env, who, id);
      var willing := who in env.auths && who != s.contract;
      var signer := willing && s.signers.Some? && who in s.signers.value;
      && (r.Ok? <==> signer && id in s.transfers && !s.transfers[id].executed && who !in s.transfers[id].approvals)
      && (r.Ok? ==> t.transfers == s.transfers[id := s.transfers[id].(approvals := s.transfers[id].approvals + [who])])
      && (r == Err(NotInitialized) <==> willing && s.signers.None?)
      && (r == Err(NotASigner) <==> willing && s.signers.Some? && who !in s.signers.value)
      && (r == Err(ProposalNotFound) <==> signer && id !in s.transfers)
      && (r == Err(AlreadyExecuted) <==> signer && id in s.transfers && s.transfers[id].executed)
      && (r == Err(AlreadyApproved) <==>
          signer && id in s.transfers && !s.transfers[id].executed && who in s.transfers[id].approvals)
  {
    hide ApprovalsSound, Distinct;
  }

  /** When a plain proposal executes, and what refuses it; success marks that proposal and nothing else. */
  lemma ExecuteAccepts(s: State, id: nat)
    requires Inv(s)
    ensures
      var (t, r) := ExecuteStep(s, id);
      && (r.Ok? <==> id in s.proposals && !s.proposals[id].executed && |s.proposals[id].approvals| >= s.threshold.value)
      && (r.Ok? ==> t == s.(proposals := s.proposals[id := s.proposals[id].(executed := true)]))
      && (r == Err(ProposalNotFound) <==> id !in s.proposals)
      && (r == Err(AlreadyExecuted) <==> id in s.proposals && s.proposals[id].executed)
      && (r == Err(ThresholdNotMet) <==>
          id in s.proposals && !s.proposals[id].executed && |s.proposals[id].approvals| < s.threshold.value)
      && (r.Err? ==> t == s)
  {
    hide ApprovalsSound, Distinct;
  }

  /**
   When a transfer executes, and what refuses it.  Success moves exactly the proposal's amount of its
   asset from the contract to its payee, no other balance, and marks that proposal executed and nothing else.
   */
  lemma ExecuteTransferAccepts(s: State, env: Env, id: nat)
    requires Inv(s)
    ensures
      var (t, r) := ExecuteTransferStep(s, env, id);
      var reached := id in s.transfers && !s.transfers[id].executed && |s.transfers[id].approvals| >= s.threshold.value;
      && (r.Ok? <==> reached && !env.tokenRefuses && Covered(s, s.transfers[id]))
      && (r.Ok? ==>
          var p := s.transfers[id];
          && t == s.(tokens := t.tokens, transfers := s.transfers[id := p.(executed := true)])
          && (forall w :: Balance(t.tokens, p.asset, w) ==
                          Balance(s.tokens, p.asset, w) + Delta(s.contract, p.to, p.amount, w))
          && (forall a, w :: a != p.asset ==> Balance(t.tokens, a, w) == Balance(s.tokens, a, w)))
      && (r == Err(ProposalNotFound) <==> id !in s.transfers)
      && (r == Err(AlreadyExecuted) <==> id in s.transfers && s.transfers[id].executed)
      && (r == Err(ThresholdNotMet) <==>
          id in s.transfers && !s.transfers[id].executed && |s.transfers[id].approvals| < s.threshold.value)
      && (r.Err? ==> t == s)
  {
    hide ApprovalsSound, Distinct, Transfer, Balance, Delta, ApproversOf;
  }

  /**
   Paid as asked.  However many calls come between, the execution of a transfer proposal moves exactly
   the amount its propose call asked for, in the asset and to the payee it asked for.
   */
  lemma PaidAsAsked(s: State, env: Env, who: Address, asset: Address, to: Address, amount: int,
                    events: seq<Event>, exec: Env, a: Address, w: Address)
    requires Inv(s) && ProposeTransferStep(s, env, who, asset, to, amount).1.Ok?
    ensures
      var (proposed, r) := ProposeTransferStep(s, env, who, asset, to, amount);
      var t := Run(Step, proposed, events);
      var (paid, done) := ExecuteTransferStep(t, exec, r.value);
      && r.value in t.transfers && t.transfers[r.value].asset == asset
      && t.transfers[r.value].to == to && t.transfers[r.value].amount == amount > 0
      && (done.Ok? ==>
          && r.value in paid.transfers && paid.transfers[r.value].executed
          && Balance(paid.tokens, a, w) ==
             Balance(t.tokens, a, w) + if a == asset then Delta(s.contract, to, amount, w) else 0)
  {
    ProposeAccepts(s, env, who, amount);
    ProposeTransferKeepsInv(s, env, who, asset, to, amount);
    TransferProposalStored(s, env, who, asset, to, amount);
    var proposed := ProposeTransferStep(s, env, who, asset, to, amount).0;
    assert proposed.contract == s.contract;
    hide ProposeTransferStep, Inv, Run, Step, ExecuteTransferStep, Balance, Delta;
    RunKeepsTerms(proposed, events);
    RunKeepsInv(proposed, events);
    ExecuteTransferAccepts(Run(Step, proposed, events), exec, s.nextId.value);
  }

  /** A plain proposal stands, and is executed, as its propose call asked. */
  lemma ExecutedAsAsked(s: State, env: Env, who: Address, to: Address, amount: int, events: seq<Event>)
    requires Inv(s) && ProposeStep(s, env, who, to, amount).1.Ok?
    ensures
      var (proposed, r) := ProposeStep(s, env, who, to, amount);
      var t := Run(Step, proposed, events);
      var (after, done) := ExecuteStep(t, r.value);
      && r.value in t.proposals && t.proposals[r.value].to == to && t.proposals[r.value].amount == amount > 0
      && (done.Ok? ==>
          && r.value in after.proposals && after.proposals[r.value].executed
          && after.proposals[r.value].to == to && after.proposals[r.value].amount == amount)
  {
    ProposeAccepts(s, env, who, amount);
    ProposeKeepsInv(s, env, who, to, amount);
    ProposalStored(s, env, who, to, amount);
    var proposed := ProposeStep(s, env, who, to, amount).0;
    hide ProposeStep, Inv, Run, Step, ExecuteStep;
    RunKeepsTerms(proposed, events);
    RunKeepsInv(proposed, events);
    ExecuteAccepts(Run(Step, proposed, events), s.nextId.value);
  }
}
