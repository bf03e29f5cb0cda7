/**
 The savings vault: simple interest in whole units, credited lazily whenever an account is
 touched, in checked 128-bit arithmetic.
 */
module Vault {
  import opened Wrappers
  import opened Runs
  import opened Tokens

  type U32 = n: nat | n <= 0xffff_ffff
  type U64 = n: nat | n <= MAX_U64

  const MIN_I128: int := -0x8000_0000_0000_0000_0000_0000_0000_0000

  const SECONDS_PER_YEAR: nat := 365 * 24 * 60 * 60
  const BPS_DENOMINATOR: nat := 10_000

  /** Basis points times seconds in a year: the divisor of every interest computation. */
  const SCALE: nat := BPS_DENOMINATOR * SECONDS_PER_YEAR

  datatype Account = Account(balance: int, lastUpdated: U64)

  datatype Error =
    | AlreadyInitialized | NotInitialized | InvalidAmount | InsufficientBalance | ArithmeticOverflow
    | Trap  // a missing authorisation

  datatype State = State(rate: Option<U32>, accounts: map<Address, Account>)

  datatype Env = Env(now: U64, auths: set<Address>)

  datatype Call =
    | Initialize(rate: U32)
    | Deposit(user: Address, amount: int)
    | Withdraw(user: Address, amount: int)

  datatype Event = Event(env: Env, call: Call)

  // ----- One call ------------------------------------------------------------------------

  predicate InI128(x: int) {
    MIN_I128 <= x <= MAX_I128
  }

  function CheckedMul(a: int, b: int): Option<int> {
    if InI128(a * b) then Some(a * b) else None
  }

  function CheckedAdd(a: int, b: int): Option<int> {
    if InI128(a + b) then Some(a + b) else None
  }

  function SaturatingSub(a: nat, b: nat): nat {
    if a < b then 0 else a - b
  }

  function Stored(s: State, user: Address, now: U64): Account {
    if user in s.accounts then s.accounts[user] else Account(0, now)
  }

  /** The account with the interest owed since it was last touched folded in. */
  function Accrue(rate: Option<U32>, account: Account, now: U64): Result<Account, Error> {
    if rate.None? then Err(NotInitialized)
    else
      var elapsed := SaturatingSub(now, account.lastUpdated);
      if elapsed > 0 && account.balance > 0 then
        var scaled := CheckedMul(account.balance, rate.value);
        var product := if scaled.Some? then CheckedMul(scaled.value, elapsed) else None;
        if product.None? then Err(ArithmeticOverflow)
        else
          var total := CheckedAdd(account.balance, product.value / SCALE);
          if total.None? then Err(ArithmeticOverflow) else Ok(Account(total.value, now))
      else Ok(account.(lastUpdated := now))
  }

  function InitializeStep(s: State, rate: U32): (State, Result<(), Error>) {
    if s.rate.Some? then (s, Err(AlreadyInitialized)) else (s.(rate := Some(rate)), Ok(()))
  }

  function DepositStep(s: State, env: Env, user: Address, amount: int): (State, Result<int, Error>) {
    if amount <= 0 then (s, Err(InvalidAmount))
    else if user !in env.auths then (s, Err(Trap))
    else
      var accrued := Accrue(s.rate, Stored(s, user, env.now), env.now);
      if accrued.Err? then (s, Err(accrued.error))
      else
        var total := CheckedAdd(accrued.value.balance, amount);
        if total.None? then (s, Err(ArithmeticOverflow))
        else (s.(accounts := s.accounts[user := Account(total.value, env.now)]), Ok(total.value))
  }

  function WithdrawStep(s: State, env: Env, user: Address, amount: int): (State, Result<int, Error>) {
    if amount <= 0 then (s, Err(InvalidAmount))
    else if user !in env.auths then (s, Err(Trap))
    else
      var accrued := Accrue(s.rate, Stored(s, user, env.now), env.now);
      if accrued.Err? then (s, Err(accrued.error))
      else if accrued.value.balance < amount then (s, Err(InsufficientBalance))
      else
        var left := accrued.value.balance - amount;
        (s.(accounts := s.accounts[user := Account(left, env.now)]), Ok(left))
  }

  function Step(s: State, ev: Event): State {
    match ev.call {
      case Initialize(rate) => InitializeStep(s, rate).0
      case Deposit(user, amount) => DepositStep(s, ev.env, user, amount).0
      case Withdraw(user, amount) => WithdrawStep(s, ev.env, user, amount).0
    }
  }

  // ----- The contract --------------------------------------------------------------------

  class VaultContract {
    var yieldRateBps: Option<U32>
    var accounts: map<Address, Account>

    ghost function Contents(): State
      reads this
    {
      State(yieldRateBps, accounts)
    }

    constructor ()
      ensures Contents() == State(None, map[])
    {
      yieldRateBps := None;
      accounts := map[];
    }

    method InitializeRate(rate: U32) returns (r: Result<(), Error>)
      modifies this
      ensures (Contents(), r) == InitializeStep(old(Contents()), rate)
    {
      if yieldRateBps.Some? {
        return Err(AlreadyInitialized);
      }
      yieldRateBps := Some(rate);
      return Ok(());
    }

    method AccrueFor(user: Address, now: U64) returns (r: Result<Account, Error>)
      ensures r == Accrue(yieldRateBps, Stored(Contents(), user, now), now)
    {
      if yieldRateBps.None? {
        return Err(NotInitialized);
      }
      var account := if user in accounts then accounts[user] else Account(0, now);
      var elapsed := SaturatingSub(now, account.lastUpdated);
      if elapsed > 0 && account.balance > 0 {
        var interest := CheckedMul(account.balance, yieldRateBps.value);
        if interest.Some? {
          interest := CheckedMul(interest.value, elapsed);
        }
        if interest.None? {
          return Err(ArithmeticOverflow);
        }
        var total := CheckedAdd(account.balance, interest.value / SCALE);
        if total.None? {
          return Err(ArithmeticOverflow);
        }
        account := account.(balance := total.value);
      }
      account := account.(lastUpdated := now);
      return Ok(account);
    }

    method DepositFor(env: Env, user: Address, amount: int) returns (r: Result<int, Error>)
      modifies this
      ensures (Contents(), r) == DepositStep(old(Contents()), env, user, amount)
    {
      hide Accrue;
      if amount <= 0 {
        return Err(InvalidAmount);
      }
      if user !in env.auths {
        return Err(Trap);
      }
      var accrued := AccrueFor(user, env.now);
      if accrued.Err? {
        return Err(accrued.error);
      }
      var account := accrued.value;
      var total := CheckedAdd(account.balance, amount);
      if total.None? {
        return Err(ArithmeticOverflow);
      }
      account := account.(balance := total.value);
      account := account.(lastUpdated := env.now);
      accounts := accounts[user := account];
      return Ok(account.balance);
    }

    method WithdrawFor(env: Env, user: Address, amount: int) returns (r: Result<int, Error>)
      modifies this
      ensures (Contents(), r) == WithdrawStep(old(Contents()), env, user, amount)
    {
      hide Accrue;
      if amount <= 0 {
        return Err(InvalidAmount);
      }
      if user !in env.auths {
        return Err(Trap);
      }
      var accrued := AccrueFor(user, env.now);
      if accrued.Err? {
        return Err(accrued.error);
      }
      var account := accrued.value;
      if account.balance < amount {
        return Err(InsufficientBalance);
      }
      account := account.(balance := account.balance - amount);
      account := account.(lastUpdated := env.now);
      accounts := accounts[user := account];
      return Ok(account.balance);
    }

    method BalanceOf(user: Address, now: U64) returns (r: Result<int, Error>)
      ensures r.Ok? <==> Accrue(yieldRateBps, Stored(Contents(), user, now), now).Ok?
      ensures r.Ok? ==> r.value == Accrue(yieldRateBps, Stored(Contents(), user, now), now).value.balance
      ensures r.Err? ==> r.error == Accrue(yieldRateBps, Stored(Contents(), user, now), now).error
    {
      hide Accrue;
      var account := AccrueFor(user, now);
      if account.Err? {
        return Err(account.error);
      }
      return Ok(account.value.balance);
    }
  }

  // ----- Arithmetic ----------------------------------------------------------------------

  lemma {:induction false} MulMonotone(a: nat, b: nat, k: nat)
    requires a <= b
    ensures a * k <= b * k
  {
    if k > 0 {
      MulMonotone(a, b, k - 1);
      assert a * k == a * (k - 1) + a && b * k == b * (k - 1) + b;
    }
  }

  lemma ProductsMonotone(a: nat, b: nat, rate: nat, d: nat, e: nat)
    requires a <= b && d <= e
    ensures a * rate * d <= b * rate * e
  {
    MulMonotone(a, b, rate);
    MulMonotone(a * rate, b * rate, d);
    MulMonotone(d, e, b * rate);
  }

  lemma QuotientMonotone(x: nat, y: nat)
    requires x <= y
    ensures x / SCALE <= y / SCALE
  {
  }

  /** Floors lose at most one when a sum is split. */
  lemma QuotientOfSum(x: nat, y: nat)
    ensures x / SCALE + y / SCALE <= (x + y) / SCALE <= x / SCALE + y / SCALE + 1
  {
  }

  lemma PartialProduct(b: nat, rate: nat, elapsed: nat)
    requires elapsed > 0
    ensures b * rate <= b * rate * elapsed
  {
    MulMonotone(1, elapsed, b * rate);
  }

  // ----- One accrual ---------------------------------------------------------------------

  function Interest(balance: nat, rate: nat, elapsed: nat): nat {
    balance * rate * elapsed / SCALE
  }

  /** Accrual fits exactly when the full product and the new balance both fit 128 bits. */
  ghost predicate Fits(balance: nat, rate: nat, elapsed: nat) {
    elapsed > 0 && balance > 0 ==>
      balance * rate * elapsed <= MAX_I128 && balance + Interest(balance, rate, elapsed) <= MAX_I128
  }

  ghost predicate ValidAccount(a: Account) {
    0 <= a.balance <= MAX_I128
  }

  /**
   Accrual is exact: it fails precisely on overflow of the full product or of the sum, and
   otherwise adds the floor of the simple interest.
   */
  lemma AccrueExact(rate: U32, a: Account, now: U64)
    requires ValidAccount(a)
    ensures
      var e := SaturatingSub(now, a.lastUpdated);
      && Accrue(Some(rate), a, now) ==
         (if Fits(a.balance, rate, e) then Ok(Account(a.balance + Interest(a.balance, rate, e), now))
          else Err(ArithmeticOverflow))
  {
    var e := SaturatingSub(now, a.lastUpdated);
    if e > 0 && a.balance > 0 {
      PartialProduct(a.balance, rate, e);
    } else {
      assert a.balance * rate * e == 0;
    }
  }

  /** A balance up to 2^31 never overflows, at any rate and over any time. */
  lemma SmallBalancesAccrue(rate: U32, a: Account, now: U64)
    requires 0 <= a.balance <= 0x8000_0000
    ensures Accrue(Some(rate), a, now).Ok?
  {
    var e := SaturatingSub(now, a.lastUpdated);
    AccrueExact(rate, a, now);
    var r: nat := rate;
    assert e <= MAX_U64;
    ProductsMonotone(a.balance, 0x8000_0000, r, e, MAX_U64);
    MulMonotone(r, 0xffff_ffff, 0x8000_0000 * MAX_U64);
    assert 0x8000_0000 * r * MAX_U64 == r * (0x8000_0000 * MAX_U64);
    assert 0xffff_ffff * (0x8000_0000 * MAX_U64) + 0x8000_0000 <= MAX_I128;
    QuotientBelow(a.balance * r * e);
  }

  lemma QuotientBelow(x: nat)
    ensures x / SCALE <= x
  {
  }

  lemma FitsMonotone(a: nat, b: nat, rate: nat, d: nat, e: nat)
    requires a <= b && d <= e && Fits(b, rate, e)
    ensures Interest(a, rate, d) <= Interest(b, rate, e) && Fits(a, rate, d)
  {
    ProductsMonotone(a, b, rate, d, e);
    QuotientMonotone(a * rate * d, b * rate * e);
  }

  /** A smaller balance and a shorter wait succeed whenever a larger and longer one does, with less. */
  lemma AccrueMonotone(rate: U32, a: Account, b: Account, now: U64, later: U64)
    requires ValidAccount(a) && ValidAccount(b)
    requires a.balance <= b.balance && a.lastUpdated == b.lastUpdated && now <= later
    requires Accrue(Some(rate), b, later).Ok?
    ensures Accrue(Some(rate), a, now).Ok?
    ensures Accrue(Some(rate), a, now).value.balance <= Accrue(Some(rate), b, later).value.balance
  {
    hide Accrue, Fits, Interest;
    var d, e := SaturatingSub(now, a.lastUpdated), SaturatingSub(later, b.lastUpdated);
    AccrueExact(rate, a, now);
    AccrueExact(rate, b, later);
    FitsMonotone(a.balance, b.balance, rate, d, e);
  }

  /** Splitting a balance over two accounts never earns more, and costs at most one unit per accrual. */
  lemma SplitNeverEarnsMore(rate: U32, a: Account, b: Account, whole: Account, now: U64)
    requires ValidAccount(a) && ValidAccount(b) && ValidAccount(whole)
    requires whole == Account(a.balance + b.balance, a.lastUpdated) && b.lastUpdated == a.lastUpdated
    requires Accrue(Some(rate), whole, now).Ok?
    ensures Accrue(Some(rate), a, now).Ok? && Accrue(Some(rate), b, now).Ok?
    ensures
      var split := Accrue(Some(rate), a, now).value.balance + Accrue(Some(rate), b, now).value.balance;
      split <= Accrue(Some(rate), whole, now).value.balance <= split + 1
  {
    var e := SaturatingSub(now, a.lastUpdated);
    AccrueMonotone(rate, a, whole, now, now);
    AccrueMonotone(rate, b, whole, now, now);
    AccrueExact(rate, a, now);
    AccrueExact(rate, b, now);
    AccrueExact(rate, whole, now);
    hide Accrue, Fits, Interest;
    InterestOfSum(a.balance, b.balance, rate, e);
  }

  lemma InterestOfSum(a: nat, b: nat, rate: nat, e: nat)
    ensures Interest(a, rate, e) + Interest(b, rate, e) <= Interest(a + b, rate, e)
    ensures Interest(a + b, rate, e) <= Interest(a, rate, e) + Interest(b, rate, e) + 1
  {
    SplitProduct(a, b, rate, e);
    QuotientOfSum(a * rate * e, b * rate * e);
  }

  lemma SplitProduct(a: nat, b: nat, rate: nat, e: nat)
    ensures (a + b) * rate * e == a * rate * e + b * rate * e
  {
  }

  // ----- Repeated accrual ----------------------------------------------------------------

  /** Accruing at the end of each gap in turn. */
  ghost function AccrueAll(rate: U32, a: Account, gaps: seq<nat>): Result<Account, Error>
    decreases |gaps|
  {
    if gaps == [] then Ok(a)
    else if a.lastUpdated + gaps[0] > MAX_U64 then Err(Trap)
    else
      match Accrue(Some(rate), a, a.lastUpdated + gaps[0]) {
        case Err(e) => Err(e)
        case Ok(next) => AccrueAll(rate, next, gaps[1..])
      }
  }

  ghost function Sum(gaps: seq<nat>): nat {
    if gaps == [] then 0 else gaps[0] + Sum(gaps[1..])
  }

  ghost function ScalePower(n: nat): nat {
    if n == 0 then 1 else SCALE * ScalePower(n - 1)
  }

  /** The growth of continuous reinvestment, scaled: the product of SCALE + rate * gap. */
  ghost function Growth(rate: nat, gaps: seq<nat>): nat {
    if gaps == [] then 1 else (SCALE + rate * gaps[0]) * Growth(rate, gaps[1..])
  }

  /** The floors of the interest on a fixed principal over each gap. */
  ghost function FloorSum(yearly: nat, gaps: seq<nat>): nat {
    if gaps == [] then 0 else yearly * gaps[0] / SCALE + FloorSum(yearly, gaps[1..])
  }

  lemma OneGap(rate: U32, a: Account, gap: nat)
    requires ValidAccount(a) && a.lastUpdated + gap <= MAX_U64
    requires Accrue(Some(rate), a, a.lastUpdated + gap).Ok?
    ensures
      var next := Accrue(Some(rate), a, a.lastUpdated + gap).value;
      && ValidAccount(next) && next.lastUpdated == a.lastUpdated + gap
      && next.balance == a.balance + a.balance * rate * gap / SCALE >= a.balance
      && next.balance * SCALE <= a.balance * (SCALE + rate * gap)
  {
    AccrueExact(rate, a, a.lastUpdated + gap);
    var x := a.balance * rate * gap;
    assert x / SCALE * SCALE <= x;
    GapProduct(a.balance, rate, gap);
    if gap == 0 || a.balance == 0 {
      assert x == 0;
    }
  }

  lemma GapProduct(b: nat, rate: nat, gap: nat)
    ensures b * (SCALE + rate * gap) == b * SCALE + b * rate * gap
  {
  }

  lemma ChainUpper(result: nat, power: nat, next: nat, growth: nat, b: nat, factor: nat, whole: nat, total: nat)
    requires WithinGrowth(result, power, next, growth)
    requires WithinGrowth(next, SCALE, b, factor)
    requires whole == SCALE * power && total == factor * growth
    ensures WithinGrowth(result, whole, b, total)
  {
    MulMonotone(result * power, next * growth, SCALE);
    MulMonotone(next * SCALE, b * factor, growth);
    assert result * (SCALE * power) == result * power * SCALE;
    assert next * growth * SCALE == next * SCALE * growth;
    assert b * factor * growth == b * (factor * growth);
  }

  /** A balance, scaled, is at most a first balance times a growth. */
  ghost predicate WithinGrowth(balance: nat, scale: nat, first: nat, growth: nat) {
    balance * scale <= first * growth
  }

  lemma {:induction false} RepeatedWithinGrowth(rate: U32, a: Account, gaps: seq<nat>)
    requires ValidAccount(a) && AccrueAll(rate, a, gaps).Ok?
    ensures ValidAccount(AccrueAll(rate, a, gaps).value)
    ensures WithinGrowth(AccrueAll(rate, a, gaps).value.balance, ScalePower(|gaps|), a.balance, Growth(rate, gaps))
    decreases |gaps|
  {
    if gaps != [] {
      hide Accrue, Growth, ScalePower, WithinGrowth;
      var next := Accrue(Some(rate), a, a.lastUpdated + gaps[0]).value;
      assert AccrueAll(rate, a, gaps) == AccrueAll(rate, next, gaps[1..]);
      OneGapUpper(rate, a, gaps[0]);
      hide AccrueAll;
      RepeatedWithinGrowth(rate, next, gaps[1..]);
      GrowthOfFirst(rate, gaps);
      ChainUpper(AccrueAll(rate, next, gaps[1..]).value.balance, ScalePower(|gaps| - 1), next.balance,
                 Growth(rate, gaps[1..]), a.balance, SCALE + rate * gaps[0], ScalePower(|gaps|), Growth(rate, gaps));
    }
  }

  /** However an account is touched, it never earns more than exact reinvestment at every touch would. */
  lemma RepeatedUpper(rate: U32, a: Account, gaps: seq<nat>)
    requires ValidAccount(a) && AccrueAll(rate, a, gaps).Ok?
    ensures ValidAccount(AccrueAll(rate, a, gaps).value)
    ensures AccrueAll(rate, a, gaps).value.balance * ScalePower(|gaps|) <= a.balance * Growth(rate, gaps)
  {
    hide AccrueAll, Growth, ScalePower;
    RepeatedWithinGrowth(rate, a, gaps);
  }

  lemma GrowthOfFirst(rate: nat, gaps: seq<nat>)
    requires gaps != []
    ensures ScalePower(|gaps|) == SCALE * ScalePower(|gaps| - 1)
    ensures Growth(rate, gaps) == (SCALE + rate * gaps[0]) * Growth(rate, gaps[1..])
  {
  }

  lemma OneGapUpper(rate: U32, a: Account, gap: nat)
    requires ValidAccount(a) && a.lastUpdated + gap <= MAX_U64
    requires Accrue(Some(rate), a, a.lastUpdated + gap).Ok?
    ensures
      var next := Accrue(Some(rate), a, a.lastUpdated + gap).value;
      ValidAccount(next) && WithinGrowth(next.balance, SCALE, a.balance, SCALE + rate * gap)
  {
    hide Accrue;
    OneGap(rate, a, gap);
  }

  lemma {:induction false} FloorSumMonotone(x: nat, y: nat, gaps: seq<nat>)
    requires x <= y
    ensures FloorSum(x, gaps) <= FloorSum(y, gaps)
  {
    if gaps != [] {
      MulMonotone(x, y, gaps[0]);
      QuotientMonotone(x * gaps[0], y * gaps[0]);
      FloorSumMonotone(x, y, gaps[1..]);
    }
  }

  /** Taking the floor gap by gap loses less than one unit per gap after the first. */
  lemma {:induction false} FloorSumLower(yearly: nat, gaps: seq<nat>)
    requires gaps != []
    ensures FloorSum(yearly, gaps) + |gaps| - 1 >= yearly * Sum(gaps) / SCALE
  {
    if |gaps| == 1 {
      assert Sum(gaps[1..]) == 0;
    } else {
      FloorSumLower(yearly, gaps[1..]);
      QuotientOfSum(yearly * gaps[0], yearly * Sum(gaps[1..]));
      assert yearly * Sum(gaps) == yearly * gaps[0] + yearly * Sum(gaps[1..]);
    }
  }

  lemma FloorsOfOneGap(x: nat, y: nat, b: nat, next: nat, result: nat, gaps: seq<nat>)
    requires gaps != [] && next == b + x * gaps[0] / SCALE && x <= y
    requires result >= next + FloorSum(y, gaps[1..])
    ensures result >= b + FloorSum(x, gaps)
  {
    FloorSumMonotone(x, y, gaps[1..]);
  }

  /** One gap as a step on the yearly interest of the principal before and after it. */
  lemma YearlyGrows(rate: U32, a: Account, gap: nat) returns (x: nat, y: nat)
    requires ValidAccount(a) && a.lastUpdated + gap <= MAX_U64
    requires Accrue(Some(rate), a, a.lastUpdated + gap).Ok?
    ensures
      var next := Accrue(Some(rate), a, a.lastUpdated + gap).value;
      && ValidAccount(next) && next.lastUpdated == a.lastUpdated + gap
      && x == a.balance * rate && y == next.balance * rate && x <= y
      && next.balance == a.balance + x * gap / SCALE
  {
    hide Accrue;
    var next := Accrue(Some(rate), a, a.lastUpdated + gap).value;
    OneGap(rate, a, gap);
    MulMonotone(a.balance, next.balance, rate);
    x, y := a.balance * rate, next.balance * rate;
  }

  lemma {:induction false} RepeatedFloors(rate: U32, a: Account, gaps: seq<nat>)
    requires ValidAccount(a) && AccrueAll(rate, a, gaps).Ok?
    ensures AccrueAll(rate, a, gaps).value.balance >= a.balance + FloorSum(a.balance * rate, gaps)
    decreases |gaps|
  {
    hide Accrue, FloorSum;
    if gaps == [] {
      FloorSumOfNone(a.balance * rate);
    } else {
      var next := Accrue(Some(rate), a, a.lastUpdated + gaps[0]).value;
      var x, y := YearlyGrows(rate, a, gaps[0]);
      RepeatedFloors(rate, next, gaps[1..]);
      FloorsOfOneGap(x, y, a.balance, next.balance, AccrueAll(rate, next, gaps[1..]).value.balance, gaps);
    }
  }

  lemma FloorSumOfNone(yearly: nat)
    ensures FloorSum(yearly, []) == 0
  {
  }

  /** Touching an account often costs it less than one unit per extra touch against touching it once at the end. */
  lemma RepeatedLower(rate: U32, a: Account, gaps: seq<nat>)
    requires ValidAccount(a) && gaps != [] && AccrueAll(rate, a, gaps).Ok?
    ensures AccrueAll(rate, a, gaps).value.balance + |gaps| - 1 >= a.balance + Interest(a.balance, rate, Sum(gaps))
  {
    hide Accrue, AccrueAll, FloorSum;
    RepeatedFloors(rate, a, gaps);
    FloorSumLower(a.balance * rate, gaps);
  }

  // ----- Runs ----------------------------------------------------------------------------

  ghost predicate Inv(s: State) {
    && (forall u :: u in s.accounts ==> ValidAccount(s.accounts[u]))
    && (s.rate.None? ==> s.accounts == map[])
  }

  function BalanceIn(s: State, user: Address): int {
    if user in s.accounts then s.accounts[user].balance else 0
  }

  predicate Concerns(c: Call, user: Address) {
    match c {
      case Initialize(_) => true
      case Deposit(u, _) => u == user
      case Withdraw(u, _) => u == user
    }
  }

  function Succeeded(s: State, ev: Event): bool {
    match ev.call {
      case Initialize(rate) => InitializeStep(s, rate).1.Ok?
      case Deposit(user, amount) => DepositStep(s, ev.env, user, amount).1.Ok?
      case Withdraw(user, amount) => WithdrawStep(s, ev.env, user, amount).1.Ok?
    }
  }

  function Deposited(s: State, ev: Event, user: Address): int {
    if ev.call.Deposit? && ev.call.user == user && Succeeded(s, ev) then ev.call.amount else 0
  }

  function Withdrawn(s: State, ev: Event, user: Address): int {
    if ev.call.Withdraw? && ev.call.user == user && Succeeded(s, ev) then ev.call.amount else 0
  }

  /** Interest credited to the user by one event. */
  function Credited(s: State, ev: Event, user: Address): int
    requires Inv(s)
  {
    if !ev.call.Initialize? && ev.call.user == user && Succeeded(s, ev) && s.rate.Some?
    then
      var a := Stored(s, user, ev.env.now);
      assert ValidAccount(a);
      Interest(a.balance, s.rate.value, SaturatingSub(ev.env.now, a.lastUpdated))
    else 0
  }

  /**
   One event: the invariant is kept, a failure changes nothing, nobody else's account moves, and
   the caller's balance moves by the deposit, the withdrawal and the credited interest.
   */
  lemma StepAccounts(s: State, ev: Event, user: Address)
    requires Inv(s)
    ensures Inv(Step(s, ev))
    ensures !Succeeded(s, ev) ==> Step(s, ev) == s
    ensures BalanceIn(Step(s, ev), user) ==
            BalanceIn(s, user) + Deposited(s, ev, user) - Withdrawn(s, ev, user) + Credited(s, ev, user)
  {
    if !ev.call.Initialize? && s.rate.Some? {
      var a := Stored(s, ev.call.user, ev.env.now);
      assert ValidAccount(a);
      AccrueExact(s.rate.value, a, ev.env.now);
      hide Accrue, Fits, Interest;
      assert Credited(s, ev, ev.call.user) >= 0;
    }
  }

  ghost function TotalOf(s: State, events: seq<Event>, user: Address): int
    requires Inv(s)
    decreases |events|
  {
    if events == [] then 0
    else
      StepAccounts(s, events[0], user);
      Deposited(s, events[0], user) - Withdrawn(s, events[0], user) + Credited(s, events[0], user)
      + TotalOf(Step(s, events[0]), events[1..], user)
  }

  /** Conservation: over any run a balance is deposits less withdrawals plus credited interest. */
  lemma {:induction false} RunConserves(s: State, events: seq<Event>, user: Address)
    requires Inv(s)
    ensures Inv(Run(Step, s, events))
    ensures BalanceIn(Run(Step, s, events), user) == BalanceIn(s, user) + TotalOf(s, events, user)
    decreases |events|
  {
    if events != [] {
      hide Step, Inv, Deposited, Withdrawn, Credited;
      StepAccounts(s, events[0], user);
      RunConserves(Step(s, events[0]), events[1..], user);
    }
  }

  ghost function OnlyOf(events: seq<Event>, user: Address): seq<Event> {
    if events == [] then []
    else (if Concerns(events[0].call, user) then [events[0]] else []) + OnlyOf(events[1..], user)
  }

  /** Two states look alike to a user. */
  ghost predicate SameFor(s: State, t: State, user: Address) {
    && s.rate == t.rate && (user in s.accounts <==> user in t.accounts)
    && (user in s.accounts ==> s.accounts[user] == t.accounts[user])
  }

  lemma StepSameFor(s: State, t: State, ev: Event, user: Address)
    requires SameFor(s, t, user)
    ensures Concerns(ev.call, user) ==> SameFor(Step(s, ev), Step(t, ev), user)
    ensures !Concerns(ev.call, user) ==> SameFor(Step(s, ev), t, user)
  {
    hide Accrue;
  }

  /** Isolation: a user's account after any run is what that user's own calls alone would have made it. */
  lemma {:induction false} RunIsolated(s: State, t: State, events: seq<Event>, user: Address)
    requires SameFor(s, t, user)
    ensures SameFor(Run(Step, s, events), Run(Step, t, OnlyOf(events, user)), user)
    decreases |events|
  {
    if events != [] {
      hide Step, SameFor, Concerns;
      StepSameFor(s, t, events[0], user);
      var rest := OnlyOf(events[1..], user);
      if Concerns(events[0].call, user) {
        assert OnlyOf(events, user) == [events[0]] + rest;
        assert OnlyOf(events, user)[1..] == rest;
        RunIsolated(Step(s, events[0]), Step(t, events[0]), events[1..], user);
      } else {
        assert OnlyOf(events, user) == rest;
        RunIsolated(Step(s, events[0]), t, events[1..], user);
      }
    }
  }

  /** Depositing and withdrawing the same amount at one instant leaves exactly the accrued account. */
  lemma DepositThenWithdraw(s: State, env: Env, user: Address, amount: int)
    requires Inv(s) && DepositStep(s, env, user, amount).1.Ok?
    ensures
      var t := DepositStep(s, env, user, amount).0;
      && WithdrawStep(t, env, user, amount).1.Ok?
      && Accrue(s.rate, Stored(s, user, env.now), env.now).Ok?
      && WithdrawStep(t, env, user, amount).0 ==
         s.(accounts := s.accounts[user := Account(Accrue(s.rate, Stored(s, user, env.now), env.now).value.balance, env.now)])
  {
    var t := DepositStep(s, env, user, amount).0;
    var a := Stored(s, user, env.now);
    assert ValidAccount(a);
    AccrueExact(s.rate.value, a, env.now);
    assert t.accounts[user].lastUpdated == env.now;
    var left := Account(Accrue(s.rate, a, env.now).value.balance, env.now);
    assert t.accounts[user := left] == s.accounts[user := left];
  }

  /** A withdrawal succeeds exactly when it is positive, authorised, and covered by an accrual that fits. */
  lemma WithdrawAvailable(s: State, env: Env, user: Address, amount: int)
    requires Inv(s)
    ensures
      var a := Stored(s, user, env.now);
      var e := SaturatingSub(env.now, a.lastUpdated);
      && ValidAccount(a)
      && (WithdrawStep(s, env, user, amount).1.Ok? <==>
          && s.rate.Some? && user in env.auths && 0 < amount
          && Fits(a.balance, s.rate.value, e) && amount <= a.balance + Interest(a.balance, s.rate.value, e))
  {
    var a := Stored(s, user, env.now);
    if s.rate.Some? {
      AccrueExact(s.rate.value, a, env.now);
      hide Accrue, Fits, Interest;
    }
  }

  /** A deposit succeeds exactly when it is positive, authorised, and the accrued total still fits. */
  lemma DepositAvailable(s: State, env: Env, user: Address, amount: int)
    requires Inv(s)
    ensures
      var a := Stored(s, user, env.now);
      var e := SaturatingSub(env.now, a.lastUpdated);
      && ValidAccount(a)
      && (DepositStep(s, env, user, amount).1.Ok? <==>
          && s.rate.Some? && user in env.auths && 0 < amount
          && Fits(a.balance, s.rate.value, e)
          && a.balance + Interest(a.balance, s.rate.value, e) + amount <= MAX_I128)
  {
    var a := Stored(s, user, env.now);
    if s.rate.Some? {
      AccrueExact(s.rate.value, a, env.now);
      hide Accrue, Fits, Interest;
    }
  }

  // ----- What a call answers -------------------------------------------------------------

  /** A number answered for a user is the balance now stored, and what a query at that instant answers. */
  ghost predicate IsBalance(t: State, user: Address, now: U64, value: int) {
    && user in t.accounts && t.accounts[user] == Account(value, now)
    && Accrue(t.rate, Stored(t, user, now), now) == Ok(Account(value, now))
  }

  /** What a deposit answers: the new balance, which is what accrued plus the amount, or why not. */
  lemma DepositAnswers(s: State, env: Env, user: Address, amount: int)
    requires Inv(s)
    ensures
      var (t, r) := DepositStep(s, env, user, amount);
      var a := Stored(s, user, env.now);
      && ValidAccount(a)
      && (r.Ok? ==>
          && s.rate.Some? && IsBalance(t, user, env.now, r.value)
          && r.value == a.balance + Interest(a.balance, s.rate.value, SaturatingSub(env.now, a.lastUpdated)) + amount)
      && (r.Err? ==> t == s)
      && (r == Err(InvalidAmount) <==> amount <= 0)
      && (r == Err(Trap) <==> amount > 0 && user !in env.auths)
      && (r == Err(NotInitialized) <==> amount > 0 && user in env.auths && s.rate.None?)
      && (r.Err? ==> r.error in {InvalidAmount, Trap, NotInitialized, ArithmeticOverflow})
  {
    if s.rate.Some? {
      AccrueExact(s.rate.value, Stored(s, user, env.now), env.now);
    }
    hide Fits, Interest;
  }

  /** What a withdrawal answers: the balance left, which is what accrued less the amount, or why not. */
  lemma WithdrawAnswers(s: State, env: Env, user: Address, amount: int)
    requires Inv(s)
    ensures
      var (t, r) := WithdrawStep(s, env, user, amount);
      var a := Stored(s, user, env.now);
      && ValidAccount(a)
      && (r.Ok? ==>
          && s.rate.Some? && IsBalance(t, user, env.now, r.value)
          && r.value == a.balance + Interest(a.balance, s.rate.value, SaturatingSub(env.now, a.lastUpdated)) - amount)
      && (r.Err? ==> t == s)
      && (r == Err(InvalidAmount) <==> amount <= 0)
      && (r == Err(Trap) <==> amount > 0 && user !in env.auths)
      && (r == Err(NotInitialized) <==> amount > 0 && user in env.auths && s.rate.None?)
      && (r == Err(InsufficientBalance) <==>
          && amount > 0 && user in env.auths && s.rate.Some?
          && Fits(a.balance, s.rate.value, SaturatingSub(env.now, a.lastUpdated))
          && a.balance + Interest(a.balance, s.rate.value, SaturatingSub(env.now, a.lastUpdated)) < amount)
      && (r.Err? ==> r.error in {InvalidAmount, Trap, NotInitialized, ArithmeticOverflow, InsufficientBalance})
  {
    if s.rate.Some? {
      AccrueExact(s.rate.value, Stored(s, user, env.now), env.now);
    }
    hide Fits, Interest;
  }

  /** Initialisation sets the given rate, once; no later call changes it. */
  lemma {:induction false} RateForever(s: State, rate: U32, events: seq<Event>)
    ensures InitializeStep(s, rate).1.Ok? <==> s.rate.None?
    ensures InitializeStep(s, rate).1 == Err(AlreadyInitialized) <==> s.rate.Some?
    ensures InitializeStep(s, rate).0.accounts == s.accounts
    ensures s.rate.None? ==> Run(Step, InitializeStep(s, rate).0, events).rate == Some(rate)
    ensures s.rate.Some? ==> Run(Step, s, events).rate == s.rate && InitializeStep(s, rate).0 == s
    decreases if s.rate.None? then 1 else 0, |events|
  {
    hide Accrue;
    if s.rate.None? {
      RateForever(InitializeStep(s, rate).0, rate, events);
    } else if events != [] {
      RateForever(Step(s, events[0]), rate, events[1..]);
    }
  }

  /** A year of 365 days earns the rate in hundredths of a percent, rounded down. */
  lemma YearlyInterest(balance: nat, rate: nat)
    ensures Interest(balance, rate, 31_536_000) == balance * rate / 10_000
  {
    SameQuotient(balance * rate);
  }

  lemma SameQuotient(x: nat)
    ensures x * 31_536_000 / SCALE == x / 10_000
  {
    var q, r := x / 10_000, x % 10_000;
    assert x * 31_536_000 == q * SCALE + r * 31_536_000;
  }

  // ----- Overflow is permanent -----------------------------------------------------------

  /** Interest that no longer fits now fits at no later time. */
  lemma OverflowPersists(rate: U32, a: Account, now: U64, later: U64)
    requires ValidAccount(a) && now <= later
    requires Accrue(Some(rate), a, now).Err?
    ensures Accrue(Some(rate), a, later) == Err(ArithmeticOverflow)
  {
    if Accrue(Some(rate), a, later).Ok? {
      AccrueMonotone(rate, a, a, now, later);
      assert false;
    }
    AccrueExact(rate, a, later);
  }

  ghost predicate NotBefore(events: seq<Event>, time: nat) {
    forall i :: 0 <= i < |events| ==> time <= events[i].env.now
  }

  /**
   An account whose accrual overflows once is frozen: on a clock that does not run backwards no
   later call changes it, so nothing is ever withdrawn from it again.
   */
  lemma {:induction false} OverflowFreezes(s: State, events: seq<Event>, user: Address, now: U64)
    requires Inv(s) && s.rate.Some? && user in s.accounts
    requires Accrue(s.rate, s.accounts[user], now).Err?
    requires NotBefore(events, now)
    ensures SameFor(Run(Step, s, events), s, user)
    decreases |events|
  {
    if events != [] {
      var t := Step(s, events[0]);
      OverflowPersists(s.rate.value, s.accounts[user], now, events[0].env.now);
      StepAccounts(s, events[0], user);
      hide Accrue;
      assert SameFor(t, s, user);
      assert forall i :: 0 <= i < |events[1..]| ==> events[1..][i] == events[i + 1];
      OverflowFreezes(t, events[1..], user, now);
    }
  }

  /** An account whose accrual still fits can be changed now, by its user. */
  lemma ThawedByItsUser(s: State, user: Address, now: U64) returns (ev: Event)
    requires Inv(s) && s.rate.Some? && user in s.accounts
    requires Accrue(s.rate, s.accounts[user], now).Ok?
    ensures ev.env.now == now && !SameFor(Step(s, ev), s, user)
  {
    var accrued := Accrue(s.rate, s.accounts[user], now).value;
    var env := Env(now, {user});
    if accrued.balance > 0 {
      ev := Event(env, Withdraw(user, 1));
    } else {
      ev := Event(env, Deposit(user, 1));
    }
    AccrueExact(s.rate.value, s.accounts[user], now);
    hide Fits, Interest;
  }

  /** An account is frozen, whatever is called from now on, exactly when its accrual overflows now. */
  lemma FrozenIff(s: State, user: Address, now: U64)
    requires Inv(s) && s.rate.Some? && user in s.accounts
    ensures (forall events :: NotBefore(events, now) ==> SameFor(Run(Step, s, events), s, user)) <==>
            Accrue(s.rate, s.accounts[user], now).Err?
  {
    hide Accrue, SameFor;
    if Accrue(s.rate, s.accounts[user], now).Err? {
      forall events | NotBefore(events, now) ensures SameFor(Run(Step, s, events), s, user) {
        OverflowFreezes(s, events, user, now);
      }
    } else {
      var ev := ThawedByItsUser(s, user, now);
      assert NotBefore([ev], now);
      assert [ev][1..] == [];
      assert Run(Step, s, [ev]) == Step(s, ev);
    }
  }

  /** A frozen account is within reach: the largest deposit at the lowest rate overflows after two seconds. */
  lemma FrozenAccountReached(user: Address, events: seq<Event>)
    requires NotBefore(events, 2)
    ensures
      var opening := [Event(Env(0, {}), Initialize(1)), Event(Env(0, {user}), Deposit(user, MAX_I128))];
      var s := Run(Step, State(None, map[]), opening);
      && user in s.accounts && s.accounts[user] == Account(MAX_I128, 0)
      && SameFor(Run(Step, s, events), s, user)
  {
    var initialize, deposit := Event(Env(0, {}), Initialize(1)), Event(Env(0, {user}), Deposit(user, MAX_I128));
    var start := State(None, map[]);
    assert [initialize, deposit][1..] == [deposit] && [deposit][1..] == [];
    var s := Step(Step(start, initialize), deposit);
    assert s == State(Some(1), map[user := Account(MAX_I128, 0)]);
    assert Run(Step, s, []) == s && Run(Step, Step(start, initialize), [deposit]) == s;
    assert Run(Step, start, [initialize, deposit]) == Run(Step, Step(start, initialize), [deposit]);
    assert Accrue(s.rate, s.accounts[user], 2).Err?;
    hide Accrue, Step;
    OverflowFreezes(s, events, user, 2);
  }
}
