/**
 Native payments: the backend's check of an intent and of a signed envelope, the wallet's check
 before it signs, and the preflight that builds the transaction in the first place.
 */
module Payments {
  import opened Wrappers
  import opened Digits
  import opened Amounts

  const MAX_FEE: nat := 1_000_000

  /** A public key that passes the checksum, or some other text. */
  datatype Address = Account(key: nat) | NotAKey(text: string)

  datatype Asset = Native | Issued(code: string)

  datatype Memo = NoMemo | TextMemo(text: string) | OtherMemo

  /** Amounts travel as signed 64-bit stroops. */
  type Int64Stroops = n: nat | n <= MAX_INT64

  datatype Operation =
    | Payment(source: Option<Address>, destination: Address, asset: Asset, units: Int64Stroops)
    | OtherOperation(source: Option<Address>)

  datatype Tx = Tx(source: Address, sequence: nat, operations: seq<Operation>, memo: Memo,
                   maxTime: Option<nat>, fee: nat)

  /** An attached signature: of a key, over this transaction on Testnet, or of nothing that verifies. */
  datatype Signature = By(key: Address) | Unverifiable

  /** An XDR string: unreadable, a fee bump, or a transaction with its attached signatures. */
  datatype Envelope = Unreadable | FeeBump | Signed(tx: Tx, signatures: seq<Signature>)

  datatype NativePayment = NativePayment(sender: Address, recipient: Address, amount: string,
                                         asset: string, memo: Option<string>)

  datatype Error =
    | InvalidAddress | InvalidAmount | NotPositiveXlm | MemoTooLong
    | InvalidTransaction | FeeBumpUnsupported | SignatureRequired | IntentMismatch | MemoMismatch
    | TimeBoundsRequired | FeeTooHigh
    | LockedWallet | SourceMismatch | ReviewMismatch | UnexpectedFee | Expired | AlreadySigned
    | NotActivated | InsufficientFunds | Unavailable

  // ----- payment-validation.ts -----------------------------------------------------------

  function Utf8Length(s: string): nat {
    if s == "" then 0
    else
      var c := s[0] as int;
      (if c < 0x80 then 1 else if c < 0x800 then 2 else if c < 0x1_0000 then 3 else 4) + Utf8Length(s[1..])
  }

  function ValidatePayment(input: NativePayment): Result<(), Error> {
    if !input.sender.Account? || !input.recipient.Account? then Err(InvalidAddress)
    else if input.sender == input.recipient || input.asset != "XLM" then Err(NotPositiveXlm)
    else if Stroops(input.amount).None? then Err(InvalidAmount)
    else if Stroops(input.amount).value == 0 then Err(NotPositiveXlm)
    else if input.memo.Some? && Utf8Length(input.memo.value) > 28 then Err(MemoTooLong)
    else Ok(())
  }

  /** The amount of a decoded payment operation is the seven-decimal text of its stroops. */
  function OperationAmount(op: Operation): string
    requires op.Payment?
  {
    UnitsToDecimal(op.units)
  }

  /** An absent memo and an empty one are the same falsy value to the checks. */
  function MemoText(memo: Option<string>): string {
    if memo.Some? then memo.value else ""
  }

  predicate MatchesPayment(tx: Tx, expected: NativePayment) {
    && tx.source == expected.sender
    && |tx.operations| == 1
    && tx.operations[0].Payment?
    && tx.operations[0].source.None?
    && tx.operations[0].asset == Native
    && tx.operations[0].destination == expected.recipient
    && Stroops(OperationAmount(tx.operations[0])) == Stroops(expected.amount)
  }

  /** The backend decodes memo bytes with `Buffer`, which keeps every character. */
  predicate BackendMemoMatches(memo: Memo, expected: string) {
    if expected != "" then memo == TextMemo(expected) else memo == NoMemo
  }

  function ParsePayment(xdr: Envelope, expected: Option<NativePayment>): Result<Tx, Error> {
    if xdr.Unreadable? then Err(InvalidTransaction)
    else if xdr.FeeBump? then Err(FeeBumpUnsupported)
    else if !xdr.tx.source.Account? || By(xdr.tx.source) !in xdr.signatures then Err(SignatureRequired)
    else if expected.Some? && ValidatePayment(expected.value).Err? then Err(ValidatePayment(expected.value).error)
    else if expected.Some? && !MatchesPayment(xdr.tx, expected.value) then Err(IntentMismatch)
    else if expected.Some? && !BackendMemoMatches(xdr.tx.memo, MemoText(expected.value.memo)) then Err(MemoMismatch)
    else if xdr.tx.maxTime.None? || xdr.tx.maxTime.value == 0 then Err(TimeBoundsRequired)
    else if xdr.tx.fee > MAX_FEE then Err(FeeTooHigh)
    else Ok(xdr.tx)
  }

  /** The transaction is the single native payment of the intent, in whole stroops, and nothing else. */
  ghost predicate PaysExactly(tx: Tx, p: NativePayment) {
    && tx.source == p.sender
    && Stroops(p.amount).Some? && 0 < Stroops(p.amount).value <= MAX_INT64
    && tx.operations == [Payment(None, p.recipient, Native, Stroops(p.amount).value)]
    && tx.memo == (if MemoText(p.memo) == "" then NoMemo else TextMemo(MemoText(p.memo)))
  }

  lemma OperationAmountRoundTrip(op: Operation)
    requires op.Payment?
    ensures Stroops(OperationAmount(op)) == Some(op.units as nat)
  {
    Powers();
    UnitsRoundTrip(op.units);
  }

  lemma OneOperation(ops: seq<Operation>, op: Operation)
    ensures ops == [op] <==> |ops| == 1 && ops[0] == op
  {
  }

  /** Comparing printed amounts is comparing stroops. */
  lemma MatchesIsPays(tx: Tx, p: NativePayment, units: nat)
    requires Stroops(p.amount) == Some(units) && units > 0
    ensures MatchesPayment(tx, p) && BackendMemoMatches(tx.memo, MemoText(p.memo)) <==> PaysExactly(tx, p)
  {
    hide Stroops, OperationAmount;
    if |tx.operations| == 1 && tx.operations[0].Payment? {
      OperationAmountRoundTrip(tx.operations[0]);
      if units <= MAX_INT64 {
        OneOperation(tx.operations, Payment(None, p.recipient, Native, units));
      }
    }
  }

  lemma PayerIsSource(tx: Tx, p: NativePayment)
    ensures MatchesPayment(tx, p) || PaysExactly(tx, p) ==> tx.source == p.sender
  {
    hide Stroops, OperationAmount;
  }

  lemma ValidHasStroops(p: NativePayment)
    requires ValidatePayment(p).Ok?
    ensures p.sender.Account? && Stroops(p.amount).Some? && Stroops(p.amount).value > 0
  {
    hide Stroops, Utf8Length;
  }

  /** The checks of `parsePayment` against an intent, as one condition. */
  lemma ParseConditions(xdr: Envelope, p: NativePayment)
    ensures ParsePayment(xdr, Some(p)).Ok? <==>
            && xdr.Signed? && xdr.tx.source.Account? && By(xdr.tx.source) in xdr.signatures
            && ValidatePayment(p).Ok? && MatchesPayment(xdr.tx, p)
            && BackendMemoMatches(xdr.tx.memo, MemoText(p.memo))
            && xdr.tx.maxTime.Some? && xdr.tx.maxTime.value != 0 && xdr.tx.fee <= MAX_FEE
  {
    hide ValidatePayment, MatchesPayment, BackendMemoMatches;
  }

  /**
   What the envelope check means.  Comparing the printed amounts of operation and intent is
   comparing their stroops, so acceptance is exactly: signed by the payer, bounded in time and
   fee, and paying the recipient those stroops.
   */
  lemma ParseAccepts(xdr: Envelope, p: NativePayment)
    ensures ParsePayment(xdr, Some(p)).Ok? <==>
            && xdr.Signed? && By(p.sender) in xdr.signatures
            && ValidatePayment(p).Ok? && PaysExactly(xdr.tx, p)
            && xdr.tx.maxTime.Some? && xdr.tx.maxTime.value != 0 && xdr.tx.fee <= 1_000_000
  {
    hide ValidatePayment, MatchesPayment, BackendMemoMatches, ParsePayment, PaysExactly;
    ParseConditions(xdr, p);
    if xdr.Signed? && xdr.tx.source != p.sender {
      PayerIsSource(xdr.tx, p);
    }
    if xdr.Signed? && ValidatePayment(p).Ok? {
      ValidHasStroops(p);
      MatchesIsPays(xdr.tx, p, Stroops(p.amount).value);
    }
  }

  /** Without an intent to compare with, the envelope must still be signed by its source and bounded in time and fee. */
  lemma ParseAlone(xdr: Envelope)
    ensures ParsePayment(xdr, None).Ok? <==>
            && xdr.Signed? && xdr.tx.source.Account? && By(xdr.tx.source) in xdr.signatures
            && xdr.tx.maxTime.Some? && xdr.tx.maxTime.value != 0 && xdr.tx.fee <= 1_000_000
    ensures ParsePayment(xdr, None).Ok? ==> ParsePayment(xdr, None).value == xdr.tx
  {
  }

  /** The UTF-8 bytes of a character (section 3 of RFC 3629). */
  function Utf8Bytes(c: char): seq<nat> {
    var n := c as int;
    if n < 0x80 then [n]
    else if n < 0x800 then [0xC0 + n / 0x40, 0x80 + n % 0x40]
    else if n < 0x1_0000 then [0xE0 + n / 0x1000, 0x80 + n / 0x40 % 0x40, 0x80 + n % 0x40]
    else [0xF0 + n / 0x4_0000, 0x80 + n / 0x1000 % 0x40, 0x80 + n / 0x40 % 0x40, 0x80 + n % 0x40]
  }

  function Utf8(s: string): seq<nat> {
    if s == "" then [] else Utf8Bytes(s[0]) + Utf8(s[1..])
  }

  /** The byte length counted by the check is the length of the UTF-8 encoding. */
  lemma {:induction false} Utf8LengthIsLength(s: string)
    ensures Utf8Length(s) == |Utf8(s)|
  {
    if s != "" {
      Utf8LengthIsLength(s[1..]);
    }
  }

  /** What validity means: a positive amount of XLM between two accounts, with a memo of at most 28 UTF-8 bytes. */
  lemma ValidMeans(p: NativePayment)
    ensures ValidatePayment(p).Ok? <==>
            && p.sender.Account? && p.recipient.Account? && p.sender != p.recipient && p.asset == "XLM"
            && Stroops(p.amount).Some? && Stroops(p.amount).value > 0 && |Utf8(MemoText(p.memo))| <= 28
  {
    hide Stroops;
    Utf8LengthIsLength(MemoText(p.memo));
  }

  /** A valid payment can be settled at all exactly when its stroops fit the ledger's 64-bit range. */
  lemma SettleableIff(p: NativePayment)
    ensures (exists xdr :: ParsePayment(xdr, Some(p)).Ok?) <==>
            ValidatePayment(p).Ok? && Stroops(p.amount).Some? && Stroops(p.amount).value <= MAX_INT64
  {
    hide ParsePayment, ValidatePayment, Stroops;
    forall xdr | ParsePayment(xdr, Some(p)).Ok?
      ensures ValidatePayment(p).Ok? && Stroops(p.amount).Some? && Stroops(p.amount).value <= MAX_INT64
    {
      ParseAccepts(xdr, p);
    }
    if ValidatePayment(p).Ok? && Stroops(p.amount).Some? && Stroops(p.amount).value <= MAX_INT64 {
      ValidHasStroops(p);
      var xdr := PayingEnvelope(p);
      ParseAccepts(xdr, p);
    }
  }

  /** The envelope that pays an intent, signed by its sender. */
  function PayingEnvelope(p: NativePayment): (xdr: Envelope)
    requires Stroops(p.amount).Some? && 0 < Stroops(p.amount).value <= MAX_INT64
    ensures xdr.Signed? && By(p.sender) in xdr.signatures && PaysExactly(xdr.tx, p)
    ensures xdr.tx.maxTime.Some? && xdr.tx.maxTime.value != 0 && xdr.tx.fee <= MAX_FEE
  {
    Signed(Tx(p.sender, 1, [Payment(None, p.recipient, Native, Stroops(p.amount).value)],
              if MemoText(p.memo) == "" then NoMemo else TextMemo(MemoText(p.memo)), Some(1), 100), [By(p.sender)])
  }

  /** An intent above the ledger's 64-bit range can be created but no envelope ever settles it. */
  lemma AmountBeyondLedgerNeverParses(xdr: Envelope, p: NativePayment)
    requires Stroops(p.amount).Some? && Stroops(p.amount).value > MAX_INT64
    ensures ParsePayment(xdr, Some(p)).Err?
  {
    ParseAccepts(xdr, p);
  }

  // ----- frontend/src/lib/stellar.ts -----------------------------------------------------

  datatype Review = Review(recipient: Address, amount: string, memo: Option<string>, fee: string)

  const BYTE_ORDER_MARK: char := '\U{FEFF}'

  /** The wallet decodes memo bytes with `TextDecoder`, which drops one leading byte order mark. */
  function WalletMemoText(text: string): string {
    if text != "" && text[0] == BYTE_ORDER_MARK then text[1..] else text
  }

  predicate OpensWithMark(text: string) {
    text != "" && text[0] == BYTE_ORDER_MARK
  }

  predicate StartsWithMark(memo: Memo) {
    memo.TextMemo? && OpensWithMark(memo.text)
  }

  predicate WalletMemoMatches(memo: Memo, expected: string) {
    if expected != "" then memo.TextMemo? && WalletMemoText(memo.text) == expected else memo == NoMemo
  }

  predicate ReviewMatches(tx: Tx, review: Review) {
    && |tx.operations| == 1
    && tx.operations[0].Payment?
    && tx.operations[0].source.None?
    && tx.operations[0].asset == Native
    && tx.operations[0].destination == review.recipient
    && Stroops(OperationAmount(tx.operations[0])) == Stroops(review.amount)
    && Stroops(review.amount).Some? && Stroops(review.amount).value > 0
  }

  /** The checks `signTransactionXdr` makes before it signs; the clock is in milliseconds. */
  function ReviewTransaction(secret: Option<Address>, xdr: Envelope, review: Review, now: nat): (r: Result<(), Error>)
    ensures r.Ok? ==> secret.Some? && xdr.Signed? && xdr.signatures == [] && xdr.tx.source == secret.value
  {
    if secret.None? then Err(LockedWallet)
    else if xdr.Unreadable? then Err(InvalidTransaction)
    else if xdr.FeeBump? || xdr.tx.source != secret.value then Err(SourceMismatch)
    else if !ReviewMatches(xdr.tx, review) then Err(ReviewMismatch)
    else if Print(xdr.tx.fee) != review.fee || xdr.tx.fee > MAX_FEE then Err(UnexpectedFee)
    else if !WalletMemoMatches(xdr.tx.memo, MemoText(review.memo)) then Err(MemoMismatch)
    else if xdr.tx.maxTime.None? || xdr.tx.maxTime.value * 1000 <= now || xdr.tx.maxTime.value * 1000 > now + 360_000
    then Err(Expired)
    else if xdr.signatures != [] then Err(AlreadySigned)
    else Ok(())
  }

  /** The review's payment, in whole stroops. */
  ghost predicate PaysReview(tx: Tx, review: Review) {
    && Stroops(review.amount).Some? && 0 < Stroops(review.amount).value <= MAX_INT64
    && tx.operations == [Payment(None, review.recipient, Native, Stroops(review.amount).value)]
  }

  /** A memo whose bytes the wallet reads as this text: the text itself, or the text after a byte order mark. */
  ghost predicate ReadAs(memo: Memo, text: string) {
    if text == "" then memo == NoMemo
    else memo == TextMemo([BYTE_ORDER_MARK] + text) || (memo == TextMemo(text) && text[0] != BYTE_ORDER_MARK)
  }

  lemma WalletMemoReads(memo: Memo, text: string)
    ensures WalletMemoMatches(memo, text) <==> ReadAs(memo, text)
  {
    if memo.TextMemo? && memo.text != "" && memo.text[0] == BYTE_ORDER_MARK {
      assert memo.text == [BYTE_ORDER_MARK] + memo.text[1..];
      assert memo.text != text || text[0] == BYTE_ORDER_MARK;
    }
    assert ([BYTE_ORDER_MARK] + text)[1..] == text;
  }

  lemma ReviewMatchesIsPays(tx: Tx, review: Review)
    ensures ReviewMatches(tx, review) <==> PaysReview(tx, review)
  {
    hide Stroops, OperationAmount;
    if |tx.operations| == 1 && tx.operations[0].Payment? {
      OperationAmountRoundTrip(tx.operations[0]);
      if Stroops(review.amount).Some? && 0 < Stroops(review.amount).value <= MAX_INT64 {
        OneOperation(tx.operations, Payment(None, review.recipient, Native, Stroops(review.amount).value));
      }
    }
  }

  /**
   What the wallet signs: an unsigned transaction of its own key that makes exactly the reviewed
   payment, at exactly the reviewed fee and at most a tenth of a unit of XLM, with the reviewed memo,
   expiring after now and at most six minutes from now.
   */
  lemma ReviewAccepts(secret: Option<Address>, xdr: Envelope, review: Review, now: nat)
    ensures ReviewTransaction(secret, xdr, review, now).Ok? <==>
            && secret.Some? && xdr.Signed? && xdr.signatures == [] && xdr.tx.source == secret.value
            && PaysReview(xdr.tx, review)
            && review.fee == Print(xdr.tx.fee) && xdr.tx.fee <= 1_000_000
            && ReadAs(xdr.tx.memo, MemoText(review.memo))
            && xdr.tx.maxTime.Some? && now < xdr.tx.maxTime.value * 1000 <= now + 6 * 60 * 1000
  {
    hide ReviewMatches, PaysReview, WalletMemoMatches, ReadAs, Print;
    if xdr.Signed? {
      ReviewMatchesIsPays(xdr.tx, review);
      WalletMemoReads(xdr.tx.memo, MemoText(review.memo));
    }
  }

  /** A parsed transaction in the wallet; signing it adds a signature in place. */
  class WalletTransaction {
    var envelope: Envelope

    constructor (xdr: Envelope)
      ensures envelope == xdr
    {
      envelope := xdr;
    }

    method SignReviewed(secret: Option<Address>, review: Review, now: nat) returns (r: Result<Envelope, Error>)
      modifies this
      ensures r.Ok? <==> ReviewTransaction(secret, old(envelope), review, now).Ok?
      ensures r.Err? ==> r.error == ReviewTransaction(secret, old(envelope), review, now).error
      ensures r.Err? ==> envelope == old(envelope)
      ensures r.Ok? ==> r.value == envelope == Signed(old(envelope).tx, [By(secret.value)])
    {
      hide ReviewTransaction;
      var check := ReviewTransaction(secret, envelope, review, now);
      if check.Err? {
        return Err(check.error);
      }
      envelope := envelope.(signatures := envelope.signatures + [By(secret.value)]);
      return Ok(envelope);
    }
  }

  /** The review the wallet shows for an intent. */
  predicate ReviewsIntent(review: Review, p: NativePayment) {
    && review.recipient == p.recipient
    && Stroops(review.amount) == Stroops(p.amount)
    && MemoText(review.memo) == MemoText(p.memo)
  }

  /**
   What the wallet signs, the backend accepts for that intent, exactly when the memo bytes do not
   open with a byte order mark: the two sides decode such a memo differently.
   */
  lemma WalletThenBackend(secret: Option<Address>, xdr: Envelope, review: Review, now: nat, p: NativePayment)
    requires ReviewTransaction(secret, xdr, review, now).Ok?
    requires ValidatePayment(p).Ok? && secret == Some(p.sender) && ReviewsIntent(review, p)
    ensures ParsePayment(Signed(xdr.tx, [By(secret.value)]), Some(p)).Ok? <==> !StartsWithMark(xdr.tx.memo)
    ensures StartsWithMark(xdr.tx.memo) ==>
              ParsePayment(Signed(xdr.tx, [By(secret.value)]), Some(p)) == Err(MemoMismatch)
  {
    hide ValidatePayment, MatchesPayment, BackendMemoMatches, ParsePayment, ReviewTransaction;
    var signed := Signed(xdr.tx, [By(secret.value)]);
    ReviewedMatches(secret, xdr, review, now, p);
    ParseConditions(signed, p);
    ValidHasStroops(p);
    ParseRejectsMemo(signed, p);
  }

  /** A reviewed transaction is the intent's payment; only the memo decoding can differ. */
  lemma ReviewedMatches(secret: Option<Address>, xdr: Envelope, review: Review, now: nat, p: NativePayment)
    requires ReviewTransaction(secret, xdr, review, now).Ok?
    requires secret == Some(p.sender) && ReviewsIntent(review, p)
    ensures MatchesPayment(xdr.tx, p)
    ensures xdr.tx.maxTime.Some? && xdr.tx.maxTime.value != 0 && xdr.tx.fee <= MAX_FEE
    ensures BackendMemoMatches(xdr.tx.memo, MemoText(p.memo)) <==> !StartsWithMark(xdr.tx.memo)
  {
    hide Stroops, OperationAmount, Print;
    var memo := xdr.tx.memo;
    if StartsWithMark(memo) {
      assert |WalletMemoText(memo.text)| < |memo.text|;
    }
  }

  lemma ParseRejectsMemo(xdr: Envelope, p: NativePayment)
    requires xdr.Signed? && xdr.tx.source.Account? && By(xdr.tx.source) in xdr.signatures
    requires ValidatePayment(p).Ok? && MatchesPayment(xdr.tx, p)
    ensures !BackendMemoMatches(xdr.tx.memo, MemoText(p.memo)) ==> ParsePayment(xdr, Some(p)) == Err(MemoMismatch)
  {
    hide ValidatePayment, MatchesPayment, BackendMemoMatches;
  }

  /** The payment of an intent under a memo that opens with a byte order mark. */
  function MarkedTx(p: NativePayment): Tx
    requires Stroops(p.amount).Some? && Stroops(p.amount).value <= MAX_INT64
  {
    Tx(p.sender, 1, [Payment(None, p.recipient, Native, Stroops(p.amount).value)],
       TextMemo([BYTE_ORDER_MARK] + MemoText(p.memo)), Some(300), 100)
  }

  /**
   Every intent with a memo that leaves room for the three bytes of the mark can be paid by a
   transaction that the wallet reviews and signs for it and the backend then rejects for its memo.
   */
  lemma MarkedMemoRefused(p: NativePayment)
    requires ValidatePayment(p).Ok? && Stroops(p.amount).Some? && Stroops(p.amount).value <= MAX_INT64
    requires MemoText(p.memo) != "" && |Utf8(MemoText(p.memo))| <= 25
    ensures
      var review := Review(p.recipient, p.amount, p.memo, Print(100));
      && |Utf8(MarkedTx(p).memo.text)| <= 28
      && ReviewTransaction(Some(p.sender), Signed(MarkedTx(p), []), review, 0).Ok?
      && ParsePayment(Signed(MarkedTx(p), [By(p.sender)]), Some(p)) == Err(MemoMismatch)
  {
    hide Stroops, ValidatePayment, OperationAmount, Print, ParsePayment;
    var tx, review := MarkedTx(p), Review(p.recipient, p.amount, p.memo, Print(100));
    ValidHasStroops(p);
    OperationAmountRoundTrip(tx.operations[0]);
    assert tx.memo.text[1..] == MemoText(p.memo);
    assert |Utf8Bytes(BYTE_ORDER_MARK)| == 3;
    hide Utf8, Utf8Length;
    WalletThenBackend(Some(p.sender), Signed(tx, []), review, 0, p);
  }

  /** One such intent: one XLM with the memo "x". */
  lemma MarkedMemoExample(sender: Address, recipient: Address)
    requires sender.Account? && recipient.Account? && sender != recipient
    ensures
      var p := NativePayment(sender, recipient, "1", "XLM", Some("x"));
      && Stroops(p.amount) == Some(STROOPS_PER_XLM) && ValidatePayment(p).Ok?
      && ParsePayment(Signed(MarkedTx(p), [By(sender)]), Some(p)) == Err(MemoMismatch)
      && ReviewTransaction(Some(sender), Signed(MarkedTx(p), []), Review(recipient, "1", Some("x"), Print(100)), 0).Ok?
  {
    hide ParsePayment, ReviewTransaction;
    var p := NativePayment(sender, recipient, "1", "XLM", Some("x"));
    OneXlm();
    hide Stroops;
    assert Utf8("x") == Utf8Bytes('x') + Utf8("");
    ValidMeans(p);
    hide ValidatePayment, Utf8;
    MarkedMemoRefused(p);
  }

  // ----- stellar.service.ts: buildNativePayment ------------------------------------------

  datatype NativeBalance = NativeBalance(balance: string, sellingLiabilities: Option<string>)

  /** What Horizon reports about the two accounts, the ledger and recent fees. */
  datatype Horizon = Horizon(sequence: nat, native: Option<NativeBalance>, subentries: nat,
                             sponsoring: Option<nat>, sponsored: Option<nat>,
                             bothActivated: bool, baseReserve: nat, feeP95: nat)

  function Max(a: int, b: int): int {
    if a < b then b else a
  }

  function NetworkFee(h: Horizon): nat {
    Max(100, h.feeP95)
  }

  function OrZero(n: Option<nat>): nat {
    if n.Some? then n.value else 0
  }

  function Reserve(h: Horizon): int {
    h.baseReserve * (2 + h.subentries + OrZero(h.sponsoring) - OrZero(h.sponsored))
  }

  function Liabilities(b: NativeBalance): string {
    if b.sellingLiabilities.Some? then b.sellingLiabilities.value else "0"
  }

  /** The sender can pay amount and fee and still hold its reserve and selling liabilities. */
  ghost predicate StaysAboveReserve(h: Horizon, amount: nat, fee: nat) {
    && h.native.Some?
    && Stroops(h.native.value.balance).Some? && Stroops(Liabilities(h.native.value)).Some?
    && Stroops(h.native.value.balance).value - amount - fee >= Reserve(h) + Stroops(Liabilities(h.native.value)).value
  }

  /**
   The ledger's minimum balance: two base reserves for an account with nothing attached, one more for
   each subentry and each sponsorship given, one less for each sponsorship received.
   */
  lemma ReserveMeans(h: Horizon, n: nat)
    ensures h.subentries == 0 && h.sponsoring in {None, Some(0)} && h.sponsored in {None, Some(0)} ==>
              Reserve(h) == 2 * h.baseReserve
    ensures Reserve(h.(subentries := n + 1)) == Reserve(h.(subentries := n)) + h.baseReserve
    ensures Reserve(h.(sponsoring := Some(n + 1))) == Reserve(h.(sponsoring := Some(n))) + h.baseReserve
    ensures Reserve(h.(sponsored := Some(n + 1))) == Reserve(h.(sponsored := Some(n))) - h.baseReserve
    ensures Reserve(h.(sponsoring := None)) == Reserve(h.(sponsoring := Some(0)))
    ensures Reserve(h.(sponsored := None)) == Reserve(h.(sponsored := Some(0)))
  {
    Spread(h.baseReserve, 2 + h.subentries + OrZero(h.sponsoring) - OrZero(h.sponsored));
    Spread(h.baseReserve, 2 + n + OrZero(h.sponsoring) - OrZero(h.sponsored));
    Spread(h.baseReserve, 2 + h.subentries + n - OrZero(h.sponsored));
    Spread(h.baseReserve, 2 + h.subentries + OrZero(h.sponsoring) - n - 1);
  }

  lemma Spread(base: nat, units: int)
    ensures base * (units + 1) == base * units + base
  {
  }

  /** The fee is the recent 95th percentile, and 100 stroops when that is less; unstated liabilities are none. */
  lemma FeeMeans(h: Horizon, b: NativeBalance)
    ensures NetworkFee(h) == (if h.feeP95 <= 100 then 100 else h.feeP95)
    ensures b.sellingLiabilities.None? ==> Stroops(Liabilities(b)) == Some(0)
    ensures b.sellingLiabilities.Some? ==> Liabilities(b) == b.sellingLiabilities.value
  {
    ZeroXlm();
    hide Stroops;
  }

  /** When a request is built into a transaction. */
  ghost predicate Buildable(p: NativePayment, h: Horizon) {
    && ValidatePayment(p).Ok? && h.bothActivated && NetworkFee(h) <= 1_000_000
    && StaysAboveReserve(h, Stroops(p.amount).value, NetworkFee(h))
    && Stroops(p.amount).value <= MAX_INT64
  }

  /** The sender's account on the ledger. */
  datatype LedgerAccount = LedgerAccount(sequence: nat, stroops: int)

  /** What the ledger makes of the source account of a transaction it includes: the sequence moves on, payments and fee are gone. */
  function Charged(account: LedgerAccount, tx: Tx): Option<LedgerAccount> {
    if tx.sequence != account.sequence + 1 then None
    else Some(LedgerAccount(tx.sequence, account.stroops - Paid(tx.operations, tx.source) - tx.fee))
  }

  /** The native stroops a list of operations takes from an account that is their source by default. */
  function Paid(operations: seq<Operation>, source: Address): int
    decreases |operations|
  {
    if operations == [] then 0
    else
      var op := operations[0];
      (if op.Payment? && op.asset == Native && op.source.None? && op.destination != source then op.units as int else 0)
      + Paid(operations[1..], source)
  }

  lemma PaidOnce(op: Operation, source: Address)
    requires op.Payment? && op.asset == Native && op.source.None? && op.destination != source
    ensures Paid([op], source) == op.units
  {
    assert [op][1..] == [];
  }

  /** On an unchanged account the ledger takes the transaction and leaves reserve and selling liabilities covered. */
  ghost predicate LeavesReserve(h: Horizon, tx: Tx) {
    && h.native.Some? && Stroops(h.native.value.balance).Some? && Stroops(Liabilities(h.native.value)).Some?
    && var after := Charged(LedgerAccount(h.sequence, Stroops(h.native.value.balance).value), tx);
    after.Some? && after.value.stroops >= Reserve(h) + Stroops(Liabilities(h.native.value)).value
  }

  /** Succeeds exactly when the spend leaves the sender above reserve and liabilities within the fee limit. */
  method BuildNativePayment(p: NativePayment, h: Horizon, now: nat) returns (r: Result<(Tx, string), Error>)
    requires p.asset == "XLM"
    ensures r.Ok? <==> Buildable(p, h)
    ensures r.Ok? ==>
              && PaysExactly(r.value.0, p)
              && r.value.0.sequence == h.sequence + 1
              && r.value.0.fee == NetworkFee(h) && r.value.1 == Print(NetworkFee(h))
              && r.value.0.maxTime == Some(now / 1000 + 300)
    ensures r.Ok? ==> LeavesReserve(h, r.value.0)
    ensures ValidatePayment(p).Err? ==> r == Err(ValidatePayment(p).error)
    ensures r == Err(NotActivated) <==> ValidatePayment(p).Ok? && !h.bothActivated
    ensures r == Err(FeeTooHigh) <==> ValidatePayment(p).Ok? && h.bothActivated && NetworkFee(h) > 1_000_000
  {
    hide Print, Stroops, Utf8Length;
    var valid := ValidatePayment(p);
    if valid.Err? {
      return Err(valid.error);
    }
    if !h.bothActivated {
      return Err(NotActivated);
    }
    var fee := NetworkFee(h);
    if fee > MAX_FEE {
      return Err(FeeTooHigh);
    }
    var reserve := Reserve(h);
    if h.native.None? {
      return Err(InsufficientFunds);
    }
    var balance, liabilities := Stroops(h.native.value.balance), Stroops(Liabilities(h.native.value));
    if balance.None? || liabilities.None? {
      return Err(InvalidAmount);
    }
    var amount := Stroops(p.amount).value;
    if balance.value - liabilities.value - reserve - fee < amount {
      return Err(InsufficientFunds);
    }
    if amount > MAX_INT64 {
      return Err(Unavailable);
    }
    var builder := Tx(p.sender, h.sequence + 1, [Payment(None, p.recipient, Native, amount)], NoMemo, None, fee);
    if MemoText(p.memo) != "" {
      builder := builder.(memo := TextMemo(MemoText(p.memo)));
    }
    builder := builder.(maxTime := Some(now / 1000 + 300));
    PaidOnce(builder.operations[0], p.sender);
    return Ok((builder, Print(fee)));
  }

  lemma BuiltWithinWalletWindow(serverNow: nat, clientNow: nat)
    requires clientNow - 60_000 <= serverNow <= clientNow + 60_000
    ensures clientNow < (serverNow / 1000 + 300) * 1000 <= clientNow + 360_000
  {
  }

  lemma BuiltMatchesReview(p: NativePayment, built: Tx, review: Review)
    requires PaysExactly(built, p) && ReviewsIntent(review, p)
    ensures ReviewMatches(built, review)
    ensures WalletMemoMatches(built.memo, MemoText(review.memo)) <==> !StartsWithMark(built.memo)
  {
    hide Stroops, OperationAmount;
    OperationAmountRoundTrip(built.operations[0]);
    if StartsWithMark(built.memo) {
      assert |WalletMemoText(built.memo.text)| < |built.memo.text|;
    }
  }

  /** The wallet's verdict on an unsigned transaction whose payment, fee and time bounds are right. */
  lemma MemoDecidesReview(secret: Address, built: Tx, review: Review, now: nat)
    requires built.source == secret && ReviewMatches(built, review)
    requires review.fee == Print(built.fee) && built.fee <= MAX_FEE
    requires built.maxTime.Some? && now < built.maxTime.value * 1000 <= now + 360_000
    ensures ReviewTransaction(Some(secret), Signed(built, []), review, now).Ok? <==>
            WalletMemoMatches(built.memo, MemoText(review.memo))
  {
    hide ReviewMatches, Print;
  }

  /**
   The transaction the backend builds, reviewed and signed in a wallet whose clock is within a
   minute of the server's, passes the wallet's check exactly when the memo does not open with a
   byte order mark, and what the wallet then signs passes the backend's check.
   */
  lemma BuiltPassesBoth(p: NativePayment, built: Tx, review: Review, serverNow: nat, clientNow: nat)
    requires ValidatePayment(p).Ok? && PaysExactly(built, p)
    requires built.fee <= MAX_FEE && built.maxTime == Some(serverNow / 1000 + 300)
    requires clientNow - 60_000 <= serverNow <= clientNow + 60_000
    requires ReviewsIntent(review, p) && review.fee == Print(built.fee)
    ensures ReviewTransaction(Some(p.sender), Signed(built, []), review, clientNow).Ok? <==>
            !StartsWithMark(built.memo)
    ensures ParsePayment(Signed(built, [By(p.sender)]), Some(p)).Ok?
  {
    hide ValidatePayment, ParsePayment, ReviewTransaction, ReviewMatches, WalletMemoMatches, Print, ReviewsIntent;
    BuiltWithinWalletWindow(serverNow, clientNow);
    BuiltMatchesReview(p, built, review);
    MemoDecidesReview(p.sender, built, review, clientNow);
    assert ParsePayment(Signed(built, [By(p.sender)]), Some(p)).Ok? by {
      ParseAccepts(Signed(built, [By(p.sender)]), p);
    }
  }

  /**
   A payment from the request to the backend's check of the signed envelope: built, reviewed in a
   wallet whose clock is within a minute of the server's, and signed.  It gets through exactly when
   it can be built and its memo does not open with a byte order mark; the mark stops it in the wallet.
   */
  method BuildReviewSign(p: NativePayment, h: Horizon, review: Review, serverNow: nat, clientNow: nat)
    returns (r: Result<Envelope, Error>)
    requires p.asset == "XLM"
    requires clientNow - 60_000 <= serverNow <= clientNow + 60_000
    requires ReviewsIntent(review, p) && review.fee == Print(NetworkFee(h))
    ensures r.Ok? <==> Buildable(p, h) && !OpensWithMark(MemoText(p.memo))
    ensures Buildable(p, h) && OpensWithMark(MemoText(p.memo)) ==> r == Err(MemoMismatch)
    ensures r.Ok? ==> ParsePayment(r.value, Some(p)).Ok? && LeavesReserve(h, r.value.tx)
  {
    hide ValidatePayment, ParsePayment, ReviewTransaction, ReviewMatches, WalletMemoMatches, Print, Stroops, ReviewsIntent;
    hide LeavesReserve, StaysAboveReserve, NetworkFee;
    var built := BuildNativePayment(p, h, serverNow);
    if built.Err? {
      return Err(built.error);
    }
    var tx := built.value.0;
    BuiltPassesBoth(p, tx, review, serverNow, clientNow);
    BuiltMark(p, tx);
    var wallet := new WalletTransaction(Signed(tx, []));
    r := wallet.SignReviewed(Some(p.sender), review, clientNow);
    if OpensWithMark(MemoText(p.memo)) {
      MarkedBuiltRefused(p, tx, review, serverNow, clientNow);
    }
  }

  /** A built memo opens with a mark exactly when the request's does. */
  lemma BuiltMark(p: NativePayment, built: Tx)
    requires PaysExactly(built, p)
    ensures StartsWithMark(built.memo) <==> OpensWithMark(MemoText(p.memo))
  {
    hide Stroops;
  }

  lemma MarkedBuiltRefused(p: NativePayment, built: Tx, review: Review, serverNow: nat, clientNow: nat)
    requires PaysExactly(built, p) && StartsWithMark(built.memo)
    requires built.fee <= MAX_FEE && ReviewsIntent(review, p) && review.fee == Print(built.fee)
    ensures ReviewTransaction(Some(p.sender), Signed(built, []), review, clientNow) == Err(MemoMismatch)
  {
    hide Stroops, Print, ReviewMatches, WalletMemoMatches;
    BuiltMatchesReview(p, built, review);
  }
}
