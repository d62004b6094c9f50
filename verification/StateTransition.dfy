/** Applying one message: buying gas, running it, refunding, paying the tip. Balances are 256-bit words and
    every operation on them wraps; what is proved is that none of them ever does. */
module StateTransition {
  import opened Common
  import opened IntrinsicGas

  type Address = nat

  const TWO256: nat := 0x1_0000000000000000_0000000000000000_0000000000000000_0000000000000000

  const REFUND_QUOTIENT: nat := 2
  const REFUND_QUOTIENT_EIP3529: nat := 5
  const BLOB_GAS_PER_BLOB: nat := 131072
  const MAX_INIT_CODE_SIZE: nat := 49152

  function U256(x: int): (r: nat)
    ensures r < TWO256 && (0 <= x < TWO256 ==> r == x)
  {
    x % TWO256
  }

  // ---- balances ----

  type Balances = map<Address, nat>

  function BalanceOf(b: Balances, a: Address): nat { if a in b then b[a] else 0 }

  function NonceOf(nonces: map<Address, nat>, a: Address): nat { if a in nonces then nonces[a] else 0 }

  /** The sum of all balances. */
  ghost function Total(b: Balances): (sum: nat)
    ensures b == map[] ==> sum == 0
    decreases |b|
  {
    if b.Keys == {} then 0
    else
      var a :| a in b.Keys;
      b[a] + Total(b - {a})
  }

  lemma {:induction false} TotalRemove(b: Balances, a: Address)
    requires a in b
    ensures Total(b) == b[a] + Total(b - {a})
    decreases |b|
  {
    var x :| x in b.Keys && Total(b) == b[x] + Total(b - {x});
    if x != a {
      TotalRemove(b - {x}, a);
      TotalRemove(b - {a}, x);
      assert (b - {x}) - {a} == (b - {a}) - {x};
    }
  }

  lemma TotalUpdate(b: Balances, a: Address, v: nat)
    ensures Total(b[a := v]) == Total(b) - BalanceOf(b, a) + v
  {
    TotalRemove(b[a := v], a);
    if a in b {
      TotalRemove(b, a);
      assert b[a := v] - {a} == b - {a};
    } else {
      assert b[a := v] - {a} == b;
    }
  }

  lemma TotalBounds(b: Balances, a: Address)
    ensures BalanceOf(b, a) <= Total(b)
  {
    if a in b { TotalRemove(b, a); }
  }

  /** The accounts as messages see them. */
  datatype Accounts = Accounts(balances: Balances, nonces: map<Address, nat>, contracts: set<Address>)

  // ---- messages ----

  /** A versioned blob hash: its first byte must be one (section "Helpers" of EIP-4844). */
  datatype BlobHash = BlobHash(version: nat, rest: int)

  datatype Pricing =
    | Legacy(price: nat)
    | DynamicFee(tip: nat, cap: nat)
    | Blob(tip: nat, cap: nat, blobCap: nat, hashes: seq<BlobHash>)

  datatype Transaction = Transaction(nonce: nat, gas: nat, to: Option<Address>, value: nat, data: seq<uint8>,
                                     accessList: Option<seq<AccessTuple>>, pricing: Pricing) {
    function GasPrice(): nat { GasFeeCap() }

    function GasFeeCap(): nat {
      match pricing
      case Legacy(price) => price
      case DynamicFee(_, cap) => cap
      case Blob(_, cap, _, _) => cap
    }

    function GasTipCap(): nat {
      match pricing
      case Legacy(price) => price
      case DynamicFee(tip, _) => tip
      case Blob(tip, _, _, _) => tip
    }
  }

  datatype Message = Message(to: Option<Address>, from: Address, nonce: nat, value: nat, gasLimit: nat, gasPrice: nat,
                             gasFeeCap: nat, gasTipCap: nat, data: seq<uint8>, accessList: Option<seq<AccessTuple>>,
                             blobGasFeeCap: nat, blobHashes: Option<seq<BlobHash>>, skipNonceChecks: bool,
                             skipFromEOACheck: bool) {
    function BlobGas(): nat {
      match blobHashes case None => 0 case Some(hs) => Wrap64(|hs| * BLOB_GAS_PER_BLOB)
    }
  }

  function TransactionToMessage(tx: Transaction, from: Address, baseFee: Option<nat>): (msg: Message)
    ensures Priced(msg, baseFee) && CarriedOver(tx, from, msg)
  {
    var price := match baseFee
                 case None => tx.GasPrice()
                 case Some(fee) =>
                   if tx.GasTipCap() + fee > tx.GasFeeCap() then tx.GasFeeCap() else tx.GasTipCap() + fee;
    Message(tx.to, from, tx.nonce, tx.value, tx.gas, price, tx.GasFeeCap(), tx.GasTipCap(), tx.data, tx.accessList,
            if tx.pricing.Blob? then tx.pricing.blobCap else 0,
            if tx.pricing.Blob? then Some(tx.pricing.hashes) else None, false, false)
  }

  /** Everything but the price is the transaction's own. */
  ghost predicate CarriedOver(tx: Transaction, from: Address, msg: Message) {
    && msg.from == from && msg.to == tx.to && msg.value == tx.value && msg.nonce == tx.nonce && msg.gasLimit == tx.gas
    && msg.data == tx.data && msg.accessList == tx.accessList
    && match tx.pricing
       case Legacy(price) => msg.gasFeeCap == msg.gasTipCap == price && msg.blobHashes == None
       case DynamicFee(tip, cap) => msg.gasFeeCap == cap && msg.gasTipCap == tip && msg.blobHashes == None
       case Blob(tip, cap, blobCap, hashes) =>
         && msg.gasFeeCap == cap && msg.gasTipCap == tip
         && msg.blobGasFeeCap == blobCap && msg.blobHashes == Some(hashes)
  }

  /** The gas price of a message on the consensus path: the effective price, never above the fee cap
      (section "Specification" of EIP-1559). */
  ghost predicate Priced(msg: Message, baseFee: Option<nat>) {
    && msg.gasPrice <= msg.gasFeeCap && !msg.skipNonceChecks && !msg.skipFromEOACheck
    && match baseFee
       case None => msg.gasPrice == msg.gasFeeCap
       case Some(fee) => msg.gasPrice
                           == (if msg.gasTipCap + fee > msg.gasFeeCap then msg.gasFeeCap else msg.gasTipCap + fee)
  }

  datatype Rules = Rules(homestead: bool, istanbul: bool, london: bool, shanghai: bool, cancun: bool)

  /** Block values seen by messages. A header after London has a base fee, one after Cancun a blob base fee. */
  datatype Context = Context(coinbase: Address, baseFee: Option<nat>, blobBaseFee: nat, rules: Rules) {
    ghost predicate Valid() { rules.london <==> baseFee.Some? }
    function BaseFee(): nat { if baseFee.Some? then baseFee.value else 0 }
  }

  datatype TxError =
    | NonceTooHigh | NonceTooLow | NonceMax | SenderNoEOA | TipAboveFeeCap | FeeCapTooLow | FeeCapVeryHigh | TipVeryHigh
    | BlobTxCreate | MissingBlobHashes | BadBlobHash | BlobFeeCapTooLow | InsufficientFunds | GasLimitReached
    | IntrinsicOverflow | IntrinsicTooLow | MaxInitCodeSizeExceeded | PricePanics

  datatype Result<+T> = Ok(value: T) | Err(error: TxError)

  datatype ExecutionResult = ExecutionResult(usedGas: nat, refundedGas: nat, failed: bool)

  // ---- the interpreter ----

  datatype EvmInput = EvmInput(msg: Message, balances: Balances, nonces: map<Address, nat>, contracts: set<Address>,
                               gas: nat)

  datatype EvmOutput = EvmOutput(balances: Balances, nonces: map<Address, nat>, contracts: set<Address>, gas: nat,
                                 refund: nat, burned: nat, failed: bool)

  /** All that is assumed of a call or create: it moves balances around, may burn some, and returns no
      more gas than it was given. */
  ghost predicate Legal(i: EvmInput, o: EvmOutput) {
    Total(o.balances) + o.burned == Total(i.balances) && o.gas <= i.gas
  }

  ghost predicate Lawful(evm: EvmInput -> EvmOutput) { forall i :: Legal(i, evm(i)) }

  // ---- shared objects ----

  class GasPool {
    var gas: nat

    constructor (amount: nat)
      requires amount <= MAX_UINT64
      ensures gas == amount
    {
      gas := amount;
    }

    /** Pushing the pool above 64 bits panics. */
    method AddGas(amount: nat) returns (panics: bool)
      modifies this
      ensures panics == (old(gas) + amount > MAX_UINT64)
      ensures gas == if panics then old(gas) else old(gas) + amount
    {
      if gas > MAX_UINT64 - amount { return true; }
      gas := gas + amount;
      panics := false;
    }

    method SubGas(amount: nat) returns (r: Result<()>)
      modifies this
      ensures r == if old(gas) < amount then Err(GasLimitReached) else Ok(())
      ensures gas == if r.Ok? then old(gas) - amount else old(gas)
    {
      if gas < amount { return Err(GasLimitReached); }
      gas := gas - amount;
      r := Ok(());
    }
  }

  class StateDB {
    var balances: Balances
    var nonces: map<Address, nat>
    var contracts: set<Address>
    var refund: nat

    constructor (balances: Balances, nonces: map<Address, nat>, contracts: set<Address>)
      ensures this.balances == balances && this.nonces == nonces && this.contracts == contracts
    {
      this.balances, this.nonces, this.contracts, this.refund := balances, nonces, contracts, 0;
    }

    ghost function Seen(): Accounts
      reads this
    {
      Accounts(balances, nonces, contracts)
    }

    method SubBalance(a: Address, amount: nat)
      modifies this`balances
      ensures balances == old(balances)[a := U256(BalanceOf(old(balances), a) - amount)]
    {
      balances := balances[a := U256(BalanceOf(balances, a) - amount)];
    }

    method AddBalance(a: Address, amount: nat)
      modifies this`balances
      ensures balances == old(balances)[a := U256(BalanceOf(old(balances), a) + amount)]
    {
      balances := balances[a := U256(BalanceOf(balances, a) + amount)];
    }
  }

  /** The price of an amount of gas. */
  function Fee(gas: nat, price: nat): (fee: nat) {
    gas * price
  }

  function BlobFee(msg: Message, ctx: Context): nat {
    if ctx.rules.cancun then Fee(msg.BlobGas(), ctx.blobBaseFee) else 0
  }

  /** The fee taken up front. */
  function UpFront(msg: Message, ctx: Context): nat { Fee(msg.gasLimit, msg.gasPrice) + BlobFee(msg, ctx) }

  /** What the sender must be able to pay. */
  function RequiredBalance(msg: Message, ctx: Context): nat {
    Fee(msg.gasLimit, msg.gasFeeCap) + msg.value + if ctx.rules.cancun then Fee(msg.BlobGas(), msg.blobGasFeeCap) else 0
  }

  lemma FeeMono(gas: nat, gas': nat, price: nat, price': nat)
    requires gas <= gas' && price <= price'
    ensures Fee(gas, price) <= Fee(gas', price')
  {
    assert gas * price <= gas' * price;
    assert gas' * price <= gas' * price';
  }

  lemma NoGas(price: nat)
    ensures Fee(0, price) == 0
  {
  }

  lemma FeeAtLeast(gas: nat, price: nat)
    requires gas > 0
    ensures price <= Fee(gas, price)
  {
    FeeMono(1, gas, price, price);
  }

  /** What is checked covers what is taken plus the value to be moved. */
  lemma RequiredCovers(msg: Message, ctx: Context)
    requires Priced(msg, ctx.baseFee)
             && (ctx.rules.cancun && msg.BlobGas() > 0 ==> ctx.blobBaseFee <= msg.blobGasFeeCap)
    ensures UpFront(msg, ctx) + msg.value <= RequiredBalance(msg, ctx)
  {
    hide Message.BlobGas;
    FeeMono(msg.gasLimit, msg.gasLimit, msg.gasPrice, msg.gasFeeCap);
    if ctx.rules.cancun
        && msg.BlobGas() > 0 { FeeMono(msg.BlobGas(), msg.BlobGas(), ctx.blobBaseFee, msg.blobGasFeeCap); }
  }

  /** The balance equation of a whole message. */
  lemma Conservation(limit: nat, used: nat, price: nat, tip: nat, base: nat)
    requires used <= limit && price == tip + base
    ensures Fee(limit, price) == Fee(limit - used, price) + Fee(used, tip) + Fee(used, base)
  {
    assert used * price == used * tip + used * base;
    assert limit * price == (limit - used) * price + used * price;
  }

  /** Adding to one account over the integers. */
  function Credit(b: Balances, a: Address, amount: nat): (r: Balances) { b[a := BalanceOf(b, a) + amount] }

  function RefundCap(used: nat, quotient: nat): (r: nat)
    requires quotient in {REFUND_QUOTIENT, REFUND_QUOTIENT_EIP3529}
    ensures r <= used
  {
    used / quotient
  }

  /** The refund granted: the counter, capped to a share of the gas used (section "Specification" of EIP-3529). */
  function Refunded(used: nat, quotient: nat, counter: nat): (r: nat)
    requires quotient in {REFUND_QUOTIENT, REFUND_QUOTIENT_EIP3529}
    ensures r <= used && r <= counter
  {
    if RefundCap(used, quotient) > counter then counter else RefundCap(used, quotient)
  }

  function Quotient(rules: Rules): nat { if rules.london then REFUND_QUOTIENT_EIP3529 else REFUND_QUOTIENT }

  /** The intrinsic gas of a message as charged, if its data can be priced in 64 bits. */
  function Intrinsic(msg: Message, rules: Rules): GasResult {
    var price := DataPrice(msg.data, msg.to.None?, rules.homestead, rules.istanbul, rules.shanghai);
    if price > MAX_UINT64 then GasUintOverflow else Gas(Wrap64(price + ListPrice(msg.accessList)))
  }

  /** Why a message is turned away after its gas was bought. */
  function LateRefusal(msg: Message, rules: Rules): Option<TxError> {
    match Intrinsic(msg, rules)
    case GasUintOverflow => Some(IntrinsicOverflow)
    case Gas(gas) =>
      if msg.gasLimit < gas then Some(IntrinsicTooLow)
      else if rules.shanghai && msg.to.None? && |msg.data| > MAX_INIT_CODE_SIZE then Some(MaxInitCodeSizeExceeded)
      else None
  }

  function Bought(msg: Message, ctx: Context, balances: Balances): Balances
    requires UpFront(msg, ctx) <= BalanceOf(balances, msg.from)
  {
    balances[msg.from := BalanceOf(balances, msg.from) - UpFront(msg, ctx)]
  }

  /** What the interpreter starts from. */
  function EvmStart(msg: Message, ctx: Context, a: Accounts): EvmInput
    requires UpFront(msg, ctx) <= BalanceOf(a.balances, msg.from) && LateRefusal(msg, ctx.rules).None?
  {
    EvmInput(msg, Bought(msg, ctx, a.balances),
             if msg.to.None? then a.nonces else a.nonces[msg.from := Wrap64(NonceOf(a.nonces, msg.from) + 1)],
                 a.contracts,
             msg.gasLimit - Intrinsic(msg, ctx.rules).gas)
  }

  /** Why a message is turned away before anything is charged, in the order of the checks. */
  function Refusal(msg: Message, ctx: Context, a: Accounts, pool: nat): Option<TxError> {
    var stNonce := NonceOf(a.nonces, msg.from);
    if !msg.skipNonceChecks && stNonce < msg.nonce then Some(NonceTooHigh)
    else if !msg.skipNonceChecks && stNonce > msg.nonce then Some(NonceTooLow)
    else if !msg.skipNonceChecks && stNonce == MAX_UINT64 then Some(NonceMax)
    else if !msg.skipFromEOACheck && msg.from in a.contracts then Some(SenderNoEOA)
    else if ctx.rules.london && msg.gasFeeCap >= TWO256 then Some(FeeCapVeryHigh)
    else if ctx.rules.london && msg.gasTipCap >= TWO256 then Some(TipVeryHigh)
    else if ctx.rules.london && msg.gasFeeCap < msg.gasTipCap then Some(TipAboveFeeCap)
    else if ctx.rules.london && msg.gasFeeCap < ctx.BaseFee() then Some(FeeCapTooLow)
    else if msg.blobHashes.Some? && msg.to.None? then Some(BlobTxCreate)
    else if msg.blobHashes.Some? && msg.blobHashes.value == [] then Some(MissingBlobHashes)
    else if msg.blobHashes.Some? && exists h :: h in msg.blobHashes.value && h.version != 1 then Some(BadBlobHash)
    else if ctx.rules.cancun && msg.BlobGas() > 0 && msg.blobGasFeeCap < ctx.blobBaseFee then Some(BlobFeeCapTooLow)
    else if RequiredBalance(msg, ctx) >= TWO256
        || BalanceOf(a.balances, msg.from) < RequiredBalance(msg, ctx) then Some(InsufficientFunds)
    else if pool < msg.gasLimit then Some(GasLimitReached)
    else None
  }

  /** Why a message has no result: it is refused early or late, or its price does not fit the 256 bits the refund is
      computed in. */
  function TurnedAway(msg: Message, ctx: Context, a: Accounts, pool: nat): Option<TxError> {
    var refusal := Refusal(msg, ctx, a, pool);
    if refusal.Some? then refusal
    else if LateRefusal(msg, ctx.rules).Some? then LateRefusal(msg, ctx.rules)
    else if msg.gasPrice >= TWO256 then Some(PricePanics)
    else None
  }

  /** That takes a message from before London with a zero gas limit, and an access list long enough for its price to
      wrap around 64 bits. */
  lemma PriceFits(msg: Message, ctx: Context, a: Accounts, pool: nat)
    requires Priced(msg, ctx.baseFee) && ctx.Valid() && TurnedAway(msg, ctx, a, pool) == Some(PricePanics)
    ensures !ctx.rules.london && msg.gasLimit == 0
    ensures DataPrice(msg.data, msg.to.None?, ctx.rules.homestead, ctx.rules.istanbul, ctx.rules.shanghai)
            + ListPrice(msg.accessList) >= TWO64
  {
    hide DataPrice, ListPrice, Fee, Message.BlobGas;
    if msg.gasLimit > 0 { FeeAtLeast(msg.gasLimit, msg.gasFeeCap); }
    BasePositive(msg, ctx.rules);
  }

  lemma BasePositive(msg: Message, rules: Rules)
    ensures DataPrice(msg.data, msg.to.None?, rules.homestead, rules.istanbul, rules.shanghai) > 0
  {
  }

  /** The gas a message is charged for once the interpreter has returned. */
  function UsedGas(msg: Message, rules: Rules, out: EvmOutput): (used: nat)
    requires out.gas <= msg.gasLimit
    ensures used <= msg.gasLimit
  {
    msg.gasLimit - out.gas - Refunded(msg.gasLimit - out.gas, Quotient(rules), out.refund)
  }

  /** The accounts a message leaves: the sender gets the unused gas back, the coinbase the tip. */
  function AccountsAfter(msg: Message, ctx: Context, out: EvmOutput): Accounts
    requires out.gas <= msg.gasLimit && ctx.BaseFee() <= msg.gasPrice
  {
    var used := UsedGas(msg, ctx.rules, out);
    Accounts(Credit(Credit(out.balances, msg.from, Fee(msg.gasLimit - used, msg.gasPrice)),
                    ctx.coinbase, Fee(used, msg.gasPrice - ctx.BaseFee())),
             out.nonces, out.contracts)
  }

  /** Result and accounts are those that follow from what the interpreter returned. */
  ghost predicate Executed(msg: Message, ctx: Context, out: EvmOutput, result: ExecutionResult, a': Accounts) {
    && out.gas <= msg.gasLimit && ctx.BaseFee() <= msg.gasPrice
    && result == ExecutionResult(UsedGas(msg, ctx.rules, out),
        Refunded(msg.gasLimit - out.gas, Quotient(ctx.rules), out.refund), out.failed)
    && a' == AccountsAfter(msg, ctx, out)
  }

  // ---- what running a message means, in plain arithmetic ----

  ghost function PlainBlobGas(msg: Message, ctx: Context): nat {
    if !ctx.rules.cancun || msg.blobHashes.None? then 0 else |msg.blobHashes.value| * 131072 % TWO64
  }

  /** What is taken before the message runs: all its gas at its price, and its blobs at the blob base fee. */
  ghost function Deposit(msg: Message, ctx: Context): nat {
    msg.gasLimit * msg.gasPrice + PlainBlobGas(msg, ctx) * ctx.blobBaseFee
  }

  /** The most the message may cost its sender. */
  ghost function MostCost(msg: Message, ctx: Context): nat {
    msg.gasLimit * msg.gasFeeCap + PlainBlobGas(msg, ctx) * msg.blobGasFeeCap + msg.value
  }

  ghost function PlainIntrinsic(msg: Message, ctx: Context): nat {
    (PlainPrice(msg.data, msg.to.None?, ctx.rules.homestead, ctx.rules.istanbul, ctx.rules.shanghai)
     + PlainList(msg.accessList)) % TWO64
  }

  /** The sender is no contract and its next nonce is that of the message; the fees are in order; the sender can pay the
      most the message may cost; the pool holds its gas; and its gas covers what it costs before it runs. */
  ghost predicate Admissible(msg: Message, ctx: Context, a: Accounts, pool: nat) {
    && (if msg.from in a.nonces then a.nonces[msg.from] else 0) == msg.nonce != MAX_UINT64
    && msg.from !in a.contracts
    && FeesInOrder(msg, ctx)
    && MostCost(msg, ctx) < TWO256
    && MostCost(msg, ctx) <= (if msg.from in a.balances then a.balances[msg.from] else 0)
    && msg.gasLimit <= pool && msg.gasPrice < TWO256
    && PlainPrice(msg.data, msg.to.None?, ctx.rules.homestead, ctx.rules.istanbul, ctx.rules.shanghai) < TWO64
    && PlainIntrinsic(msg, ctx) <= msg.gasLimit
    && (ctx.rules.shanghai && msg.to.None? ==> |msg.data| <= 49152)
  }

  ghost predicate FeesInOrder(msg: Message, ctx: Context) {
    && (ctx.rules.london ==> msg.gasTipCap <= msg.gasFeeCap < TWO256)
    && (ctx.baseFee.Some? ==> ctx.baseFee.value <= msg.gasFeeCap)
    && (msg.blobHashes.Some?
        ==> msg.to.Some? && msg.blobHashes.value != [] && forall h :: h in msg.blobHashes.value ==> h.version == 1)
    && (PlainBlobGas(msg, ctx) > 0 ==> ctx.blobBaseFee <= msg.blobGasFeeCap)
  }

  /** What the interpreter is given: the accounts with the deposit taken, the nonce of the sender of a call one higher,
      and the gas less what the message costs before it runs. */
  ghost predicate Given(msg: Message, ctx: Context, a: Accounts, i: EvmInput) {
    && i.msg == msg && i.contracts == a.contracts && i.gas + PlainIntrinsic(msg, ctx) == msg.gasLimit
    && BalanceOf(i.balances, msg.from) + Deposit(msg, ctx) == BalanceOf(a.balances, msg.from)
    && (forall x :: x != msg.from ==> BalanceOf(i.balances, x) == BalanceOf(a.balances, x))
    && NonceOf(i.nonces, msg.from)
       == (if msg.to.Some? then (NonceOf(a.nonces, msg.from) + 1) % TWO64 else NonceOf(a.nonces, msg.from))
    && (forall x :: x != msg.from ==> NonceOf(i.nonces, x) == NonceOf(a.nonces, x))
  }

  /** The gas charged: what the interpreter used less the refund, which is the largest number that is no more than the
      refund counter and no more than a fifth of what was used, or a half before London. */
  ghost predicate Charged(msg: Message, ctx: Context, out: EvmOutput, result: ExecutionResult) {
    var used, share := msg.gasLimit - out.gas, if ctx.rules.london then 5 else 2;
    && result.usedGas + result.refundedGas == used && result.failed == out.failed
    && result.refundedGas * share <= used && result.refundedGas <= out.refund
    && (result.refundedGas == out.refund || (result.refundedGas + 1) * share > used)
  }

  /** What the accounts get on top of what the interpreter left: the sender the price of the gas not charged, the
      coinbase the price above the base fee of the gas charged. */
  ghost predicate Paid(msg: Message, ctx: Context, out: EvmOutput, result: ExecutionResult, a': Accounts) {
    && a'.nonces == out.nonces && a'.contracts == out.contracts && result.usedGas <= msg.gasLimit
    && forall x :: BalanceOf(a'.balances, x)
           == BalanceOf(out.balances, x)
              + (if x == msg.from then (msg.gasLimit - result.usedGas) * msg.gasPrice else 0)
              + (if x == ctx.coinbase then
                   result.usedGas * (msg.gasPrice - if ctx.baseFee.Some? then ctx.baseFee.value else 0)
                 else 0)
  }

  lemma RefundBound(used: nat, quotient: nat, counter: nat)
    requires quotient in {REFUND_QUOTIENT, REFUND_QUOTIENT_EIP3529}
    ensures var r := Refunded(used, quotient, counter);
            && r * quotient <= used && r <= counter && (r == counter || (r + 1) * quotient > used)
  {
  }

  lemma RefundIs(used: nat, rules: Rules, counter: nat)
    ensures var r, share := Refunded(used, Quotient(rules), counter), if rules.london then 5 else 2;
            && r * share <= used && r <= counter && (r == counter || (r + 1) * share > used)
  {
  }

  lemma BlobGasIs(msg: Message, ctx: Context)
    ensures ctx.rules.cancun ==> msg.BlobGas() == PlainBlobGas(msg, ctx)
    ensures BlobFee(msg, ctx) == PlainBlobGas(msg, ctx) * ctx.blobBaseFee
    ensures UpFront(msg, ctx) == Deposit(msg, ctx) && RequiredBalance(msg, ctx) == MostCost(msg, ctx)
  {
  }

  lemma IntrinsicPlain(msg: Message, ctx: Context)
    ensures var price := PlainPrice(msg.data, msg.to.None?, ctx.rules.homestead, ctx.rules.istanbul,
                ctx.rules.shanghai);
            Intrinsic(msg, ctx.rules) == if price >= TWO64 then GasUintOverflow else Gas(PlainIntrinsic(msg, ctx))
  {
    PriceIs(msg.data, msg.accessList, msg.to.None?, ctx.rules.homestead, ctx.rules.istanbul, ctx.rules.shanghai);
    hide DataPrice, PlainPrice, ListPrice, PlainList;
  }

  /** Exactly the admissible messages are not turned away. */
  lemma TurnedAwayExactly(msg: Message, ctx: Context, a: Accounts, pool: nat)
    requires Priced(msg, ctx.baseFee) && ctx.Valid()
    ensures TurnedAway(msg, ctx, a, pool).None? <==> Admissible(msg, ctx, a, pool)
  {
    BlobGasIs(msg, ctx);
    IntrinsicPlain(msg, ctx);
    hide PlainPrice, PlainIntrinsic, Intrinsic, MostCost, RequiredBalance, Deposit, UpFront, Message.BlobGas,
      PlainBlobGas;
  }

  lemma GivenIs(msg: Message, ctx: Context, a: Accounts, pool: nat)
    requires Admissible(msg, ctx, a, pool) && Priced(msg, ctx.baseFee) && ctx.Valid()
    requires UpFront(msg, ctx) <= BalanceOf(a.balances, msg.from) && LateRefusal(msg, ctx.rules).None?
    ensures Given(msg, ctx, a, EvmStart(msg, ctx, a))
  {
    BlobGasIs(msg, ctx);
    IntrinsicPlain(msg, ctx);
    hide PlainPrice, PlainIntrinsic, Intrinsic, MostCost, RequiredBalance, Deposit, UpFront, FeesInOrder;
  }

  lemma PaidIs(msg: Message, ctx: Context, out: EvmOutput, result: ExecutionResult, a': Accounts)
    requires Executed(msg, ctx, out, result, a')
    ensures Charged(msg, ctx, out, result) && Paid(msg, ctx, out, result, a')
  {
    RefundIs(msg.gasLimit - out.gas, ctx.rules, out.refund);
    FeeIs(msg.gasLimit - result.usedGas, msg.gasPrice);
    FeeIs(result.usedGas, msg.gasPrice - ctx.BaseFee());
    hide Refunded, Fee;
  }

  lemma FeeIs(gas: nat, price: nat)
    ensures Fee(gas, price) == gas * price
  {
  }

  /** What a message is turned away for before anything is charged, in the order it is looked at. */
  ghost function EarlyChecks(msg: Message, ctx: Context, a: Accounts, pool: nat): (cs: seq<(bool, TxError)>)
    ensures |cs| == 14
  {
    var nonce := if msg.from in a.nonces then a.nonces[msg.from] else 0;
    var balance := if msg.from in a.balances then a.balances[msg.from] else 0;
    var blobs := if msg.blobHashes.Some? then msg.blobHashes.value else [];
    [ (nonce < msg.nonce, NonceTooHigh),
      (msg.nonce < nonce, NonceTooLow),
      (nonce == MAX_UINT64, NonceMax),
      (msg.from in a.contracts, SenderNoEOA),
      (ctx.rules.london && TWO256 <= msg.gasFeeCap, FeeCapVeryHigh),
      (ctx.rules.london && TWO256 <= msg.gasTipCap, TipVeryHigh),
      (ctx.rules.london && msg.gasFeeCap < msg.gasTipCap, TipAboveFeeCap),
      (ctx.baseFee.Some? && msg.gasFeeCap < ctx.baseFee.value, FeeCapTooLow),
      (msg.blobHashes.Some? && msg.to.None?, BlobTxCreate),
      (msg.blobHashes.Some? && blobs == [], MissingBlobHashes),
      (exists h :: h in blobs && h.version != 1, BadBlobHash),
      (PlainBlobGas(msg, ctx) > 0 && msg.blobGasFeeCap < ctx.blobBaseFee, BlobFeeCapTooLow),
      (MostCost(msg, ctx) >= TWO256 || balance < MostCost(msg, ctx), InsufficientFunds),
      (pool < msg.gasLimit, GasLimitReached) ]
  }

  /** And after its gas was bought. */
  ghost function LateChecks(msg: Message, ctx: Context): (cs: seq<(bool, TxError)>)
    ensures |cs| == 4
  {
    [ (PlainPrice(msg.data, msg.to.None?, ctx.rules.homestead, ctx.rules.istanbul, ctx.rules.shanghai) >= TWO64,
       IntrinsicOverflow),
      (msg.gasLimit < PlainIntrinsic(msg, ctx), IntrinsicTooLow),
      (ctx.rules.shanghai && msg.to.None? && |msg.data| > 49152, MaxInitCodeSizeExceeded),
      (msg.gasPrice >= TWO256, PricePanics) ]
  }

  /** Check i applies and none before it does. */
  ghost predicate First(cs: seq<(bool, TxError)>, i: nat) {
    i < |cs| && cs[i].0 && forall j :: 0 <= j < i ==> !cs[j].0
  }

  lemma EarlyFirst(msg: Message, ctx: Context, a: Accounts, pool: nat, i: nat)
    requires Priced(msg, ctx.baseFee) && ctx.Valid() && i < 14
    ensures var cs := EarlyChecks(msg, ctx, a, pool);
            First(cs, i) ==> Refusal(msg, ctx, a, pool) == Some(cs[i].1)
  {
    BlobGasIs(msg, ctx);
    NonceAndBalance(msg, a);
    hide MostCost, RequiredBalance, Message.BlobGas, PlainBlobGas, BalanceOf, NonceOf;
    var cs := EarlyChecks(msg, ctx, a, pool);
    if First(cs, i) {
      assert i > 0 ==> !cs[0].0;
      assert i > 1 ==> !cs[1].0;
      assert i > 2 ==> !cs[2].0;
      assert i > 3 ==> !cs[3].0;
      assert i > 4 ==> !cs[4].0;
      assert i > 5 ==> !cs[5].0;
      assert i > 6 ==> !cs[6].0;
      assert i > 7 ==> !cs[7].0;
      assert i > 8 ==> !cs[8].0;
      assert i > 9 ==> !cs[9].0;
      assert i > 10 ==> !cs[10].0;
      assert i > 11 ==> !cs[11].0;
      assert i > 12 ==> !cs[12].0;
    }
  }

  /** The first check that applies decides the error, and a message is refused early for nothing else. */
  lemma TurnedAwayFirst(msg: Message, ctx: Context, a: Accounts, pool: nat, i: nat)
    requires Priced(msg, ctx.baseFee) && ctx.Valid() && i < 18
    ensures var early, late := EarlyChecks(msg, ctx, a, pool), LateChecks(msg, ctx);
            if i < 14 then First(early, i) ==> TurnedAway(msg, ctx, a, pool) == Some(early[i].1)
            else (forall k :: 0 <= k < 14 ==> !early[k].0) && First(late, i - 14)
                 ==> TurnedAway(msg, ctx, a, pool) == Some(late[i - 14].1)
  {
    if i < 14 {
      EarlyFirst(msg, ctx, a, pool, i);
    } else if forall k :: 0 <= k < 14 ==> !EarlyChecks(msg, ctx, a, pool)[k].0 {
      IntrinsicPlain(msg, ctx);
      EarlyNone(msg, ctx, a, pool);
      hide PlainPrice, PlainIntrinsic, Intrinsic, EarlyChecks, Refusal;
      var late := LateChecks(msg, ctx);
      assert late[0].0 || late[1].0 || late[2].0 || late[3].0 || TurnedAway(msg, ctx, a, pool).None?;
    }
  }

  lemma EarlyNone(msg: Message, ctx: Context, a: Accounts, pool: nat)
    requires Priced(msg, ctx.baseFee) && ctx.Valid()
    requires forall k :: 0 <= k < 14 ==> !EarlyChecks(msg, ctx, a, pool)[k].0
    ensures Refusal(msg, ctx, a, pool).None?
  {
    BlobGasIs(msg, ctx);
    NonceAndBalance(msg, a);
    hide MostCost, RequiredBalance, Message.BlobGas, PlainBlobGas, BalanceOf, NonceOf;
    var cs := EarlyChecks(msg, ctx, a, pool);
    assert !cs[0].0 && !cs[1].0 && !cs[2].0 && !cs[3].0 && !cs[4].0 && !cs[5].0 && !cs[6].0;
    assert !cs[7].0 && !cs[8].0 && !cs[9].0 && !cs[10].0 && !cs[11].0 && !cs[12].0 && !cs[13].0;
  }

  lemma NonceAndBalance(msg: Message, a: Accounts)
    ensures NonceOf(a.nonces, msg.from) == if msg.from in a.nonces then a.nonces[msg.from] else 0
    ensures BalanceOf(a.balances, msg.from) == if msg.from in a.balances then a.balances[msg.from] else 0
  {
  }

  /** A call that ran is refused when it is sent again, as long as the interpreter does not lower the sender's nonce. */
  lemma ReplayRefused(msg: Message, ctx: Context, a: Accounts, pool: nat, i: EvmInput, out: EvmOutput,
                      result: ExecutionResult, a': Accounts, ctx': Context, pool': nat)
    requires Admissible(msg, ctx, a, pool) && Given(msg, ctx, a, i) && Paid(msg, ctx, out, result, a')
    requires msg.to.Some? && msg.nonce < TWO64 && !msg.skipNonceChecks
    requires NonceOf(i.nonces, msg.from) <= NonceOf(out.nonces, msg.from)
    ensures TurnedAway(msg, ctx', a', pool') == Some(NonceTooLow)
  {
    hide MostCost, Deposit, FeesInOrder, PlainIntrinsic, PlainPrice, RequiredBalance, LateRefusal, BalanceOf;
    assert NonceOf(a'.nonces, msg.from) > msg.nonce;
  }

  class Transition {
    const gp: GasPool
    const state: StateDB
    const msg: Message
    const ctx: Context
    var gasRemaining: nat
    var initialGas: nat

    constructor (gp: GasPool, state: StateDB, msg: Message, ctx: Context)
      ensures this.gp == gp && this.state == state && this.msg == msg && this.ctx == ctx
    {
      this.gp, this.state, this.msg, this.ctx := gp, state, msg, ctx;
      gasRemaining, initialGas := 0, 0;
    }

    function GasUsed(): nat
      requires gasRemaining <= initialGas
      reads this
    {
      initialGas - gasRemaining
    }

    method BuyGas() returns (r: Result<()>)
      requires Priced(msg, ctx.baseFee)
               && (ctx.rules.cancun && msg.BlobGas() > 0 ==> ctx.blobBaseFee <= msg.blobGasFeeCap)
      requires BalanceOf(state.balances, msg.from) < TWO256
      modifies this, gp, state`balances
      ensures r == if RequiredBalance(msg, ctx) >= TWO256
              || old(BalanceOf(state.balances, msg.from)) < RequiredBalance(msg, ctx) then Err(InsufficientFunds)
                   else if old(gp.gas) < msg.gasLimit then Err(GasLimitReached) else Ok(())
      ensures r.Err? ==> gp.gas == old(gp.gas) && state.balances == old(state.balances)
      ensures r.Ok? ==> gp.gas == old(gp.gas) - msg.gasLimit && gasRemaining == initialGas == msg.gasLimit
      ensures r.Ok? ==> UpFront(msg, ctx) <= old(BalanceOf(state.balances, msg.from))
                        && state.balances
                            == old(state.balances)[msg.from := old(BalanceOf(state.balances,
                            msg.from)) - UpFront(msg, ctx)]
    {
      RequiredCovers(msg, ctx);
      hide Fee, U256, Message.BlobGas;
      var mgval := Fee(msg.gasLimit, msg.gasPrice);
      var balanceCheck := Fee(msg.gasLimit, msg.gasFeeCap);
      balanceCheck := balanceCheck + msg.value;
      if ctx.rules.cancun {
        var blobGas := msg.BlobGas();
        if blobGas > 0 {
          balanceCheck := balanceCheck + Fee(blobGas, msg.blobGasFeeCap);
          mgval := mgval + Fee(blobGas, ctx.blobBaseFee);
        } else {
          NoGas(msg.blobGasFeeCap);
          NoGas(ctx.blobBaseFee);
        }
      }
      assert mgval == UpFront(msg, ctx) && balanceCheck == RequiredBalance(msg, ctx);
      if balanceCheck >= TWO256 { return Err(InsufficientFunds); }
      if BalanceOf(state.balances, msg.from) < balanceCheck { return Err(InsufficientFunds); }
      r := gp.SubGas(msg.gasLimit);
      if r.Err? { return; }
      gasRemaining := msg.gasLimit;
      initialGas := msg.gasLimit;
      state.SubBalance(msg.from, U256(mgval));
    }

    method PreCheck() returns (r: Result<()>)
      requires Priced(msg, ctx.baseFee) && ctx.Valid() && BalanceOf(state.balances, msg.from) < TWO256
      modifies this, gp, state`balances
      ensures var refusal := Refusal(msg, ctx, old(state.Seen()), old(gp.gas));
              r == if refusal.Some? then Err(refusal.value) else Ok(())
      ensures r.Err? ==> gp.gas == old(gp.gas) && state.balances == old(state.balances)
      ensures r.Ok? ==> gp.gas == old(gp.gas) - msg.gasLimit && gasRemaining == initialGas == msg.gasLimit
      ensures r.Ok? ==> UpFront(msg, ctx) <= old(BalanceOf(state.balances, msg.from))
                        && state.balances
                            == old(state.balances)[msg.from := old(BalanceOf(state.balances,
                            msg.from)) - UpFront(msg, ctx)]
    {
      hide UpFront, RequiredBalance, Message.BlobGas;
      if !msg.skipNonceChecks {
        var stNonce := NonceOf(state.nonces, msg.from);
        if stNonce < msg.nonce {
          return Err(NonceTooHigh);
        } else if stNonce > msg.nonce {
          return Err(NonceTooLow);
        } else if stNonce == MAX_UINT64 {
          return Err(NonceMax);
        }
      }
      if !msg.skipFromEOACheck {
        if msg.from in state.contracts { return Err(SenderNoEOA); }
      }
      if ctx.rules.london {
        if msg.gasFeeCap >= TWO256 { return Err(FeeCapVeryHigh); }
        if msg.gasTipCap >= TWO256 { return Err(TipVeryHigh); }
        if msg.gasFeeCap < msg.gasTipCap { return Err(TipAboveFeeCap); }
        if msg.gasFeeCap < ctx.baseFee.value { return Err(FeeCapTooLow); }
      }
      if msg.blobHashes.Some? {
        if msg.to.None? { return Err(BlobTxCreate); }
        var hashes := msg.blobHashes.value;
        if |hashes| == 0 { return Err(MissingBlobHashes); }
        for i := 0 to |hashes|
          invariant forall k :: 0 <= k < i ==> hashes[k].version == 1
          invariant gp.gas == old(gp.gas) && state.balances == old(state.balances)
        {
          if hashes[i].version != 1 {
            assert hashes[i] in msg.blobHashes.value;
            return Err(BadBlobHash);
          }
        }
      }
      if ctx.rules.cancun {
        if msg.BlobGas() > 0 {
          if msg.blobGasFeeCap < ctx.blobBaseFee { return Err(BlobFeeCapTooLow); }
        }
      }
      r := BuyGas();
    }

    /** Apply the refund counter, capped to a share of the gas used, and return what is left of the gas. */
    method RefundGas(quotient: nat) returns (refund: nat)
      requires quotient in {REFUND_QUOTIENT, REFUND_QUOTIENT_EIP3529}
      requires gasRemaining <= initialGas == msg.gasLimit && gp.gas + initialGas <= MAX_UINT64 && msg.gasPrice < TWO256
      requires Total(state.balances) + Fee(msg.gasLimit, msg.gasPrice) < TWO256
      modifies this`gasRemaining, gp, state`balances
      ensures refund == Refunded(old(GasUsed()), quotient, state.refund)
      ensures refund * quotient <= old(GasUsed()) && refund <= state.refund
              && (refund == state.refund || (refund + 1) * quotient > old(GasUsed()))
      ensures gasRemaining == old(gasRemaining) + refund <= initialGas
      ensures gp.gas == old(gp.gas) + gasRemaining
      ensures state.balances == Credit(old(state.balances), msg.from, Fee(gasRemaining, msg.gasPrice))
    {
      RefundBound(GasUsed(), quotient, state.refund);
      hide RefundCap, U256, Total, Fee;
      refund := RefundCap(GasUsed(), quotient);
      if refund > state.refund { refund := state.refund; }
      gasRemaining := gasRemaining + refund;
      FeeMono(gasRemaining, msg.gasLimit, msg.gasPrice, msg.gasPrice);
      TotalBounds(state.balances, msg.from);
      var remaining := U256(Fee(gasRemaining, msg.gasPrice));
      state.AddBalance(msg.from, remaining);
      var panics := gp.AddGas(gasRemaining);
      assert !panics;
    }

    /** The tip per unit of gas. */
    function EffectiveTip(): int {
      if ctx.rules.london && ctx.baseFee.Some? then
        var tip := msg.gasFeeCap - ctx.baseFee.value;
        if tip > msg.gasTipCap then msg.gasTipCap else tip
      else msg.gasPrice
    }

    /** Credit the coinbase. */
    method PayTip()
      requires gasRemaining <= initialGas && 0 <= EffectiveTip()
      requires Total(state.balances) + Fee(GasUsed(), EffectiveTip()) < TWO256
      modifies state`balances
      ensures state.balances == Credit(old(state.balances), ctx.coinbase, Fee(GasUsed(), EffectiveTip()))
    {
      hide U256, Total, Fee;
      var tip := EffectiveTip();
      var used := GasUsed();
      TotalBounds(state.balances, ctx.coinbase);
      var fee := U256(Fee(used, U256(tip)));
      if used == 0 {
        NoGas(tip);
        NoGas(U256(tip));
      } else {
        FeeAtLeast(used, tip);
      }
      state.AddBalance(ctx.coinbase, fee);
    }

    /** Everything up to the execution of the message. */
    method Enter() returns (r: Result<()>)
      requires Priced(msg, ctx.baseFee) && ctx.Valid() && |msg.data| <= MAX_UINT64 && Total(state.balances) < TWO256
      modifies this, gp, state`balances
      ensures var refusal := Refusal(msg, ctx, old(state.Seen()), old(gp.gas));
              match refusal
              case Some(e) => r == Err(e) && gp.gas == old(gp.gas) && state.balances == old(state.balances)
              case None =>
                && UpFront(msg, ctx) + msg.value <= old(BalanceOf(state.balances, msg.from))
                    && msg.gasLimit <= old(gp.gas)
                && (ctx.rules.london ==> ctx.BaseFee() <= msg.gasFeeCap)
                && gp.gas == old(gp.gas) - msg.gasLimit && state.balances == Bought(msg, ctx, old(state.balances))
                && initialGas == msg.gasLimit
                && match LateRefusal(msg, ctx.rules)
                   case Some(e) => r == Err(e)
                   case None => r == Ok(()) && gasRemaining == msg.gasLimit - Intrinsic(msg, ctx.rules).gas
    {
      hide Total, Fee, Intrinsic, RequiredBalance, UpFront, Refusal;
      TotalBounds(state.balances, msg.from);
      ghost var a := state.Seen();
      var checked := PreCheck();
      if checked.Err? { return Err(checked.error); }
      RefusalCovers(msg, ctx, a, old(gp.gas));
      var contractCreation := msg.to.None?;
      var gas := IntrinsicGas.IntrinsicGas(msg.data, msg.accessList, contractCreation, ctx.rules.homestead,
          ctx.rules.istanbul, ctx.rules.shanghai);
      IntrinsicIs(msg, ctx.rules, gas);
      if gas.GasUintOverflow? { return Err(IntrinsicOverflow); }
      if gasRemaining < gas.gas { return Err(IntrinsicTooLow); }
      gasRemaining := gasRemaining - gas.gas;
      if ctx.rules.shanghai && contractCreation
          && |msg.data| > MAX_INIT_CODE_SIZE { return Err(MaxInitCodeSizeExceeded); }
      r := Ok(());
    }

    /** Everything after the execution of the message. */
    method Settle(out: EvmOutput) returns (result: ExecutionResult)
      requires Priced(msg, ctx.baseFee) && ctx.Valid() && (ctx.rules.london ==> ctx.BaseFee() <= msg.gasFeeCap)
      requires out.gas <= initialGas == msg.gasLimit && gp.gas + initialGas <= MAX_UINT64 && msg.gasPrice < TWO256
      requires Total(out.balances) + Fee(msg.gasLimit, msg.gasPrice) < TWO256
      modifies this, gp, state
      ensures result.usedGas <= msg.gasLimit && ctx.BaseFee() <= msg.gasPrice
              && gp.gas == old(gp.gas) + msg.gasLimit - result.usedGas
      ensures Total(state.balances) + Fee(result.usedGas, ctx.BaseFee())
              == Total(out.balances) + Fee(msg.gasLimit, msg.gasPrice)
      ensures result
              == ExecutionResult(UsedGas(msg, ctx.rules, out),
              Refunded(msg.gasLimit - out.gas, Quotient(ctx.rules), out.refund), out.failed)
      ensures state.Seen() == AccountsAfter(msg, ctx, out)
    {
      hide Total, U256, Fee, Refunded;
      state.balances, state.nonces, state.contracts, state.refund, gasRemaining := out.balances, out.nonces,
          out.contracts, out.refund, out.gas;
      var refund := RefundGas(Quotient(ctx.rules));
      TotalUpdate(out.balances, msg.from, BalanceOf(out.balances, msg.from) + Fee(gasRemaining, msg.gasPrice));
      TipIs(msg, ctx, EffectiveTip());
      Conservation(msg.gasLimit, GasUsed(), msg.gasPrice, EffectiveTip(), ctx.BaseFee());
      ghost var b3 := state.balances;
      PayTip();
      TotalUpdate(b3, ctx.coinbase, BalanceOf(b3, ctx.coinbase) + Fee(GasUsed(), EffectiveTip()));
      result := ExecutionResult(GasUsed(), refund, out.failed);
    }

    method TransitionDb(evm: EvmInput -> EvmOutput) returns (r: Result<ExecutionResult>)
      requires Priced(msg, ctx.baseFee) && ctx.Valid() && |msg.data| <= MAX_UINT64 && gp.gas <= MAX_UINT64
      requires Total(state.balances) < TWO256 && Lawful(evm)
      modifies this, gp, state
      ensures TurnedAway(msg, ctx, old(state.Seen()), old(gp.gas)) == if r.Err? then Some(r.error) else None
      // turned away before anything was charged
      ensures Refusal(msg, ctx, old(state.Seen()), old(gp.gas)).Some?
              ==> gp.gas == old(gp.gas) && state.Seen() == old(state.Seen())
      // turned away after the gas was bought
      ensures Refusal(msg, ctx, old(state.Seen()), old(gp.gas)).None?
              ==> UpFront(msg, ctx) + msg.value <= old(BalanceOf(state.balances, msg.from))
      ensures Refusal(msg, ctx, old(state.Seen()), old(gp.gas)).None? && LateRefusal(msg, ctx.rules).Some?
              ==> gp.gas == old(gp.gas) - msg.gasLimit
                  && state.Seen() == old(state.Seen()).(balances := Bought(msg, ctx, old(state.balances)))
      // executed, in plain arithmetic
      ensures r.Ok? <==> Admissible(msg, ctx, old(state.Seen()), old(gp.gas))
      ensures r.Ok? ==>
                && LateRefusal(msg, ctx.rules).None?
                && var i := EvmStart(msg, ctx, old(state.Seen()));
                && Given(msg, ctx, old(state.Seen()), i) && Charged(msg, ctx, evm(i), r.value)
                && Paid(msg, ctx, evm(i), r.value, state.Seen())
      ensures r.Ok? ==>
                && LateRefusal(msg, ctx.rules).None?
                && var out := evm(EvmStart(msg, ctx, old(state.Seen())));
                && Executed(msg, ctx, out, r.value, state.Seen())
                && gp.gas == old(gp.gas) - r.value.usedGas
                && Intrinsic(msg, ctx.rules).gas <= r.value.usedGas + r.value.refundedGas
                && Total(state.balances) + Fee(r.value.usedGas, ctx.BaseFee()) + BlobFee(msg, ctx) + out.burned
                    == old(Total(state.balances))
    {
      hide Total, Fee, Refunded, Intrinsic, RequiredBalance, UpFront, BlobFee, Refusal, Credit, Admissible, Given,
        Charged, Paid, AccountsAfter;
      ghost var a := state.Seen();
      TurnedAwayExactly(msg, ctx, a, gp.gas);
      var entered := Enter();
      if entered.Err? { return Err(entered.error); }
      TotalUpdate(a.balances, msg.from, BalanceOf(a.balances, msg.from) - UpFront(msg, ctx));
      UpFrontTotal(msg, ctx);
      // the transfer check of the topmost call cannot fail any more
      assert msg.value <= BalanceOf(state.balances, msg.from);
      if msg.to.Some? { state.nonces := state.nonces[msg.from := Wrap64(NonceOf(state.nonces, msg.from) + 1)]; }
      var start := EvmInput(msg, state.balances, state.nonces, state.contracts, gasRemaining);
      assert start == EvmStart(msg, ctx, a);
      var out := evm(start);
      assert Legal(start, out);
      if msg.gasPrice >= TWO256 { return Err(PricePanics); }
      var result := Settle(out);
      GivenIs(msg, ctx, a, old(gp.gas));
      PaidIs(msg, ctx, out, result, state.Seen());
      r := Ok(result);
    }
  }

  lemma IntrinsicIs(msg: Message, rules: Rules, gas: GasResult)
    requires gas.GasUintOverflow?
             <==> DataPrice(msg.data, msg.to.None?, rules.homestead, rules.istanbul, rules.shanghai) > MAX_UINT64
    requires gas.Gas?
             ==> gas.gas == Wrap64(DataPrice(msg.data, msg.to.None?, rules.homestead, rules.istanbul, rules.shanghai)
             + ListPrice(msg.accessList))
    ensures gas == Intrinsic(msg, rules)
  {
  }

  lemma UpFrontTotal(msg: Message, ctx: Context)
    ensures UpFront(msg, ctx) == Fee(msg.gasLimit, msg.gasPrice) + BlobFee(msg, ctx)
  {
  }

  /** A message that is not refused can pay for its gas and its value, and its fee cap covers the base fee. */
  lemma RefusalCovers(msg: Message, ctx: Context, a: Accounts, pool: nat)
    requires Priced(msg, ctx.baseFee) && ctx.Valid() && Refusal(msg, ctx, a, pool).None?
    ensures UpFront(msg, ctx) + msg.value <= BalanceOf(a.balances, msg.from) && msg.gasLimit <= pool
    ensures ctx.rules.london ==> ctx.BaseFee() <= msg.gasFeeCap
  {
    hide UpFront, RequiredBalance, Message.BlobGas;
    RequiredCovers(msg, ctx);
  }

  /** The tip is what the effective price leaves above the base fee. */
  lemma TipIs(msg: Message, ctx: Context, tip: int)
    requires Priced(msg, ctx.baseFee) && ctx.Valid() && (ctx.rules.london ==> ctx.BaseFee() <= msg.gasFeeCap)
    requires tip == if ctx.rules.london && ctx.baseFee.Some? then
                      (if msg.gasFeeCap - ctx.baseFee.value > msg.gasTipCap then msg.gasTipCap
                          else msg.gasFeeCap - ctx.baseFee.value)
                    else msg.gasPrice
    ensures 0 <= tip && msg.gasPrice == tip + ctx.BaseFee()
  {
  }
}
