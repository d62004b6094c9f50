/** Running the transactions of a block one after the other against one gas pool. */
module StateProcessor {
  import opened Common
  import opened IntrinsicGas
  import opened StateTransition

  datatype Receipt = Receipt(cumulativeGasUsed: nat, gasUsed: nat, failed: bool)

  datatype BlockError = BadSender | BadTx(error: TxError)

  datatype BlockResult = Receipts(receipts: seq<Receipt>) | Failed(index: nat, error: BlockError)

  function SumGas(receipts: seq<Receipt>): nat {
    if receipts == [] then 0 else SumGas(receipts[..|receipts| - 1]) + receipts[|receipts| - 1].gasUsed
  }

  /** Every receipt carries the gas used by the block up to and including its transaction. */
  ghost predicate Cumulative(receipts: seq<Receipt>) {
    forall k: nat :: k < |receipts| ==> receipts[k].cumulativeGasUsed == SumGas(receipts[..k + 1])
  }

  function BlobFees(txs: seq<Transaction>, ctx: Context): nat {
    if txs == [] then 0
    else
      BlobFees(txs[..|txs| - 1], ctx) + BlobFee(TransactionToMessage(txs[|txs| - 1], 0, ctx.baseFee), ctx)
  }

  lemma FeeAdd(a: nat, b: nat, price: nat)
    ensures Fee(a + b, price) == Fee(a, price) + Fee(b, price)
  {
  }

  /** Appending adds to the sum. */
  lemma SumStep(receipts: seq<Receipt>, r: Receipt)
    ensures SumGas(receipts + [r]) == SumGas(receipts) + r.gasUsed
  {
    assert (receipts + [r])[..|receipts|] == receipts;
  }

  lemma {:induction false} CumulativeStep(receipts: seq<Receipt>, r: Receipt)
    requires Cumulative(receipts) && r.cumulativeGasUsed == SumGas(receipts) + r.gasUsed
    ensures Cumulative(receipts + [r]) && SumGas(receipts + [r]) == SumGas(receipts) + r.gasUsed
  {
    hide SumGas;
    SumStep(receipts, r);
    var rs := receipts + [r];
    forall k: nat | k < |rs| ensures rs[k].cumulativeGasUsed == SumGas(rs[..k + 1]) {
      if k < |receipts| { assert rs[..k + 1] == receipts[..k + 1]; } else { assert rs[..k + 1] == rs; }
    }
  }

  /** A transaction that is not turned away by the accounts and the pool it finds, and what it leaves. */
  ghost predicate Ran(tx: Transaction, from: Address, ctx: Context, a: Accounts, pool: nat, evm: EvmInput -> EvmOutput,
                      result: ExecutionResult, a': Accounts)
  {
    var msg := TransactionToMessage(tx, from, ctx.baseFee);
    && TurnedAway(msg, ctx, a, pool).None? && UpFront(msg, ctx) <= BalanceOf(a.balances, msg.from)
    && Executed(msg, ctx, evm(EvmStart(msg, ctx, a)), result, a')
    && Admissible(msg, ctx, a, pool) && Given(msg, ctx, a, EvmStart(msg, ctx, a))
    && Charged(msg, ctx, evm(EvmStart(msg, ctx, a)), result) && Paid(msg, ctx, evm(EvmStart(msg, ctx, a)), result, a')
  }

  ghost predicate BurnsNothing(evm: EvmInput -> EvmOutput) { forall i :: evm(i).burned == 0 }

  /** One transaction: it fails exactly when its message is turned away. Otherwise the accounts become those it leaves,
      and the pool and the sum of all balances fall by what it used, paid and burned. */
  method ApplyTransaction(tx: Transaction, from: Address, ctx: Context, gp: GasPool, state: StateDB,
                          evm: EvmInput -> EvmOutput)
    returns (r: Result<ExecutionResult>, ghost burned: nat)
    requires ctx.Valid() && gp.gas <= MAX_UINT64 && Total(state.balances) < TWO256 && |tx.data| <= MAX_UINT64
    requires Lawful(evm)
    modifies gp, state
    ensures TurnedAway(TransactionToMessage(tx, from, ctx.baseFee), ctx, old(state.Seen()), old(gp.gas))
         == if r.Err? then Some(r.error) else None
    ensures r.Ok? ==> Ran(tx, from, ctx, old(state.Seen()), old(gp.gas), evm, r.value, state.Seen())
    ensures r.Ok? ==> gp.gas + r.value.usedGas == old(gp.gas)
    ensures r.Ok? ==> Total(state.balances) + Fee(r.value.usedGas, ctx.BaseFee())
                      + BlobFee(TransactionToMessage(tx, from, ctx.baseFee), ctx) + burned == old(Total(state.balances))
    ensures BurnsNothing(evm) ==> burned == 0
  {
    hide Total, Fee, Refusal, LateRefusal, BlobFee, Intrinsic, Executed, Admissible, Given, Charged, Paid;
    var msg := TransactionToMessage(tx, from, ctx.baseFee);
    ghost var a := state.Seen();
    var st := new Transition(gp, state, msg, ctx);
    r := st.TransitionDb(evm);
    burned := if r.Ok? then evm(EvmStart(msg, ctx, a)).burned else 0;
  }

  /** The pool a transaction found, read off its receipt. */
  function PoolBefore(gasLimit: nat, r: Receipt): int {
    gasLimit - (r.cumulativeGasUsed - r.gasUsed)
  }

  /** The first n transactions ran one after the other, each on the accounts the one before left. */
  ghost predicate AllRan(txs: seq<Transaction>, senders: seq<Option<Address>>, ctx: Context, gasLimit: nat,
                         evm: nat -> EvmInput -> EvmOutput, receipts: seq<Receipt>, results: seq<ExecutionResult>,
                         found: seq<Accounts>)
    requires |senders| == |txs|
  {
    && |results| == |receipts| <= |txs| && |found| == |receipts| + 1
    && forall k: nat :: k < |receipts|
        ==> RanAt(txs[k], senders[k], ctx, gasLimit, evm(k), receipts[k], results[k], found[k], found[k + 1])
  }

  /** A transaction that ran has its gas and its outcome on its receipt. */
  ghost predicate RanAt(tx: Transaction, from: Option<Address>, ctx: Context, gasLimit: nat,
                        evm: EvmInput -> EvmOutput, r: Receipt, result: ExecutionResult, a: Accounts, a': Accounts)
  {
    && from.Some? && PoolBefore(gasLimit, r) >= 0 && r.gasUsed == result.usedGas && r.failed == result.failed
    && Ran(tx, from.value, ctx, a, PoolBefore(gasLimit, r), evm, result, a')
  }

  lemma AllRanStep(txs: seq<Transaction>, senders: seq<Option<Address>>, ctx: Context, gasLimit: nat,
                   evm: nat -> EvmInput -> EvmOutput, receipts: seq<Receipt>, results: seq<ExecutionResult>,
                   found: seq<Accounts>, result: ExecutionResult, r: Receipt, a': Accounts)
    requires |senders| == |txs| && AllRan(txs, senders, ctx, gasLimit, evm, receipts, results, found)
             && |receipts| < |txs|
    requires var k := |receipts|;
             RanAt(txs[k], senders[k], ctx, gasLimit, evm(k), r, result, found[k], a')
    ensures AllRan(txs, senders, ctx, gasLimit, evm, receipts + [r], results + [result], found + [a'])
  {
    hide RanAt;
    var k := |receipts|;
    var rs, es, fs := receipts + [r], results + [result], found + [a'];
    forall i: nat | i < |rs|
      ensures RanAt(txs[i], senders[i], ctx, gasLimit, evm(i), rs[i], es[i], fs[i], fs[i + 1])
    {
      if i < k {
        assert RanAt(txs[i], senders[i], ctx, gasLimit, evm(i), receipts[i], results[i], found[i], found[i + 1]);
      }
    }
  }

  /** The books of a block after the transactions with these receipts: prefix sums of gas, and the sum of all balances
      fell by the base fees, the blob fees and what the interpreter burned. */
  ghost predicate Books(txs: seq<Transaction>, ctx: Context, receipts: seq<Receipt>, found: seq<Accounts>,
                        usedGas: nat, burned: nat) {
    && |receipts| <= |txs| && |found| == |receipts| + 1
    && Cumulative(receipts) && usedGas == SumGas(receipts)
    && Total(found[|receipts|].balances) + Fee(usedGas, ctx.BaseFee()) + BlobFees(txs[..|receipts|], ctx) + burned
       == Total(found[0].balances)
  }

  lemma BooksStep(txs: seq<Transaction>, from: Address, ctx: Context, receipts: seq<Receipt>, found: seq<Accounts>,
                  usedGas: nat,
                  burned: nat, r: Receipt, a': Accounts, lost: nat)
    requires Books(txs, ctx, receipts, found, usedGas, burned) && |receipts| < |txs|
             && r.cumulativeGasUsed == usedGas + r.gasUsed
    requires Total(a'.balances) + Fee(r.gasUsed, ctx.BaseFee())
             + BlobFee(TransactionToMessage(txs[|receipts|], from, ctx.baseFee), ctx) + lost
                 == Total(found[|receipts|].balances)
    ensures Books(txs, ctx, receipts + [r], found + [a'], usedGas + r.gasUsed, burned + lost)
  {
    hide Total, Fee, SumGas, Cumulative, BlobFee, BlobFees;
    CumulativeStep(receipts, r);
    FeeAdd(usedGas, r.gasUsed, ctx.BaseFee());
    BlobStep(txs, from, ctx, |receipts|);
  }

  /** What is known of a block so far: a receipt and a result for every transaction that ran, the accounts each one
      found and the last one left, and what the interpreter burned. */
  datatype Ledger = Ledger(receipts: seq<Receipt>, results: seq<ExecutionResult>, found: seq<Accounts>, burned: nat)

  ghost predicate Standing(txs: seq<Transaction>, senders: seq<Option<Address>>, ctx: Context, gasLimit: nat,
                           evm: nat -> EvmInput -> EvmOutput, l: Ledger, usedGas: nat)
    requires |senders| == |txs|
  {
    && |l.receipts| <= |txs| && |l.found| == |l.receipts| + 1
    && AllRan(txs, senders, ctx, gasLimit, evm, l.receipts, l.results, l.found)
    && Books(txs, ctx, l.receipts, l.found, usedGas, l.burned)
  }

  /** One more transaction ran. */
  ghost predicate Entered(l: Ledger, l': Ledger, receipt: Receipt, a': Accounts) {
    l'.receipts == l.receipts + [receipt] && l'.found == l.found + [a']
  }

  /** One turn of the transaction loop. */
  method ProcessOne(txs: seq<Transaction>, senders: seq<Option<Address>>, ctx: Context, gasLimit: nat, gp: GasPool,
                    state: StateDB, evm: nat -> EvmInput -> EvmOutput, usedGas: nat, k: nat, ghost l: Ledger)
    returns (r: Result<Receipt>, ghost l': Ledger)
    requires |senders| == |txs| && ctx.Valid() && gasLimit <= MAX_UINT64 && gp.gas + usedGas == gasLimit
    requires Standing(txs, senders, ctx, gasLimit, evm, l, usedGas) && Total(l.found[0].balances) < TWO256
    requires k == |l.receipts| < |txs| && senders[k].Some? && state.Seen() == l.found[k]
    requires |txs[k].data| <= MAX_UINT64 && Lawful(evm(k))
    modifies gp, state
    ensures r.Ok? ==> gp.gas + r.value.cumulativeGasUsed == gasLimit && Entered(l, l', r.value, state.Seen())
                      && Standing(txs, senders, ctx, gasLimit, evm, l', r.value.cumulativeGasUsed)
    ensures r.Ok? && BurnsNothing(evm(k)) ==> l'.burned == l.burned
    ensures r.Err? ==> TurnedAway(TransactionToMessage(txs[k], senders[k].value, ctx.baseFee), ctx, l.found[k],
                       gasLimit - usedGas)
                       == Some(r.error)
  {
    hide Lawful, BurnsNothing, Total, Fee, BlobFee, TurnedAway, AllRan, Ran, Books, TransactionToMessage;
    l' := l;
    BooksTotal(txs, ctx, l.receipts, l.found, usedGas, l.burned);
    var result; ghost var lost;
    result, lost := ApplyTransaction(txs[k], senders[k].value, ctx, gp, state, evm(k));
    if result.Err? { return Err(result.error), l; }
    var e := result.value;
    var receipt := Receipt(usedGas + e.usedGas, e.usedGas, e.failed);
    BooksStep(txs, senders[k].value, ctx, l.receipts, l.found, usedGas, l.burned, receipt, state.Seen(), lost);
    AllRanStep(txs, senders, ctx, gasLimit, evm, l.receipts, l.results, l.found, e, receipt, state.Seen());
    l' := Ledger(l.receipts + [receipt], l.results + [e], l.found + [state.Seen()], l.burned + lost);
    r := Ok(receipt);
  }

  /** The transaction loop of `Process`. A sender that cannot be recovered is None, and evm(k) is the interpreter as
      transaction k meets it. Transactions run one after the other on the accounts the one before left. The block
      succeeds exactly when no sender is unknown and no message is turned away, and fails at the first that is. */
  method Process(txs: seq<Transaction>, senders: seq<Option<Address>>, ctx: Context, gasLimit: nat, state: StateDB,
                 evm: nat -> EvmInput -> EvmOutput)
    returns (r: BlockResult, usedGas: nat, gp: GasPool, ghost l: Ledger)
    requires |senders| == |txs| && ctx.Valid() && gasLimit <= MAX_UINT64 && Total(state.balances) < TWO256
    requires (forall k :: 0 <= k < |txs| ==> |txs[k].data| <= MAX_UINT64) && forall k: nat :: Lawful(evm(k))
    modifies state
    ensures |l.receipts| <= |txs| && |l.found| == |l.receipts| + 1 && l.found[0] == old(state.Seen())
    ensures AllRan(txs, senders, ctx, gasLimit, evm, l.receipts, l.results, l.found)
    ensures Books(txs, ctx, l.receipts, l.found, usedGas, l.burned) && usedGas <= gasLimit
    ensures (forall k: nat :: BurnsNothing(evm(k))) ==> l.burned == 0
    // every transaction ran
    ensures r.Receipts? ==> r.receipts == l.receipts && |l.receipts| == |txs|
    ensures r.Receipts? ==> gp.gas + usedGas == gasLimit && state.Seen() == l.found[|txs|]
    // the first that could not
    ensures r.Failed? ==> r.index == |l.receipts| < |txs| && (r.error.BadSender? <==> senders[r.index].None?)
    ensures r.Failed? && r.error.BadTx?
            ==> TurnedAway(TransactionToMessage(txs[r.index], senders[r.index].value, ctx.baseFee), ctx,
                l.found[r.index], gasLimit - usedGas)
                == Some(r.error.error)
  {
    hide Lawful, BurnsNothing, Total, Fee, BlobFee, TurnedAway, AllRan, Ran, Books, TransactionToMessage;
    usedGas, l := 0, Ledger([], [], [state.Seen()], 0);
    gp := new GasPool(gasLimit);
    Start(txs, senders, ctx, gasLimit, evm, l.found);
    var receipts: seq<Receipt> := [];
    for i := 0 to |txs|
      invariant fresh(gp) && gp.gas + usedGas == gasLimit && receipts == l.receipts && |receipts| == i
      invariant Standing(txs, senders, ctx, gasLimit, evm, l, usedGas)
      invariant l.found[0] == old(state.Seen()) && l.found[i] == state.Seen()
      invariant (forall k: nat :: BurnsNothing(evm(k))) ==> l.burned == 0
    {
      if senders[i].None? { return Failed(i, BadSender), usedGas, gp, l; }
      var one; ghost var l';
      one, l' := ProcessOne(txs, senders, ctx, gasLimit, gp, state, evm, usedGas, i, l);
      if one.Err? { return Failed(i, BadTx(one.error)), usedGas, gp, l; }
      usedGas, receipts, l := one.value.cumulativeGasUsed, receipts + [one.value], l';
    }
    r := Receipts(receipts);
  }

  lemma BooksTotal(txs: seq<Transaction>, ctx: Context, receipts: seq<Receipt>, found: seq<Accounts>, usedGas: nat,
                   burned: nat)
    requires Books(txs, ctx, receipts, found, usedGas, burned)
    ensures Total(found[|receipts|].balances) <= Total(found[0].balances)
  {
    hide Total, Fee, SumGas, Cumulative, BlobFees;
  }

  lemma Start(txs: seq<Transaction>, senders: seq<Option<Address>>, ctx: Context, gasLimit: nat,
              evm: nat -> EvmInput -> EvmOutput,
              found: seq<Accounts>)
    requires |senders| == |txs| && |found| == 1
    ensures AllRan(txs, senders, ctx, gasLimit, evm, [], [], found) && Books(txs, ctx, [], found, 0, 0)
  {
    hide Total;
  }

  lemma BlobStep(txs: seq<Transaction>, from: Address, ctx: Context, i: nat)
    requires i < |txs|
    ensures BlobFees(txs[..i + 1], ctx)
            == BlobFees(txs[..i], ctx) + BlobFee(TransactionToMessage(txs[i], from, ctx.baseFee), ctx)
  {
    assert txs[..i + 1][..i] == txs[..i];
  }
}
