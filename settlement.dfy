/** The Soroban settlement contract (contracts/settlement/src/lib.rs and
    contracts/settlement/src/storage.rs): a vault of i128 balances per
    (user, asset), deposit and withdraw, trade settlement with fees routed
    to the admin, settlement records by trade id and a per-user trade
    history.
    A panic aborts the invocation and the host discards every storage write
    it made. Authorisation, token transfers, logging and events are host
    effects and are not part of this model. */
module Settlement {
  import opened Wrappers
  import opened Numbers

  type Address = string
  type TradeId = seq<byte>

  /** How an entry point ends: it returns a value or it panics. */
  datatype Outcome<+T> = Returned(value: T) | Panicked(reason: string) {
    predicate IsFailure() { Panicked? }
    function PropagateFailure<U>(): Outcome<U>
      requires Panicked?
    {
      Panicked(reason)
    }
    function Extract(): T
      requires Returned?
    {
      value
    }
  }

  datatype SettlementResult =
    | Settled   // SettlementResult::Success
    | InvalidSignature
    | InvalidMatchingProof
    | InsufficientBalance
    | TransferFailed

  datatype Instruction = Instruction(
    tradeId: TradeId,
    buyUser: Address,
    sellUser: Address,
    baseAsset: Address,
    quoteAsset: Address,
    baseAmount: int,
    quoteAmount: int,
    feeBase: int,
    feeQuote: int,
    timestamp: int)

  datatype Record = Record(
    tradeId: TradeId,
    buyUser: Address,
    sellUser: Address,
    baseAsset: Address,
    quoteAsset: Address,
    baseAmount: int,
    quoteAmount: int,
    executionPrice: int,
    executionQuantity: int,
    timestamp: int)

  predicate IsI128(x: int) {
    I128Min <= x <= I128Max
  }

  /** i128 `+` and `-` with overflow checks: a result out of range panics. */
  function CheckedAdd(a: int, b: int): Outcome<int> {
    if IsI128(a + b) then Returned(a + b) else Panicked("attempt to add with overflow")
  }

  function CheckedSub(a: int, b: int): Outcome<int> {
    if IsI128(a - b) then Returned(a - b) else Panicked("attempt to subtract with overflow")
  }

  /** check_positive_amount: zero and negative amounts panic. */
  function CheckPositive(amount: int): (r: Outcome<()>)
    ensures r.Returned? <==> amount > 0
  {
    if amount <= 0 then Panicked("Amount must be positive: " + IntText(amount)) else Returned(())
  }

  // ---------------------------------------------------------------------
  // Vault balances
  // ---------------------------------------------------------------------

  /** DataKey::Balance(user, asset) entries. */
  type Balances = map<(Address, Address), int>

  /** get_balance: an entry never written reads as 0. */
  function Balance(b: Balances, user: Address, asset: Address): int {
    if (user, asset) in b then b[(user, asset)] else 0
  }

  /** add_balance: the balance plus the amount, written back. */
  function AddedBalance(b: Balances, user: Address, asset: Address, amount: int): Outcome<Balances> {
    var sum :- CheckedAdd(Balance(b, user, asset), amount);
    Returned(b[(user, asset) := sum])
  }

  /** subtract_balance: panics when the balance is below the amount,
      otherwise writes back the difference. */
  function SubtractedBalance(b: Balances, user: Address, asset: Address, amount: int): Outcome<Balances> {
    var current := Balance(b, user, asset);
    if current < amount then Panicked("Insufficient balance")
    else
      var diff :- CheckedSub(current, amount);
      Returned(b[(user, asset) := diff])
  }

  /** Every stored balance fits an i128. */
  predicate AllI128(b: Balances) {
    forall k | k in b :: IsI128(b[k])
  }

  predicate NonNegative(b: Balances) {
    forall k | k in b :: b[k] >= 0
  }

  /** Writing one entry changes that entry's reading and no other. */
  lemma WriteBalance(b: Balances, user: Address, asset: Address, v: int)
    ensures forall u, a :: Balance(b[(user, asset) := v], u, a) ==
                           if (u, a) == (user, asset) then v else Balance(b, u, a)
  {
  }

  /** add_balance panics exactly on overflow, and otherwise raises the one
      balance by the amount. */
  lemma AddedBalanceEffect(b: Balances, user: Address, asset: Address, amount: int)
    ensures AddedBalance(b, user, asset, amount).Panicked? <==> !IsI128(Balance(b, user, asset) + amount)
    ensures AddedBalance(b, user, asset, amount).Returned? ==>
              forall u, a :: Balance(AddedBalance(b, user, asset, amount).value, u, a) ==
                             if (u, a) == (user, asset) then Balance(b, u, a) + amount else Balance(b, u, a)
  {
    if IsI128(Balance(b, user, asset) + amount) {
      WriteBalance(b, user, asset, Balance(b, user, asset) + amount);
    }
  }

  /** subtract_balance panics when the balance is short (or on overflow),
      and otherwise lowers the one balance by the amount, never below zero. */
  lemma SubtractedBalanceEffect(b: Balances, user: Address, asset: Address, amount: int)
    ensures SubtractedBalance(b, user, asset, amount).Panicked? <==>
              Balance(b, user, asset) < amount || !IsI128(Balance(b, user, asset) - amount)
    ensures SubtractedBalance(b, user, asset, amount).Returned? ==>
              Balance(SubtractedBalance(b, user, asset, amount).value, user, asset) >= 0
    ensures SubtractedBalance(b, user, asset, amount).Returned? ==>
              forall u, a :: Balance(SubtractedBalance(b, user, asset, amount).value, u, a) ==
                             if (u, a) == (user, asset) then Balance(b, u, a) - amount else Balance(b, u, a)
  {
    if Balance(b, user, asset) >= amount && IsI128(Balance(b, user, asset) - amount) {
      WriteBalance(b, user, asset, Balance(b, user, asset) - amount);
    }
  }

  /** Both updates keep every balance inside the i128 range. */
  lemma UpdatesStayI128(b: Balances, user: Address, asset: Address, amount: int)
    requires AllI128(b)
    ensures AddedBalance(b, user, asset, amount).Returned? ==> AllI128(AddedBalance(b, user, asset, amount).value)
    ensures SubtractedBalance(b, user, asset, amount).Returned? ==>
              AllI128(SubtractedBalance(b, user, asset, amount).value)
  {
  }

  /** Adding a non-negative amount or subtracting keeps every balance
      non-negative. */
  lemma UpdatesStayNonNegative(b: Balances, user: Address, asset: Address, amount: int)
    requires NonNegative(b)
    ensures amount >= 0 && AddedBalance(b, user, asset, amount).Returned? ==>
              NonNegative(AddedBalance(b, user, asset, amount).value)
    ensures SubtractedBalance(b, user, asset, amount).Returned? ==>
              NonNegative(SubtractedBalance(b, user, asset, amount).value)
  {
  }

  // ---------------------------------------------------------------------
  // Entry points as functions of the stored state
  // ---------------------------------------------------------------------

  predicate Supported(assetA: Address, assetB: Address, token: Address) {
    token == assetA || token == assetB
  }

  /** deposit: a positive amount of a supported asset is added to the
      user's balance (the token transfer into the contract is a host call). */
  function DepositOutcome(assetA: Address, assetB: Address, b: Balances, user: Address, token: Address,
                          amount: int): Outcome<Balances>
  {
    var positive :- CheckPositive(amount);
    if !Supported(assetA, assetB, token) then Panicked("Unsupported asset")
    else AddedBalance(b, user, token, amount)
  }

  /** withdraw: a positive amount no larger than the balance is subtracted;
      any asset may be withdrawn. */
  function WithdrawOutcome(b: Balances, user: Address, token: Address, amount: int): Outcome<Balances> {
    var positive :- CheckPositive(amount);
    if Balance(b, user, token) < amount then Panicked("Insufficient balance")
    else SubtractedBalance(b, user, token, amount)
  }

  lemma DepositEffect(assetA: Address, assetB: Address, b: Balances, user: Address, token: Address, amount: int)
    ensures DepositOutcome(assetA, assetB, b, user, token, amount).Panicked? <==>
              amount <= 0 || !Supported(assetA, assetB, token) || !IsI128(Balance(b, user, token) + amount)
    ensures DepositOutcome(assetA, assetB, b, user, token, amount).Returned? ==>
              forall u, a :: Balance(DepositOutcome(assetA, assetB, b, user, token, amount).value, u, a) ==
                             if (u, a) == (user, token) then Balance(b, u, a) + amount else Balance(b, u, a)
  {
    AddedBalanceEffect(b, user, token, amount);
  }

  lemma WithdrawEffect(b: Balances, user: Address, token: Address, amount: int)
    requires IsI128(Balance(b, user, token)) && IsI128(amount)
    ensures WithdrawOutcome(b, user, token, amount).Panicked? <==> amount <= 0 || Balance(b, user, token) < amount
    ensures WithdrawOutcome(b, user, token, amount).Returned? ==>
              forall u, a :: Balance(WithdrawOutcome(b, user, token, amount).value, u, a) ==
                             if (u, a) == (user, token) then Balance(b, u, a) - amount else Balance(b, u, a)
  {
    SubtractedBalanceEffect(b, user, token, amount);
  }

  /** The vault moves of a settlement in the contract's order: the buyer
      pays quote and fee, receives base; the seller pays base and fee,
      receives quote; each strictly positive fee goes to the admin. */
  function Transfers(b: Balances, ins: Instruction, admin: Address, requiredQuote: int,
                     requiredBase: int): Outcome<Balances>
  {
    var b1 :- SubtractedBalance(b, ins.buyUser, ins.quoteAsset, requiredQuote);
    var b2 :- AddedBalance(b1, ins.buyUser, ins.baseAsset, ins.baseAmount);
    var b3 :- SubtractedBalance(b2, ins.sellUser, ins.baseAsset, requiredBase);
    var b4 :- AddedBalance(b3, ins.sellUser, ins.quoteAsset, ins.quoteAmount);
    var b5 :- FeeCredit(b4, admin, ins.baseAsset, ins.feeBase);
    FeeCredit(b5, admin, ins.quoteAsset, ins.feeQuote)
  }

  /** A fee is credited only when strictly positive. */
  function FeeCredit(b: Balances, admin: Address, asset: Address, fee: int): Outcome<Balances> {
    if fee > 0 then AddedBalance(b, admin, asset, fee) else Returned(b)
  }

  /** settle_trade on the vault: unsupported assets are rejected, a missing
      matching engine panics, short balances are rejected, and otherwise
      the transfers run. A result other than Settled leaves the vault as it
      was. */
  function SettleOutcome(assetA: Address, assetB: Address, engine: Option<Address>, admin: Address,
                         b: Balances, ins: Instruction): Outcome<(SettlementResult, Balances)>
  {
    if !Supported(assetA, assetB, ins.baseAsset) || !Supported(assetA, assetB, ins.quoteAsset) then
      Returned((InvalidMatchingProof, b))
    else if engine.None? then
      Panicked("Matching engine not set")
    else
      var requiredQuote :- CheckedAdd(ins.quoteAmount, ins.feeQuote);
      var requiredBase :- CheckedAdd(ins.baseAmount, ins.feeBase);
      if Balance(b, ins.buyUser, ins.quoteAsset) < requiredQuote then Returned((InsufficientBalance, b))
      else if Balance(b, ins.sellUser, ins.baseAsset) < requiredBase then Returned((InsufficientBalance, b))
      else
        var after :- Transfers(b, ins, admin, requiredQuote, requiredBase);
        Returned((Settled, after))
  }

  /** How a settle_trade that returned Settled got there: both assets are
      supported, an engine is set, both balances cover amount plus fee and
      the vault is what the transfers made of it. */
  lemma SettledByTransfers(assetA: Address, assetB: Address, engine: Option<Address>, admin: Address,
                           b: Balances, ins: Instruction, after: Balances)
    requires SettleOutcome(assetA, assetB, engine, admin, b, ins) == Returned((Settled, after))
    ensures Supported(assetA, assetB, ins.baseAsset) && Supported(assetA, assetB, ins.quoteAsset) && engine.Some?
    ensures IsI128(ins.quoteAmount + ins.feeQuote) && IsI128(ins.baseAmount + ins.feeBase)
    ensures Balance(b, ins.buyUser, ins.quoteAsset) >= ins.quoteAmount + ins.feeQuote
    ensures Balance(b, ins.sellUser, ins.baseAsset) >= ins.baseAmount + ins.feeBase
    ensures Transfers(b, ins, admin, ins.quoteAmount + ins.feeQuote, ins.baseAmount + ins.feeBase) == Returned(after)
  {
  }

  /** Every result other than Settled leaves the vault as it was. */
  lemma UnsettledKeepsVault(assetA: Address, assetB: Address, engine: Option<Address>, admin: Address,
                            b: Balances, ins: Instruction, r: SettlementResult, after: Balances)
    requires SettleOutcome(assetA, assetB, engine, admin, b, ins) == Returned((r, after))
    requires r != Settled
    ensures after == b
    ensures r == InvalidMatchingProof || r == InsufficientBalance
  {
  }

  /** The rejections of settle_trade: unsupported assets give
      InvalidMatchingProof, and with both assets supported and an engine
      set, a buyer short of quote plus fee or a seller short of base plus
      fee gives InsufficientBalance; a missing engine panics. */
  lemma SettleRejects(assetA: Address, assetB: Address, engine: Option<Address>, admin: Address,
                      b: Balances, ins: Instruction)
    requires IsI128(ins.quoteAmount + ins.feeQuote) && IsI128(ins.baseAmount + ins.feeBase)
    ensures !Supported(assetA, assetB, ins.baseAsset) || !Supported(assetA, assetB, ins.quoteAsset) ==>
              SettleOutcome(assetA, assetB, engine, admin, b, ins) == Returned((InvalidMatchingProof, b))
    ensures Supported(assetA, assetB, ins.baseAsset) && Supported(assetA, assetB, ins.quoteAsset) && engine.None? ==>
              SettleOutcome(assetA, assetB, engine, admin, b, ins).Panicked?
    ensures Supported(assetA, assetB, ins.baseAsset) && Supported(assetA, assetB, ins.quoteAsset) && engine.Some? ==>
              (SettleOutcome(assetA, assetB, engine, admin, b, ins) == Returned((InsufficientBalance, b)) <==>
                 Balance(b, ins.buyUser, ins.quoteAsset) < ins.quoteAmount + ins.feeQuote ||
                 Balance(b, ins.sellUser, ins.baseAsset) < ins.baseAmount + ins.feeBase)
  {
  }

  /** What a settlement does to one (user, asset) balance, summed over the
      six moves so that a buyer who is also the seller or the admin, or a
      base asset equal to the quote asset, is covered. */
  function Delta(ins: Instruction, admin: Address, u: Address, a: Address): int {
    Move(u, a, ins.buyUser, ins.quoteAsset, -(ins.quoteAmount + ins.feeQuote)) +
    Move(u, a, ins.buyUser, ins.baseAsset, ins.baseAmount) +
    Move(u, a, ins.sellUser, ins.baseAsset, -(ins.baseAmount + ins.feeBase)) +
    Move(u, a, ins.sellUser, ins.quoteAsset, ins.quoteAmount) +
    Move(u, a, admin, ins.baseAsset, Positive(ins.feeBase)) +
    Move(u, a, admin, ins.quoteAsset, Positive(ins.feeQuote))
  }

  /** The amount one move adds to the (u, a) reading. */
  function Move(u: Address, a: Address, user: Address, asset: Address, amount: int): int {
    if u == user && a == asset then amount else 0
  }

  /** A fee as credited: only a strictly positive fee moves anything. */
  function Positive(fee: int): int {
    if fee > 0 then fee else 0
  }

  /** One move's contribution to every reading. */
  ghost predicate Moved(before: Balances, after: Balances, user: Address, asset: Address, amount: int) {
    forall u, a :: Balance(after, u, a) == Balance(before, u, a) + Move(u, a, user, asset, amount)
  }

  lemma AddedMoved(b: Balances, user: Address, asset: Address, amount: int, after: Balances)
    requires AddedBalance(b, user, asset, amount) == Returned(after)
    ensures Moved(b, after, user, asset, amount)
  {
    AddedBalanceEffect(b, user, asset, amount);
  }

  lemma SubtractedMoved(b: Balances, user: Address, asset: Address, amount: int, after: Balances)
    requires SubtractedBalance(b, user, asset, amount) == Returned(after)
    ensures Moved(b, after, user, asset, -amount)
  {
    SubtractedBalanceEffect(b, user, asset, amount);
  }

  lemma FeeCreditMoved(b: Balances, admin: Address, asset: Address, fee: int, after: Balances)
    requires FeeCredit(b, admin, asset, fee) == Returned(after)
    ensures Moved(b, after, admin, asset, Positive(fee))
  {
    AddedBalanceEffect(b, admin, asset, fee);
  }

  /** The six vaults a run of the transfers that returned goes through. */
  lemma TransferSteps(b: Balances, ins: Instruction, admin: Address, rq: int, rb: int, after: Balances)
    returns (b1: Balances, b2: Balances, b3: Balances, b4: Balances, b5: Balances)
    requires Transfers(b, ins, admin, rq, rb) == Returned(after)
    ensures SubtractedBalance(b, ins.buyUser, ins.quoteAsset, rq) == Returned(b1)
    ensures AddedBalance(b1, ins.buyUser, ins.baseAsset, ins.baseAmount) == Returned(b2)
    ensures SubtractedBalance(b2, ins.sellUser, ins.baseAsset, rb) == Returned(b3)
    ensures AddedBalance(b3, ins.sellUser, ins.quoteAsset, ins.quoteAmount) == Returned(b4)
    ensures FeeCredit(b4, admin, ins.baseAsset, ins.feeBase) == Returned(b5)
    ensures FeeCredit(b5, admin, ins.quoteAsset, ins.feeQuote) == Returned(after)
  {
    var o1 := SubtractedBalance(b, ins.buyUser, ins.quoteAsset, rq);
    assert o1.Returned?;
    b1 := o1.value;
    var o2 := AddedBalance(b1, ins.buyUser, ins.baseAsset, ins.baseAmount);
    assert o2.Returned?;
    b2 := o2.value;
    var o3 := SubtractedBalance(b2, ins.sellUser, ins.baseAsset, rb);
    assert o3.Returned?;
    b3 := o3.value;
    var o4 := AddedBalance(b3, ins.sellUser, ins.quoteAsset, ins.quoteAmount);
    assert o4.Returned?;
    b4 := o4.value;
    var o5 := FeeCredit(b4, admin, ins.baseAsset, ins.feeBase);
    assert o5.Returned?;
    b5 := o5.value;
  }

  /** Each of the six steps moves one balance. */
  lemma StepsMoved(b: Balances, b1: Balances, b2: Balances, b3: Balances, b4: Balances, b5: Balances, b6: Balances,
                   ins: Instruction, admin: Address)
    requires SubtractedBalance(b, ins.buyUser, ins.quoteAsset, ins.quoteAmount + ins.feeQuote) == Returned(b1)
    requires AddedBalance(b1, ins.buyUser, ins.baseAsset, ins.baseAmount) == Returned(b2)
    requires SubtractedBalance(b2, ins.sellUser, ins.baseAsset, ins.baseAmount + ins.feeBase) == Returned(b3)
    requires AddedBalance(b3, ins.sellUser, ins.quoteAsset, ins.quoteAmount) == Returned(b4)
    requires FeeCredit(b4, admin, ins.baseAsset, ins.feeBase) == Returned(b5)
    requires FeeCredit(b5, admin, ins.quoteAsset, ins.feeQuote) == Returned(b6)
    ensures Moved(b, b1, ins.buyUser, ins.quoteAsset, -(ins.quoteAmount + ins.feeQuote))
    ensures Moved(b1, b2, ins.buyUser, ins.baseAsset, ins.baseAmount)
    ensures Moved(b2, b3, ins.sellUser, ins.baseAsset, -(ins.baseAmount + ins.feeBase))
    ensures Moved(b3, b4, ins.sellUser, ins.quoteAsset, ins.quoteAmount)
    ensures Moved(b4, b5, admin, ins.baseAsset, Positive(ins.feeBase))
    ensures Moved(b5, b6, admin, ins.quoteAsset, Positive(ins.feeQuote))
  {
    SubtractedMoved(b, ins.buyUser, ins.quoteAsset, ins.quoteAmount + ins.feeQuote, b1);
    AddedMoved(b1, ins.buyUser, ins.baseAsset, ins.baseAmount, b2);
    SubtractedMoved(b2, ins.sellUser, ins.baseAsset, ins.baseAmount + ins.feeBase, b3);
    AddedMoved(b3, ins.sellUser, ins.quoteAsset, ins.quoteAmount, b4);
    FeeCreditMoved(b4, admin, ins.baseAsset, ins.feeBase, b5);
    FeeCreditMoved(b5, admin, ins.quoteAsset, ins.feeQuote, b6);
  }

  /** Through the six steps, one balance changes by its Delta. */
  lemma StepsAt(b: Balances, b1: Balances, b2: Balances, b3: Balances, b4: Balances, b5: Balances, b6: Balances,
                ins: Instruction, admin: Address, u: Address, a: Address)
    requires SubtractedBalance(b, ins.buyUser, ins.quoteAsset, ins.quoteAmount + ins.feeQuote) == Returned(b1)
    requires AddedBalance(b1, ins.buyUser, ins.baseAsset, ins.baseAmount) == Returned(b2)
    requires SubtractedBalance(b2, ins.sellUser, ins.baseAsset, ins.baseAmount + ins.feeBase) == Returned(b3)
    requires AddedBalance(b3, ins.sellUser, ins.quoteAsset, ins.quoteAmount) == Returned(b4)
    requires FeeCredit(b4, admin, ins.baseAsset, ins.feeBase) == Returned(b5)
    requires FeeCredit(b5, admin, ins.quoteAsset, ins.feeQuote) == Returned(b6)
    ensures Balance(b6, u, a) == Balance(b, u, a) + Delta(ins, admin, u, a)
  {
    StepsMoved(b, b1, b2, b3, b4, b5, b6, ins, admin);
  }

  /** The transfers change each balance by its Delta. */
  lemma TransfersDelta(b: Balances, ins: Instruction, admin: Address, after: Balances)
    requires Transfers(b, ins, admin, ins.quoteAmount + ins.feeQuote, ins.baseAmount + ins.feeBase) == Returned(after)
    ensures forall u, a :: Balance(after, u, a) == Balance(b, u, a) + Delta(ins, admin, u, a)
  {
    var b1, b2, b3, b4, b5 :=
      TransferSteps(b, ins, admin, ins.quoteAmount + ins.feeQuote, ins.baseAmount + ins.feeBase, after);
    forall u, a ensures Balance(after, u, a) == Balance(b, u, a) + Delta(ins, admin, u, a) {
      StepsAt(b, b1, b2, b3, b4, b5, after, ins, admin, u, a);
    }
  }

  /** With distinct parties and assets, a settlement moves exactly the
      amounts the trade names: the buyer pays quote plus fee and receives
      base, the seller pays base plus fee and receives quote, the admin
      receives the positive fees, and nobody else is touched. */
  lemma SettleEffect(assetA: Address, assetB: Address, engine: Option<Address>, admin: Address,
                     b: Balances, ins: Instruction, after: Balances)
    requires SettleOutcome(assetA, assetB, engine, admin, b, ins) == Returned((Settled, after))
    requires ins.buyUser != ins.sellUser && admin != ins.buyUser && admin != ins.sellUser
    requires ins.baseAsset != ins.quoteAsset
    ensures Balance(after, ins.buyUser, ins.quoteAsset) ==
              Balance(b, ins.buyUser, ins.quoteAsset) - (ins.quoteAmount + ins.feeQuote) &&
            Balance(after, ins.buyUser, ins.baseAsset) == Balance(b, ins.buyUser, ins.baseAsset) + ins.baseAmount &&
            Balance(after, ins.sellUser, ins.baseAsset) ==
              Balance(b, ins.sellUser, ins.baseAsset) - (ins.baseAmount + ins.feeBase) &&
            Balance(after, ins.sellUser, ins.quoteAsset) == Balance(b, ins.sellUser, ins.quoteAsset) + ins.quoteAmount &&
            Balance(after, admin, ins.baseAsset) ==
              Balance(b, admin, ins.baseAsset) + (if ins.feeBase > 0 then ins.feeBase else 0) &&
            Balance(after, admin, ins.quoteAsset) ==
              Balance(b, admin, ins.quoteAsset) + (if ins.feeQuote > 0 then ins.feeQuote else 0)
    ensures forall u, a :: u !in {ins.buyUser, ins.sellUser, admin} ==> Balance(after, u, a) == Balance(b, u, a)
  {
    SettledByTransfers(assetA, assetB, engine, admin, b, ins, after);
    TransfersDelta(b, ins, admin, after);
  }

  // ---------------------------------------------------------------------
  // Conservation
  // ---------------------------------------------------------------------

  predicate Distinct(users: seq<Address>) {
    forall i, j :: 0 <= i < j < |users| ==> users[i] != users[j]
  }

  /** The sum of one asset's balances over some users. */
  function Supply(b: Balances, users: seq<Address>, asset: Address): int {
    if |users| == 0 then 0 else Balance(b, users[0], asset) + Supply(b, users[1..], asset)
  }

  /** Moving an amount into one entry moves the supply of its asset by that
      amount when its user is counted. */
  lemma {:induction false} SupplyMoved(before: Balances, after: Balances, user: Address, asset: Address,
                                       amount: int, users: seq<Address>, x: Address)
    requires Moved(before, after, user, asset, amount)
    requires Distinct(users)
    ensures Supply(after, users, x) == Supply(before, users, x) + (if x == asset && user in users then amount else 0)
  {
    if |users| > 0 {
      assert Distinct(users[1..]) by {
        forall i, j | 0 <= i < j < |users[1..]| ensures users[1..][i] != users[1..][j] {
          assert users[1..][i] == users[i + 1] && users[1..][j] == users[j + 1];
        }
      }
      SupplyMoved(before, after, user, asset, amount, users[1..], x);
      if user == users[0] {
        assert user !in users[1..] by {
          forall k | 0 <= k < |users[1..]| ensures users[1..][k] != user {
            assert users[1..][k] == users[k + 1];
          }
        }
      } else {
        assert user in users <==> user in users[1..] by {
          assert users == [users[0]] + users[1..];
        }
      }
    }
  }

  /** Six moves whose amounts cancel out per asset leave every supply
      that counts their users unchanged. */
  lemma {:induction false} StepsConserve(b: Balances, b1: Balances, b2: Balances, b3: Balances, b4: Balances,
                                         b5: Balances, b6: Balances, ins: Instruction, admin: Address,
                                         users: seq<Address>, x: Address)
    requires Moved(b, b1, ins.buyUser, ins.quoteAsset, -(ins.quoteAmount + ins.feeQuote))
    requires Moved(b1, b2, ins.buyUser, ins.baseAsset, ins.baseAmount)
    requires Moved(b2, b3, ins.sellUser, ins.baseAsset, -(ins.baseAmount + ins.feeBase))
    requires Moved(b3, b4, ins.sellUser, ins.quoteAsset, ins.quoteAmount)
    requires Moved(b4, b5, admin, ins.baseAsset, Positive(ins.feeBase))
    requires Moved(b5, b6, admin, ins.quoteAsset, Positive(ins.feeQuote))
    requires ins.feeBase >= 0 && ins.feeQuote >= 0
    requires Distinct(users) && ins.buyUser in users && ins.sellUser in users && admin in users
    ensures Supply(b6, users, x) == Supply(b, users, x)
  {
    SupplyMoved(b, b1, ins.buyUser, ins.quoteAsset, -(ins.quoteAmount + ins.feeQuote), users, x);
    SupplyMoved(b1, b2, ins.buyUser, ins.baseAsset, ins.baseAmount, users, x);
    SupplyMoved(b2, b3, ins.sellUser, ins.baseAsset, -(ins.baseAmount + ins.feeBase), users, x);
    SupplyMoved(b3, b4, ins.sellUser, ins.quoteAsset, ins.quoteAmount, users, x);
    SupplyMoved(b4, b5, admin, ins.baseAsset, Positive(ins.feeBase), users, x);
    SupplyMoved(b5, b6, admin, ins.quoteAsset, Positive(ins.feeQuote), users, x);
  }

  /** The transfers with non-negative fees create and destroy nothing. */
  lemma TransfersConserve(b: Balances, ins: Instruction, admin: Address, after: Balances,
                          users: seq<Address>, x: Address)
    requires Transfers(b, ins, admin, ins.quoteAmount + ins.feeQuote, ins.baseAmount + ins.feeBase) == Returned(after)
    requires ins.feeBase >= 0 && ins.feeQuote >= 0
    requires Distinct(users) && ins.buyUser in users && ins.sellUser in users && admin in users
    ensures Supply(after, users, x) == Supply(b, users, x)
  {
    var b1, b2, b3, b4, b5 :=
      TransferSteps(b, ins, admin, ins.quoteAmount + ins.feeQuote, ins.baseAmount + ins.feeBase, after);
    StepsMoved(b, b1, b2, b3, b4, b5, after, ins, admin);
    StepsConserve(b, b1, b2, b3, b4, b5, after, ins, admin, users, x);
  }

  /** A settlement with non-negative fees creates and destroys nothing:
      summed over any users that include buyer, seller and admin, every
      asset's supply is what it was. With a negative fee the supply would
      grow by it, since the admin is never debited. */
  lemma {:induction false} SettleConserves(assetA: Address, assetB: Address, engine: Option<Address>,
                                           admin: Address, b: Balances, ins: Instruction,
                                           r: SettlementResult, after: Balances, users: seq<Address>, x: Address)
    requires SettleOutcome(assetA, assetB, engine, admin, b, ins) == Returned((r, after))
    requires ins.feeBase >= 0 && ins.feeQuote >= 0
    requires Distinct(users) && ins.buyUser in users && ins.sellUser in users && admin in users
    ensures Supply(after, users, x) == Supply(b, users, x)
  {
    if r == Settled {
      SettledByTransfers(assetA, assetB, engine, admin, b, ins, after);
      TransfersConserve(b, ins, admin, after, users, x);
    } else {
      UnsettledKeepsVault(assetA, assetB, engine, admin, b, ins, r, after);
    }
  }

  /** The transfers with non-negative amounts and fees keep every balance
      non-negative. */
  lemma {:induction false} TransfersKeepNonNegative(b: Balances, ins: Instruction, admin: Address, rq: int, rb: int,
                                                    after: Balances)
    requires Transfers(b, ins, admin, rq, rb) == Returned(after)
    requires NonNegative(b)
    requires ins.baseAmount >= 0 && ins.quoteAmount >= 0 && ins.feeBase >= 0 && ins.feeQuote >= 0
    ensures NonNegative(after)
  {
    var b1, b2, b3, b4, b5 := TransferSteps(b, ins, admin, rq, rb, after);
    UpdatesStayNonNegative(b, ins.buyUser, ins.quoteAsset, rq);
    UpdatesStayNonNegative(b1, ins.buyUser, ins.baseAsset, ins.baseAmount);
    UpdatesStayNonNegative(b2, ins.sellUser, ins.baseAsset, rb);
    UpdatesStayNonNegative(b3, ins.sellUser, ins.quoteAsset, ins.quoteAmount);
    UpdatesStayNonNegative(b4, admin, ins.baseAsset, ins.feeBase);
    UpdatesStayNonNegative(b5, admin, ins.quoteAsset, ins.feeQuote);
  }

  /** A settlement whose amounts and fees are non-negative keeps every
      balance non-negative. */
  lemma {:induction false} SettleKeepsNonNegative(assetA: Address, assetB: Address, engine: Option<Address>,
                                                  admin: Address, b: Balances, ins: Instruction,
                                                  r: SettlementResult, after: Balances)
    requires SettleOutcome(assetA, assetB, engine, admin, b, ins) == Returned((r, after))
    requires NonNegative(b)
    requires ins.baseAmount >= 0 && ins.quoteAmount >= 0 && ins.feeBase >= 0 && ins.feeQuote >= 0
    ensures NonNegative(after)
  {
    if r == Settled {
      SettledByTransfers(assetA, assetB, engine, admin, b, ins, after);
      TransfersKeepNonNegative(b, ins, admin, ins.quoteAmount + ins.feeQuote, ins.baseAmount + ins.feeBase, after);
    } else {
      UnsettledKeepsVault(assetA, assetB, engine, admin, b, ins, r, after);
    }
  }

  /** There is no duplicate trade-id check: after a settlement of 100 base
      for 150 quote between balances of 200 each, the same instruction is
      settled again on what is left and is turned down only for the
      buyer's short quote balance. */
  lemma ReplayAfterSettlement(assetA: Address, assetB: Address, engine: Option<Address>, admin: Address,
                              buyer: Address, seller: Address, tradeId: TradeId, timestamp: int)
    requires assetA != assetB && buyer != seller && admin != buyer && admin != seller && engine.Some?
    ensures var ins := Instruction(tradeId, buyer, seller, assetA, assetB, 100_000_000, 150_000_000, 0, 0, timestamp);
            var b := map[(seller, assetA) := 200_000_000, (buyer, assetB) := 200_000_000];
            var first := SettleOutcome(assetA, assetB, engine, admin, b, ins);
            first.Returned? && first.value.0 == Settled &&
            Balance(first.value.1, buyer, assetB) == 50_000_000 &&
            SettleOutcome(assetA, assetB, engine, admin, first.value.1, ins) ==
              Returned((InsufficientBalance, first.value.1))
  {
    var ins := Instruction(tradeId, buyer, seller, assetA, assetB, 100_000_000, 150_000_000, 0, 0, timestamp);
    var b := map[(seller, assetA) := 200_000_000, (buyer, assetB) := 200_000_000];
    assert Balance(b, buyer, assetB) == 200_000_000 && Balance(b, seller, assetA) == 200_000_000;
    var b1 := SubtractedBalance(b, buyer, assetB, 150_000_000).value;
    var b2 := AddedBalance(b1, buyer, assetA, 100_000_000).value;
    var b3 := SubtractedBalance(b2, seller, assetA, 100_000_000).value;
    var b4 := AddedBalance(b3, seller, assetB, 150_000_000).value;
    assert Balance(b4, buyer, assetB) == 50_000_000;
    assert Transfers(b, ins, admin, 150_000_000, 100_000_000) == Returned(b4);
  }

  // ---------------------------------------------------------------------
  // Settlement records and trade history
  // ---------------------------------------------------------------------

  /** DataKey::UserTradeHistory(user) entries. */
  type History = map<Address, seq<TradeId>>

  /** A user's trade ids, empty when never written. */
  function Trades(h: History, user: Address): seq<TradeId> {
    if user in h then h[user] else []
  }

  /** The record stored for an instruction: its parties, assets, amounts
      and timestamp, with price and quantity left at 0. */
  function RecordOf(ins: Instruction): Record {
    Record(ins.tradeId, ins.buyUser, ins.sellUser, ins.baseAsset, ins.quoteAsset, ins.baseAmount,
           ins.quoteAmount, 0, 0, ins.timestamp)
  }

  /** Both histories are read before either is written, so when buyer and
      seller are one user the second write replaces the first. */
  function Appended(h: History, ins: Instruction): History {
    var buyTrades := Trades(h, ins.buyUser) + [ins.tradeId];
    var sellTrades := Trades(h, ins.sellUser) + [ins.tradeId];
    h[ins.buyUser := buyTrades][ins.sellUser := sellTrades]
  }

  /** Recording appends the trade id once to the buyer's and once to the
      seller's history (once in all when they are the same user) and leaves
      every other history alone. */
  lemma AppendedTrades(h: History, ins: Instruction, user: Address)
    ensures Trades(Appended(h, ins), user) ==
              if user == ins.buyUser || user == ins.sellUser then Trades(h, user) + [ins.tradeId] else Trades(h, user)
  {
  }

  /** The stored records of some trade ids, in order, skipping ids without
      one. */
  function Collect(ids: seq<TradeId>, s: map<TradeId, Record>): (r: seq<Record>)
    ensures |r| <= |ids|
    ensures (forall k :: 0 <= k < |ids| ==> ids[k] in s) ==> |r| == |ids|
    ensures (forall k :: 0 <= k < |r| ==> r[k] in s.Values)
  {
    if |ids| == 0 then []
    else (if ids[0] in s then [s[ids[0]]] else []) + Collect(ids[1..], s)
  }

  lemma {:induction false} CollectSnoc(ids: seq<TradeId>, id: TradeId, s: map<TradeId, Record>)
    ensures Collect(ids + [id], s) == Collect(ids, s) + (if id in s then [s[id]] else [])
  {
    if |ids| == 0 {
      assert Collect([id], s) == (if id in s then [s[id]] else []) + Collect([], s);
    } else {
      assert (ids + [id])[1..] == ids[1..] + [id];
      CollectSnoc(ids[1..], id, s);
    }
  }

  /** Extending a window of ids by one adds that id's record, if any. */
  lemma CollectStep(ids: seq<TradeId>, start: nat, i: nat, s: map<TradeId, Record>)
    requires start <= i < |ids|
    ensures Collect(ids[start..i + 1], s) == Collect(ids[start..i], s) + (if ids[i] in s then [s[ids[i]]] else [])
  {
    assert ids[start..i + 1] == ids[start..i] + [ids[i]];
    CollectSnoc(ids[start..i], ids[i], s);
  }

  /** u32::saturating_sub: where the last `limit` ids start. */
  function HistoryStart(len: nat, limit: nat): (start: nat)
    ensures start <= len
    ensures len - start == if limit < len then limit else len
  {
    if len >= limit then len - limit else 0
  }

  // ---------------------------------------------------------------------
  // The contract and its storage
  // ---------------------------------------------------------------------

  class SettlementContract {
    var admin: Address
    var assetA: Address
    var assetB: Address
    var matchingEngine: Option<Address>
    var balances: Balances
    var settlements: map<TradeId, Record>
    var history: History

    /** Every stored balance fits the i128 it is stored as. */
    predicate Valid()
      reads this
    {
      AllI128(balances)
    }

    /** Only the vault changed. */
    twostate predicate OnlyBalances()
      reads this
    {
      admin == old(admin) && assetA == old(assetA) && assetB == old(assetB) &&
      matchingEngine == old(matchingEngine) && settlements == old(settlements) && history == old(history)
    }

    /** __constructor: stores the admin and the two supported assets; the
        rest of storage starts empty. */
    constructor (admin: Address, tokenA: Address, tokenB: Address)
      ensures this.admin == admin && assetA == tokenA && assetB == tokenB
      ensures matchingEngine == None && balances == map[] && settlements == map[] && history == map[]
      ensures Valid()
    {
      this.admin := admin;
      assetA := tokenA;
      assetB := tokenB;
      matchingEngine := None;
      balances := map[];
      settlements := map[];
      history := map[];
    }

    /** set_matching_engine (the admin's authorisation is a host check). */
    method SetMatchingEngine(engine: Address)
      modifies this
      ensures matchingEngine == Some(engine)
      ensures admin == old(admin) && assetA == old(assetA) && assetB == old(assetB)
      ensures balances == old(balances) && settlements == old(settlements) && history == old(history)
    {
      matchingEngine := Some(engine);
    }

    method GetAssetA() returns (a: Address)
      ensures a == assetA
    {
      a := assetA;
    }

    method GetAssetB() returns (a: Address)
      ensures a == assetB
    {
      a := assetB;
    }

    /** get_balance: the stored amount, 0 for an entry never written. */
    method GetBalance(user: Address, token: Address) returns (r: int)
      ensures (user, token) in balances ==> r == balances[(user, token)]
      ensures (user, token) !in balances ==> r == 0
    {
      r := if (user, token) in balances then balances[(user, token)] else 0;
    }

    /** get_settlement: the record stored under the trade id, if any. */
    method GetSettlement(tradeId: TradeId) returns (r: Option<Record>)
      ensures r.Some? <==> tradeId in settlements
      ensures r.Some? ==> r.value == settlements[tradeId]
    {
      r := if tradeId in settlements then Some(settlements[tradeId]) else None;
    }

    /** add_balance on storage. */
    method AddBalance(user: Address, asset: Address, amount: int) returns (r: Outcome<()>)
      modifies this
      ensures var o := AddedBalance(old(balances), user, asset, amount);
              (o.Panicked? ==> r == Panicked(o.reason) && balances == old(balances)) &&
              (o.Returned? ==> r == Returned(()) && balances == o.value)
      ensures OnlyBalances()
    {
      var current := GetBalance(user, asset);
      if !IsI128(current + amount) {
        return Panicked("attempt to add with overflow");
      }
      balances := balances[(user, asset) := current + amount];
      r := Returned(());
    }

    /** subtract_balance on storage. */
    method SubtractBalance(user: Address, asset: Address, amount: int) returns (r: Outcome<()>)
      modifies this
      ensures var o := SubtractedBalance(old(balances), user, asset, amount);
              (o.Panicked? ==> r == Panicked(o.reason) && balances == old(balances)) &&
              (o.Returned? ==> r == Returned(()) && balances == o.value)
      ensures OnlyBalances()
    {
      var current := GetBalance(user, asset);
      if current < amount {
        return Panicked("Insufficient balance");
      }
      if !IsI128(current - amount) {
        return Panicked("attempt to subtract with overflow");
      }
      balances := balances[(user, asset) := current - amount];
      r := Returned(());
    }

    /** deposit. */
    method Deposit(user: Address, token: Address, amount: int) returns (r: Outcome<()>)
      requires Valid()
      modifies this
      ensures var o := DepositOutcome(old(assetA), old(assetB), old(balances), user, token, amount);
              (o.Panicked? ==> r == Panicked(o.reason) && balances == old(balances)) &&
              (o.Returned? ==> r == Returned(()) && balances == o.value)
      ensures OnlyBalances() && Valid()
    {
      var positive := CheckPositive(amount);
      if positive.Panicked? {
        return Panicked(positive.reason);
      }
      if token != assetA && token != assetB {
        return Panicked("Unsupported asset");
      }
      UpdatesStayI128(balances, user, token, amount);
      r := AddBalance(user, token, amount);
    }

    /** withdraw (no supported-asset check). */
    method Withdraw(user: Address, token: Address, amount: int) returns (r: Outcome<()>)
      requires Valid()
      modifies this
      ensures var o := WithdrawOutcome(old(balances), user, token, amount);
              (o.Panicked? ==> r == Panicked(o.reason) && balances == old(balances)) &&
              (o.Returned? ==> r == Returned(()) && balances == o.value)
      ensures OnlyBalances() && Valid()
    {
      var positive := CheckPositive(amount);
      if positive.Panicked? {
        return Panicked(positive.reason);
      }
      var balance := GetBalance(user, token);
      if balance < amount {
        return Panicked("Insufficient balance");
      }
      UpdatesStayI128(balances, user, token, amount);
      r := SubtractBalance(user, token, amount);
    }

    /** record_settlement: the record under its trade id (replacing any
        earlier one) and the id appended to both users' histories. */
    method RecordSettlement(ins: Instruction)
      modifies this
      ensures settlements == old(settlements)[ins.tradeId := RecordOf(ins)]
      ensures history == Appended(old(history), ins)
      ensures admin == old(admin) && assetA == old(assetA) && assetB == old(assetB)
      ensures matchingEngine == old(matchingEngine) && balances == old(balances)
    {
      settlements := settlements[ins.tradeId := RecordOf(ins)];
      var buyTrades := if ins.buyUser in history then history[ins.buyUser] else [];
      var sellTrades := if ins.sellUser in history then history[ins.sellUser] else [];
      buyTrades := buyTrades + [ins.tradeId];
      sellTrades := sellTrades + [ins.tradeId];
      history := history[ins.buyUser := buyTrades];
      history := history[ins.sellUser := sellTrades];
    }

    /** settle_trade. The vault moves run one storage call at a time; when
        one panics, the host discards the moves already written. */
    method SettleTrade(ins: Instruction) returns (r: Outcome<SettlementResult>)
      requires Valid()
      modifies this
      ensures var o := SettleOutcome(old(assetA), old(assetB), old(matchingEngine), old(admin), old(balances), ins);
              (o.Panicked? ==> r == Panicked(o.reason) && balances == old(balances)) &&
              (o.Returned? ==> r == Returned(o.value.0) && balances == o.value.1)
      ensures r == Returned(Settled) ==> settlements == old(settlements)[ins.tradeId := RecordOf(ins)] &&
                                         history == Appended(old(history), ins)
      ensures r != Returned(Settled) ==> settlements == old(settlements) && history == old(history)
      ensures admin == old(admin) && assetA == old(assetA) && assetB == old(assetB)
      ensures matchingEngine == old(matchingEngine) && Valid()
    {
      if (ins.baseAsset != assetA && ins.baseAsset != assetB) ||
         (ins.quoteAsset != assetA && ins.quoteAsset != assetB) {
        return Returned(InvalidMatchingProof);
      }
      if matchingEngine.None? {
        return Panicked("Matching engine not set");
      }
      var buyBalance := GetBalance(ins.buyUser, ins.quoteAsset);
      var sellBalance := GetBalance(ins.sellUser, ins.baseAsset);
      var requiredQuote :- CheckedAdd(ins.quoteAmount, ins.feeQuote);
      var requiredBase :- CheckedAdd(ins.baseAmount, ins.feeBase);
      if buyBalance < requiredQuote {
        return Returned(InsufficientBalance);
      }
      if sellBalance < requiredBase {
        return Returned(InsufficientBalance);
      }
      var p := MoveFunds(ins, requiredQuote, requiredBase);
      if p.Panicked? {
        return Panicked(p.reason);
      }
      RecordSettlement(ins);
      r := Returned(Settled);
    }

    /** The transfers and fee collection of settle_trade, with the host's
        rollback on a panic. */
    method MoveFunds(ins: Instruction, requiredQuote: int, requiredBase: int) returns (r: Outcome<()>)
      requires Valid()
      modifies this
      ensures var o := Transfers(old(balances), ins, old(admin), requiredQuote, requiredBase);
              (o.Panicked? ==> r == Panicked(o.reason) && balances == old(balances)) &&
              (o.Returned? ==> r == Returned(()) && balances == o.value)
      ensures OnlyBalances() && Valid()
    {
      var saved := balances;
      var step := SubtractBalance(ins.buyUser, ins.quoteAsset, requiredQuote);
      if step.Panicked? {
        balances := saved;
        return step;
      }
      UpdatesStayI128(saved, ins.buyUser, ins.quoteAsset, requiredQuote);
      var b1 := balances;
      step := AddBalance(ins.buyUser, ins.baseAsset, ins.baseAmount);
      if step.Panicked? {
        balances := saved;
        return step;
      }
      UpdatesStayI128(b1, ins.buyUser, ins.baseAsset, ins.baseAmount);
      var b2 := balances;
      step := SubtractBalance(ins.sellUser, ins.baseAsset, requiredBase);
      if step.Panicked? {
        balances := saved;
        return step;
      }
      UpdatesStayI128(b2, ins.sellUser, ins.baseAsset, requiredBase);
      var b3 := balances;
      step := AddBalance(ins.sellUser, ins.quoteAsset, ins.quoteAmount);
      if step.Panicked? {
        balances := saved;
        return step;
      }
      UpdatesStayI128(b3, ins.sellUser, ins.quoteAsset, ins.quoteAmount);
      r := CollectFees(ins, saved);
    }

    /** The fee step of settle_trade: each strictly positive fee is added to
        the admin's balance. */
    method CollectFees(ins: Instruction, saved: Balances) returns (r: Outcome<()>)
      requires Valid()
      modifies this
      ensures var b4 := old(balances);
              var o := FeeCredit(b4, old(admin), ins.baseAsset, ins.feeBase);
              var o' := if o.Returned? then FeeCredit(o.value, old(admin), ins.quoteAsset, ins.feeQuote) else o;
              (o'.Panicked? ==> r == Panicked(o'.reason) && balances == saved) &&
              (o'.Returned? ==> r == Returned(()) && balances == o'.value)
      ensures OnlyBalances() && (r.Returned? ==> Valid())
    {
      if ins.feeBase > 0 || ins.feeQuote > 0 {
        if ins.feeBase > 0 {
          UpdatesStayI128(balances, admin, ins.baseAsset, ins.feeBase);
          var step := AddBalance(admin, ins.baseAsset, ins.feeBase);
          if step.Panicked? {
            balances := saved;
            return step;
          }
        }
        if ins.feeQuote > 0 {
          UpdatesStayI128(balances, admin, ins.quoteAsset, ins.feeQuote);
          var step := AddBalance(admin, ins.quoteAsset, ins.feeQuote);
          if step.Panicked? {
            balances := saved;
            return step;
          }
        }
      }
      r := Returned(());
    }

    /** get_trade_history: the stored records of the user's last `limit`
        trade ids, oldest first, skipping ids without a record. */
    method GetTradeHistory(user: Address, limit: nat) returns (records: seq<Record>)
      ensures var ids := Trades(history, user);
              records == Collect(ids[HistoryStart(|ids|, limit)..|ids|], settlements)
      ensures |records| <= limit
    {
      var ids := if user in history then history[user] else [];
      var len := |ids|;
      var start := if len >= limit then len - limit else 0;
      records := [];
      var i := start;
      while i < len
        invariant start <= i <= len
        invariant records == Collect(ids[start..i], settlements)
      {
        var id := ids[i];
        if id in settlements {
          records := records + [settlements[id]];
        }
        CollectStep(ids, start, i, settlements);
        i := i + 1;
      }
    }
  }
}
