/** One flash-swap transaction of the V2 executor as a function from the old world to the new one: the
    executor's entry point, the pair's swap with its fee-adjusted constant-product check (Uniswap v2 Core,
    sections 2.3 and 3.2.1), the callback, the router steps, repayment and payout. An error means the
    transaction reverts. */
module FlashSwap {
  import opened Arithmetic
  import opened Options
  import opened Ledger

  datatype Error =
    | OnlyAuthorizedOperator | ZeroAddress | ZeroAmount | InvalidPath | InvalidStep | InvalidCaller
    | UnsupportedPair | UnsupportedBorrowToken | ExecutionAlreadyInProgress | NoExecutionInProgress
    | UnknownExecution | InvalidExecutionSource | StepExecutionFailed | RepaymentFailed | ProfitBelowMinimum
    | ArithmeticPanic | RouterReverted
    | PairMissing | PairNoOutput | PairLiquidity | PairInvalidTo | PairTransferFailed | PairNoInput | PairK
    | PairOverflow

  datatype Result<+T> = Ok(value: T) | Err(error: Error) {
    predicate IsFailure() { Err? }
    function PropagateFailure<U>(): Result<U>
      requires Err?
    { Err(error) }
    function Extract(): T
      requires Ok?
    { value }
  }

  datatype SwapStep = SwapStep(router: Address, path: seq<Address>, amountIn: U256, minOut: U256)

  /** What an external router does when called: it reverts, or pulls the whole input to `pullTo`, lets any
      further transfers happen, and reports amounts. */
  datatype Move = Move(token: Address, from: Address, to: Address, amount: nat)
  datatype RouterReply = Reverts | Fills(pullTo: Address, moves: seq<Move>, amounts: seq<U256>)

  type Market = nat -> RouterReply

  datatype PairState = PairState(token0: Address, token1: Address, reserve0: nat, reserve1: nat)

  datatype Control = Control(
    authorizedOperators: set<Address>, allowedV2Pairs: set<Address>, allowedRouters: set<Address>,
    allowedBorrowTokens: set<Address>, executionInProgress: bool, activeExecutionId: nat)

  datatype World = World(ledger: Ledger, pairs: map<Address, PairState>, control: Control)

  /** The callback context. `executionId` stands for the hash the contract derives; zero is no execution. */
  datatype Context = Context(
    executionId: nat, pair: Address, borrowToken: Address, borrowAmount: U256, minProfit: U256,
    profitToken: Address, profitRecipient: Address, steps: seq<SwapStep>)

  // ---------------------------------------------------------------- router steps

  function Require(condition: bool, error: Error): Result<()> {
    if condition then Ok(()) else Err(error)
  }

  function OrError(l: Option<Ledger>, error: Error): Result<Ledger> {
    match l case Some(l') => Ok(l') case None => Err(error)
  }

  function ForceApprove(l: Ledger, token: Address, spender: Address, amount: nat): Ledger {
    if Allowance(l, token, spender) >= amount then l else Approve(l, token, spender, amount)
  }

  /** The router's transferFrom of the executor's input: it consumes allowance and balance. */
  function Pull(l: Ledger, me: Address, token: Address, spender: Address, to: Address, amount: nat): Result<Ledger> {
    if Allowance(l, token, spender) < amount then Err(RouterReverted)
    else OrError(Transfer(Approve(l, token, spender, Allowance(l, token, spender) - amount), token, me, to, amount),
                 RouterReverted)
  }

  function MoveAll(l: Ledger, moves: seq<Move>): Result<Ledger>
    decreases |moves|
  {
    if moves == [] then Ok(l)
    else
      var m := moves[0];
      var l1 :- OrError(Transfer(l, m.token, m.from, m.to, m.amount), RouterReverted);
      MoveAll(l1, moves[1..])
  }

  function CallRouter(l: Ledger, me: Address, token: Address, router: Address, amount: nat, reply: RouterReply)
    : Result<Ledger>
  {
    match reply
    case Reverts => Err(RouterReverted)
    case Fills(pullTo, moves, _) =>
      var l1 :- Pull(l, me, token, router, pullTo, amount);
      MoveAll(l1, moves)
  }

  function CurrentAmountIn(l: Ledger, me: Address, requested: U256, tokenIn: Address): nat {
    if requested == MAX_U256 then Balance(l, tokenIn, me) else requested
  }

  function ExecuteStep(l: Ledger, me: Address, step: SwapStep, reply: RouterReply): Result<Ledger> {
    var _ :- Require(|step.path| > 0, ArithmeticPanic);
    var tokenIn, tokenOut := step.path[0], step.path[|step.path| - 1];
    var amountIn := CurrentAmountIn(l, me, step.amountIn, tokenIn);
    var _ :- Require(amountIn != 0, ZeroAmount);
    var approved := ForceApprove(l, tokenIn, step.router, amountIn);
    var beforeOut := Balance(approved, tokenOut, me);
    var after :- CallRouter(approved, me, tokenIn, step.router, amountIn, reply);
    var _ :- Require(|reply.amounts| > 0, StepExecutionFailed);
    var afterOut := Balance(after, tokenOut, me);
    var _ :- Require(afterOut >= beforeOut, StepExecutionFailed);
    var amountOut := Max(reply.amounts[|reply.amounts| - 1], afterOut - beforeOut);
    var _ :- Require(amountOut >= step.minOut, StepExecutionFailed);
    Ok(after)
  }

  /** The steps in order; the i-th router call is answered by `replies(i)`. */
  function ExecuteSteps(l: Ledger, me: Address, steps: seq<SwapStep>, replies: Market): Result<Ledger>
  {
    if steps == [] then Ok(l)
    else
      var n := |steps| - 1;
      var l1 :- ExecuteSteps(l, me, steps[..n], replies);
      ExecuteStep(l1, me, steps[n], replies(n))
  }

  // ---------------------------------------------------------------- repayment

  function CheckedMul(a: nat, b: nat): Result<nat> {
    if Times(a, b) <= MAX_U256 then Ok(Times(a, b)) else Err(ArithmeticPanic)
  }

  lemma CheckedMulIsProduct(a: nat, b: nat)
    ensures a * b >= 0 && CheckedMul(a, b) == if a * b <= MAX_U256 then Ok(a * b) else Err(ArithmeticPanic)
  {
    TimesIsProduct(a, b);
  }

  function SameTokenRepayment(borrowed: nat): Result<nat> {
    var scaled :- CheckedMul(borrowed, 1000);
    Ok(scaled / 997 + 1)
  }

  function CrossTokenRepayment(reserveIn: nat, reserveOut: nat, borrowed: nat): Result<nat> {
    if borrowed >= reserveOut then Err(RepaymentFailed)
    else
      var value :- CheckedMul(reserveIn, borrowed);
      var numerator :- CheckedMul(value, 1000);
      var denominator :- CheckedMul(reserveOut - borrowed, 997);
      CheckedMulIsProduct(reserveOut - borrowed, 997);
      Ok(numerator / denominator + 1)
  }

  function RepaymentAmountIn(p: PairState, borrowToken: Address, repayToken: Address, borrowed: nat): Result<nat> {
    if repayToken == borrowToken then SameTokenRepayment(borrowed)
    else if !((borrowToken == p.token0 && repayToken == p.token1)
              || (borrowToken == p.token1 && repayToken == p.token0)) then Err(UnsupportedBorrowToken)
    else
      var reserveIn := if repayToken == p.token0 then p.reserve0 else p.reserve1;
      var reserveOut := if borrowToken == p.token0 then p.reserve0 else p.reserve1;
      CrossTokenRepayment(reserveIn, reserveOut, borrowed)
  }

  // ---------------------------------------------------------------- callback

  function TransferToken(l: Ledger, me: Address, token: Address, to: Address, amount: nat): Result<Ledger> {
    if amount == 0 then Ok(l) else OrError(Transfer(l, token, me, to, amount), RepaymentFailed)
  }

  function BorrowedAmount(ctx: Context, amount0: nat, amount1: nat): nat {
    var reported := if amount0 > 0 then amount0 else amount1;
    if reported == 0 then ctx.borrowAmount else reported
  }

  function SettleV2PairDebt(w: World, me: Address, ctx: Context, amount0: nat, amount1: nat): Result<World> {
    if ctx.pair !in w.pairs then Err(PairMissing)
    else
      var repayment :- RepaymentAmountIn(w.pairs[ctx.pair], ctx.borrowToken, ctx.profitToken,
                                         BorrowedAmount(ctx, amount0, amount1));
      var l :- TransferToken(w.ledger, me, ctx.profitToken, ctx.pair, repayment);
      Ok(w.(ledger := l))
  }

  function Unlocked(c: Control): Control { c.(executionInProgress := false, activeExecutionId := 0) }

  function FinalizeExecution(w: World, me: Address, ctx: Context, grossProfit: nat): Result<World> {
    var l :- if grossProfit > 0 && ctx.profitRecipient != me
             then TransferToken(w.ledger, me, ctx.profitToken, ctx.profitRecipient, grossProfit)
             else Ok(w.ledger);
    Ok(w.(ledger := l, control := Unlocked(w.control)))
  }

  function UniswapV2Call(w: World, me: Address, caller: Address, sender: Address, amount0: nat, amount1: nat,
                         ctx: Context, replies: Market): Result<World>
  {
    var _ :- Require(w.control.executionInProgress, NoExecutionInProgress);
    var _ :- Require(sender == me, InvalidCaller);
    var _ :- Require(ctx.executionId == w.control.activeExecutionId, UnknownExecution);
    var _ :- Require(caller == ctx.pair, InvalidExecutionSource);
    var before := Balance(w.ledger, ctx.profitToken, me);
    var traded :- ExecuteSteps(w.ledger, me, ctx.steps, replies);
    var settled :- SettleV2PairDebt(w.(ledger := traded), me, ctx, amount0, amount1);
    var after := Balance(settled.ledger, ctx.profitToken, me);
    var grossProfit := if after > before then after - before else 0;
    var done :- FinalizeExecution(settled, me, ctx, grossProfit);
    var _ :- Require(grossProfit >= ctx.minProfit, ProfitBelowMinimum);
    Ok(done)
  }

  // ---------------------------------------------------------------- the pair

  /** What the pair counts as paid in: its balance above the reserve less what it sent out. */
  function PaidIn(balance: nat, reserve: nat, out: nat): nat {
    if balance > reserve - out then balance - (reserve - out) else 0
  }

  /** A balance with three tenths of a percent of the amount paid in held back, times 1000. */
  function Adjusted(balance: nat, paidIn: nat): int { balance * 1000 - paidIn * 3 }

  predicate KHolds(balance0: nat, balance1: nat, paid0: nat, paid1: nat, reserve0: nat, reserve1: nat) {
    Adjusted(balance0, paid0) * Adjusted(balance1, paid1) >= reserve0 * reserve1 * 1_000_000
  }

  function SendOut(l: Ledger, pair: Address, token: Address, to: Address, amount: nat): Result<Ledger> {
    if amount == 0 then Ok(l) else OrError(Transfer(l, token, pair, to, amount), PairTransferFailed)
  }

  /** The end of the pair's swap: measure, check, and record the new reserves. */
  function CloseSwap(w: World, pair: Address, out0: nat, out1: nat): Result<World>
    requires pair in w.pairs
  {
    var p := w.pairs[pair];
    var balance0, balance1 := Balance(w.ledger, p.token0, pair), Balance(w.ledger, p.token1, pair);
    var paid0, paid1 := PaidIn(balance0, p.reserve0, out0), PaidIn(balance1, p.reserve1, out1);
    var _ :- Require(paid0 > 0 || paid1 > 0, PairNoInput);
    var _ :- Require(KHolds(balance0, balance1, paid0, paid1, p.reserve0, p.reserve1), PairK);
    var _ :- Require(balance0 < TWO_112 && balance1 < TWO_112, PairOverflow);
    Ok(w.(pairs := w.pairs[pair := p.(reserve0 := balance0, reserve1 := balance1)]))
  }

  function PairSwap(w: World, me: Address, pair: Address, out0: nat, out1: nat, ctx: Context,
                    replies: Market): Result<World>
  {
    var _ :- Require(pair in w.pairs, PairMissing);
    var p := w.pairs[pair];
    var _ :- Require(out0 > 0 || out1 > 0, PairNoOutput);
    var _ :- Require(out0 < p.reserve0 && out1 < p.reserve1, PairLiquidity);
    var _ :- Require(me != p.token0 && me != p.token1, PairInvalidTo);
    var l0 :- SendOut(w.ledger, pair, p.token0, me, out0);
    var l1 :- SendOut(l0, pair, p.token1, me, out1);
    var called :- UniswapV2Call(w.(ledger := l1), me, pair, me, out0, out1, ctx, replies);
    CallKeepsPairs(w.(ledger := l1), me, pair, me, out0, out1, ctx, replies);
    CloseSwap(called, pair, out0, out1)
  }

  lemma CallKeepsPairs(w: World, me: Address, caller: Address, sender: Address, amount0: nat, amount1: nat,
                       ctx: Context, replies: Market)
    ensures var r := UniswapV2Call(w, me, caller, sender, amount0, amount1, ctx, replies);
            r.Ok? ==> r.value.pairs == w.pairs && r.value.control == Unlocked(w.control)
  {
    hide ExecuteSteps, TransferToken, RepaymentAmountIn;
  }

  // ---------------------------------------------------------------- the entry point

  function ValidateV2Steps(c: Control, steps: seq<SwapStep>): Result<()> {
    if steps == [] then Err(InvalidStep) else ValidateFrom(c, steps, 0)
  }

  function ValidateFrom(c: Control, steps: seq<SwapStep>, i: nat): Result<()>
    requires i <= |steps|
    decreases |steps| - i
  {
    if i == |steps| then Ok(())
    else
      var _ :- Require(steps[i].router in c.allowedRouters, InvalidStep);
      var _ :- Require(|steps[i].path| >= 2, InvalidPath);
      var _ :- Require(steps[i].minOut != 0, ZeroAmount);
      ValidateFrom(c, steps, i + 1)
  }

  function StartV2FlashSwap(w: World, me: Address, operator: Address, ctx: Context, replies: Market)
    : Result<World>
  {
    var _ :- Require(operator in w.control.authorizedOperators, OnlyAuthorizedOperator);
    var _ :- Require(ctx.pair != 0 && ctx.borrowToken != 0 && ctx.profitToken != 0 && ctx.profitRecipient != 0,
                     ZeroAddress);
    var _ :- Require(ctx.borrowAmount != 0, ZeroAmount);
    var _ :- Require(ctx.pair in w.control.allowedV2Pairs, UnsupportedPair);
    var _ :- Require(ctx.borrowToken in w.control.allowedBorrowTokens, UnsupportedBorrowToken);
    var _ :- ValidateV2Steps(w.control, ctx.steps);
    var _ :- Require(ctx.pair in w.pairs, PairMissing);
    var p := w.pairs[ctx.pair];
    var _ :- Require(ctx.borrowToken == p.token0 || ctx.borrowToken == p.token1, UnsupportedBorrowToken);
    var _ :- Require(!w.control.executionInProgress, ExecutionAlreadyInProgress);
    var begun := w.(control := w.control.(executionInProgress := true, activeExecutionId := ctx.executionId));
    var out0 := if ctx.borrowToken == p.token0 then ctx.borrowAmount else 0;
    var out1 := if ctx.borrowToken == p.token1 then ctx.borrowAmount else 0;
    PairSwap(begun, me, ctx.pair, out0, out1, ctx, replies)
  }

  /** The read-only check operators make before submitting, with its reason codes. */
  function IsV2ExecutionAllowed(c: Control, operator: Address, pair: Address, borrowToken: Address,
                                routers: seq<Address>): (bool, nat)
  {
    if operator !in c.authorizedOperators then (false, 1)
    else if pair !in c.allowedV2Pairs then (false, 2)
    else if borrowToken !in c.allowedBorrowTokens then (false, 3)
    else if exists i :: 0 <= i < |routers| && routers[i] !in c.allowedRouters then (false, 4)
    else (true, 0)
  }

  function Routers(steps: seq<SwapStep>): seq<Address> { seq(|steps|, i requires 0 <= i < |steps| => steps[i].router) }
}
