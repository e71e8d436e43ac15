/** The V2 executor as the contract it is: storage that the entry point locks and unlocks, balances that
    move step by step, and revert restoring both. Every method is tied to the transaction function. */
module Executor {
  import opened Arithmetic
  import opened Ledger
  import FS = FlashSwap

  /** Everything outside the executor's own storage. */
  class Chain {
    var ledger: Ledger
    var pairs: map<Address, FS.PairState>

    constructor (ledger: Ledger, pairs: map<Address, FS.PairState>)
      ensures this.ledger == ledger && this.pairs == pairs
    {
      this.ledger := ledger;
      this.pairs := pairs;
    }
  }

  class ArbitrageRuntimeExecutorV2 {
    const self: Address
    const chain: Chain
    var authorizedOperators: set<Address>
    var allowedV2Pairs: set<Address>
    var allowedRouters: set<Address>
    var allowedBorrowTokens: set<Address>
    var executionInProgress: bool
    var activeExecutionId: nat

    constructor (self: Address, chain: Chain, initialOwner: Address)
      requires initialOwner != 0
      ensures this.self == self && this.chain == chain
      ensures Control() == FS.Control({initialOwner}, {}, {}, {}, false, 0)
    {
      this.self := self;
      this.chain := chain;
      authorizedOperators := {initialOwner};
      allowedV2Pairs, allowedRouters, allowedBorrowTokens := {}, {}, {};
      executionInProgress, activeExecutionId := false, 0;
    }

    ghost function Control(): FS.Control
      reads this
    {
      FS.Control(authorizedOperators, allowedV2Pairs, allowedRouters, allowedBorrowTokens,
                 executionInProgress, activeExecutionId)
    }

    ghost function World(): FS.World
      reads this, chain
    {
      FS.World(chain.ledger, chain.pairs, Control())
    }

    /** The entry point. It does what the transaction function says, and when that is an error the whole
        world, balances, pairs and lock, is what it was before the call. */
    method StartV2FlashSwap(operator: Address, ctx: FS.Context, replies: FS.Market) returns (r: FS.Result<()>)
      modifies this`executionInProgress, this`activeExecutionId, chain
      ensures match FS.StartV2FlashSwap(old(World()), self, operator, ctx, replies)
              case Ok(w) => r.Ok? && World() == w
              case Err(e) => r == FS.Err(e) && World() == old(World())
    {
      var ledger, pairs, inProgress, id := chain.ledger, chain.pairs, executionInProgress, activeExecutionId;
      r := RunFlashSwap(operator, ctx, replies);
      if r.Err? {
        chain.ledger, chain.pairs, executionInProgress, activeExecutionId := ledger, pairs, inProgress, id;
      }
    }

    /** The body before the virtual machine's rollback: on an error the state may be half-way. */
    method RunFlashSwap(operator: Address, ctx: FS.Context, replies: FS.Market) returns (r: FS.Result<()>)
      modifies this`executionInProgress, this`activeExecutionId, chain
      ensures match FS.StartV2FlashSwap(old(World()), self, operator, ctx, replies)
              case Ok(w) => r.Ok? && World() == w
              case Err(e) => r == FS.Err(e)
    {
      hide FS.PairSwap, FS.ValidateV2Steps;
      if operator !in authorizedOperators { return FS.Err(FS.OnlyAuthorizedOperator); }
      if ctx.pair == 0 || ctx.borrowToken == 0 || ctx.profitToken == 0 || ctx.profitRecipient == 0 {
        return FS.Err(FS.ZeroAddress);
      }
      if ctx.borrowAmount == 0 { return FS.Err(FS.ZeroAmount); }
      if ctx.pair !in allowedV2Pairs { return FS.Err(FS.UnsupportedPair); }
      if ctx.borrowToken !in allowedBorrowTokens { return FS.Err(FS.UnsupportedBorrowToken); }
      var valid := ValidateV2Steps(ctx.steps);
      if valid.Err? { return valid; }
      if ctx.pair !in chain.pairs { return FS.Err(FS.PairMissing); }
      var token0, token1 := chain.pairs[ctx.pair].token0, chain.pairs[ctx.pair].token1;
      if ctx.borrowToken != token0 && ctx.borrowToken != token1 { return FS.Err(FS.UnsupportedBorrowToken); }
      if executionInProgress { return FS.Err(FS.ExecutionAlreadyInProgress); }
      executionInProgress := true;
      activeExecutionId := ctx.executionId;
      var out0: nat := if ctx.borrowToken == token0 then ctx.borrowAmount else 0;
      var out1: nat := if ctx.borrowToken == token1 then ctx.borrowAmount else 0;
      r := PairSwap(ctx.pair, out0, out1, ctx, replies);
    }

    method ValidateV2Steps(steps: seq<FS.SwapStep>) returns (r: FS.Result<()>)
      ensures r == FS.ValidateV2Steps(Control(), steps)
    {
      if |steps| == 0 { return FS.Err(FS.InvalidStep); }
      for i := 0 to |steps|
        invariant FS.ValidateV2Steps(Control(), steps) == FS.ValidateFrom(Control(), steps, i)
      {
        if steps[i].router !in allowedRouters { return FS.Err(FS.InvalidStep); }
        if |steps[i].path| < 2 { return FS.Err(FS.InvalidPath); }
        if steps[i].minOut == 0 { return FS.Err(FS.ZeroAmount); }
      }
      r := FS.Ok(());
    }

    /** The pair's swap, calling back into the executor between sending and checking. */
    method PairSwap(pair: Address, out0: nat, out1: nat, ctx: FS.Context, replies: FS.Market)
      returns (r: FS.Result<()>)
      modifies this`executionInProgress, this`activeExecutionId, chain
      ensures match FS.PairSwap(old(World()), self, pair, out0, out1, ctx, replies)
              case Ok(w) => r.Ok? && World() == w
              case Err(e) => r == FS.Err(e)
    {
      hide FS.SendOut, FS.UniswapV2Call, FS.CloseSwap;
      if pair !in chain.pairs { return FS.Err(FS.PairMissing); }
      var p := chain.pairs[pair];
      if out0 == 0 && out1 == 0 { return FS.Err(FS.PairNoOutput); }
      if out0 >= p.reserve0 || out1 >= p.reserve1 { return FS.Err(FS.PairLiquidity); }
      if self == p.token0 || self == p.token1 { return FS.Err(FS.PairInvalidTo); }
      var sent0 := FS.SendOut(chain.ledger, pair, p.token0, self, out0);
      if sent0.Err? { return FS.Err(sent0.error); }
      chain.ledger := sent0.value;
      var sent1 := FS.SendOut(chain.ledger, pair, p.token1, self, out1);
      if sent1.Err? { return FS.Err(sent1.error); }
      chain.ledger := sent1.value;
      FS.CallKeepsPairs(World(), self, pair, self, out0, out1, ctx, replies);
      var called := UniswapV2Call(pair, self, out0, out1, ctx, replies);
      if called.Err? { return called; }
      r := CloseSwap(pair, out0, out1);
    }

    method CloseSwap(pair: Address, out0: nat, out1: nat) returns (r: FS.Result<()>)
      requires pair in chain.pairs
      modifies chain
      ensures match FS.CloseSwap(old(World()), pair, out0, out1)
              case Ok(w) => r.Ok? && World() == w
              case Err(e) => r == FS.Err(e)
    {
      hide FS.KHolds, Balance;
      var p := chain.pairs[pair];
      var balance0, balance1 := Balance(chain.ledger, p.token0, pair), Balance(chain.ledger, p.token1, pair);
      var paid0, paid1 := FS.PaidIn(balance0, p.reserve0, out0), FS.PaidIn(balance1, p.reserve1, out1);
      if paid0 == 0 && paid1 == 0 { return FS.Err(FS.PairNoInput); }
      if !FS.KHolds(balance0, balance1, paid0, paid1, p.reserve0, p.reserve1) { return FS.Err(FS.PairK); }
      if balance0 >= TWO_112 || balance1 >= TWO_112 { return FS.Err(FS.PairOverflow); }
      chain.pairs := chain.pairs[pair := p.(reserve0 := balance0, reserve1 := balance1)];
      r := FS.Ok(());
    }

    method UniswapV2Call(caller: Address, sender: Address, amount0: nat, amount1: nat, ctx: FS.Context,
                         replies: FS.Market) returns (r: FS.Result<()>)
      modifies this`executionInProgress, this`activeExecutionId, chain
      ensures match FS.UniswapV2Call(old(World()), self, caller, sender, amount0, amount1, ctx, replies)
              case Ok(w) => r.Ok? && World() == w
              case Err(e) => r == FS.Err(e)
    {
      hide FS.ExecuteStep, FS.SettleV2PairDebt, FS.FinalizeExecution, Balance;
      if !executionInProgress { return FS.Err(FS.NoExecutionInProgress); }
      if sender != self { return FS.Err(FS.InvalidCaller); }
      if ctx.executionId != activeExecutionId { return FS.Err(FS.UnknownExecution); }
      if caller != ctx.pair { return FS.Err(FS.InvalidExecutionSource); }
      var preProfitBalance := Balance(chain.ledger, ctx.profitToken, self);
      ghost var start := chain.ledger;
      for i := 0 to |ctx.steps|
        invariant chain.pairs == old(chain.pairs) && Control() == old(Control())
        invariant FS.ExecuteSteps(start, self, ctx.steps[..i], replies) == FS.Ok(chain.ledger)
      {
        assert ctx.steps[..i + 1][..i] == ctx.steps[..i];
        ghost var before := chain.ledger;
        var step := ExecuteV2Step(ctx.steps[i], replies(i));
        if step.Err? {
          assert FS.ExecuteSteps(start, self, ctx.steps[..i + 1], replies) == FS.Err(step.error);
          ErrorSticks(start, self, ctx.steps, replies, i + 1);
          return step;
        }
      }
      assert ctx.steps[..|ctx.steps|] == ctx.steps;
      assert World() == old(World()).(ledger := chain.ledger);
      ghost var afterSettling := FS.SettleV2PairDebt(World(), self, ctx, amount0, amount1);
      var settled := SettleV2PairDebt(ctx, amount0, amount1);
      if settled.Err? { return settled; }
      var postProfitBalance := Balance(chain.ledger, ctx.profitToken, self);
      var grossProfit := if postProfitBalance > preProfitBalance then postProfitBalance - preProfitBalance else 0;
      assert afterSettling == FS.Ok(World());
      var final := FinalizeExecution(ctx, grossProfit);
      if final.Err? { return final; }
      if grossProfit < ctx.minProfit { return FS.Err(FS.ProfitBelowMinimum); }
      r := FS.Ok(());
    }

    method ExecuteV2Step(step: FS.SwapStep, reply: FS.RouterReply) returns (r: FS.Result<()>)
      modifies chain
      ensures chain.pairs == old(chain.pairs)
      ensures match FS.ExecuteStep(old(chain.ledger), self, step, reply)
              case Ok(l) => r.Ok? && chain.ledger == l
              case Err(e) => r == FS.Err(e)
    {
      hide FS.Pull, FS.MoveAll, Balance, Allowance;
      if |step.path| == 0 { return FS.Err(FS.ArithmeticPanic); }
      var tokenIn, tokenOut := step.path[0], step.path[|step.path| - 1];
      var amountIn := FS.CurrentAmountIn(chain.ledger, self, step.amountIn, tokenIn);
      if amountIn == 0 { return FS.Err(FS.ZeroAmount); }
      ForceApprove(tokenIn, step.router, amountIn);
      var beforeOut := Balance(chain.ledger, tokenOut, self);
      var called := FS.CallRouter(chain.ledger, self, tokenIn, step.router, amountIn, reply);
      if called.Err? { return FS.Err(called.error); }
      chain.ledger := called.value;
      if |reply.amounts| == 0 { return FS.Err(FS.StepExecutionFailed); }
      var amountOut := reply.amounts[|reply.amounts| - 1];
      var afterOut := Balance(chain.ledger, tokenOut, self);
      if afterOut < beforeOut { return FS.Err(FS.StepExecutionFailed); }
      var balanceDiff := afterOut - beforeOut;
      if balanceDiff > amountOut { amountOut := balanceDiff; }
      if amountOut < step.minOut { return FS.Err(FS.StepExecutionFailed); }
      r := FS.Ok(());
    }

    /** Raises the approval only when it is short, resetting a non-zero one first. */
    method ForceApprove(token: Address, spender: Address, amount: nat)
      modifies chain
      ensures chain.pairs == old(chain.pairs)
      ensures chain.ledger == FS.ForceApprove(old(chain.ledger), token, spender, amount)
    {
      var current := Allowance(chain.ledger, token, spender);
      if current >= amount { return; }
      if current != 0 {
        chain.ledger := Approve(chain.ledger, token, spender, 0);
      }
      chain.ledger := Approve(chain.ledger, token, spender, amount);
      assert chain.ledger.allowances == old(chain.ledger).allowances[(token, spender) := amount];
    }

    method SettleV2PairDebt(ctx: FS.Context, amount0: nat, amount1: nat) returns (r: FS.Result<()>)
      modifies chain
      ensures match FS.SettleV2PairDebt(old(World()), self, ctx, amount0, amount1)
              case Ok(w) => r.Ok? && World() == w
              case Err(e) => r == FS.Err(e)
    {
      hide FS.RepaymentAmountIn, FS.TransferToken;
      if ctx.pair !in chain.pairs { return FS.Err(FS.PairMissing); }
      var borrowed := if amount0 > 0 then amount0 else amount1;
      if borrowed == 0 { borrowed := ctx.borrowAmount; }
      var repayment := FS.RepaymentAmountIn(chain.pairs[ctx.pair], ctx.borrowToken, ctx.profitToken, borrowed);
      if repayment.Err? { return FS.Err(repayment.error); }
      var moved := FS.TransferToken(chain.ledger, self, ctx.profitToken, ctx.pair, repayment.value);
      if moved.Err? { return FS.Err(moved.error); }
      chain.ledger := moved.value;
      r := FS.Ok(());
    }

    method FinalizeExecution(ctx: FS.Context, grossProfit: nat) returns (r: FS.Result<()>)
      modifies this`executionInProgress, this`activeExecutionId, chain
      ensures match FS.FinalizeExecution(old(World()), self, ctx, grossProfit)
              case Ok(w) => r.Ok? && World() == w
              case Err(e) => r == FS.Err(e)
    {
      hide FS.TransferToken;
      if grossProfit > 0 && ctx.profitRecipient != self {
        var moved := FS.TransferToken(chain.ledger, self, ctx.profitToken, ctx.profitRecipient, grossProfit);
        if moved.Err? { return FS.Err(moved.error); }
        chain.ledger := moved.value;
      }
      executionInProgress := false;
      activeExecutionId := 0;
      r := FS.Ok(());
    }
  }

  /** A failing prefix fails the whole list with the same error. */
  lemma {:induction false} ErrorSticks(l: Ledger, me: Address, steps: seq<FS.SwapStep>, replies: FS.Market, i: nat)
    requires i <= |steps| && FS.ExecuteSteps(l, me, steps[..i], replies).Err?
    ensures FS.ExecuteSteps(l, me, steps, replies) == FS.Err(FS.ExecuteSteps(l, me, steps[..i], replies).error)
    decreases |steps|
  {
    hide FS.ExecuteStep;
    if i == |steps| {
      assert steps[..i] == steps;
    } else {
      var n := |steps| - 1;
      assert steps[..n][..i] == steps[..i];
      ErrorSticks(l, me, steps[..n], replies, i);
    }
  }
}
