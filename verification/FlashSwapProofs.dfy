/** What every flash-swap transaction guarantees, over step lists of any length. */
module FlashSwapProofs {
  import opened Arithmetic
  import opened Options
  import opened Ledger
  import opened FlashSwap
  import Repayment

  // ---------------------------------------------------------------- the market around the executor

  /** A reply that trades on venues: nothing is taken from the executor beyond the pull, and the guarded
      account is neither debited nor credited. */
  predicate Spares(reply: RouterReply, me: Address, guarded: Address) {
    reply.Fills? ==>
      && reply.pullTo != guarded
      && forall m :: m in reply.moves ==> m.from != me && m.from != guarded && m.to != guarded
  }

  ghost predicate MarketSpares(replies: Market, n: nat, me: Address, guarded: Address) {
    forall i: nat :: i < n ==> Spares(replies(i), me, guarded)
  }

  // ---------------------------------------------------------------- one router call

  lemma {:induction false} MovesConserve(l: Ledger, moves: seq<Move>, t: Address)
    ensures MoveAll(l, moves).Ok? ==>
              && Supply(MoveAll(l, moves).value, t) == Supply(l, t)
              && MoveAll(l, moves).value.allowances == l.allowances
    decreases |moves|
  {
    hide Supply, Transfer;
    if moves != [] {
      var m := moves[0];
      var next := Transfer(l, m.token, m.from, m.to, m.amount);
      if next.Some? {
        TransferConserves(l, m.token, m.from, m.to, m.amount, t);
        TransferBalance(l, m.token, m.from, m.to, m.amount, t, m.from);
        MovesConserve(next.value, moves[1..], t);
      }
    }
  }

  lemma {:induction false} MovesSpare(l: Ledger, moves: seq<Move>, t: Address, who: Address)
    requires forall m :: m in moves ==> m.from != who && m.to != who
    ensures MoveAll(l, moves).Ok? ==> Balance(MoveAll(l, moves).value, t, who) == Balance(l, t, who)
    decreases |moves|
  {
    hide Transfer, Balance;
    if moves != [] {
      var m := moves[0];
      var next := Transfer(l, m.token, m.from, m.to, m.amount);
      if next.Some? {
        TransferBalance(l, m.token, m.from, m.to, m.amount, t, who);
        MovesSpare(next.value, moves[1..], t, who);
      }
    }
  }

  /** A router step conserves every token and never leaves a router with a larger standing approval. */
  lemma StepConserves(l: Ledger, me: Address, step: SwapStep, reply: RouterReply, t: Address, spender: Address)
    ensures var r := ExecuteStep(l, me, step, reply);
            r.Ok? ==> Supply(r.value, t) == Supply(l, t)
                      && Allowance(r.value, t, spender) <= Allowance(l, t, spender)
  {
    hide Supply, Transfer, MoveAll, Balance;
    var r := ExecuteStep(l, me, step, reply);
    if r.Ok? {
      var tokenIn := step.path[0];
      var amount := CurrentAmountIn(l, me, step.amountIn, tokenIn);
      var approved := ForceApprove(l, tokenIn, step.router, amount);
      var spent := Approve(approved, tokenIn, step.router, Allowance(approved, tokenIn, step.router) - amount);
      SupplyIgnoresAllowances(l, spent, t);
      TransferConserves(spent, tokenIn, me, reply.pullTo, amount, t);
      TransferBalance(spent, tokenIn, me, reply.pullTo, amount, t, me);
      MovesConserve(Transfer(spent, tokenIn, me, reply.pullTo, amount).value, reply.moves, t);
    }
  }

  lemma SupplyIgnoresAllowances(l: Ledger, m: Ledger, t: Address)
    requires l.balances == m.balances
    ensures Supply(l, t) == Supply(m, t)
  {
    hide Held;
    HeldIgnoresAllowances(l, m, t, TWO_160);
  }

  lemma StepSpares(l: Ledger, me: Address, step: SwapStep, reply: RouterReply, t: Address, who: Address)
    requires who != me && Spares(reply, me, who)
    ensures var r := ExecuteStep(l, me, step, reply);
            r.Ok? ==> Balance(r.value, t, who) == Balance(l, t, who)
  {
    hide Transfer, MoveAll;
    var r := ExecuteStep(l, me, step, reply);
    if r.Ok? {
      var tokenIn := step.path[0];
      var amount := CurrentAmountIn(l, me, step.amountIn, tokenIn);
      var approved := ForceApprove(l, tokenIn, step.router, amount);
      var spent := Approve(approved, tokenIn, step.router, Allowance(approved, tokenIn, step.router) - amount);
      TransferBalance(spent, tokenIn, me, reply.pullTo, amount, t, who);
      MovesSpare(Transfer(spent, tokenIn, me, reply.pullTo, amount).value, reply.moves, t, who);
    }
  }

  /** An exact-in step: when the market sends the executor nothing in the input token, the executor pays
      exactly the amount asked for, or its whole balance when asked for the largest word. */
  lemma StepPaysExactInput(l: Ledger, me: Address, step: SwapStep, reply: RouterReply)
    requires |step.path| > 0 && ExecuteStep(l, me, step, reply).Ok?
    requires reply.Fills? && reply.pullTo != me
    requires forall m :: m in reply.moves ==> m.from != me
    requires forall m :: m in reply.moves && m.token == step.path[0] ==> m.to != me
    ensures var paid := if step.amountIn == MAX_U256 then Balance(l, step.path[0], me) else step.amountIn;
            && paid > 0
            && Balance(ExecuteStep(l, me, step, reply).value, step.path[0], me)
               == Balance(l, step.path[0], me) - paid
  {
    hide Transfer, MoveAll;
    var tokenIn := step.path[0];
    var amount := CurrentAmountIn(l, me, step.amountIn, tokenIn);
    var approved := ForceApprove(l, tokenIn, step.router, amount);
    var spent := Approve(approved, tokenIn, step.router, Allowance(approved, tokenIn, step.router) - amount);
    TransferBalance(spent, tokenIn, me, reply.pullTo, amount, tokenIn, me);
    MovesLeaveToken(Transfer(spent, tokenIn, me, reply.pullTo, amount).value, reply.moves, tokenIn, me);
  }

  /** What the step does to approvals: one that covers the amount is drawn on, a smaller one is replaced by the exact
      amount and used up, and no other changes. */
  lemma StepSpendsAllowance(l: Ledger, me: Address, step: SwapStep, reply: RouterReply, t: Address, spender: Address)
    requires |step.path| > 0 && ExecuteStep(l, me, step, reply).Ok?
    ensures var paid := if step.amountIn == MAX_U256 then Balance(l, step.path[0], me) else step.amountIn;
            var before := Allowance(l, t, spender);
            Allowance(ExecuteStep(l, me, step, reply).value, t, spender)
            == if (t, spender) != (step.path[0], step.router) then before
               else if before >= paid then before - paid else 0
  {
    hide Transfer, MoveAll, Balance, Supply;
    var tokenIn := step.path[0];
    var amount := CurrentAmountIn(l, me, step.amountIn, tokenIn);
    var approved := ForceApprove(l, tokenIn, step.router, amount);
    var spent := Approve(approved, tokenIn, step.router, Allowance(approved, tokenIn, step.router) - amount);
    TransferBalance(spent, tokenIn, me, reply.pullTo, amount, tokenIn, me);
    MovesConserve(Transfer(spent, tokenIn, me, reply.pullTo, amount).value, reply.moves, t);
  }

  /** Without an approval a router gets nothing. */
  lemma UnapprovedCannotPull(l: Ledger, me: Address, token: Address, router: Address, amount: nat, reply: RouterReply)
    requires (token, router) !in l.allowances && amount > 0
    ensures CallRouter(l, me, token, router, amount, reply) == Err(RouterReverted)
  {}

  lemma {:induction false} MovesLeaveToken(l: Ledger, moves: seq<Move>, t: Address, who: Address)
    requires forall m :: m in moves && m.token == t ==> m.from != who && m.to != who
    ensures MoveAll(l, moves).Ok? ==> Balance(MoveAll(l, moves).value, t, who) == Balance(l, t, who)
    decreases |moves|
  {
    hide Transfer, Balance;
    if moves != [] {
      var m := moves[0];
      var next := Transfer(l, m.token, m.from, m.to, m.amount);
      if next.Some? {
        TransferBalance(l, m.token, m.from, m.to, m.amount, t, who);
        MovesLeaveToken(next.value, moves[1..], t, who);
      }
    }
  }

  // ---------------------------------------------------------------- all steps

  lemma {:induction false} StepsConserve(l: Ledger, me: Address, steps: seq<SwapStep>, replies: Market, t: Address,
                                         spender: Address)
    ensures var r := ExecuteSteps(l, me, steps, replies);
            r.Ok? ==> Supply(r.value, t) == Supply(l, t)
                      && Allowance(r.value, t, spender) <= Allowance(l, t, spender)
  {
    hide Supply, ExecuteStep, Allowance;
    if steps != [] {
      var n := |steps| - 1;
      StepsConserve(l, me, steps[..n], replies, t, spender);
      var r := ExecuteSteps(l, me, steps[..n], replies);
      if r.Ok? { StepConserves(r.value, me, steps[n], replies(n), t, spender); }
    }
  }

  lemma {:induction false} StepsSpare(l: Ledger, me: Address, steps: seq<SwapStep>, replies: Market, t: Address,
                                      who: Address)
    requires who != me && MarketSpares(replies, |steps|, me, who)
    ensures var r := ExecuteSteps(l, me, steps, replies);
            r.Ok? ==> Balance(r.value, t, who) == Balance(l, t, who)
  {
    hide ExecuteStep, Balance, Spares;
    if steps != [] {
      var n := |steps| - 1;
      StepsSpare(l, me, steps[..n], replies, t, who);
      var r := ExecuteSteps(l, me, steps[..n], replies);
      if r.Ok? { StepSpares(r.value, me, steps[n], replies(n), t, who); }
    }
  }

  // ---------------------------------------------------------------- the stages of a committed transaction

  /** The ledgers a committed transaction passes through. */
  datatype Stages = Stages(lent: Ledger, traded: Ledger, repayment: nat, repaid: Ledger, gross: nat, paid: Ledger)

  function Out(ctx: Context, token: Address): nat { if ctx.borrowToken == token then ctx.borrowAmount else 0 }

  ghost predicate Follows(w: World, me: Address, ctx: Context, replies: Market, s: Stages, w': World) {
    && ctx.pair in w.pairs
    && var p := w.pairs[ctx.pair];
    && !w.control.executionInProgress
    && me != p.token0 && me != p.token1
    && (ctx.borrowToken == p.token0 || ctx.borrowToken == p.token1)
    && Out(ctx, p.token0) < p.reserve0 && Out(ctx, p.token1) < p.reserve1
    && (var l0 := SendOut(w.ledger, ctx.pair, p.token0, me, Out(ctx, p.token0));
        l0.Ok? && SendOut(l0.value, ctx.pair, p.token1, me, Out(ctx, p.token1)) == Ok(s.lent))
    && ExecuteSteps(s.lent, me, ctx.steps, replies) == Ok(s.traded)
    && RepaymentAmountIn(p, ctx.borrowToken, ctx.profitToken, ctx.borrowAmount) == Ok(s.repayment)
    && TransferToken(s.traded, me, ctx.profitToken, ctx.pair, s.repayment) == Ok(s.repaid)
    && s.gross == Max(Balance(s.repaid, ctx.profitToken, me) - Balance(s.lent, ctx.profitToken, me), 0)
    && s.gross >= ctx.minProfit
    && (if s.gross > 0 && ctx.profitRecipient != me
        then TransferToken(s.repaid, me, ctx.profitToken, ctx.profitRecipient, s.gross) == Ok(s.paid)
        else s.paid == s.repaid)
    && CloseSwap(World(s.paid, w.pairs, Unlocked(w.control)), ctx.pair, Out(ctx, p.token0), Out(ctx, p.token1))
       == Ok(w')
  }

  /** Every committed transaction passes through exactly these stages, in this order. */
  lemma CommitStages(w: World, me: Address, operator: Address, ctx: Context, replies: Market) returns (s: Stages)
    requires StartV2FlashSwap(w, me, operator, ctx, replies).Ok?
    ensures Follows(w, me, ctx, replies, s, StartV2FlashSwap(w, me, operator, ctx, replies).value)
  {
    hide SendOut, ExecuteSteps, RepaymentAmountIn, TransferToken, CloseSwap, ValidateV2Steps;
    var p := w.pairs[ctx.pair];
    var out0, out1 := Out(ctx, p.token0), Out(ctx, p.token1);
    var begun := w.(control := w.control.(executionInProgress := true, activeExecutionId := ctx.executionId));
    assert PairSwap(begun, me, ctx.pair, out0, out1, ctx, replies).Ok?;
    var l0 := SendOut(w.ledger, ctx.pair, p.token0, me, out0).value;
    var lent := SendOut(l0, ctx.pair, p.token1, me, out1).value;
    var traded := ExecuteSteps(lent, me, ctx.steps, replies).value;
    var repayment := RepaymentAmountIn(p, ctx.borrowToken, ctx.profitToken, ctx.borrowAmount).value;
    var repaid := TransferToken(traded, me, ctx.profitToken, ctx.pair, repayment).value;
    var gross := Max(Balance(repaid, ctx.profitToken, me) - Balance(lent, ctx.profitToken, me), 0);
    var paid := if gross > 0 && ctx.profitRecipient != me
                then TransferToken(repaid, me, ctx.profitToken, ctx.profitRecipient, gross).value else repaid;
    s := Stages(lent, traded, repayment, repaid, gross, paid);
  }

  lemma PayConserves(l: Ledger, me: Address, token: Address, to: Address, amount: nat, t: Address)
    ensures TransferToken(l, me, token, to, amount).Ok? ==>
              && Supply(TransferToken(l, me, token, to, amount).value, t) == Supply(l, t)
              && TransferToken(l, me, token, to, amount).value.allowances == l.allowances
  {
    hide Supply, Transfer;
    if Transfer(l, token, me, to, amount).Some? {
      TransferConserves(l, token, me, to, amount, t);
      TransferBalance(l, token, me, to, amount, t, me);
    }
  }

  lemma PayMoves(l: Ledger, me: Address, token: Address, to: Address, amount: nat, t: Address, who: Address)
    ensures TransferToken(l, me, token, to, amount).Ok? ==>
              Balance(TransferToken(l, me, token, to, amount).value, t, who)
              == Balance(l, t, who) - (if t == token && who == me then amount else 0)
                                    + (if t == token && who == to then amount else 0)
  {
    hide Transfer, Balance;
    if Transfer(l, token, me, to, amount).Some? { TransferBalance(l, token, me, to, amount, t, who); }
  }

  lemma LendMoves(l: Ledger, pair: Address, token: Address, to: Address, amount: nat, t: Address, who: Address)
    ensures SendOut(l, pair, token, to, amount).Ok? ==>
              && Supply(SendOut(l, pair, token, to, amount).value, t) == Supply(l, t)
              && SendOut(l, pair, token, to, amount).value.allowances == l.allowances
              && Balance(SendOut(l, pair, token, to, amount).value, t, who)
                 == Balance(l, t, who) - (if t == token && who == pair then amount else 0)
                                       + (if t == token && who == to then amount else 0)
  {
    hide Supply, Transfer, Balance;
    if Transfer(l, token, pair, to, amount).Some? {
      TransferConserves(l, token, pair, to, amount, t);
      TransferBalance(l, token, pair, to, amount, t, who);
    }
  }

  // ---------------------------------------------------------------- the theorems

  /** Conservation: a transaction that commits leaves every token's total over all holders unchanged, and
      leaves no router with a larger approval than it had. */
  lemma FlashSwapConserves(w: World, me: Address, operator: Address, ctx: Context, replies: Market, t: Address,
                           spender: Address)
    requires StartV2FlashSwap(w, me, operator, ctx, replies).Ok?
    ensures var w' := StartV2FlashSwap(w, me, operator, ctx, replies).value;
            Supply(w'.ledger, t) == Supply(w.ledger, t)
            && Allowance(w'.ledger, t, spender) <= Allowance(w.ledger, t, spender)
  {
    hide StartV2FlashSwap, Supply, SendOut, ExecuteSteps, RepaymentAmountIn, TransferToken, Balance, KHolds;
    var s := CommitStages(w, me, operator, ctx, replies);
    var p := w.pairs[ctx.pair];
    LendMoves(w.ledger, ctx.pair, p.token0, me, Out(ctx, p.token0), t, me);
    LendMoves(SendOut(w.ledger, ctx.pair, p.token0, me, Out(ctx, p.token0)).value,
              ctx.pair, p.token1, me, Out(ctx, p.token1), t, me);
    StepsConserve(s.lent, me, ctx.steps, replies, t, spender);
    PayConserves(s.traded, me, ctx.profitToken, ctx.pair, s.repayment, t);
    PayConserves(s.repaid, me, ctx.profitToken, ctx.profitRecipient, s.gross, t);
  }

  /** The lock: no transaction commits while another execution is in progress, and one that commits leaves
      the lock open, the active id cleared, and every allowlist as it was. */
  lemma FlashSwapClearsLock(w: World, me: Address, operator: Address, ctx: Context, replies: Market)
    requires StartV2FlashSwap(w, me, operator, ctx, replies).Ok?
    ensures var w' := StartV2FlashSwap(w, me, operator, ctx, replies).value;
            && !w.control.executionInProgress
            && !w'.control.executionInProgress && w'.control.activeExecutionId == 0
            && w'.control == Unlocked(w.control)
  {
    hide StartV2FlashSwap, SendOut, ExecuteSteps, RepaymentAmountIn, TransferToken, Balance, KHolds;
    var s := CommitStages(w, me, operator, ctx, replies);
  }

  /** The pair is made whole: at the end its recorded reserves are its balances, they pass the
      fee-adjusted check against the old reserves, their product has not fallen, and no other pair moved. */
  lemma FlashSwapMakesPairWhole(w: World, me: Address, operator: Address, ctx: Context, replies: Market)
    requires StartV2FlashSwap(w, me, operator, ctx, replies).Ok?
    ensures var w' := StartV2FlashSwap(w, me, operator, ctx, replies).value;
            && ctx.pair in w.pairs && w'.pairs == w.pairs[ctx.pair := w'.pairs[ctx.pair]]
            && var p, q := w.pairs[ctx.pair], w'.pairs[ctx.pair];
            && (q.token0, q.token1) == (p.token0, p.token1)
            && q.reserve0 == Balance(w'.ledger, p.token0, ctx.pair)
            && q.reserve1 == Balance(w'.ledger, p.token1, ctx.pair)
            && KHolds(q.reserve0, q.reserve1, PaidIn(q.reserve0, p.reserve0, Out(ctx, p.token0)),
                      PaidIn(q.reserve1, p.reserve1, Out(ctx, p.token1)), p.reserve0, p.reserve1)
            && q.reserve0 * q.reserve1 >= p.reserve0 * p.reserve1
  {
    hide StartV2FlashSwap, SendOut, ExecuteSteps, RepaymentAmountIn, TransferToken, Balance, KHolds;
    var s := CommitStages(w, me, operator, ctx, replies);
    var w' := StartV2FlashSwap(w, me, operator, ctx, replies).value;
    var p, q := w.pairs[ctx.pair], w'.pairs[ctx.pair];
    Repayment.KKeepsProduct(q.reserve0, q.reserve1, PaidIn(q.reserve0, p.reserve0, Out(ctx, p.token0)),
                            PaidIn(q.reserve1, p.reserve1, Out(ctx, p.token1)), p.reserve0, p.reserve1);
  }

  /** The payout. For a recipient apart from the executor, the pair and the venues: its profit-token balance
      rises by some profit no smaller than asked for, its other balances stay put, and, whenever there is
      a profit, the executor ends with exactly the profit-token balance it held when the callback began,
      which is its starting balance plus the loan if the loan was in that token. Without a profit the
      executor ends no richer than that. */
  lemma FlashSwapPaysProfit(w: World, me: Address, operator: Address, ctx: Context, replies: Market)
    requires StartV2FlashSwap(w, me, operator, ctx, replies).Ok?
    requires ctx.profitRecipient != me && ctx.profitRecipient != ctx.pair && ctx.pair != me
    requires MarketSpares(replies, |ctx.steps|, me, ctx.profitRecipient)
    requires ctx.pair in w.pairs && w.pairs[ctx.pair].token0 != w.pairs[ctx.pair].token1
    ensures var w' := StartV2FlashSwap(w, me, operator, ctx, replies).value;
            var profit := Balance(w'.ledger, ctx.profitToken, ctx.profitRecipient)
                          - Balance(w.ledger, ctx.profitToken, ctx.profitRecipient);
            var entry := Balance(w.ledger, ctx.profitToken, me)
                         + (if ctx.profitToken == ctx.borrowToken then ctx.borrowAmount else 0);
            && profit >= ctx.minProfit
            && (profit > 0 ==> Balance(w'.ledger, ctx.profitToken, me) == entry)
            && (profit == 0 ==> Balance(w'.ledger, ctx.profitToken, me) <= entry)
            && forall t :: t != ctx.profitToken ==>
                 Balance(w'.ledger, t, ctx.profitRecipient) == Balance(w.ledger, t, ctx.profitRecipient)
  {
    hide StartV2FlashSwap, Supply, SendOut, ExecuteSteps, RepaymentAmountIn, TransferToken, Balance, KHolds, Spares;
    var s := CommitStages(w, me, operator, ctx, replies);
    var w' := StartV2FlashSwap(w, me, operator, ctx, replies).value;
    var p, r := w.pairs[ctx.pair], ctx.profitRecipient;
    assert w'.ledger == s.paid;
    forall t
      ensures Balance(s.repaid, t, r) == Balance(w.ledger, t, r)
      ensures Balance(s.paid, t, r) == Balance(w.ledger, t, r) + (if t == ctx.profitToken then s.gross else 0)
    {
      RecipientOnlyPaidAtEnd(w, me, ctx, replies, s, w', t);
      PayMoves(s.repaid, me, ctx.profitToken, r, s.gross, t, r);
    }
    LentTo(w, me, ctx, s.lent, ctx.profitToken, me);
    PayMoves(s.repaid, me, ctx.profitToken, r, s.gross, ctx.profitToken, me);
  }

  // ---------------------------------------------------------------- when the profit is too small

  /** A transaction whose guards pass, up to the repayment. */
  ghost predicate Settles(w: World, me: Address, operator: Address, ctx: Context, replies: Market, s: Stages) {
    && operator in w.control.authorizedOperators
    && ctx.pair != 0 && ctx.borrowToken != 0 && ctx.profitToken != 0 && ctx.profitRecipient != 0
    && ctx.borrowAmount != 0
    && ctx.pair in w.control.allowedV2Pairs && ctx.borrowToken in w.control.allowedBorrowTokens
    && ValidateV2Steps(w.control, ctx.steps).Ok?
    && ctx.pair in w.pairs && ctx.pair != me
    && var p := w.pairs[ctx.pair];
    && !w.control.executionInProgress
    && p.token0 != p.token1 && me != p.token0 && me != p.token1
    && (ctx.borrowToken == p.token0 || ctx.borrowToken == p.token1)
    && Out(ctx, p.token0) < p.reserve0 && Out(ctx, p.token1) < p.reserve1
    && (var l0 := SendOut(w.ledger, ctx.pair, p.token0, me, Out(ctx, p.token0));
        l0.Ok? && SendOut(l0.value, ctx.pair, p.token1, me, Out(ctx, p.token1)) == Ok(s.lent))
    && ExecuteSteps(s.lent, me, ctx.steps, replies) == Ok(s.traded)
    && RepaymentAmountIn(p, ctx.borrowToken, ctx.profitToken, ctx.borrowAmount) == Ok(s.repayment)
    && TransferToken(s.traded, me, ctx.profitToken, ctx.pair, s.repayment) == Ok(s.repaid)
  }

  /** Then it reverts for want of profit exactly when a positive minimum was asked for and the trades left the
      executor less than it held when they began, plus the repayment, plus that minimum. */
  lemma ProfitGate(w: World, me: Address, operator: Address, ctx: Context, replies: Market, s: Stages)
    requires Settles(w, me, operator, ctx, replies, s)
    ensures StartV2FlashSwap(w, me, operator, ctx, replies) == Err(ProfitBelowMinimum)
            <==> ctx.minProfit > 0
                 && Balance(s.traded, ctx.profitToken, me)
                    < Balance(s.lent, ctx.profitToken, me) + s.repayment + ctx.minProfit
  {
    hide SendOut, ExecuteSteps, RepaymentAmountIn, TransferToken, ValidateV2Steps, CloseSwap, Balance;
    var p := w.pairs[ctx.pair];
    var out0, out1 := Out(ctx, p.token0), Out(ctx, p.token1);
    var begun := w.(control := w.control.(executionInProgress := true, activeExecutionId := ctx.executionId));
    assert StartV2FlashSwap(w, me, operator, ctx, replies) == PairSwap(begun, me, ctx.pair, out0, out1, ctx, replies);
    hide StartV2FlashSwap;
    PayMoves(s.traded, me, ctx.profitToken, ctx.pair, s.repayment, ctx.profitToken, me);
    CloseErrors(w, ctx, out0, out1);
    if Balance(s.repaid, ctx.profitToken, me) > Balance(s.lent, ctx.profitToken, me) {
      GrossIsThere(s.repaid, me, ctx.profitToken, ctx.profitRecipient,
                   Balance(s.repaid, ctx.profitToken, me) - Balance(s.lent, ctx.profitToken, me));
    }
  }

  lemma CloseErrors(w: World, ctx: Context, out0: nat, out1: nat)
    ensures forall w': World :: ctx.pair in w'.pairs ==> CloseSwap(w', ctx.pair, out0, out1) != Err(ProfitBelowMinimum)
  {
    hide KHolds, Balance;
  }

  lemma GrossIsThere(l: Ledger, me: Address, token: Address, to: Address, gross: nat)
    requires gross <= Balance(l, token, me)
    ensures TransferToken(l, me, token, to, gross).Ok?
  {}

  /** With the profit in the borrowed token the loan itself is part of that starting balance: the trades must leave
      the executor the whole loan on top of the repayment and the minimum, so a loan that earns its minimum over
      the repayment, and no more than the loan besides, reverts. */
  lemma SameTokenGate(w: World, me: Address, operator: Address, ctx: Context, replies: Market, s: Stages)
    requires Settles(w, me, operator, ctx, replies, s) && ctx.profitToken == ctx.borrowToken
    ensures StartV2FlashSwap(w, me, operator, ctx, replies) == Err(ProfitBelowMinimum)
            <==> ctx.minProfit > 0
                 && Balance(s.traded, ctx.profitToken, me)
                    < Balance(w.ledger, ctx.profitToken, me) + ctx.borrowAmount + s.repayment + ctx.minProfit
  {
    hide StartV2FlashSwap, SendOut, ExecuteSteps, RepaymentAmountIn, TransferToken, Balance, ValidateV2Steps;
    ProfitGate(w, me, operator, ctx, replies, s);
    LentTo(w, me, ctx, s.lent, ctx.profitToken, me);
  }

  /** The loan arrives with the executor and leaves the pair; no one else's balance moves. */
  lemma LentTo(w: World, me: Address, ctx: Context, lent: Ledger, t: Address, who: Address)
    requires ctx.pair in w.pairs && ctx.pair != me
    requires var p := w.pairs[ctx.pair];
             && p.token0 != p.token1
             && (ctx.borrowToken == p.token0 || ctx.borrowToken == p.token1)
             && (var l0 := SendOut(w.ledger, ctx.pair, p.token0, me, Out(ctx, p.token0));
                 l0.Ok? && SendOut(l0.value, ctx.pair, p.token1, me, Out(ctx, p.token1)) == Ok(lent))
    ensures Balance(lent, t, who) == Balance(w.ledger, t, who)
              - (if t == ctx.borrowToken && who == ctx.pair then ctx.borrowAmount else 0)
              + (if t == ctx.borrowToken && who == me then ctx.borrowAmount else 0)
  {
    hide SendOut, Balance, Supply;
    var p := w.pairs[ctx.pair];
    LendMoves(w.ledger, ctx.pair, p.token0, me, Out(ctx, p.token0), t, who);
    LendMoves(SendOut(w.ledger, ctx.pair, p.token0, me, Out(ctx, p.token0)).value,
              ctx.pair, p.token1, me, Out(ctx, p.token1), t, who);
  }

  lemma RecipientOnlyPaidAtEnd(w: World, me: Address, ctx: Context, replies: Market, s: Stages, w': World, t: Address)
    requires Follows(w, me, ctx, replies, s, w')
    requires ctx.profitRecipient != me && ctx.profitRecipient != ctx.pair && ctx.pair != me
    requires MarketSpares(replies, |ctx.steps|, me, ctx.profitRecipient)
    requires w.pairs[ctx.pair].token0 != w.pairs[ctx.pair].token1
    ensures Balance(s.repaid, t, ctx.profitRecipient) == Balance(w.ledger, t, ctx.profitRecipient)
  {
    hide SendOut, ExecuteSteps, RepaymentAmountIn, TransferToken, Balance, KHolds, Spares, CloseSwap;
    LentTo(w, me, ctx, s.lent, t, ctx.profitRecipient);
    StepsSpare(s.lent, me, ctx.steps, replies, t, ctx.profitRecipient);
    PayMoves(s.traded, me, ctx.profitToken, ctx.pair, s.repayment, t, ctx.profitRecipient);
  }

  // ---------------------------------------------------------------- the check never bites

  /** No venue takes anything from this account; they may pay into it. */
  ghost predicate MarketLeaves(replies: Market, n: nat, who: Address) {
    forall i: nat :: i < n ==> NeverDebits(replies(i), who)
  }

  predicate NeverDebits(reply: RouterReply, who: Address) {
    reply.Fills? ==> forall m :: m in reply.moves ==> m.from != who
  }

  lemma {:induction false} MovesLeave(l: Ledger, moves: seq<Move>, t: Address, who: Address)
    requires forall m :: m in moves ==> m.from != who
    ensures MoveAll(l, moves).Ok? ==> Balance(MoveAll(l, moves).value, t, who) >= Balance(l, t, who)
    decreases |moves|
  {
    hide Transfer, Balance;
    if moves != [] {
      var m := moves[0];
      var next := Transfer(l, m.token, m.from, m.to, m.amount);
      if next.Some? {
        TransferBalance(l, m.token, m.from, m.to, m.amount, t, who);
        MovesLeave(next.value, moves[1..], t, who);
      }
    }
  }

  lemma StepLeaves(l: Ledger, me: Address, step: SwapStep, reply: RouterReply, t: Address, who: Address)
    requires who != me && NeverDebits(reply, who)
    ensures var r := ExecuteStep(l, me, step, reply);
            r.Ok? ==> Balance(r.value, t, who) >= Balance(l, t, who)
  {
    hide Transfer, MoveAll;
    var r := ExecuteStep(l, me, step, reply);
    if r.Ok? {
      var tokenIn := step.path[0];
      var amount := CurrentAmountIn(l, me, step.amountIn, tokenIn);
      var approved := ForceApprove(l, tokenIn, step.router, amount);
      var spent := Approve(approved, tokenIn, step.router, Allowance(approved, tokenIn, step.router) - amount);
      TransferBalance(spent, tokenIn, me, reply.pullTo, amount, t, who);
      MovesLeave(Transfer(spent, tokenIn, me, reply.pullTo, amount).value, reply.moves, t, who);
    }
  }

  lemma {:induction false} StepsLeave(l: Ledger, me: Address, steps: seq<SwapStep>, replies: Market, t: Address,
                                      who: Address)
    requires who != me && MarketLeaves(replies, |steps|, who)
    ensures var r := ExecuteSteps(l, me, steps, replies);
            r.Ok? ==> Balance(r.value, t, who) >= Balance(l, t, who)
  {
    hide ExecuteStep, Balance, NeverDebits;
    if steps != [] {
      var n := |steps| - 1;
      StepsLeave(l, me, steps[..n], replies, t, who);
      var r := ExecuteSteps(l, me, steps[..n], replies);
      if r.Ok? { StepLeaves(r.value, me, steps[n], replies(n), t, who); }
    }
  }

  /** The repayment is always enough: if the pair held at least its reserves to begin with and no venue takes
      from it, no transaction ever reverts on the pair's own checks of what was paid in. */
  lemma FlashSwapNeverFailsK(w: World, me: Address, operator: Address, ctx: Context, replies: Market)
    requires ctx.pair in w.pairs && ctx.pair != me
    requires MarketLeaves(replies, |ctx.steps|, ctx.pair)
    requires var p := w.pairs[ctx.pair];
             && p.token0 != p.token1
             && p.reserve0 <= Balance(w.ledger, p.token0, ctx.pair)
             && p.reserve1 <= Balance(w.ledger, p.token1, ctx.pair)
    ensures var r := StartV2FlashSwap(w, me, operator, ctx, replies);
            r.Err? ==> r.error != PairK && r.error != PairNoInput
  {
    hide SendOut, ExecuteSteps, RepaymentAmountIn, TransferToken, Balance, KHolds, ValidateV2Steps;
    var r := StartV2FlashSwap(w, me, operator, ctx, replies);
    ErrorsNotOfThePair(w, me, ctx, replies);
    if r.Err? && (r.error == PairK || r.error == PairNoInput) {
      var s := StagesAtCheck(w, me, operator, ctx, replies);
      RepaidPairPasses(w, me, ctx, replies, s);
    }
  }

  /** None of the inner stages reports the pair's two payment errors. */
  lemma ErrorsNotOfThePair(w: World, me: Address, ctx: Context, replies: Market)
    ensures forall l, token, to, n: nat :: TransferToken(l, me, token, to, n).Err? ==>
              TransferToken(l, me, token, to, n).error == RepaymentFailed
    ensures forall l, pair, token, n: nat :: SendOut(l, pair, token, me, n).Err? ==>
              SendOut(l, pair, token, me, n).error == PairTransferFailed
    ensures forall p, b, t, n: nat :: RepaymentAmountIn(p, b, t, n).Err? ==>
              RepaymentAmountIn(p, b, t, n).error in {ArithmeticPanic, UnsupportedBorrowToken, RepaymentFailed}
    ensures forall c, steps :: ValidateV2Steps(c, steps).Err? ==>
              ValidateV2Steps(c, steps).error in {InvalidStep, InvalidPath, ZeroAmount}
    ensures forall l :: ExecuteSteps(l, me, ctx.steps, replies).Err? ==>
              ExecuteSteps(l, me, ctx.steps, replies).error in
                {ArithmeticPanic, ZeroAmount, RouterReverted, StepExecutionFailed}
  {
    hide Transfer, CheckedMul, Balance, ExecuteSteps, ValidateFrom;
    forall c, steps | ValidateV2Steps(c, steps).Err?
      ensures ValidateV2Steps(c, steps).error in {InvalidStep, InvalidPath, ZeroAmount}
    {
      if steps != [] { ValidateErrors(c, steps, 0); }
    }
    forall l { StepsErrors(l, me, ctx.steps, replies); }
    forall p, b, t, n: nat | RepaymentAmountIn(p, b, t, n).Err?
      ensures RepaymentAmountIn(p, b, t, n).error in {ArithmeticPanic, UnsupportedBorrowToken, RepaymentFailed}
    {
      RepaymentErrors(p, b, t, n);
    }
  }

  lemma RepaymentErrors(p: PairState, b: Address, t: Address, n: nat)
    ensures RepaymentAmountIn(p, b, t, n).Err? ==>
              RepaymentAmountIn(p, b, t, n).error in {ArithmeticPanic, UnsupportedBorrowToken, RepaymentFailed}
  {}

  lemma {:induction false} ValidateErrors(c: Control, steps: seq<SwapStep>, i: nat)
    requires i <= |steps|
    ensures ValidateFrom(c, steps, i).Err? ==> ValidateFrom(c, steps, i).error in {InvalidStep, InvalidPath, ZeroAmount}
    decreases |steps| - i
  {
    if i < |steps| { ValidateErrors(c, steps, i + 1); }
  }

  lemma {:induction false} StepsErrors(l: Ledger, me: Address, steps: seq<SwapStep>, replies: Market)
    ensures ExecuteSteps(l, me, steps, replies).Err? ==>
              ExecuteSteps(l, me, steps, replies).error
              in {ArithmeticPanic, ZeroAmount, RouterReverted, StepExecutionFailed}
  {
    hide Transfer, MoveAll;
    if steps != [] {
      var n := |steps| - 1;
      StepsErrors(l, me, steps[..n], replies);
      var r := ExecuteSteps(l, me, steps[..n], replies);
      if r.Ok? { StepErrors(r.value, me, steps[n], replies(n)); }
    }
  }

  lemma StepErrors(l: Ledger, me: Address, step: SwapStep, reply: RouterReply)
    ensures ExecuteStep(l, me, step, reply).Err? ==>
              ExecuteStep(l, me, step, reply).error
              in {ArithmeticPanic, ZeroAmount, RouterReverted, StepExecutionFailed}
  {
    hide Transfer, MoveAll, Balance;
    forall l', moves { MovesErrors(l', moves); }
  }

  lemma {:induction false} MovesErrors(l: Ledger, moves: seq<Move>)
    ensures MoveAll(l, moves).Err? ==> MoveAll(l, moves).error == RouterReverted
    decreases |moves|
  {
    hide Transfer;
    if moves != [] {
      var m := moves[0];
      var next := Transfer(l, m.token, m.from, m.to, m.amount);
      if next.Some? { MovesErrors(next.value, moves[1..]); }
    }
  }

  /** Everything up to the pair's own check went through. */
  ghost predicate ReachesCheck(w: World, me: Address, ctx: Context, replies: Market, s: Stages) {
    && ctx.pair in w.pairs
    && var p := w.pairs[ctx.pair];
    && (ctx.borrowToken == p.token0 || ctx.borrowToken == p.token1)
    && ctx.borrowAmount > 0
    && Out(ctx, p.token0) < p.reserve0 && Out(ctx, p.token1) < p.reserve1
    && (var l0 := SendOut(w.ledger, ctx.pair, p.token0, me, Out(ctx, p.token0));
        l0.Ok? && SendOut(l0.value, ctx.pair, p.token1, me, Out(ctx, p.token1)) == Ok(s.lent))
    && ExecuteSteps(s.lent, me, ctx.steps, replies) == Ok(s.traded)
    && RepaymentAmountIn(p, ctx.borrowToken, ctx.profitToken, ctx.borrowAmount) == Ok(s.repayment)
    && TransferToken(s.traded, me, ctx.profitToken, ctx.pair, s.repayment) == Ok(s.repaid)
    && (s.paid == s.repaid
        || TransferToken(s.repaid, me, ctx.profitToken, ctx.profitRecipient, s.gross) == Ok(s.paid))
  }

  lemma StagesAtCheck(w: World, me: Address, operator: Address, ctx: Context, replies: Market) returns (s: Stages)
    requires var r := StartV2FlashSwap(w, me, operator, ctx, replies);
             r.Err? && (r.error == PairK || r.error == PairNoInput)
    ensures ReachesCheck(w, me, ctx, replies, s)
    ensures var p := w.pairs[ctx.pair];
            CloseSwap(World(s.paid, w.pairs, Unlocked(w.control)), ctx.pair, Out(ctx, p.token0), Out(ctx, p.token1))
            == StartV2FlashSwap(w, me, operator, ctx, replies)
  {
    hide SendOut, ExecuteSteps, RepaymentAmountIn, TransferToken, ValidateV2Steps, CloseSwap, Balance, MarketLeaves;
    ErrorsNotOfThePair(w, me, ctx, replies);
    var p := w.pairs[ctx.pair];
    var out0, out1 := Out(ctx, p.token0), Out(ctx, p.token1);
    var begun := w.(control := w.control.(executionInProgress := true, activeExecutionId := ctx.executionId));
    assert StartV2FlashSwap(w, me, operator, ctx, replies) == PairSwap(begun, me, ctx.pair, out0, out1, ctx, replies);
    var l0 := SendOut(w.ledger, ctx.pair, p.token0, me, out0).value;
    var lent := SendOut(l0, ctx.pair, p.token1, me, out1).value;
    var called := UniswapV2Call(begun.(ledger := lent), me, ctx.pair, me, out0, out1, ctx, replies);
    assert called.Ok?;
    var traded := ExecuteSteps(lent, me, ctx.steps, replies).value;
    var repayment := RepaymentAmountIn(p, ctx.borrowToken, ctx.profitToken, ctx.borrowAmount).value;
    var repaid := TransferToken(traded, me, ctx.profitToken, ctx.pair, repayment).value;
    var gross := Max(Balance(repaid, ctx.profitToken, me) - Balance(lent, ctx.profitToken, me), 0);
    s := Stages(lent, traded, repayment, repaid, gross, called.value.ledger);
  }

  /** Once the repayment has arrived, the pair's check passes. */
  lemma RepaidPairPasses(w: World, me: Address, ctx: Context, replies: Market, s: Stages)
    requires ReachesCheck(w, me, ctx, replies, s)
    requires ctx.pair != me && MarketLeaves(replies, |ctx.steps|, ctx.pair)
    requires var p := w.pairs[ctx.pair];
             && p.token0 != p.token1
             && p.reserve0 <= Balance(w.ledger, p.token0, ctx.pair)
             && p.reserve1 <= Balance(w.ledger, p.token1, ctx.pair)
    ensures var p := w.pairs[ctx.pair];
            var b0, b1 := Balance(s.paid, p.token0, ctx.pair), Balance(s.paid, p.token1, ctx.pair);
            var p0, p1 := PaidIn(b0, p.reserve0, Out(ctx, p.token0)), PaidIn(b1, p.reserve1, Out(ctx, p.token1));
            (p0 > 0 || p1 > 0) && KHolds(b0, b1, p0, p1, p.reserve0, p.reserve1)
  {
    hide SendOut, ExecuteSteps, RepaymentAmountIn, TransferToken, Balance, KHolds, MarketLeaves;
    var p := w.pairs[ctx.pair];
    var surplus := (t: Address) => Balance(s.paid, t, ctx.pair) - Balance(w.ledger, t, ctx.pair)
                                   + (if t == ctx.borrowToken then ctx.borrowAmount else 0)
                                   - (if t == ctx.profitToken then s.repayment else 0);
    forall t: Address ensures surplus(t) >= 0 {
      LentTo(w, me, ctx, s.lent, t, ctx.pair);
      StepsLeave(s.lent, me, ctx.steps, replies, t, ctx.pair);
      PayMoves(s.traded, me, ctx.profitToken, ctx.pair, s.repayment, t, ctx.pair);
      PayMoves(s.repaid, me, ctx.profitToken, ctx.profitRecipient, s.gross, t, ctx.pair);
    }
    var d0 := Balance(w.ledger, p.token0, ctx.pair) - p.reserve0 + surplus(p.token0);
    var d1 := Balance(w.ledger, p.token1, ctx.pair) - p.reserve1 + surplus(p.token1);
    Repayment.RepaymentSatisfiesPair(p, ctx.borrowToken, ctx.profitToken, ctx.borrowAmount, s.repayment, d0, d1);
  }

  // ---------------------------------------------------------------- permissions and step guarantees

  /** Validation passes exactly for a non-empty list of steps through allowed routers, over at least two tokens,
      each with a positive minimum. */
  lemma ValidateMeans(c: Control, steps: seq<SwapStep>)
    ensures ValidateV2Steps(c, steps).Ok? <==>
            && steps != []
            && forall k :: 0 <= k < |steps| ==>
                 steps[k].router in c.allowedRouters && |steps[k].path| >= 2 && steps[k].minOut > 0
    ensures ValidateV2Steps(c, steps) == Err(InvalidStep) ==>
              steps == [] || exists k :: 0 <= k < |steps| && steps[k].router !in c.allowedRouters
  {
    ValidateFromMeans(c, steps, 0);
  }

  lemma {:induction false} ValidateFromMeans(c: Control, steps: seq<SwapStep>, i: nat)
    requires i <= |steps|
    ensures ValidateFrom(c, steps, i).Ok? <==>
            forall k :: i <= k < |steps| ==>
              steps[k].router in c.allowedRouters && |steps[k].path| >= 2 && steps[k].minOut > 0
    ensures (forall k :: i <= k < |steps| ==> steps[k].router in c.allowedRouters) ==>
              ValidateFrom(c, steps, i) != Err(InvalidStep)
    decreases |steps| - i
  {
    if i < |steps| { ValidateFromMeans(c, steps, i + 1); }
  }

  /** The read-only check agrees with the transaction: when it says no for the routers of the steps the
      transaction reverts, and when it says yes no allowlist is ever the reason for a revert. */
  lemma ViewAgreesWithTransaction(w: World, me: Address, operator: Address, ctx: Context, replies: Market)
    requires ctx.steps != []
    ensures var (allowed, code) :=
              IsV2ExecutionAllowed(w.control, operator, ctx.pair, ctx.borrowToken, Routers(ctx.steps));
            var r := StartV2FlashSwap(w, me, operator, ctx, replies);
            && (allowed <==> code == 0)
            && (!allowed ==> r.Err?)
            && (allowed && r.Err? ==> r.error !in {OnlyAuthorizedOperator, UnsupportedPair, InvalidStep})
            && (allowed && r == Err(UnsupportedBorrowToken) ==>
                  ctx.pair in w.pairs && !TokensFit(w.pairs[ctx.pair], ctx))
  {
    hide PairSwap;
    ValidateMeans(w.control, ctx.steps);
    assert forall i :: 0 <= i < |ctx.steps| ==> Routers(ctx.steps)[i] == ctx.steps[i].router;
    assert (forall k :: 0 <= k < |ctx.steps| ==> ctx.steps[k].router in w.control.allowedRouters)
           <==> !exists i :: 0 <= i < |ctx.steps| && Routers(ctx.steps)[i] !in w.control.allowedRouters;
    PairSwapErrors(w, me, ctx, replies);
    TokensUnfit(w, me, ctx, replies);
    ErrorsNotOfThePair(w, me, ctx, replies);
  }

  /** The loan and the profit are in the pair's own tokens. */
  predicate TokensFit(p: PairState, ctx: Context) {
    ctx.borrowToken in {p.token0, p.token1} && ctx.profitToken in {p.token0, p.token1}
  }

  lemma TokensUnfit(w: World, me: Address, ctx: Context, replies: Market)
    ensures forall begun: World, out0: nat, out1: nat ::
              begun.pairs == w.pairs
              && PairSwap(begun, me, ctx.pair, out0, out1, ctx, replies) == Err(UnsupportedBorrowToken) ==>
                ctx.pair in w.pairs && !TokensFit(w.pairs[ctx.pair], ctx)
  {
    hide SendOut, ExecuteSteps, TransferToken, KHolds, Balance, ValidateV2Steps, RepaymentAmountIn;
    ErrorsNotOfThePair(w, me, ctx, replies);
    forall p: PairState, n: nat | TokensFit(p, ctx)
      ensures RepaymentAmountIn(p, ctx.borrowToken, ctx.profitToken, n) != Err(UnsupportedBorrowToken)
    {
      FittingRepayment(p, ctx, n);
    }
  }

  lemma FittingRepayment(p: PairState, ctx: Context, n: nat)
    requires TokensFit(p, ctx)
    ensures RepaymentAmountIn(p, ctx.borrowToken, ctx.profitToken, n) != Err(UnsupportedBorrowToken)
  {}

  /** Who may call back: exactly the caller the call itself names as its pair, on behalf of the executor, with the
      active id, while an execution is in progress. The allowlists play no part: under any others the callback
      does the same. */
  lemma CallbackAdmits(w: World, me: Address, caller: Address, sender: Address, amount0: nat, amount1: nat,
                       ctx: Context, replies: Market, c: Control)
    requires (c.executionInProgress, c.activeExecutionId)
             == (w.control.executionInProgress, w.control.activeExecutionId)
    ensures var r := UniswapV2Call(w, me, caller, sender, amount0, amount1, ctx, replies);
            && (r.Err? && r.error in {NoExecutionInProgress, InvalidCaller, UnknownExecution, InvalidExecutionSource}
                <==> !(w.control.executionInProgress && sender == me && ctx.executionId == w.control.activeExecutionId
                       && caller == ctx.pair))
            && UniswapV2Call(w.(control := c), me, caller, sender, amount0, amount1, ctx, replies)
               == if r.Ok? then Ok(r.value.(control := Unlocked(c))) else r
  {
    hide ExecuteSteps, RepaymentAmountIn, TransferToken, Balance;
    ErrorsNotOfThePair(w, me, ctx, replies);
  }

  lemma PairSwapErrors(w: World, me: Address, ctx: Context, replies: Market)
    ensures forall begun, out0: nat, out1: nat :: PairSwap(begun, me, ctx.pair, out0, out1, ctx, replies).Err? ==>
              PairSwap(begun, me, ctx.pair, out0, out1, ctx, replies).error
                !in {OnlyAuthorizedOperator, UnsupportedPair, InvalidStep}
  {
    hide SendOut, ExecuteSteps, RepaymentAmountIn, TransferToken, KHolds, Balance, ValidateV2Steps;
    ErrorsNotOfThePair(w, me, ctx, replies);
  }

  /** The step with another minimum. */
  function AskingFor(step: SwapStep, minOut: U256): SwapStep { step.(minOut := minOut) }

  /** What a step's router reports, and what really arrives. */
  function ReportedOut(reply: RouterReply): nat
    requires reply.Fills? && |reply.amounts| > 0
  {
    reply.amounts[|reply.amounts| - 1]
  }

  function ArrivedOut(l: Ledger, me: Address, step: SwapStep, reply: RouterReply): int
    requires |step.path| > 0 && ExecuteStep(l, me, step, reply).Ok?
  {
    var tokenOut := step.path[|step.path| - 1];
    Balance(ExecuteStep(l, me, step, reply).value, tokenOut, me) - Balance(l, tokenOut, me)
  }

  /** A step that otherwise succeeds passes its minimum exactly when the report or the delivery reaches it, and the
      minimum does not change what the step does. */
  lemma StepDelivers(l: Ledger, me: Address, step: SwapStep, reply: RouterReply, minOut: U256)
    requires |step.path| > 0 && ExecuteStep(l, me, AskingFor(step, 0), reply).Ok?
    ensures reply.Fills? && |reply.amounts| > 0 && ArrivedOut(l, me, AskingFor(step, 0), reply) >= 0
    ensures var r := ExecuteStep(l, me, AskingFor(step, minOut), reply);
            && (r.Ok? <==> ReportedOut(reply) >= minOut || ArrivedOut(l, me, AskingFor(step, 0), reply) >= minOut)
            && (r.Ok? ==> r == ExecuteStep(l, me, AskingFor(step, 0), reply))
  {
    hide Transfer, MoveAll, Pull;
  }

  /** So the minimum, whatever it is, means delivery if and only if the router does not report more than arrives. */
  lemma MinimumMeansDelivery(l: Ledger, me: Address, step: SwapStep, reply: RouterReply)
    requires |step.path| > 0 && ExecuteStep(l, me, AskingFor(step, 0), reply).Ok?
    ensures reply.Fills? && |reply.amounts| > 0
    ensures (forall minOut: U256 :: ExecuteStep(l, me, AskingFor(step, minOut), reply).Ok? ==>
               ArrivedOut(l, me, AskingFor(step, minOut), reply) >= minOut)
            <==> ReportedOut(reply) <= ArrivedOut(l, me, AskingFor(step, 0), reply)
  {
    hide ExecuteStep;
    StepDelivers(l, me, step, reply, 0);
    var reported: U256 := ReportedOut(reply);
    StepDelivers(l, me, step, reply, reported);
    assert ExecuteStep(l, me, AskingFor(step, reported), reply).Ok?;
    forall minOut: U256 | ExecuteStep(l, me, AskingFor(step, minOut), reply).Ok?
      ensures ArrivedOut(l, me, AskingFor(step, minOut), reply) == ArrivedOut(l, me, AskingFor(step, 0), reply)
      ensures ReportedOut(reply) >= minOut || ArrivedOut(l, me, AskingFor(step, 0), reply) >= minOut
    {
      StepDelivers(l, me, step, reply, minOut);
    }
  }

  /** A reply that only reports: it passes a minimum of 100 and delivers nothing. */
  lemma ReportAloneCanPass()
    ensures var l := Ledger(map[(1, 9) := 5], map[]);
            var step := SwapStep(7, [1, 2], 5, 100);
            var reply := Fills(8, [], [5, 100]);
            && ExecuteStep(l, 9, step, reply).Ok?
            && Balance(ExecuteStep(l, 9, step, reply).value, 2, 9) == 0
  {}

  // ---------------------------------------------------------------- a transaction that commits

  const SAMPLE_LEDGER := Ledger(map[(1, 10) := 1_000_000, (2, 10) := 1_000_000, (1, 8) := 5_000], map[])
  const SAMPLE_PAIR := PairState(1, 2, 1_000_000, 1_000_000)
  const SAMPLE_WORLD := World(SAMPLE_LEDGER, map[10 := SAMPLE_PAIR], Control({5}, {10}, {7}, {2}, false, 0))
  const SAMPLE_STEP := SwapStep(7, [2, 1], MAX_U256, 1)
  const SAMPLE_CALL := Context(77, 10, 2, 1_000, 90, 1, 6, [SAMPLE_STEP])

  function SampleReply(i: nat): RouterReply { Fills(8, [Move(1, 8, 9, 1_100)], [1_000, 1_100]) }

  lemma SampleTrades(l: Ledger)
    requires Balance(l, 2, 9) == 1_000 && Balance(l, 1, 9) == 0 && Balance(l, 1, 8) == 5_000 && l.allowances == map[]
    ensures var r := ExecuteSteps(l, 9, [SAMPLE_STEP], SampleReply);
            r.Ok? && Balance(r.value, 1, 9) == 1_100 && Balance(r.value, 1, 10) == Balance(l, 1, 10)
            && Balance(r.value, 2, 10) == Balance(l, 2, 10) && Balance(r.value, 1, 6) == Balance(l, 1, 6)
  {
    assert [SAMPLE_STEP][..0] == [];
    assert ExecuteSteps(l, 9, [], SampleReply) == Ok(l);
    assert ExecuteSteps(l, 9, [SAMPLE_STEP], SampleReply) == ExecuteStep(l, 9, SAMPLE_STEP, SampleReply(0));
    var moves := [Move(1, 8, 9, 1_100)];
    assert moves[1..] == [];
    var approved := Approve(l, 2, 7, 1_000);
    assert ForceApprove(l, 2, 7, 1_000) == approved;
    var pulled := Transfer(Approve(approved, 2, 7, 0), 2, 9, 8, 1_000).value;
    assert Pull(approved, 9, 2, 7, 8, 1_000) == Ok(pulled);
    var filled := Transfer(pulled, 1, 8, 9, 1_100).value;
    assert MoveAll(pulled, moves) == MoveAll(filled, []) == Ok(filled);
  }

  lemma OneStepValid(c: Control, step: SwapStep)
    requires step.router in c.allowedRouters && |step.path| >= 2 && step.minOut > 0
    ensures ValidateV2Steps(c, [step]) == Ok(())
  {
    assert ValidateFrom(c, [step], 1) == Ok(());
  }

  /** From the loan on: trade, repay 1005, pay out 95. */
  lemma SampleCallback(w: World)
    requires w == SAMPLE_WORLD.(ledger := SendOut(SAMPLE_LEDGER, 10, 2, 9, 1_000).value,
                                control := SAMPLE_WORLD.control.(executionInProgress := true, activeExecutionId := 77))
    ensures var r := UniswapV2Call(w, 9, 10, 9, 0, 1_000, SAMPLE_CALL, SampleReply);
            && r.Ok? && r.value.pairs == SAMPLE_WORLD.pairs && r.value.control == SAMPLE_WORLD.control
            && Balance(r.value.ledger, 1, 6) == 95
            && Balance(r.value.ledger, 1, 10) == 1_001_005 && Balance(r.value.ledger, 2, 10) == 999_000
  {
    hide ExecuteSteps, CheckedMul;
    SampleTrades(w.ledger);
    var traded := ExecuteSteps(w.ledger, 9, [SAMPLE_STEP], SampleReply).value;
    CheckedMulIsProduct(1_000_000, 1_000);
    CheckedMulIsProduct(1_000_000_000, 1_000);
    CheckedMulIsProduct(999_000, 997);
    assert RepaymentAmountIn(SAMPLE_PAIR, 2, 1, 1_000) == Ok(1_005);
    hide RepaymentAmountIn;
    var repaid := Transfer(traded, 1, 9, 10, 1_005).value;
    assert SettleV2PairDebt(w.(ledger := traded), 9, SAMPLE_CALL, 0, 1_000) == Ok(w.(ledger := repaid));
    assert Balance(repaid, 1, 9) == 95 && Balance(repaid, 1, 10) == 1_001_005;
  }

  /** The theorems above are about something: this loan of 1000 trades at a profit, repays 1005, pays its
      recipient 95, and commits. */
  lemma ProfitableSwapCommits()
    ensures var r := StartV2FlashSwap(SAMPLE_WORLD, 9, 5, SAMPLE_CALL, SampleReply);
            r.Ok? && Balance(r.value.ledger, 1, 6) == 95 && r.value.pairs[10].reserve0 == 1_001_005
  {
    hide UniswapV2Call;
    var begun := SAMPLE_WORLD.(control := SAMPLE_WORLD.control.(executionInProgress := true, activeExecutionId := 77));
    var lent := begun.(ledger := SendOut(SAMPLE_LEDGER, 10, 2, 9, 1_000).value);
    SampleCallback(lent);
    var called := UniswapV2Call(lent, 9, 10, 9, 0, 1_000, SAMPLE_CALL, SampleReply).value;
    OneStepValid(SAMPLE_WORLD.control, SAMPLE_STEP);
    hide ValidateV2Steps;
    assert StartV2FlashSwap(SAMPLE_WORLD, 9, 5, SAMPLE_CALL, SampleReply)
           == PairSwap(begun, 9, 10, 0, 1_000, SAMPLE_CALL, SampleReply);
    assert PairSwap(begun, 9, 10, 0, 1_000, SAMPLE_CALL, SampleReply) == CloseSwap(called, 10, 0, 1_000);
    hide PairSwap, StartV2FlashSwap;
    assert KHolds(1_001_005, 999_000, 1_005, 0, 1_000_000, 1_000_000);
  }

  // ---------------------------------------------------------------- and one that reverts though it earns

  const SAME_LEDGER := Ledger(map[(1, 10) := 1_000_000, (2, 10) := 1_000_000, (2, 8) := 5_000], map[])
  const SAME_WORLD := SAMPLE_WORLD.(ledger := SAME_LEDGER)
  const SAME_STEP := SwapStep(7, [2, 1, 2], MAX_U256, 1)
  const SAME_CALL := Context(77, 10, 2, 1_000, 90, 2, 6, [SAME_STEP])

  function SameReply(i: nat): RouterReply { Fills(8, [Move(2, 8, 9, 1_200)], [1_000, 1_100, 1_200]) }

  lemma SameTrades(l: Ledger)
    requires Balance(l, 2, 9) == 1_000 && Balance(l, 2, 8) == 5_000 && l.allowances == map[]
    ensures var r := ExecuteSteps(l, 9, [SAME_STEP], SameReply); r.Ok? && Balance(r.value, 2, 9) == 1_200
  {
    assert [SAME_STEP][..0] == [];
    assert ExecuteSteps(l, 9, [], SameReply) == Ok(l);
    assert ExecuteSteps(l, 9, [SAME_STEP], SameReply) == ExecuteStep(l, 9, SAME_STEP, SameReply(0));
    var moves := [Move(2, 8, 9, 1_200)];
    assert moves[1..] == [];
    var approved := Approve(l, 2, 7, 1_000);
    assert ForceApprove(l, 2, 7, 1_000) == approved;
    var pulled := Transfer(Approve(approved, 2, 7, 0), 2, 9, 8, 1_000).value;
    assert Pull(approved, 9, 2, 7, 8, 1_000) == Ok(pulled);
    var filled := Transfer(pulled, 2, 8, 9, 1_200).value;
    assert MoveAll(pulled, moves) == MoveAll(filled, []) == Ok(filled);
  }

  /** This loan of 1000 in the profit token trades back 1200 and repays 1004, which earns 196 where 90 were asked
      for, and reverts for want of profit. */
  lemma EarningLoanReverts() returns (s: Stages)
    ensures Settles(SAME_WORLD, 9, 5, SAME_CALL, SameReply, s)
    ensures s.repayment == 1_004 && Balance(s.traded, 2, 9) - s.repayment - Balance(SAME_LEDGER, 2, 9) == 196
    ensures StartV2FlashSwap(SAME_WORLD, 9, 5, SAME_CALL, SameReply) == Err(ProfitBelowMinimum)
  {
    hide ExecuteSteps, CheckedMul, StartV2FlashSwap;
    var lent := SendOut(SAME_LEDGER, 10, 2, 9, 1_000).value;
    SameTrades(lent);
    var traded := ExecuteSteps(lent, 9, [SAME_STEP], SameReply).value;
    CheckedMulIsProduct(1_000, 1_000);
    assert RepaymentAmountIn(SAMPLE_PAIR, 2, 2, 1_000) == Ok(1_004);
    hide RepaymentAmountIn;
    var repaid := Transfer(traded, 2, 9, 10, 1_004).value;
    OneStepValid(SAME_WORLD.control, SAME_STEP);
    hide ValidateV2Steps;
    s := Stages(lent, traded, 1_004, repaid, 0, repaid);
    SameTokenGate(SAME_WORLD, 9, 5, SAME_CALL, SameReply, s);
  }
}
