/** `TradingStrategy` (bot/strategy.py): the bracket of orders placed for one trade, the batch
    over all trades, and the break-even stop update for open positions. */
module Strategy {
  import opened Results
  import opened Rounding
  import opened Signing
  import opened Gateway
  import opened Endpoints
  import opened Trades
  import Selection

  /** The strategy's settings; `TradingStrategy.__init__` defaults to a risk of 6.0 USD per
      trade and leverage 10. */
  datatype Config = Config(riskPerTrade: real, leverage: real, opportunities: seq<Trade>)

  /** What `execute_trade` returns: the four order replies, or the text of the exception the
      `try` block caught. */
  datatype TradeOutcome =
    | Placed(entryOrder: Reply, partialTpOrder: Reply, finalTpOrder: Reply, stopLossOrder: Reply)
    | Failed(error: Error)

  /** The point halfway from one price to another. */
  function Halfway(from: real, to: real): (r: real)
    ensures r - from == to - r
  {
    from + (to - from) / 2.0
  }

  /* ---------- issuing requests inside a try block ---------- */

  /** Issues `calls` one after another, as consecutive statements of a `try` block do: the
      first failure ends the sequence and is the outcome; otherwise the replies, in order. */
  function SendInOrder(s: Session, t: Trace, calls: seq<Call>): (r: Run<Result<seq<Reply>>>)
    ensures |t| <= |r.trace| <= |t| + |calls| && r.trace[..|t|] == t
    decreases |calls|
  {
    if calls == [] then Run(t, Success([]))
    else
      var first := Send(s, t, calls[0]);
      if first.out.Failure? then Run(first.trace, Failure(first.out.error))
      else
        var rest := SendInOrder(s, first.trace, calls[1..]);
        assert rest.trace[..|t|] == rest.trace[..|t| + 1][..|t|] == t;
        if rest.out.Failure? then Run(rest.trace, Failure(rest.out.error))
        else Run(rest.trace, Success([first.out.value] + rest.out.value))
  }

  /** The requests go out in the order of `calls`, each stamped for its place in the trace. */
  lemma {:induction false} SendInOrderTrace(s: Session, t: Trace, calls: seq<Call>)
    ensures var r := SendInOrder(s, t, calls);
            forall k :: 0 <= k < |r.trace| - |t| ==> r.trace[|t| + k] == Transmit(s, |t| + k, calls[k])
    decreases |calls|
  {
    if calls != [] {
      var first := Send(s, t, calls[0]);
      if first.out.Success? {
        var rest := SendInOrder(s, first.trace, calls[1..]);
        SendInOrderTrace(s, first.trace, calls[1..]);
        assert rest.trace[|t|] == rest.trace[..|t| + 1][|t|] == first.trace[|t|];
        forall k | 1 <= k < |rest.trace| - |t|
          ensures rest.trace[|t| + k] == Transmit(s, |t| + k, calls[k])
        {
          assert calls[k] == calls[1..][k - 1];
          assert rest.trace[|first.trace| + (k - 1)] == Transmit(s, |first.trace| + (k - 1), calls[1..][k - 1]);
        }
      }
    }
  }

  /** Every request before the last one issued was answered successfully. */
  lemma {:induction false} SendInOrderEarlierSucceeded(s: Session, t: Trace, calls: seq<Call>)
    ensures var r := SendInOrder(s, t, calls);
            forall k :: 0 <= k < |r.trace| - |t| - 1 ==> Answer(s, |t| + k, calls[k]).Success?
    decreases |calls|
  {
    if calls != [] {
      var first := Send(s, t, calls[0]);
      if first.out.Success? {
        var rest := SendInOrder(s, first.trace, calls[1..]);
        SendInOrderEarlierSucceeded(s, first.trace, calls[1..]);
        forall k | 1 <= k < |rest.trace| - |t| - 1 ensures Answer(s, |t| + k, calls[k]).Success? {
          assert calls[k] == calls[1..][k - 1];
          assert Answer(s, |first.trace| + (k - 1), calls[1..][k - 1]).Success?;
        }
      }
    }
  }

  /** The sequence stops at the first failed call, whose error is the outcome; it succeeds
      when every call was issued and the last was answered successfully. */
  lemma {:induction false} SendInOrderStopsAtFailure(s: Session, t: Trace, calls: seq<Call>)
    ensures var r := SendInOrder(s, t, calls);
            var n := |r.trace| - |t|;
            && (r.out.Success? <==> n == |calls| && (n == 0 || Answer(s, |t| + n - 1, calls[n - 1]).Success?))
            && (r.out.Failure? ==>
                  n > 0 && Answer(s, |t| + n - 1, calls[n - 1]) == Failure(r.out.error))
    decreases |calls|
  {
    if calls != [] {
      var first := Send(s, t, calls[0]);
      if first.out.Success? {
        var rest := SendInOrder(s, first.trace, calls[1..]);
        SendInOrderStopsAtFailure(s, first.trace, calls[1..]);
        var n := |rest.trace| - |t|;
        if n > 1 {
          assert calls[n - 1] == calls[1..][n - 2];
        }
      }
    }
  }

  /** On success the replies are the answers to the calls, in order. */
  lemma {:induction false} SendInOrderReplies(s: Session, t: Trace, calls: seq<Call>)
    ensures var r := SendInOrder(s, t, calls);
            r.out.Success? ==>
              && |r.out.value| == |calls|
              && forall k :: 0 <= k < |calls| ==> Answer(s, |t| + k, calls[k]) == Success(r.out.value[k])
    decreases |calls|
  {
    if calls != [] {
      var first := Send(s, t, calls[0]);
      if first.out.Success? {
        var rest := SendInOrder(s, first.trace, calls[1..]);
        SendInOrderReplies(s, first.trace, calls[1..]);
        if rest.out.Success? {
          var replies := [first.out.value] + rest.out.value;
          assert SendInOrder(s, t, calls).out.value == replies;
          forall k | 0 <= k < |calls|
            ensures Answer(s, |t| + k, calls[k]) == Success(replies[k])
          {
            if k > 0 {
              assert replies[k] == rest.out.value[k - 1];
              assert calls[k] == calls[1..][k - 1];
            }
          }
        }
      }
    }
  }

  /* ---------- execute_trade ---------- */

  /** The position size: `calculate_position_size` rounded to the base increment. Both steps
      run before the `try` block, so a zero entry or a zero increment escapes as an exception. */
  function PositionSize(cfg: Config, trade: Trade): (r: Result<real>)
    ensures r.Failure? <==> trade.entry == 0.0 || trade.baseIncrement == 0.0
    ensures r.Failure? ==> r.error == ZeroDivision
    ensures r.Success? ==> IsMultipleOf(r.value, trade.baseIncrement)
    ensures r.Success? ==>
              Abs(r.value - cfg.riskPerTrade * cfg.leverage / trade.entry)
              <= Abs(trade.baseIncrement) / 2.0
    ensures r.Success? &&
            Abs(r.value - cfg.riskPerTrade * cfg.leverage / trade.entry)
            == Abs(trade.baseIncrement) / 2.0 ==>
              (r.value / trade.baseIncrement).Floor % 2 == 0
  {
    match CalculatePositionSize(trade.entry, trade.stopLoss, cfg.riskPerTrade, cfg.leverage)
    case Failure(e) => Failure(e)
    case Success(raw) =>
      assert raw == cfg.riskPerTrade * cfg.leverage / trade.entry;
      RoundToIncrement(raw, trade.baseIncrement)
  }

  /** For a non-zero entry, the position size is `round_to_increment` applied to
      `calculate_position_size`, whatever the stop price. */
  lemma PositionSizeIsRoundedRawSize(cfg: Config, trade: Trade)
    requires trade.entry != 0.0
    ensures PositionSize(cfg, trade)
            == RoundToIncrement(cfg.riskPerTrade * cfg.leverage / trade.entry, trade.baseIncrement)
  {
    var raw := CalculatePositionSize(trade.entry, trade.stopLoss, cfg.riskPerTrade, cfg.leverage);
    assert raw.Success?;
    assert raw.value == cfg.riskPerTrade * cfg.leverage / trade.entry;
  }

  /** The size of each take-profit leg: half the position, rounded to the base increment. */
  function HalfSize(size: real, trade: Trade): real
    requires trade.baseIncrement != 0.0
  {
    Snap(size / 2.0, trade.baseIncrement)
  }

  /** The first take-profit trigger: halfway to the target, rounded to the tick size. */
  function PartialTakeProfit(trade: Trade): real
    requires trade.tickSize != 0.0
  {
    Snap(Halfway(trade.entry, trade.target), trade.tickSize)
  }

  /** The requests `execute_trade` issues in its `try` block, in order: leverage, the limit
      entry at the entry price, then (when the tick size allows the take-profit price to be
      computed) both take-profit legs and the stop loss over the whole position. */
  function BracketCalls(cfg: Config, trade: Trade, size: real): (calls: seq<Call>)
    requires trade.baseIncrement != 0.0
    ensures |calls| == if trade.tickSize == 0.0 then 2 else 5
  {
    var opening := [LeverageCall(trade.symbol, cfg.leverage),
                    OrderCall(trade.symbol, "buy", "limit", Some(trade.entry), size)];
    if trade.tickSize == 0.0 then opening
    else
      var half := HalfSize(size, trade);
      opening + [PlanCall(trade.symbol, "sell", half, PartialTakeProfit(trade), None),
                 PlanCall(trade.symbol, "sell", half, trade.target, None),
                 PlanCall(trade.symbol, "sell", size, trade.stopLoss, None)]
  }

  /** `execute_trade`. A sizing error aborts before anything is sent; otherwise the requests
      go out in the bracket's order for as long as they succeed. */
  function ExecuteTrade(s: Session, cfg: Config, trade: Trade, t: Trace)
    : (r: Run<Result<TradeOutcome>>)
    ensures r.out.Failure? <==> trade.entry == 0.0 || trade.baseIncrement == 0.0
    ensures r.out.Failure? ==> r.out.error == ZeroDivision && r.trace == t
    ensures r.out.Success? ==> |t| < |r.trace| <= |t| + 5 && r.trace[..|t|] == t
  {
    match PositionSize(cfg, trade)
    case Failure(e) => Run(t, Failure(e))
    case Success(size) =>
      var plan := BracketCalls(cfg, trade, size);
      var sent := SendInOrder(s, t, plan);
      SendInOrderReplies(s, t, plan);
      var outcome :=
        if sent.out.Failure? then Failed(sent.out.error)
        else if trade.tickSize == 0.0 then Failed(ZeroDivision)
        else Placed(sent.out.value[1], sent.out.value[2], sent.out.value[3], sent.out.value[4]);
      Run(sent.trace, Success(outcome))
  }

  /** The requests go out in the bracket's order, as far as they get. */
  lemma ExecuteTradeTrace(s: Session, cfg: Config, trade: Trade, t: Trace)
    requires trade.entry != 0.0 && trade.baseIncrement != 0.0
    ensures var r := ExecuteTrade(s, cfg, trade, t);
            var plan := BracketCalls(cfg, trade, PositionSize(cfg, trade).value);
            && |r.trace| <= |t| + |plan|
            && forall k :: 0 <= k < |r.trace| - |t| ==> r.trace[|t| + k] == Transmit(s, |t| + k, plan[k])
  {
    SendInOrderTrace(s, t, BracketCalls(cfg, trade, PositionSize(cfg, trade).value));
  }

  /** Inside the `try` block every exception is caught: the bracket is placed only when all
      five requests succeed, and then it holds the four order replies. */
  lemma ExecuteTradePlaced(s: Session, cfg: Config, trade: Trade, t: Trace)
    requires trade.entry != 0.0 && trade.baseIncrement != 0.0
    ensures var r := ExecuteTrade(s, cfg, trade, t);
            var plan := BracketCalls(cfg, trade, PositionSize(cfg, trade).value);
            var n := |r.trace| - |t|;
            && r.out.Success?
            && (r.out.value.Placed? <==> n == 5 && Answer(s, |t| + 4, plan[4]).Success?)
            && (r.out.value.Placed? ==>
                  && Answer(s, |t| + 1, plan[1]) == Success(r.out.value.entryOrder)
                  && Answer(s, |t| + 2, plan[2]) == Success(r.out.value.partialTpOrder)
                  && Answer(s, |t| + 3, plan[3]) == Success(r.out.value.finalTpOrder)
                  && Answer(s, |t| + 4, plan[4]) == Success(r.out.value.stopLossOrder))
  {
    var plan := BracketCalls(cfg, trade, PositionSize(cfg, trade).value);
    SendInOrderStopsAtFailure(s, t, plan);
    SendInOrderReplies(s, t, plan);
  }

  /** A request is only issued after every earlier one succeeded. */
  lemma ExecuteTradeEarlierSucceeded(s: Session, cfg: Config, trade: Trade, t: Trace)
    requires trade.entry != 0.0 && trade.baseIncrement != 0.0
    ensures var r := ExecuteTrade(s, cfg, trade, t);
            var plan := BracketCalls(cfg, trade, PositionSize(cfg, trade).value);
            forall k :: 0 <= k < |r.trace| - |t| - 1 ==> Answer(s, |t| + k, plan[k]).Success?
  {
    SendInOrderEarlierSucceeded(s, t, BracketCalls(cfg, trade, PositionSize(cfg, trade).value));
  }

  /** A failed request ends the bracket with that request's error; nothing already placed is
      undone. A zero tick size fails once the entry order is in. */
  lemma ExecuteTradeFailed(s: Session, cfg: Config, trade: Trade, t: Trace)
    requires trade.entry != 0.0 && trade.baseIncrement != 0.0
    ensures var r := ExecuteTrade(s, cfg, trade, t);
            var plan := BracketCalls(cfg, trade, PositionSize(cfg, trade).value);
            var n := |r.trace| - |t|;
            && r.out.Success?
            && (Answer(s, |t| + n - 1, plan[n - 1]).Failure? ==>
                  r.out.value == Failed(Answer(s, |t| + n - 1, plan[n - 1]).error))
            && (Answer(s, |t| + n - 1, plan[n - 1]).Success? && r.out.value.Failed? ==>
                  trade.tickSize == 0.0 && r.out.value == Failed(ZeroDivision))
  {
    var plan := BracketCalls(cfg, trade, PositionSize(cfg, trade).value);
    var sent := SendInOrder(s, t, plan);
    SendInOrderStopsAtFailure(s, t, plan);
    var r := ExecuteTrade(s, cfg, trade, t);
    assert r.trace == sent.trace;
    assert sent.out.Failure? ==> r.out.value == Failed(sent.out.error);
    assert sent.out.Success? && trade.tickSize != 0.0 ==> r.out.value.Placed?;
  }

  /** The value a call's JSON body holds under `key`, if it has a body. */
  function BodyField(call: Call, key: string): Option<Value> {
    if call.data.Some? then Lookup(call.data.value, key) else None
  }

  /** The bracket opens by setting the configured leverage and then buying, with a limit
      order at the entry price, the whole position. */
  lemma BracketOpening(cfg: Config, trade: Trade, size: real)
    requires trade.baseIncrement != 0.0
    ensures var plan := BracketCalls(cfg, trade, size);
            && plan[0].endpoint == "/account/setLeverage"
            && BodyField(plan[0], "symbol") == Some(Str(trade.symbol))
            && BodyField(plan[0], "leverage") == Some(Num(cfg.leverage))
            && plan[1].endpoint == "/order/placeOrder"
            && BodyField(plan[1], "symbol") == Some(Str(trade.symbol))
            && BodyField(plan[1], "side") == Some(Str("buy"))
            && BodyField(plan[1], "orderType") == Some(Str("limit"))
            && BodyField(plan[1], "price") == Some(Num(trade.entry))
            && BodyField(plan[1], "size") == Some(Num(size))
  {
    LeveragePayloadFields(trade.symbol, cfg.leverage);
    OrderPayloadFields(trade.symbol, "buy", "limit", Some(trade.entry), size);
  }

  /** The body fields of a market plan order that the bracket relies on. */
  lemma PlanCallBody(symbol: string, side: string, size: real, triggerPrice: real)
    ensures var c := PlanCall(symbol, side, size, triggerPrice, None);
            && c.endpoint == "/plan/placePlan"
            && BodyField(c, "symbol") == Some(Str(symbol))
            && BodyField(c, "side") == Some(Str(side))
            && BodyField(c, "orderType") == Some(Str("market"))
            && BodyField(c, "size") == Some(Num(size))
            && BodyField(c, "triggerPrice") == Some(Num(triggerPrice))
  {
    PlanPayloadFields(symbol, side, size, triggerPrice, None);
  }

  /** Then two market sell take-profit legs of one and the same size, about half the
      position, triggered near the midpoint and at the target. */
  lemma BracketTakeProfits(cfg: Config, trade: Trade, size: real)
    requires trade.baseIncrement != 0.0 && trade.tickSize != 0.0
    ensures var plan := BracketCalls(cfg, trade, size);
            && plan[2].endpoint == plan[3].endpoint == "/plan/placePlan"
            && BodyField(plan[2], "symbol") == BodyField(plan[3], "symbol") == Some(Str(trade.symbol))
            && BodyField(plan[2], "side") == BodyField(plan[3], "side") == Some(Str("sell"))
            && BodyField(plan[2], "orderType") == BodyField(plan[3], "orderType") == Some(Str("market"))
            && BodyField(plan[2], "size") == BodyField(plan[3], "size")
               == Some(Num(HalfSize(size, trade)))
            && Abs(2.0 * HalfSize(size, trade) - size) <= Abs(trade.baseIncrement)
            && BodyField(plan[2], "triggerPrice") == Some(Num(PartialTakeProfit(trade)))
            && Abs(PartialTakeProfit(trade) - Halfway(trade.entry, trade.target))
               <= Abs(trade.tickSize) / 2.0
            && BodyField(plan[3], "triggerPrice") == Some(Num(trade.target))
  {
    var half := HalfSize(size, trade);
    PlanCallBody(trade.symbol, "sell", half, PartialTakeProfit(trade));
    PlanCallBody(trade.symbol, "sell", half, trade.target);
    TakeProfitSplitBound(size, trade);
  }

  /** And last a market sell stop loss for the whole position at the stop price. */
  lemma BracketStopLoss(cfg: Config, trade: Trade, size: real)
    requires trade.baseIncrement != 0.0 && trade.tickSize != 0.0
    ensures var plan := BracketCalls(cfg, trade, size);
            && plan[4].endpoint == "/plan/placePlan"
            && BodyField(plan[4], "symbol") == Some(Str(trade.symbol))
            && BodyField(plan[4], "side") == Some(Str("sell"))
            && BodyField(plan[4], "orderType") == Some(Str("market"))
            && BodyField(plan[4], "size") == Some(Num(size))
            && BodyField(plan[4], "triggerPrice") == Some(Num(trade.stopLoss))
  {
    PlanCallBody(trade.symbol, "sell", size, trade.stopLoss);
  }

  /** Each take-profit leg is half the position rounded to the increment, so the two legs
      together differ from the position by at most one increment. */
  lemma TakeProfitSplitBound(size: real, trade: Trade)
    requires trade.baseIncrement != 0.0
    ensures Abs(2.0 * HalfSize(size, trade) - size) <= Abs(trade.baseIncrement)
  {
    var half := HalfSize(size, trade);
    assert Abs(half - size / 2.0) <= Abs(trade.baseIncrement) / 2.0;
    assert 2.0 * half - size == 2.0 * (half - size / 2.0);
  }

  /** The legs can sell more than was bought: three contracts split into two legs of two. */
  lemma TakeProfitLegsCanExceedPosition()
    ensures var trade := Trade("X", 1.0, 2.0, 0.5, 0.1, 1.0, "High");
            HalfSize(3.0, trade) == 2.0 && 2.0 * HalfSize(3.0, trade) > 3.0
  {
    var trade := Trade("X", 1.0, 2.0, 0.5, 0.1, 1.0, "High");
    assert RoundHalfEven(1.5) == 2;
  }

  /** The first take-profit trigger lies within half a tick of the midpoint between entry and
      target, on the even multiple of the tick when the midpoint lies halfway between two, so for a long trade (target above entry, target and entry at least a tick apart)
      it lies strictly between them. */
  lemma PartialTakeProfitNearMidpoint(trade: Trade)
    requires trade.tickSize > 0.0
    ensures Abs(PartialTakeProfit(trade) - Halfway(trade.entry, trade.target)) <= trade.tickSize / 2.0
    ensures Abs(PartialTakeProfit(trade) - Halfway(trade.entry, trade.target)) == trade.tickSize / 2.0 ==>
              (PartialTakeProfit(trade) / trade.tickSize).Floor % 2 == 0
    ensures trade.target - trade.entry >= 2.0 * trade.tickSize ==>
              trade.entry < PartialTakeProfit(trade) < trade.target
  {
  }

  /* ---------- execute_all_trades ---------- */

  /** One element of the list `execute_all_trades` returns. */
  datatype TaggedResult = TaggedResult(symbol: string, result: TradeOutcome)

  /** The trades of one run: the filtered list when it is a non-empty list, else every
      configured opportunity (an empty filtered list is falsy). */
  function TradesToExecute(cfg: Config, filtered: Option<seq<Trade>>): seq<Trade> {
    if filtered.Some? && filtered.value != [] then filtered.value else cfg.opportunities
  }

  /** The loop of `execute_all_trades`: each trade in turn; a sizing exception escapes and
      ends the batch. */
  function RunBatch(s: Session, cfg: Config, trades: seq<Trade>, t: Trace)
    : (r: Run<Result<seq<TaggedResult>>>)
    ensures |t| <= |r.trace| && r.trace[..|t|] == t
    ensures r.out.Success? <==>
              forall k :: 0 <= k < |trades| ==>
                trades[k].entry != 0.0 && trades[k].baseIncrement != 0.0
    ensures r.out.Failure? ==> r.out.error == ZeroDivision
    ensures r.out.Success? ==>
              && |r.out.value| == |trades|
              && forall k :: 0 <= k < |trades| ==> r.out.value[k].symbol == trades[k].symbol
    decreases |trades|
  {
    if trades == [] then Run(t, Success([]))
    else
      var first := ExecuteTrade(s, cfg, trades[0], t);
      if first.out.Failure? then Run(first.trace, Failure(first.out.error))
      else
        var rest := RunBatch(s, cfg, trades[1..], first.trace);
        if rest.out.Failure? then rest
        else Run(rest.trace, Success([TaggedResult(trades[0].symbol, first.out.value)] + rest.out.value))
  }

  /** `execute_all_trades`. */
  function ExecuteAllTrades(s: Session, cfg: Config, filtered: Option<seq<Trade>>, t: Trace)
    : (r: Run<Result<seq<TaggedResult>>>)
  {
    RunBatch(s, cfg, TradesToExecute(cfg, filtered), t)
  }

  /** One step of the batch loop: the first trade, then the rest from where it left the trace. */
  lemma BatchStep(s: Session, cfg: Config, trades: seq<Trade>, t: Trace)
    requires trades != []
    ensures var first := ExecuteTrade(s, cfg, trades[0], t);
            var rest := RunBatch(s, cfg, trades[1..], first.trace);
            RunBatch(s, cfg, trades, t)
            == if first.out.Failure? then Run(first.trace, Failure(first.out.error))
               else if rest.out.Failure? then rest
               else Run(rest.trace, Success([TaggedResult(trades[0].symbol, first.out.value)]
                                            + rest.out.value))
  {
  }

  /** The batch over `a + b` runs the batch over `a`, then, from where it left the trace and
      unless it failed, the batch over `b`. */
  ghost predicate BatchSplits(s: Session, cfg: Config, a: seq<Trade>, b: seq<Trade>, t: Trace) {
    var ra := RunBatch(s, cfg, a, t);
    var rb := RunBatch(s, cfg, b, ra.trace);
    RunBatch(s, cfg, a + b, t)
    == if ra.out.Failure? then ra
       else if rb.out.Failure? then rb
       else Run(rb.trace, Success(ra.out.value + rb.out.value))
  }

  /** A batch over `a + b` is the batch over `a` followed, from where it left the trace, by
      the batch over `b`. */
  lemma {:induction false} BatchConcat(s: Session, cfg: Config, a: seq<Trade>, b: seq<Trade>,
                                       t: Trace)
    ensures BatchSplits(s, cfg, a, b, t)
    decreases |a|
  {
    if a != [] {
      var first := ExecuteTrade(s, cfg, a[0], t);
      if first.out.Success? {
        BatchConcat(s, cfg, a[1..], b, first.trace);
      }
      BatchConsSplits(s, cfg, a, b, t);
    } else {
      assert a + b == b;
      var rb := RunBatch(s, cfg, b, t);
      assert RunBatch(s, cfg, a, t) == Run(t, Success([]));
      if rb.out.Success? {
        assert [] + rb.out.value == rb.out.value;
      }
    }
  }

  /** The step of `BatchConcat`: the split holds for a non-empty `a` when it holds for the
      rest of `a` after a first trade that succeeded. */
  lemma BatchConsSplits(s: Session, cfg: Config, a: seq<Trade>, b: seq<Trade>, t: Trace)
    requires a != []
    requires var first := ExecuteTrade(s, cfg, a[0], t);
             first.out.Success? ==> BatchSplits(s, cfg, a[1..], b, first.trace)
    ensures BatchSplits(s, cfg, a, b, t)
  {
    var first := ExecuteTrade(s, cfg, a[0], t);
    AppendTail(a, b);
    BatchStep(s, cfg, a + b, t);
    BatchStep(s, cfg, a, t);
    if first.out.Success? {
      var rest := RunBatch(s, cfg, a[1..], first.trace);
      var rb := RunBatch(s, cfg, b, rest.trace);
      if rest.out.Success? && rb.out.Success? {
        Selection.ConsAssoc(TaggedResult(a[0].symbol, first.out.value), rest.out.value, rb.out.value);
      }
    }
  }

  /** The head and tail of `a + b` for a non-empty `a`. */
  lemma AppendTail<T>(a: seq<T>, b: seq<T>)
    requires a != []
    ensures (a + b)[0] == a[0] && (a + b)[1..] == a[1..] + b
  {
  }

  /** A batch of one trade reports that trade's outcome under its symbol. */
  lemma BatchOfOne(s: Session, cfg: Config, trade: Trade, t: Trace)
    ensures var r := ExecuteTrade(s, cfg, trade, t);
            RunBatch(s, cfg, [trade], t)
            == if r.out.Failure? then Run(r.trace, Failure(r.out.error))
               else Run(r.trace, Success([TaggedResult(trade.symbol, r.out.value)]))
  {
    var first := ExecuteTrade(s, cfg, trade, t);
    assert [trade][1..] == [];
    if first.out.Success? {
      var rest := RunBatch(s, cfg, [], first.trace);
      assert rest == Run(first.trace, Success([]));
      assert [TaggedResult(trade.symbol, first.out.value)] + rest.out.value
             == [TaggedResult(trade.symbol, first.out.value)];
    }
  }

  /** An empty filtered list is falsy: the run falls back to every configured opportunity,
      exactly as when no filtered list is given. */
  lemma EmptyFilterRunsEveryOpportunity(s: Session, cfg: Config, t: Trace)
    ensures ExecuteAllTrades(s, cfg, Some([]), t) == RunBatch(s, cfg, cfg.opportunities, t)
    ensures ExecuteAllTrades(s, cfg, None, t) == RunBatch(s, cfg, cfg.opportunities, t)
    ensures forall ts: seq<Trade> :: ts != [] ==>
              ExecuteAllTrades(s, cfg, Some(ts), t) == RunBatch(s, cfg, ts, t)
  {
  }

  /* ---------- update_trailing_stops ---------- */

  /** The first configured trade for `symbol`, as `next(...)` finds it. */
  function FirstFor(ts: seq<Trade>, symbol: string): (r: Option<Trade>)
    ensures r.Some? <==> exists k :: 0 <= k < |ts| && ts[k].symbol == symbol
    ensures r.Some? ==>
              exists k :: 0 <= k < |ts| && ts[k] == r.value && r.value.symbol == symbol
                          && forall j :: 0 <= j < k ==> ts[j].symbol != symbol
  {
    if ts == [] then None
    else if ts[0].symbol == symbol then Some(ts[0])
    else
      var r := FirstFor(ts[1..], symbol);
      assert forall k :: 1 <= k < |ts| ==> ts[k] == ts[1..][k - 1];
      if r.Some? then
        var k :| 0 <= k < |ts[1..]| && ts[1..][k] == r.value && r.value.symbol == symbol
                 && forall j :: 0 <= j < k ==> ts[1..][j].symbol != symbol;
        assert ts[k + 1] == r.value;
        r
      else r
  }

  /** The body of the position loop: skip a flat position or one without a configured trade;
      otherwise read the price (an error escapes) and, once it has reached halfway to the
      target, place a break-even stop for half the position (an error is caught). */
  function EvaluatePosition(s: Session, cfg: Config, t: Trace, p: Position): (r: Run<Result<()>>)
    ensures |t| <= |r.trace| <= |t| + 2 && r.trace[..|t|] == t
    ensures |r.trace| > |t| <==> p.total > 0.0 && FirstFor(cfg.opportunities, p.symbol).Some?
    ensures |r.trace| > |t| ==> r.trace[|t|].call == TickerCall(p.symbol)
    ensures |r.trace| == |t| + 2 <==>
              && |r.trace| > |t|
              && var price := PriceOf(Answer(s, |t|, TickerCall(p.symbol)));
                 price.Success?
                 && price.value >= Halfway(p.averageOpenPrice,
                                           FirstFor(cfg.opportunities, p.symbol).value.target)
    ensures |r.trace| == |t| + 2 ==>
              r.trace[|t| + 1].call == PlanCall(p.symbol, "sell", p.total / 2.0, p.averageOpenPrice, None)
    ensures r.out.Failure? <==>
              |r.trace| > |t| && PriceOf(Answer(s, |t|, TickerCall(p.symbol))).Failure?
    ensures r.out.Failure? ==> r.out == Failure(PriceOf(Answer(s, |t|, TickerCall(p.symbol))).error)
  {
    if p.total <= 0.0 then Run(t, Success(()))
    else
      match FirstFor(cfg.opportunities, p.symbol)
      case None => Run(t, Success(()))
      case Some(trade) =>
        var quote := GetMarketPrice(s, t, p.symbol);
        if quote.out.Failure? then Run(quote.trace, Failure(quote.out.error))
        else if quote.out.value >= Halfway(p.averageOpenPrice, trade.target) then
          var stop := PlaceStopOrder(s, quote.trace, p.symbol, "sell", p.total / 2.0,
                                     p.averageOpenPrice, None);
          Run(stop.trace, Success(()))
        else Run(quote.trace, Success(()))
  }

  /** The loop over positions: each in turn until a price read fails. */
  function EvaluatePositions(s: Session, cfg: Config, t: Trace, ps: seq<Position>)
    : (r: Run<Result<()>>)
    ensures |t| <= |r.trace| <= |t| + 2 * |ps| && r.trace[..|t|] == t
    ensures (forall k :: 0 <= k < |ps| ==> ps[k].total <= 0.0) ==> r == Run(t, Success(()))
    decreases |ps|
  {
    if ps == [] then Run(t, Success(()))
    else
      var first := EvaluatePosition(s, cfg, t, ps[0]);
      if first.out.Failure? then first
      else EvaluatePositions(s, cfg, first.trace, ps[1..])
  }

  /** A loop over one position is that position's evaluation. */
  lemma EvaluatePositionsOfOne(s: Session, cfg: Config, t: Trace, p: Position)
    ensures EvaluatePositions(s, cfg, t, [p]) == EvaluatePosition(s, cfg, t, p)
  {
    var first := EvaluatePosition(s, cfg, t, p);
    assert [p][1..] == [];
    if first.out.Success? {
      assert EvaluatePositions(s, cfg, first.trace, []) == Run(first.trace, Success(()));
    }
  }

  /** The loop over `ps + qs` evaluates `ps`, and then, unless a price read failed there,
      `qs` from where `ps` left the trace: a caught stop failure does not end the loop. */
  lemma {:induction false} EvaluatePositionsConcat(s: Session, cfg: Config, t: Trace,
                                                   ps: seq<Position>, qs: seq<Position>)
    ensures var ra := EvaluatePositions(s, cfg, t, ps);
            EvaluatePositions(s, cfg, t, ps + qs)
            == if ra.out.Failure? then ra else EvaluatePositions(s, cfg, ra.trace, qs)
    decreases |ps|
  {
    if ps == [] {
      assert ps + qs == qs;
    } else {
      assert (ps + qs)[0] == ps[0];
      assert (ps + qs)[1..] == ps[1..] + qs;
      var first := EvaluatePosition(s, cfg, t, ps[0]);
      if first.out.Success? {
        EvaluatePositionsConcat(s, cfg, first.trace, ps[1..], qs);
      }
    }
  }

  /** `update_trailing_stops`: the position list is fetched unfiltered; an error there, or a
      reply without a position list, escapes. */
  function UpdateTrailingStops(s: Session, cfg: Config, t: Trace): (r: Run<Result<()>>)
    ensures |t| < |r.trace| && r.trace[..|t|] == t
    ensures r.trace[|t|].call == PositionsCall(None)
    ensures var sent := t + [Transmit(s, |t|, PositionsCall(None))];
            var a := Answer(s, |t|, PositionsCall(None));
            && (a.Failure? ==> r == Run(sent, Failure(a.error)))
            && (a.Success? && !a.value.data.PositionList? ==> r == Run(sent, Failure(Malformed("data"))))
            && (a.Success? && a.value.data.PositionList? ==>
                  r == EvaluatePositions(s, cfg, sent, a.value.data.positions))
  {
    var sent := GetPositions(s, t, None);
    if sent.out.Failure? then Run(sent.trace, Failure(sent.out.error))
    else if !sent.out.value.data.PositionList? then Run(sent.trace, Failure(Malformed("data")))
    else
      var rest := EvaluatePositions(s, cfg, sent.trace, sent.out.value.data.positions);
      assert rest.trace[..|t|] == sent.trace[..|sent.trace|][..|t|];
      rest
  }

  /* ---------- repeating the update ---------- */

  /** Two runs issue the same calls and end alike, wherever in the session they start. */
  predicate SameEffect<T(==)>(t1: Trace, r1: Run<T>, t2: Trace, r2: Run<T>)
    requires |t1| <= |r1.trace| && |t2| <= |r2.trace|
  {
    Calls(r1.trace[|t1|..]) == Calls(r2.trace[|t2|..]) && r1.out == r2.out
  }

  lemma SteadyAnswer(s: Session, i: nat, j: nat, call: Call)
    requires Steady(s.exchange)
    ensures Answer(s, i, call) == Answer(s, j, call)
  {
  }

  lemma EvaluatePositionRepeats(s: Session, cfg: Config, t1: Trace, t2: Trace, p: Position)
    requires Steady(s.exchange)
    ensures SameEffect(t1, EvaluatePosition(s, cfg, t1, p), t2, EvaluatePosition(s, cfg, t2, p))
  {
    SteadyAnswer(s, |t1|, |t2|, TickerCall(p.symbol));
  }

  /** The calls a run added after `t` are those its first stage added, then the rest. */
  lemma CallsOfExtension(t: Trace, f: Trace, r: Trace)
    requires |t| <= |f| <= |r| && r[..|f|] == f
    ensures Calls(r[|t|..]) == Calls(f[|t|..]) + Calls(r[|f|..])
  {
    assert r[|t|..] == f[|t|..] + r[|f|..];
    var x, y := f[|t|..], r[|f|..];
    assert forall k :: 0 <= k < |x + y| ==> Calls(x + y)[k] == (Calls(x) + Calls(y))[k];
  }

  lemma {:induction false} EvaluatePositionsRepeat(s: Session, cfg: Config, t1: Trace, t2: Trace,
                                                   ps: seq<Position>)
    requires Steady(s.exchange)
    ensures SameEffect(t1, EvaluatePositions(s, cfg, t1, ps), t2, EvaluatePositions(s, cfg, t2, ps))
    decreases |ps|
  {
    if ps != [] {
      var f1 := EvaluatePosition(s, cfg, t1, ps[0]);
      var f2 := EvaluatePosition(s, cfg, t2, ps[0]);
      EvaluatePositionRepeats(s, cfg, t1, t2, ps[0]);
      if f1.out.Success? {
        EvaluatePositionsRepeat(s, cfg, f1.trace, f2.trace, ps[1..]);
        var r1 := EvaluatePositions(s, cfg, f1.trace, ps[1..]);
        var r2 := EvaluatePositions(s, cfg, f2.trace, ps[1..]);
        CallsOfExtension(t1, f1.trace, r1.trace);
        CallsOfExtension(t2, f2.trace, r2.trace);
      }
    } else {
      assert t1[|t1|..] == [] && t2[|t2|..] == [];
    }
  }

  /** Nothing records that a stop was already moved: against an exchange whose answers do not
      change, a second update issues the very same requests again, break-even stops included. */
  lemma TrailingStopsRepeat(s: Session, cfg: Config, t1: Trace, t2: Trace)
    requires Steady(s.exchange)
    ensures SameEffect(t1, UpdateTrailingStops(s, cfg, t1), t2, UpdateTrailingStops(s, cfg, t2))
  {
    SteadyAnswer(s, |t1|, |t2|, PositionsCall(None));
    var g1 := GetPositions(s, t1, None);
    var g2 := GetPositions(s, t2, None);
    assert g1.trace[|t1|..] == [g1.trace[|t1|]] && g2.trace[|t2|..] == [g2.trace[|t2|]];
    assert Calls(g1.trace[|t1|..]) == Calls(g2.trace[|t2|..]);
    if g1.out.Success? && g1.out.value.data.PositionList? {
      var ps := g1.out.value.data.positions;
      EvaluatePositionsRepeat(s, cfg, g1.trace, g2.trace, ps);
      var r1 := EvaluatePositions(s, cfg, g1.trace, ps);
      var r2 := EvaluatePositions(s, cfg, g2.trace, ps);
      CallsOfExtension(t1, g1.trace, r1.trace);
      CallsOfExtension(t2, g2.trace, r2.trace);
    }
  }
}
