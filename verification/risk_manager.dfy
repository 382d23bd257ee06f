/** `RiskManager` (bot/risk_manager.py): position counting, the balance-based risk budget, the
    admission check for one position, and the confidence-ordered greedy trade filter. */
module RiskManager {
  import opened Results
  import opened Rounding
  import opened Gateway
  import opened Endpoints
  import opened Trades
  import opened Selection

  /** `RiskManager.__init__` defaults to a 2 percent risk budget and five positions. */
  datatype Config = Config(maxRiskPercent: real, maxPositions: int)

  /* ---------- counting positions ---------- */

  /** The number of positions with a positive size. */
  function ActiveCount(ps: seq<Position>): (n: nat)
    ensures n <= |ps|
    ensures n == 0 <==> forall k :: 0 <= k < |ps| ==> ps[k].total <= 0.0
    ensures n == |ps| <==> forall k :: 0 <= k < |ps| ==> ps[k].total > 0.0
  {
    if ps == [] then 0
    else
      var rest := ActiveCount(ps[1..]);
      assert forall k :: 1 <= k < |ps| ==> ps[k] == ps[1..][k - 1];
      (if ps[0].total > 0.0 then 1 else 0) + rest
  }

  /** Counting is additive over concatenation. */
  lemma {:induction false} ActiveCountConcat(a: seq<Position>, b: seq<Position>)
    ensures ActiveCount(a + b) == ActiveCount(a) + ActiveCount(b)
    decreases |a|
  {
    if a == [] {
      assert a + b == b;
    } else {
      assert (a + b)[1..] == a[1..] + b;
      ActiveCountConcat(a[1..], b);
    }
  }

  /** Reading the position list out of a reply; a reply without one fails on `data`. */
  function PositionsOf(a: Result<Reply>): (r: Result<seq<Position>>)
    ensures r.Success? <==> a.Success? && a.value.data.PositionList?
    ensures r.Success? ==> r.value == a.value.data.positions
    ensures a.Failure? ==> r == Failure(a.error)
  {
    match a
    case Failure(e) => Failure(e)
    case Success(reply) =>
      if reply.data.PositionList? then Success(reply.data.positions) else Failure(Malformed("data"))
  }

  /** `count_active_positions`: one unfiltered positions request. */
  function CountActivePositions(s: Session, t: Trace): (r: Run<Result<nat>>)
    ensures |r.trace| == |t| + 1 && r.trace[..|t|] == t
    ensures r.trace[|t|].call == PositionsCall(None)
    ensures var ps := PositionsOf(Answer(s, |t|, PositionsCall(None)));
            && (r.out.Success? <==> ps.Success?)
            && (r.out.Success? ==> r.out.value == ActiveCount(ps.value))
            && (r.out.Failure? ==> r.out.error == ps.error)
  {
    var sent := GetPositions(s, t, None);
    match PositionsOf(sent.out)
    case Failure(e) => Run(sent.trace, Failure(e))
    case Success(ps) => Run(sent.trace, Success(ActiveCount(ps)))
  }

  /* ---------- the risk budget ---------- */

  /** `calculate_max_risk_amount`: the given percentage of the available USDT balance. */
  function CalculateMaxRiskAmount(s: Session, cfg: Config, t: Trace): (r: Run<Result<real>>)
    ensures |r.trace| == |t| + 1 && r.trace[..|t|] == t
    ensures r.trace[|t|].call == AccountsCall
    ensures var balance := BalanceOf(Answer(s, |t|, AccountsCall));
            && (r.out.Success? <==> balance.Success?)
            && (r.out.Success? ==> r.out.value * 100.0 == balance.value * cfg.maxRiskPercent)
            && (r.out.Failure? ==> r.out.error == balance.error)
  {
    var balance := GetAccountBalance(s, t);
    match balance.out
    case Failure(e) => Run(balance.trace, Failure(e))
    case Success(b) => Run(balance.trace, Success(b * (cfg.maxRiskPercent / 100.0)))
  }

  /** `can_take_new_position`: refused when the position limit is reached, without asking for
      the balance; otherwise allowed exactly when the risk fits the budget. */
  function CanTakeNewPosition(s: Session, cfg: Config, t: Trace, riskAmount: real)
    : (r: Run<Result<bool>>)
    ensures |t| < |r.trace| <= |t| + 2 && r.trace[..|t|] == t
    ensures r.trace[|t|].call == PositionsCall(None)
    ensures var count := CountActivePositions(s, t).out;
            && (count.Failure? ==> |r.trace| == |t| + 1 && r.out == Failure(count.error))
            && (count.Success? && count.value >= cfg.maxPositions ==>
                  |r.trace| == |t| + 1 && r.out == Success(false))
            && (count.Success? && count.value < cfg.maxPositions ==>
                  && |r.trace| == |t| + 2
                  && r.trace[|t| + 1].call == AccountsCall
                  && var budget := CalculateMaxRiskAmount(s, cfg, r.trace[..|t| + 1]).out;
                     (budget.Failure? ==> r.out == Failure(budget.error))
                     && (budget.Success? ==> r.out == Success(riskAmount <= budget.value)))
  {
    var count := CountActivePositions(s, t);
    match count.out
    case Failure(e) => Run(count.trace, Failure(e))
    case Success(n) =>
      if n >= cfg.maxPositions then Run(count.trace, Success(false))
      else
        var budget := CalculateMaxRiskAmount(s, cfg, count.trace);
        assert budget.trace[..|t| + 1] == count.trace;
        assert budget.trace[..|t|] == count.trace[..|t|];
        match budget.out
        case Failure(e) => Run(budget.trace, Failure(e))
        case Success(maxRisk) => Run(budget.trace, Success(riskAmount <= maxRisk))
  }

  /* ---------- ordering by confidence ---------- */

  /** The confidence score; an unknown label scores as "Low". */
  function Score(confidence: string): (n: nat)
    ensures n <= 3
    ensures n == 3 <==> confidence == "High"
    ensures n == 2 <==> confidence == "Medium-High"
    ensures n == 1 <==> confidence == "Medium"
    ensures n == 0 <==> confidence !in {"High", "Medium-High", "Medium"}
  {
    match confidence
    case "High" => 3
    case "Medium-High" => 2
    case "Medium" => 1
    case _ => 0
  }

  function Rank(trade: Trade): (n: nat)
    ensures n <= 3
  {
    Score(trade.confidence)
  }

  /** `sorted(..., key=score, reverse=True)`: Python's sort is stable also when reversed. */
  function SortByConfidence(ts: seq<Trade>): (r: seq<Trade>)
    ensures |r| == |ts| && multiset(r) == multiset(ts)
    ensures SortedBy(r, Rank)
  {
    SortBy(ts, Rank)
  }

  /** The sorted order is fully determined: the "High" trades, then "Medium-High", then
      "Medium", then the rest, each group in its original order. */
  lemma SortByConfidenceIsGrouping(ts: seq<Trade>)
    ensures SortByConfidence(ts)
            == WithKey(ts, Rank, 3) + WithKey(ts, Rank, 2) + WithKey(ts, Rank, 1) + WithKey(ts, Rank, 0)
  {
    SortByIsGrouping(ts, Rank);
  }

  /* ---------- greedy selection ---------- */

  /** The risk charged for one trade: the relative distance to the stop, times 6 USD. The
      zero-entry case never reaches the greedy pass (the division fails first), so its value
      there is immaterial. */
  function ChargedRisk(trade: Trade): real {
    if trade.entry == 0.0 then 0.0 else Abs(trade.entry - trade.stopLoss) / trade.entry * 6.0
  }

  predicate NonZeroEntries(ts: seq<Trade>) {
    forall trade :: trade in ts ==> trade.entry != 0.0
  }

  /** The part of `apply_risk_filters` after the budget is known: sort by confidence, fail on
      a zero entry price while pricing the risk, and keep a trade when the running risk stays
      within `maxRisk` and fewer than `slots` trades are kept. */
  function SelectWithinBudget(trades: seq<Trade>, maxRisk: real, slots: int)
    : (r: Result<seq<Trade>>)
    ensures r.Failure? <==> !NonZeroEntries(trades)
    ensures r.Failure? ==> r.error == ZeroDivision
    ensures r.Success? ==>
              && multiset(r.value) <= multiset(trades)
              && IsSubsequence(r.value, SortByConfidence(trades))
              && SortedBy(r.value, Rank)
              && NonZeroEntries(r.value)
              && (r.value == [] || (|r.value| <= slots && Sum(r.value, ChargedRisk) <= maxRisk))
  {
    var sorted := SortByConfidence(trades);
    assert forall x :: x in sorted <==> x in trades by {
      assert forall x :: x in sorted <==> x in multiset(sorted);
    }
    if !NonZeroEntries(sorted) then Failure(ZeroDivision)
    else
      var picked := Greedy(sorted, ChargedRisk, maxRisk, slots, 0.0, 0);
      GreedyBounds(sorted, ChargedRisk, maxRisk, slots, 0.0, 0);
      SubsequenceFacts(picked, sorted, Rank);
      assert forall x :: x in picked ==> x in multiset(sorted);
      Success(picked)
  }

  /** The selection is the greedy pass over the confidence-sorted trades, from no risk and
      no trade kept: a trade that does not fit is skipped and the later ones are still
      considered (`Selection.GreedySkips`, `Selection.GreedyTakes`, `Selection.GreedyConcat`). */
  lemma SelectWithinBudgetIsGreedy(trades: seq<Trade>, maxRisk: real, slots: int)
    ensures var r := SelectWithinBudget(trades, maxRisk, slots);
            r.Success? ==> r.value == Greedy(SortByConfidence(trades), ChargedRisk, maxRisk, slots, 0.0, 0)
  {
  }

  /** Hence, once priced, the first sorted trade is kept exactly when it fits on its own, and
      the selection then continues over the rest. */
  lemma SelectWithinBudgetFirst(trades: seq<Trade>, maxRisk: real, slots: int)
    requires NonZeroEntries(trades) && trades != []
    ensures var sorted := SortByConfidence(trades);
            var head := sorted[0];
            var rest := sorted[1..];
            SelectWithinBudget(trades, maxRisk, slots)
            == Success(if ChargedRisk(head) <= maxRisk && 0 < slots
                       then [head] + Greedy(rest, ChargedRisk, maxRisk, slots, ChargedRisk(head), 1)
                       else Greedy(rest, ChargedRisk, maxRisk, slots, 0.0, 0))
  {
    var sorted := SortByConfidence(trades);
    SelectWithinBudgetIsGreedy(trades, maxRisk, slots);
    assert sorted == [sorted[0]] + sorted[1..];
    if ChargedRisk(sorted[0]) <= maxRisk && 0 < slots {
      GreedyTakes(sorted[0], sorted[1..], ChargedRisk, maxRisk, slots, 0.0, 0);
    } else {
      GreedySkips(sorted[0], sorted[1..], ChargedRisk, maxRisk, slots, 0.0, 0);
    }
  }

  /** The rest of `apply_risk_filters` once there are `slots` free slots: read the budget
      (an error escapes) and select within it. */
  function FilterWithinBalance(s: Session, cfg: Config, t: Trace, trades: seq<Trade>, slots: int)
    : (r: Run<Result<seq<Trade>>>)
    ensures |r.trace| == |t| + 1 && r.trace[..|t|] == t
    ensures r.trace[|t|].call == AccountsCall
    ensures var budget := CalculateMaxRiskAmount(s, cfg, t).out;
            budget.Failure? ==> r.out == Failure(budget.error)
  {
    var budget := CalculateMaxRiskAmount(s, cfg, t);
    match budget.out
    case Failure(e) => Run(budget.trace, Failure(e))
    case Success(maxRisk) => Run(budget.trace, SelectWithinBudget(trades, maxRisk, slots))
  }

  /** With the budget read, the outcome is the selection within it. */
  lemma FilterWithinBalanceSelects(s: Session, cfg: Config, t: Trace, trades: seq<Trade>, slots: int)
    ensures var budget := CalculateMaxRiskAmount(s, cfg, t).out;
            budget.Success? ==>
              FilterWithinBalance(s, cfg, t, trades, slots).out
              == SelectWithinBudget(trades, budget.value, slots)
  {
  }

  /** `apply_risk_filters`: count the positions (an error escapes); with no free slot, nothing
      and no balance request; otherwise read the budget and select. */
  function ApplyRiskFilters(s: Session, cfg: Config, t: Trace, trades: seq<Trade>)
    : (r: Run<Result<seq<Trade>>>)
    ensures |t| < |r.trace| <= |t| + 2 && r.trace[..|t|] == t
    ensures r.trace[|t|].call == PositionsCall(None)
  {
    var count := CountActivePositions(s, t);
    match count.out
    case Failure(e) => Run(count.trace, Failure(e))
    case Success(n) =>
      var slots := cfg.maxPositions - n;
      if slots <= 0 then Run(count.trace, Success([]))
      else
        var r := FilterWithinBalance(s, cfg, count.trace, trades, slots);
        assert r.trace[..|t| + 1] == count.trace;
        assert r.trace[|t|] == count.trace[|t|] && r.trace[..|t|] == count.trace[..|t|];
        r
  }

  /** A failed position count escapes, after that one request. */
  lemma ApplyRiskFiltersCountFails(s: Session, cfg: Config, t: Trace, trades: seq<Trade>)
    ensures var count := CountActivePositions(s, t);
            count.out.Failure? ==>
              ApplyRiskFilters(s, cfg, t, trades) == Run(count.trace, Failure(count.out.error))
  {
  }

  /** With no free slot nothing is selected and the balance is not requested. */
  lemma ApplyRiskFiltersNoSlot(s: Session, cfg: Config, t: Trace, trades: seq<Trade>)
    ensures var count := CountActivePositions(s, t);
            count.out.Success? && cfg.maxPositions - count.out.value <= 0 ==>
              ApplyRiskFilters(s, cfg, t, trades) == Run(count.trace, Success([]))
  {
  }

  /** With free slots, the budget is read after the count and the selection gets those slots. */
  lemma ApplyRiskFiltersWithSlots(s: Session, cfg: Config, t: Trace, trades: seq<Trade>)
    ensures var count := CountActivePositions(s, t);
            count.out.Success? && cfg.maxPositions - count.out.value > 0 ==>
              ApplyRiskFilters(s, cfg, t, trades)
              == FilterWithinBalance(s, cfg, count.trace, trades, cfg.maxPositions - count.out.value)
  {
  }

  /** End to end, with free slots: exactly two requests, the balance second; a balance error
      escapes, and otherwise the outcome is the selection within that budget and slots. */
  lemma ApplyRiskFiltersSelects(s: Session, cfg: Config, t: Trace, trades: seq<Trade>)
    ensures var r := ApplyRiskFilters(s, cfg, t, trades);
            var count := CountActivePositions(s, t).out;
            count.Success? && cfg.maxPositions - count.value > 0 ==>
              && |r.trace| == |t| + 2
              && r.trace[|t| + 1].call == AccountsCall
              && var budget := CalculateMaxRiskAmount(s, cfg, r.trace[..|t| + 1]).out;
                 && (budget.Failure? ==> r.out == Failure(budget.error))
                 && (budget.Success? ==>
                       r.out == SelectWithinBudget(trades, budget.value, cfg.maxPositions - count.value))
  {
    var count := CountActivePositions(s, t);
    if count.out.Success? && cfg.maxPositions - count.out.value > 0 {
      var slots := cfg.maxPositions - count.out.value;
      ApplyRiskFiltersWithSlots(s, cfg, t, trades);
      FilterWithinBalanceSelects(s, cfg, count.trace, trades, slots);
      var r := FilterWithinBalance(s, cfg, count.trace, trades, slots);
      assert r.trace[..|t| + 1] == count.trace;
    }
  }

  /** What the filter promises its caller: only offered trades, in confidence order, and
      never more than the free slots allow. */
  lemma ApplyRiskFiltersWithinLimits(s: Session, cfg: Config, t: Trace, trades: seq<Trade>)
    ensures var r := ApplyRiskFilters(s, cfg, t, trades);
            var count := CountActivePositions(s, t).out;
            r.out.Success? ==>
              && count.Success?
              && multiset(r.out.value) <= multiset(trades)
              && SortedBy(r.out.value, Rank)
              && (r.out.value == [] || count.value + |r.out.value| <= cfg.maxPositions)
  {
    ApplyRiskFiltersCountFails(s, cfg, t, trades);
    ApplyRiskFiltersNoSlot(s, cfg, t, trades);
    ApplyRiskFiltersSelects(s, cfg, t, trades);
  }

  /** With positive entry prices no trade has a negative risk. */
  lemma ChargedRiskNonNegative(trade: Trade)
    requires trade.entry > 0.0
    ensures ChargedRisk(trade) >= 0.0
  {
    var d := Abs(trade.entry - trade.stopLoss);
    assert d / trade.entry >= 0.0;
  }

  /** When the entry prices are positive, the slots suffice and the total risk fits the
      budget, every trade is kept, in confidence order. */
  lemma SelectKeepsAllThatFits(trades: seq<Trade>, maxRisk: real, slots: int)
    requires forall trade :: trade in trades ==> trade.entry > 0.0
    requires |trades| <= slots
    requires Sum(trades, ChargedRisk) <= maxRisk
    ensures SelectWithinBudget(trades, maxRisk, slots) == Success(SortByConfidence(trades))
  {
    var sorted := SortByConfidence(trades);
    assert forall x :: x in sorted ==> x in trades by {
      assert forall x :: x in sorted <==> x in multiset(sorted);
    }
    forall j | 0 <= j < |sorted| ensures ChargedRisk(sorted[j]) >= 0.0 {
      ChargedRiskNonNegative(sorted[j]);
    }
    SortBySum(trades, Rank, ChargedRisk);
    GreedyKeepsAllThatFits(sorted, ChargedRisk, maxRisk, slots, 0.0, 0);
  }
}
