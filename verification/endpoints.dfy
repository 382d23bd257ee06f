/** The trading and account endpoints of `BitgetClient` (bitget/client.py): the request each
    one builds, and how each reads its reply. */
module Endpoints {
  import opened Results
  import opened Signing
  import opened Gateway

  const MarginCoin: string := "USDT"

  /* ---------- request payloads ---------- */

  /** The body of `set_leverage`. */
  function LeveragePayload(symbol: string, leverage: real): (p: Payload)
    ensures |p| == 3
  {
    [Field("symbol", Str(symbol)), Field("marginCoin", Str(MarginCoin)),
     Field("leverage", Num(leverage))]
  }

  lemma LeveragePayloadFields(symbol: string, leverage: real)
    ensures var p := LeveragePayload(symbol, leverage);
            && DistinctKeys(p)
            && Lookup(p, "symbol") == Some(Str(symbol))
            && Lookup(p, "marginCoin") == Some(Str(MarginCoin))
            && Lookup(p, "leverage") == Some(Num(leverage))
  {
    var p := LeveragePayload(symbol, leverage);
    LookupFindsField(p, 0);
    LookupFindsField(p, 1);
    LookupFindsField(p, 2);
  }

  /** The body of `place_order`: a price only for a limit order that is given one. */
  function OrderPayload(symbol: string, side: string, orderType: string, price: Option<real>,
                        size: real): (p: Payload)
    ensures |p| == if orderType == "limit" && price.Some? then 6 else 5
  {
    var common := [Field("symbol", Str(symbol)), Field("marginCoin", Str(MarginCoin)),
                   Field("side", Str(side)), Field("orderType", Str(orderType)),
                   Field("size", Num(size))];
    if orderType == "limit" && price.Some? then common + [Field("price", Num(price.value))]
    else common
  }

  lemma OrderPayloadFields(symbol: string, side: string, orderType: string, price: Option<real>,
                           size: real)
    ensures var p := OrderPayload(symbol, side, orderType, price, size);
            && DistinctKeys(p)
            && Lookup(p, "symbol") == Some(Str(symbol))
            && Lookup(p, "marginCoin") == Some(Str(MarginCoin))
            && Lookup(p, "side") == Some(Str(side))
            && Lookup(p, "orderType") == Some(Str(orderType))
            && Lookup(p, "size") == Some(Num(size))
            && Lookup(p, "price")
               == (if orderType == "limit" && price.Some? then Some(Num(price.value)) else None)
  {
    var p := OrderPayload(symbol, side, orderType, price, size);
    OrderPayloadKeys(symbol, side, orderType, price, size);
    LookupFindsField(p, 0);
    LookupFindsField(p, 1);
    LookupFindsField(p, 2);
    LookupFindsField(p, 3);
    LookupFindsField(p, 4);
    if |p| == 6 {
      LookupFindsField(p, 5);
    }
  }

  lemma OrderPayloadKeys(symbol: string, side: string, orderType: string, price: Option<real>,
                         size: real)
    ensures var p := OrderPayload(symbol, side, orderType, price, size);
            && DistinctKeys(p)
            && (|p| == 5 ==> Lookup(p, "price") == None)
  {
  }

  /** The body of `place_stop_order`: a market order without a price, a limit order with an
      execution price; always triggered on the market price and margined in USDT. */
  function PlanPayload(symbol: string, side: string, size: real, triggerPrice: real,
                       price: Option<real>): (p: Payload)
    ensures |p| == if price.Some? then 8 else 7
  {
    var common := [Field("symbol", Str(symbol)), Field("marginCoin", Str(MarginCoin)),
                   Field("side", Str(side)), Field("size", Num(size)),
                   Field("triggerPrice", Num(triggerPrice)),
                   Field("triggerType", Str("market_price")),
                   Field("orderType", Str(if price == None then "market" else "limit"))];
    if price.Some? then common + [Field("executePrice", Num(price.value))] else common
  }

  lemma PlanPayloadFields(symbol: string, side: string, size: real, triggerPrice: real,
                          price: Option<real>)
    ensures var p := PlanPayload(symbol, side, size, triggerPrice, price);
            && DistinctKeys(p)
            && Lookup(p, "symbol") == Some(Str(symbol))
            && Lookup(p, "marginCoin") == Some(Str(MarginCoin))
            && Lookup(p, "side") == Some(Str(side))
            && Lookup(p, "size") == Some(Num(size))
            && Lookup(p, "triggerPrice") == Some(Num(triggerPrice))
            && Lookup(p, "triggerType") == Some(Str("market_price"))
            && Lookup(p, "orderType") == Some(Str(if price.None? then "market" else "limit"))
            && (Lookup(p, "executePrice").Some? <==> price.Some?)
            && (price.Some? ==> Lookup(p, "executePrice") == Some(Num(price.value)))
  {
    if price.None? {
      PlanMarketFields(symbol, side, size, triggerPrice);
    } else {
      PlanLimitFields(symbol, side, size, triggerPrice, price.value);
    }
  }

  /** The fields of a market plan order, which has no execution price. */
  lemma PlanMarketFields(symbol: string, side: string, size: real, triggerPrice: real)
    ensures var p := PlanPayload(symbol, side, size, triggerPrice, None);
            && |p| == 7
            && DistinctKeys(p)
            && Lookup(p, "symbol") == Some(Str(symbol))
            && Lookup(p, "marginCoin") == Some(Str(MarginCoin))
            && Lookup(p, "side") == Some(Str(side))
            && Lookup(p, "size") == Some(Num(size))
            && Lookup(p, "triggerPrice") == Some(Num(triggerPrice))
            && Lookup(p, "triggerType") == Some(Str("market_price"))
            && Lookup(p, "orderType") == Some(Str("market"))
            && Lookup(p, "executePrice") == None
  {
    var p := PlanPayload(symbol, side, size, triggerPrice, None);
    PlanMarketKeys(symbol, side, size, triggerPrice);
    PlanMarketHasNoPrice(symbol, side, size, triggerPrice);
    LookupFindsField(p, 0);
    LookupFindsField(p, 1);
    LookupFindsField(p, 2);
    LookupFindsField(p, 3);
    LookupFindsField(p, 4);
    LookupFindsField(p, 5);
    LookupFindsField(p, 6);
  }

  /** The fields of a limit plan order, which carries its execution price last. */
  lemma PlanLimitFields(symbol: string, side: string, size: real, triggerPrice: real,
                        price: real)
    ensures var p := PlanPayload(symbol, side, size, triggerPrice, Some(price));
            && DistinctKeys(p)
            && Lookup(p, "symbol") == Some(Str(symbol))
            && Lookup(p, "marginCoin") == Some(Str(MarginCoin))
            && Lookup(p, "side") == Some(Str(side))
            && Lookup(p, "size") == Some(Num(size))
            && Lookup(p, "triggerPrice") == Some(Num(triggerPrice))
            && Lookup(p, "triggerType") == Some(Str("market_price"))
            && Lookup(p, "orderType") == Some(Str("limit"))
            && Lookup(p, "executePrice") == Some(Num(price))
  {
    var p := PlanPayload(symbol, side, size, triggerPrice, Some(price));
    PlanLimitKeys(symbol, side, size, triggerPrice, price);
    LookupFindsField(p, 0);
    LookupFindsField(p, 1);
    LookupFindsField(p, 2);
    LookupFindsField(p, 3);
    LookupFindsField(p, 4);
    LookupFindsField(p, 5);
    LookupFindsField(p, 6);
    LookupFindsField(p, 7);
  }

  lemma PlanLimitKeys(symbol: string, side: string, size: real, triggerPrice: real, price: real)
    ensures var p := PlanPayload(symbol, side, size, triggerPrice, Some(price));
            |p| == 8 && DistinctKeys(p)
  {
  }

  lemma PlanMarketKeys(symbol: string, side: string, size: real, triggerPrice: real)
    ensures var p := PlanPayload(symbol, side, size, triggerPrice, None);
            |p| == 7 && DistinctKeys(p)
  {
  }

  lemma PlanMarketHasNoPrice(symbol: string, side: string, size: real, triggerPrice: real)
    ensures Lookup(PlanPayload(symbol, side, size, triggerPrice, None), "executePrice") == None
  {
  }

  /* ---------- calls ---------- */

  function LeverageCall(symbol: string, leverage: real): Call {
    Call("POST", "/account/setLeverage", [], Some(LeveragePayload(symbol, leverage)))
  }

  function OrderCall(symbol: string, side: string, orderType: string, price: Option<real>,
                     size: real): Call
  {
    Call("POST", "/order/placeOrder", [], Some(OrderPayload(symbol, side, orderType, price, size)))
  }

  function PlanCall(symbol: string, side: string, size: real, triggerPrice: real,
                    price: Option<real>): Call
  {
    Call("POST", "/plan/placePlan", [],
         Some(PlanPayload(symbol, side, size, triggerPrice, price)))
  }

  /** The query of `get_positions`: the margin coin, and the symbol only when one is given and
      it is not empty. */
  function PositionsCall(symbol: Option<string>): (c: Call)
    ensures c.verb == "GET" && c.endpoint == "/position/allPosition" && c.data == None
    ensures |c.params| == if symbol.Some? && symbol.value != "" then 2 else 1
    ensures Lookup(c.params, "marginCoin") == Some(Str(MarginCoin))
    ensures Lookup(c.params, "symbol").Some? <==> symbol.Some? && symbol.value != ""
    ensures Lookup(c.params, "symbol").Some? ==> Lookup(c.params, "symbol") == Some(Str(symbol.value))
  {
    var params := [Field("marginCoin", Str(MarginCoin))]
                  + (if symbol.Some? && symbol.value != "" then [Field("symbol", Str(symbol.value))]
                     else []);
    LookupFindsField(params, 0);
    if |params| == 2 then
      LookupFindsField(params, 1);
      Call("GET", "/position/allPosition", params, None)
    else
      Call("GET", "/position/allPosition", params, None)
  }

  function TickerCall(symbol: string): Call {
    Call("GET", "/market/ticker", [Field("symbol", Str(symbol))], None)
  }

  const AccountsCall: Call := Call("GET", "/account/accounts", [Field("productType", Str("umcbl"))], None)

  const PendingOrdersCall: Call := Call("GET", "/order/pending", [], None)

  const ServerTimeCall: Call := Call("GET", "/market/time", [], None)

  /** A call the path-only verifier accepts however it is signed: its endpoint holds no '?' and
      its body, if any, is not an empty dict (see `Gateway.BuiltRequestsVerify`). */
  predicate Signable(call: Call) {
    '?' !in call.endpoint && call.data != Some([])
  }

  lemma LeverageCallSignable(symbol: string, leverage: real)
    ensures Signable(LeverageCall(symbol, leverage))
  {
  }

  lemma OrderCallSignable(symbol: string, side: string, orderType: string, price: Option<real>,
                          size: real)
    ensures Signable(OrderCall(symbol, side, orderType, price, size))
  {
  }

  lemma PlanCallSignable(symbol: string, side: string, size: real, triggerPrice: real,
                         price: Option<real>)
    ensures Signable(PlanCall(symbol, side, size, triggerPrice, price))
  {
  }

  lemma PositionsCallSignable(filter: Option<string>)
    ensures Signable(PositionsCall(filter))
  {
  }

  /** Every order the client places is signable. */
  lemma OrderCallsSignable(symbol: string, side: string, orderType: string, price: Option<real>,
                           size: real, triggerPrice: real, leverage: real)
    ensures Signable(LeverageCall(symbol, leverage))
    ensures Signable(OrderCall(symbol, side, orderType, price, size))
    ensures Signable(PlanCall(symbol, side, size, triggerPrice, price))
  {
    LeverageCallSignable(symbol, leverage);
    OrderCallSignable(symbol, side, orderType, price, size);
    PlanCallSignable(symbol, side, size, triggerPrice, price);
  }

  /** Every query the client makes is signable, whatever its query string. */
  lemma QueryCallsSignable(symbol: string, filter: Option<string>)
    ensures Signable(PositionsCall(filter))
    ensures Signable(TickerCall(symbol))
    ensures Signable(AccountsCall)
    ensures Signable(PendingOrdersCall)
    ensures Signable(ServerTimeCall)
  {
    PositionsCallSignable(filter);
    assert Signable(TickerCall(symbol));
    assert Signable(AccountsCall);
    assert Signable(PendingOrdersCall);
  }

  /** The request built for a signable call passes the path-only verifier. */
  lemma SignableRequestsVerify(s: Session, millis: nat, call: Call)
    requires Signable(call)
    ensures PathOnlyVerifierAccepts(s.client.apiSecret, s.prims, s.client.baseUrl,
                                    BuildRequest(s.client, s.prims, millis, call))
  {
    BuiltRequestsVerify(s.client, s.prims, millis, call);
  }

  /* ---------- operations ---------- */

  /** `set_leverage`. */
  function SetLeverage(s: Session, t: Trace, symbol: string, leverage: real)
    : (r: Run<Result<Reply>>)
    ensures |r.trace| == |t| + 1 && r.trace[..|t|] == t
    ensures r.trace[|t|].call == LeverageCall(symbol, leverage)
    ensures r.out == Answer(s, |t|, LeverageCall(symbol, leverage))
  {
    Send(s, t, LeverageCall(symbol, leverage))
  }

  /** `place_order`: with a leverage, the leverage is set first, and a failure to set it stops
      the order from being sent; the outcome is the answer to the last request issued. */
  function PlaceOrder(s: Session, t: Trace, symbol: string, side: string, orderType: string,
                      price: Option<real>, size: real, leverage: Option<real>)
    : (r: Run<Result<Reply>>)
    ensures |t| < |r.trace| <= |t| + 2 && r.trace[..|t|] == t
    ensures var order := OrderCall(symbol, side, orderType, price, size);
            if leverage.None? then
              |r.trace| == |t| + 1 && r.trace[|t|].call == order
            else
              && r.trace[|t|].call == LeverageCall(symbol, leverage.value)
              && (|r.trace| == |t| + 2 <==> Answer(s, |t|, r.trace[|t|].call).Success?)
              && (|r.trace| == |t| + 2 ==> r.trace[|t| + 1].call == order)
    ensures r.out == Answer(s, |r.trace| - 1, r.trace[|r.trace| - 1].call)
  {
    var order := OrderCall(symbol, side, orderType, price, size);
    if leverage.Some? then
      var levRun := SetLeverage(s, t, symbol, leverage.value);
      if levRun.out.Failure? then levRun else Send(s, levRun.trace, order)
    else
      Send(s, t, order)
  }

  /** `get_positions`, returning the raw reply. */
  function GetPositions(s: Session, t: Trace, symbol: Option<string>): (r: Run<Result<Reply>>)
    ensures |r.trace| == |t| + 1 && r.trace[..|t|] == t
    ensures r.trace[|t|].call == PositionsCall(symbol)
    ensures r.out == Answer(s, |t|, PositionsCall(symbol))
  {
    Send(s, t, PositionsCall(symbol))
  }

  /** `place_stop_order`. */
  function PlaceStopOrder(s: Session, t: Trace, symbol: string, side: string, size: real,
                          triggerPrice: real, price: Option<real>): (r: Run<Result<Reply>>)
    ensures |r.trace| == |t| + 1 && r.trace[..|t|] == t
    ensures r.trace[|t|].call == PlanCall(symbol, side, size, triggerPrice, price)
    ensures r.out == Answer(s, |t|, PlanCall(symbol, side, size, triggerPrice, price))
  {
    Send(s, t, PlanCall(symbol, side, size, triggerPrice, price))
  }

  /** Reading `data.last` from a ticker reply. */
  function PriceOf(a: Result<Reply>): (r: Result<real>)
    ensures r.Success? <==> a.Success? && a.value.data.Ticker?
    ensures r.Success? ==> r.value == a.value.data.last
    ensures a.Failure? ==> r == Failure(a.error)
  {
    match a
    case Failure(e) => Failure(e)
    case Success(reply) =>
      if reply.data.Ticker? then Success(reply.data.last) else Failure(Malformed("data.last"))
  }

  /** `get_market_price`. */
  function GetMarketPrice(s: Session, t: Trace, symbol: string): (r: Run<Result<real>>)
    ensures |r.trace| == |t| + 1 && r.trace[..|t|] == t
    ensures r.trace[|t|].call == TickerCall(symbol)
    ensures r.out == PriceOf(Answer(s, |t|, TickerCall(symbol)))
  {
    var sent := Send(s, t, TickerCall(symbol));
    Run(sent.trace, PriceOf(sent.out))
  }

  /** The `available` amount of the first USDT account, or 0.0 when there is none. */
  function UsdtAvailable(accounts: seq<Account>): (r: real)
    ensures (forall k :: 0 <= k < |accounts| ==> accounts[k].marginCoin != MarginCoin) ==> r == 0.0
    ensures forall k :: 0 <= k < |accounts| && accounts[k].marginCoin == MarginCoin
                        && (forall j :: 0 <= j < k ==> accounts[j].marginCoin != MarginCoin)
                        ==> r == accounts[k].available
  {
    if accounts == [] then 0.0
    else if accounts[0].marginCoin == MarginCoin then accounts[0].available
    else
      var rest := accounts[1..];
      assert forall k :: 1 <= k < |accounts| ==> accounts[k] == rest[k - 1];
      UsdtAvailable(rest)
  }

  /** Reading the balance from an accounts reply. */
  function BalanceOf(a: Result<Reply>): (r: Result<real>)
    ensures r.Success? <==> a.Success? && a.value.data.AccountList?
    ensures r.Success? ==> r.value == UsdtAvailable(a.value.data.accounts)
    ensures a.Failure? ==> r == Failure(a.error)
  {
    match a
    case Failure(e) => Failure(e)
    case Success(reply) =>
      if reply.data.AccountList? then Success(UsdtAvailable(reply.data.accounts))
      else Failure(Malformed("data"))
  }

  /** `get_account_balance`. */
  function GetAccountBalance(s: Session, t: Trace): (r: Run<Result<real>>)
    ensures |r.trace| == |t| + 1 && r.trace[..|t|] == t
    ensures r.trace[|t|].call == AccountsCall
    ensures r.out == BalanceOf(Answer(s, |t|, AccountsCall))
  {
    var sent := Send(s, t, AccountsCall);
    Run(sent.trace, BalanceOf(sent.out))
  }

  /** `get_pending_orders`. */
  function GetPendingOrders(s: Session, t: Trace): (r: Run<Result<Reply>>)
    ensures |r.trace| == |t| + 1 && r.trace[..|t|] == t
    ensures r.trace[|t|].call == PendingOrdersCall
    ensures r.out == Answer(s, |t|, PendingOrdersCall)
  {
    Send(s, t, PendingOrdersCall)
  }

  /** `test_authentication`: true exactly when the server-time request succeeds. */
  function TestAuthentication(s: Session, t: Trace): (r: Run<bool>)
    ensures |r.trace| == |t| + 1 && r.trace[..|t|] == t
    ensures r.trace[|t|].call == ServerTimeCall
    ensures r.out <==> Answer(s, |t|, ServerTimeCall).Success?
  {
    var sent := Send(s, t, ServerTimeCall);
    Run(sent.trace, sent.out.Success?)
  }
}
