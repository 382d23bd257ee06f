# Bitget trading bot — a Dafny model of its core

The bot places bracket orders on the Bitget futures exchange. This project models its
deterministic core in Dafny:

- **The authenticated client** (`BitgetClient`): client construction; the signing message and
  the signature headers; URL and query building; how a response is classified as a reply or
  an error; the request bodies of the order, plan-order and leverage endpoints; and how the
  position, ticker and account replies are read.
- **The trading strategy** (`TradingStrategy`): position sizing; the five-request bracket
  placed for one trade; the batch over all trades; and the break-even stop update for open
  positions.
- **The risk manager** (`RiskManager`): counting active positions; the balance-based risk
  budget; the admission check for one position; and the stable confidence sort followed by a
  greedy selection under a slot cap and a cumulative risk budget.
- **The numeric helpers** (`bitget/utils.py`): rounding to an increment with Python's
  round-half-to-even, and the position-size formula.

The exchange is an abstract gateway. A `Session` carries:

- the client;
- the library primitives, which are uninterpreted functions: HMAC-SHA256 with base64,
  `json.dumps` and `urlencode`;
- an `Exchange`, which gives the clock reading for the i-th request and the transport result
  the i-th request receives.

Every operation takes the trace of requests issued so far. It returns a `Run`: the extended
trace and an outcome. A Python exception that escapes becomes `Failure(error)` of a `Result`.
An exception caught inside `execute_trade` becomes the `Failed` outcome of a trade. Prices and
sizes are exact `real`s.

Modules, one per concern:

- `Results`: `Option`, `Result`, and the errors the core raises.
- `Text`: `str.upper`, `str.strip`, `str(int)`, and splitting a URL at `?`.
- `Rounding`: `bitget/utils.py`.
- `Signing`: request bodies as dicts, looking up their keys, and `_generate_signature`.
- `Gateway`: the client constructor, `_request` and response classification, and the
  gateway itself.
- `Endpoints`: the public methods of the client.
- `Trades`: the trade-opportunity record.
- `Strategy`: `bot/strategy.py`.
- `Selection`: the generic stable sort and greedy pass.
- `RiskManager`: `bot/risk_manager.py`.

## Behaviour worth knowing

- `round_to_increment` rounds to the nearest multiple of the increment, with exact ties going
  to the even multiple (Python 3's `round`). It can therefore round up as well as down.
- `calculate_position_size` computes the stop distance and then never uses it. The size is
  `risk * leverage / entry` whatever the stop price.
- Both take-profit legs use the same rounded half size. Their sum can exceed the position:
  three contracts split into two legs of two.
- An empty filtered list is falsy, so `execute_all_trades([])` trades every configured
  opportunity. Passing no list does the same.
- Sizing happens before the `try` block. A zero entry price or a zero base increment therefore
  raises out of `execute_trade` and ends the whole batch. A zero tick size raises inside the
  `try` block, after the leverage and entry requests have gone out, and is reported as a
  failed trade.
- In `apply_risk_filters` the risk of every sorted trade is computed, including trades that
  are then skipped. So when a slot is free and the balance read succeeds, a zero entry price
  anywhere in the list fails the whole call. With no free slot the call returns `[]` before
  any risk is computed.
- The HTTP library sends an empty dict body as its JSON text, while the signer signs it as
  the empty string. `Gateway.EmptyBodyFailsVerification` shows that such a request cannot
  pass a verifier that checks what was received. No endpoint of the client sends an empty
  body.

## Model

| member | source | states |
|---|---|---|
| Rounding.RoundHalfEven | bitget/utils.py:12 | Python's `round`: the result is within one half of the argument, and on an exact tie it is even |
| Rounding.RoundHalfEvenUnique | bitget/utils.py:12 | those two properties determine the rounded integer uniquely |
| Rounding.Snap | bitget/utils.py:12 | `round(v / i) * i` is a multiple of `i`, no farther from `v` than half the absolute increment, and an even multiple on a tie |
| Rounding.RoundToIncrement | bitget/utils.py:1-12 | `round_to_increment` fails with a division by zero exactly when the increment is 0; otherwise the result is the nearest multiple, ties to even |
| Rounding.SnapFixesMultiples | bitget/utils.py:12 | a value already on the grid is left unchanged |
| Rounding.RoundToIncrementIdempotent | bitget/utils.py:12 | rounding twice gives the same result as rounding once |
| Rounding.RoundToIncrementMayRoundUp | bitget/utils.py:1-12 | rounding goes to the nearest multiple: 0.6 becomes 1, 1.5 becomes 2 and 2.5 becomes 2 |
| Rounding.FormatRounded | bitget/utils.py:14-38 | `format_price` and `format_size` print some multiple of the increment lying within half an increment of the value, and fail on a zero increment |
| Rounding.FormatRoundedOnGrid | bitget/utils.py:14-38 | a value already on the grid is printed as it is |
| Rounding.CalculatePositionSize | bitget/utils.py:40-60 | the size times the entry price equals risk times leverage; a zero entry price is a division by zero |
| Rounding.PositionSizeIgnoresStop | bitget/utils.py:53-60 | two stop prices give the same size |
| Text.Upper | bitget/client.py:51 | `method.upper()` keeps the length and upper-cases each character |
| Text.UpperEqualIffEqualIgnoringCase | bitget/client.py:51 | two methods upper-case alike exactly when they differ only in letter case |
| Text.UpperIdempotent | bitget/client.py:51 | upper-casing twice gives the same result as upper-casing once |
| Text.Strip | bitget/client.py:21-23 | `strip()` removes exactly the white space at both ends |
| Text.StripIdempotent | bitget/client.py:21-23 | stripping twice gives the same result as stripping once |
| Text.DecimalString | bitget/client.py:81 | `str(int)` gives decimal digits with no leading zero |
| Text.DecimalRoundTrip | bitget/client.py:81 | reading the timestamp text back gives the millisecond count |
| Text.DecimalStringInjective | bitget/client.py:81 | distinct millisecond counts give distinct timestamp headers |
| Text.BeforeQuery | bitget/client.py:84-87 | the part of a URL before the first `?` is a prefix that contains no `?` |
| Text.BeforeQueryOfPath | bitget/client.py:84-87 | splitting `path?query` at the `?` recovers the path |
| Signing.Lookup | bitget/client.py:164-174 | a lookup in a body or in the headers finds a value exactly when a field of that key exists |
| Signing.LookupFindsField | bitget/client.py:93-99 | with distinct keys, a lookup returns the value stored under that key |
| Signing.BodyText | bitget/client.py:47-48 | the body part of the signed message; `Signing.FalsyBodiesSignAlike` states that no body and `{}` both give the empty text |
| Signing.SigningMessage | bitget/client.py:47-51 | the message to sign; its layout is stated by `Signing.MessageLayout` |
| Signing.Signature | bitget/client.py:34-65 | base64 HMAC-SHA256 of that message under the secret; `Signing.SignatureIgnoresMethodCase` and `Gateway.BuiltRequestsVerify` state its properties |
| Signing.MessageLayout | bitget/client.py:48-51 | the signed message is timestamp, upper-cased method, path and body text, laid end to end with no separator |
| Signing.SignatureIgnoresMethodCase | bitget/client.py:51 | "get" and "GET" sign identically |
| Signing.FalsyBodiesSignAlike | bitget/client.py:48 | no body and an empty dict both contribute the empty string, so they sign identically |
| Gateway.NewClient | bitget/client.py:10-30 | the credentials are stripped, and the base URL is the futures or the spot API root |
| Gateway.RequestUrl | bitget/client.py:80-87 | base URL, endpoint, and `?` with the encoded parameters only when there are any; stated by `Gateway.BuildRequest` and `Gateway.SignatureIgnoresQuery` |
| Gateway.BuildRequest | bitget/client.py:80-99 | the URL is base plus endpoint, followed by `?` and the encoded parameters exactly when there are parameters; the method is upper-cased; the key, passphrase and timestamp headers are set and the content type is JSON; the signature header signs timestamp, method, endpoint and body; the request carries the JSON text of the call's data exactly when it has data (`json=data`), which for non-empty data is the body text that was signed |
| Gateway.SignatureIgnoresQuery | bitget/client.py:80-90 | the query reaches the URL, right after the endpoint, but not the signature; cutting the URL at `?` gives back the signed path |
| Gateway.BuiltRequestsVerify | bitget/client.py:80-120 | every request the client builds passes a verifier that recomputes the signature from the timestamp header, the method, the path without the query and the body received, provided the endpoint holds no `?` and the body is not an empty dict |
| Gateway.EmptyBodyFailsVerification | bitget/client.py:90-120 | when the body is an empty dict, that verifier rejects the request, given that HMAC separates messages and the JSON of `{}` is not empty |
| Gateway.ClassifyReports | bitget/client.py:127-143 | a reply is accepted exactly when the status is 200, the body is JSON, and its code is absent or "00000"; each rejection carries the error the code raises |
| Gateway.Classify | bitget/client.py:127-143 | the response handling of `_request`; its outcomes are stated by `Gateway.ClassifyReports` |
| Gateway.Send | bitget/client.py:67-143 | one request is appended to the trace with the clock reading for its position, and the outcome is the classified answer |
| Endpoints.LeveragePayload | bitget/client.py:194-198 | the three-field body of `set_leverage`; its fields are stated by `Endpoints.LeveragePayloadFields` |
| Endpoints.OrderPayload | bitget/client.py:161-174 | the body of `place_order`, six fields for a priced limit order and five otherwise; its fields are stated by `Endpoints.OrderPayloadFields` |
| Endpoints.PlanPayload | bitget/client.py:231-243 | the body of `place_stop_order`, eight fields with an execution price and seven without; its fields are stated by `Endpoints.PlanPayloadFields` |
| Endpoints.LeveragePayloadFields | bitget/client.py:193-199 | the leverage body has symbol, USDT margin coin and leverage, with distinct keys |
| Endpoints.OrderPayloadFields | bitget/client.py:161-174 | the order body has symbol, USDT, side, order type and size, and a price exactly for a limit order given one |
| Endpoints.PlanPayloadFields | bitget/client.py:231-243 | the plan body always triggers on the market price in USDT; its order type is "market" exactly when no price is given; `executePrice` is present exactly when a price is given |
| Endpoints.PositionsCall | bitget/client.py:211-215 | a GET of `/position/allPosition` with no body whose only parameters are the USDT margin coin and, exactly when a non-empty one is given, the symbol |
| Endpoints.LeverageCall | bitget/client.py:193-199 | a POST of the leverage body to `/account/setLeverage`; signable by `Endpoints.OrderCallsSignable` |
| Endpoints.OrderCall | bitget/client.py:161-180 | a POST of the order body to `/order/placeOrder`; signable by `Endpoints.OrderCallsSignable` |
| Endpoints.PlanCall | bitget/client.py:231-245 | a POST of the plan body to `/plan/placePlan`; signable by `Endpoints.OrderCallsSignable` |
| Endpoints.TickerCall | bitget/client.py:257-259 | a GET of `/market/ticker` with the symbol as its only parameter; signable by `Endpoints.QueryCallsSignable` |
| Endpoints.OrderCallsSignable | bitget/client.py:161-245 | every order, plan and leverage request is signable |
| Endpoints.QueryCallsSignable | bitget/client.py:201-293 | every query request is signable |
| Endpoints.SignableRequestsVerify | bitget/client.py:67-143 | a signable request passes the path-only verifier |
| Endpoints.SetLeverage | bitget/client.py:182-199 | one leverage request; its answer is the outcome |
| Endpoints.PlaceOrder | bitget/client.py:146-180 | with a leverage, the leverage request goes first, and the order is sent exactly when that request succeeds; without one, only the order is sent; the outcome is the last answer |
| Endpoints.GetPositions | bitget/client.py:201-215 | one positions request; its answer is the outcome |
| Endpoints.PlaceStopOrder | bitget/client.py:217-245 | one plan request; its answer is the outcome |
| Endpoints.PriceOf | bitget/client.py:260 | the price is `data.last` of a ticker reply; an error or a reply of another shape fails |
| Endpoints.GetMarketPrice | bitget/client.py:247-260 | one ticker request for the symbol; the outcome is its price |
| Endpoints.UsdtAvailable | bitget/client.py:270-273 | the available amount of the first USDT account, or 0.0 when there is none |
| Endpoints.BalanceOf | bitget/client.py:269-273 | an accounts reply gives the first USDT balance; an error escapes |
| Endpoints.GetAccountBalance | bitget/client.py:262-273 | one accounts request with the `umcbl` product type; the outcome is the balance |
| Endpoints.GetPendingOrders | bitget/client.py:275-282 | one pending-orders request; its answer is the outcome |
| Endpoints.TestAuthentication | bitget/client.py:284-298 | true exactly when the server-time request succeeds; an error never escapes |
| Strategy.Halfway | bot/strategy.py:62 | the halfway price is equally far from both ends |
| Strategy.SendInOrder | bot/strategy.py:47-91 | the statements of the `try` block add at most one request each, on top of the unchanged trace |
| Strategy.SendInOrderTrace | bot/strategy.py:47-91 | the requests that go out are the block's calls in order, each stamped for its place in the trace |
| Strategy.SendInOrderEarlierSucceeded | bot/strategy.py:47-91 | a request is issued only after every earlier one was answered successfully |
| Strategy.SendInOrderStopsAtFailure | bot/strategy.py:47-106 | every request before the last succeeded; the sequence succeeds exactly when all requests went out and the last succeeded; a failure is the last request's error |
| Strategy.SendInOrderReplies | bot/strategy.py:47-99 | on success there is one reply per request, and each reply is the answer to its request |
| Strategy.PositionSize | bot/strategy.py:35-41 | the size fails with a division by zero exactly when the entry or the base increment is 0; otherwise it is a multiple of the increment within half an increment of risk times leverage over entry, the even multiple on an exact tie |
| Strategy.PositionSizeIsRoundedRawSize | bot/strategy.py:35-41 | for a non-zero entry the size is `round_to_increment` of risk times leverage over entry, with the base increment |
| Strategy.BracketCalls | bot/strategy.py:47-91 | five requests, or two when a zero tick size stops the block after the entry order |
| Strategy.BracketOpening | bot/strategy.py:48-58 | the configured leverage for the symbol is set, then a limit buy of the whole position at the entry price is placed |
| Strategy.PlanCallBody | bitget/client.py:231-243 | a market plan order carries the given symbol, side, size and trigger price in its body |
| Strategy.BracketTakeProfits | bot/strategy.py:61-82 | then come two market sell take-profit legs for the trade's symbol, of the same size, within one increment of the position when doubled, triggered within half a tick of the midpoint and at the target |
| Strategy.BracketStopLoss | bot/strategy.py:84-90 | and last a market sell stop loss for the trade's symbol, for the whole position at the stop price |
| Strategy.ExecuteTrade | bot/strategy.py:19-106 | a zero entry price or size increment raises before anything is sent, and escapes; otherwise at least one and at most five requests are added to the trace |
| Strategy.ExecuteTradeTrace | bot/strategy.py:47-91 | the requests that go out are the bracket's, in its order, as far as they get |
| Strategy.ExecuteTradeEarlierSucceeded | bot/strategy.py:47-91 | each bracket request is issued only after all earlier ones succeeded |
| Strategy.ExecuteTradePlaced | bot/strategy.py:47-106 | the trade is placed exactly when all five requests went out and the last succeeded, and then holds the four order replies |
| Strategy.ExecuteTradeFailed | bot/strategy.py:93-106 | a failed request gives a failed trade with that request's error, and nothing is undone; a failure after a successful last request can only be the zero tick size |
| Strategy.HalfSize | bot/strategy.py:66 | half the position rounded to the base increment; bounded by `Strategy.TakeProfitSplitBound` |
| Strategy.PartialTakeProfit | bot/strategy.py:62-63 | the midpoint rounded to the tick size; placed by `Strategy.PartialTakeProfitNearMidpoint` |
| Strategy.TakeProfitSplitBound | bot/strategy.py:66-90 | the two take-profit legs together differ from the position by at most one increment |
| Strategy.TakeProfitLegsCanExceedPosition | bot/strategy.py:66-81 | with increment 1, a position of 3 gets two legs of 2 |
| Strategy.PartialTakeProfitNearMidpoint | bot/strategy.py:62-63 | the first take-profit trigger is within half a tick of the midpoint, on the even multiple of the tick on an exact tie, so it lies strictly between entry and target when they are two ticks apart |
| Strategy.RunBatch | bot/strategy.py:121-128 | one tagged result per trade, in input order, under the trade's symbol; the batch fails exactly when some trade has a zero entry or increment |
| Strategy.BatchConcat | bot/strategy.py:121-128 | a batch over `a + b` runs `a`, then `b` from where `a` left off; a failed trade does not stop the later ones |
| Strategy.BatchOfOne | bot/strategy.py:121-126 | a batch of one reports that trade's outcome under its symbol |
| Strategy.EmptyFilterRunsEveryOpportunity | bot/strategy.py:118 | no filtered list, or an empty one, runs every opportunity; a non-empty list runs exactly that list |
| Strategy.ExecuteAllTrades | bot/strategy.py:108-128 | the batch over the filtered list when it is non-empty, else over every opportunity; stated by `Strategy.EmptyFilterRunsEveryOpportunity` with `Strategy.RunBatch` |
| Strategy.FirstFor | bot/strategy.py:147 | finds a trade exactly when one has the symbol, and then the first such trade |
| Strategy.EvaluatePosition | bot/strategy.py:136-171 | a flat position, or one without a trade, issues nothing; otherwise the price is read; a stop for half the position at the average open price is placed exactly when the price reached halfway to the target; only a failed price read fails, since a failed stop is caught |
| Strategy.EvaluatePositions | bot/strategy.py:136-171 | at most two requests per position; with only flat positions, nothing is issued |
| Strategy.EvaluatePositionsOfOne | bot/strategy.py:136-171 | the loop over one position is that position's evaluation |
| Strategy.EvaluatePositionsConcat | bot/strategy.py:136-171 | the loop evaluates each position in turn, each from where the previous left the trace; only a failed price read ends it, so a caught stop failure does not |
| Strategy.UpdateTrailingStops | bot/strategy.py:130-171 | the unfiltered positions request goes first; its failure, or a reply without a position list, escapes after that single request; otherwise the run is the loop over the listed positions, on the trace after that request |
| Strategy.EvaluatePositionRepeats | bot/strategy.py:136-171 | against an exchange that always answers alike, a position is evaluated alike wherever the run starts |
| Strategy.EvaluatePositionsRepeat | bot/strategy.py:136-171 | so is the whole loop over positions |
| Strategy.TrailingStopsRepeat | bot/strategy.py:130-171 | no memory of moved stops: a second update issues exactly the same requests again |
| Selection.Insert | bot/risk_manager.py:86-90 | inserting keeps the order sorted and adds exactly one element |
| Selection.InsertGroups | bot/risk_manager.py:86-90 | the inserted element goes to the front of its key group, and the other groups are untouched |
| Selection.SortBy | bot/risk_manager.py:86-90 | the sort is a permutation and is ordered by descending key |
| Selection.SortByStable | bot/risk_manager.py:86-90 | elements with equal keys keep their input order |
| Selection.GroupsOfCons | bot/risk_manager.py:86-90 | an element that outranks everything after it heads the key groups |
| Selection.SortedIsGroups | bot/risk_manager.py:79-90 | a sorted sequence with keys of at most 3 is its key groups laid end to end |
| Selection.SortByIsGrouping | bot/risk_manager.py:79-90 | hence the sort is fully determined: key 3, then 2, 1 and 0, each group in input order |
| Selection.SubsequenceFacts | bot/risk_manager.py:95-100 | a subsequence keeps a sub-multiset of the elements and keeps any key order |
| Selection.SumConcat | bot/risk_manager.py:93-100 | the running risk is additive over concatenation |
| Selection.InsertSum | bot/risk_manager.py:86-100 | inserting adds exactly the element's cost to the total |
| Selection.SortBySum | bot/risk_manager.py:86-100 | sorting does not change the total risk |
| Selection.Greedy | bot/risk_manager.py:93-104 | the greedy pass; it keeps at most what it is offered, and `Selection.GreedyTakes`, `Selection.GreedySkips` and `Selection.GreedyConcat` fix its every step |
| Selection.GreedyBounds | bot/risk_manager.py:93-104 | the greedy pass keeps a subsequence, fills at most the free slots, and ends within budget |
| Selection.GreedyConcat | bot/risk_manager.py:95-102 | the pass does not stop early: after a prefix it continues with the rest, from the prefix's total and count |
| Selection.GreedyKeepsAllThatFits | bot/risk_manager.py:95-100 | when no cost is negative and everything fits, nothing is dropped |
| Selection.GreedySkips | bot/risk_manager.py:98-102 | an element that does not fit is skipped, and the state is unchanged |
| Selection.GreedyTakes | bot/risk_manager.py:98-100 | an element that fits the budget and a free slot is kept, and the pass goes on with its cost and slot taken |
| RiskManager.ActiveCount | bot/risk_manager.py:34 | the number of positions with a positive total: 0 exactly when every total is at most 0, and all of them exactly when every total is positive |
| RiskManager.ActiveCountConcat | bot/risk_manager.py:34 | the count is additive over concatenation |
| RiskManager.PositionsOf | bot/risk_manager.py:33-34 | a position list is read from a positions reply; anything else fails |
| RiskManager.CountActivePositions | bot/risk_manager.py:26-35 | one unfiltered positions request; the outcome is the active count, or its error |
| RiskManager.CalculateMaxRiskAmount | bot/risk_manager.py:15-24 | one balance request; the budget times 100 equals the balance times the percentage |
| RiskManager.CanTakeNewPosition | bot/risk_manager.py:37-58 | refused at the position limit without a balance request; otherwise allowed exactly when the risk is within the budget; errors escape |
| RiskManager.Score | bot/risk_manager.py:79-88 | High scores 3, Medium-High 2, Medium 1, and any other label 0 |
| RiskManager.Rank | bot/risk_manager.py:79-90 | the sort key: a trade's confidence score, at most 3 |
| RiskManager.SortByConfidence | bot/risk_manager.py:86-90 | the sorted trades are a permutation, highest confidence first |
| RiskManager.SortByConfidenceIsGrouping | bot/risk_manager.py:79-90 | the sort gives the High trades, then Medium-High, then Medium, then the rest, each in input order |
| RiskManager.SelectWithinBudget | bot/risk_manager.py:86-104 | fails with a division by zero exactly when some entry is 0; otherwise keeps a subsequence of the sorted trades, in confidence order, with at most the free slots and total risk within budget |
| RiskManager.ChargedRiskNonNegative | bot/risk_manager.py:96 | with a positive entry price, a trade's risk is not negative |
| RiskManager.ChargedRisk | bot/risk_manager.py:96 | the relative stop distance times 6 USD; non-negative by `RiskManager.ChargedRiskNonNegative` |
| RiskManager.SelectWithinBudgetIsGreedy | bot/risk_manager.py:86-104 | a successful selection is the greedy pass over the confidence-sorted trades from no risk and no trade kept |
| RiskManager.SelectWithinBudgetFirst | bot/risk_manager.py:93-102 | the first sorted trade is kept exactly when its risk fits the budget and a slot is free, and either way the pass goes on over the rest |
| RiskManager.SelectKeepsAllThatFits | bot/risk_manager.py:95-104 | with positive entries, enough slots and total risk within budget, every trade is kept, in confidence order |
| RiskManager.FilterWithinBalance | bot/risk_manager.py:92-104 | with free slots, one balance request follows; its error escapes |
| RiskManager.FilterWithinBalanceSelects | bot/risk_manager.py:92-104 | once the budget is read, the outcome is the selection within that budget and those slots |
| RiskManager.ApplyRiskFilters | bot/risk_manager.py:70-104 | the positions request goes first, and at most one more request (the balance) follows |
| RiskManager.ApplyRiskFiltersCountFails | bot/risk_manager.py:71 | an error while counting positions escapes, after that one request |
| RiskManager.ApplyRiskFiltersNoSlot | bot/risk_manager.py:71-76 | with no free slot, the result is an empty list and the balance is never requested |
| RiskManager.ApplyRiskFiltersWithSlots | bot/risk_manager.py:72-104 | with free slots, the rest runs on the trace after the count, with as many slots as are free |
| RiskManager.ApplyRiskFiltersSelects | bot/risk_manager.py:70-104 | with free slots, exactly two requests go out, the balance second; a balance error escapes, and otherwise the result is the confidence-ordered greedy selection within that budget and those slots |
| RiskManager.ApplyRiskFiltersWithinLimits | bot/risk_manager.py:70-104 | a successful result holds only offered trades, in confidence order, and together with the open positions never exceeds the position limit |

## Left out

- HMAC-SHA256, base64, `json.dumps` and `urlencode` are uninterpreted parameters.
  `hmac.new` and its encodings are not modelled.
- The wall clock (`time.time()`) is the exchange's `clock` function. The HTTP session is the
  exchange's `respond` function.
- The trace records each request as its logical call and its clock reading. The HTTP request
  itself is `Gateway.RequestOf` of a trace entry. It is not stored, because it is a function
  of the two.
- Debug printing is not modelled. This includes the masked passphrase and every `print`.
- Float arithmetic is not modelled; prices and sizes are exact reals. The text `str(size)` or
  `str(price)` puts in a body is not modelled either: a body field holds the number
  (`Num(x)`), and rendering it is the JSON encoder's business.
- `float(...)` parsing of reply fields is not modelled. Reply data arrives already typed, as
  `Data`.
- A JSON object reply whose `data` has the wrong shape for its endpoint becomes `Malformed`.
  This stands for the KeyError or TypeError the source raises. Missing keys in a trade record
  (a KeyError) are not modelled: a `Trade` always has all its fields.
- Text.Upper: upper-cases ASCII letters only, while Python's `str.upper` also maps non-ASCII
  letters. The client only upper-cases "GET" and "POST".
- Gateway.ClassifyReports: a body that is not JSON is reported as `UndecodableReply`. Which
  exception class the HTTP library uses for this differs between library versions. Either
  way the call fails.
- Gateway.ClassifyReports: a status-200 body that is JSON but not an object (a list, say) is
  also reported as `UndecodableReply`. The source instead raises `AttributeError` from
  `resp_json.get`. Either way the call fails with an exception.
- `place_order` with its default `size=None` is not modelled. Every caller in the core passes
  a size.
- How the real Bitget server verifies signatures is not modelled. The path-only verifier
  encodes the client's own assumption.
- Out of scope: `main.py` (configuration loading, the polling loop, monitoring) and
  `auth_test.py` (file I/O and printed diagnostics). `timestamp_to_date` is also left out:
  it is date formatting by the datetime library.
