/**
 * The Zaif adapter: a stateful client whose nonce grows with every
 * request, POST bodies signed with HMAC-SHA512, a bounded retry loop on
 * the "time wait restriction" error, and the mapping of each returned
 * trade to a trade record (action, fee in the base currency converted by
 * price, a bonus that counts only when positive, and remarks).
 */
module Zaif {
  import opened Results
  import opened Text
  import opened Platform
  import opened Services

  const Endpoint: string := "https://api.zaif.jp/tapi"
  const TradeHistoryMethod: string := "trade_history"
  /** The phrase that marks a rate-limit reply worth retrying. */
  const TimeWaitRestriction: string := "time wait restriction"
  /** The attempt budget `NewZaif` gives every client. */
  const MaxAttempts: int := 10
  /** The value of `serviceName` in every record this adapter produces. */
  const RecordTag: string := "Zaif"

  /** One trade of the `trade_history` reply. */
  datatype Data = Data(
    currencyPair: string,
    action: string,
    amount: real,
    price: real,
    fee: real,
    feeAmount: real,
    yourAction: string,
    bonus: real,
    timestamp: int,
    comment: string)

  /**
   * The reply envelope.  `trades` holds the values of the `return` object
   * in the order in which this run's map iteration visits them (Go does
   * not fix that order); its keys are never read.
   */
  datatype Response = Response(success: int, trades: seq<Data>, error: string)

  /** What one request yields: a transport error, a body that does not decode, or a decoded envelope. */
  datatype Reply = TransportError(error: string) | DecodeError(error: string) | Decoded(response: Response)

  /** The envelope a response variable holds before anything is decoded into it. */
  const NoResponse: Response := Response(0, [], "")

  predicate IsTimeWait(error: string) {
    Contains(error, TimeWaitRestriction)
  }

  /** A reply that the retry loop treats as temporary. */
  predicate Transient(reply: Reply) {
    reply.Decoded? && reply.response.success != 1 && IsTimeWait(reply.response.error)
  }

  /**
   * A failed reply is retried exactly when its error message holds the
   * time-wait phrase somewhere; any other failed reply is not.
   */
  lemma TransientMeaning(reply: Reply)
    ensures Transient(reply) <==>
      reply.Decoded? && reply.response.success != 1 &&
      exists a: string, b: string :: reply.response.error == a + TimeWaitRestriction + b
  {
    if reply.Decoded? {
      ContainsMeaning(reply.response.error, TimeWaitRestriction);
    }
  }

  // ---------------------------------------------------------------------
  // Requests

  /** The check the exchange makes: the `Sign` header is the HMAC-SHA512 of the body under the secret. */
  predicate Authentic(secret: string, req: HttpRequest, prim: Primitives) {
    Header(req, "Sign") == Some(prim.hexEncode(prim.hmacSha512(secret, req.body)))
  }

  /** `req` is the signed POST of `form` under these credentials. */
  predicate SignedFor(key: string, secret: string, form: Form, req: HttpRequest, prim: Primitives) {
    req.verb == "POST" && req.url == Endpoint &&
    req.body == prim.encodeForm(form) &&
    Header(req, "Key") == Some(key) &&
    Authentic(secret, req, prim)
  }

  /** The signed POST of `form`: the encoded query is the body, signed with the secret. */
  function SignedPost(key: string, secret: string, form: Form, prim: Primitives): HttpRequest {
    var body := prim.encodeForm(form);
    HttpRequest("POST", Endpoint, [("Key", key), ("Sign", prim.hexEncode(prim.hmacSha512(secret, body)))], body)
  }

  /** A signed POST carries the key, sends the encoded query, and passes the exchange's check. */
  lemma SignedPostAuthentic(key: string, secret: string, form: Form, prim: Primitives)
    ensures SignedFor(key, secret, form, SignedPost(key, secret, form, prim), prim)
  {
    var req := SignedPost(key, secret, form, prim);
    assert HeaderIn(req.headers, "Sign") == HeaderIn(req.headers[1..], "Sign");
  }

  /** The history query before any request: the start of the window and the pair. */
  function BaseParams(pair: string, since: int): Form {
    Added(Added(map[], "since", Decimal(since)), "currency_pair", pair)
  }

  /** The shared query after `count` requests by a client whose nonce started at `n0`. */
  function ParamsAfter(pair: string, since: int, n0: int, count: nat): Form {
    if count == 0 then BaseParams(pair, since)
    else Added(Added(ParamsAfter(pair, since, n0, count - 1), "method", TradeHistoryMethod), "nonce", Decimal(n0 + count - 1))
  }

  /** `n` copies of `s`. */
  function Copies(s: string, n: nat): (r: seq<string>)
    ensures |r| == n && forall i :: 0 <= i < n ==> r[i] == s
  {
    if n == 0 then [] else Copies(s, n - 1) + [s]
  }

  /** The nonces `n0`, `n0 + 1`, ..., `n0 + count - 1`, in decimal. */
  function Nonces(n0: int, count: nat): (r: seq<string>)
    ensures |r| == count
  {
    if count == 0 then [] else Nonces(n0, count - 1) + [Decimal(n0 + count - 1)]
  }

  /** The `i`-th nonce string is the integer `n0 + i`. */
  lemma {:induction false} NonceAt(n0: int, count: nat, i: nat)
    requires i < count
    ensures Nonces(n0, count)[i] == Decimal(n0 + i)
  {
    var init := Nonces(n0, count - 1);
    assert Nonces(n0, count) == init + [Decimal(n0 + count - 1)];
    if i < count - 1 {
      NonceAt(n0, count - 1, i);
      assert Nonces(n0, count)[i] == init[i];
    }
  }

  /** The nonce strings are the successive integers from `n0`. */
  lemma NoncesAt(n0: int, count: nat)
    ensures forall i :: 0 <= i < count ==> Nonces(n0, count)[i] == Decimal(n0 + i)
  {
    forall i | 0 <= i < count {
      NonceAt(n0, count, i);
    }
  }

  /** No two nonces sent by one client are equal. */
  lemma NoncesDistinct(n0: int, count: nat)
    ensures forall i, j :: 0 <= i < j < count ==> Nonces(n0, count)[i] != Nonces(n0, count)[j]
  {
    forall i, j | 0 <= i < j < count
      ensures Nonces(n0, count)[i] != Nonces(n0, count)[j]
    {
      NoncesDiffer(n0, count, i, j);
    }
  }

  /** Two different positions carry the renderings of two different integers. */
  lemma NoncesDiffer(n0: int, count: nat, i: nat, j: nat)
    requires i < j < count
    ensures Nonces(n0, count)[i] != Nonces(n0, count)[j]
  {
    var ns := Nonces(n0, count);
    NonceAt(n0, count, i);
    NonceAt(n0, count, j);
    assert ParseDecimal(ns[i]) == Some(n0 + i) by { DecimalRoundTrip(n0 + i); }
    assert ParseDecimal(ns[j]) == Some(n0 + j) by { DecimalRoundTrip(n0 + j); }
  }

  /**
   * After `count` requests the shared query holds `count` method names and
   * the `count` nonces sent, in the order sent; the window and the pair
   * are still there once.
   */
  lemma {:induction false} ParamsAfterContents(pair: string, since: int, n0: int, count: nat)
    ensures ValuesOf(ParamsAfter(pair, since, n0, count), "since") == [Decimal(since)]
    ensures ValuesOf(ParamsAfter(pair, since, n0, count), "currency_pair") == [pair]
    ensures ValuesOf(ParamsAfter(pair, since, n0, count), "method") == Copies(TradeHistoryMethod, count)
    ensures ValuesOf(ParamsAfter(pair, since, n0, count), "nonce") == Nonces(n0, count)
  {
    if count == 0 {
      AddedValues(map[], "since", Decimal(since));
      AddedValues(Added(map[], "since", Decimal(since)), "currency_pair", pair);
    } else {
      ParamsAfterContents(pair, since, n0, count - 1);
      var before := ParamsAfter(pair, since, n0, count - 1);
      var middle := Added(before, "method", TradeHistoryMethod);
      AddedValues(before, "method", TradeHistoryMethod);
      AddedValues(middle, "nonce", Decimal(n0 + count - 1));
      assert ValuesOf(middle, "since") == ValuesOf(before, "since");
      assert ValuesOf(middle, "currency_pair") == ValuesOf(before, "currency_pair");
      assert ValuesOf(middle, "nonce") == ValuesOf(before, "nonce");
    }
  }

  /** The first `count` history requests of a client whose nonce started at `n0`. */
  function HistoryRequests(key: string, secret: string, pair: string, since: int, n0: int, count: nat, prim: Primitives): (r: seq<HttpRequest>)
    ensures |r| == count
  {
    if count == 0 then []
    else HistoryRequests(key, secret, pair, since, n0, count - 1, prim) + [SignedPost(key, secret, ParamsAfter(pair, since, n0, count), prim)]
  }

  /**
   * The `k`-th history request is the signed POST of the query as it stood
   * after `k + 1` additions of method and nonce, so it carries the nonces
   * `n0` to `n0 + k` (see `ParamsAfterContents`), the key, and a valid
   * signature.
   */
  lemma {:induction false} HistoryRequestsAt(key: string, secret: string, pair: string, since: int, n0: int, count: nat, prim: Primitives, k: nat)
    requires k < count
    ensures HistoryRequests(key, secret, pair, since, n0, count, prim)[k] == SignedPost(key, secret, ParamsAfter(pair, since, n0, k + 1), prim)
    ensures SignedFor(key, secret, ParamsAfter(pair, since, n0, k + 1), HistoryRequests(key, secret, pair, since, n0, count, prim)[k], prim)
  {
    if k < count - 1 {
      HistoryRequestsAt(key, secret, pair, since, n0, count - 1, prim, k);
    }
    SignedPostAuthentic(key, secret, ParamsAfter(pair, since, n0, k + 1), prim);
  }

  /** One more request: the query gains a method and the next nonce, and the signed request joins the history. */
  lemma NextRequest(key: string, secret: string, pair: string, since: int, n0: int, count: nat, form: Form, req: HttpRequest, prim: Primitives)
    requires form == Added(Added(ParamsAfter(pair, since, n0, count), "method", TradeHistoryMethod), "nonce", Decimal(n0 + count))
    requires req == SignedPost(key, secret, form, prim)
    ensures form == ParamsAfter(pair, since, n0, count + 1)
    ensures HistoryRequests(key, secret, pair, since, n0, count, prim) + [req] == HistoryRequests(key, secret, pair, since, n0, count + 1, prim)
  {
  }

  // ---------------------------------------------------------------------
  // The retry loop

  /** How the request loop ends. */
  datatype Outcome =
    | Succeeded(response: Response, attempts: nat)
    | Failed(error: string, attempts: nat)
    | NoAttempt   // an attempt budget below one: the loop body never runs

  /** The reply the loop leaves behind: the error that ended it, the successful reply, or the zero-valued one. */
  function Settled(o: Outcome): Result<Response> {
    match o
    case Succeeded(resp, _) => Ok(resp)
    case Failed(e, _) => Err(e)
    case NoAttempt => Ok(NoResponse)
  }

  function Attempts(o: Outcome): nat {
    match o
    case Succeeded(_, n) => n
    case Failed(_, n) => n
    case NoAttempt => 0
  }

  /**
   * The request loop from attempt `k` on, with replies `wire(0)`, `wire(1)`, ...
   * From an attempt within the budget it makes at least one more request and
   * never exceeds the budget; from outside the budget it makes none.
   */
  function RetryRun(wire: nat -> Reply, retry: int, k: nat): (o: Outcome)
    ensures k < retry ==> k + 1 <= Attempts(o) <= retry
    ensures k >= retry <==> o == NoAttempt
    decreases retry - k
  {
    if k >= retry then NoAttempt
    else match wire(k)
      case TransportError(e) => Failed(e, k + 1)
      case DecodeError(e) => Failed(e, k + 1)
      case Decoded(resp) =>
        if resp.success != 1 then
          if k < retry - 1 && IsTimeWait(resp.error) then RetryRun(wire, retry, k + 1)
          else Failed(resp.error, k + 1)
        else Succeeded(resp, k + 1)
  }

  /**
   * One attempt of the loop: a reply that failed to arrive or decode, a
   * failed reply that is not retried, and a success each end the loop at
   * that attempt; a retried reply moves it on.
   */
  lemma RetryStep(wire: nat -> Reply, retry: int, k: nat)
    requires k < retry
    ensures !wire(k).Decoded? ==>
      Settled(RetryRun(wire, retry, k)) == Err(wire(k).error) && Attempts(RetryRun(wire, retry, k)) == k + 1
    ensures wire(k).Decoded? && wire(k).response.success != 1 && k < retry - 1 && IsTimeWait(wire(k).response.error) ==>
      RetryRun(wire, retry, k) == RetryRun(wire, retry, k + 1)
    ensures wire(k).Decoded? && wire(k).response.success != 1 && !(k < retry - 1 && IsTimeWait(wire(k).response.error)) ==>
      Settled(RetryRun(wire, retry, k)) == Err(wire(k).response.error) && Attempts(RetryRun(wire, retry, k)) == k + 1
    ensures wire(k).Decoded? && wire(k).response.success == 1 ==>
      Settled(RetryRun(wire, retry, k)) == Ok(wire(k).response) && Attempts(RetryRun(wire, retry, k)) == k + 1
  {
  }

  /** With a budget of at least one, between one and `retry` requests are made; with none, no request is made. */
  lemma AttemptBudget(wire: nat -> Reply, retry: int)
    ensures retry >= 1 ==> 1 <= Attempts(RetryRun(wire, retry, 0)) <= retry
    ensures retry < 1 ==> RetryRun(wire, retry, 0) == NoAttempt
  {
  }

  /** Transient replies before the last attempt only move the loop on. */
  lemma {:induction false} TransientPrefix(wire: nat -> Reply, retry: int, n: nat)
    requires n < retry
    requires forall k :: 0 <= k < n ==> Transient(wire(k))
    ensures RetryRun(wire, retry, 0) == RetryRun(wire, retry, n)
  {
    if n > 0 {
      TransientPrefix(wire, retry, n - 1);
      assert Transient(wire(n - 1));
    }
  }

  /** Transient replies to the first `n - 1` requests and success on the `n`-th: the `n`-th reply is used, after exactly `n` requests. */
  lemma SuccessAfterWaits(wire: nat -> Reply, retry: int, n: nat)
    requires 1 <= n <= retry
    requires forall k :: 0 <= k < n - 1 ==> Transient(wire(k))
    requires wire(n - 1).Decoded? && wire(n - 1).response.success == 1
    ensures RetryRun(wire, retry, 0) == Succeeded(wire(n - 1).response, n)
  {
    TransientPrefix(wire, retry, n - 1);
  }

  /** Transient replies to every request: the loop gives up after `retry` requests with the last error. */
  lemma WaitsExhaustBudget(wire: nat -> Reply, retry: int)
    requires retry >= 1
    requires forall k :: 0 <= k < retry ==> Transient(wire(k))
    ensures Transient(wire(retry - 1)) && RetryRun(wire, retry, 0) == Failed(wire(retry - 1).response.error, retry)
  {
    TransientPrefix(wire, retry, retry - 1);
  }

  /** A reply that is neither a success nor transient ends the loop at once with its own error. */
  lemma StopsAtFirstFailure(wire: nat -> Reply, retry: int, n: nat)
    requires n < retry
    requires forall k :: 0 <= k < n ==> Transient(wire(k))
    requires !Transient(wire(n))
    requires !(wire(n).Decoded? && wire(n).response.success == 1)
    ensures RetryRun(wire, retry, 0).Failed?
    ensures RetryRun(wire, retry, 0).attempts == n + 1
    ensures RetryRun(wire, retry, 0).error ==
      (if wire(n).Decoded? then wire(n).response.error else wire(n).error)
  {
    TransientPrefix(wire, retry, n);
  }

  // ---------------------------------------------------------------------
  // Trades to trade records

  /**
   * The remarks hold one to four entries: the raw action first, then the
   * fee and fee amount exactly when either is positive, then the bonus
   * exactly when it is positive.
   */
  function Remarks(d: Data, formatFloat: real -> string): (rs: seq<string>)
    ensures 1 <= |rs| <= 4
    ensures rs[0] == "Action: " + d.action
    ensures |rs| == 1 + (if d.feeAmount > 0.0 || d.fee > 0.0 then 2 else 0) + (if d.bonus > 0.0 then 1 else 0)
    ensures d.feeAmount > 0.0 || d.fee > 0.0 ==> rs[1] == "Fee: " + formatFloat(d.fee) && rs[2] == "Fee Amount: " + formatFloat(d.feeAmount)
    ensures d.bonus > 0.0 ==> rs[|rs| - 1] == "Bonus: " + formatFloat(d.bonus)
  {
    ["Action: " + d.action] +
    (if d.feeAmount > 0.0 || d.fee > 0.0 then ["Fee: " + formatFloat(d.fee), "Fee Amount: " + formatFloat(d.feeAmount)] else []) +
    (if d.bonus > 0.0 then ["Bonus: " + formatFloat(d.bonus)] else [])
  }

  /** The bonus as it counts towards profit. */
  function CountedBonus(bonus: real): real {
    if bonus > 0.0 then bonus else 0.0
  }

  /**
   * One trade as a trade record, or the error that rejects it.
   * A bid costs price times amount, an ask earns it; both pay the fee
   * amount times price, recorded as the fee; a positive bonus is added and a
   * non-positive one ignored; the time is the trade's Unix second; any
   * other action is rejected, naming the raw `action` field.
   */
  function ZaifTrade(d: Data, pair: string, formatFloat: real -> string): (r: Result<TradeData>)
    ensures d.yourAction != "bid" && d.yourAction != "ask" ==>
      r == Err("unsupported action: " + d.action)
    ensures r.Ok? <==> d.yourAction == "bid" || d.yourAction == "ask"
    ensures r.Ok? ==>
      var t := r.value;
      t.serviceName == RecordTag && t.currencyPair == pair &&
      t.remarks == Remarks(d, formatFloat) &&
      UnixSeconds(t.time) == d.timestamp && t.time % 1000 == 0 &&
      t.price == d.price && t.amount == d.amount &&
      t.fee == d.feeAmount * d.price &&
      (d.yourAction == "bid" ==>
        t.action == Buy &&
        t.profit == -(d.price * d.amount) - d.feeAmount * d.price + (if d.bonus > 0.0 then d.bonus else 0.0)) &&
      (d.yourAction == "ask" ==>
        t.action == Sell &&
        t.profit == d.price * d.amount - d.feeAmount * d.price + (if d.bonus > 0.0 then d.bonus else 0.0)) &&
      (d.bonus <= 0.0 ==> t.profit == Notional(t.action, d.price, d.amount) - t.fee)
  {
    if d.yourAction != "bid" && d.yourAction != "ask" then Err("unsupported action: " + d.action)
    else
      var action := if d.yourAction == "bid" then Buy else Sell;
      var fee := d.feeAmount * d.price;
      Ok(TradeData(RecordTag, pair, d.timestamp * 1000, action, d.price, d.amount, fee,
                   Notional(action, d.price, d.amount) - fee + CountedBonus(d.bonus),
                   Remarks(d, formatFloat)))
  }

  /**
   * A bid of 1 at 50 with fee amount 0.01 and no bonus gives a fee of 0.5 and
   * a profit of -50.5.
   */
  lemma BidExample(formatFloat: real -> string)
    ensures var d := Data("btc_jpy", "bid", 1.0, 50.0, 0.0, 0.01, "bid", 0.0, 1609459200, "");
      ZaifTrade(d, "btc_jpy", formatFloat)
        == Ok(TradeData(RecordTag, "btc_jpy", 1609459200000, Buy, 50.0, 1.0, 0.5, -50.5, Remarks(d, formatFloat)))
  {
  }

  function Trades(pair: string, trades: seq<Data>, formatFloat: real -> string): Result<seq<TradeData>> {
    Collect(trades, (d: Data) => ZaifTrade(d, pair, formatFloat))
  }

  /** What `GetTradeHistory` returns for the replies `wire` and a budget of `retry` attempts. */
  function History(pair: string, wire: nat -> Reply, retry: int, formatFloat: real -> string): Result<seq<TradeData>> {
    match Settled(RetryRun(wire, retry, 0))
    case Err(e) => Err(e)
    case Ok(resp) => Trades(pair, resp.trades, formatFloat)
  }

  /** The body of the mapping loop: `profit` and `remarks` built step by step. */
  method ToTradeData(r: Data, pair: string, formatFloat: real -> string) returns (t: Result<TradeData>)
    ensures t == ZaifTrade(r, pair, formatFloat)
  {
    var profit: real := 0.0;
    var action: TradeAction;
    var remarks: seq<string> := [];
    if r.yourAction == "bid" {
      profit := profit - r.price * r.amount;
      action := Buy;
    } else if r.yourAction == "ask" {
      profit := profit + r.price * r.amount;
      action := Sell;
    } else {
      return Err("unsupported action: " + r.action);
    }
    profit := profit - r.feeAmount * r.price;
    remarks := remarks + ["Action: " + r.action];
    if r.feeAmount > 0.0 || r.fee > 0.0 {
      remarks := remarks + ["Fee: " + formatFloat(r.fee)];
      remarks := remarks + ["Fee Amount: " + formatFloat(r.feeAmount)];
    }
    if r.bonus > 0.0 {
      remarks := remarks + ["Bonus: " + formatFloat(r.bonus)];
      profit := profit + r.bonus;
    }
    assert action == (if r.yourAction == "bid" then Buy else Sell);
    assert profit == Notional(action, r.price, r.amount) - r.feeAmount * r.price + CountedBonus(r.bonus);
    assert remarks == Remarks(r, formatFloat);
    assert !(r.yourAction != "bid" && r.yourAction != "ask");
    assert ZaifTrade(r, pair, formatFloat).Ok?;
    assert ZaifTrade(r, pair, formatFloat).value.action == action;
    assert ZaifTrade(r, pair, formatFloat).value.profit == profit;
    t := Ok(TradeData(RecordTag, pair, r.timestamp * 1000, action, r.price, r.amount, r.feeAmount * r.price, profit, remarks));
  }

  /** Converts the trades of a successful reply in iteration order, stopping at the first rejected one. */
  method ConvertTrades(pair: string, trades: seq<Data>, formatFloat: real -> string) returns (r: Result<seq<TradeData>>)
    ensures r == Trades(pair, trades, formatFloat)
  {
    var data: seq<TradeData> := [];
    var i := 0;
    while i < |trades|
      invariant 0 <= i <= |trades|
      invariant Trades(pair, trades[..i], formatFloat) == Ok(data)
    {
      var t := ToTradeData(trades[i], pair, formatFloat);
      if t.Err? {
        CollectStopsAt(trades, i, (d: Data) => ZaifTrade(d, pair, formatFloat));
        return Err(t.error);
      }
      CollectExtend(trades, i, (d: Data) => ZaifTrade(d, pair, formatFloat));
      data := data + [t.value];
      i := i + 1;
    }
    assert trades[..i] == trades;
    r := Ok(data);
  }

  /**
   * A successful reply gives exactly one record per returned trade, each
   * the conversion of one trade; a reply with a trade of unknown action
   * gives an error and no records.
   */
  lemma TradesMeaning(pair: string, trades: seq<Data>, formatFloat: real -> string)
    ensures var r := Trades(pair, trades, formatFloat);
      (r.Ok? <==> forall i :: 0 <= i < |trades| ==> trades[i].yourAction in {"bid", "ask"}) &&
      (r.Ok? ==>
        |r.value| == |trades| &&
        forall i :: 0 <= i < |trades| ==> r.value[i] == ZaifTrade(trades[i], pair, formatFloat).value)
  {
    var f := (d: Data) => ZaifTrade(d, pair, formatFloat);
    CollectOk(trades, f);
  }

  class Client {
    const key: string
    const secret: string
    var nonce: int
    const retry: int

    /** `NewZaif`: the nonce starts at the current Unix second `now`; ten attempts per history call. */
    constructor (key: string, secret: string, now: int)
      ensures this.key == key && this.secret == secret
      ensures nonce == now && retry == MaxAttempts
    {
      this.key := key;
      this.secret := secret;
      nonce := now;
      retry := MaxAttempts;
    }

    function Name(): string {
      "zaif"
    }

    /**
     * `request`: adds the API method and the current nonce to the caller's
     * query, advances the nonce by one, and signs the encoded query that is
     * sent as the body.
     */
    method Request(apiMethod: string, params: Values, prim: Primitives) returns (req: HttpRequest)
      modifies this, params
      ensures nonce == old(nonce) + 1
      ensures params.entries == Added(Added(old(params.entries), "method", apiMethod), "nonce", Decimal(old(nonce)))
      ensures req == SignedPost(key, secret, params.entries, prim)
    {
      params.Add("method", apiMethod);
      params.Add("nonce", Decimal(nonce));
      nonce := nonce + 1;
      var encodedParams := prim.encodeForm(params.entries);
      var signature := prim.hexEncode(prim.hmacSha512(secret, encodedParams));
      req := HttpRequest("POST", Endpoint, [("Key", key), ("Sign", signature)], encodedParams);
    }

    /**
     * The request loop of `GetTradeHistory`: up to `retry` signed requests
     * for the trades of `pair` since `since`, all sharing one query,
     * retrying only on transient replies before the last attempt; every
     * request carries the next nonce.  Yields the reply that ends the loop.
     */
    method RequestTrades(pair: string, since: int, wire: nat -> Reply, prim: Primitives)
      returns (sent: seq<HttpRequest>, settled: Result<Response>)
      modifies this
      ensures settled == Settled(RetryRun(wire, retry, 0))
      ensures |sent| == Attempts(RetryRun(wire, retry, 0))
      ensures nonce == old(nonce) + |sent|
      ensures sent == HistoryRequests(key, secret, pair, since, old(nonce), |sent|, prim)
    {
      var params := new Values();
      params.Add("since", Decimal(since));
      params.Add("currency_pair", pair);
      ghost var n0 := nonce;
      sent := [];
      var response := NoResponse;
      var attempt := 0;
      while attempt < retry
        invariant fresh(params)
        invariant attempt == 0 || attempt < retry
        invariant |sent| == attempt && nonce == n0 + attempt
        invariant params.entries == ParamsAfter(pair, since, n0, attempt)
        invariant sent == HistoryRequests(key, secret, pair, since, n0, attempt, prim)
        invariant RetryRun(wire, retry, 0) == RetryRun(wire, retry, attempt)
      {
        var req := Request(TradeHistoryMethod, params, prim);
        NextRequest(key, secret, pair, since, n0, attempt, params.entries, req, prim);
        sent := sent + [req];
        var reply := wire(attempt);
        RetryStep(wire, retry, attempt);
        if !reply.Decoded? {
          // the transport failed or the body did not decode
          return sent, Err(reply.error);
        }
        if reply.response.success != 1 {
          if attempt < retry - 1 && IsTimeWait(reply.response.error) {
            attempt := attempt + 1;
            continue;
          }
          return sent, Err(reply.response.error);
        }
        return sent, Ok(reply.response);
      }
      // only when the budget is below one: the zero-valued response is used
      settled := Ok(response);
    }

    /**
     * `GetTradeHistory`: the trades of `pair` since the start of the
     * window, from the reply that ends the request loop, or the error that
     * ended it.
     */
    method GetTradeHistory(pair: string, from: int, to: int, wire: nat -> Reply, prim: Primitives)
      returns (sent: seq<HttpRequest>, r: Result<seq<TradeData>>)
      modifies this
      ensures r == History(pair, wire, retry, prim.formatFloat)
      ensures |sent| == Attempts(RetryRun(wire, retry, 0))
      ensures nonce == old(nonce) + |sent|
      ensures sent == HistoryRequests(key, secret, pair, UnixSeconds(from), old(nonce), |sent|, prim)
    {
      var settled;
      sent, settled := RequestTrades(pair, UnixSeconds(from), wire, prim);
      if settled.Err? {
        return sent, Err(settled.error);
      }
      r := ConvertTrades(pair, settled.value.trades, prim.formatFloat);
    }
  }
}
