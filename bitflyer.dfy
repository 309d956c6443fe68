/**
 * The bitFlyer adapter: a GET request signed with HMAC-SHA256 over
 * timestamp, verb and path, and the mapping of each execution to a trade
 * record (side, fee, signed profit, and the execution date widened to
 * milliseconds and moved forward by nine hours).
 */
module BitFlyer {
  import opened Results
  import opened Text
  import opened Platform
  import opened Services

  const Host: string := "http://api.bitflyer.jp"
  const ExecutionsPath: string := "/v1/me/getexecutions"
  /** The value of `serviceName` in every record this adapter produces. */
  const RecordTag: string := "bitFlyer"
  /** Length of "2006-01-02T15:04:05.000", the layout execution dates are parsed with. */
  const DateWidth: nat := 23
  const NineHours: int := 9 * 60 * 60 * 1000

  /** One element of the `getexecutions` reply. */
  datatype Execution = Execution(
    id: int,
    side: string,
    price: real,
    size: real,
    execDate: string,
    orderId: string,
    commission: real,
    childOrderAcceptanceId: string)

  /**
   * What the signed GET yields: the decoded executions, or the error it
   * reports with no execution decoded. A reply decoded only in part, with an
   * error, is a `Fetched` of the executions decoded so far.
   */
  datatype Fetch = Fetched(executions: seq<Execution>) | FetchFailed(error: string)

  /** The executions the adapter goes on to convert: the error of a failed fetch is dropped, leaving none. */
  function Executions(fetched: Fetch): seq<Execution> {
    match fetched
    case Fetched(xs) => xs
    case FetchFailed(_) => []
  }

  /** The path with its query, as it is both signed and requested. */
  function RequestPath(path: string, params: Option<Form>, prim: Primitives): string {
    match params
    case None => path
    case Some(form) => path + "?" + prim.encodeForm(form)
  }

  /** The query of the history request. */
  function HistoryParams(pair: string): Form {
    map["product_code" := [pair], "count" := ["10000"]]
  }

  /**
   * The check the exchange makes on a request: the signature header is the
   * HMAC-SHA256, under the account secret, of the timestamp header, the
   * verb and the path with its query, concatenated.
   */
  predicate Authentic(secret: string, req: HttpRequest, prim: Primitives) {
    HasPrefix(req.url, Host) &&
    Header(req, "ACCESS-TIMESTAMP").Some? &&
    Header(req, "ACCESS-SIGN") ==
      Some(prim.hexEncode(prim.hmacSha256(secret, Header(req, "ACCESS-TIMESTAMP").value + req.verb + req.url[|Host|..])))
  }

  datatype Client = Client(key: string, secret: string) {

    function Name(): string {
      "bitflyer"
    }

    /**
     * The request `get` sends at Unix second `timestamp`: the exchange
     * accepts its signature, the timestamp header reads back as
     * `timestamp`, and the URL carries the signed path.
     */
    function Get(path: string, params: Option<Form>, timestamp: int, prim: Primitives): (req: HttpRequest)
      ensures req.verb == "GET" && req.body == ""
      ensures req.url == Host + RequestPath(path, params, prim)
      ensures Header(req, "ACCESS-KEY") == Some(key)
      ensures Header(req, "ACCESS-TIMESTAMP").Some? &&
              ParseDecimal(Header(req, "ACCESS-TIMESTAMP").value) == Some(timestamp)
      ensures Authentic(secret, req, prim)
    {
      var fullPath := RequestPath(path, params, prim);
      var text := Decimal(timestamp) + "GET" + fullPath;
      var signature := prim.hexEncode(prim.hmacSha256(secret, text));
      var req := HttpRequest("GET", Host + fullPath,
        [("ACCESS-KEY", key), ("ACCESS-TIMESTAMP", Decimal(timestamp)),
         ("ACCESS-SIGN", signature), ("Content-Type", "application/json")], "");
      DecimalRoundTrip(timestamp);
      assert (Host + fullPath)[..|Host|] == Host && (Host + fullPath)[|Host|..] == fullPath;
      var hs := req.headers;
      assert HeaderIn(hs, "ACCESS-TIMESTAMP") == HeaderIn(hs[1..], "ACCESS-TIMESTAMP");
      assert HeaderIn(hs[1..], "ACCESS-TIMESTAMP") == Some(Decimal(timestamp));
      assert HeaderIn(hs, "ACCESS-SIGN") == HeaderIn(hs[1..], "ACCESS-SIGN");
      assert HeaderIn(hs[1..], "ACCESS-SIGN") == HeaderIn(hs[2..], "ACCESS-SIGN") by {
        assert hs[1..][1..] == hs[2..];
      }
      assert HeaderIn(hs[2..], "ACCESS-SIGN") == Some(signature);
      req
    }

    /**
     * `GetTradeHistory`: requests the executions of `pair` (the window
     * `from`..`to` is not sent) and converts them in order; a failed fetch
     * gives no records and no error.
     */
    method GetTradeHistory(pair: string, from: int, to: int, timestamp: int, fetched: Fetch, prim: Primitives)
      returns (req: HttpRequest, r: Result<seq<TradeData>>)
      ensures req == Get(ExecutionsPath, Some(HistoryParams(pair)), timestamp, prim)
      ensures req.url == Host + ExecutionsPath + "?" + prim.encodeForm(HistoryParams(pair))
      ensures Authentic(secret, req, prim)
      ensures r == History(pair, fetched, prim.parseExecDate)
      ensures fetched.FetchFailed? ==> r == Ok([])
    {
      req := Get(ExecutionsPath, Some(HistoryParams(pair)), timestamp, prim);
      var executions: seq<Execution> := [];
      match fetched {
        case Fetched(xs) => executions := xs;
        case FetchFailed(_) =>
      }
      var result: seq<TradeData> := [];
      var i := 0;
      while i < |executions|
        invariant 0 <= i <= |executions|
        invariant Trades(pair, executions[..i], prim.parseExecDate) == Ok(result)
      {
        var d := ToTradeData(executions[i], pair, prim.parseExecDate);
        if d.Err? {
          r := Err(d.error);
          CollectStopsAt(executions, i, (e: Execution) => ExecutionTrade(e, pair, prim.parseExecDate));
          return;
        }
        CollectExtend(executions, i, (e: Execution) => ExecutionTrade(e, pair, prim.parseExecDate));
        result := result + [d.value];
        i := i + 1;
      }
      assert executions[..i] == executions;
      r := Ok(result);
    }
  }

  // ---------------------------------------------------------------------
  // Execution dates

  /** The date right-padded with '0' to `DateWidth` characters; longer dates are kept. */
  function PaddedExecDate(s: string): (p: string)
    ensures |p| >= DateWidth
  {
    if |s| < DateWidth then s + Repeat('0', DateWidth - |s|) else s
  }

  /** The padded date, with a zero-only tail replaced by a zero millisecond field. */
  function NormalizedExecDate(s: string): string {
    var p := PaddedExecDate(s);
    if HasSuffix(p, "0000") then p[..19] + ".000" else p
  }

  /** The loop that grows `ExecDate` one '0' at a time, then the tail rule. */
  method NormalizeExecDate(s: string) returns (t: string)
    ensures t == NormalizedExecDate(s)
  {
    t := s;
    var i := |s|;
    while i < DateWidth
      invariant |s| <= DateWidth ==> |s| <= i <= DateWidth
      invariant |s| > DateWidth ==> i == |s|
      invariant t == s + Repeat('0', i - |s|)
    {
      t := t + "0";
      i := i + 1;
    }
    assert t == PaddedExecDate(s);
    if HasSuffix(t, "0000") {
      t := t[0..19] + ".000";
    }
  }

  /** A date without fraction gets a zero millisecond field. */
  lemma WholeSecondDate(s: string)
    requires |s| == 19
    ensures NormalizedExecDate(s) == s + ".000"
  {
    var p := PaddedExecDate(s);
    assert p == s + "0000";
    assert p[|p| - 4..] == "0000";
    assert p[..19] == s;
  }

  /** A date with a short fraction has the fraction right-padded with zeros, and nothing else changes. */
  lemma ShortFractionDate(s: string)
    requires 20 <= |s| <= DateWidth && s[19] == '.'
    ensures NormalizedExecDate(s) == s + Repeat('0', DateWidth - |s|)
  {
    var p := PaddedExecDate(s);
    assert p[19] == '.';
    assert p[|p| - 4..][0] == p[19];
  }

  /** Normalisation never touches the date and time of day: the first 19 characters survive. */
  lemma DateTimeKept(s: string)
    requires |s| >= 19
    ensures |NormalizedExecDate(s)| >= DateWidth
    ensures NormalizedExecDate(s)[..19] == s[..19]
  {
  }

  // ---------------------------------------------------------------------
  // Executions to trade records

  /**
   * One execution as a trade record, or the error that rejects it.
   * A BUY costs price times size plus the fee, a SELL earns price times size
   * minus the fee; the fee is commission times price; the time is the parsed
   * date plus nine hours; any other side is rejected with its name.
   */
  function ExecutionTrade(e: Execution, pair: string, parse: string -> Result<int>): (r: Result<TradeData>)
    ensures e.side != "BUY" && e.side != "SELL" ==>
      r == Err("unsupported side: " + e.side)
    ensures (e.side == "BUY" || e.side == "SELL") && parse(NormalizedExecDate(e.execDate)).Err? ==>
      r == Err(parse(NormalizedExecDate(e.execDate)).error)
    ensures r.Ok? <==> (e.side == "BUY" || e.side == "SELL") && parse(NormalizedExecDate(e.execDate)).Ok?
    ensures r.Ok? ==>
      var d := r.value;
      d.remarks == [] &&
      d.time == parse(NormalizedExecDate(e.execDate)).value + NineHours &&
      d.serviceName == RecordTag && d.currencyPair == pair &&
      d.price == e.price && d.amount == e.size &&
      d.fee == e.commission * e.price &&
      (e.side == "BUY" ==> d.action == Buy && d.profit == -(e.price * e.size) - e.commission * e.price) &&
      (e.side == "SELL" ==> d.action == Sell && d.profit == e.price * e.size - e.commission * e.price)
  {
    if e.side != "BUY" && e.side != "SELL" then Err("unsupported side: " + e.side)
    else
      var action := if e.side == "BUY" then Buy else Sell;
      var fee := e.commission * e.price;
      match parse(NormalizedExecDate(e.execDate))
      case Err(msg) => Err(msg)
      case Ok(t) =>
        Ok(TradeData(RecordTag, pair, t + NineHours, action, e.price, e.size, fee,
                     Notional(action, e.price, e.size) - fee, []))
  }

  /**
   * A SELL of 2 at 100 with commission 0.001, dated "2021-01-01T00:00:00",
   * gives a fee of 0.1, a profit of 199.9 and a time nine hours after the
   * parsed date.
   */
  lemma SellExample(parse: string -> Result<int>, t: int)
    requires parse("2021-01-01T00:00:00.000") == Ok(t)
    ensures ExecutionTrade(Execution(1, "SELL", 100.0, 2.0, "2021-01-01T00:00:00", "", 0.001, ""), "BTC_JPY", parse)
      == Ok(TradeData(RecordTag, "BTC_JPY", t + NineHours, Sell, 100.0, 2.0, 0.1, 199.9, []))
  {
    WholeSecondDate("2021-01-01T00:00:00");
    assert NormalizedExecDate("2021-01-01T00:00:00") == "2021-01-01T00:00:00.000";
    assert 100.0 * 2.0 - 0.001 * 100.0 == 199.9;
  }

  /** The executions of a reply, converted in order, stopping at the first rejected one. */
  function Trades(pair: string, executions: seq<Execution>, parse: string -> Result<int>): Result<seq<TradeData>> {
    Collect(executions, (e: Execution) => ExecutionTrade(e, pair, parse))
  }

  function History(pair: string, fetched: Fetch, parse: string -> Result<int>): Result<seq<TradeData>> {
    Trades(pair, Executions(fetched), parse)
  }

  /** The body of the conversion loop, with `profit` accumulated step by step. */
  method ToTradeData(e: Execution, pair: string, parse: string -> Result<int>) returns (r: Result<TradeData>)
    ensures r == ExecutionTrade(e, pair, parse)
  {
    var profit: real := 0.0;
    var action: TradeAction;
    if e.side == "BUY" {
      profit := profit - e.price * e.size;
      action := Buy;
    } else if e.side == "SELL" {
      profit := profit + e.price * e.size;
      action := Sell;
    } else {
      return Err("unsupported side: " + e.side);
    }
    var fee := e.commission * e.price;
    profit := profit - fee;
    var execDate := NormalizeExecDate(e.execDate);
    var t := parse(execDate);
    if t.Err? {
      return Err(t.error);
    }
    var time := t.value + NineHours;
    assert profit == Notional(action, e.price, e.size) - fee;
    assert parse(NormalizedExecDate(e.execDate)) == t;
    assert action == (if e.side == "BUY" then Buy else Sell);
    r := Ok(TradeData(RecordTag, pair, time, action, e.price, e.size, fee, profit, []));
    assert !(e.side != "BUY" && e.side != "SELL");
    assert ExecutionTrade(e, pair, parse).Ok?;
    assert ExecutionTrade(e, pair, parse).value.time == t.value + NineHours;
    assert ExecutionTrade(e, pair, parse).value.action == action;
    assert ExecutionTrade(e, pair, parse).value.profit == profit;
    assert ExecutionTrade(e, pair, parse) == Ok(TradeData(RecordTag, pair, t.value + NineHours, action, e.price, e.size, fee, Notional(action, e.price, e.size) - fee, []));
  }

  /**
   * A history either holds one record per execution, each the conversion of
   * the execution at the same position, or is the error of the first
   * execution that does not convert.
   */
  lemma HistoryMeaning(pair: string, fetched: Fetch, parse: string -> Result<int>)
    ensures var xs := Executions(fetched); var r := History(pair, fetched, parse);
      (r.Ok? <==> forall i :: 0 <= i < |xs| ==> ExecutionTrade(xs[i], pair, parse).Ok?) &&
      (r.Ok? ==>
        |r.value| == |xs| &&
        forall i :: 0 <= i < |xs| ==> r.value[i] == ExecutionTrade(xs[i], pair, parse).value) &&
      (r.Err? ==>
        exists j :: 0 <= j < |xs| && ExecutionTrade(xs[j], pair, parse) == Err(r.error) &&
          (forall i :: 0 <= i < j ==> ExecutionTrade(xs[i], pair, parse).Ok?))
  {
    var f := (e: Execution) => ExecutionTrade(e, pair, parse);
    CollectOk(Executions(fetched), f);
    CollectErr(Executions(fetched), f);
  }
}
