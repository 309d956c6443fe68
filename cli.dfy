/**
 * The `download` command up to the sort: a closed factory from configured
 * service names to exchange clients, the per-service loop over currency
 * pairs (configured, or discovered when none are configured) that stops at
 * the first error, and the final in-place sort of everything fetched.
 *
 * Every exchange reply is an input.  `nets(c)` holds what the network
 * answers for the `c`-th configured service: the decoded pair discovery
 * and, per history call `i`, the replies of that call.
 */
module Cli {
  import opened Results
  import opened Platform
  import opened Services
  import BitFlyer
  import Zaif

  const ZaifName: string := "zaif"
  const BitFlyerName: string := "bitflyer"
  /** The history window: 365 days of 24 hours, in milliseconds. */
  const YearMillis: int := 365 * 24 * 60 * 60 * 1000

  /** One entry of the configuration's service list. */
  datatype ServiceConfig = ServiceConfig(service: string, key: string, secret: string, currencies: seq<string>)

  /** A created exchange client. */
  datatype Service = ZaifService(zaif: Zaif.Client) | BitFlyerService(bitFlyer: BitFlyer.Client)
  {
    function Name(): string {
      match this
      case ZaifService(z) => z.Name()
      case BitFlyerService(b) => b.Name()
    }
  }

  /** What decides a service's results: the exchange, and for Zaif the attempt budget. */
  datatype Kind = ZaifKind(retry: int) | BitFlyerKind

  function KindOf(service: Service): Kind {
    match service
    case ZaifService(z) => ZaifKind(z.retry)
    case BitFlyerService(_) => BitFlyerKind
  }

  /** The objects a service's calls update: the Zaif client's nonce. */
  function Footprint(service: Service): set<object> {
    match service
    case ZaifService(z) => {z}
    case BitFlyerService(_) => {}
  }

  /**
   * The kind `createService` picks for a configured name, or its error.
   * The factory is closed and exact: it accepts the two names and no other
   * (case matters), rejects any other with an error naming it, and gives a
   * Zaif client the full attempt budget.
   */
  function SelectKind(name: string): (r: Result<Kind>)
    ensures r.Ok? <==> name == "zaif" || name == "bitflyer"
    ensures r.Err? ==> r.error == "unsupported service: " + name
    ensures name == "zaif" ==> r == Ok(ZaifKind(10))
    ensures name == "bitflyer" ==> r == Ok(BitFlyerKind)
  {
    if name == ZaifName then Ok(ZaifKind(Zaif.MaxAttempts))
    else if name == BitFlyerName then Ok(BitFlyerKind)
    else Err("unsupported service: " + name)
  }

  /** The tag the records of each kind carry. */
  function RecordTag(kind: Kind): string {
    match kind
    case ZaifKind(_) => Zaif.RecordTag
    case BitFlyerKind => BitFlyer.RecordTag
  }

  /** A bitFlyer client's name is the configured name that creates a bitFlyer client. */
  lemma BitFlyerNameSelected(b: BitFlyer.Client)
    ensures SelectKind(b.Name()) == Ok(KindOf(BitFlyerService(b)))
  {
  }

  /** A Zaif client's name is the configured name that creates a Zaif client with the full attempt budget. */
  lemma ZaifNameSelected(z: Zaif.Client)
    ensures SelectKind(z.Name()) == Ok(ZaifKind(Zaif.MaxAttempts))
  {
  }

  /**
   * `createService`: a fresh client of the configured exchange with the
   * configured credentials, whose name is the configured name, or the
   * error of `SelectKind`.  A Zaif client's nonce starts at the current
   * Unix second.
   */
  method CreateService(conf: ServiceConfig, now: int) returns (r: Result<Service>)
    ensures r.Ok? <==> SelectKind(conf.service).Ok?
    ensures r.Err? ==> r.error == SelectKind(conf.service).error
    ensures r.Ok? ==> KindOf(r.value) == SelectKind(conf.service).value && r.value.Name() == conf.service
    ensures r.Ok? && r.value.ZaifService? ==>
      fresh(r.value.zaif) && r.value.zaif.key == conf.key && r.value.zaif.secret == conf.secret &&
      r.value.zaif.nonce == UnixSeconds(now)
    ensures r.Ok? && r.value.BitFlyerService? ==> r.value.bitFlyer == BitFlyer.Client(conf.key, conf.secret)
  {
    if conf.service == ZaifName {
      var z := new Zaif.Client(conf.key, conf.secret, UnixSeconds(now));
      return Ok(ZaifService(z));
    } else if conf.service == BitFlyerName {
      return Ok(BitFlyerService(BitFlyer.Client(conf.key, conf.secret)));
    }
    return Err("unsupported service: " + conf.service);
  }

  // ---------------------------------------------------------------------
  // Fetching the history of one service

  /** What the network answers to one history call, for either exchange. */
  datatype CallReplies = CallReplies(bitFlyer: BitFlyer.Fetch, zaif: nat -> Zaif.Reply)

  /** What the network answers for one configured service. */
  datatype Network = Network(pairs: Result<seq<string>>, history: nat -> CallReplies)

  /** The result of one `GetTradeHistory` call. */
  function HistorySpec(kind: Kind, pair: string, replies: CallReplies, prim: Primitives): Result<seq<TradeData>> {
    match kind
    case ZaifKind(retry) => Zaif.History(pair, replies.zaif, retry, prim.formatFloat)
    case BitFlyerKind => BitFlyer.History(pair, replies.bitFlyer, prim.parseExecDate)
  }

  /** The pairs to query: the configured ones, or the discovered ones when none are configured. */
  function PairsToQuery(configured: seq<string>, discovered: Result<seq<string>>): Result<seq<string>> {
    if |configured| == 0 then discovered else Ok(configured)
  }

  /** The pairs queried: those of `PairsToQuery`, or none when discovery fails. */
  function Queried(configured: seq<string>, discovered: Result<seq<string>>): seq<string> {
    match PairsToQuery(configured, discovered)
    case Ok(pairs) => pairs
    case Err(_) => []
  }

  /** The histories of `pairs` concatenated in order; the `i`-th call gets the replies `history(i)`; the first error wins. */
  function FetchPairs(kind: Kind, pairs: seq<string>, history: nat -> CallReplies, prim: Primitives): Result<seq<TradeData>> {
    if pairs == [] then Ok([])
    else match FetchPairs(kind, pairs[..|pairs| - 1], history, prim)
      case Err(e) => Err(e)
      case Ok(init) =>
        match HistorySpec(kind, pairs[|pairs| - 1], history(|pairs| - 1), prim)
        case Err(e) => Err(e)
        case Ok(d) => Ok(init + d)
  }

  /** What `getTradeData` returns: `allData` followed by the histories of the pairs to query. */
  function TradeDataSpec(kind: Kind, allData: seq<TradeData>, configured: seq<string>, net: Network, prim: Primitives): Result<seq<TradeData>> {
    match PairsToQuery(configured, net.pairs)
    case Err(e) => Err(e)
    case Ok(pairs) =>
      match FetchPairs(kind, pairs, net.history, prim)
      case Err(e) => Err(e)
      case Ok(d) => Ok(allData + d)
  }

  /** Once a prefix of the pairs fails, the later pairs do not matter. */
  lemma {:induction false} FetchPairsErrPrefix(kind: Kind, pairs: seq<string>, n: nat, history: nat -> CallReplies, prim: Primitives)
    requires n <= |pairs| && FetchPairs(kind, pairs[..n], history, prim).Err?
    ensures FetchPairs(kind, pairs, history, prim) == FetchPairs(kind, pairs[..n], history, prim)
    decreases |pairs| - n
  {
    if n < |pairs| {
      assert pairs[..n + 1][..n] == pairs[..n];
      FetchPairsErrPrefix(kind, pairs, n + 1, history, prim);
    } else {
      assert pairs[..n] == pairs;
    }
  }

  /** The histories of a prefix of the pairs grow by the history of the next pair. */
  lemma FetchPairsExtend(kind: Kind, pairs: seq<string>, i: nat, history: nat -> CallReplies, prim: Primitives)
    requires i < |pairs| && FetchPairs(kind, pairs[..i], history, prim).Ok?
    requires HistorySpec(kind, pairs[i], history(i), prim).Ok?
    ensures FetchPairs(kind, pairs[..i + 1], history, prim) ==
      Ok(FetchPairs(kind, pairs[..i], history, prim).value + HistorySpec(kind, pairs[i], history(i), prim).value)
  {
    assert pairs[..i + 1][..i] == pairs[..i];
  }

  /** The first failing history call decides the result: its error, and no records; later pairs are not queried. */
  lemma FetchPairsStopsAt(kind: Kind, pairs: seq<string>, i: nat, history: nat -> CallReplies, prim: Primitives)
    requires i < |pairs| && FetchPairs(kind, pairs[..i], history, prim).Ok?
    requires HistorySpec(kind, pairs[i], history(i), prim).Err?
    ensures FetchPairs(kind, pairs, history, prim) == Err(HistorySpec(kind, pairs[i], history(i), prim).error)
  {
    assert pairs[..i + 1][..i] == pairs[..i];
    FetchPairsErrPrefix(kind, pairs, i + 1, history, prim);
  }

  /** In a fetch that succeeds, every history call succeeded. */
  lemma {:induction false} FetchPairsOkAt(kind: Kind, pairs: seq<string>, history: nat -> CallReplies, prim: Primitives, i: nat)
    requires i < |pairs| && FetchPairs(kind, pairs, history, prim).Ok?
    ensures HistorySpec(kind, pairs[i], history(i), prim).Ok?
  {
    var init := pairs[..|pairs| - 1];
    if i < |init| {
      FetchPairsOkAt(kind, init, history, prim, i);
      assert init[i] == pairs[i];
    }
  }

  /** When every history call succeeds, so does the fetch. */
  lemma {:induction false} FetchPairsAllOk(kind: Kind, pairs: seq<string>, history: nat -> CallReplies, prim: Primitives)
    requires forall i :: 0 <= i < |pairs| ==> HistorySpec(kind, pairs[i], history(i), prim).Ok?
    ensures FetchPairs(kind, pairs, history, prim).Ok?
  {
    if pairs != [] {
      var init := pairs[..|pairs| - 1];
      assert forall i :: 0 <= i < |init| ==> init[i] == pairs[i];
      FetchPairsAllOk(kind, init, history, prim);
      assert HistorySpec(kind, pairs[|pairs| - 1], history(|pairs| - 1), prim).Ok?;
    }
  }

  /** The histories concatenated are `Ok` exactly when every history call succeeds. */
  lemma {:induction false} FetchPairsOk(kind: Kind, pairs: seq<string>, history: nat -> CallReplies, prim: Primitives)
    ensures FetchPairs(kind, pairs, history, prim).Ok? <==>
      forall i :: 0 <= i < |pairs| ==> HistorySpec(kind, pairs[i], history(i), prim).Ok?
  {
    if FetchPairs(kind, pairs, history, prim).Ok? {
      forall i | 0 <= i < |pairs|
        ensures HistorySpec(kind, pairs[i], history(i), prim).Ok?
      {
        FetchPairsOkAt(kind, pairs, history, prim, i);
      }
    } else if forall i :: 0 <= i < |pairs| ==> HistorySpec(kind, pairs[i], history(i), prim).Ok? {
      FetchPairsAllOk(kind, pairs, history, prim);
    }
  }

  /** A failed fetch carries the error of the first history call that fails; the calls before it succeeded. */
  lemma {:induction false} FetchPairsErr(kind: Kind, pairs: seq<string>, history: nat -> CallReplies, prim: Primitives)
    ensures FetchPairs(kind, pairs, history, prim).Err? ==>
      exists j :: 0 <= j < |pairs| && HistorySpec(kind, pairs[j], history(j), prim) == Err(FetchPairs(kind, pairs, history, prim).error) &&
        forall i :: 0 <= i < j ==> HistorySpec(kind, pairs[i], history(i), prim).Ok?
  {
    if pairs != [] {
      var init := pairs[..|pairs| - 1];
      FetchPairsErr(kind, init, history, prim);
      FetchPairsOk(kind, init, history, prim);
      assert forall i :: 0 <= i < |init| ==> init[i] == pairs[i];
      if FetchPairs(kind, init, history, prim).Err? {
        var j :| 0 <= j < |init| && HistorySpec(kind, init[j], history(j), prim) == Err(FetchPairs(kind, init, history, prim).error) &&
          forall i :: 0 <= i < j ==> HistorySpec(kind, init[i], history(i), prim).Ok?;
        assert HistorySpec(kind, pairs[j], history(j), prim) == Err(FetchPairs(kind, pairs, history, prim).error);
      } else if FetchPairs(kind, pairs, history, prim).Err? {
        assert HistorySpec(kind, pairs[|pairs| - 1], history(|pairs| - 1), prim) == Err(FetchPairs(kind, pairs, history, prim).error);
      }
    }
  }

  /**
   * How many history calls the loop over `pairs` makes from the `i`-th
   * pair on: up to and including the first that fails, or all of them.
   */
  function CallsMade(kind: Kind, pairs: seq<string>, history: nat -> CallReplies, prim: Primitives, i: nat): nat
    requires i <= |pairs|
    decreases |pairs| - i
  {
    if i == |pairs| then i
    else if HistorySpec(kind, pairs[i], history(i), prim).Err? then i + 1
    else CallsMade(kind, pairs, history, prim, i + 1)
  }

  /** When every history call succeeds, the loop calls once per pair from the `i`-th on. */
  lemma {:induction false} CallsMadeAllOk(kind: Kind, pairs: seq<string>, history: nat -> CallReplies, prim: Primitives, i: nat)
    requires i <= |pairs|
    ensures FetchPairs(kind, pairs, history, prim).Ok? ==> CallsMade(kind, pairs, history, prim, i) == |pairs|
    decreases |pairs| - i
  {
    if i < |pairs| && FetchPairs(kind, pairs, history, prim).Ok? {
      FetchPairsOk(kind, pairs, history, prim);
      assert HistorySpec(kind, pairs[i], history(i), prim).Ok?;
      CallsMadeAllOk(kind, pairs, history, prim, i + 1);
    }
  }

  /** From the `i`-th pair on, the loop goes past the calls that succeed and stops after the first that fails, the `j`-th. */
  lemma {:induction false} CallsMadeUpTo(kind: Kind, pairs: seq<string>, history: nat -> CallReplies, prim: Primitives, i: nat, j: nat)
    requires i <= j < |pairs|
    requires forall k :: i <= k < j ==> HistorySpec(kind, pairs[k], history(k), prim).Ok?
    requires HistorySpec(kind, pairs[j], history(j), prim).Err?
    ensures CallsMade(kind, pairs, history, prim, i) == j + 1
    decreases j - i
  {
    if i < j {
      CallsMadeUpTo(kind, pairs, history, prim, i + 1, j);
    }
  }

  /** When the `j`-th history call is the first to fail, the loop makes `j + 1` calls, and the ones before succeed. */
  lemma CallsMadeFirstErr(kind: Kind, pairs: seq<string>, history: nat -> CallReplies, prim: Primitives, j: nat)
    requires j < |pairs| && HistorySpec(kind, pairs[j], history(j), prim).Err?
    requires forall i :: 0 <= i < j ==> HistorySpec(kind, pairs[i], history(i), prim).Ok?
    ensures CallsMade(kind, pairs, history, prim, 0) == j + 1
    ensures FetchPairs(kind, pairs[..j], history, prim).Ok?
  {
    CallsMadeUpTo(kind, pairs, history, prim, 0, j);
    var prefix := pairs[..j];
    FetchPairsOk(kind, prefix, history, prim);
    assert forall i :: 0 <= i < j ==> prefix[i] == pairs[i];
  }

  /** When the pairs before the `i`-th all succeed and the `i`-th fails, the loop makes `i + 1` calls. */
  lemma CallsMadeStopsAfter(kind: Kind, pairs: seq<string>, history: nat -> CallReplies, prim: Primitives, i: nat)
    requires i < |pairs| && FetchPairs(kind, pairs[..i], history, prim).Ok?
    requires HistorySpec(kind, pairs[i], history(i), prim).Err?
    ensures CallsMade(kind, pairs, history, prim, 0) == i + 1
  {
    var prefix := pairs[..i];
    FetchPairsOk(kind, prefix, history, prim);
    assert forall k :: 0 <= k < i ==> prefix[k] == pairs[k];
    CallsMadeUpTo(kind, pairs, history, prim, 0, i);
  }

  /** A failing loop stops right after its first failing call, whose error is the result. */
  lemma CallsMadeErr(kind: Kind, pairs: seq<string>, history: nat -> CallReplies, prim: Primitives)
    requires FetchPairs(kind, pairs, history, prim).Err?
    ensures var n := CallsMade(kind, pairs, history, prim, 0);
      0 < n <= |pairs| && FetchPairs(kind, pairs[..n - 1], history, prim).Ok? &&
      HistorySpec(kind, pairs[n - 1], history(n - 1), prim) == Err(FetchPairs(kind, pairs, history, prim).error)
  {
    FetchPairsErr(kind, pairs, history, prim);
    var j :| 0 <= j < |pairs| && HistorySpec(kind, pairs[j], history(j), prim) == Err(FetchPairs(kind, pairs, history, prim).error) &&
      forall i :: 0 <= i < j ==> HistorySpec(kind, pairs[i], history(i), prim).Ok?;
    CallsMadeFirstErr(kind, pairs, history, prim, j);
  }

  /**
   * The loop makes one call per pair when every call succeeds; otherwise it
   * stops right after the first failing call, whose error is the result.
   */
  lemma CallsMadeMeaning(kind: Kind, pairs: seq<string>, history: nat -> CallReplies, prim: Primitives)
    ensures FetchPairs(kind, pairs, history, prim).Ok? ==> CallsMade(kind, pairs, history, prim, 0) == |pairs|
    ensures FetchPairs(kind, pairs, history, prim).Err? ==>
      var n := CallsMade(kind, pairs, history, prim, 0);
      0 < n <= |pairs| && FetchPairs(kind, pairs[..n - 1], history, prim).Ok? &&
      HistorySpec(kind, pairs[n - 1], history(n - 1), prim) == Err(FetchPairs(kind, pairs, history, prim).error)
  {
    if FetchPairs(kind, pairs, history, prim).Ok? {
      CallsMadeAllOk(kind, pairs, history, prim, 0);
    } else {
      CallsMadeErr(kind, pairs, history, prim);
    }
  }

  /** Every record of one history call carries its exchange's tag and the pair asked for. */
  lemma HistoryTagged(kind: Kind, pair: string, replies: CallReplies, prim: Primitives)
    ensures HistorySpec(kind, pair, replies, prim).Ok? ==>
      forall t :: t in HistorySpec(kind, pair, replies, prim).value ==>
        t.serviceName == RecordTag(kind) && t.currencyPair == pair
  {
    match kind
    case ZaifKind(retry) =>
      var r := Zaif.History(pair, replies.zaif, retry, prim.formatFloat);
      match Zaif.Settled(Zaif.RetryRun(replies.zaif, retry, 0)) {
        case Err(_) =>
        case Ok(resp) =>
          Zaif.TradesMeaning(pair, resp.trades, prim.formatFloat);
      }
    case BitFlyerKind =>
      BitFlyer.HistoryMeaning(pair, replies.bitFlyer, prim.parseExecDate);
  }

  /** Every record fetched for a service carries that service's tag and one of the pairs queried. */
  lemma {:induction false} FetchPairsTagged(kind: Kind, pairs: seq<string>, history: nat -> CallReplies, prim: Primitives)
    ensures FetchPairs(kind, pairs, history, prim).Ok? ==>
      forall t :: t in FetchPairs(kind, pairs, history, prim).value ==>
        t.serviceName == RecordTag(kind) && t.currencyPair in pairs
  {
    if pairs != [] {
      var init := pairs[..|pairs| - 1];
      var last := pairs[|pairs| - 1];
      FetchPairsTagged(kind, init, history, prim);
      HistoryTagged(kind, last, history(|pairs| - 1), prim);
      assert forall p :: p in init ==> p in pairs;
    }
  }

  /**
   * Configured pairs are used as they are and discovery is not consulted;
   * with none configured, a failed discovery is the result, before any
   * history call.
   */
  lemma PairsToQueryMeaning(kind: Kind, allData: seq<TradeData>, configured: seq<string>, net: Network, discovered: Result<seq<string>>, prim: Primitives)
    ensures |configured| > 0 ==>
      TradeDataSpec(kind, allData, configured, net, prim) == TradeDataSpec(kind, allData, configured, net.(pairs := discovered), prim)
    ensures |configured| == 0 && net.pairs.Err? ==>
      TradeDataSpec(kind, allData, configured, net, prim) == Err(net.pairs.error)
    ensures TradeDataSpec(kind, allData, configured, net, prim).Ok? ==>
      allData <= TradeDataSpec(kind, allData, configured, net, prim).value
  {
  }

  // ---------------------------------------------------------------------
  // The requests the history calls send

  /** The requests of one history call: one signed POST per Zaif attempt, or the one bitFlyer GET. */
  datatype Sent = ZaifSent(requests: seq<HttpRequest>) | BitFlyerSent(request: HttpRequest)

  /** The next nonce of the service's client; a bitFlyer client has none. */
  function Nonce(service: Service): int
    reads Footprint(service)
  {
    match service
    case ZaifService(z) => z.nonce
    case BitFlyerService(_) => 0
  }

  /** The nonces one history call uses up: one per Zaif attempt, none for bitFlyer. */
  function CallNonces(service: Service, replies: CallReplies): nat {
    match service
    case ZaifService(z) => Zaif.Attempts(Zaif.RetryRun(replies.zaif, z.retry, 0))
    case BitFlyerService(_) => 0
  }

  /** The client's nonce after the first `count` history calls, starting from `n0`. */
  function NonceAfter(service: Service, history: nat -> CallReplies, n0: int, count: nat): int {
    if count == 0 then n0 else NonceAfter(service, history, n0, count - 1) + CallNonces(service, history(count - 1))
  }

  /**
   * What one history call for `pair` sends.  Zaif: one signed POST per
   * attempt the retry loop makes on `replies`, each querying trades since
   * Unix second `since`, with nonces counting up from `n0`.  bitFlyer: the
   * signed GET of the pair's executions stamped with Unix second `stamp`.
   */
  function CallSent(service: Service, pair: string, since: int, stamp: int, n0: int, replies: CallReplies, prim: Primitives): Sent {
    match service
    case ZaifService(z) =>
      ZaifSent(Zaif.HistoryRequests(z.key, z.secret, pair, since, n0, Zaif.Attempts(Zaif.RetryRun(replies.zaif, z.retry, 0)), prim))
    case BitFlyerService(b) =>
      BitFlyerSent(b.Get(BitFlyer.ExecutionsPath, Some(BitFlyer.HistoryParams(pair)), stamp, prim))
  }

  /**
   * One history call as the loop made it: the pair, the window `[from, to]`
   * it asked for, the nonce the client had when it began, and the requests
   * it sent.
   */
  datatype HistoryCall = HistoryCall(pair: string, from: int, to: int, nonce: int, sent: Sent)

  /** A call sent what a call with its recorded arguments sends, given its replies. */
  predicate SentAsMade(service: Service, call: HistoryCall, stamp: int, replies: CallReplies, prim: Primitives) {
    call.sent == CallSent(service, call.pair, UnixSeconds(call.from), stamp, call.nonce, replies, prim)
  }

  /** Every call is for the pair at its own position in `pairs`, over `[from, to]`. */
  predicate CallWindows(pairs: seq<string>, from: int, to: int, calls: seq<HistoryCall>)
    decreases |calls|
  {
    |calls| <= |pairs| &&
    (|calls| == 0 ||
      (CallWindows(pairs, from, to, calls[..|calls| - 1]) &&
       calls[|calls| - 1].pair == pairs[|calls| - 1] && calls[|calls| - 1].from == from && calls[|calls| - 1].to == to))
  }

  /** Every call starts from the nonce the calls before it left, the first from `n0`. */
  predicate CallNoncesFrom(service: Service, n0: int, history: nat -> CallReplies, calls: seq<HistoryCall>)
    decreases |calls|
  {
    |calls| == 0 ||
    (CallNoncesFrom(service, n0, history, calls[..|calls| - 1]) &&
     calls[|calls| - 1].nonce == NonceAfter(service, history, n0, |calls| - 1))
  }

  /** Every call got the replies at its position in `history` and sent what a call with its arguments sends. */
  predicate CallsSentAsMade(service: Service, stamp: int, history: nat -> CallReplies, calls: seq<HistoryCall>, prim: Primitives)
    decreases |calls|
  {
    |calls| == 0 ||
    (CallsSentAsMade(service, stamp, history, calls[..|calls| - 1], prim) &&
     SentAsMade(service, calls[|calls| - 1], stamp, history(|calls| - 1), prim))
  }

  /** The calls so far, as the loop over `pairs` recorded them. */
  predicate CallsRecorded(service: Service, pairs: seq<string>, from: int, to: int, stamp: int, n0: int, history: nat -> CallReplies, calls: seq<HistoryCall>, prim: Primitives) {
    CallWindows(pairs, from, to, calls) && CallNoncesFrom(service, n0, history, calls) &&
    CallsSentAsMade(service, stamp, history, calls, prim)
  }

  /** Appending a call for the next pair over the same window keeps the windows. */
  lemma CallWindowsNext(pairs: seq<string>, from: int, to: int, calls: seq<HistoryCall>, call: HistoryCall)
    requires |calls| < |pairs| && CallWindows(pairs, from, to, calls)
    requires call.pair == pairs[|calls|] && call.from == from && call.to == to
    ensures CallWindows(pairs, from, to, calls + [call])
  {
    assert (calls + [call])[..|calls|] == calls;
  }

  /** Appending a call that starts from the nonce the earlier ones left keeps the nonce chain. */
  lemma CallNoncesNext(service: Service, n0: int, history: nat -> CallReplies, calls: seq<HistoryCall>, call: HistoryCall)
    requires CallNoncesFrom(service, n0, history, calls)
    requires call.nonce == NonceAfter(service, history, n0, |calls|)
    ensures CallNoncesFrom(service, n0, history, calls + [call])
  {
    assert (calls + [call])[..|calls|] == calls;
  }

  /** Appending a call that sent what its arguments send keeps the requests. */
  lemma CallsSentNext(service: Service, stamp: int, history: nat -> CallReplies, calls: seq<HistoryCall>, call: HistoryCall, prim: Primitives)
    requires CallsSentAsMade(service, stamp, history, calls, prim)
    requires SentAsMade(service, call, stamp, history(|calls|), prim)
    ensures CallsSentAsMade(service, stamp, history, calls + [call], prim)
  {
    assert (calls + [call])[..|calls|] == calls;
  }

  /**
   * What the recorded calls were, call by call: the `k`-th is for
   * `pairs[k]` over exactly `[from, to]`, starts from the nonce the first
   * `k` calls left, got `history(k)` and sent the requests of such a call.
   */
  lemma {:induction false} CallAt(service: Service, pairs: seq<string>, from: int, to: int, stamp: int, n0: int, history: nat -> CallReplies, calls: seq<HistoryCall>, prim: Primitives, k: nat)
    requires CallWindows(pairs, from, to, calls) && CallNoncesFrom(service, n0, history, calls)
    requires CallsSentAsMade(service, stamp, history, calls, prim)
    requires k < |calls|
    ensures calls[k].pair == pairs[k] && calls[k].from == from && calls[k].to == to
    ensures calls[k].nonce == NonceAfter(service, history, n0, k)
    ensures calls[k].sent == CallSent(service, pairs[k], UnixSeconds(from), stamp, NonceAfter(service, history, n0, k), history(k), prim)
    decreases |calls|
  {
    if k < |calls| - 1 {
      var prefix := calls[..|calls| - 1];
      CallAt(service, pairs, from, to, stamp, n0, history, prefix, prim, k);
      assert prefix[k] == calls[k];
    }
  }

  /**
   * The history call behind one pair, dispatched on the exchange: its
   * result, the record of the call (its window, the nonce it began with and
   * the requests it sent, the bitFlyer one stamped with the current Unix
   * second), and the nonces it uses up.
   */
  method History(service: Service, pair: string, from: int, to: int, now: int, replies: CallReplies, prim: Primitives)
    returns (call: HistoryCall, r: Result<seq<TradeData>>)
    modifies Footprint(service)
    ensures r == HistorySpec(KindOf(service), pair, replies, prim)
    ensures call.pair == pair && call.from == from && call.to == to && call.nonce == old(Nonce(service))
    ensures SentAsMade(service, call, UnixSeconds(now), replies, prim)
    ensures Nonce(service) == old(Nonce(service)) + CallNonces(service, replies)
  {
    var sent;
    var n0 := Nonce(service);
    match service {
      case ZaifService(z) =>
        var requests;
        requests, r := z.GetTradeHistory(pair, from, to, replies.zaif, prim);
        sent := ZaifSent(requests);
      case BitFlyerService(b) =>
        var req;
        req, r := b.GetTradeHistory(pair, from, to, UnixSeconds(now), replies.bitFlyer, prim);
        sent := BitFlyerSent(req);
    }
    call := HistoryCall(pair, from, to, n0, sent);
  }

  /** How one history call moves the loop on: what the records of the pairs so far become. */
  lemma FetchStep(kind: Kind, pairs: seq<string>, i: nat, history: nat -> CallReplies, prim: Primitives, fetched: seq<TradeData>)
    requires i < |pairs| && FetchPairs(kind, pairs[..i], history, prim) == Ok(fetched)
    ensures HistorySpec(kind, pairs[i], history(i), prim).Err? ==>
      FetchPairs(kind, pairs, history, prim) == Err(HistorySpec(kind, pairs[i], history(i), prim).error)
    ensures HistorySpec(kind, pairs[i], history(i), prim).Ok? ==>
      FetchPairs(kind, pairs[..i + 1], history, prim) == Ok(fetched + HistorySpec(kind, pairs[i], history(i), prim).value)
  {
    if HistorySpec(kind, pairs[i], history(i), prim).Err? {
      FetchPairsStopsAt(kind, pairs, i, history, prim);
    } else {
      FetchPairsExtend(kind, pairs, i, history, prim);
    }
  }

  /**
   * One round of the loop over `pairs`: the history call for `pairs[i]`
   * over the year up to `now`, recorded after the calls before it, and
   * what it makes of the records so far: `data`, which is `allData`
   * followed by the records `fetched` for the pairs before `pairs[i]`.
   */
  method QueryPair(service: Service, pairs: seq<string>, i: nat, now: int, history: nat -> CallReplies, ghost n0: int, ghost allData: seq<TradeData>, ghost fetched: seq<TradeData>, ghost data: seq<TradeData>, calls: seq<HistoryCall>, prim: Primitives)
    returns (calls': seq<HistoryCall>, d: Result<seq<TradeData>>)
    requires i < |pairs| && |calls| == i
    requires FetchPairs(KindOf(service), pairs[..i], history, prim) == Ok(fetched)
    requires data == allData + fetched
    requires CallsRecorded(service, pairs, now - YearMillis, now, UnixSeconds(now), n0, history, calls, prim)
    requires Nonce(service) == NonceAfter(service, history, n0, i)
    modifies Footprint(service)
    ensures |calls'| == i + 1
    ensures CallsRecorded(service, pairs, now - YearMillis, now, UnixSeconds(now), n0, history, calls', prim)
    ensures Nonce(service) == NonceAfter(service, history, n0, i + 1)
    ensures d.Err? ==>
      FetchPairs(KindOf(service), pairs, history, prim) == Err(d.error) &&
      CallsMade(KindOf(service), pairs, history, prim, 0) == i + 1
    ensures d.Ok? ==> FetchPairs(KindOf(service), pairs[..i + 1], history, prim) == Ok(fetched + d.value)
    ensures d.Ok? ==> data + d.value == allData + (fetched + d.value)
  {
    var call;
    call, d := History(service, pairs[i], now - YearMillis, now, now, history(i), prim);
    CallWindowsNext(pairs, now - YearMillis, now, calls, call);
    CallNoncesNext(service, n0, history, calls, call);
    CallsSentNext(service, UnixSeconds(now), history, calls, call, prim);
    FetchStep(KindOf(service), pairs, i, history, prim, fetched);
    if d.Err? {
      CallsMadeStopsAfter(KindOf(service), pairs, history, prim, i);
    } else {
      AppendAssociative(allData, fetched, d.value);
    }
    calls' := calls + [call];
  }

  /**
   * The loop of `getTradeData` over `pairs`: one history call per pair in
   * order, each over the year up to `now` (365 days of 24 hours), stopping
   * at the first that fails; the records are appended to `allData`.
   */
  method QueryPairs(service: Service, allData: seq<TradeData>, pairs: seq<string>, now: int, history: nat -> CallReplies, prim: Primitives)
    returns (calls: seq<HistoryCall>, r: Result<seq<TradeData>>)
    modifies Footprint(service)
    ensures FetchPairs(KindOf(service), pairs, history, prim).Err? ==> r == Err(FetchPairs(KindOf(service), pairs, history, prim).error)
    ensures FetchPairs(KindOf(service), pairs, history, prim).Ok? ==> r == Ok(allData + FetchPairs(KindOf(service), pairs, history, prim).value)
    ensures CallWindows(pairs, now - YearMillis, now, calls)
    ensures CallNoncesFrom(service, old(Nonce(service)), history, calls)
    ensures CallsSentAsMade(service, UnixSeconds(now), history, calls, prim)
    ensures |calls| == CallsMade(KindOf(service), pairs, history, prim, 0)
    ensures Nonce(service) == NonceAfter(service, history, old(Nonce(service)), |calls|)
  {
    calls := [];
    ghost var n0 := Nonce(service);
    var data := allData;
    ghost var fetched: seq<TradeData> := [];
    var i := 0;
    while i < |pairs|
      invariant 0 <= i <= |pairs| && |calls| == i
      invariant FetchPairs(KindOf(service), pairs[..i], history, prim) == Ok(fetched)
      invariant data == allData + fetched
      invariant CallsRecorded(service, pairs, now - YearMillis, now, UnixSeconds(now), n0, history, calls, prim)
      invariant Nonce(service) == NonceAfter(service, history, n0, i)
    {
      var d;
      calls, d := QueryPair(service, pairs, i, now, history, n0, allData, fetched, data, calls, prim);
      if d.Err? {
        return calls, Err(d.error);
      }
      data := data + d.value;
      fetched := fetched + d.value;
      i := i + 1;
    }
    assert pairs[..i] == pairs;
    CallsMadeAllOk(KindOf(service), pairs, history, prim, 0);
    r := Ok(data);
  }

  /**
   * `getTradeData`: appends to `allData` the histories of the configured
   * pairs, or of the discovered ones when none are configured; the first
   * error is returned with no data.  Every call asks for the year up to
   * `now`, one call per pair in order, and none after the first that
   * fails; a failed discovery sends nothing.
   */
  method GetTradeData(service: Service, allData: seq<TradeData>, currencyPairs: seq<string>, now: int, net: Network, prim: Primitives)
    returns (calls: seq<HistoryCall>, r: Result<seq<TradeData>>)
    modifies Footprint(service)
    ensures r == TradeDataSpec(KindOf(service), allData, currencyPairs, net, prim)
    ensures PairsToQuery(currencyPairs, net.pairs).Err? ==> calls == []
    ensures CallWindows(Queried(currencyPairs, net.pairs), now - YearMillis, now, calls)
    ensures CallNoncesFrom(service, old(Nonce(service)), net.history, calls)
    ensures CallsSentAsMade(service, UnixSeconds(now), net.history, calls, prim)
    ensures |calls| == CallsMade(KindOf(service), Queried(currencyPairs, net.pairs), net.history, prim, 0)
    ensures Nonce(service) == NonceAfter(service, net.history, old(Nonce(service)), |calls|)
  {
    var pairs := currencyPairs;
    if |pairs| == 0 {
      var c := net.pairs;   // GetCurrencyPairs
      if c.Err? {
        return [], Err(c.error);
      }
      pairs := c.value;
    }
    calls, r := QueryPairs(service, allData, pairs, now, net.history, prim);
  }

  lemma AppendAssociative(a: seq<TradeData>, b: seq<TradeData>, c: seq<TradeData>)
    ensures a + (b + c) == (a + b) + c
  {
  }

  // ---------------------------------------------------------------------
  // The download command

  /** The records of all configured services, in configuration order, or the first error. */
  function AllServices(configs: seq<ServiceConfig>, nets: nat -> Network, prim: Primitives): Result<seq<TradeData>> {
    if configs == [] then Ok([])
    else match AllServices(configs[..|configs| - 1], nets, prim)
      case Err(e) => Err(e)
      case Ok(acc) =>
        var conf := configs[|configs| - 1];
        match SelectKind(conf.service)
        case Err(e) => Err(e)
        case Ok(kind) => TradeDataSpec(kind, acc, conf.currencies, nets(|configs| - 1), prim)
  }

  /** What `download` produces before sorting, or its error. */
  function DownloadSpec(args: seq<string>, configs: seq<ServiceConfig>, nets: nat -> Network, prim: Primitives): Result<seq<TradeData>> {
    if |args| != 1 then Err("specify the destination file path")
    else AllServices(configs, nets, prim)
  }

  lemma {:induction false} AllServicesErrPrefix(configs: seq<ServiceConfig>, n: nat, nets: nat -> Network, prim: Primitives)
    requires n <= |configs| && AllServices(configs[..n], nets, prim).Err?
    ensures AllServices(configs, nets, prim) == AllServices(configs[..n], nets, prim)
    decreases |configs| - n
  {
    if n < |configs| {
      assert configs[..n + 1][..n] == configs[..n];
      AllServicesErrPrefix(configs, n + 1, nets, prim);
    } else {
      assert configs[..n] == configs;
    }
  }

  /** The services before `i` succeeded: the `i`-th decides whether the run goes on, and with what. */
  lemma AllServicesStep(configs: seq<ServiceConfig>, i: nat, nets: nat -> Network, prim: Primitives)
    requires i < |configs| && AllServices(configs[..i], nets, prim).Ok?
    ensures SelectKind(configs[i].service).Err? ==>
      AllServices(configs, nets, prim) == Err(SelectKind(configs[i].service).error)
    ensures SelectKind(configs[i].service).Ok? ==>
      AllServices(configs[..i + 1], nets, prim) ==
        TradeDataSpec(SelectKind(configs[i].service).value, AllServices(configs[..i], nets, prim).value, configs[i].currencies, nets(i), prim)
  {
    assert configs[..i + 1][..i] == configs[..i];
    if AllServices(configs[..i + 1], nets, prim).Err? {
      AllServicesErrPrefix(configs, i + 1, nets, prim);
    }
  }

  /**
   * An unsupported service name aborts the whole download with its error,
   * whatever the services after it, once the services before it succeed.
   */
  lemma UnsupportedServiceAborts(configs: seq<ServiceConfig>, n: nat, nets: nat -> Network, prim: Primitives)
    requires n < |configs|
    requires AllServices(configs[..n], nets, prim).Ok?
    requires configs[n].service != "zaif" && configs[n].service != "bitflyer"
    ensures AllServices(configs, nets, prim) == Err("unsupported service: " + configs[n].service)
  {
    AllServicesStep(configs, n, nets, prim);
  }

  /**
   * Every record of a successful download came from a configured service:
   * it carries the tag of one of the two exchanges.
   */
  lemma {:induction false} AllServicesTagged(configs: seq<ServiceConfig>, nets: nat -> Network, prim: Primitives)
    ensures AllServices(configs, nets, prim).Ok? ==>
      forall t :: t in AllServices(configs, nets, prim).value ==>
        t.serviceName == Zaif.RecordTag || t.serviceName == BitFlyer.RecordTag
  {
    if configs != [] {
      var init := configs[..|configs| - 1];
      var conf := configs[|configs| - 1];
      AllServicesTagged(init, nets, prim);
      if AllServices(init, nets, prim).Ok? && SelectKind(conf.service).Ok? {
        var kind := SelectKind(conf.service).value;
        var net := nets(|configs| - 1);
        match PairsToQuery(conf.currencies, net.pairs) {
          case Err(_) =>
          case Ok(pairs) =>
            FetchPairsTagged(kind, pairs, net.history, prim);
        }
      }
    }
  }

  /** `SortTradeData` applied to the collected slice, whose backing array the sort updates in place. */
  method SortAll(records: seq<TradeData>) returns (sorted: seq<TradeData>)
    ensures SortedByUnix(sorted)
    ensures multiset(sorted) == multiset(records)
  {
    var a := new TradeData[|records|](k requires 0 <= k < |records| => records[k]);
    assert a[..] == records;
    SortTradeData(a);
    sorted := a[..];
  }

  /**
   * One turn of `download`'s loop: create the `i`-th configured service and
   * append its records, or abort the download with the first error.
   */
  method DownloadService(configs: seq<ServiceConfig>, i: nat, allData: seq<TradeData>, now: int, nets: nat -> Network, prim: Primitives)
    returns (next: Result<seq<TradeData>>)
    requires i < |configs|
    requires AllServices(configs[..i], nets, prim) == Ok(allData)
    ensures next.Err? ==> AllServices(configs, nets, prim) == next
    ensures next.Ok? ==> AllServices(configs[..i + 1], nets, prim) == next
  {
    AllServicesStep(configs, i, nets, prim);
    var service := CreateService(configs[i], now);
    if service.Err? {
      return Err(service.error);
    }
    var calls, data := GetTradeData(service.value, allData, configs[i].currencies, now, nets(i), prim);
    if data.Err? {
      AllServicesErrPrefix(configs, i + 1, nets, prim);
    }
    next := data;
  }

  /**
   * `download` up to the sort: exactly one argument (the destination
   * file), then each configured service created and fetched in order,
   * stopping at the first error; the records of all services are sorted in
   * place by whole Unix seconds.  The result is the sorted records.
   */
  method Download(args: seq<string>, configs: seq<ServiceConfig>, now: int, nets: nat -> Network, prim: Primitives)
    returns (r: Result<seq<TradeData>>)
    ensures r.Err? <==> DownloadSpec(args, configs, nets, prim).Err?
    ensures r.Err? ==> r.error == DownloadSpec(args, configs, nets, prim).error
    ensures r.Ok? ==>
      SortedByUnix(r.value) &&
      multiset(r.value) == multiset(DownloadSpec(args, configs, nets, prim).value)
  {
    if |args| != 1 {
      return Err("specify the destination file path");
    }
    var allData: seq<TradeData> := [];
    var i := 0;
    while i < |configs|
      invariant 0 <= i <= |configs|
      invariant AllServices(configs[..i], nets, prim) == Ok(allData)
    {
      var next := DownloadService(configs, i, allData, now, nets, prim);
      if next.Err? {
        return next;
      }
      allData := next.value;
      i := i + 1;
    }
    assert configs[..i] == configs;
    var sorted := SortAll(allData);
    r := Ok(sorted);
  }
}
