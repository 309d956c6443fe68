# Trade history fetcher, modelled in Dafny

The system downloads a year of the account's trade history from two
cryptocurrency exchanges, bitFlyer and Zaif. Each exchange adapter signs its
requests and converts the exchange's own records into one canonical trade
record, with action, price, amount, fee, signed profit and remarks. The
`download` command then concatenates the records of every configured service
and pair, and sorts them by whole Unix seconds.

This project models the core of that system:

- `services.dfy` (module `Services`): the trade action and its label; the
  canonical record; the record-by-record conversion loop both adapters share,
  which stops at the first bad record; `SortTradeData` as an in-place sort of
  an array. The sort is proved sorted and a permutation, and is proved to
  produce a key sequence that depends only on its input.
- `bitflyer.dfy` (module `BitFlyer`):
  - the signed GET (HMAC-SHA256 over timestamp, verb and path with its query);
  - side mapping, fee and profit;
  - execution-date normalisation (pad to 23 characters, zero tail rewritten),
    then the +9 h shift;
  - a failed fetch whose error is dropped.
- `zaif.dfy` (module `Zaif`):
  - a client class whose nonce field grows by one per request;
  - the shared query that gains a `method` and a `nonce` on every attempt;
  - the body signed with HMAC-SHA512;
  - the bounded retry loop on "time wait restriction";
  - bid/ask mapping, fee in base currency times price, a bonus that counts
    only when positive, and the ordered remarks.
- `cli.dfy` (module `Cli`): the closed factory `createService`; `getTradeData`,
  which uses the configured pairs or the discovered ones, concatenates in pair
  order and aborts at the first error; the `download` control flow up to and
  including the sort.
- `text.dfy`, `platform.dfy`, `results.dfy` are supporting modules:
  - decimal rendering of integers and its inverse, `strings.Contains`;
  - the foreign primitives, the HTTP request shape and `url.Values`;
  - `Option`/`Result`.

Time is an integer count of Unix milliseconds. `Time.Unix()` is a floor
division by 1000.

Foreign code is passed in as one record of total functions (`Primitives`):
HMAC-SHA256 and HMAC-SHA512, hex encoding, `url.Values.Encode`, `%f`
formatting and `time.Parse` with the layout `2006-01-02T15:04:05.000`. Every
statement proved holds for any implementation of them.

The network is an input, and so is the current time:
- a bitFlyer fetch is either the decoded executions or an error;
- Zaif replies are a function from the attempt number to a transport error, a
  decode error or a decoded envelope;
- for the `c`-th configured service, `nets(c)` gives the discovered pairs and
  the replies to each history call.

Behaviours of the code that a reader might not expect; the model follows the
code:
- The records are tagged `bitFlyer` and `Zaif`, while the adapters' `Name()`
  returns `bitflyer` and `zaif`. The tag is therefore not the name.
- bitFlyer's fee is `Commission * Price`. It is not multiplied by `Size`.
- bitFlyer ignores the `from`/`to` window, and Zaif sends only `since`, so
  `to` goes unused.
- Zaif adds the bonus to profit only when it is positive.
- Neither adapter checks that fees are non-negative.
- A bitFlyer fetch error is discarded, so a failed request yields no records
  and no error. `FetchFailed` stands for the errors that leave the slice of
  executions empty. Go's `json.Unmarshal` can also fail after it has decoded
  part of the reply. Such a partly decoded reply is given to the model as
  `Fetched` with the executions decoded so far; those are converted, as
  services/bitflyer.go:77-80 does.
- `download` creates each service only when its turn comes, so within
  `download` an unsupported name aborts after the services before it have
  been fetched. In the program this branch cannot be reached: `init()`
  (cli/root.go:98-111) calls `createService` on the same configured services
  and panics on an unsupported name before any command runs. The branch, and
  `Cli.UnsupportedServiceAborts`, describe `download` on its own.

## Model

| member | source | states |
|---|---|---|
| Services.ActionString | services/service.go:20-29 | defined only for Buy and Sell (any other value panics); gives "Buy" exactly for Buy and "Sell" exactly for Sell |
| Services.Collect | services/bitflyer.go:82-119 | a batch that converts holds exactly one record per input record |
| Services.CollectOk | services/bitflyer.go:81-119 | a batch converts exactly when every record converts; then one record per input, each the conversion of the input at the same position |
| Services.CollectErr | services/zaif.go:115-116 | a failed batch carries the error of the first record that does not convert, and every record before it converts |
| Services.CollectErrPrefix | services/bitflyer.go:104-105 | once a prefix of the batch fails, the whole batch fails with that error; later records do not matter |
| Services.CollectExtend | services/bitflyer.go:108-117 | each converted record is appended after the records of the prefix |
| Services.CollectStopsAt | services/bitflyer.go:91-92 | the first rejected record returns its error and no partial records |
| Services.SameSecondUnordered | services/service.go:62-63 | two records in the same whole second are sorted in either order, so the order of ties is not determined |
| Services.KeysPermutation | services/service.go:61-64 | permuting records permutes their second-keys |
| Services.NonDecreasingUnique | services/service.go:62-63 | two non-decreasing key sequences with the same keys are equal |
| Services.SortedKeysDetermined | services/service.go:61-65 | any two sorted arrangements of the same records have the same key sequence; in particular, sorting an already sorted input leaves its keys as they were |
| Services.MinIndex | services/service.go:62-63 | returns a position in the unsorted tail holding a smallest whole-second key |
| Services.SortTradeData | services/service.go:61-65 | the array ends non-decreasing by whole Unix seconds and holds the same multiset of records; an already sorted input keeps its key sequence |
| BitFlyer.Client.Get | services/bitflyer.go:32-50 | GET with empty body; the URL is the host plus the path with `?query` when there is a query; ACCESS-KEY is the key; ACCESS-TIMESTAMP reads back as the timestamp; ACCESS-SIGN is the HMAC-SHA256 of timestamp + verb + the same path |
| BitFlyer.Client.GetTradeHistory | services/bitflyer.go:65-120 | the request is authentic and asks for the pair's executions; the result is the in-order conversion of the executions, or the first error; a failed fetch (`FetchFailed`, no executions decoded) gives Ok with no records |
| BitFlyer.PaddedExecDate | services/bitflyer.go:96-98 | after padding, the date has at least 23 characters, so the `[0:19]` slice is in bounds |
| BitFlyer.NormalizeExecDate | services/bitflyer.go:96-102 | the loop that appends '0' until 23 characters, followed by the zero-tail rule, yields the normalised date |
| BitFlyer.WholeSecondDate | services/bitflyer.go:100-102 | a date without fraction, e.g. `2021-01-01T00:00:00`, becomes `2021-01-01T00:00:00.000` |
| BitFlyer.ShortFractionDate | services/bitflyer.go:96-102 | a date with a fraction shorter than three digits gets its fraction right-padded with zeros and nothing else |
| BitFlyer.DateTimeKept | services/bitflyer.go:96-101 | normalisation keeps the first 19 characters (date and time of day) and gives at least 23 characters |
| BitFlyer.ToTradeData | services/bitflyer.go:83-117 | the step-by-step profit accumulation and date handling give exactly the specified conversion of one execution |
| BitFlyer.ExecutionTrade | services/bitflyer.go:85-116 | BUY gives Buy and profit −price·size − fee; SELL gives Sell and price·size − fee; fee = commission·price; time = parsed date + 9 h; tag `bitFlyer`, pair, price and size copied; no remarks; the result is Ok exactly when the side is BUY or SELL and the normalised date parses; any other side is `unsupported side: ` + side; a parse failure is returned as is |
| BitFlyer.SellExample | services/bitflyer.go:85-116 | a SELL of 2 at 100 with commission 0.001 dated `2021-01-01T00:00:00` gives fee 0.1, profit 199.9, no remarks and the parsed time plus nine hours |
| BitFlyer.HistoryMeaning | services/bitflyer.go:76-119 | the history is Ok exactly when every execution converts; it then has one record per execution in source order; otherwise it is the first failure's error |
| Text.ContainsInside | services/zaif.go:94 | a message holding the phrase anywhere is recognised by `Contains` |
| Text.ContainsOccurs | services/zaif.go:94 | a message recognised by `Contains` holds the phrase somewhere: it is some `a + phrase + b` |
| Text.ContainsMeaning | services/zaif.go:94 | `Contains` holds exactly when the phrase occurs in the message |
| Text.Decimal | services/zaif.go:37 | the decimal rendering is non-empty and starts with '-' exactly for negatives |
| Text.DecimalRoundTrip | services/bitflyer.go:48 | the rendered integer parses back to the same integer |
| Text.DecimalInjective | services/zaif.go:37 | distinct integers render as distinct strings |
| Platform.AddedValues | services/zaif.go:36-37 | `Values.Add` appends the value under its own key, creating the key if needed, and leaves every other key's values alone |
| Platform.Values.constructor | services/zaif.go:79 | a new query is empty |
| Platform.Values.Add | services/zaif.go:36-37 | the query becomes the old query with the value added under the key |
| Zaif.Client.constructor | services/zaif.go:19-21 | credentials kept, nonce starts at the given Unix second, budget of 10 attempts |
| Zaif.Client.Request | services/zaif.go:34-48 | adds `method` and the current nonce to the caller's query; the nonce grows by exactly 1; the request is the POST of the encoded query, signed over that same body |
| Zaif.SignedPostAuthentic | services/zaif.go:40-48 | a signed POST carries the key, sends the encoded query as body, and its Sign header is the HMAC-SHA512 of that body |
| Zaif.NextRequest | services/zaif.go:36-48 | one more request extends the shared query by one method and the next nonce, and extends the request history by the signed POST of that query |
| Zaif.ParamsAfterContents | services/zaif.go:79-85 | after k requests the shared query holds `since` and `currency_pair` once each, k method names, and the k nonces sent, in order |
| Zaif.NoncesAt | services/zaif.go:37-38 | the nonces sent are n0, n0+1, …, so they strictly increase |
| Zaif.NonceAt | services/zaif.go:37-38 | the nonce sent by the `i`-th request is the decimal rendering of n0 + i |
| Zaif.NoncesDiffer | services/zaif.go:37-38 | the nonces of two different requests are different strings |
| Zaif.NoncesDistinct | services/zaif.go:37-38 | no two nonces sent by one client are equal as strings |
| Zaif.HistoryRequestsAt | services/zaif.go:84-85 | the k-th request of a history call is the signed POST of the query after k+1 additions, and it is authentic |
| Zaif.RetryRun | services/zaif.go:84-102 | the loop from attempt `k`: within the budget it makes at least one more request and never more than the budget allows; from outside the budget it makes none |
| Zaif.RetryStep | services/zaif.go:85-101 | one attempt: a transport or decode error, a failed reply that is not retried, and a success each end the loop at that attempt with their own error or reply; a retried reply hands over to the next attempt |
| Zaif.TransientMeaning | services/zaif.go:93-94 | a reply is retried exactly when it decoded, did not succeed and its error message holds "time wait restriction" somewhere; a failed reply without the phrase is not retried |
| Zaif.AttemptBudget | services/zaif.go:84 | with a budget of at least one, between 1 and `retry` requests are made; with none, no request is made and the zero response is used |
| Zaif.TransientPrefix | services/zaif.go:93-98 | transient replies before the last attempt only move the loop on |
| Zaif.SuccessAfterWaits | services/zaif.go:84-102 | transient replies to the first N−1 attempts and success on the N-th (N ≤ budget) give that reply after exactly N requests |
| Zaif.WaitsExhaustBudget | services/zaif.go:94-99 | transient replies to every attempt end in failure after `retry` requests, with the last reply's error |
| Zaif.StopsAtFirstFailure | services/zaif.go:85-100 | a transport, decode or non-transient failure ends the loop at once with its own error |
| Zaif.ToTradeData | services/zaif.go:106-138 | the step-by-step profit and remarks construction gives exactly the specified conversion of one trade |
| Zaif.ConvertTrades | services/zaif.go:104-141 | the trades are converted in iteration order, stopping at the first rejected one |
| Zaif.ZaifTrade | services/zaif.go:109-135 | bid gives Buy and profit −price·amount − feeAmount·price + positive bonus; ask gives Sell and price·amount − feeAmount·price + positive bonus; a non-positive bonus is ignored; fee = feeAmount·price; time is the trade's Unix second; tag `Zaif`; the remarks are `Remarks` of the trade; the result is Ok exactly when your_action is bid or ask; any other your_action is `unsupported action: ` + the raw action |
| Zaif.BidExample | services/zaif.go:109-135 | a bid of 1 at 50 with fee amount 0.01 and no bonus gives Buy, fee 0.5 and profit −50.5 |
| Zaif.Remarks | services/zaif.go:119-126 | 1 to 4 remarks: the action first, then Fee and Fee Amount exactly when either is positive, then Bonus exactly when it is positive |
| Zaif.TradesMeaning | services/zaif.go:105-141 | a reply converts exactly when every your_action is bid or ask; then one record per trade, each its conversion |
| Zaif.Client.RequestTrades | services/zaif.go:79-102 | the reply that ends the retry loop is the one the retry specification picks; the number of requests equals its attempt count; the nonce grows by that count; the requests are exactly the history requests |
| Zaif.Client.GetTradeHistory | services/zaif.go:60-142 | the result is the conversion of the reply that ends the retry loop, or that reply's error; nonce and requests as for the loop |
| Cli.SelectKind | cli/root.go:68-75 | exactly "zaif" and "bitflyer" are accepted (case-sensitive); any other name gives `unsupported service: ` + name; Zaif gets 10 attempts |
| Cli.BitFlyerNameSelected | services/bitflyer.go:28-30 | the bitFlyer adapter's `Name()` is the configured name that `createService` turns into a bitFlyer client |
| Cli.ZaifNameSelected | services/zaif.go:30-32 | the Zaif adapter's `Name()` is the configured name that `createService` turns into a Zaif client with 10 attempts |
| Cli.CreateService | cli/root.go:68-75 | a fresh client of the selected exchange with the configured credentials, whose `Name()` is the configured name; otherwise the factory's error |
| Cli.History | cli/root.go:86 | the call is recorded with the pair and the window it was given and the nonce the client had; it sent exactly what such a call sends (Zaif: the signed POSTs of its attempts, `since` being the window start's Unix second; bitFlyer: the signed GET of the pair's executions); the result is the exchange's history for the pair; the Zaif nonce grows by the attempts made |
| Cli.GetTradeData | cli/root.go:77-93 | the result is allData followed by the histories of the pairs to query, in order, or the first error with no data; one call per queried pair, in order, up to and including the first that fails; every call asks for the window [now − 365·24 h, now], starts from the nonce the calls before it left and sends that call's requests; a failed discovery sends nothing; the Zaif nonce ends advanced by every attempt |
| Cli.QueryPairs | cli/root.go:85-92 | the loop over a list of pairs: the result, the calls, their windows, nonces and requests, and the final nonce, as for `getTradeData` |
| Cli.QueryPair | cli/root.go:86-90 | one round: the call for `pairs[i]` over [now − 365·24 h, now] is recorded after the earlier ones and uses up its attempts' nonces; a failure is the whole loop's error and its last call; a success extends the records of the pairs so far |
| Cli.CallAt | cli/root.go:85-92 | the `k`-th recorded call is for `pairs[k]`, over the window given, starts from the nonce the first `k` calls left, and sent the requests of such a call |
| Cli.CallsMadeMeaning | cli/root.go:85-92 | the loop makes one call per pair when every call succeeds; otherwise it stops right after the first failing call, whose error is the result |
| Cli.PairsToQueryMeaning | cli/root.go:78-84 | configured pairs are used as given and discovery is not consulted; with none configured, a failed discovery is the result; on success allData is a prefix of the result |
| Cli.FetchPairsOk | cli/root.go:85-92 | fetching succeeds exactly when every pair's history call succeeds |
| Cli.FetchPairsErr | cli/root.go:86-89 | a failure is the error of the first failing call, and every call before it succeeded |
| Cli.FetchPairsExtend | cli/root.go:90 | each pair's records are appended after those of the earlier pairs |
| Cli.FetchPairsStopsAt | cli/root.go:86-89 | the first failing call decides the result; later pairs do not matter |
| Cli.FetchPairsErrPrefix | cli/root.go:85-92 | once a prefix of the pairs fails, the whole fetch fails with that error |
| Cli.HistoryTagged | cli/root.go:86-90 | every record of a history call carries its exchange's tag and the pair asked for |
| Cli.FetchPairsTagged | cli/root.go:85-92 | every record fetched for a service carries that service's tag and one of the queried pairs |
| Cli.AllServicesErrPrefix | cli/root.go:45-54 | once the services up to some point fail, the download fails with that error |
| Cli.AllServicesStep | cli/root.go:45-54 | after successful earlier services, the next one either aborts with the factory's error or appends its records |
| Cli.DownloadService | cli/root.go:46-53 | one turn of `download`: an error, the factory's or the fetch's, is the whole download's result; a success is the records of the services up to and including this one |
| Cli.UnsupportedServiceAborts | cli/root.go:46-49 | an unsupported service name after successful services aborts the download with `unsupported service: ` + name |
| Cli.AllServicesTagged | cli/root.go:45-54 | every downloaded record carries the tag of one of the two exchanges |
| Cli.SortAll | cli/root.go:55 | the collected records are sorted in place: sorted by whole seconds and a permutation |
| Cli.Download | cli/root.go:39-55 | fails with `specify the destination file path` unless there is exactly one argument; otherwise fails exactly when some service or fetch fails, with the first error; on success the result is sorted by whole Unix seconds and is a permutation of all services' records concatenated in configuration order |

## Left out

- HTTP transport and JSON decoding (`http.NewRequest`, `client.Do`,
  `http.Get`, `ioutil.ReadAll`, `json.Unmarshal`) are not modelled. Replies
  are supplied already decoded.
- `GetCurrencyPairs` of both adapters is not modelled. It only projects the
  fetched JSON, so discovered pairs are an input (`Network.pairs`).
- HMAC-SHA256, HMAC-SHA512, hex encoding, `url.Values.Encode`, `%f`
  formatting and `time.Parse` are opaque function parameters. Their internals
  and calendar arithmetic are foreign code.
- `time.Now`, `time.Sleep` and `log.Println` are not modelled. The clock is a
  parameter, and the ten-second sleep and the log line have no effect on
  results.
- `Cli.Download` reads the clock once and passes it to every call. The code
  reads `time.Now()` afresh for each history window, each bitFlyer timestamp
  and each Zaif client.
- Floating point is modelled as `real`, so IEEE-754 rounding is not captured.
- Zaif's `return` map is a sequence in the order one run's map iteration
  visits it. Go does not fix that order.
- Zaif.Client.RequestTrades: each decoded reply is taken whole. Go decodes
  every attempt into the same `response` variable, so fields and `return`
  entries that a later reply omits keep their earlier values. This is not
  modelled.
- Zaif.Client.Request: the nonce is an unbounded integer. The code's `int64`
  wrap-around is not modelled.
- Zaif.Client.Request does not model the transport errors that the code
  ignores: `http.NewRequest`'s error and `ReadAll`'s error.
- The `Content-Type` header of the bitFlyer request is sent but not stated.
- The writer loop after the sort in `download` is not modelled: the running
  profit total, `w.Write` and `w.Close`. It is report output.
- cli/writer.go is not part of this model. It styles the spreadsheet and
  writes the file.
- cli/config.go is not part of this model. It reads the YAML configuration,
  which is an input here (`ServiceConfig`).
- BitFlyer.NormalizeExecDate and BitFlyer.PaddedExecDate count characters,
  while Go's `len` (services/bitflyer.go:96) counts bytes. The two agree only
  for dates written in ASCII.
- In cli/root.go, cobra wiring, `init`, `listCurrencies` and `Execute` are not
  modelled. They read configuration, print and panic.
