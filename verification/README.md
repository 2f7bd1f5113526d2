# Moolah core, modelled in Dafny

Moolah is a dividend-portfolio assistant. This project models five pieces of it and
proves properties of the model:

- **Recommendation orchestrator** (`amplify/functions/orchestrator/handler.ts`).
  - It validates a language-model explanation against the explanation schema.
  - It scans the serialized explanation for ticker-like words: whole words of two to five
    upper-case letters, matched by `\b[A-Z]{2,5}\b`. It warns about those that are neither
    known keywords nor tickers of the recommendation packet.
  - It falls back to a canned explanation when parsing or validation fails.
  - The handler embeds a sample response with only two bullets. The schema asks for three,
    so the handler as written always replies with the fallback.
- **Portfolio metrics** (`ui/src/hooks/usePortfolioMetrics.ts`). A single pass over the
  holdings totals three things: the cost, the market value at the latest close, and the
  dividend income. The return on investment and its sign are derived from the first two.
- **Safety gate** (`checkSafety` in `ui/src/lib/safety.test.ts`). A threshold classifier that
  flags high leverage and high dividend payout.
- **Diagnostic console** (`ui/src/pages/BackendTestPage.tsx`).
  - `addLog` puts an entry on top of the list.
  - `processLogs` merges backend audit-log items into the list. It keeps the last hour's
    items, sorts them by creation time, formats each as a message, drops messages already
    shown, and puts the rest on top, newest first.
- **Market-data health check** (`amplify/functions/alpha-vantage-health/handler.ts`). It
  classifies the provider's untrusted reply, in priority order, as ERROR, WARNING, SUCCESS,
  UNKNOWN or FAILED.

The modules are:

- `Wrappers`: `Option`.
- `Json`: parsed JSON values, JavaScript truthiness, `JSON.stringify`, and the
  template-literal rendering `String(v)`.
- `TickerScan`: the regular expression, as a reference predicate on spans.
- `Orchestrator`, `PortfolioMetrics`, `Safety` and `AuditLog` (the console).
- `StableSort`: the stable `Array.prototype.sort` the console uses.
- `AlphaVantageHealth`.

Whatever a component reads from its environment becomes an input:

- the clock (`asOf`, `now`, `latency`);
- the locale's time formatting (`timeLabel`);
- the environment variable (`apiKey`);
- the outcome of each database lookup and of the network request;
- the model's parsed response.

JSON numbers are kept as the text JavaScript prints for them. A number is falsy exactly when
that text is `0`.

## Model

| member | source | states |
|---|---|---|
| Orchestrator.ParseExplanation | amplify/functions/orchestrator/handler.ts:28-34 | validation succeeds exactly when `summary` is a string of at least 50 characters, `bullets` an array of at least 3 strings, and the other three members arrays of strings; the validated explanation carries exactly those values (other keys are dropped) |
| Orchestrator.ParseToJsonRoundTrip | amplify/functions/orchestrator/handler.ts:28-34 | an explanation serialized and validated again comes back unchanged when it meets the length bounds, and is refused otherwise |
| Orchestrator.ToJson | amplify/functions/orchestrator/handler.ts:90-94 | the validated explanation as serialized is an object whose five members hold the explanation's fields |
| TickerScan.Spans | amplify/functions/orchestrator/handler.ts:97 | the scanned spans are in increasing order, and a span is among them exactly when it is a whole word of 2 to 5 upper-case letters |
| TickerScan.TokensAreMatches | amplify/functions/orchestrator/handler.ts:97 | a text is among the scanned tokens exactly when it is the text of such a match |
| Orchestrator.PacketTickers | amplify/functions/orchestrator/handler.ts:93 | the ticker set holds every target-portfolio ticker and nothing else |
| Orchestrator.Unexplained | amplify/functions/orchestrator/handler.ts:98-108 | a token is kept exactly when it occurs in the scan, is not one of the 12 keywords, and is not a packet ticker |
| Orchestrator.FlaggedIff | amplify/functions/orchestrator/handler.ts:93-104 | a word is flagged exactly when it is a 2-to-5-letter upper-case whole word of the text, not a keyword and not a packet ticker; so packet tickers and keywords are never flagged |
| Orchestrator.GenerateSafeExplanation | amplify/functions/orchestrator/handler.ts:72-111 | it succeeds exactly when the response parsed and conforms to the schema; it then returns the validated explanation unchanged whatever the guard flags, and the warnings are exactly the unexplained tokens of the serialized explanation |
| Orchestrator.FallbackExplanation | amplify/functions/orchestrator/handler.ts:113-119 | the fallback has the fixed summary, exactly one bullet and the three standard disclaimers |
| Orchestrator.FallbackIsConstantAndNonConforming | amplify/functions/orchestrator/handler.ts:113-119 | the fallback is the same for every packet and would not itself pass the schema |
| Orchestrator.HandleWith | amplify/functions/orchestrator/handler.ts:54-69 | the reply is always 200 with the packet unchanged; it carries the validated explanation exactly when the response conforms, and the fallback otherwise |
| Orchestrator.SampleDoesNotConform | amplify/functions/orchestrator/handler.ts:77-90 | the embedded sample has two bullets where the schema asks for three, so it fails validation |
| Orchestrator.Handler | amplify/functions/orchestrator/handler.ts:36-70 | the handler as written, with the embedded sample, always replies 200 with the simulated packet and the fallback explanation |
| PortfolioMetrics.CurrentPrice | ui/src/hooks/usePortfolioMetrics.ts:34-37 | the price is the latest close when a record exists and its close is non-zero; otherwise it is the cost basis, or 0 |
| PortfolioMetrics.StepAdds | ui/src/hooks/usePortfolioMetrics.ts:22-53 | what one holding adds for each pair of lookup outcomes: always its cost; on a price-lookup throw, its cost to market value and nothing to income; on a fundamentals throw, priced value plus cost to market value; otherwise priced value, and income only when a fundamentals record exists |
| PortfolioMetrics.FoldConcat | ui/src/hooks/usePortfolioMetrics.ts:22-54 | the totals over two runs of holdings are the sum of each run's totals |
| PortfolioMetrics.FoldSwap | ui/src/hooks/usePortfolioMetrics.ts:22-54 | swapping two runs of holdings leaves the totals unchanged |
| PortfolioMetrics.FoldPermutation | ui/src/hooks/usePortfolioMetrics.ts:22-54 | the totals do not depend on the order of the holdings: any permutation of them gives the same totals |
| PortfolioMetrics.TotalInvestedIsSumOfCosts | ui/src/hooks/usePortfolioMetrics.ts:22-25 | total invested is the sum of shares times cost basis (or 0), whatever the lookups do |
| PortfolioMetrics.AsWrittenMarket | ui/src/hooks/usePortfolioMetrics.ts:27-53 | the pass as written gives a market value equal to the sum of the holdings' valuations (priced value, or cost when the price lookup threw) plus the cost of every holding whose fundamentals lookup threw after its price was added |
| PortfolioMetrics.CalculateMetrics | ui/src/hooks/usePortfolioMetrics.ts:16-61 | the loop computes the fold of the per-holding steps as written; total invested is the sum of costs; market value is the sum of the holdings' valuations plus the costs the catch block adds a second time; the ticker list holds every holding's ticker in input order |
| PortfolioMetrics.RoiPercentage | ui/src/hooks/usePortfolioMetrics.ts:74 | the return is 0 when nothing was invested; otherwise, multiplied by the amount invested, it equals 100 times the gain |
| PortfolioMetrics.IsPositive | ui/src/hooks/usePortfolioMetrics.ts:84 | the return is non-negative exactly when nothing was invested or market value is at least the amount invested |
| PortfolioMetrics.WorkedExample | ui/src/__tests__/usePortfolioMetrics.test.ts:23-63 | 10 shares at cost 300, close 350 and yield 0.02 give 3000 invested, 3500 market value, 70 income, a return of 50/3 percent, and a positive sign; the pass as written and the corrected pass agree on it |
| PortfolioMetrics.DoubleCountExample | ui/src/hooks/usePortfolioMetrics.ts:38-53 | with the fundamentals lookup throwing, the recorded holding reads 6500 of market value as written and 3500 as intended |
| PortfolioMetrics.AsWrittenOverstatesMarket | ui/src/hooks/usePortfolioMetrics.ts:38-53 | the pass as written overstates market value by exactly the costs of the holdings whose fundamentals lookup threw after their price was added |
| PortfolioMetrics.IntendedMarketIsSumOfValuations | ui/src/hooks/usePortfolioMetrics.ts:27-53 | the corrected pass counts each holding's value once (priced value, or cost when the price lookup threw); its cost and income totals equal those of the pass as written |
| Safety.CheckSafety | ui/src/lib/safety.test.ts:4-13 | a LEVERAGE issue exactly when debt-to-equity is above 2.0 and a YIELD_TRAP issue exactly when the payout is above 80; each kind at most once, LEVERAGE first, each issue with the input ticker and its kind's fixed message |
| Safety.CheckSafetyExamples | ui/src/lib/safety.test.ts:15-31 | the three recorded cases give the recorded issues, and the boundary values 2.0 and 80 give none |
| Safety.CheckSafetyMonotone | ui/src/lib/safety.test.ts:6-11 | raising either figure never removes an issue |
| AuditLog.AddLog | ui/src/pages/BackendTestPage.tsx:23-25 | the new entry is on top and the old entries follow, unchanged and in order |
| AuditLog.FormatMessageCases | ui/src/pages/BackendTestPage.tsx:150-170 | the message is `[id] [SERVICE] action: details` exactly when the metadata parses to an object with a truthy correlation id whose `String` conversion does not throw, and `[SERVICE] action: details` otherwise |
| AuditLog.UnconvertibleIdDropsPrefix | ui/src/pages/BackendTestPage.tsx:150-158 | a correlation id object with its own `toString` member makes the template literal throw; the empty catch swallows it and the message has no prefix |
| AuditLog.ProcessLogs | ui/src/pages/BackendTestPage.tsx:139-178 | the result is the added items' entries, newest first, followed by the old entries unchanged |
| AuditLog.NewItemsAreSortedWanted | ui/src/pages/BackendTestPage.tsx:141-159 | the items added are exactly the recent items whose message is not shown yet, sorted stably by creation time |
| AuditLog.AddedAreRecentAndUnseen | ui/src/pages/BackendTestPage.tsx:141-159 | every added item was created within the hour and its message was not shown before |
| AuditLog.AddedNewestFirst | ui/src/pages/BackendTestPage.tsx:143-175 | the added entries are newest first: each entry's item was created no earlier than the item of any entry below it |
| AuditLog.AddedEntries | ui/src/pages/BackendTestPage.tsx:160-175 | every added entry is a debug entry for its item, with a message the console did not show before |
| AuditLog.UnchangedIff | ui/src/pages/BackendTestPage.tsx:145-175 | the list is returned unchanged exactly when no item is both recent and new to it |
| AuditLog.NothingRecentLeavesLogs | ui/src/pages/BackendTestPage.tsx:142-145 | with no item from the last hour the list is returned unchanged |
| AuditLog.BatchDuplicatesKept | ui/src/pages/BackendTestPage.tsx:147-159 | items are deduplicated only against the old list, so a new item that arrives twice is added twice |
| StableSort.SortByKeyStable | ui/src/pages/BackendTestPage.tsx:143 | for every creation time, the sort keeps the items that have it in their input order |
| StableSort.SortedWithKeysUnique | ui/src/pages/BackendTestPage.tsx:143 | an ordered sequence that keeps every key's items in input order is unique, so it is the result of the sort |
| AlphaVantageHealth.Handler | amplify/functions/alpha-vantage-health/handler.ts:8-65 | an unset or empty key gives the key-missing ERROR; that is the only reply without a latency; a fetch or parse exception gives FAILED with its message; otherwise the reply is the classification of the parsed body |
| AlphaVantageHealth.Classify | amplify/functions/alpha-vantage-health/handler.ts:26-60 | the classification of a parsed body. A `null` body fails. ERROR carries the truthy error message. WARNING is given only without an error message and carries the note, or the information when the note is falsy. SUCCESS requires a truthy quote with a truthy price. UNKNOWN carries at most 200 characters from the start of the serialized body |
| AlphaVantageHealth.ErrorMessageTakesPriority | amplify/functions/alpha-vantage-health/handler.ts:29-32 | a truthy error message alone decides the reply: two bodies with the same one are classified alike, whatever else they hold |
| AlphaVantageHealth.NoticeTakesPriorityOverQuote | amplify/functions/alpha-vantage-health/handler.ts:33-36 | without an error message, a truthy note or information alone decides the reply (a WARNING), whatever the quote holds |
| AlphaVantageHealth.SuccessIff | amplify/functions/alpha-vantage-health/handler.ts:39-52 | SUCCESS exactly when no error, note or information is truthy and the quote and its price are truthy; symbol, price, day and change percent are copied unchanged |
| AlphaVantageHealth.RawIsBoundedPrefix | amplify/functions/alpha-vantage-health/handler.ts:54-60 | the raw excerpt has at most 200 characters and starts the serialized body; it is all of the body when the body is that short |
| AlphaVantageHealth.ReportJsonMembers | amplify/functions/alpha-vantage-health/handler.ts:14-64 | the serialized reply holds the status word, a latency exactly when the key was present, and the message, raw excerpt or quote data of its kind |
| AlphaVantageHealth.ReportJson | amplify/functions/alpha-vantage-health/handler.ts:14-64 | every reply object has at least two members, and the first is the status word |
| AlphaVantageHealth.Reply | amplify/functions/alpha-vantage-health/handler.ts:14-64 | the reply text opens with the status member; a missing key gives exactly `{"status":"ERROR","message":"API Key missing"}` |

## Left out

- PortfolioMetrics.CalculateMetrics: amounts are exact reals, not IEEE doubles. The rounding of the source's arithmetic is not modelled, so the worked example's 70 is exact here. The example's 16.666 is 50/3.
- AlphaVantageHealth.Classify: `substring(0, 200)` counts UTF-16 code units, and the model counts characters. The two differ only for characters outside the Basic Multilingual Plane.
- Orchestrator.ParseExplanation: `min(50)` counts UTF-16 code units, and the model counts characters.
- Number formatting is not modelled. JSON numbers carry their printed text, so `JSON.stringify` of a number and a number in a template literal print that text unchanged.
- Objects are modelled as member lists in source order.
  - JavaScript enumerates integer-like keys first; the model does not.
  - `JSON.parse` keeps the last of duplicate keys, and the model's lookup reads the first. Parsed objects are taken to have distinct keys.
- Parsing is not modelled. The model works on what `JSON.parse` produced: the orchestrator's sample text is given as its parsed value, and the console's metadata is absent, malformed, or a parsed value.
- React state, the `observeQuery` subscription, `isLoading`, `currentHoldings` and `refresh` are not modelled. Neither are overlapping `calculateMetrics` runs, which could race to set the state.
- A holding's `shares` is a number here. A missing `shares` would give NaN in the source.
- The database queries and their parameters (`limit: 1`, descending order) are abstracted: each lookup is an input outcome (it throws, or returns its latest record if there is one).
- Parsing a stored `createdAt` into milliseconds is an input: a time, or none when the date does not parse (then it is NaN, and never recent).
- `toLocaleTimeString` is the `timeLabel` parameter, and the page's other actions (sync, optimisation, holdings, correlation ids) are not modelled.
- The audit item's `action` and `details` are strings here. A null value would print as `null` in the message.
- Console output is not modelled: `console.log`, `console.warn`, `console.error` and the hallucination warnings' printing. The guard's warnings are returned as a list instead.
- In the health check, the URL, the masking of the key in the logged URL, and the request itself are inputs or left out.
- Both clock readings of the health check are one `latency` parameter: the one after parsing and the one in the exception handler.
- The message of a thrown value that is not an `Error` is taken to be a string.
- The orchestrator's reply body `JSON.stringify({ packet, explanation })` is kept as its parts, the packet and the explanation. Only the explanation's serialization is modelled. Also left out: the event logging, the unused `userSettings`, and the Bedrock call the source only mentions in a comment.
- The schema's error messages are not modelled: a failed validation is `None`.

## Findings

| source | as written | input that shows it | evidently intended | confidence | as-written member | corrected member |
|---|---|---|---|---|---|---|
| ui/src/hooks/usePortfolioMetrics.ts:38-53 | the catch block adds the holding's cost to market value even when its priced value was already added before the fundamentals lookup threw | 10 shares at cost 300, price lookup returns close 350, fundamentals lookup throws: market value 6500 | each holding valued once: 3500 here, the cost only when no price was added | medium, not executed | PortfolioMetrics.AsWrittenOverstatesMarket | PortfolioMetrics.IntendedMarketIsSumOfValuations |

`PortfolioMetrics.Fold` and `CalculateMetrics` model the pass as written. `PortfolioMetrics.FoldIntended` is the corrected pass. `RoiPercentage` and `IsPositive` apply to the totals of either pass.
