# epcp-simulator core, modelled in Dafny

The program fetches intraday electricity prices for a recent window of hours
from the market operator's SOAP service, decides whether prices are rising,
and caps the maximum frequency of every CPU core but the last: the lowest
available frequency when prices rise, the highest otherwise.

This project models the decision logic of `main.go` with no I/O:

- `Decimal` — `strconv.Itoa`, `fmt.Sprintf("%d")`, `fmt.Sprintf("%0Nd")` and
  `strconv.Atoi` (optional sign, one or more digits, 64-bit range).
- `TimeRange` — the rendering part of `getTimeRange`: dates as
  `%04d-%02d-%02d` (the extended calendar-date form of ISO 8601), hours as
  `Itoa`. The two instants are inputs.
- `Soap` — the `GetImPriceE` request body (a SOAP 1.1 envelope, section 4 of
  SOAP 1.1, with the arguments spliced in verbatim and trimmed by
  `strings.TrimSpace`) and its `SOAPAction` header `urn:GetImPriceE`
  (section 6.1.1 of SOAP 1.1), together as the `Post` a call sends.
- `Market` — `GetImPriceE` as a class that logs every `Post` it sends and
  whose answers come from a fixed oracle on those posts (`HttpFail`,
  `DecodeFail` or the decoded items);
  the price-extraction loop of `extractPricesFromGetImPriceE`; and
  `getElectrictyPrices`, with its midnight split and its asymmetric failure
  policy.
- `Frequencies` — `getAvailableCPUFrequencies` (split on single spaces, the
  empty file giving no entries) and the running minimum and maximum over the
  entries that parse, starting from the sentinels 10000000 and 0.
- `Scaler` — the trend count (`dec` when the later price is at most the
  earlier one, `inc` otherwise), the choice of target, and the write loop
  over `cpu0` to `cpu(NumCPU-2)`. The control files are a class `SysFs`
  holding the files' contents, the set of paths whose accesses fail, and the
  log of attempted writes. `runtime.NumCPU()` is the parameter `numCPU`.
- `Pipeline` — `main`: window, fetch, scale.

Prices are `real`: the code only compares them with `<=`.

Three behaviours of the code worth knowing:

- The capability list is split on single spaces only, not on newlines. An
  entry that keeps a trailing newline does not parse, so it is ignored
  (`Decimal.AtoiRejectsTrailingNewline`).
- The frequency range is not always drawn from the reported set. The running
  minimum starts at 10000000 and the running maximum at 0. If every parsed
  value lies above 10000000, the minimum stays at 10000000; if every parsed
  value lies below 0, the maximum stays at 0. When nothing parses, one of
  the sentinels is written to the cores: 10000000 when prices rise, 0
  otherwise (`Scaler.SentinelTargetWhenNothingParses`). When at least one entry parses
  and every parsed value lies in [0, 10000000], both ends are reported values
  (`Frequencies.RangeDrawnFromEntries`).
- Only a decoding failure of the earlier day's fetch is tolerated. A transport
  failure of that fetch ends `getElectrictyPrices` with no prices and without
  the second call.

## Model

| member | source | states |
|---|---|---|
| `Decimal.Itoa` | main.go:265-266 | a minus sign exactly for negative numbers, then digits that denote the magnitude with no leading zero (0 is rendered as the single digit `0`) |
| `Decimal.Atoi` | main.go:330 | accepts exactly an optional sign followed by one or more digits whose value fits in 64 bits, and returns that value |
| `Decimal.AtoiItoa` | main.go:342 | parsing the decimal text of any 64-bit value gives back that value |
| `Decimal.ItoaInjective` | main.go:342 | distinct integers have distinct decimal texts |
| `Decimal.AtoiRejectsTrailingNewline` | main.go:330 | a string that ends in a newline never parses |
| `Decimal.ZeroPad` | main.go:269-270 | `%0Nd`: at least N characters and never fewer than the plain decimal text, a minus sign exactly for negative numbers, digits denoting the magnitude |
| `Decimal.ZeroPadValue` | main.go:269-270 | zero-padding a number below 10^width gives exactly width digits that denote the number |
| `TimeRange.FormatDate` | main.go:269-270 | only digits and dashes; a valid date renders as 10 characters `YYYY-MM-DD` whose digit groups denote year, month and day |
| `TimeRange.FormatDateInjective` | main.go:269-270 | on valid dates, two renderings are equal iff the (year, month, day) triples are equal |
| `TimeRange.GetTimeRange` | main.go:257-272 | the start date and hour are rendered from `before` and the end date and hour from `now`, dates as `%04d-%02d-%02d` and hours as unpadded decimals; on valid instants the two dates are equal iff both instants fall on the same calendar day, and the hours denote the two hours; no field contains anything but digits and dashes |
| `TimeRange.FormatDateExample` | main.go:269 | 7 March 2024 renders as `2024-03-07` |
| `Soap.ImPriceFrameWellFramed` | main.go:232-247 | every literal piece of the template begins with a tag, and the envelope ends with `>` |
| `Soap.Payload` | main.go:232-247 | trimming removes only the leading newline and tab, for any arguments: the body is the filled template |
| `Soap.ImPricePost` | main.go:248-249 | the header sent with the body is `urn:GetImPriceE` |
| `Soap.PostCarriesPayload` | main.go:232-249 | what is posted is the trimmed payload under the header that names the operation |
| `Soap.PayloadInjective` | main.go:232-247 | for arguments without `<`, two bodies are equal iff the four arguments are equal |
| `Soap.ArgumentsAreNotEscaped` | main.go:240-243 | arguments are spliced verbatim: markup in the start date yields the same body as a different pair of dates |
| `Market.MarketClient.GetImPriceE` | main.go:231-254 | each call appends the post for its four arguments, whose header is `urn:GetImPriceE`, to the log, and returns the service's answer to that post |
| `Market.ExtractPrices` | main.go:153-167 | a decoding error gives no prices and a failure flag; otherwise the prices of all items, in item order |
| `Market.GetElectricityPrices` | main.go:274-314 | the posts sent and the series returned are exactly those of the window's case and the answers received |
| `Market.SameDayFetch` | main.go:300-312 | a one-day window makes one fetch with the window as given; the result is its prices in order, empty on any failure |
| `Market.TwoDayFetch` | main.go:279-299 | a window across midnight fetches (start date, start hour to 24), then (end date, 0 to end hour); the series is the earlier day's prices followed by the later day's |
| `Market.FirstTransportFailureStops` | main.go:280-284 | a transport failure of the first fetch returns no prices and makes no second call |
| `Market.FirstDecodeFailureTolerated` | main.go:285-288 | a decoding failure of the first fetch still makes the second call; the series is the later day's prices alone |
| `Market.SecondFailureEmpties` | main.go:289-298 | any failure of the later day's fetch returns no prices |
| `Market.SplitIffDifferentDays` | main.go:279 | on valid instants, one fetch is made iff both fall on the same day or the first fetch fails in transport |
| `Market.SentInjective` | main.go:231-249 | two requests without `<` in their arguments send the same post iff they are the same request |
| `Market.WindowRequestsUnmarked` | main.go:257-312 | every request made for a window rendered by `getTimeRange` is free of `<`, so its post identifies it |
| `Frequencies.Split` | main.go:389 | at least one piece, and no piece contains a space |
| `Frequencies.AvailableFrequencies` | main.go:384-390 | empty content gives no entries; otherwise space-free entries that join with single spaces back to the content |
| `Frequencies.JoinSplit` | main.go:389 | joining the pieces of a split with single spaces gives back the string |
| `Frequencies.SplitJoin` | main.go:389 | splitting the join of space-free pieces gives back the pieces |
| `Frequencies.SplitCount` | main.go:389 | a string with n spaces splits into n + 1 pieces |
| `Frequencies.DiscoverRange` | main.go:328-338 | the discovery loop ends with the range computed entry by entry from the sentinels |
| `Frequencies.RangeBounds` | main.go:328-338 | every entry that parses lies within [min, max]; min never exceeds 10000000 and max is never below 0 |
| `Frequencies.RangeAttained` | main.go:328-338 | each end of the range is its sentinel or the value of an entry that parses |
| `Frequencies.RangeOfNothing` | main.go:328-338 | when no entry parses, the range is (10000000, 0) |
| `Frequencies.RangeDrawnFromEntries` | main.go:328-338 | when an entry parses and every parsed value lies in [0, 10000000], min and max are parsed entries and min <= max |
| `Frequencies.RangeIgnoresUnparsable` | main.go:330 | an entry that does not parse, wherever it stands, does not change the range |
| `Scaler.CountTrend` | main.go:318-325 | the counters equal the numbers of falling-or-flat and rising adjacent pairs, and together count every pair |
| `Scaler.TrendCountsPairs` | main.go:318-325 | dec + inc = max(n - 1, 0) for a series of length n |
| `Scaler.NonIncreasingSeries` | main.go:319-325 | a series that never goes up, flat ones included, counts only decreases |
| `Scaler.StrictlyIncreasingSeries` | main.go:319-325 | a strictly increasing series counts only increases |
| `Scaler.TargetFrequency` | main.go:339-359 | the target is one end of the range: the minimum iff increases strictly outnumber decreases, so the maximum for fewer than two prices |
| `Scaler.TargetChoice` | main.go:339-359 | tied and never-rising series choose the maximum; a strictly rising series of two or more prices chooses the minimum |
| `Scaler.TrendExamples` | main.go:318-359 | falling, rising, flat and tied example series give the expected counts and target |
| `Scaler.TargetIsReported` | main.go:328-352 | when an entry parses and all parsed values lie within the sentinels, the target is a reported frequency |
| `Scaler.SentinelTargetWhenNothingParses` | main.go:328-358 | when nothing parses, 10000000 is written if prices rise and 0 otherwise |
| `Scaler.MaxFreqPathNamesCore` | main.go:342 | the path of a core starts with the cpu directory, ends with `/cpufreq/scaling_max_freq`, and the text between parses back as the core's number |
| `Scaler.MaxFreqPathInjective` | main.go:342 | distinct cores have distinct `scaling_max_freq` paths |
| `Scaler.PlannedWritesSkipLastCore` | main.go:341-358 | the write phase makes max(numCPU - 1, 0) attempts, to cpu0 up to cpu(numCPU-2) in order, all with the same value, never to the last core |
| `Scaler.ApplyWritesEffect` | main.go:375-382 | after writes of one value, every written path that accepts writes holds it, and failing or unwritten paths are unchanged |
| `Scaler.WritePhaseOutcome` | main.go:341-358 | every core below numCPU-1 whose file accepts writes holds the target; a failed write does not stop later ones; the last core's file is unchanged |
| `Scaler.SysFs.ReadFile` | main.go:362-373 | the content of an existing, readable file, otherwise the empty string |
| `Scaler.SysFs.WriteFile` | main.go:375-382 | the attempt is logged; it succeeds iff the path accepts writes, and only then replaces the file's content |
| `Scaler.ChooseTarget` | main.go:318-339 | the trend count and the range scan of the capability file as it stands give the target of the chosen branch |
| `Scaler.WriteToCores` | main.go:341-358 | the write log grows by exactly the planned writes, and the files become the result of those writes |
| `Scaler.ScaleCPUFrequency` | main.go:316-360 | the write log grows by exactly the planned writes of the decimal target, and the files become the result of those writes |
| `Pipeline.RunOnce` | main.go:412-417 | one run sends the window's posts and writes the target chosen from the fetched series to every core but the last |

## Left out

- `sendRequest` (HTTP client, headers, the `200 OK` check): network I/O. Only its outcome is modelled, as `HttpFail` from the `respond` oracle.
- XML decoding of the response envelopes (the struct tags and `encoding/xml`): a library call. Its outcome is `DecodeFail` or the decoded items from the oracle.
- `getDamPriceE`, `GetDamIndexE`, `parseGetDamPriceE`, `parseGetDamIndexE`: never called from `main`, and they only log. The accumulator in `parseGetDamPriceE` is never read.
- The clock, `time.LoadLocation("Europe/Budapest")` and its fatal error, and the hour arithmetic for the look-back: system state and time-zone rules. The two instants are inputs, already broken down into year, month, day and hour.
- `getEnvironmentVariables`: reads the environment and stores the `time.ParseDuration` result, or -3 nanoseconds when `HOURS` is unset or malformed; environment input.
- The look-back offset: `getTimeRange` (main.go:264) multiplies the stored Duration by `time.Hour` once more, so only the default of -3 nanoseconds gives a three-hour look-back; a parsed value such as `-3h` is scaled by a further 3.6e12 and overflows the 64-bit product. The instant `before` is an input of `TimeRange.GetTimeRange`, so this scaling is not reproduced.
- Logging (`init` and every `Printf`): output only, no effect on the decision.
- float32 semantics (NaN ordering, rounding): prices are `real`.
- `TimeRange.FormatDate` (its layout clause) and `TimeRange.FormatDateInjective`: proved for years 0 to 9999. `Decimal.ZeroPad` also renders other years, as `%04d` does.
- Strings are sequences of characters rather than bytes. The control files and the date strings are ASCII, so splitting, parsing and trimming agree.
- A path in `SysFs.failing` fails both reads and writes. The source treats a missing file and an unreadable file alike, as empty content.
- The two identical write loops of `scaleCPUFrequency` (one per branch) are modelled as one loop writing the chosen target.
