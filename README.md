# Seyren target checking and check listing, in Dafny

Seyren watches Graphite metrics. A *check* names a target expression, a warn
threshold, an error threshold, an enabled flag and its current alert state
(OK, WARN, ERROR or UNKNOWN). This project models two pieces of Seyren:

- **Target checking** (`GraphiteTargetChecker`, module `TargetChecker` in
  `target_checker.dfy`). Graphite answers a render request with one series per
  resolved target, each a list of `[value, timestamp]` datapoints in which
  `value` may be `null`. For each series the checker takes the newest non-null
  value, scanning from the end. It classifies that value by strict priority:
  ERROR if it is beyond the error threshold, otherwise WARN if it is beyond
  the warn threshold, otherwise OK. It then builds an alert from the check's
  current state to the new one. The whole check is all or nothing: a series
  with no real sample aborts the check, and the alerts already built are
  dropped.
- **The checks REST bean** (`ChecksBean`, module `ChecksApi` in
  `checks_bean.dfy`). It lists checks, optionally through the state query and
  then filtered in place by the enabled flag. It creates a check, giving it
  state OK when it has none, and answers with the location `checks/<id>`. It
  looks up and updates checks and answers "not found" for an unknown id. It
  deletes checks and answers 204 either way. The `states` parameter is cut with Java's `split(",")` and upper-cased.
  Module `JavaStrings` in `java_strings.dfy` models those two `String`
  operations.

`domain.dfy` holds the records (`Check`, `Alert`, `AlertType`). `wrappers.dfy`
holds `Option`, used for Java `null`, and `Result`, used for thrown
exceptions.

Modelling choices:

- A datapoint value is `Option<real>`. `None` is the `null` text that
  `GraphiteTargetChecker.java:89` tests for.
- The check's two threshold tests (`isBeyondErrorThreshold`,
  `isBeyondWarnThreshold`) are passed in as the predicates `beyondError` and
  `beyondWarn`. Nothing is assumed about them: not a direction, not a boundary
  rule, and not any relation between the two.
- `Check.state` is `Option<AlertType>`, because `createCheck` handles a `null`
  state. An alert's `fromType` copies it as it is.
- The store is the map `ChecksBean.store`, from id to check. Its two listing
  queries are given to `GetChecks` as parameters: the list `all` and the
  function `byState`. The order of their results, and how a check's state
  matches a name, belong to the store; the full listing must hold exactly the
  stored checks, and the state query only stored checks. The id the store
  assigns on creation is the parameter `assignedId`, which must be fresh.
- The source filters the listed list in place, so `FilterByEnabled` changes
  a list object. It throws a plain `Exception` for a series without a value,
  modelled as the one error `NoValidDatapoint`. It raises nothing for
  non-finite values. The direction of the thresholds belongs to `Check`,
  not to the checker.

## Model

| member | source | states |
|---|---|---|
| `TargetChecker.LatestIndex` | seyren-core/src/main/java/com/seyren/core/service/checker/GraphiteTargetChecker.java:87-91 | The index found is the highest one whose datapoint holds a value: that datapoint is non-null and every later one is null. There is no index exactly when every datapoint is null, the empty series included. |
| `TargetChecker.LatestValue` | seyren-core/src/main/java/com/seyren/core/service/checker/GraphiteTargetChecker.java:84-95 | On success the value sits at some index after which every datapoint is null, so no fresher sample is skipped. It fails exactly when every datapoint is null, the empty series included, and the failure names the series' target. |
| `TargetChecker.GetLatestValue` | seyren-core/src/main/java/com/seyren/core/service/checker/GraphiteTargetChecker.java:84-95 | The descending index loop with early return yields exactly `LatestValue`: the newest non-null value, or the no-valid-datapoint failure. |
| `TargetChecker.NewState` | seyren-core/src/main/java/com/seyren/core/service/checker/GraphiteTargetChecker.java:70-76 | The result is ERROR iff the value is beyond the error threshold, whatever the warn test says. It is WARN iff the value is not beyond error but is beyond warn. It is OK iff neither holds. It is never UNKNOWN. |
| `TargetChecker.NewStateIsMostSevere` | seyren-core/src/main/java/com/seyren/core/service/checker/GraphiteTargetChecker.java:70-76 | Strict priority gives the same result as a second definition: the most severe state among those the value qualifies for. OK always qualifies; WARN and ERROR qualify when their threshold is crossed. |
| `TargetChecker.ComposeAlert` | seyren-core/src/main/java/com/seyren/core/service/checker/GraphiteTargetChecker.java:97-106 | The five-argument overload: the alert carries the given value, target, from and to states and time, and the check's warn and error thresholds. |
| `TargetChecker.CreateAlert` | seyren-core/src/main/java/com/seyren/core/service/checker/GraphiteTargetChecker.java:68-79 | The alert's `fromType` is the check's state at entry and its `toType` is the classified state, never UNKNOWN. Value and target come from the arguments. Warn and error are copied unchanged from the check. The timestamp is the evaluation time (record built as at lines 97-106). |
| `TargetChecker.EvaluateFailureSticks` | seyren-core/src/main/java/com/seyren/core/service/checker/GraphiteTargetChecker.java:56-61 | Once some prefix of the response has failed, the outcome for the whole response is that same failure: no later series is looked at. |
| `TargetChecker.EvaluateSucceedsIff` | seyren-core/src/main/java/com/seyren/core/service/checker/GraphiteTargetChecker.java:56-61 | The check succeeds iff every series holds at least one non-null datapoint. Otherwise it returns no alerts at all, including those built for earlier series. |
| `TargetChecker.EvaluateAlerts` | seyren-core/src/main/java/com/seyren/core/service/checker/GraphiteTargetChecker.java:55-61 | On success there is exactly one alert per series, in response order. Alert i carries series i's target name and latest value and is the alert `CreateAlert` builds for them. |
| `TargetChecker.EvaluateSharedFromType` | seyren-core/src/main/java/com/seyren/core/service/checker/GraphiteTargetChecker.java:69 | On success every alert has the check's state as `fromType` and the check's warn and error, whichever state each alert computed; no alert is UNKNOWN. |
| `TargetChecker.EvaluateReportsFirstFailure` | seyren-core/src/main/java/com/seyren/core/service/checker/GraphiteTargetChecker.java:56-58 | On failure the error names the first series, in response order, that has no non-null datapoint. Every series before it has a value. |
| `TargetChecker.CheckTarget` | seyren-core/src/main/java/com/seyren/core/service/checker/GraphiteTargetChecker.java:49-66 | The for-each loop that appends to the alert list and throws on the first bad series returns exactly `Evaluate`, whose properties are the lemmas above. |
| `TargetChecker.ScenarioRisingToError` | seyren-core/src/main/java/com/seyren/core/service/checker/GraphiteTargetChecker.java:55-61 | The check has warn 70, error 90, "greater than" tests and state OK. A series ending `null, null, 95` gives the single alert {value 95, OK to ERROR}. |
| `TargetChecker.ScenarioStaysOk` | seyren-core/src/main/java/com/seyren/core/service/checker/GraphiteTargetChecker.java:55-61 | Same check: a series ending `40, null` gives the single alert {value 40, OK to OK}. |
| `JavaStrings.Upper` | seyren-api/src/main/java/com/seyren/api/bean/ChecksBean.java:105 | Upper-casing keeps the length and maps each character on its own: a to z become A to Z, and every other character is unchanged. |
| `JavaStrings.UpperIdempotent` | seyren-api/src/main/java/com/seyren/api/bean/ChecksBean.java:105 | Upper-casing an upper-cased string changes nothing. |
| `JavaStrings.Split` | seyren-api/src/main/java/com/seyren/api/bean/ChecksBean.java:104 | `split(",")`: no piece contains a comma; the pieces joined with commas are a prefix of the string and the rest of the string is only commas (the separators of the dropped empty pieces); the last piece is empty only for the empty string, which gives one piece; no pieces at all only when the string has a comma. |
| `JavaStrings.DropTrailingEmptyJoin` | seyren-api/src/main/java/com/seyren/api/bean/ChecksBean.java:104 | Dropping the trailing empty pieces drops only trailing commas from the joined string. |
| `JavaStrings.DropTrailingEmpty` | seyren-api/src/main/java/com/seyren/api/bean/ChecksBean.java:104 | The result is a prefix of the pieces that does not end in an empty string. Everything dropped is empty: this is how `split` removes trailing empty strings. |
| `JavaStrings.SplitAllJoin` | seyren-api/src/main/java/com/seyren/api/bean/ChecksBean.java:104 | Joining the comma-cut pieces back with commas gives the original string (round trip). |
| `JavaStrings.SplitAllCommaFree` | seyren-api/src/main/java/com/seyren/api/bean/ChecksBean.java:104 | No comma-cut piece contains a comma. |
| `JavaStrings.SplitAllWord` | seyren-api/src/main/java/com/seyren/api/bean/ChecksBean.java:104 | A comma-free prefix becomes part of the first piece of what follows it. |
| `JavaStrings.SplitUpper` | seyren-api/src/main/java/com/seyren/api/bean/ChecksBean.java:104-105 | Splitting the upper-cased string gives the upper-cased pieces of the original, in the same order. |
| `ChecksApi.StateNamesOfUpper` | seyren-api/src/main/java/com/seyren/api/bean/ChecksBean.java:102-107 | The state set is exactly the set of pieces of the upper-cased parameter. |
| `ChecksApi.StateNamesIgnoreCase` | seyren-api/src/main/java/com/seyren/api/bean/ChecksBean.java:105 | Two parameters that differ only in letter case give the same state set. |
| `ChecksApi.StateNamesShape` | seyren-api/src/main/java/com/seyren/api/bean/ChecksBean.java:104-105 | Every name in the state set is upper-case and holds no comma. |
| `ChecksApi.SplitOkWarn` | seyren-api/src/main/java/com/seyren/api/bean/ChecksBean.java:104 | `"ok,Warn,".split(",")` is `["ok", "Warn"]`: the trailing empty piece is dropped. |
| `ChecksApi.StateNamesTrailingComma` | seyren-api/src/main/java/com/seyren/api/bean/ChecksBean.java:102-107 | The parameter `ok,Warn,` asks for exactly {OK, WARN}. |
| `ChecksApi.StateNamesLeadingComma` | seyren-api/src/main/java/com/seyren/api/bean/ChecksBean.java:102-107 | `,error` asks for {"", ERROR}: the leading empty piece is kept. |
| `ChecksApi.StateNamesLoneCommaAndEmpty` | seyren-api/src/main/java/com/seyren/api/bean/ChecksBean.java:102-107 | `,` asks for no state at all. The empty parameter asks for {""}, because without a comma the whole string is the only piece. |
| `ChecksApi.KeepEnabledCounts` | seyren-api/src/main/java/com/seyren/api/bean/ChecksBean.java:93-99 | Filtering keeps each check whose enabled flag equals the request as many times as it occurs, and removes every other check. |
| `ChecksApi.KeepEnabledMatches` | seyren-api/src/main/java/com/seyren/api/bean/ChecksBean.java:93-99 | Every remaining check has `enabled` equal to the requested flag. |
| `ChecksApi.KeepEnabledAppend` | seyren-api/src/main/java/com/seyren/api/bean/ChecksBean.java:93-99 | Filtering a concatenation is the concatenation of the filtered parts, so the kept checks keep their original relative order. |
| `ChecksApi.KeepEnabledAllMatch` | seyren-api/src/main/java/com/seyren/api/bean/ChecksBean.java:93-99 | A list whose checks all match is left unchanged. |
| `ChecksApi.KeepEnabledIdempotent` | seyren-api/src/main/java/com/seyren/api/bean/ChecksBean.java:93-99 | Filtering twice equals filtering once. |
| `ChecksApi.WithDefaultState` | seyren-api/src/main/java/com/seyren/api/bean/ChecksBean.java:61-63 | A missing state becomes OK. A present state is left as it is. No other field of the check changes. |
| `ChecksApi.Uri` | seyren-api/src/main/java/com/seyren/api/bean/ChecksBean.java:110-116 | The location is `checks/` followed by the id, and nothing else. |
| `ChecksApi.UriInjective` | seyren-api/src/main/java/com/seyren/api/bean/ChecksBean.java:112 | Different ids get different locations. |
| `ChecksApi.ChecksBean.constructor` | seyren-api/src/main/java/com/seyren/api/bean/ChecksBean.java:41-43 | The bean starts over the given store. |
| `ChecksApi.ChecksBean.GetChecks` | seyren-api/src/main/java/com/seyren/api/bean/ChecksBean.java:46-57 | The answer is 200 with a list. The state query is used, with the state set of `states`, exactly when `states` is present; otherwise the full listing is used. The list is filtered by the enabled flag exactly when `enabled` is present; otherwise it is returned unchanged. Every listed check is a stored one, and with `enabled` present every listed check has that flag. The full listing must hold exactly the stored checks and the state query stored checks only. |
| `ChecksApi.ChecksBean.CreateCheck` | seyren-api/src/main/java/com/seyren/api/bean/ChecksBean.java:60-66 | The store assigns a fresh id. The store gains the check under that id, with its state defaulted to OK, and grows by exactly one: no stored check is replaced. The answer is 201 with location `checks/` plus that id. |
| `ChecksApi.ChecksBean.UpdateCheck` | seyren-api/src/main/java/com/seyren/api/bean/ChecksBean.java:69-76 | An unknown path id gives 404 and leaves the store unchanged. A known one saves the given check under the check's own id and answers 200 with it. |
| `ChecksApi.ChecksBean.GetCheck` | seyren-api/src/main/java/com/seyren/api/bean/ChecksBean.java:79-85 | The answer is 404 exactly when the id is not stored. Otherwise it is 200 with the stored check. |
| `ChecksApi.ChecksBean.DeleteCheck` | seyren-api/src/main/java/com/seyren/api/bean/ChecksBean.java:88-91 | The id is removed from the store, and the answer is 204 whether or not it was there. |
| `ChecksApi.ChecksBean.FilterByEnabled` | seyren-api/src/main/java/com/seyren/api/bean/ChecksBean.java:93-100 | The loop walks the list and removes each non-matching check where it stands. Afterwards the caller's list object holds exactly `KeepEnabled` of its old contents; the lemmas above give that function's properties. |
| `ChecksApi.ChecksBean.GetStates` | seyren-api/src/main/java/com/seyren/api/bean/ChecksBean.java:102-108 | The loop adding to a set returns exactly the upper-cased pieces of `split(",")`, i.e. `StateNames`. |

## Left out

- The HTTP client is not modelled: the pooled connection manager, `executeMethod` and `releaseConnection` are network I/O and connection-pool concurrency.
- The render URL is not modelled, including its millisecond `uniq` nonce. It is clock-dependent and is only a request string.
- Jackson parsing is not modelled; the parsed response is an input sequence of series. As a result, the model does not capture these cases:
  - a missing `target` field, which `asText()` reads as the empty string;
  - a response that is not an array;
  - a datapoint whose value is the string `"null"`, which the source also treats as missing.
- `Double.valueOf` and floating point are not modelled. Values are `real`s. NaN, infinities and a `NumberFormatException` on non-numeric text are not represented.
- CreateAlert: takes the evaluation time as the parameter `now`, shared by all alerts of one check. The source reads `new DateTime()` once per alert.
- The bodies of `Check.isBeyondErrorThreshold` and `Check.isBeyondWarnThreshold` are not modelled. The Java `Check` class is not part of this model, so both are parameters.
- The Java classes `Check`, `Alert`, `AlertType` and `ChecksStore` are not part of this model. Their fields and operations are taken from how the two modelled files use them.
- JAX-RS response building is not modelled; a response is the `Response` datatype. The `URISyntaxException` branch of `uri` is left out too.
- The real store persistence is not modelled; the store is a map. The fresh id the store assigns and the answers of its two listing queries are parameters. The model requires the full listing to hold exactly the stored checks and the state query to return stored checks only; their order, and how the state query matches a check's state to a name, are not modelled. `saveCheck` is taken to store the check under its own id, replacing a stored check with that id or adding it, and to return the check it saved.
- `CollectionUtils.filter` is not modelled as a library. It is modelled as order-preserving removal in place on a list object.
- Upper: models ASCII upper-casing only. Java's locale-dependent, full Unicode `toUpperCase` is not modelled.
- ChecksApi.ChecksBean.CreateCheck: the check is a value. `setState` on the caller's own `Check` object is modelled as a new value, so the caller never sees the changed state through aliasing.
- Null ids and null request bodies are not modelled.
