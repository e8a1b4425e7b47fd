# Trading journal — a Dafny model

This project models the logic of a trading journal: an Express/Mongoose
back end that stores trades, accounts, strategies, tags and dashboard chart
configurations, and a React front end that computes dashboard figures from
the trade list. Every Mongo collection is replaced by an in-memory sequence
held in a class (`TagHelpers.TagStore`, `TradesRoute.TradeStore`,
`Accounts.AccountStore`, `Strategies.StrategyStore`,
`DashboardCharts.ChartStore`). Each route handler becomes a method that
returns a `Response` (Ok, BadRequest, NotFound, Conflict or InternalError)
and changes only its store. Pure helpers become functions, and loops become
methods with invariants, each proved against a specification function.

Modules, one per source file, plus shared ones:

- `Common`: `Option`, `Response`, filters, sums, counts, de-duplication.
- `Strings`: `trim`, ASCII `toLowerCase`, decimal numerals, `split`, string order.
- `JsValues`: JSON/request values, `Number(...)`, `String(...)`, `??`,
  `||`, ObjectId casting, `new Date(...)`.
- `Sorting`: a stable insertion sort over any total preorder.
- `TradeIds`: the `trd-(\d+)` id allocator shared by the back end, the
  front end and the seeding script.
- `TagHelpers` and `TagsRoute`: the tag reverse index and its route.
- `TradeHelpers` and `TradesRoute`: request coercion and the trade store.
- `ImportExport`: tag parsing, row normalisation, row validation, the
  import loop, export and the exported analytics.
- `Analytics`: the equity series, overview, per-session group-by and the
  filter-picker merge.
- `NamedDocs`, `Accounts` and `Strategies`: guarded stores with a
  case-insensitive unique name.
- `DashboardCharts`: chart-config validation and its store.
- `TradesApi`: the front end's `normalizeTrade`, `formatDate` and
  `getTrades` query string.
- `TradeForm`: the trade form's risk/reward, auto-filled pnl and tag field.
- `DashboardStats` and `DashboardSeries`: the dashboard's filters, stats
  card, outcome metrics, win/loss split, equity curve and calendar.
- `SeedDummyTrades`: ordered-field building, `computeRR` and the id
  assignment of the seeding script.

Money and ratios are `real` and time is `int` milliseconds. The current
time, date-string parsing and the local calendar are parameters.

## Model

| member | source | states |
|---|---|---|
| `Strings.TrimStart` | backend/src/utils/tagHelpers.js:8 | drops exactly the leading white space, and the result does not start with white space |
| `Strings.TrimEnd` | backend/src/utils/tagHelpers.js:8 | drops exactly the trailing white space, and the result does not end with white space |
| `Strings.TrimProperties` | backend/src/routes/tags.js:27 | `trim()` gives a trimmed slice of the input with only white space cut on either side; it is empty exactly when the input is all white space |
| `Strings.TrimIdempotent` | backend/src/routes/tags.js:27 | trimming twice is trimming once |
| `Strings.Lower` | backend/src/routes/dashboardCharts.js:37 | `toLowerCase()` maps each character, keeping the length |
| `Strings.LowerIdempotent` | backend/src/routes/dashboardCharts.js:62 | lower-casing twice is lower-casing once |
| `Strings.NatToString` | backend/src/routes/trades.js:78-81 | `String(n)` of a non-negative integer is a non-empty digit string |
| `Strings.NatToStringValue` | backend/src/routes/trades.js:14-17 | the numeral reads back as its number |
| `Strings.NatToStringInjective` | backend/src/routes/trades.js:78-81 | different numbers give different numerals |
| `Strings.Split` | backend/src/routes/importExport.js:21-22 | `split(",")` gives at least one part, none holding the separator |
| `Strings.SplitPrefix` | backend/src/routes/importExport.js:21-22 | text before the first separator is the first part |
| `Strings.SplitNoSep` | backend/src/routes/importExport.js:21-22 | text without the separator is a single part |
| `Strings.StrLeTotal` | backend/src/routes/tags.js:10 | the string order used for sorting by name is total |
| `Strings.StrLeTransitive` | backend/src/routes/tags.js:10 | the string order used for sorting by name is transitive |
| `JsValues.Coalesce` | backend/src/routes/importExport.js:28 | `a ?? b` is one of its operands; it is null or undefined only when both are, and a present `a` always wins |
| `JsValues.Or` | backend/src/routes/accounts.js:29 | `a \|\| b` is one of its operands; it is truthy exactly when either operand is, and a truthy `a` always wins |
| `JsValues.IndexOf` | backend/src/routes/importExport.js:21-22 | the first position of the character, or the length when it is absent |
| `JsValues.ParseUnsignedDigits` | backend/src/utils/tradeHelpers.js:5 | `Number` of a digit string is its decimal value |
| `JsValues.NatNumeralRoundTrip` | backend/src/utils/tradeHelpers.js:5 | `Number(String(n))` is `n` for a non-negative integer |
| `JsValues.NegNumeralRoundTrip` | backend/src/utils/tradeHelpers.js:5 | `Number("-" + String(n))` is `-n` |
| `JsValues.IntNumeralRoundTrip` | backend/src/utils/tradeHelpers.js:5 | `Number` of an integer's numeral is that integer |
| `JsValues.IntegerToString` | backend/src/routes/trades.js:78-81 | `String` of an integral number is its integer numeral |
| `JsValues.IntegerRoundTrip` | backend/src/utils/tradeHelpers.js:1-7 | `Number(String(k))` is `k` for every integer |
| `JsValues.CastObjectId` | backend/src/routes/trades.js:109-114 | the cast succeeds exactly for a non-empty digit string |
| `JsValues.CastObjectIdRoundTrip` | backend/src/routes/trades.js:109-114 | casting the written form of an id gives the id back |
| `JsValues.DateValue` | backend/src/utils/tradeHelpers.js:22-28 | `new Date(v).getTime()`: invalid for undefined, the epoch for null, the parsed value for a string |
| `Sorting.Insert` | backend/src/routes/tags.js:10 | inserting into a sorted list keeps it sorted and adds exactly the element |
| `Sorting.Sort` | backend/src/routes/tags.js:10 | the sorted list is sorted and a permutation of the input |
| `Sorting.KeyLeTotalPreorder` | backend/src/routes/accounts.js:9 | ordering by a numeric key is a total preorder |
| `Sorting.StrKeyLeTotalPreorder` | backend/src/routes/tags.js:10 | ordering by a string key is a total preorder |
| `Sorting.Key2LeTotalPreorder` | backend/src/routes/dashboardCharts.js:28 | ordering by two numeric keys, the second breaking ties, is a total preorder |
| `Sorting.SortedSubsequence` | backend/src/routes/dashboardCharts.js:28 | removing one document leaves a sorted listing sorted |
| `Common.FindFirst` | backend/src/routes/accounts.js:20 | `findById`'s lookup over any collection: the first document carrying the id, or the end when none does |
| `Common.Filter` | backend/src/routes/importExport.js:24 | the kept elements are exactly those satisfying the predicate |
| `Common.FilterFilter` | frontend/src/App.tsx:1408-1426 | filtering twice is filtering by the conjunction |
| `Common.Dedup` | backend/src/utils/tagHelpers.js:17-35 | the result has no duplicates and the same elements |
| `TradeIds.FindTrd` | backend/src/routes/trades.js:14 | the leftmost position at or after `i` where `trd-` (any case) followed by a digit starts, or the end |
| `TradeIds.DigitRunEnd` | backend/src/routes/trades.js:14 | the end of the maximal digit run `\d+` starting at `j` |
| `TradeIds.TrdDigits` | backend/src/routes/trades.js:14-15 | the captured group of `/trd-(\d+)/i`, when there is a match, is a non-empty run of digits |
| `TradeIds.ParseTradeIdNumber` | backend/src/routes/trades.js:12-16 | 0 for a value that is not a string; otherwise the number after the first `trd-`, 0 when there is none |
| `TradeIds.MaxTradeNumberIsMax` | backend/src/routes/trades.js:21 | the `reduce` with `Math.max` from 0 is at least every id's number and is 0 or one of them |
| `TradeIds.NextTradeNumberAbove` | backend/src/routes/trades.js:19-23 | the next number is at least 1, above every stored id's number, and 1 or one more than some stored number |
| `TradeIds.NextTradeNumberWithoutMatches` | frontend/src/App.tsx:739-746 | when no id matches `trd-(\d+)`, the next number is 1 |
| `TradeIds.NumberOfTrailingDigits` | backend/src/routes/trades.js:14-15 | when the first match is followed only by digits, the number is the value of those digits |
| `TradeIds.PrefixedNumeral` | backend/src/routes/trades.js:14-15 | `trd-` in any case followed by a decimal numeral reads back as that number |
| `TradeIds.FormatTradeIdRoundTrip` | backend/src/routes/trades.js:78-81 | parsing `trd-${n}` gives back `n` |
| `TradeIds.NoStraddle` | backend/src/routes/trades.js:14 | a match cannot start in a prefix that holds none when a `trd-` id follows it |
| `TradeIds.PrefixedTradeId` | backend/src/routes/trades.js:14-15 | `trd-${n}` after text without a match still reads as `n` |
| `TradeIds.FormatTradeIdShape` | backend/src/routes/trades.js:129 | `trd-${n}` is `trd-` followed by the decimal numeral of `n` |
| `TradeIds.NextTradeIdIsFresh` | frontend/src/App.tsx:739-746 | the suggested id is not among the listed ids and carries the next number |
| `TradeIds.SeedTradeIds` | backend/scripts/seedDummyTrades.js:168 | `count` ids `trd-${start + index}`, in order |
| `TradeIds.SeedTradeIdsFresh` | backend/scripts/seedDummyTrades.js:213-218 | the seeded ids carry consecutive numbers from the next number, are pairwise distinct, and are above every stored id's number |
| `SeedDummyTrades.KeysOf` | backend/scripts/seedDummyTrades.js:31-38 | the keys of the built object, in insertion order |
| `SeedDummyTrades.OrderedFields` | backend/scripts/seedDummyTrades.js:31-38 | a key is set exactly when it is listed and its value is neither undefined nor null; each value is the given one; no key twice |
| `SeedDummyTrades.IndexOf` | backend/scripts/seedDummyTrades.js:35 | the position of an existing property, or the end exactly when the key is new |
| `SeedDummyTrades.SetProperty` | backend/scripts/seedDummyTrades.js:35 | assigning `o[k]` keeps the key order and appends a key that was not there |
| `SeedDummyTrades.BuildOrderedFields` | backend/scripts/seedDummyTrades.js:31-38 | the `forEach` loop builds exactly the ordered-fields object |
| `SeedDummyTrades.OrderedFieldsOrder` | backend/scripts/seedDummyTrades.js:31-38 | the key order is the listed order of the present keys, first occurrence kept |
| `SeedDummyTrades.OrderedFieldsOfDistinctKeys` | backend/scripts/seedDummyTrades.js:19-38 | with distinct keys, as in the feature-order lists, the object's keys are the present keys in the listed order |
| `SeedDummyTrades.Pow10` | backend/scripts/seedDummyTrades.js:59 | the scale factor of `toFixed(d)` is at least 1 |
| `SeedDummyTrades.ToFixedClose` | backend/scripts/seedDummyTrades.js:59 | `toFixed(d)` moves a value by at most half a unit in the last kept digit |
| `SeedDummyTrades.ToFixedExact` | backend/scripts/seedDummyTrades.js:59 | a value with at most `d` decimals is unchanged by `toFixed(d)` |
| `SeedDummyTrades.ToFixedSign` | backend/scripts/seedDummyTrades.js:59 | rounding never changes the sign of a value |
| `SeedDummyTrades.ComputeRR` | backend/scripts/seedDummyTrades.js:55-60 | null exactly when the risk (entry − stop for Long, stop − entry otherwise) is not positive |
| `SeedDummyTrades.ComputeRRMatchesForm` | backend/scripts/seedDummyTrades.js:55-60 | the seed's risk:reward is null exactly when the form's is, and otherwise is the form's ratio rounded to 3 decimals, within 0.0005 of it |
| `SeedDummyTrades.Direction` | backend/scripts/seedDummyTrades.js:128 | even indices are Long, odd ones Short |
| `SeedDummyTrades.StopDistPositive` | backend/scripts/seedDummyTrades.js:138 | for an entry of at least 1 (every price range) the rounded stop distance is at least 0.01 |
| `SeedDummyTrades.ActualRROfPrices` | backend/scripts/seedDummyTrades.js:137-150 | with a positive stop distance, the actual risk:reward is −0.5 for every third trade and 1.2 otherwise |
| `SeedDummyTrades.SeededActualRR` | backend/scripts/seedDummyTrades.js:137-150 | the same for the seeded prices of any entry of at least 1 |
| `SeedDummyTrades.RawPnlOfPrices` | backend/scripts/seedDummyTrades.js:142-146 | the raw pnl is the exit move times the lot size, in both directions |
| `SeedDummyTrades.EveryThirdTradeLoses` | backend/scripts/seedDummyTrades.js:142-148 | with a positive lot size and non-negative fees, every third seeded trade has a pnl of at most 0 |
| `SeedDummyTrades.SeedTags` | backend/scripts/seedDummyTrades.js:163-165 | the tags hold the first pick, plus the second pick on even indices, with no repeat |
| `SeedDummyTrades.SeedTagsShape` | backend/scripts/seedDummyTrades.js:163-165 | two tags exactly when the index is even and the picks differ, else one |
| `SeedDummyTrades.IdTexts` | backend/scripts/seedDummyTrades.js:111 | each stored id as text, `(id \|\| "")` for a missing one |
| `SeedDummyTrades.SeedNextTradeNumber` | backend/scripts/seedDummyTrades.js:108-116 | the first seeded number is at least 1 and above every stored id's number |
| `SeedDummyTrades.SeedCount` | backend/scripts/seedDummyTrades.js:214 | `Number(SEED_COUNT) \|\| 100`: 100 when unset, zero or NaN, the parsed number otherwise |
| `SeedDummyTrades.LoopCount` | backend/scripts/seedDummyTrades.js:216 | the loop `i < count` runs the least number of times not below `count` (none for a negative count) |
| `SeedDummyTrades.SeedIds` | backend/scripts/seedDummyTrades.js:215-218 | the loop produces the ids `trd-${startNum + i}` for every iteration |
| `SeedDummyTrades.SeededIdsFresh` | backend/scripts/seedDummyTrades.js:205-221 | a seeding run inserts consecutive, distinct ids, all above every stored id's number |
| `TagHelpers.NormalizeTagName` | backend/src/utils/tagHelpers.js:6-9 | a non-string gives ""; the result is trimmed with every white-space run collapsed to one space; it is empty exactly when the input string is all white space |
| `TagHelpers.CollapseWsShape` | backend/src/utils/tagHelpers.js:8 | `replace(/\s+/g, " ")` leaves no white-space run, empties only the empty string, and keeps white space at the ends where it was |
| `TagHelpers.NormalNameFixed` | backend/src/utils/tagHelpers.js:6-9 | an already normalised name is a fixed point of the normalisation |
| `TagHelpers.NormalizeIdempotent` | backend/src/utils/tagHelpers.js:6-9 | normalising twice gives the same name as normalising once |
| `TagHelpers.CaseIsSignificant` | backend/src/utils/tagHelpers.js:18-21 | normalisation does not fold case, so "Confident" and "confident " stay two distinct tag names |
| `TagHelpers.AppendTagValid` | backend/src/models/Tag.js:3-12 | adding a tag with a fresh id and a new, non-empty normal name keeps the collection invariant (unique names, distinct ids, no repeated trade id) |
| `TagHelpers.RemoveTagValid` | backend/src/models/Tag.js:3-12 | removing any one tag keeps the collection invariant, and no remaining tag carries the removed tag's id |
| `TagHelpers.FindByName` | backend/src/utils/tagHelpers.js:29-33 | the lookup of `findOneAndUpdate({ tag_name })` returns the first tag with that name, or the end when none has it |
| `TagHelpers.NormalisedEntries` | backend/src/utils/tagHelpers.js:18-19 | a name appears exactly when some array entry normalises to it; a non-array gives nothing; every entry is normal |
| `TagHelpers.UniqueNames` | backend/src/utils/tagHelpers.js:18-21 | the names a sync acts on are distinct, non-empty and normalised |
| `TagHelpers.UniqueNamesMembers` | backend/src/utils/tagHelpers.js:18-21 | a name is acted on exactly when it is non-empty and some entry of the array normalises to it |
| `TagHelpers.AllTagNames` | backend/src/utils/tagHelpers.js:86-89 | lists exactly the names of the stored tags, without repeats in a valid collection |
| `TagHelpers.UpsertAllClosed` | backend/src/utils/tagHelpers.js:28-34 | after the pull, the upsert loop equals a closed form: listed tags gain the trade id, missing names become new tags in list order |
| `TagHelpers.ClosedShape` | backend/src/utils/tagHelpers.js:28-34 | in that closed form each old tag keeps its id and name and gains the id exactly when listed; each new tag has a fresh id, a listed name no old tag has, and only that trade id |
| `TagHelpers.ClosedNewTags` | backend/src/utils/tagHelpers.js:28-34 | the new tags are exactly the absent listed names, in list order, with consecutive ids |
| `TagHelpers.ClosedCovers` | backend/src/utils/tagHelpers.js:28-34 | every listed name is carried by some tag afterwards |
| `TagHelpers.SyncClosed` | backend/src/utils/tagHelpers.js:17-35 | `syncTagsForTrade` on a valid collection is the pull followed by the closed form |
| `TagHelpers.SyncShape` | backend/src/utils/tagHelpers.js:17-35 | tag by tag: an old tag keeps id and name and its trade ids become those without `x` plus `x` when listed; created tags carry fresh ids and only `x` |
| `TagHelpers.SyncMembership` | backend/src/utils/tagHelpers.js:17-35 | afterwards a tag lists the trade exactly when its name is listed, and `getTagNamesForTrade` returns exactly the listed names |
| `TagHelpers.SyncKeepsTags` | backend/src/utils/tagHelpers.js:17-35 | a sync never deletes or renames a tag and leaves a tag for every listed name |
| `TagHelpers.SyncOthersUntouched` | backend/src/utils/tagHelpers.js:17-35 | membership of every other trade id is unchanged; created tags hold only `x` |
| `TagHelpers.SyncDistinctNames` | backend/src/utils/tagHelpers.js:17-35 | tag names stay pairwise distinct |
| `TagHelpers.SyncDistinctIds` | backend/src/utils/tagHelpers.js:17-35 | tag document ids stay pairwise distinct |
| `TagHelpers.SyncTagsWellFormed` | backend/src/utils/tagHelpers.js:17-35 | every tag keeps a non-empty normal name, an id below the next id, and no repeated trade id |
| `TagHelpers.SyncValid` | backend/src/utils/tagHelpers.js:17-35 | a sync preserves the collection invariant |
| `TagHelpers.SyncFixedPoint` | backend/src/utils/tagHelpers.js:17-35 | a collection that already has every listed name and lists `x` exactly in the listed tags, at the end, is left unchanged |
| `TagHelpers.SyncIdempotent` | backend/src/utils/tagHelpers.js:17-35 | syncing the same list twice leaves the state of syncing it once |
| `TagHelpers.NamesForTradeMembers` | backend/src/utils/tagHelpers.js:53-56 | `getTagNamesForTrade(x)` lists exactly the names of the tags whose trade ids contain `x` |
| `TagHelpers.RemoveFromAllProperties` | backend/src/utils/tagHelpers.js:41-46 | afterwards no tag lists `x`; the tags, their names and every other id's membership are unchanged; the invariant holds |
| `TagHelpers.OccurrencesAreNamesForTrade` | backend/src/utils/tagHelpers.js:63-80 | when no tag repeats a trade id, the names the nested loops push for an id are those `getTagNamesForTrade` would return, in the same order |
| `TagHelpers.PushName` | backend/src/utils/tagHelpers.js:72-78 | one tag's pass pushes its name once per occurrence of each requested id and adds no key |
| `TagHelpers.TagStore.constructor` | backend/src/models/Tag.js:3-14 | an empty collection satisfies the invariant |
| `TagHelpers.TagStore.UpsertTag` | backend/src/utils/tagHelpers.js:29-33 | one upsert with `$addToSet`: the listed tag gains the id once, or a new tag is created |
| `TagHelpers.TagStore.Sync` | backend/src/utils/tagHelpers.js:17-35 | the collection becomes the sync state for the cleaned names and stays valid |
| `TagHelpers.TagStore.RemoveFromAll` | backend/src/utils/tagHelpers.js:41-46 | the collection becomes the state with `x` pulled from every tag and stays valid |
| `TagHelpers.TagStore.NamesByTradeId` | backend/src/utils/tagHelpers.js:63-80 | an empty request gives an empty map; otherwise the keys are exactly the requested ids, each mapped to the names of the tags listing it, in collection order |
| `TradeHelpers.ToNumberOrNull` | backend/src/utils/tradeHelpers.js:1-7 | undefined, null and "" give null; otherwise null exactly when `Number(value)` is NaN, else that number |
| `TradeHelpers.ToNumberOrNullNumeral` | backend/src/utils/tradeHelpers.js:1-7 | a decimal integer numeral reads back as its value |
| `TradeHelpers.ToBoolean` | backend/src/utils/tradeHelpers.js:9-20 | empty values are false, booleans as given, numbers true when non-zero, anything else true when its lower-cased text is "true", "yes" or "1" |
| `TradeHelpers.ToBooleanTruthy` | backend/src/utils/tradeHelpers.js:9-20 | whatever reads as true is truthy, and for non-string, non-object values the two coincide |
| `TradeHelpers.ToDateOrNull` | backend/src/utils/tradeHelpers.js:22-28 | never an invalid date: the result is null exactly when the value is falsy or does not parse, and otherwise agrees with `new Date(v)`; unlike a bare `new Date`, null gives no date rather than the epoch |
| `TradeHelpers.BuildTradeData` | backend/src/utils/tradeHelpers.js:30-62 | the start date is parsed without a guard, the end date through `toDateOrNull`, `entry_price` through bare `Number`, `pnl` through `toNumberOrNull`; `??` fields are never undefined |
| `TradeHelpers.EntryPriceUnguarded` | backend/src/utils/tradeHelpers.js:40 | a payload without `entry_price` stores NaN as the entry price |
| `TradeHelpers.BuildTagCreates` | backend/src/utils/tradeHelpers.js:64-72 | one `connectOrCreate` per tag, in order, whose lookup name and created name always agree |
| `TagsRoute.ListTags` | backend/src/routes/tags.js:8-20 | GET /tags returns every tag, sorted ascending by name |
| `TagsRoute.RequestedName` | backend/src/routes/tags.js:27-28 | a name is produced exactly when `tag_name ?? name ?? ""` is a string, and it is normalised |
| `TagsRoute.CreateTagOutcome` | backend/src/routes/tags.js:26-42 | POST /tags: a non-string name is a server error, an empty name 400, a taken name 409; otherwise a new tag with a fresh id, that name and no trades is appended; failures change nothing; the invariant holds |
| `TagsRoute.CreateNamedOutcome` | backend/src/routes/tags.js:29-41 | the same outcome stated for a name already normalised |
| `TagsRoute.FindById` | backend/src/routes/tags.js:49 | the lookup of `findByIdAndDelete` returns the first tag with that id, or the end |
| `TagsRoute.DeleteTagOutcome` | backend/src/routes/tags.js:47-54 | DELETE /tags/:id: a malformed id is a server error, an unknown one 404; otherwise exactly that tag is removed; failures change nothing; the invariant holds |
| `TagsRoute.CreateTag` | backend/src/routes/tags.js:26-42 | the collection and the response are those of the POST specification, and the collection stays valid |
| `TagsRoute.InsertNamed` | backend/src/routes/tags.js:32-41 | the `findOne` then `create` steps produce the specified response and collection |
| `TagsRoute.DeleteTag` | backend/src/routes/tags.js:47-54 | the collection and the response are those of the DELETE specification, and the collection stays valid |
| `TradesRoute.FindTrade` | backend/src/routes/trades.js:84 | `findOne({ trade_id })` returns the first trade with that id, or the end when none has it |
| `TradesRoute.FindRefByName` | backend/src/routes/trades.js:116-124 | the `^name$` lookup with the `i` flag, which MongoDB evaluates on the server, returns the first strategy or account whose name matches the trimmed name: equal ignoring case, or equal ignoring case and followed by one final newline, since MongoDB's `$` (without the multiline flag) also matches before a final newline |
| `TradesRoute.ResolveLink` | backend/src/routes/trades.js:105-126 | a truthy explicit id wins and a malformed one is a server error; with no id and an empty trimmed name there is no link |
| `TradesRoute.ResolveLinkByName` | backend/src/routes/trades.js:115-126 | with no id and a non-empty name, a link is found exactly when some document's name matches that lookup, and it is that document's id |
| `TradesRoute.CreateTradeOutcome` | backend/src/routes/trades.js:101-140 | POST /trades succeeds exactly when the links resolve and the document validates (valid start, numeric entry price, every String path castable, the five required ones non-empty); it appends one trade whose id is `trd-` + one more than the largest stored number, with the built data, the links and no images; a failure changes nothing; ids stay unique |
| `TradesRoute.NonTextRejected` | backend/src/models/Trade.js:16-47 | an array or a plain object under a String path, optional (`notes`) or required (`asset`), fails both the create and the update cast |
| `TradesRoute.GetTrade` | backend/src/routes/trades.js:83-99 | 404 "Trade not found" exactly when no trade has that id; otherwise a stored trade with that id |
| `TradesRoute.MergeData` | backend/src/routes/trades.js:169-177 | the start, entry price and pnl always come from the payload; `trade_type`, `asset`, `direction`, `timeframe` and `session`, the fields `buildTradeData` can leave undefined, keep their stored values when undefined and take the payload's otherwise; every other field is the payload's |
| `TradesRoute.ApplyUpdate` | backend/src/routes/trades.js:169-177 | the trade keeps its id and images; a link given by the request replaces the stored one, otherwise the stored one stays |
| `TradesRoute.UpdateTradeOutcome` | backend/src/routes/trades.js:142-185 | PUT /trades/:id: a cast failure (invalid start, NaN entry price, an array or object under a written String path) is a server error, an unknown id 404; only the trade with that id can change; ids and count are kept; the result is the stored trade with that id |
| `TradesRoute.ReplaceTrade` | backend/src/routes/trades.js:169-179 | replacing one trade by one with the same id keeps ids unique and the collection valid |
| `TradesRoute.DeleteTradeOutcome` | backend/src/routes/trades.js:192-195 | DELETE /trades/:id keeps exactly the trades with another id and changes nothing for an unknown id |
| `TradesRoute.RemoveAt` | backend/src/routes/trades.js:193 | removing the one trade with an id keeps exactly the trades with another id |
| `TradesRoute.AddImagesSpec` | backend/src/routes/trades.js:197-210 | 404 exactly when no trade has the id; a server error when `save()` finds the trade invalid (a required path a PUT emptied); both change nothing; otherwise the count of files and that trade's images extended by one image per file |
| `TradesRoute.EmptiedTradeRejectsImages` | backend/src/routes/trades.js:197-208 | an upload to a trade whose `asset` is empty is a server error and changes nothing |
| `TradesRoute.ListTrades` | backend/src/routes/trades.js:25-70 | the listing fails only when a criterion fails to cast; otherwise it holds exactly the matching trades, newest start first |
| `TradesRoute.EmptyQueryListsAll` | backend/src/routes/trades.js:38-56 | a query with no criterion lists every trade |
| `TradesRoute.AssetCriterionConjoins` | backend/src/routes/trades.js:40 | adding an asset criterion keeps exactly the trades that matched before and have that asset |
| `TradesRoute.DateRangeInclusive` | backend/src/routes/trades.js:46-50 | a trade passes the date criterion exactly when it starts no earlier than `date_from` and no later than `date_to`, each bound inclusive and absent when not given; a trade starting exactly at either bound passes |
| `TradesRoute.TradeStore.constructor` | backend/src/models/Trade.js:11-52 | an empty collection is valid |
| `TradesRoute.TradeStore.Create` | backend/src/routes/trades.js:101-140 | the collection and response are those of the POST specification, including its String casts; the collection stays valid |
| `TradesRoute.TradeStore.Update` | backend/src/routes/trades.js:142-185 | the collection and response are those of the PUT specification, including its String casts; the collection stays valid |
| `TradesRoute.TradeStore.DeleteAll` | backend/src/routes/trades.js:187-190 | every trade is removed and the count removed is returned |
| `TradesRoute.TradeStore.Delete` | backend/src/routes/trades.js:192-195 | the collection becomes the DELETE specification's result and stays valid |
| `TradesRoute.TradeStore.AddImages` | backend/src/routes/trades.js:197-210 | the collection and response are those of the image-upload specification, including the re-validation by `save()` |
| `ImportExport.TrimAll` | backend/src/routes/importExport.js:23 | every piece comes out trimmed, one for one with the split pieces |
| `ImportExport.TrimmedPiece` | backend/src/routes/importExport.js:22-23 | a trimmed comma-free piece is trimmed and still comma-free |
| `ImportExport.SplitTagsClean` | backend/src/routes/importExport.js:21-24 | the tags read from a text are non-empty, trimmed and free of commas |
| `ImportExport.ParseTags` | backend/src/routes/importExport.js:14-25 | a falsy value gives no tags, an array is kept as it is, anything else is its text split on commas, trimmed, empties dropped |
| `ImportExport.SplitJoined` | backend/src/routes/importExport.js:94 | splitting the `", "`-joined export on commas gives back one piece per tag, each after a single space |
| `ImportExport.TrimSpaced` | backend/src/routes/importExport.js:23 | trimming a piece `" " + t` for a trimmed non-empty `t` gives `t` |
| `ImportExport.SplitTagsOfExport` | backend/src/routes/importExport.js:14-25 | reading back the joined form of non-empty, trimmed, comma-free tags gives the same tags |
| `ImportExport.ExportTagsNonEmpty` | backend/src/routes/importExport.js:94 | the joined form of a list whose first tag is non-empty is non-empty (so it is truthy on import) |
| `ImportExport.ExportTagsRoundTrip` | backend/src/routes/importExport.js:14-25 | exporting exportable tags and importing the text gives the same tags |
| `ImportExport.FirstOf` | backend/src/routes/importExport.js:28-58 | the `a ?? b ?? c` chain is nullish exactly when every alias is; otherwise it is the value of the first alias that is present, all earlier ones being null or undefined |
| `ImportExport.Aliases` | backend/src/routes/importExport.js:27-60 | every normalised key has at least one source column |
| `ImportExport.NormalizeRow` | backend/src/routes/importExport.js:27-60 | a normalised row is always an object; it is applied only to rows that are not null or undefined, on which `normalizeRow` throws (see `ImportExport.NullRowStops`) |
| `ImportExport.NormalizeFieldsGet` | backend/src/routes/importExport.js:27-60 | the fold over the key list defines exactly the listed keys, each with its alias chain's value |
| `ImportExport.NormalizeRowGet` | backend/src/routes/importExport.js:27-60 | a key of the normalised row is present exactly when it is one of the listed keys, and then holds its alias chain's value; others read as undefined |
| `ImportExport.NormalizeRowDropsTradeId` | backend/src/routes/importExport.js:27-60 | the normalised row has no `trade_id` |
| `ImportExport.TradeIdNotNormalized` | backend/src/routes/importExport.js:27-60 | `trade_id` is not among the keys `normalizeRow` copies |
| `ImportExport.NormalizedTags` | backend/src/routes/importExport.js:59 | the normalised `tags` is the parsed tag list of the row's `tags` column |
| `ImportExport.StartAliases` | backend/src/routes/importExport.js:28 | the start is `start_datetime` when set, else `startDate` when set, else `start` |
| `ImportExport.ImportedIdIsFallback` | backend/src/routes/importExport.js:175 | because `trade_id` is dropped by the normalisation, every imported trade is created under `trd-<now>` |
| `ImportExport.RowTrade` | backend/src/routes/importExport.js:174-181 | a created trade carries the chosen id, data that passes `Trade.create` validation including the String casts, and no images |
| `ImportExport.ImportRowStep` | backend/src/routes/importExport.js:159-185 | one row keeps the loop invariant (valid collections, ids = old ids + imported ids, and while the import has not stopped every row imported or reported); a null row stops the import with nothing stored; a stopped import does nothing |
| `ImportExport.ImportNormalizedStep` | backend/src/routes/importExport.js:160-185 | the same step once the row is normalised |
| `ImportExport.AcceptStep` | backend/src/routes/importExport.js:176-184 | storing a fresh, valid trade and syncing its tags keeps the invariant |
| `ImportExport.AppendFreshTrade` | backend/src/routes/importExport.js:176-181 | appending a trade with a fresh id and accepted data keeps ids unique and extends the id list by that id |
| `ImportExport.ImportRowsAborted` | backend/src/routes/importExport.js:141-193 | once `Trade.create` throws, the remaining rows change nothing |
| `ImportExport.ImportRowsInvariant` | backend/src/routes/importExport.js:156-185 | from an empty report, the whole loop keeps the invariant |
| `ImportExport.MissingRowCreatesNothing` | backend/src/routes/importExport.js:159-172 | a row missing a required field creates no trade and touches no tag; it adds one "Missing required fields" error, unless it is null, which stops the import |
| `ImportExport.ImportedRowIsSynced` | backend/src/routes/importExport.js:183 | after an imported row, the tags listing its id are exactly the cleaned names of its `tags` column |
| `ImportExport.ImportNormalizedImported` | backend/src/routes/importExport.js:174-184 | an imported row adds its id to the report and syncs the tags of that id to the row's cleaned names |
| `ImportExport.ImportRowsSnoc` | backend/src/routes/importExport.js:159 | the loop over one more row is one more iteration |
| `ImportExport.ImportOne` | backend/src/routes/importExport.js:160-185 | one row on the collections: aborted, reported or imported as the specification says, with the collections left in the specified state and valid |
| `ImportExport.ImportRowsNext` | backend/src/routes/importExport.js:159-160 | an iteration that has not stopped stops at a null row and otherwise normalises the row and processes it |
| `ImportExport.NullRowStops` | backend/src/routes/importExport.js:159-160 | a null row ends the loop where it stands: later rows change nothing |
| `ImportExport.ImportTrades` | backend/src/routes/importExport.js:132-194 | POST /import/trades on parsed rows: the collections end as the loop specification says, and the answer is a server error when a row was null or `Trade.create` threw, else the count imported and the errors |
| `ImportExport.ExportTrade` | backend/src/routes/importExport.js:62-96 | the exported row keeps the id and fields, joins the tags with `", "`, and prints each linked strategy and account id as text that casts back to it, null when unlinked |
| `ImportExport.ExportTrades` | backend/src/routes/importExport.js:99-106 | one row per stored trade, newest start first, each row's tag cell listing the tags that hold its trade id |
| `ImportExport.ExportedTagsReimport` | backend/src/routes/importExport.js:94 | tag names without commas survive an export followed by an import |
| `ImportExport.OccurrencesNames` | backend/src/routes/importExport.js:103-105 | every exported tag name is the name of some stored tag |
| `ImportExport.ExportAnalytics` | backend/src/routes/importExport.js:196-207 | the total is the sum of `pnl ?? 0`, the count is the number of trades, and the average times the count is the total (0 for no trades) |
| `Analytics.OldestFirst` | backend/src/routes/analytics.js:9-10 | the trades re-ordered (a permutation) by ascending start time |
| `Analytics.BuildPnLSeries` | backend/src/routes/analytics.js:7-19 | one point per trade in start order, each with that trade's date and `pnl ?? 0`, and equity 10000 plus the pnl of every trade up to and including it |
| `Analytics.RunningEquity` | backend/src/routes/analytics.js:11-18 | the `map` with its running `equity`: point `j` is the `j`-th trade's date, pnl and equity after it |
| `Analytics.EquityStep` | backend/src/routes/analytics.js:12 | each step adds the trade's `pnl ?? 0` to the running equity |
| `Analytics.SumOfSort` | backend/src/routes/analytics.js:9-10 | sorting does not change the total pnl |
| `Analytics.EquityEndsAtTotal` | backend/src/routes/analytics.js:7-19 | the last equity point is 10000 plus the total pnl of all trades |
| `Analytics.WinRate` | backend/src/routes/analytics.js:25-26 | 0 with no trades; otherwise between 0 and 100, with rate × count = 100 × the number of trades with `pnl ?? 0 > 0` |
| `Analytics.Percent` | backend/src/routes/analytics.js:26 | `(w / n) * 100` lies in 0..100 and times `n` gives `100 w` |
| `Analytics.AvgRR` | backend/src/routes/analytics.js:27-29 | 0 with no trades (division by `length || 1`); otherwise average × count is the sum of `actual_risk_reward ?? 0` |
| `Analytics.GetOverview` | backend/src/routes/analytics.js:22-38 | GET /overview: total pnl, trade count, win rate and average RR as above, one equity point per trade, the last at 10000 plus the total |
| `Analytics.FindSession` | backend/src/routes/analytics.js:44 | the bucket holding a session, or the end when the session has none yet |
| `Analytics.WithBucket` | backend/src/routes/analytics.js:44-46 | an absent session gets a zero bucket at the end; existing buckets are kept |
| `Analytics.SessionStats` | backend/src/routes/analytics.js:40-53 | GET /sessions: one bucket per session in order of first appearance, each with that session's trade count and pnl sum, over the trades whose session is not an `Object.prototype` member name |
| `Analytics.TallyPrefix` | backend/src/routes/analytics.js:42-50 | the `reduce` keeps its invariant from one trade to the next; a trade under an inherited key changes nothing |
| `Analytics.AddTrade` | backend/src/routes/analytics.js:43-49 | one reducer call: an inherited key leaves the entries alone; otherwise the trade's bucket gains one trade and its `pnl ?? 0` |
| `Analytics.TallyStep` | backend/src/routes/analytics.js:42-50 | a reducer call on buckets for `p` gives the buckets for `p + [t]` |
| `Analytics.TallyKeys` | backend/src/routes/analytics.js:44-46 | the bucket keys stay the de-duplicated session keys in order of first appearance |
| `Analytics.TallyCounts` | backend/src/routes/analytics.js:47-48 | every bucket keeps its session's count and pnl |
| `Analytics.TallyTotals` | backend/src/routes/analytics.js:47-48 | the counts add up to the trades seen, the pnls to their pnl |
| `Analytics.SessionsAddUp` | backend/src/routes/analytics.js:40-53 | the counts add up to the number of trades whose session gets an own entry, the pnls to their total; sessions are distinct, none is an inherited key, every such trade's session has a bucket, and with no prototype-named session every trade is counted |
| `Analytics.Candidates` | backend/src/routes/analytics.js:81-83 | the trade names trimmed with non-strings and empties dropped; every non-empty trimmed name is a candidate |
| `Analytics.MergePicker` | backend/src/routes/analytics.js:78-89 | the `forEach` with its lower-cased `Set` computes the merge specification |
| `Analytics.LoweredNamesOf` | backend/src/routes/analytics.js:78-80 | the initial `Set` is the lower-cased non-empty names of the documents |
| `Analytics.LoweredNamesMembers` | backend/src/routes/analytics.js:78-80 | a name is in the set exactly when some item has a non-empty name lowering to it |
| `Analytics.MergeSnoc` | backend/src/routes/analytics.js:84-88 | one more candidate is appended, as its own id, exactly when its lower-cased name is not yet in the set |
| `Analytics.MergeKeepsItems` | backend/src/routes/analytics.js:74-89 | the documents come first, unchanged; every appended item is a trade name with itself as id |
| `Analytics.MergeDistinct` | backend/src/routes/analytics.js:84-88 | an appended name differs, ignoring case, from every earlier entry |
| `Analytics.MergeCovers` | backend/src/routes/analytics.js:81-89 | every candidate name appears in the list, ignoring case |
| `Analytics.MergePickerOutcome` | backend/src/routes/analytics.js:74-106 | the picker lists of GET /filters: documents first, then each new trade name once, case-insensitively distinct, so that every used name is listed |
| `NamedDocs.GuardName` | backend/src/routes/accounts.js:29 | `(v \|\| "").trim()`: "" for a falsy value, the trimmed text for a string, a TypeError (server error) for any other truthy value; the result is trimmed |
| `NamedDocs.FindMatch` | backend/src/routes/accounts.js:33-35 | the `^name$` lookup with the `i` flag, evaluated by MongoDB, returns the first document other than the skipped id whose name equals the given one ignoring case, or is such a name followed by one final newline (MongoDB's `$` without the multiline flag matches before a final newline) |
| `NamedDocs.FindMatchTaken` | backend/src/routes/accounts.js:56-59 | the lookup finds a document exactly when some other document's name matches the name that way |
| `NamedDocs.Apply` | backend/src/routes/accounts.js:68-78 | a field the update leaves undefined keeps its stored value; any other value replaces it |
| `NamedDocs.CastText` | backend/src/models/Account.js:5-8 | a String path accepts strings as they are and null or undefined as no value, and rejects arrays and objects |
| `NamedDocs.CastTextWrite` | backend/src/routes/accounts.js:68-78 | in an update, undefined keeps the field, null clears it, a string sets it, an array or object fails the cast |
| `NamedDocs.CastNumber` | backend/src/models/Account.js:6-7 | a Number path takes numbers, null, undefined and "" as no value, and fails on arrays, objects and text that does not parse |
| `NamedDocs.TrimShortens` | backend/src/routes/accounts.js:29 | trimming an untrimmed name makes it shorter |
| `NamedDocs.TrimmedLookupOfUntrimmed` | backend/src/routes/accounts.js:29-35 | a stored name with outer white space matches the trimmed name the duplicate check looks for exactly when it is that trimmed name followed by one newline |
| `NamedDocs.DistinctAppend` | backend/src/routes/accounts.js:33-49 | adding a document under a looked-up (trimmed) name that was not taken keeps names distinct: no stored name matches another's lookup |
| `NamedDocs.StillNotTaken` | backend/src/routes/accounts.js:33-35 | adding a document with another name leaves a free name free |
| `NamedDocs.OnlySelfMatches` | backend/src/routes/accounts.js:56-59 | while names are distinct, a document's own name is not taken once its own id is skipped |
| `Accounts.FindAccount` | backend/src/routes/accounts.js:20 | `findById` returns the first document with that id, or the end |
| `Accounts.InitialBalance` | backend/src/routes/accounts.js:41-42 | the initial balance is the body's value when it is a number, and null otherwise |
| `Accounts.CastAccountWrite` | backend/src/routes/accounts.js:43-49 | the written fields cast exactly when name, type and balance cast; name and type as sent; the balance falls back to the initial balance; custom fields default to null |
| `Accounts.ApplyWrite` | backend/src/routes/accounts.js:68-78 | an update keeps id and creation time, replaces name and type unless undefined, and always overwrites balance, initial balance and custom fields |
| `Accounts.CreateAccountOutcome` | backend/src/routes/accounts.js:28-51 | POST /accounts: 400 exactly for an empty trimmed name, 409 exactly when a stored name matches the `^name$`/`i` lookup (equal ignoring case, or so followed by one final newline); success appends one account with a fresh id and the sent name and type; failures change nothing |
| `Accounts.CreateStoresSentName` | backend/src/routes/accounts.js:29-44 | 400 comes exactly from a falsy or blank name, and a created account stores the name as sent, untrimmed |
| `Accounts.CreateKeepsNamesDistinct` | backend/src/routes/accounts.js:33-49 | creating under the name the check looked up keeps account names distinct: no stored name matches another's lookup |
| `Accounts.AppendKeepsDistinct` | backend/src/routes/accounts.js:43-49 | appending an account under a free name keeps names distinct |
| `Accounts.UntrimmedNameRepeats` | backend/src/routes/accounts.js:29-44 | posting the same untrimmed name twice creates two accounts with that name, because the check looks for the trimmed name, except for a name that is its trimmed form plus one newline, where the second post is 409 and changes nothing |
| `Accounts.UpdateAccountOutcome` | backend/src/routes/accounts.js:53-83 | PUT /accounts/:id: 409 exactly when a non-empty name is taken by another account, 404 exactly for an unknown well-formed id; success rewrites only that account; failures change nothing |
| `Accounts.RenameToOwnName` | backend/src/routes/accounts.js:54-59 | renaming an account to its own name in any case is not a conflict |
| `Accounts.TradesOf` | backend/src/routes/accounts.js:12 | the trades listed with an account are exactly those linked to it |
| `Accounts.GetAccount` | backend/src/routes/accounts.js:19-26 | a malformed id is a server error, an unknown one 404; otherwise the account with its linked trades |
| `Accounts.NewestFirst` | backend/src/routes/accounts.js:9 | the accounts re-ordered (a permutation) newest first |
| `Accounts.ListAccounts` | backend/src/routes/accounts.js:8-17 | GET /accounts: every account once, newest first, each with its linked trades |
| `Accounts.DeleteAccountOutcome` | backend/src/routes/accounts.js:85-88 | a malformed id is a server error; otherwise the account with that id, if any, is removed and nothing else |
| `Accounts.RemoveAccount` | backend/src/routes/accounts.js:86 | removing one account keeps the collection valid and exactly the other accounts |
| `Accounts.AccountStore.constructor` | backend/src/models/Account.js:3-14 | an empty collection is valid |
| `Accounts.AccountStore.Create` | backend/src/routes/accounts.js:28-51 | the collection and response are those of the POST specification; the collection stays valid |
| `Accounts.AccountStore.Insert` | backend/src/routes/accounts.js:33-50 | the lookup and `create` steps produce the specified response and collection |
| `Accounts.AccountStore.Update` | backend/src/routes/accounts.js:53-83 | the collection and response are those of the PUT specification; the collection stays valid |
| `Accounts.AccountStore.UpdateIn` | backend/src/routes/accounts.js:55-82 | the lookup and `findByIdAndUpdate` steps produce the specified response and collection |
| `Accounts.AccountStore.Delete` | backend/src/routes/accounts.js:85-88 | the collection and response are those of the DELETE specification |
| `Strategies.FindStrategy` | backend/src/routes/strategies.js:21 | `findById` returns the first document with that id, or the end |
| `Strategies.CastStrategyWrite` | backend/src/routes/strategies.js:42-46 | the written fields cast exactly when the name casts and the notes are not an array or object; notes and custom fields default to null |
| `Strategies.ApplyWrite` | backend/src/routes/strategies.js:63-71 | an update keeps id, creation time and images, replaces the name unless undefined, and always overwrites notes and custom fields |
| `Strategies.CreateStrategyOutcome` | backend/src/routes/strategies.js:29-48 | POST /strategies: 400 exactly for an empty trimmed name, 409 exactly when a stored name matches the `^name$`/`i` lookup (equal ignoring case, or so followed by one final newline); success appends one strategy with a fresh id, the sent name and notes and no images; failures change nothing |
| `Strategies.CreateStoresSentName` | backend/src/routes/strategies.js:30-43 | 400 comes exactly from a falsy or blank name, and a created strategy stores the name as sent, untrimmed |
| `Strategies.CreateKeepsNamesDistinct` | backend/src/routes/strategies.js:34-46 | creating under the name the check looked up keeps strategy names distinct: no stored name matches another's lookup |
| `Strategies.AppendKeepsDistinct` | backend/src/routes/strategies.js:42-46 | appending a strategy under a free name keeps names distinct |
| `Strategies.UntrimmedNameRepeats` | backend/src/routes/strategies.js:30-43 | posting the same untrimmed name twice creates two strategies with that name, except for a name that is its trimmed form plus one newline, where the second post is 409 and changes nothing |
| `Strategies.UpdateStrategyOutcome` | backend/src/routes/strategies.js:50-76 | PUT /strategies/:id: 409 exactly when a non-empty name is taken by another strategy, 404 exactly for an unknown well-formed id; success rewrites only that strategy; failures change nothing |
| `Strategies.RenameToOwnName` | backend/src/routes/strategies.js:51-56 | renaming a strategy to its own name in any case is not a conflict |
| `Strategies.TradesOf` | backend/src/routes/strategies.js:13 | the trades listed with a strategy are exactly those linked to it |
| `Strategies.GetStrategy` | backend/src/routes/strategies.js:20-27 | a malformed id is a server error, an unknown one 404; otherwise the strategy with its linked trades |
| `Strategies.NewestFirst` | backend/src/routes/strategies.js:10 | the strategies re-ordered (a permutation) newest first |
| `Strategies.ListStrategies` | backend/src/routes/strategies.js:9-18 | GET /strategies: every strategy once, newest first, each with its linked trades |
| `Strategies.DeleteStrategyOutcome` | backend/src/routes/strategies.js:78-81 | a malformed id is a server error; otherwise the strategy with that id, if any, is removed and nothing else |
| `Strategies.RemoveStrategy` | backend/src/routes/strategies.js:79 | removing one strategy keeps the collection valid and exactly the other strategies |
| `Strategies.AddStrategyImagesOutcome` | backend/src/routes/strategies.js:83-96 | 404 exactly for an unknown well-formed id; a server error for a malformed id or a strategy whose required name a PUT removed (the save re-validates); otherwise only that strategy's images grow, by one per file |
| `Strategies.StrategyStore.constructor` | backend/src/models/Strategy.js:11-21 | an empty collection is valid |
| `Strategies.StrategyStore.Create` | backend/src/routes/strategies.js:29-48 | the collection and response are those of the POST specification; the collection stays valid |
| `Strategies.StrategyStore.Insert` | backend/src/routes/strategies.js:34-47 | the lookup and `create` steps produce the specified response and collection |
| `Strategies.StrategyStore.Update` | backend/src/routes/strategies.js:50-76 | the collection and response are those of the PUT specification; the collection stays valid |
| `Strategies.StrategyStore.UpdateIn` | backend/src/routes/strategies.js:52-75 | the lookup and `findByIdAndUpdate` steps produce the specified response and collection |
| `Strategies.StrategyStore.Delete` | backend/src/routes/strategies.js:78-81 | the collection and response are those of the DELETE specification |
| `Strategies.StrategyStore.AddImages` | backend/src/routes/strategies.js:83-96 | the collection and response are those of the image-upload specification; the collection stays valid |
| `DashboardCharts.FindChart` | backend/src/routes/dashboardCharts.js:77 | `findByIdAndUpdate`/`findByIdAndDelete` find the first chart with that id, or the end |
| `DashboardCharts.FeatureText` | backend/src/routes/dashboardCharts.js:44 | `String(f).trim()` is trimmed, and a trimmed string comes back unchanged |
| `DashboardCharts.FeatureTexts` | backend/src/routes/dashboardCharts.js:44 | every converted feature is trimmed, and a feature that is already a trimmed string is kept as sent |
| `DashboardCharts.FilterClean` | backend/src/routes/dashboardCharts.js:44 | dropping the empty trimmed texts leaves non-empty trimmed features |
| `DashboardCharts.Features` | backend/src/routes/dashboardCharts.js:43-45 | a non-array gives no features; an array gives its entries as trimmed text with empties dropped; the result is clean |
| `DashboardCharts.FeaturesRoundTrip` | backend/src/routes/dashboardCharts.js:43-45 | sending back the stored (clean) features gives the same list |
| `DashboardCharts.PostChartType` | backend/src/routes/dashboardCharts.js:37 | `(chart_type \|\| "").toLowerCase()`: lower-cased for a string, a TypeError (server error) for another truthy value |
| `DashboardCharts.ChartTypeResent` | backend/src/routes/dashboardCharts.js:37-38 | a stored chart type is already lower case, so sending it again is accepted unchanged |
| `DashboardCharts.PostInput` | backend/src/routes/dashboardCharts.js:33-47 | the POST body read as: guarded name, lower-cased type, clean features, `visible !== false`, `order` when a number else 0 |
| `DashboardCharts.CreateChartOutcome` | backend/src/routes/dashboardCharts.js:32-56 | POST /dashboard-charts: 400 for an empty name or a type outside the nineteen chart types; otherwise a chart with a fresh id and the read fields is appended; failures change nothing |
| `DashboardCharts.PutUpdates` | backend/src/routes/dashboardCharts.js:59-76 | 400 exactly when a given type is not a valid chart type; each field is updated exactly when the body defines it; a set type is valid, set features are clean |
| `DashboardCharts.ApplyUpdate` | backend/src/routes/dashboardCharts.js:77-81 | the chart keeps id and creation time; each field takes the update's value when set, else its own |
| `DashboardCharts.UpdateChartOutcome` | backend/src/routes/dashboardCharts.js:58-86 | PUT: 400 exactly for an invalid type, 404 exactly for an unknown well-formed id (a NaN order fails the cast first); success changes only that chart; failures change nothing |
| `DashboardCharts.ListCharts` | backend/src/routes/dashboardCharts.js:27-30 | every chart, by ascending `order` and then by creation time |
| `DashboardCharts.DeleteChartOutcome` | backend/src/routes/dashboardCharts.js:88-94 | a malformed id is a server error, an unknown one 404; otherwise exactly that chart is removed |
| `DashboardCharts.RemoveChart` | backend/src/routes/dashboardCharts.js:89 | removing one chart keeps the collection valid and exactly the other charts |
| `DashboardCharts.ChartStore.constructor` | backend/src/models/DashboardChart.js:3-36 | an empty collection is valid |
| `DashboardCharts.ChartStore.Create` | backend/src/routes/dashboardCharts.js:32-56 | the collection and response are those of the POST specification; the collection stays valid |
| `DashboardCharts.ChartStore.Insert` | backend/src/routes/dashboardCharts.js:34-55 | the checks and the `create` produce the specified response and collection |
| `DashboardCharts.ChartStore.Update` | backend/src/routes/dashboardCharts.js:58-86 | the collection and response are those of the PUT specification; the collection stays valid |
| `DashboardCharts.ChartStore.UpdateIn` | backend/src/routes/dashboardCharts.js:77-85 | `findByIdAndUpdate` with the computed updates produces the specified response and collection |
| `DashboardCharts.ChartStore.Delete` | backend/src/routes/dashboardCharts.js:88-94 | the collection and response are those of the DELETE specification |
| `TradesApi.Pad2` | frontend/src/api/trades.ts:69-70 | `padStart(2, "0")` gives digits only, at least two, exactly two below 100 |
| `TradesApi.Pad2Value` | frontend/src/api/trades.ts:69-70 | the padded text reads back as the number |
| `TradesApi.FormatDate` | frontend/src/api/trades.ts:66-73 | "" for a falsy value, "NaN-NaN-NaN" for an invalid date, else `dd-mm-yyyy` from the local calendar |
| `TradesApi.FormatDateShape` | frontend/src/api/trades.ts:66-73 | for a valid date, the text has dashes at positions 2 and 5 and the day, month and year read back from it |
| `TradesApi.NameWithFallback` | frontend/src/api/trades.ts:76-77 | the name is never null or undefined: it is the related document's name when set, else the flat name when set, else "" |
| `TradesApi.TagText` | frontend/src/api/trades.ts:105 | a string tag as it is, an object tag's `tag.tag_name ?? ""`; a null entry throws (no value) |
| `TradesApi.TagTexts` | frontend/src/api/trades.ts:104-105 | the `map` fails exactly when some entry is null or undefined, and otherwise maps each entry |
| `TradesApi.TradeTags` | frontend/src/api/trades.ts:103-107 | a non-array gives no tags; an array gives its texts with falsy ones dropped, or fails with the `map` |
| `TradesApi.TradeTagsKept` | frontend/src/api/trades.ts:103-107 | every kept tag is truthy, and a string entry is kept exactly when non-empty |
| `TradesApi.NumericValues` | frontend/src/api/trades.ts:92-102 | every numeric field is present and never null: its value, or 0 when missing |
| `TradesApi.AccountLink` | frontend/src/api/trades.ts:77-109 | the account name is undefined exactly when the fallback name is empty; the id is the related account's id, else the name |
| `TradesApi.CreatedAt` | frontend/src/api/trades.ts:84 | `created_at ?? start_datetime ?? ""`, never null |
| `TradesApi.NormalizeTrade` | frontend/src/api/trades.ts:75-111 | fails exactly for a missing trade or a null tag; otherwise numbers default to 0, tags, strategy name, account link and creation date as above, an absent end gives "" |
| `TradesApi.Param` | frontend/src/api/trades.ts:120-123 | a parameter is set exactly when its value is non-empty and, for asset and session, not "All" |
| `TradesApi.QueryPairs` | frontend/src/api/trades.ts:119-123 | at most four query parameters |
| `TradesApi.QueryPairsSentinel` | frontend/src/api/trades.ts:119-124 | no parameter is empty, "All" is never sent, and the query is empty exactly when nothing but sentinels was given |
| `TradesApi.Utf8` | frontend/src/api/trades.ts:124 | a character is one to four bytes, an ASCII character its own code |
| `TradesApi.HexDigit` | frontend/src/api/trades.ts:124 | percent-encoding uses upper-case hexadecimal digits |
| `TradesApi.PercentBytes` | frontend/src/api/trades.ts:124 | three characters per byte, `%` and hex digits only |
| `TradesApi.EncodeChar` | frontend/src/api/trades.ts:124 | an encoded character is unreserved characters, `+` or percent escapes |
| `TradesApi.FormEncode` | frontend/src/api/trades.ts:124 | encoded text is no shorter and holds no `&`, `=` or `?` |
| `TradesApi.TradesPath` | frontend/src/api/trades.ts:113-126 | the path built by `getTrades` is `/trades`, with `?` and the serialised query when it is non-empty |
| `TradesApi.SerializeSplits` | frontend/src/api/trades.ts:124 | splitting the query on `&` gives back the encoded pairs, and each pair on `=` its encoded key and value |
| `TradesApi.JoinSplits` | frontend/src/api/trades.ts:124 | splitting a join of pieces free of the separator gives back the pieces |
| `TradesApi.TradesUrlShape` | frontend/src/api/trades.ts:125 | the path is bare `/trades` exactly when there are no parameters, else `/trades?` followed by a query that splits back into them |
| `TradeForm.ParseNumber` | frontend/src/App.tsx:807-810 | null exactly when `Number(value)` is NaN; a blank field reads as 0 |
| `TradeForm.ParseField` | frontend/src/App.tsx:807-810 | the corrected reading: missing exactly for a blank or unreadable field; it differs from `parseNumber` exactly on blank fields and agrees with it wherever it reads a number |
| `TradeForm.ComputeRiskReward` | frontend/src/App.tsx:812-827 | the empty result ("") exactly when a price is missing or the risk is not positive; otherwise the ratio times the risk is the reward |
| `TradeForm.ShortMirrorsLong` | frontend/src/App.tsx:812-827 | a Short trade's ratio is the Long ratio of the negated prices |
| `TradeForm.RiskRewardSign` | frontend/src/App.tsx:812-827 | when defined, the ratio is positive exactly when the reward is |
| `TradeForm.Pnl` | frontend/src/App.tsx:845-853 | the profit is "" exactly when the entry or exit price is missing |
| `TradeForm.PnlDirection` | frontend/src/App.tsx:845-853 | Short is the negation of Long; with a positive lot a Long profit is positive exactly when exit > entry; a missing lot counts as 1 |
| `TradeForm.PnlZeroLot` | frontend/src/App.tsx:834-853 | a lot of 0 gives a profit of 0 |
| `TradeForm.PnlUnitLot` | frontend/src/App.tsx:834-853 | a lot of 1, or a missing one, gives the price move in the trade's direction |
| `TradeForm.AutoFillWith` | frontend/src/App.tsx:829-855 | a derived field the user typed over is left alone, every other one is written |
| `TradeForm.AutoPnlField` | frontend/src/App.tsx:845-853 | the written profit is the profit of the read prices |
| `TradeForm.AsWrittenPnl` | frontend/src/App.tsx:830-853 | as written, the profit is computed from `parseNumber` readings |
| `TradeForm.IntendedPnl` | frontend/src/App.tsx:830-853 | as intended, the profit is computed from readings where blank means missing |
| `TradeForm.ParseNumeral` | frontend/src/App.tsx:807-810 | a decimal numeral reads back as its value under both readings |
| `TradeForm.BlankFieldsReadAsZero` | frontend/src/App.tsx:830-853 | as written, a blank lot size gives profit 0 instead of using the default 1, and a blank exit price gives the profit of an exit at 0 instead of "" |
| `TradeForm.AutoFillIntendedBlanks` | frontend/src/App.tsx:829-855 | as intended, a blank price empties the fields that need it, and a blank lot size counts as 1 |
| `TradeForm.BlankLotDefaultsToOne` | frontend/src/App.tsx:834-853 | as intended, a blank lot size gives the price move as profit |
| `TradeForm.NormalizeTag` | frontend/src/App.tsx:922 | `trim` then collapsing white-space runs gives a normal tag name |
| `TradeForm.NormalizeTags` | frontend/src/App.tsx:950 | each part is normalised to a normal tag name, one for one |
| `TradeForm.FieldTags` | frontend/src/App.tsx:947-951 | the tags read from the field are non-empty |
| `TradeForm.FieldTagsClean` | frontend/src/App.tsx:947-951 | every tag read from the field is normal and comma-free |
| `TradeForm.AddTagToField` | frontend/src/App.tsx:945-956 | the field is left alone exactly when the normalised tag is empty or already in it |
| `TradeForm.NormalizeKeepsCommaFree` | frontend/src/App.tsx:922 | normalising comma-free text keeps it comma-free |
| `TradeForm.JoinCommaSplit` | frontend/src/App.tsx:948-953 | splitting a `", "`-join on commas gives back the parts, each after its space |
| `TradeForm.SpacedNormal` | frontend/src/App.tsx:922 | normalising a normal tag with a leading space gives the tag |
| `TradeForm.NormalizeSpacedParts` | frontend/src/App.tsx:948-953 | normalising the split parts of a join of normal tags gives the tags |
| `TradeForm.FieldTagsEmpty` | frontend/src/App.tsx:947-951 | an empty field holds no tags |
| `TradeForm.FieldTagsOfJoin` | frontend/src/App.tsx:947-953 | reading back a `", "`-join of normal comma-free tags gives the tags |
| `TradeForm.AddTagRoundTrip` | frontend/src/App.tsx:945-956 | after adding a comma-free tag, the field reads as the old tags plus the new one, and adding it again changes nothing |
| `TradeForm.AppendedTagReadsBack` | frontend/src/App.tsx:952-953 | the joined field with a tag appended reads back as the tags with that tag last |
| `DashboardStats.FilteredTrades` | frontend/src/App.tsx:1474-1484 | the kept trades, in their order, are exactly those matching each select, "All" matching anything |
| `DashboardStats.FilteredAllIsIdentity` | frontend/src/App.tsx:1474-1484 | three "All" selects keep the whole list |
| `DashboardStats.FiltersCompose` | frontend/src/App.tsx:1474-1484 | the three selects combine by AND: filtering by all three is filtering by each in turn |
| `DashboardStats.WithRange` | frontend/src/App.tsx:1346-1354 | without bounds the list is unchanged; otherwise, in order, the trades whose start is within the bounds, and the trades whose start does not parse |
| `DashboardStats.WithPrevRange` | frontend/src/App.tsx:1401-1406 | in order, the trades whose start lies in the half-open previous window |
| `DashboardStats.PrevWindowsDisjoint` | frontend/src/App.tsx:1401-1406 | two adjacent half-open windows share no trade |
| `DashboardStats.WithAccount` | frontend/src/App.tsx:1355-1358 | "all" keeps the list; otherwise, in order, the trades of that account |
| `DashboardStats.WithStrategy` | frontend/src/App.tsx:1359-1362 | "all" keeps the list; otherwise, in order, the trades of that strategy |
| `DashboardStats.Scoped` | frontend/src/App.tsx:1408-1426 | a card's trades are, in order, those matching both its account and its strategy select |
| `DashboardStats.WinRate` | frontend/src/App.tsx:1436-1437 | 0 without trades; otherwise the percentage of trades with positive pnl, within 0..100 |
| `DashboardStats.AvgRR` | frontend/src/App.tsx:1438-1439 | 0 without trades; otherwise the mean of the actual risk/reward |
| `DashboardStats.DeltaPct` | frontend/src/App.tsx:1429-1434 | null exactly when the previous window is empty or sums to 0; otherwise the change relative to the absolute previous pnl, in percent |
| `DashboardStats.DeltaPctSign` | frontend/src/App.tsx:1429-1434 | the change is positive exactly when the pnl grew, and 0 exactly when it stayed the same |
| `DashboardStats.HoldingSum` | frontend/src/App.tsx:1441-1446 | NaN exactly when some trade with an end date has a date that does not parse; otherwise non-negative |
| `DashboardStats.AvgHolding` | frontend/src/App.tsx:1439-1449 | 0 without trades; NaN exactly when a date of a closed trade does not parse; otherwise non-negative minutes |
| `DashboardStats.StatsOf` | frontend/src/App.tsx:1427-1460 | the win count is at most the trades counted, the win rate is their percentage (0 without trades), the delta is null exactly as above, and the averages are those of their trades |
| `DashboardStats.ComputeStats` | frontend/src/App.tsx:1309-1461 | the win-rate denominator never exceeds the number of trades |
| `DashboardStats.WinLossData` | frontend/src/App.tsx:1695-1705 | the counts add up to the number of trades and the profits to the total pnl; wins' profit is non-negative and losses' non-positive; no wins exactly when no pnl is positive |
| `DashboardStats.SumOfPositive` | frontend/src/App.tsx:1697-1699 | a sum of winning trades is non-negative, and 0 only for no trades |
| `DashboardStats.SumOfNonPositive` | frontend/src/App.tsx:1698-1700 | a sum of non-winning trades is non-positive |
| `DashboardStats.SumOfNegative` | frontend/src/App.tsx:1669-1671 | a sum of losing trades is non-positive, and 0 only for no trades |
| `DashboardStats.FindKey` | frontend/src/App.tsx:1675-1679 | the position of the key in the map's insertion order, or the end when it is absent |
| `DashboardStats.GroupAllSummarises` | frontend/src/App.tsx:1675-1679 | the map has each key once, each key that occurs in the trades, and for each the sum of its trades' pnl and their count |
| `DashboardStats.GroupAllTotals` | frontend/src/App.tsx:1675-1679 | the map's totals are the total pnl and the number of trades |
| `DashboardStats.StrategyEntries` | frontend/src/App.tsx:1676-1678 | one entry per trade, keyed by its strategy, or "—" when the strategy is empty |
| `DashboardStats.FirstMaxIndex` | frontend/src/App.tsx:1680-1686 | the first bucket whose pnl is not smaller than any other |
| `DashboardStats.BestStrategy` | frontend/src/App.tsx:1680-1686 | "—" for an empty map; otherwise the first key with the largest pnl |
| `DashboardStats.GroupByStrategy` | frontend/src/App.tsx:1675-1679 | the loop builds the grouping of the strategy entries |
| `DashboardStats.GrossFigures` | frontend/src/App.tsx:1668-1671 | gross profit and gross loss are non-negative, each 0 exactly when no trade is on its side |
| `DashboardStats.ProfitFactorCases` | frontend/src/App.tsx:1672-1673 | null exactly when every pnl is 0; Infinity exactly when there are gains and no losses; otherwise a non-negative ratio with ratio × gross loss = gross profit |
| `DashboardStats.Expectancy` | frontend/src/App.tsx:1674 | the expectancy times the number of trades is the total pnl |
| `DashboardStats.OutcomeMetrics` | frontend/src/App.tsx:1664-1693 | "—" and nulls without trades; otherwise the profit factor, the expectancy and the first strategy with the largest pnl |
| `DashboardStats.KeyCountOfMember` | frontend/src/App.tsx:1675-1679 | every trade's strategy has at least one trade |
| `DashboardStats.BestStrategyIsBest` | frontend/src/App.tsx:1675-1686 | no strategy of the trades has a larger total pnl than the best strategy |
| `DashboardSeries.EquityTrades` | frontend/src/App.tsx:1582-1598 | the card's trades in the date window, reordered by start time (a permutation, sorted by start) |
| `DashboardSeries.EquityAfterStep` | frontend/src/App.tsx:1603-1604 | each point's equity is the previous point's plus the trade's pnl |
| `DashboardSeries.EquitySeries` | frontend/src/App.tsx:1600-1613 | one point per trade, with the trade's date name and start time, and the running sum of pnl as equity |
| `DashboardSeries.EquityEndsAtTotal` | frontend/src/App.tsx:1582-1613 | the curve ends at the total pnl of the card's trades, whatever their order |
| `DashboardSeries.DateKey` | frontend/src/App.tsx:1956-1961 | the `YYYY-MM-DD` key has its dashes three and six characters from the end |
| `DashboardSeries.DateKeyFields` | frontend/src/App.tsx:1956-1961 | the key reads back as its year, month and day |
| `DashboardSeries.DateKeyInjective` | frontend/src/App.tsx:1956-1961 | two dates with the same key are the same date |
| `DashboardSeries.DayEntries` | frontend/src/App.tsx:1972-1980 | one entry per trade that starts in the shown month |
| `DashboardSeries.CalendarStats` | frontend/src/App.tsx:1962-1991 | the day map groups the scoped trades of the month by date key; the totals are the map's totals, that is the pnl and the number of those trades |
| `DashboardSeries.TallyMonth` | frontend/src/App.tsx:1972-1989 | the loop builds the grouping of the month's entries and their totals |
| `DashboardSeries.DayTotal` | frontend/src/App.tsx:1962-1991 | a day's cell pnl is the pnl of the scoped trades starting that day |
| `DashboardSeries.DayCount` | frontend/src/App.tsx:1962-1991 | a day's cell count is the number of scoped trades starting that day |
| `DashboardSeries.Weekday` | frontend/src/App.tsx:1993 | a day of the week, 0 (Sunday) to 6 |
| `DashboardSeries.MondayOffset` | frontend/src/App.tsx:1993-1994 | going back the offset from any day reaches a Monday within the week |
| `DashboardSeries.CalendarDays` | frontend/src/App.tsx:1992-2002 | 42 consecutive days starting on the Monday of the week holding the first of the month |
| `DashboardSeries.CalendarWeeks` | frontend/src/App.tsx:2003-2009 | the weeks are the consecutive 7-day slices of the days and concatenate back to them |
| `DashboardSeries.CalendarGrid` | frontend/src/App.tsx:1992-2009 | the grid has six full weeks, each starting on a Monday |

## Left out

- HTTP and framework wiring: Express routing, status codes as numbers, CORS, the error middleware and the mounting of routers in `backend/src/server.js`. A route's outcome is a `Response` value, and a thrown error is `InternalError`.
- Mongo and Mongoose as a database: collections are sequences in a class, and each handler is atomic. Concurrency is not modelled: two requests cannot interleave between computing the next id and creating the trade, or between the pull and the add of a tag sync.
- NamedDocs.Apply: "undefined keeps the stored field" (and so `NamedDocs.CastTextWrite`, `Accounts.ApplyWrite`, `Strategies.ApplyWrite` and `TradesRoute.MergeData`) assumes that Mongoose removes `undefined` keys from an update document before it reaches MongoDB, as Mongoose 6 and later do by default. The Mongoose version is not fixed by the sources modelled here, and a setup that sends such keys (storing null) is not modelled.
- `populate`, `find(...).lean()` and `distinct` are lookups in the in-memory collections. The `$in` prefilter of `getTagNamesByTradeId` is not modelled, because it does not change the result.
- ObjectIds are naturals written as decimal numerals. Casting any other string fails like Mongoose's CastError, as a 500.
- `listTrades`: the `search` parameter goes to `new RegExp` unescaped in the source; the model reads it as a literal case-insensitive substring of `trade_id` or `asset`. Regular-expression syntax in a search is not modelled.
- `listTrades`: the `tags` criterion is a parameter of the model (`hasTag`), because `tags` is not a path of the Trade schema and no join with the tag index exists in the source.
- File I/O in the import/export routes (fs, csv-parse, json2csv, xlsx, dispatch on the file extension) is not part of this model. Rows arrive as values, and export produces values.
- Multer's storage, file naming and six-file limit for image uploads: the uploaded files arrive as a list of paths.
- The clock: `Date.now()` and `new Date()` are parameters. The import's fallback id `trd-<timestamp>` takes the timestamp as a parameter.
- Date parsing: `new Date(string)` is a parameter (`DateParser`). JavaScript's local time zone, daylight-saving shifts, `setHours` and `setDate` are a parameter too (`LocalCalendar`), constrained only to give valid calendar dates. The "Today", "Last N days", "This month" and "This year" windows are given as bounds.
- Floating point: money, prices and ratios are exact reals. Rounding in the seeding script's `toFixed` is modelled on exact decimals (`SeedDummyTrades.ToFixed`), and double rounding errors are not modelled. NaN appears only where the source produces it from parsing (`Number(x)`, an invalid date).
- `Number(x)` on strings reads decimal numerals with an optional sign, fraction and surrounding white space. Hexadecimal, binary and octal literals, exponents and "Infinity" are not modelled and read as NaN.
- `String(x)` of a number prints the integer part exactly and at most 20 fraction digits, as a stand-in for JavaScript's shortest round-trip printing.
- `toLowerCase` and the `i` flag of the name regexes are modelled for the ASCII letters only (`Strings.Lower`, `Strings.EqualsIgnoreCase`). Account, strategy and trade link names are free user text. JavaScript's `toLowerCase` maps every Unicode letter, and MongoDB's regular-expression engine (PCRE, which evaluates the `^name$`/`i` lookups on the server) matches case-insensitively across Unicode letters, so for non-ASCII letters the model and the source differ in the places listed below.
- Analytics.LoweredNamesOf: non-ASCII case pairs (for example "ÉPARGNE" and "épargne") stay distinct, so `Analytics.MergePicker` and `Analytics.MergePickerOutcome` list two picker entries where the GET /filters merge of the source lists one.
- DashboardCharts.PostChartType: only 'A'..'Z' are lowered, so a type that lowers to an allowed one only under full Unicode mapping (the Kelvin sign U+212A lowers to "k") is a 400 in `DashboardCharts.CreateChartOutcome` and `DashboardCharts.UpdateChartOutcome` where the source accepts it.
- NamedDocs.FindMatch: the `^name$` duplicate checks of the account and strategy routes, and `TradesRoute.FindRefByName` for trade links, compare non-ASCII letters exactly, so a name differing from a stored one only in a non-ASCII case pair is not a 409 (or not a link) in the model while it is in the source.
- TradeIds.ParseTradeIdNumber: `parseInt` and `Number` return doubles, so trade numbers above 2^53 (9007199254740992) are rounded in the source; the model reads every digit run as an exact integer. `TradeIds.NextTradeIdIsFresh`, `TradeIds.SeedTradeIdsFresh`, `SeedDummyTrades.SeedNextTradeNumber` and `SeedDummyTrades.SeededIdsFresh` therefore hold in the model for all stored ids, while in the source they hold only when every stored trade number is below 2^53 (a stored "TRD-9007199254740992" makes `2^53 + 1` round back to the stored number, so the suggested and seeded ids repeat it).
- The order of an object's integer-like keys, which JavaScript lists first, is not modelled. Keys keep insertion order.
- The ordering of a sort whose comparator returns NaN is not modelled: an unparseable start time sorts as time 0 in the equity series and in `buildPnLSeries`.
- React state, hooks, localStorage, rendering, theme, modals and image preview URLs: only the values that the components compute are modelled.
- `getTagColor` and `ensureTagInPool` in `frontend/src/App.tsx` are not part of this model. They only choose a display colour and keep a suggestion list for the UI.
- `topSetupsLabel` in `frontend/src/App.tsx` and the per-session and per-setup charts of the dashboard are not part of this model. The session rollup is modelled on the back end in `Analytics`.
- The `*Dashboard` copies of the dashboard memos in `frontend/src/App.tsx` repeat the modelled ones over other selects, so they are not modelled separately.
- `formatCompact` and other display formatting are not part of this model.
- Seeding script: the random draws, `insertMany`, and the `ensureAccounts`/`ensureStrategies` lookups are parameters or are left out. The seeded trades' expected risk:reward value is rounded but not characterised further.
- The thin fetch wrappers of the front end (`client.ts`, `accounts.ts`, `strategies.ts`, `tags.ts`, `analytics.ts`, `dashboardCharts.ts`) and the one-off maintenance scripts are not part of this model.
- TradeForm.ComputeRiskReward: the form writes `rr.toFixed(3)`; the model returns the exact ratio and does not apply the 3-decimal rounding or the conversion to text.
- TradeForm.Pnl: the form writes `raw.toFixed(3)`; the model returns the exact profit and does not apply the 3-decimal rounding or the conversion to text.
- Analytics.SessionStats: a session named after an `Object.prototype` member gets no entry, as in the source, but the side effect of the source's increments on those inherited members (for `__proto__`, on `Object.prototype` itself) is not modelled.
- ImportExport.ExportTrades: its contract does not state that the rows are the exports of exactly the stored trades (a permutation). It states the row count, the order and each row's tag cell.
- DashboardStats.ComputeStats: its contract states only the bound on the win-rate denominator. The per-figure facts are those of `StatsOf`, applied to the scoped lists that `ComputeStats` builds.

## Findings

| source | as written | input that shows it | evidently intended | confidence | as-written member | corrected member |
|---|---|---|---|---|---|---|
| frontend/src/App.tsx:807-854 | `parseNumber` returns `Number(value)`, and `Number("")` is 0, so a blank field reads as 0 rather than as missing | a Long trade with entry 100, exit 110 and an empty lot size gets pnl 0 instead of 10 (the `?? 1` default never applies); with an empty exit price it gets −100 instead of "" | a blank field is missing: a blank lot size defaults to 1, and a blank price leaves the derived fields empty | not executed | `TradeForm.BlankFieldsReadAsZero` | `TradeForm.AutoFillIntendedBlanks` |
