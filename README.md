# Weather alert formatter

This project models the alert formatter of a small weather server written in
TypeScript. The file src/index.ts defines a request helper for the US National
Weather Service API and an MCP server object. It registers no tool and connects
no transport, so nothing calls either the helper or the formatter. Its one
piece of real logic is `formatAlert`. The function takes one alert feature, whose properties
`event`, `areaDesc`, `severity`, `status` and `headline` are all optional
strings. It renders them as a fixed six-line block:

```
Event: <event or Unknown>
Area: <areaDesc or Unknown>
Severity: <severity or Unknown>
Status: <status or Unknown>
Headline: <headline or No headline>
---
```

The lines are joined with `"\n"`, and no newline follows the last one.
The defaults come from JavaScript's `||`. So a property that is present but
equal to `""` gets its placeholder, just like an absent one.

Files:

- `wrappers.dfy` (module `Wrappers`): `Option`. `None` stands for a property
  that is `undefined` or `null`; both fall through `||` to the placeholder.
- `text.dfy` (module `Text`): `Join`, which models `Array.prototype.join`.
  It also has `Split`, a model of `String.prototype.split` with a one-character
  separator. The formatter never calls `Split`. It is defined only to state
  that the output splits back into its lines. `SplitJoin` and `JoinSplit`
  prove that it inverts `Join`.
- `alerts.dfy` (module `Alerts`): the datatypes `AlertFeature` and
  `AlertProperties`, which model the `AlertFeature` interface of
  src/index.ts:28-36 (a required `properties` object with five optional
  strings). It also holds `Present` (the `field || default` idiom), the
  `Labels` and `Placeholders` tables, `Line` and `AlertLines` (the array
  literal built from those tables), `FormatAlert`, and the lemmas about them.

## Model

| member | source | states |
|---|---|---|
| `Alerts.Present` | src/index.ts:67-71 | JavaScript's or-default on strings: an absent or empty field yields the default, a non-empty one yields its own value, and the result is never empty when the default is not |
| `Alerts.AlertLines` | src/index.ts:66-72 | the joined array has exactly six elements and the last one is the literal `---`; the first five are label `i` followed by field `i` or its placeholder, taken from the `Labels` and `Placeholders` tables |
| `Alerts.FormatAlert` | src/index.ts:63-74 | total, with no precondition: every record, including one with all fields absent, is rendered; the output ends with `"\n---"`, so the last line is `---` and its last character is not a newline. The rest of its contract is carried by `FormatAlertLayout`, `FormatAlertLines` and `EmptyIsAbsent` |
| `Alerts.FormatAlertLayout` | src/index.ts:63-74 | the exact output: the six lines in the order Event, Area, Severity, Status, Headline, `---`, with one `"\n"` between neighbours and none at either end |
| `Alerts.FormatAlertLines` | src/index.ts:66-73 | when no field contains `"\n"`, splitting the output on `"\n"` gives back exactly the six lines, so there are six pieces |
| `Alerts.AbsentRendersPlaceholder` | src/index.ts:67-71 | an absent or empty field renders as its label followed by its placeholder: `Unknown` for the first four fields, and `Headline: No headline` for the headline |
| `Alerts.PresentRendersVerbatim` | src/index.ts:67-71 | a present non-empty value appears unchanged right after its label |
| `Alerts.FieldOnlyAffectsOwnLine` | src/index.ts:67-72 | two records that agree on field `i` render the same line `i`; the separator line is the same for all records |
| `Alerts.Normalized` | src/index.ts:67-71 | the record with every `""` field replaced by an absent one: no field is `""`, every field is falsy exactly when it was falsy before, and every truthy field is kept unchanged |
| `Alerts.EmptyIsAbsent` | src/index.ts:67-71 | a record and its normalized form render identically, so a `""` field is treated exactly like an absent one |
| `Alerts.AllAbsentBlock` | src/index.ts:63-74 | the formatter is total; with every field absent it yields the all-placeholder block |
| `Text.Join` | src/index.ts:73 | joining no elements gives `""` |
| `Text.JoinSix` | src/index.ts:66-73 | six joined elements are the elements with one separator between each pair of neighbours |
| `Text.JoinEndsWithLast` | src/index.ts:73 | a non-empty join ends with its last element, with nothing appended after it |
| `Text.Split` | src/index.ts:73 | splitting always yields at least one piece, and no piece contains the separator |
| `Text.SplitJoin` | src/index.ts:73 | when no element contains the one-character separator, splitting the join gives back exactly the elements |
| `Text.JoinSplit` | src/index.ts:73 | for every string, joining its pieces with the separator gives back the string; with `SplitJoin` this makes `Split` and `Join` inverses on lists whose elements hold no separator |

## Left out

- `makeWeatherServiceRequest` (src/index.ts:8-26) is not modelled. It is an async network `fetch` with HTTP status handling and console logging, and it has no logic to prove.
- The `McpServer` construction and the SDK and `zod` imports (src/index.ts:1-3, 76-79) are not modelled. They wrap external libraries whose code is not part of this model.
- The constants `WEATHER_API_BASE` and `USER_AGENT` (src/index.ts:5-6) are configuration with no behaviour, so they are not modelled.
- `ForecastPeriod`, `AlertsResponse`, `PointsResponse` and `ForecastResponse` (src/index.ts:38-61) are type declarations only. src/index.ts ends with the `McpServer` construction, registers no tool and formats no forecast period, so nothing here uses them.
- JSON decoding and the lack of schema validation belong to the runtime. The model takes the decoded record as given. `None` covers a property that is `undefined` or `null`. A property holding a number, boolean or object at run time is outside `Option<string>`.
- `AlertFeature.properties` is a required field, as the TypeScript type says. A feature without `properties` would throw in the source and cannot be built here.
- Strings are sequences of characters. JavaScript's UTF-16 code units are not modelled, and neither is `split` with a separator longer than one character.
