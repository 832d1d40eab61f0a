# parse1337 — a verified model of the NIK form page, the visitor tally and the battery indicator

parse1337 is a small Next.js application. Its page takes an Indonesian
national identity number (NIK) and sends it to a decoding endpoint. Around
the form it shows a theme toggle, a battery indicator and a visitor counter.
The counter is fed by an in-memory tally behind `/api/visitors`.

This project models the logic of those pieces in Dafny and proves what they promise:

- `visitors.dfy` (module `Visitors`): the process-wide visitor list as a class
  `VisitorStore` with a `seq<Record>` field. `Post` appends one record, using
  fallback chains for the address, the user agent and the page. A body that
  fails to parse leaves the list unchanged. `Get` returns the pure statistics
  `StatsOf`: the total, the number of distinct addresses, the number of visits
  today and the last ten records, newest first. Lemmas relate the statistics
  before and after an append.
- `nik_form.dfy` (module `NikForm`): `formatNIK` (strip non-digits, keep at
  most 16), the submit-enabled condition, `cycleTheme` (light → dark →
  system → light) and `getThemeIcon`. React state setters are next-state functions.
- `battery.dfy` (module `BatteryStatus`): the battery indicator, that is the
  colour and the icon of a battery reading, with thresholds at 20 and 50 and
  charging taking precedence. An unsupported battery shows "N/A".
- `wrappers.dfy` (module `Wrappers`): `Option` and JavaScript's `||` over
  optional strings, where the empty string is falsy.

Clock readings are parameters. A timestamp is an abstract `Instant`. The calendar
day of an instant is an injected function `dayOf`, and the "today" of a GET is
`dayOf(now)`. Header values and the platform's client address are
`Option<string>` inputs of the request. The battery level is an integer percentage.

POST answers `success: false` and appends nothing when `request.json()`
throws, and also when the body is JSON `null`, because destructuring `null`
throws (app/api/visitors/route.ts:30-32, 46-47).

## Model

| member | source | states |
|---|---|---|
| Wrappers.Truthy | app/api/visitors/route.ts:34-35 | no contract: JavaScript truthiness of `string \| null \| undefined`, false for an absent value and for the empty string |
| Wrappers.FirstTruthy | app/api/visitors/route.ts:34-35 | `a \|\| b \|\| … \|\| fallback`: the result is the first candidate that is present and non-empty, with every earlier one falsy; it is the fallback when none is; it is never empty unless it is the fallback |
| Visitors.IpOf | app/api/visitors/route.ts:34 | the recorded address is never empty, and it is either "unknown" or one of the client address, x-forwarded-for and x-real-ip |
| Visitors.UserAgentOf | app/api/visitors/route.ts:35 | the recorded user agent is never empty, and it is either "unknown" or the user-agent header |
| Visitors.PageOf | app/api/visitors/route.ts:42 | the recorded page is never empty, and it is either "/" or the body's `page` |
| Visitors.RecordOf | app/api/visitors/route.ts:34-43 | the stored address is the client address, else x-forwarded-for, else x-real-ip (each only if non-empty), else "unknown"; the user agent falls back to "unknown"; the page is "/" when missing or empty; the timestamp is the clock reading; no stored field is empty |
| Visitors.IpSet | app/api/visitors/route.ts:14 | `new Set(visitors.map(v => v.ip))`: every record's address is in the set |
| Visitors.IpSetMembers | app/api/visitors/route.ts:14 | an address is in the set of `visitors.map(v => v.ip)` exactly when some record carries it |
| Visitors.IpSetBound | app/api/visitors/route.ts:14 | the number of distinct addresses is at most the number of records, and at least 1 when there is a record |
| Visitors.DayPositionsStep | app/api/visitors/route.ts:15-19 | the number of positions dated today in a non-empty list is the number in the list without its last record, plus one exactly when that record is dated today |
| Visitors.OnDay | app/api/visitors/route.ts:15-19 | the filter keeps only records dated today, keeps every record dated today, adds nothing, and its length is the number of positions of the list that hold a record dated today, so repeated identical records are each counted |
| Visitors.Reverse | app/api/visitors/route.ts:25 | `reverse()` keeps the length; ReverseIndex gives each position |
| Visitors.ReverseIndex | app/api/visitors/route.ts:25 | position k of a reversed sequence holds the element k places from its end |
| Visitors.Recent | app/api/visitors/route.ts:25 | `slice(-10).reverse()` has min(10, n) records and position k holds record n-1-k, so the newest comes first |
| Visitors.StatsOf | app/api/visitors/route.ts:11-27 | total is the list length; unique is the number of distinct addresses among the records, 0 ≤ unique ≤ total, and unique is 0 exactly when the list is empty; today is the number of positions holding a record dated today, so today ≤ total; recent is the last min(10, total) records, newest first |
| Visitors.UniqueAfterAppend | app/api/visitors/route.ts:14 | appending a record adds one distinct address exactly when no earlier record has its address |
| Visitors.TodayAfterAppend | app/api/visitors/route.ts:15-19 | appending a record adds one visit today exactly when it is dated today |
| Visitors.RecentAfterAppend | app/api/visitors/route.ts:25 | after an append, recent is the new record followed by the previous recent records, cut to ten |
| Visitors.StatsAfterAppend | app/api/visitors/route.ts:11-43 | after one append: total grows by one; unique grows by one exactly when the address was not seen before; today grows by one exactly when the record is dated today; recent is the new record followed by the previous recent, cut to ten |
| Visitors.ThreeVisitsTwoAddresses | app/api/visitors/route.ts:13-14 | three visits whose addresses take exactly two distinct values, in any arrangement, give a total of 3 and 2 distinct visitors |
| Visitors.VisitorStore.constructor | app/api/visitors/route.ts:4-9 | the list starts empty |
| Visitors.VisitorStore.Post | app/api/visitors/route.ts:29-49 | success exactly when the body parses to a JSON value other than null; then exactly one record is appended at the end and the earlier records are unchanged; on failure the list is unchanged |
| Visitors.VisitorStore.Get | app/api/visitors/route.ts:11-27 | returns the statistics of the current list for the day of `now` and modifies nothing, so two GETs with no POST between them agree on total, unique and recent, and also on today when their `now` falls on the same day |
| Visitors.PostThenGet | app/api/visitors/route.ts:11-49 | a GET after a successful POST counts the new record and lists it first in recent; after a failed POST the list and the total are unchanged |
| NikForm.Digits | app/page.tsx:83 | `replace(/\D/g, "")` returns only ASCII digits and is no longer than its input |
| NikForm.DigitsAppend | app/page.tsx:83 | stripping non-digits distributes over concatenation, so the digits keep their original order |
| NikForm.DigitsCounts | app/page.tsx:83 | each digit occurs in the result as often as in the input, and every other character is dropped |
| NikForm.DigitsOfDigitString | app/page.tsx:83 | a string made only of digits is left unchanged |
| NikForm.FormatNik | app/page.tsx:81-86 | the result is all digits, at most 16 long, a prefix of the input's digits, and exactly min(16, number of digits) long |
| NikForm.FormatNikKeepsShortInput | app/page.tsx:85 | an input with at most 16 digits keeps all of them |
| NikForm.FormatNikFixesFormatted | app/page.tsx:81-86 | a string of at most 16 digits is unchanged by formatting |
| NikForm.FormatNikIdempotent | app/page.tsx:81-86 | formatting twice is the same as formatting once |
| NikForm.FormatNikExtends | app/page.tsx:88-91 | appending characters at the end of the input only extends the field's value; what it held stays a prefix |
| NikForm.OnNikChange | app/page.tsx:88-91 | after a change event the field holds only digits, at most 16, and a further change event with the field's own value leaves it unchanged |
| NikForm.SubmitEnabled | app/page.tsx:187 | no contract: enabled exactly when no request is loading and the field holds 16 characters; SubmitSendsSixteenDigits states what this means for the value sent |
| NikForm.SubmitSendsSixteenDigits | app/page.tsx:185-188 | with the field set by the change handler, submit is enabled exactly when no request is loading and the input has at least 16 digits; an enabled submit sends 16 digits, the first 16 of the input; the field's initial empty value cannot be submitted |
| NikForm.CycleTheme | app/page.tsx:106-114 | light goes to dark, dark goes to system, and every other value (system, unknown, undefined) goes to light |
| NikForm.CycleHasPeriodThree | app/page.tsx:106-114 | one click always lands on light, dark or system, and three clicks from any of those return to it |
| NikForm.CycleInjective | app/page.tsx:106-114 | on light, dark and system, distinct themes go to distinct themes, so the toggle visits all three |
| NikForm.ThemeIconOf | app/page.tsx:93-104 | a monitor before mounting; once mounted, a sun exactly for light, a moon exactly for dark, otherwise a monitor |
| NikForm.IconFollowsCycle | app/page.tsx:93-114 | once mounted, a click moves the icon one step along sun → moon → monitor → sun, whatever the current theme |
| BatteryStatus.ColorOf | components/battery-status.tsx:70-75 | never grey; red exactly when not charging and the level is ≤ 20; yellow exactly when not charging and 20 < level ≤ 50; green exactly when charging or the level is > 50 |
| BatteryStatus.IconOf | components/battery-status.tsx:64-68 | a plug exactly when charging; the low-battery icon exactly when not charging and the level is ≤ 20; otherwise the plain battery |
| BatteryStatus.Render | components/battery-status.tsx:55-83 | unsupported: a grey plain battery with "N/A" and no charging note; supported: the colour and icon above, the level in percent, and the charging note exactly when charging |
| BatteryStatus.UnsupportedIgnoresReading | components/battery-status.tsx:55-62 | any two unsupported readings look the same and show "N/A", whatever their level and charging flag |
| BatteryStatus.InitialShowsNotAvailable | components/battery-status.tsx:13-17 | the starting state (level 0, not charging, unsupported) shows "N/A" with the plain battery |
| BatteryStatus.RedIffLowIcon | components/battery-status.tsx:64-75 | on a supported reading the colour is red exactly when the icon is the low-battery one |
| BatteryStatus.ChargingIgnoresLevel | components/battery-status.tsx:64-75 | while charging the indicator is green with a plug and the charging note, whatever the level |
| BatteryStatus.SeverityAntitone | components/battery-status.tsx:70-75 | when not charging, a lower level is never shown as less alarming (green < yellow < red) than a higher one |

## Left out

- The NIK decoding endpoint `/api/nik/parse`: its code is not part of this model. The page only calls it (app/page.tsx:57) and documents it. Sex, birth date, region, zodiac, age and market-day derivation are therefore not modelled.
- Network and transport: `fetch`, `response.json()`, `NextResponse.json` and HTTP status codes. The client address and the headers are `Option<string>` inputs. The body is given as its parse outcome.
- Non-string `page` values: a JSON body whose `page` is a number, a boolean or an object is outside the model. `page` is an optional string here.
- Timestamp formatting: `toISOString()` and `toDateString()` depend on the clock and the time zone. They are replaced by an abstract instant and an injected day function.
- Visitors.StatsOf: the code reads the clock again for each record it filters. The model samples "today" once per GET, so a GET that straddles midnight is not modelled.
- Concurrent POSTs: the module-level array has no synchronisation, so appends are modelled as sequential.
- The Battery Status API (`navigator.getBattery`, event listeners) and the float rounding `Math.round(level * 100)`. The level is an integer input.
- The browser's `maxLength={16}` on the input (app/page.tsx:181). The browser cuts an edit or a paste to 16 characters before the change handler sees it, so a pasted "3201-0101-5090-0001" arrives as "3201-0101-5090-0" and gives 13 digits. The model does not make that cut: the `input` of NikForm.SubmitSendsSixteenDigits stands for the value after it.
- React rendering, hooks, next-themes persistence, the clipboard, and the `if (!mounted) return null` early return of the page.
- components/clock.tsx: it only wraps locale time and date formatting on a timer.
- components/visitor-counter.tsx: it only fetches and polls every 30 seconds.
