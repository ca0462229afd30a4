# raycast-toshl: a Dafny model of the expense list, the expense form and the date window

The raycast-toshl extension lists the last week of Toshl expense entries and
lets the user add, edit and delete them. This project models the parts of it
that compute something:

- **Records** (`records.dfy`): the `Entry`, `Category` and `Tag` shapes of
  `src/utils/helper.ts`, and the HTTP requests the extension sends.
- **Calendar** (`calendar.dfy`): proleptic Gregorian dates, shown as day
  numbers. It models the rollover of JavaScript's `Date.setDate` and the
  `en-CA` `YYYY-MM-DD` form (the ISO 8601 calendar date in extended format,
  section 5.2.1.1 of ISO 8601:2004). It also has a parser for that form.
  Lexicographic string order matches date order.
- **Helper** (`helper.dfy`): `getDateRange`. It gives the window from seven
  days before today up to today.
- **Expenses** (`expenses.dfy`): the list view of `src/expenses.tsx`. This
  covers:
  - grouping fetched entries by date string, in first-seen order;
  - section totals and the "Today" title;
  - category and tag label lookup, with a fallback to the raw id;
  - the loading / empty / sections state;
  - a `ListView` class whose `FetchData` and `HandleDelete` methods update
    the component state and log the requests sent.
- **AddExpense** (`add_expense.dfy`): the form of `src/addExpense.tsx`. This
  covers:
  - required-field validation and the entry body;
  - the choice between PUT and POST, and the URL;
  - the 200/201 success gate and the UI effects of a successful answer;
  - the field values after those effects;
  - the default values and the loading condition.
- **Util** (`util.dfy`): `Option`, a first-match search (`find`), and
  order-preserving de-duplication (`Array.from(new Set(...))`).

The clock, the network, Raycast's UI and the HTTP status are outside the
model. Three things come in as parameters or inputs from outside:

- today's local date;
- the fetched lists;
- the HTTP status code.

Three behaviours of the code that a reader might not expect. The model
states each of them:

- A refresh (after delete or after the edit screen closes) does not put the
  list back into the loading state. `fetchData` never sets `data` to
  `undefined`, so the old groups stay until the new ones replace them.
- After a successful create, only amount, category, tags and description are
  reset. The date picker has no ref and keeps its value.
- An unchanged edit does not always resend the entry. If the entry has an
  empty description or no tags, validation reports that field and no PUT is
  sent. If it has no category, the form starts from the "Food" default, and
  the PUT carries that category. When no category name starts with "Food",
  or the first one that does has an empty id, there is no default: the
  category field is reported missing and nothing is sent
  (`AddExpense.EditWithGaps`).

## Model

| member | source | states |
|---|---|---|
| Util.FindFirst | src/expenses.tsx:93 | the first index whose element satisfies the predicate, and none exactly when no element does |
| Util.Distinct | src/expenses.tsx:26 | de-duplication keeps exactly the values of the input, each once |
| Util.DistinctKeepsFirstSeenOrder | src/expenses.tsx:26 | `Array.from(new Set(xs))` lists values in the order of their first occurrence in `xs` |
| Expenses.EntriesOn | src/expenses.tsx:31 | the filter keeps every entry with the date, as often as it occurs, and no other entry |
| Expenses.GroupKeys | src/expenses.tsx:26-33 | group keys are pairwise distinct, each is a fetched date, and every fetched date is a key |
| Expenses.GroupsInFirstSeenOrder | src/expenses.tsx:26 | groups come in the order in which their dates first occur in the fetched list |
| Expenses.EntryInExactlyOneGroup | src/expenses.tsx:26-33 | each fetched entry is in the group keyed by its date and in no other group |
| Expenses.EntriesOnIsSubsequence | src/expenses.tsx:31 | a filtered group keeps the fetched order of its entries |
| Expenses.GroupsNonEmptyAndOrdered | src/expenses.tsx:29-32 | every group is non-empty, holds only entries of its date, and is a subsequence of the fetched list |
| Expenses.SumAbs | src/expenses.tsx:70 | the `reduce` of absolute amounts is non-negative |
| Expenses.SumAbsConcat | src/expenses.tsx:70 | the sum of absolute amounts over a concatenation is the sum of the two parts |
| Expenses.SplitOffKey | src/expenses.tsx:26-33 | proof step about the auxiliary key filter `EntriesIn`: the entries of one key plus the entries of a disjoint key list are the entries of the combined list |
| Expenses.GroupsForCover | src/expenses.tsx:28-33 | the groups for distinct keys together hold exactly the entries whose date is a key, and their totals add up to those entries' sum |
| Expenses.SumSizesFlatten | src/expenses.tsx:28-33 | proof step about the auxiliary `Flatten`: the group sizes add up to the length of all groups' entries put together |
| Expenses.EntriesInNone | src/expenses.tsx:31 | proof step about the auxiliary key filter `EntriesIn`: the empty key list selects no entry |
| Expenses.EntriesInAll | src/expenses.tsx:31 | proof step about the auxiliary key filter `EntriesIn`: when every date is a key, every entry is selected, in order |
| Expenses.GroupsPartitionEntries | src/expenses.tsx:26-33 | the groups hold each fetched entry exactly as often as the fetched list, so group sizes add up to its length |
| Expenses.GroupTotals | src/expenses.tsx:70 | each subtitle total is at least 0, and all totals add up to the sum of absolute amounts over the fetched entries |
| Expenses.TodayTitleMatchesWindowEnd | src/expenses.tsx:61-62 | a section is titled "Today" exactly when its key equals the `to` string of the date window, and otherwise it keeps its date |
| Expenses.LabelForRule | src/expenses.tsx:93 | the label is the name of the first element with the id if that name is non-empty, and otherwise the id |
| Expenses.CategoryLabelRule | src/expenses.tsx:93 | the category label follows the first-match rule, with the raw id as fallback |
| Expenses.TagLabelsRule | src/expenses.tsx:98-101 | one tag label per tag id, in the entry's order, each following the same rule |
| Expenses.RowAmount | src/expenses.tsx:79 | the row shows \|amount\|, which is non-negative, and equals `-amount` for an expense |
| Expenses.ScreenStates | src/expenses.tsx:52-54 | loading exactly without data; the empty view exactly for zero groups; the detail pane exactly when there is at least one section |
| Expenses.SectionsOfGroups | src/expenses.tsx:57-70 | one section per group, in order, keyed and titled by its date and carrying its total |
| Expenses.GroupCount | src/expenses.tsx:26-33 | there are no groups exactly when no entries were fetched |
| Expenses.AtMostOneToday | src/expenses.tsx:57-62 | with distinct group keys, at most one section is titled "Today" |
| Expenses.FetchedScreen | src/expenses.tsx:52-62 | after a fetch, the empty view shows exactly when no entries came back, and at most one section is titled "Today" |
| Expenses.ListView.constructor | src/expenses.tsx:7-11 | the initial state: the window computed from today, no categories or tags, `data` undefined, nothing sent |
| Expenses.ListView.FetchData | src/expenses.tsx:13-34 | sends the categories, tags and entries-in-window requests, and stores the fetched lists and the date grouping |
| Expenses.ListView.HandleDelete | src/expenses.tsx:40-48 | sends the DELETE and then refreshes, whatever HTTP status comes back |
| Calendar.NormalizeCorrect | src/utils/helper.ts:68 | `setDate(k)` rollover gives a valid date `k - 1` days after the first of the month |
| Calendar.DayNumberOrder | src/utils/helper.ts:68 | day numbers order dates chronologically and tell different dates apart |
| Calendar.IsoOrder | src/utils/helper.ts:69 | `YYYY-MM-DD` strings compare like their dates do |
| Calendar.IsoRoundTrip | src/utils/helper.ts:69 | parsing a formatted date gives the date back |
| Calendar.ParseIsoCanonical | src/addExpense.tsx:167 | a string that parses as a date is that date's canonical `YYYY-MM-DD` form |
| Helper.LastWeekIsSevenDaysEarlier | src/utils/helper.ts:66-68 | the start of the window is a valid date exactly seven day numbers before today |
| Helper.LastWeekCalendar | src/utils/helper.ts:68 | minus seven stays in the month from the 8th on, and rolls into the previous month (and year, in January) before that |
| Helper.DateRangeWellFormed | src/utils/helper.ts:65-70 | both ends parse back to their dates, `to` is today's string, and `from < to` as strings |
| Helper.DateRangeHoldsEightDays | src/utils/helper.ts:65-70 | as strings, the window holds exactly the dates from seven days ago up to today |
| AddExpense.HandleSubmit | src/addExpense.tsx:70-118 | an empty required field gives errors and no request; otherwise it sends the body with PUT or POST and gives the effects of the status |
| AddExpense.RequiredFields | src/addExpense.tsx:112-118 | a submission passes validation exactly when all five fields are filled in, and each field is reported exactly when it is empty |
| AddExpense.BodyFromForm | src/addExpense.tsx:71-85 | the amount is negated; category, tags and description are copied; the currency is MYR; the date reads back as the picked date; `id` and `modified` are set only when editing |
| AddExpense.RequestTarget | src/addExpense.tsx:87-88 | PUT to `/entries/{id}` when editing, POST to `/entries/` when creating |
| AddExpense.SuccessGate | src/addExpense.tsx:95-110 | effects come only for status 200 or 201; an edit pops; a create resets four fields (not the date) and then focuses amount |
| AddExpense.FieldsAfterSubmit | src/addExpense.tsx:101-109 | after the answer, only a successful create changes the fields: amount, category, tags and description go back to their defaults |
| AddExpense.CreateSuccessClearsForm | src/addExpense.tsx:104-108 | after a successful create, amount, tags and description are empty, category is the "Food" default, and the date is kept |
| AddExpense.CategoryDefaultRule | src/addExpense.tsx:141 | the default category is the entry's non-empty category, else the first "Food…" category id, else none |
| AddExpense.LoadingRule | src/addExpense.tsx:128 | the form loads exactly while the category or the tag list is empty |
| AddExpense.EditWithGaps | src/addExpense.tsx:112-118 | for an entry with an empty description or no tags, the unchanged edit form reports that field and sends nothing; an entry with no category gets the "Food" default, which the PUT then carries |
| AddExpense.EditRoundTrip | src/addExpense.tsx:134-167 | an unchanged edit form passes validation and sends `-|amount|` (the original amount when it was at most 0), with the entry's id, modified, tags, description, category and date, as a PUT |

## Left out

- Network I/O: `fetch`, the bearer token taken from preferences, and JSON
  decoding of responses. The fetched lists and the HTTP status are
  parameters. Failures are not modelled. If a DELETE fails at the network
  level, `await fetch` throws and no refresh follows. If any of the three
  refresh requests fails at the network level, the `Promise.all` throws
  before any state is set, so categories, tags and `data` all stay as they
  were. If the entries response arrives but its body is not JSON or not an
  array, `response.json()` or `data.map` throws after categories and tags
  are already set, and `data` stays as it was.
- `getCategories` and `getTags` (src/utils/helper.ts:42-63). They are only
  requests (`CategoriesRequest`, `TagsRequest`) followed by a JSON decode.
- The form's `LocalStorage` cache and its background sync
  (src/addExpense.tsx:33-67). Storage is external, and the two tasks run with
  no defined order. The category and tag lists are parameters.
- Raycast rendering, navigation and toasts. Toast, pop, reset and focus are
  recorded as `Effect` values. The sync failure toast is not modelled.
- React hooks as a mechanism. Only the resulting state values are kept.
- `Number(values.amount)` parsing, including `NaN`. The form amount is the
  number it denotes, or none when the field is empty.
- `toFixed(2)` rounding. Amounts are reals, and totals are stated before
  formatting.
- Expenses.SectionTitle: the locale weekday form of other dates
  (src/expenses.tsx:63-68) is not produced. That title keeps the date string.
- Time zones. `new Date(values.date)` and `new Date(data.date)` are
  modelled as the local calendar date the picker shows or the string names.
  The UTC reading of a date-only string is not modelled.
- Helper.DateRange: `today` and `lastWeek` come from one `Date`. The code
  calls `new Date()` twice, so a run across midnight is not covered.
- Expenses.ListView: overlapping refreshes are not modelled. The code never
  awaits `fetchData()` (on mount, after a delete, on return from the edit
  screen), so two refreshes can be in flight at once, and their `setData`
  calls land in the order the responses arrive. An older refresh can then
  overwrite a newer one. In the model each refresh is one step that ends in
  the state of its own fetched lists.
- AddExpense.HandleSubmit: `ShowErrors` is the validation result that
  `useForm` records. Whether the form displays it is not modelled; the
  fields are not given the `error` prop.
- Expenses.ListView: `today`, `from` and `to` are fixed when the view is
  built. In the code, `getDateRange()` and the "Today" comparison run again
  on every render, and a refresh uses the latest render's window. So after
  midnight the code asks for a new window, and the model does not.
- Helper.DateRange: years below 1 are excluded, because their window could
  start before year 0. Years above 9999 are excluded, because they have five
  digits. For years 1 to 999 the model pads the year with zeros to four
  digits; how the `en-CA` locale writes such years is not modelled.
- AddExpense.Defaults: an edited entry with a malformed date string gives
  no default date. JavaScript would give an invalid `Date`.
- The Edit action's `onPop={fetchData}` (src/expenses.tsx:119). It is the
  same refresh as `ListView.FetchData`.
