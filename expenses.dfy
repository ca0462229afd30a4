/** The list view of src/expenses.tsx: fetched entries are grouped by their
    date string, each group becomes a section with a total and a title, each
    entry a row whose detail resolves category and tag ids to names, and the
    screen is loading, empty, or a list of sections. Deleting an entry sends
    the DELETE and then refreshes, whatever the answer. */
module Expenses {
  import opened Util
  import opened Records
  import opened Calendar
  import Helper

  /** One element of the `data` state: a date and the entries on it. */
  datatype Group = Group(date: string, entries: seq<Entry>)

  /** `data.map((entry) => entry.date)`. */
  function DatesOf(data: seq<Entry>): seq<string>
  {
    seq(|data|, i requires 0 <= i < |data| => data[i].date)
  }

  /** `data.filter((entry) => entry.date === d)`: every entry dated `d`, as
      often as it occurs in `data`, and no other. */
  function EntriesOn(data: seq<Entry>, d: string): (r: seq<Entry>)
    ensures forall e :: multiset(r)[e] == if e.date == d then multiset(data)[e] else 0
    ensures forall e :: e in r <==> e in data && e.date == d
  {
    if |data| == 0 then []
    else
      assert data == [data[0]] + data[1..];
      (if data[0].date == d then [data[0]] else []) + EntriesOn(data[1..], d)
  }

  /** `dates.map((d) => ({ date: d, entries: data.filter(...) }))`. */
  function GroupsFor(data: seq<Entry>, keys: seq<string>): seq<Group>
  {
    seq(|keys|, i requires 0 <= i < |keys| => Group(keys[i], EntriesOn(data, keys[i])))
  }

  /** The grouping `fetchData` stores in `data`: one group per distinct date,
      in the order of `Array.from(new Set(...))`. */
  function GroupByDate(data: seq<Entry>): seq<Group>
  {
    GroupsFor(data, Distinct(DatesOf(data)))
  }

  /** `entries.reduce((acc, cur) => acc + Math.abs(cur.amount), 0)`. */
  function SumAbs(es: seq<Entry>): (r: real)
    ensures r >= 0.0
  {
    if |es| == 0 then 0.0 else Abs(es[0].amount) + SumAbs(es[1..])
  }

  /** The amount in a section's subtitle, before formatting. */
  function Total(g: Group): real
  {
    SumAbs(g.entries)
  }

  function SumTotals(gs: seq<Group>): real
  {
    if |gs| == 0 then 0.0 else Total(gs[0]) + SumTotals(gs[1..])
  }

  function SumSizes(gs: seq<Group>): nat
  {
    if |gs| == 0 then 0 else |gs[0].entries| + SumSizes(gs[1..])
  }

  /** All groups' entries, one group after the other. */
  function Flatten(gs: seq<Group>): seq<Entry>
  {
    if |gs| == 0 then [] else gs[0].entries + Flatten(gs[1..])
  }

  /** The entries whose date is one of `keys`, in their order. */
  function EntriesIn(data: seq<Entry>, keys: seq<string>): seq<Entry>
  {
    if |data| == 0 then []
    else (if data[0].date in keys then [data[0]] else []) + EntriesIn(data[1..], keys)
  }

  // ---------------------------------------------------------------------
  // Display derivation.

  /** A section title: "Today", or the weekday form of the date (the locale
      formatting itself is not modelled, so the title keeps the date). */
  datatype Title = TodayTitle | WeekdayTitle(date: string)

  /** The title expression of a section, with today's local date as the
      value of `new Date()`. */
  function SectionTitle(key: string, today: Date): Title
    requires Representable(today)
  {
    if key == IsoDate(today) then TodayTitle else WeekdayTitle(key)
  }

  /** `xs.find((x) => x.id === id)?.name || id`: the name of the first element
      with this id when there is one and its name is not empty, else the id. */
  function LabelFor<T>(xs: seq<T>, idOf: T -> string, nameOf: T -> string, id: string): string
  {
    match FindFirst(xs, (x: T) => idOf(x) == id)
    case Some(i) => if nameOf(xs[i]) != "" then nameOf(xs[i]) else id
    case None => id
  }

  function CategoryLabel(categories: seq<Category>, id: string): string
  {
    LabelFor(categories, (c: Category) => c.id, (c: Category) => c.name, id)
  }

  function TagLabel(tags: seq<Tag>, id: string): string
  {
    LabelFor(tags, (t: Tag) => t.id, (t: Tag) => t.name, id)
  }

  /** `item.tags.map((tag) => ...)`: one label per tag id, in the entry's order. */
  function TagLabels(tags: seq<Tag>, ids: seq<string>): seq<string>
  {
    seq(|ids|, i requires 0 <= i < |ids| => TagLabel(tags, ids[i]))
  }

  /** The detail pane of a row; amounts before `toFixed(2)`. */
  datatype Detail = Detail(date: string, amount: real, category: string, tags: seq<string>, desc: string)

  datatype Row = Row(title: string, amount: real, detail: Detail)

  datatype Section = Section(key: string, title: Title, total: real, rows: seq<Row>)

  function RowOf(e: Entry, categories: seq<Category>, tags: seq<Tag>): Row
  {
    Row(e.desc, Abs(e.amount),
        Detail(e.date, Abs(e.amount), CategoryLabel(categories, e.category), TagLabels(tags, e.tags), e.desc))
  }

  function SectionOf(g: Group, today: Date, categories: seq<Category>, tags: seq<Tag>): Section
    requires Representable(today)
  {
    Section(g.date, SectionTitle(g.date, today), Total(g),
            seq(|g.entries|, i requires 0 <= i < |g.entries| => RowOf(g.entries[i], categories, tags)))
  }

  /** What the `List` shows as its children. */
  datatype Content = EmptyView(message: string) | SectionList(sections: seq<Section>)

  /** The `List` element: its two flags and its children. */
  datatype ListScreen = ListScreen(isLoading: bool, isShowingDetail: bool, content: Content)

  /** The JSX of `Command` for a value of the `data` state (`None` is
      `undefined`). While loading, `data?.map` renders nothing. */
  function Render(data: Option<seq<Group>>, today: Date, categories: seq<Category>, tags: seq<Tag>): ListScreen
    requires Representable(today)
  {
    var sections :=
      match data
      case None => []
      case Some(gs) => seq(|gs|, i requires 0 <= i < |gs| => SectionOf(gs[i], today, categories, tags));
    ListScreen(
      data.None?,
      data.Some? && |data.value| > 0,
      if data == Some([]) then EmptyView("No expenses found") else SectionList(sections))
  }

  // ---------------------------------------------------------------------
  // Properties of the grouping.

  /** Group keys are pairwise distinct, each is the date of some fetched
      entry, and every fetched entry's date is a key. */
  lemma GroupKeys(data: seq<Entry>)
    ensures var gs := GroupByDate(data);
            && (forall i, j :: 0 <= i < j < |gs| ==> gs[i].date != gs[j].date)
            && (forall i :: 0 <= i < |gs| ==> gs[i].date in DatesOf(data))
            && (forall k :: 0 <= k < |data| ==> exists i :: 0 <= i < |gs| && gs[i].date == data[k].date)
  {
    var dates := DatesOf(data);
    var keys := Distinct(dates);
    var gs := GroupByDate(data);
    forall k | 0 <= k < |data|
      ensures exists i :: 0 <= i < |gs| && gs[i].date == data[k].date
    {
      assert dates[k] == data[k].date;
      assert dates[k] in keys;
      var i := FirstIndex(keys, data[k].date);
      assert gs[i].date == data[k].date;
    }
  }

  /** Groups appear in the order in which their date first occurs among the
      fetched entries. */
  lemma GroupsInFirstSeenOrder(data: seq<Entry>, i: nat, j: nat)
    requires i < j < |GroupByDate(data)|
    ensures GroupByDate(data)[i].date in DatesOf(data) && GroupByDate(data)[j].date in DatesOf(data)
    ensures FirstIndex(DatesOf(data), GroupByDate(data)[i].date) < FirstIndex(DatesOf(data), GroupByDate(data)[j].date)
  {
    DistinctKeepsFirstSeenOrder(DatesOf(data), i, j);
  }

  /** Every fetched entry lands in exactly one group: the one keyed by its
      date. */
  lemma EntryInExactlyOneGroup(data: seq<Entry>, k: nat)
    requires k < |data|
    ensures var gs := GroupByDate(data);
            && (exists i :: 0 <= i < |gs| && gs[i].date == data[k].date && data[k] in gs[i].entries)
            && (forall i :: 0 <= i < |gs| ==> (data[k] in gs[i].entries <==> gs[i].date == data[k].date))
            && (forall i, j :: 0 <= i < |gs| && 0 <= j < |gs| && data[k] in gs[i].entries && data[k] in gs[j].entries ==> i == j)
  {
    GroupKeys(data);
    assert data[k] in data;
  }

  lemma {:induction false} EntriesOnIsSubsequence(data: seq<Entry>, d: string)
    ensures IsSubsequence(EntriesOn(data, d), data)
  {
    if |data| > 0 {
      EntriesOnIsSubsequence(data[1..], d);
      var r := EntriesOn(data, d);
      if data[0].date == d {
        assert r[0] == data[0] && r[1..] == EntriesOn(data[1..], d);
      } else {
        assert r == EntriesOn(data[1..], d);
      }
    }
  }

  /** Each group is non-empty, holds only entries of its date, and keeps
      them in their fetched order. */
  lemma GroupsNonEmptyAndOrdered(data: seq<Entry>)
    ensures forall g :: g in GroupByDate(data) ==>
              && |g.entries| > 0
              && (forall e :: e in g.entries ==> e.date == g.date)
              && IsSubsequence(g.entries, data)
  {
    var gs := GroupByDate(data);
    forall g | g in gs
      ensures |g.entries| > 0 && IsSubsequence(g.entries, data)
    {
      var i :| 0 <= i < |gs| && gs[i] == g;
      GroupKeys(data);
      var dates := DatesOf(data);
      var k :| 0 <= k < |dates| && dates[k] == g.date;
      assert data[k] in g.entries;
      EntriesOnIsSubsequence(data, g.date);
    }
  }

  lemma {:induction false} SumAbsConcat(a: seq<Entry>, b: seq<Entry>)
    ensures SumAbs(a + b) == SumAbs(a) + SumAbs(b)
  {
    if |a| == 0 {
      assert a + b == b;
    } else {
      assert (a + b)[1..] == a[1..] + b;
      SumAbsConcat(a[1..], b);
    }
  }

  /** Splitting one key off a key list splits the selected entries. */
  lemma {:induction false} SplitOffKey(data: seq<Entry>, k: string, keys: seq<string>)
    requires k !in keys
    ensures multiset(EntriesOn(data, k)) + multiset(EntriesIn(data, keys)) == multiset(EntriesIn(data, [k] + keys))
    ensures SumAbs(EntriesOn(data, k)) + SumAbs(EntriesIn(data, keys)) == SumAbs(EntriesIn(data, [k] + keys))
  {
    if |data| > 0 {
      SplitOffKey(data[1..], k, keys);
      var x := data[0];
      var inK := if x.date == k then [x] else [];
      var inKeys := if x.date in keys then [x] else [];
      var inBoth := if x.date in [k] + keys then [x] else [];
      SumAbsConcat(inK, EntriesOn(data[1..], k));
      SumAbsConcat(inKeys, EntriesIn(data[1..], keys));
      SumAbsConcat(inBoth, EntriesIn(data[1..], [k] + keys));
    }
  }

  lemma {:induction false} GroupsForCover(data: seq<Entry>, keys: seq<string>)
    requires forall i, j :: 0 <= i < j < |keys| ==> keys[i] != keys[j]
    ensures multiset(Flatten(GroupsFor(data, keys))) == multiset(EntriesIn(data, keys))
    ensures SumTotals(GroupsFor(data, keys)) == SumAbs(EntriesIn(data, keys))
  {
    var gs := GroupsFor(data, keys);
    if |keys| == 0 {
      EntriesInNone(data);
    } else {
      var rest := GroupsFor(data, keys[1..]);
      assert gs[1..] == rest;
      assert gs[0] == Group(keys[0], EntriesOn(data, keys[0]));
      assert Flatten(gs) == EntriesOn(data, keys[0]) + Flatten(rest);
      assert SumTotals(gs) == SumAbs(EntriesOn(data, keys[0])) + SumTotals(rest);
      GroupsForCover(data, keys[1..]);
      SplitOffKey(data, keys[0], keys[1..]);
      assert [keys[0]] + keys[1..] == keys;
    }
  }

  lemma {:induction false} SumSizesFlatten(gs: seq<Group>)
    ensures SumSizes(gs) == |Flatten(gs)|
  {
    if |gs| > 0 {
      SumSizesFlatten(gs[1..]);
    }
  }

  lemma {:induction false} EntriesInNone(data: seq<Entry>)
    ensures EntriesIn(data, []) == []
  {
    if |data| > 0 {
      EntriesInNone(data[1..]);
    }
  }

  lemma {:induction false} EntriesInAll(data: seq<Entry>, keys: seq<string>)
    requires forall k :: 0 <= k < |data| ==> data[k].date in keys
    ensures EntriesIn(data, keys) == data
  {
    if |data| > 0 {
      EntriesInAll(data[1..], keys);
      assert data == [data[0]] + data[1..];
    }
  }

  /** The groups partition the fetched entries: together they hold each
      entry as often as the fetched list does, so their sizes add up to its
      length. */
  lemma GroupsPartitionEntries(data: seq<Entry>)
    ensures multiset(Flatten(GroupByDate(data))) == multiset(data)
    ensures SumSizes(GroupByDate(data)) == |data|
  {
    var dates := DatesOf(data);
    var keys := Distinct(dates);
    GroupsForCover(data, keys);
    SumSizesFlatten(GroupByDate(data));
    forall k | 0 <= k < |data| ensures data[k].date in keys {
      assert dates[k] == data[k].date;
    }
    EntriesInAll(data, keys);
    assert multiset(Flatten(GroupByDate(data))) == multiset(data);
    calc {
      SumSizes(GroupByDate(data));
      |Flatten(GroupByDate(data))|;
      |multiset(Flatten(GroupByDate(data)))|;
      |multiset(data)|;
      |data|;
    }
  }

  /** Every subtitle total is non-negative, and the totals of all groups add
      up to the sum of |amount| over all fetched entries. */
  lemma GroupTotals(data: seq<Entry>)
    ensures forall g :: g in GroupByDate(data) ==> Total(g) >= 0.0
    ensures SumTotals(GroupByDate(data)) == SumAbs(data)
  {
    var dates := DatesOf(data);
    var keys := Distinct(dates);
    GroupsForCover(data, keys);
    forall k | 0 <= k < |data| ensures data[k].date in keys {
      assert dates[k] == data[k].date;
    }
    EntriesInAll(data, keys);
  }

  // ---------------------------------------------------------------------
  // Properties of the display.

  /** A section is titled "Today" exactly when its key is the `to` end of the
      fetched window, i.e. today's `YYYY-MM-DD` string; any other section
      keeps its date. */
  lemma TodayTitleMatchesWindowEnd(key: string, today: Date)
    requires Representable(today) && today.year >= 1
    ensures SectionTitle(key, today) == TodayTitle <==> key == Helper.DateRange(today).1
    ensures SectionTitle(key, today) != TodayTitle ==> SectionTitle(key, today) == WeekdayTitle(key)
  {
    Helper.DateRangeWellFormed(today);
  }

  /** The label rule of `find(...)?.name || id`, stated by positions. */
  lemma LabelForRule<T>(xs: seq<T>, idOf: T -> string, nameOf: T -> string, id: string)
    ensures (forall i :: 0 <= i < |xs| ==> idOf(xs[i]) != id) ==> LabelFor(xs, idOf, nameOf, id) == id
    ensures forall i :: 0 <= i < |xs| && idOf(xs[i]) == id && (forall j :: 0 <= j < i ==> idOf(xs[j]) != id) ==>
              LabelFor(xs, idOf, nameOf, id) == if nameOf(xs[i]) != "" then nameOf(xs[i]) else id
  {
    var p := (x: T) => idOf(x) == id;
    var f := FindFirst(xs, p);
    forall i | 0 <= i < |xs| && idOf(xs[i]) == id && (forall j :: 0 <= j < i ==> idOf(xs[j]) != id)
      ensures f == Some(i)
    {
      assert p(xs[i]);
    }
  }

  /** The category label is the name of the first category with the entry's
      category id if that name is non-empty, and the raw id otherwise. */
  lemma CategoryLabelRule(categories: seq<Category>, id: string)
    ensures (forall i :: 0 <= i < |categories| ==> categories[i].id != id) ==> CategoryLabel(categories, id) == id
    ensures forall i :: 0 <= i < |categories| && categories[i].id == id && (forall j :: 0 <= j < i ==> categories[j].id != id) ==>
              CategoryLabel(categories, id) == if categories[i].name != "" then categories[i].name else id
  {
    LabelForRule(categories, (c: Category) => c.id, (c: Category) => c.name, id);
  }

  /** One tag label per tag id, in the entry's order, each following the
      same rule as the category label. */
  lemma TagLabelsRule(tags: seq<Tag>, ids: seq<string>)
    ensures |TagLabels(tags, ids)| == |ids|
    ensures forall k :: 0 <= k < |ids| && (forall i :: 0 <= i < |tags| ==> tags[i].id != ids[k]) ==>
              TagLabels(tags, ids)[k] == ids[k]
    ensures forall k, i :: 0 <= k < |ids| && 0 <= i < |tags| && tags[i].id == ids[k]
                           && (forall j :: 0 <= j < i ==> tags[j].id != ids[k]) ==>
              TagLabels(tags, ids)[k] == if tags[i].name != "" then tags[i].name else ids[k]
  {
    forall k | 0 <= k < |ids| {
      LabelForRule(tags, (t: Tag) => t.id, (t: Tag) => t.name, ids[k]);
    }
  }

  /** A row and its detail pane show the same non-negative amount, |amount|,
      which for a stored expense (amount <= 0) is its negation. */
  lemma RowAmount(e: Entry, categories: seq<Category>, tags: seq<Tag>)
    ensures RowOf(e, categories, tags).amount >= 0.0
    ensures RowOf(e, categories, tags).detail.amount == RowOf(e, categories, tags).amount
    ensures e.amount <= 0.0 ==> RowOf(e, categories, tags).amount == -e.amount
    ensures e.amount >= 0.0 ==> RowOf(e, categories, tags).amount == e.amount
  {
  }

  /** The screen is in exactly one of three states: loading (no data yet),
      the empty view (data with zero groups), or the list of sections, and
      the detail pane shows exactly when there is at least one section. */
  lemma ScreenStates(data: Option<seq<Group>>, today: Date, categories: seq<Category>, tags: seq<Tag>)
    requires Representable(today)
    ensures var s := Render(data, today, categories, tags);
            && (s.isLoading <==> data.None?)
            && (s.content.EmptyView? <==> data == Some([]))
            && (s.isShowingDetail <==> s.content.SectionList? && |s.content.sections| > 0)
            && (s.isLoading ==> s.content == SectionList([]))
            && (data.Some? ==> s.content.SectionList? ==> |s.content.sections| == |data.value|)
            && !(s.isLoading && s.isShowingDetail)
            && !(s.content.EmptyView? && (s.isLoading || s.isShowingDetail))
  {
  }

  /** The sections rendered for a list of groups: one per group, in order,
      keyed and titled by the group's date and carrying its total. */
  lemma SectionsOfGroups(gs: seq<Group>, today: Date, categories: seq<Category>, tags: seq<Tag>)
    requires Representable(today) && |gs| > 0
    ensures var s := Render(Some(gs), today, categories, tags);
            && s.content.SectionList?
            && |s.content.sections| == |gs|
            && forall i :: 0 <= i < |gs| ==>
                 && s.content.sections[i].key == gs[i].date
                 && s.content.sections[i].title == SectionTitle(gs[i].date, today)
                 && s.content.sections[i].total == Total(gs[i])
  {
  }

  /** There are no groups exactly when nothing was fetched. */
  lemma GroupCount(entries: seq<Entry>)
    ensures |GroupByDate(entries)| == 0 <==> |entries| == 0
  {
    if |entries| > 0 {
      var dates := DatesOf(entries);
      assert dates[0] in Distinct(dates);
    }
  }

  /** At most one section of a list with distinct keys is titled "Today". */
  lemma AtMostOneToday(gs: seq<Group>, today: Date, categories: seq<Category>, tags: seq<Tag>)
    requires Representable(today) && |gs| > 0
    requires forall i, j :: 0 <= i < j < |gs| ==> gs[i].date != gs[j].date
    ensures var sections := Render(Some(gs), today, categories, tags).content.sections;
            forall i, j :: 0 <= i < j < |sections| ==>
              !(sections[i].title == TodayTitle && sections[j].title == TodayTitle)
  {
    SectionsOfGroups(gs, today, categories, tags);
  }

  /** Rendering freshly fetched entries: the empty view appears exactly when
      nothing was fetched, otherwise one section per distinct date, of which
      at most one is titled "Today". */
  lemma FetchedScreen(entries: seq<Entry>, today: Date, categories: seq<Category>, tags: seq<Tag>)
    requires Representable(today)
    ensures var s := Render(Some(GroupByDate(entries)), today, categories, tags);
            && (s.content.EmptyView? <==> |entries| == 0)
            && (s.isShowingDetail <==> |entries| > 0)
            && (s.content.SectionList? ==>
                  forall i, j :: 0 <= i < j < |s.content.sections| ==>
                    !(s.content.sections[i].title == TodayTitle && s.content.sections[j].title == TodayTitle))
  {
    var gs := GroupByDate(entries);
    GroupCount(entries);
    if |gs| > 0 {
      GroupKeys(entries);
      AtMostOneToday(gs, today, categories, tags);
    } else {
      assert gs == [];
    }
  }

  // ---------------------------------------------------------------------
  // The component's state and its refresh sequence.

  /** The three requests `fetchData` issues, in the order `Promise.all`
      starts them. */
  function RefreshRequests(from: string, to: string): seq<Request>
  {
    [CategoriesRequest(), TagsRequest(), Request(Get, API_BASE + "/entries?from=" + from + "&to=" + to, None)]
  }

  /** The DELETE `handleDelete` issues; a template literal writes a missing
      id as "undefined". */
  function DeleteRequest(item: Entry): Request
  {
    Request(Delete, API_BASE + "/entries/" + (match item.id case Some(id) => id case None => "undefined"), None)
  }

  /** The state of `Command`: the window computed at mount, the three
      `useState` values, and the log of requests sent so far. */
  class ListView {
    const today: Date
    const from: string
    const to: string
    var categories: seq<Category>
    var tags: seq<Tag>
    var data: Option<seq<Group>>
    var requests: seq<Request>

    ghost predicate Valid()
      reads this
    {
      Representable(today) && today.year >= 1 && (from, to) == Helper.DateRange(today)
    }

    constructor (today: Date)
      requires Representable(today) && today.year >= 1
      ensures Valid() && this.today == today
      ensures categories == [] && tags == [] && data == None && requests == []
    {
      this.today := today;
      var range := Helper.DateRange(today);
      from, to := range.0, range.1;
      categories, tags, data, requests := [], [], None, [];
    }

    /** What the list shows in the current state. */
    function Screen(): ListScreen
      reads this
      requires Valid()
    {
      Render(data, today, categories, tags)
    }

    /** `fetchData`: the three responses are parameters. The old groups stay
        on screen until the new ones replace them. */
    method FetchData(fetchedCategories: seq<Category>, fetchedTags: seq<Tag>, fetchedEntries: seq<Entry>)
      requires Valid()
      modifies this
      ensures Valid()
      ensures requests == old(requests) + RefreshRequests(from, to)
      ensures categories == fetchedCategories && tags == fetchedTags
      ensures data == Some(GroupByDate(fetchedEntries))
    {
      requests := requests + RefreshRequests(from, to);
      categories := fetchedCategories;
      tags := fetchedTags;
      var dates := Distinct(DatesOf(fetchedEntries));
      data := Some(GroupsFor(fetchedEntries, dates));
    }

    /** `handleDelete`: the DELETE is awaited and its answer, `deleteStatus`,
        is never looked at; the refresh follows for every status. */
    method HandleDelete(item: Entry, deleteStatus: int,
                        fetchedCategories: seq<Category>, fetchedTags: seq<Tag>, fetchedEntries: seq<Entry>)
      requires Valid()
      modifies this
      ensures Valid()
      ensures requests == old(requests) + [DeleteRequest(item)] + RefreshRequests(from, to)
      ensures categories == fetchedCategories && tags == fetchedTags
      ensures data == Some(GroupByDate(fetchedEntries))
    {
      requests := requests + [DeleteRequest(item)];
      FetchData(fetchedCategories, fetchedTags, fetchedEntries);
    }
  }
}
