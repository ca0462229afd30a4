/** The form of src/addExpense.tsx, for creating an entry (no entry given)
    or editing one: the default field values, the required-field check, the
    entry body `onSubmit` builds, the PUT or POST it sends, and what happens
    on the answer, as a list of UI effects. The HTTP status is a parameter. */
module AddExpense {
  import opened Util
  import opened Records
  import opened Calendar

  datatype Field = AmountField | CategoryField | TagsField | DescField | DateField

  /** `AddExpenseFormValues`. `amount` is the number the amount text
      denotes (`None` for an empty field); the date picker yields a date or
      nothing. */
  datatype FormValues = FormValues(
    amount: Option<real>,
    category: Option<string>,
    tags: seq<string>,
    desc: string,
    date: Option<Date>)

  /** The fields that fail `FormValidation.Required`, in declaration order. */
  function Missing(v: FormValues): seq<Field>
  {
    (if v.amount.None? then [AmountField] else [])
    + (if v.category.None? || v.category.value == "" then [CategoryField] else [])
    + (if |v.tags| == 0 then [TagsField] else [])
    + (if v.desc == "" then [DescField] else [])
    + (if v.date.None? then [DateField] else [])
  }

  /** Dates the picker can hold have a four-digit year. */
  predicate PickerDate(v: FormValues)
  {
    v.date.Some? ==> Representable(v.date.value)
  }

  /** The body `onSubmit` builds, with `id` and `modified` copied from the
      entry being edited. */
  function EntryBody(v: FormValues, data: Option<Entry>): Entry
    requires Missing(v) == [] && PickerDate(v)
  {
    var body := Entry(None, -v.amount.value, Currency(CURRENCY_CODE), IsoDate(v.date.value), v.desc,
                      None, v.category.value, v.tags, None, None, None, None);
    match data
    case Some(e) => body.(id := e.id, modified := e.modified)
    case None => body
  }

  /** `${data?.id ?? ""}`. */
  function IdSuffix(data: Option<Entry>): string
  {
    match data
    case Some(e) => (match e.id case Some(id) => id case None => "")
    case None => ""
  }

  function SubmitRequest(v: FormValues, data: Option<Entry>): Request
    requires Missing(v) == [] && PickerDate(v)
  {
    Request(if data.Some? then Put else Post, API_BASE + "/entries/" + IdSuffix(data), Some(EntryBody(v, data)))
  }

  /** What a submission produces: the validation result (the fields that
      failed), a success toast, `pop()`, and `reset()`/`focus()` on a field
      ref. */
  datatype Effect = ShowErrors(fields: seq<Field>) | SuccessToast(title: string) | Pop | Reset(field: Field) | Focus(field: Field)

  predicate IsSuccess(status: int)
  {
    status == 200 || status == 201
  }

  /** The effects of the answer to the submitted request. */
  function SubmitEffects(data: Option<Entry>, status: int): seq<Effect>
  {
    if !IsSuccess(status) then []
    else if data.Some? then [SuccessToast("Expense updated"), Pop]
    else [SuccessToast("Expense added"), Reset(AmountField), Reset(CategoryField), Reset(TagsField), Reset(DescField),
          Focus(AmountField)]
  }

  /** `handleSubmit` followed by `onSubmit`: validation first (no request
      when a required field is empty), then the body, the request, and the
      effects of the answer `status`. */
  method HandleSubmit(values: FormValues, data: Option<Entry>, status: int)
    returns (sent: Option<Request>, effects: seq<Effect>)
    requires PickerDate(values)
    ensures Missing(values) != [] ==> sent == None && effects == [ShowErrors(Missing(values))]
    ensures Missing(values) == [] ==> sent == Some(SubmitRequest(values, data))
    ensures Missing(values) == [] ==> effects == SubmitEffects(data, status)
  {
    var missing := Missing(values);
    if missing != [] {
      return None, [ShowErrors(missing)];
    }
    var body := Entry(None, values.amount.value * -1.0, Currency(CURRENCY_CODE), IsoDate(values.date.value),
                      values.desc, None, values.category.value, values.tags, None, None, None, None);
    if data.Some? {
      body := body.(id := data.value.id);
      body := body.(modified := data.value.modified);
    }
    var url := API_BASE + "/entries/" + IdSuffix(data);
    sent := Some(Request(if data.Some? then Put else Post, url, Some(body)));
    effects := [];
    if status == 200 || status == 201 {
      effects := effects + [SuccessToast(if data.Some? then "Expense updated" else "Expense added")];
      if data.Some? {
        effects := effects + [Pop];
      } else {
        effects := effects + [Reset(AmountField), Reset(CategoryField), Reset(TagsField), Reset(DescField)];
        effects := effects + [Focus(AmountField)];
      }
    }
  }

  /** `ref.reset()`: the field goes back to its default value. */
  function ResetField(v: FormValues, defaults: FormValues, f: Field): FormValues
  {
    match f
    case AmountField => v.(amount := defaults.amount)
    case CategoryField => v.(category := defaults.category)
    case TagsField => v.(tags := defaults.tags)
    case DescField => v.(desc := defaults.desc)
    case DateField => v.(date := defaults.date)
  }

  /** The field values after the effects, in order; only resets change them. */
  function Apply(v: FormValues, defaults: FormValues, effects: seq<Effect>): FormValues
    decreases |effects|
  {
    if |effects| == 0 then v
    else
      var next := match effects[0] case Reset(f) => ResetField(v, defaults, f) case _ => v;
      Apply(next, defaults, effects[1..])
  }

  // ---------------------------------------------------------------------
  // Defaults and the loading condition.

  /** The id of the first category whose name starts with "Food". */
  function FoodCategory(categories: seq<Category>): Option<string>
  {
    match FindFirst(categories, (c: Category) => StartsWith(c.name, "Food"))
    case Some(i) => Some(categories[i].id)
    case None => None
  }

  /** `data?.category || categories.find(...)?.id`. */
  function CategoryDefault(data: Option<Entry>, categories: seq<Category>): Option<string>
  {
    if data.Some? && data.value.category != "" then Some(data.value.category) else FoodCategory(categories)
  }

  /** The `defaultValue` of every field: the entry being edited, or empty
      fields, the "Food" category and today's date. */
  function Defaults(data: Option<Entry>, categories: seq<Category>, today: Date): FormValues
  {
    match data
    case Some(e) => FormValues(Some(Abs(e.amount)), CategoryDefault(data, categories), e.tags, e.desc, ParseIso(e.date))
    case None => FormValues(None, CategoryDefault(data, categories), [], "", Some(today))
  }

  /** Which parts of the `Form` render for the current reference lists. */
  datatype FormScreen = FormScreen(isLoading: bool, showsCategory: bool, showsTags: bool, showsDate: bool)

  function Layout(categories: seq<Category>, tags: seq<Tag>): FormScreen
  {
    FormScreen(|categories| == 0 || |tags| == 0, |categories| > 0, |tags| > 0, |categories| > 0 || |tags| > 0)
  }

  // ---------------------------------------------------------------------
  // Properties.

  /** A submission goes through exactly when all five fields are filled in;
      in particular an empty description is caught before any request. */
  lemma RequiredFields(v: FormValues)
    ensures Missing(v) == [] <==>
              v.amount.Some? && v.category.Some? && v.category.value != "" && |v.tags| > 0 && v.desc != "" && v.date.Some?
    ensures AmountField in Missing(v) <==> v.amount.None?
    ensures CategoryField in Missing(v) <==> v.category.None? || v.category.value == ""
    ensures TagsField in Missing(v) <==> |v.tags| == 0
    ensures DescField in Missing(v) <==> v.desc == ""
    ensures DateField in Missing(v) <==> v.date.None?
  {
  }

  /** The body: the entered amount negated (so a non-negative entry gives a
      stored amount <= 0), category, tags and description copied, the date
      written as `YYYY-MM-DD` (reading back as the picked date), the fixed
      currency, `id` and `modified` from the edited entry and unset when
      creating, and none of the other optional members. */
  lemma BodyFromForm(v: FormValues, data: Option<Entry>)
    requires Missing(v) == [] && PickerDate(v)
    ensures var b := EntryBody(v, data);
            && b.amount == -v.amount.value
            && (v.amount.value >= 0.0 ==> b.amount <= 0.0)
            && b.category == v.category.value && b.tags == v.tags && b.desc == v.desc
            && b.currency.code == "MYR"
            && ParseIso(b.date) == v.date
            && (data.Some? ==> b.id == data.value.id && b.modified == data.value.modified)
            && (data.None? ==> b.id.None? && b.modified.None?)
            && b.account.None? && b.created.None? && b.completed.None? && b.deleted.None?
  {
    IsoRoundTrip(v.date.value);
  }

  /** Editing sends PUT to `/entries/{id}`; creating sends POST to
      `/entries/` with an empty id part. */
  lemma RequestTarget(v: FormValues, data: Option<Entry>)
    requires Missing(v) == [] && PickerDate(v)
    ensures var r := SubmitRequest(v, data);
            && (r.verb == Put <==> data.Some?)
            && (r.verb == Post <==> data.None?)
            && (data.Some? && data.value.id.Some? ==> r.url == "https://api.toshl.com/entries/" + data.value.id.value)
            && (data.None? ==> r.url == "https://api.toshl.com/entries/")
            && r.body == Some(EntryBody(v, data))
  {
  }

  /** Only status 200 or 201 counts as success; any other status gives no
      toast, no pop, no reset and no focus. On success, editing pops and
      creating resets amount, category, tags and description - never the
      date - and then focuses the amount field. */
  lemma SuccessGate(data: Option<Entry>, status: int)
    ensures var fx := SubmitEffects(data, status);
            && (fx != [] <==> IsSuccess(status))
            && (forall t :: SuccessToast(t) in fx <==> IsSuccess(status) && t == (if data.Some? then "Expense updated" else "Expense added"))
            && (Pop in fx <==> IsSuccess(status) && data.Some?)
            && (forall f :: Reset(f) in fx <==> IsSuccess(status) && data.None? && f != DateField)
            && (forall f :: Focus(f) in fx <==> IsSuccess(status) && data.None? && f == AmountField)
            && (IsSuccess(status) && data.None? ==> fx[|fx| - 1] == Focus(AmountField))
  {
  }

  /** After the answer, a successful create has put amount, category, tags
      and description back to their defaults and kept the date; every other
      answer, and every edit, leaves the fields as they were. */
  lemma FieldsAfterSubmit(v: FormValues, defaults: FormValues, data: Option<Entry>, status: int)
    ensures Apply(v, defaults, SubmitEffects(data, status)) ==
              if IsSuccess(status) && data.None?
              then v.(amount := defaults.amount, category := defaults.category, tags := defaults.tags, desc := defaults.desc)
              else v
  {
    var fx := SubmitEffects(data, status);
    if IsSuccess(status) && data.None? {
      var v1 := v.(amount := defaults.amount);
      var v2 := v1.(category := defaults.category);
      var v3 := v2.(tags := defaults.tags);
      var v4 := v3.(desc := defaults.desc);
      assert Apply(v4, defaults, fx[5..]) == v4 by {
        assert fx[5..] == [Focus(AmountField)];
        assert fx[5..][1..] == [];
      }
      assert Apply(v3, defaults, fx[4..]) == Apply(v4, defaults, fx[5..]) by { assert fx[4..][1..] == fx[5..]; }
      assert Apply(v2, defaults, fx[3..]) == Apply(v3, defaults, fx[4..]) by { assert fx[3..][1..] == fx[4..]; }
      assert Apply(v1, defaults, fx[2..]) == Apply(v2, defaults, fx[3..]) by { assert fx[2..][1..] == fx[3..]; }
      assert Apply(v, defaults, fx[1..]) == Apply(v1, defaults, fx[2..]) by { assert fx[1..][1..] == fx[2..]; }
    } else if IsSuccess(status) {
      assert fx[1..] == [Pop] && fx[1..][1..] == [];
      assert Apply(v, defaults, fx[1..]) == Apply(v, defaults, []);
    }
  }

  /** After a successful create, the amount is empty, the category is the
      "Food" default again, no tags are selected, the description is empty
      and the picked date is kept. */
  lemma CreateSuccessClearsForm(v: FormValues, categories: seq<Category>, today: Date, status: int)
    requires IsSuccess(status)
    ensures var after := Apply(v, Defaults(None, categories, today), SubmitEffects(None, status));
            && after.amount.None?
            && after.category == FoodCategory(categories)
            && after.tags == [] && after.desc == ""
            && after.date == v.date
  {
    FieldsAfterSubmit(v, Defaults(None, categories, today), None, status);
  }

  /** The default category is the entry's own when it has a non-empty one;
      otherwise the id of the first category whose name starts with "Food",
      and none when no name does. */
  lemma CategoryDefaultRule(data: Option<Entry>, categories: seq<Category>)
    ensures data.Some? && data.value.category != "" ==> CategoryDefault(data, categories) == Some(data.value.category)
    ensures !(data.Some? && data.value.category != "") ==>
              && ((forall i :: 0 <= i < |categories| ==> !StartsWith(categories[i].name, "Food")) <==> CategoryDefault(data, categories).None?)
              && forall i :: 0 <= i < |categories| && StartsWith(categories[i].name, "Food")
                             && (forall j :: 0 <= j < i ==> !StartsWith(categories[j].name, "Food")) ==>
                   CategoryDefault(data, categories) == Some(categories[i].id)
  {
    var p := (c: Category) => StartsWith(c.name, "Food");
    forall i | 0 <= i < |categories| && p(categories[i]) && (forall j :: 0 <= j < i ==> !p(categories[j]))
      ensures FindFirst(categories, p) == Some(i)
    {
    }
  }

  /** The form is loading exactly while the category or the tag field is
      missing for lack of options; once it is not loading every field shows. */
  lemma LoadingRule(categories: seq<Category>, tags: seq<Tag>)
    ensures var s := Layout(categories, tags);
            && (s.isLoading <==> !(s.showsCategory && s.showsTags))
            && (!s.isLoading ==> s.showsDate)
            && (FoodCategory(categories).Some? ==> s.showsCategory)
  {
  }

  /** Round trip of an unchanged edit: the form starts from |amount| and the
      entry's own fields, and submitting it as it is sends the negated
      magnitude - the original amount whenever that was <= 0 - with the
      entry's `id`, `modified`, tags, description and date (and its category
      when it has one), as a PUT to the entry's URL. */
  lemma EditRoundTrip(e: Entry, categories: seq<Category>, today: Date)
    requires e.desc != "" && |e.tags| > 0 && e.category != "" && ParseIso(e.date).Some?
    ensures var v := Defaults(Some(e), categories, today);
            && v.amount == Some(Abs(e.amount))
            && Missing(v) == [] && PickerDate(v)
            && var r := SubmitRequest(v, Some(e));
               && r.verb == Put
               && r.url == API_BASE + "/entries/" + IdSuffix(Some(e))
               && r.body.Some?
               && r.body.value.amount == -Abs(e.amount)
               && (e.amount <= 0.0 ==> r.body.value.amount == e.amount)
               && r.body.value.id == e.id && r.body.value.modified == e.modified
               && r.body.value.category == e.category
               && r.body.value.tags == e.tags && r.body.value.desc == e.desc
               && r.body.value.date == e.date
  {
    ParseIsoCanonical(e.date);
  }

  /** An unchanged edit of an entry the round trip above does not cover:
      the form starts from the entry's empty description or empty tag list,
      so validation reports that field and `HandleSubmit` sends nothing; an
      entry without a category starts from the "Food" default instead, and
      when the edit does go through, the PUT carries that category. */
  lemma EditWithGaps(e: Entry, categories: seq<Category>, today: Date)
    ensures var v := Defaults(Some(e), categories, today);
            && AmountField !in Missing(v)
            && (DescField in Missing(v) <==> e.desc == "")
            && (TagsField in Missing(v) <==> |e.tags| == 0)
            && (DateField in Missing(v) <==> ParseIso(e.date).None?)
            && (CategoryField in Missing(v) <==>
                  e.category == "" && (FoodCategory(categories).None? || FoodCategory(categories).value == ""))
            && (e.desc == "" || |e.tags| == 0 ==> Missing(v) != [])
            && (e.category == "" ==> v.category == FoodCategory(categories))
            && (e.category == "" && Missing(v) == [] ==>
                  PickerDate(v) && SubmitRequest(v, Some(e)).body.value.category == FoodCategory(categories).value)
  {
    var v := Defaults(Some(e), categories, today);
    RequiredFields(v);
    if ParseIso(e.date).Some? {
      ParseIsoCanonical(e.date);
    }
  }
}
