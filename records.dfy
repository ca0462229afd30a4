/** The record shapes exchanged with the Toshl REST API (`Entry`,
    `Category`, `Tag`) and the HTTP requests the extension issues. Optional
    JSON members are `Option`s; timestamps stay opaque strings. */
module Records {
  import opened Util

  const API_BASE := "https://api.toshl.com"

  /** The extension books every entry in this currency. */
  const CURRENCY_CODE := "MYR"

  datatype Currency = Currency(code: string)

  /** An entry as the API lists it and as the form sends it. `amount` is
      negative for an expense; `modified` is echoed back on update. */
  datatype Entry = Entry(
    id: Option<string>,
    amount: real,
    currency: Currency,
    date: string,
    desc: string,
    account: Option<string>,
    category: string,
    tags: seq<string>,
    created: Option<string>,
    modified: Option<string>,
    completed: Option<bool>,
    deleted: Option<bool>)

  datatype Counts = Counts(entries: int, tags: int)

  datatype Category = Category(
    id: string,
    name: string,
    modified: string,
    kind: string,
    deleted: bool,
    counts: Counts)

  datatype Tag = Tag(
    id: string,
    name: string,
    modified: string,
    kind: string,
    category: string,
    count: int,
    deleted: int)

  datatype HttpMethod = Get | Post | Put | Delete

  /** One HTTP request to the API: the method, the full URL and the JSON body
      (only entries are ever sent). The bearer token is left out. */
  datatype Request = Request(verb: HttpMethod, url: string, body: Option<Entry>)

  /** The request `getCategories` issues. */
  function CategoriesRequest(): Request
  {
    Request(Get, API_BASE + "/categories", None)
  }

  /** The request `getTags` issues. */
  function TagsRequest(): Request
  {
    Request(Get, API_BASE + "/tags", None)
  }
}
