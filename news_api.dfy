/** The news search request builder (`news_total` up to the HTTP call) and
    the shapes of the values it exchanges with the news API. */
module NewsApi {
  import opened Basics
  import Text

  /** A decoded JSON scalar, as the model's tool arguments carry them. */
  datatype Value = Null | Bool(b: bool) | Num(n: int) | Str(s: string)

  /** Keyword arguments of one `news_total` call, already decoded. */
  type Args = map<string, Value>

  /** Query parameters sent to the news API. */
  type Params = map<string, Value>

  /** Python truthiness of a scalar. */
  predicate Truthy(v: Value) {
    match v
    case Null => false
    case Bool(b) => b
    case Num(n) => n != 0
    case Str(s) => s != []
  }

  /** `str(v)`, as an f-string renders it. */
  function Display(v: Value): string {
    match v
    case Null => "None"
    case Bool(b) => if b then "True" else "False"
    case Num(n) => Text.IntToString(n)
    case Str(s) => s
  }

  datatype FetchError =
    | UnexpectedArgument                 // the TypeError of a keyword `news_total` does not declare
    | NoSearchFilter                     // the ValueError raised before any request
    | NotAnInteger(parameter: string)    // `int(...)` raising on page_size or page

  /** Default value of each keyword parameter of `news_total`. */
  function Default(name: string): Value {
    if name == "language" then Str("en")
    else if name == "sort_by" then Str("publishedAt")
    else if name == "page_size" then Num(5)
    else if name == "page" then Num(1)
    else Null
  }

  /** The value a keyword parameter takes inside the call. */
  function Arg(args: Args, name: string): Value {
    if name in args then args[name] else Default(name)
  }

  /** The keyword parameters `news_total` declares. */
  const ParameterNames: set<string> := {
    "query", "title", "sources", "domains", "exclude_domains", "from_date", "to_date",
    "language", "sort_by", "page_size", "page"}

  /** Every argument name is one `news_total` declares, so `news_total(**args)` binds. */
  predicate KnownArgs(args: Args) {
    args.Keys <= ParameterNames
  }

  /** Parameters passed through unchanged, with the API name each one is sent under. */
  const Renames: seq<(string, string)> := [
    ("query", "q"), ("title", "qInTitle"), ("sources", "sources"), ("domains", "domains"),
    ("exclude_domains", "excludeDomains"), ("from_date", "from"), ("to_date", "to"),
    ("language", "language"), ("sort_by", "sortBy")]

  const ApiNames: set<string> := {
    "q", "qInTitle", "sources", "domains", "excludeDomains", "from", "to",
    "language", "sortBy", "pageSize", "page"}

  const MaxPageSize := 100

  predicate HasSearchFilter(args: Args) {
    Truthy(Arg(args, "query")) || Truthy(Arg(args, "title"))
    || Truthy(Arg(args, "sources")) || Truthy(Arg(args, "domains"))
  }

  /** `int(v)`; None where Python raises. */
  function IntOf(v: Value): Option<int> {
    match v
    case Null => None
    case Bool(b) => Some(if b then 1 else 0)
    case Num(n) => Some(n)
    case Str(s) => Text.ParseInt(s)
  }

  /** `news_total(**args)` up to the request: either the ValueError/TypeError
      it raises, or the parameter dictionary with None values dropped. */
  function BuildParams(args: Args): Result<Params, FetchError> {
    if !KnownArgs(args) then Err(UnexpectedArgument)
    else if !HasSearchFilter(args) then Err(NoSearchFilter)
    else
      match IntOf(Arg(args, "page_size"))
      case None => Err(NotAnInteger("page_size"))
      case Some(size) =>
        match IntOf(Arg(args, "page"))
        case None => Err(NotAnInteger("page"))
        case Some(page) => Ok(DropNulls(RawParams(args, size, page)))
  }

  /** The `params` dictionary literal, before None values are dropped. */
  function RawParams(args: Args, size: int, page: int): Params {
    map[
      "q" := Arg(args, "query"),
      "qInTitle" := Arg(args, "title"),
      "sources" := Arg(args, "sources"),
      "domains" := Arg(args, "domains"),
      "excludeDomains" := Arg(args, "exclude_domains"),
      "from" := Arg(args, "from_date"),
      "to" := Arg(args, "to_date"),
      "language" := Arg(args, "language"),
      "sortBy" := Arg(args, "sort_by"),
      "pageSize" := Num(Min(size, MaxPageSize)),
      "page" := Num(page)]
  }

  /** `{k: v for k, v in params.items() if v is not None}`. */
  function DropNulls(params: Params): (r: Params)
    ensures r.Keys <= params.Keys
    ensures forall k :: k in params ==> (k in r <==> params[k] != Null)
    ensures forall k :: k in r ==> r[k] == params[k]
  {
    map k | k in params && params[k] != Null :: params[k]
  }

  /** An argument name `news_total` does not declare makes the call raise
      before its body runs, whatever the other arguments are. */
  lemma UnknownArgumentsRejected(args: Args)
    ensures BuildParams(args) == Err(UnexpectedArgument) <==> !KnownArgs(args)
  {
  }

  /** The call `{"query": "x", "foo": 1}` raises rather than searching for "x". */
  lemma UnknownArgumentExample(args: Args)
    requires args == map["query" := Str("x"), "foo" := Num(1)]
    ensures BuildParams(args) == Err(UnexpectedArgument)
  {
    assert "foo" in args && "foo" !in ParameterNames;
  }

  /** Among calls that bind, no search filter means the ValueError, and that
      is the only way to get it. */
  lemma RejectsExactlyWithoutFilter(args: Args)
    ensures BuildParams(args) == Err(NoSearchFilter) <==> KnownArgs(args) && !HasSearchFilter(args)
  {
  }

  /** With known names and a filter, the only failures are the two integer
      conversions, page_size first. */
  lemma IntegerConversionErrors(args: Args)
    ensures KnownArgs(args) && HasSearchFilter(args) ==>
      (BuildParams(args).Err? <==> IntOf(Arg(args, "page_size")).None? || IntOf(Arg(args, "page")).None?)
    ensures KnownArgs(args) && HasSearchFilter(args) && IntOf(Arg(args, "page_size")).None? ==>
      BuildParams(args) == Err(NotAnInteger("page_size"))
  {
  }

  /** The parameter map: renamed keys, None values dropped, pageSize capped at
      100 from above only, page converted to an integer. */
  lemma ParamsShape(args: Args)
    requires BuildParams(args).Ok?
    ensures var p := BuildParams(args).value;
      && p.Keys <= ApiNames
      && (forall k :: k in p ==> p[k] != Null)
      && (forall i :: 0 <= i < |Renames| ==>
            (Renames[i].1 in p <==> Arg(args, Renames[i].0) != Null)
            && (Renames[i].1 in p ==> p[Renames[i].1] == Arg(args, Renames[i].0)))
      && "pageSize" in p && p["pageSize"] == Num(Min(IntOf(Arg(args, "page_size")).value, MaxPageSize))
      && "page" in p && p["page"] == Num(IntOf(Arg(args, "page")).value)
  {
    var size, page := IntOf(Arg(args, "page_size")).value, IntOf(Arg(args, "page")).value;
    var raw := RawParams(args, size, page);
    assert BuildParams(args).value == DropNulls(raw);
    RawKeys(args, size, page);
    forall i | 0 <= i < |Renames|
      ensures Renames[i].1 in raw && raw[Renames[i].1] == Arg(args, Renames[i].0)
    {
      RawRenamed(args, size, page, i);
    }
    DroppedShape(args, raw, size, page);
  }

  /** The `params` literal has one key per API name and the two numbers. */
  lemma RawKeys(args: Args, size: int, page: int)
    ensures RawParams(args, size, page).Keys <= ApiNames
    ensures "pageSize" in RawParams(args, size, page) && "page" in RawParams(args, size, page)
    ensures RawParams(args, size, page)["pageSize"] == Num(Min(size, MaxPageSize))
    ensures RawParams(args, size, page)["page"] == Num(page)
  {
  }

  /** What dropping the None values keeps of a parameter dictionary laid out
      like the `params` literal. */
  lemma DroppedShape(args: Args, raw: Params, size: int, page: int)
    requires raw.Keys <= ApiNames && "pageSize" in raw && "page" in raw
    requires raw["pageSize"] == Num(Min(size, MaxPageSize)) && raw["page"] == Num(page)
    requires forall i :: 0 <= i < |Renames| ==> Renames[i].1 in raw && raw[Renames[i].1] == Arg(args, Renames[i].0)
    ensures var p := DropNulls(raw);
      && p.Keys <= ApiNames
      && (forall k :: k in p ==> p[k] != Null)
      && (forall i :: 0 <= i < |Renames| ==>
            (Renames[i].1 in p <==> Arg(args, Renames[i].0) != Null)
            && (Renames[i].1 in p ==> p[Renames[i].1] == Arg(args, Renames[i].0)))
      && "pageSize" in p && p["pageSize"] == Num(Min(size, MaxPageSize))
      && "page" in p && p["page"] == Num(page)
  {
  }

  /** The argument names in `Renames` and their places in the `params`
      literal. The nine cases are split over three lemmas only to keep each
      proof small for the solver. */
  lemma RawRenamed(args: Args, size: int, page: int, i: nat)
    requires i < |Renames|
    ensures Renames[i].1 in RawParams(args, size, page)
    ensures RawParams(args, size, page)[Renames[i].1] == Arg(args, Renames[i].0)
  {
    if i < 3 {
      RawRenamedFirst(args, size, page, i);
    } else if i < 6 {
      RawRenamedMiddle(args, size, page, i);
    } else {
      RawRenamedLast(args, size, page, i);
    }
  }

  lemma RawRenamedFirst(args: Args, size: int, page: int, i: nat)
    requires i < 3
    ensures Renames[i].1 in RawParams(args, size, page)
    ensures RawParams(args, size, page)[Renames[i].1] == Arg(args, Renames[i].0)
  {
    if i == 0 {} else if i == 1 {} else {}
  }

  lemma RawRenamedMiddle(args: Args, size: int, page: int, i: nat)
    requires 3 <= i < 6
    ensures Renames[i].1 in RawParams(args, size, page)
    ensures RawParams(args, size, page)[Renames[i].1] == Arg(args, Renames[i].0)
  {
    if i == 3 {} else if i == 4 {} else {}
  }

  lemma RawRenamedLast(args: Args, size: int, page: int, i: nat)
    requires 6 <= i < |Renames|
    ensures Renames[i].1 in RawParams(args, size, page)
    ensures RawParams(args, size, page)[Renames[i].1] == Arg(args, Renames[i].0)
  {
    if i == 6 {} else if i == 7 {} else {}
  }

  /** A page size of at least 1 stays in [1, 100]; at most 100 it is sent as given. */
  lemma PageSizeClamped(args: Args, size: int)
    requires BuildParams(args).Ok? && IntOf(Arg(args, "page_size")) == Some(size)
    ensures var sent := BuildParams(args).value["pageSize"].n;
      && sent <= MaxPageSize
      && (size >= 1 ==> sent >= 1)
      && (size <= MaxPageSize ==> sent == size)
  {
  }

  /** Omitted language, sort order, page size and page take their defaults. */
  lemma DefaultsApplied(args: Args)
    requires BuildParams(args).Ok?
    requires "language" !in args && "sort_by" !in args && "page_size" !in args && "page" !in args
    ensures var p := BuildParams(args).value;
      && "language" in p && p["language"] == Str("en")
      && "sortBy" in p && p["sortBy"] == Str("publishedAt")
      && "pageSize" in p && p["pageSize"] == Num(5)
      && "page" in p && p["page"] == Num(1)
  {
    var raw := RawParams(args, 5, 1);
    assert raw["language"] == Str("en") && raw["sortBy"] == Str("publishedAt");
    assert raw["pageSize"] == Num(5) && raw["page"] == Num(1);
    assert BuildParams(args) == Ok(DropNulls(raw));
  }

  /** The tool call `{"query": "elections"}` produces exactly these five parameters. */
  lemma ElectionsQuery(args: Args)
    requires args == map["query" := Str("elections")]
    ensures BuildParams(args) == Ok(map[
      "q" := Str("elections"), "language" := Str("en"), "sortBy" := Str("publishedAt"),
      "pageSize" := Num(5), "page" := Num(1)])
  {
    var raw := ElectionsRaw(args);
    ElectionsDropped(raw);
  }

  lemma ElectionsRaw(args: Args) returns (raw: Params)
    requires args == map["query" := Str("elections")]
    ensures raw == map[
      "q" := Str("elections"), "qInTitle" := Null, "sources" := Null, "domains" := Null,
      "excludeDomains" := Null, "from" := Null, "to" := Null, "language" := Str("en"),
      "sortBy" := Str("publishedAt"), "pageSize" := Num(5), "page" := Num(1)]
    ensures BuildParams(args) == Ok(DropNulls(raw))
  {
    assert HasSearchFilter(args);
    assert IntOf(Arg(args, "page_size")) == Some(5);
    assert IntOf(Arg(args, "page")) == Some(1);
    raw := RawParams(args, 5, 1);
  }

  lemma ElectionsDropped(raw: Params)
    requires raw == map[
      "q" := Str("elections"), "qInTitle" := Null, "sources" := Null, "domains" := Null,
      "excludeDomains" := Null, "from" := Null, "to" := Null, "language" := Str("en"),
      "sortBy" := Str("publishedAt"), "pageSize" := Num(5), "page" := Num(1)]
    ensures DropNulls(raw) == map[
      "q" := Str("elections"), "language" := Str("en"), "sortBy" := Str("publishedAt"),
      "pageSize" := Num(5), "page" := Num(1)]
  {
    var want := map[
      "q" := Str("elections"), "language" := Str("en"), "sortBy" := Str("publishedAt"),
      "pageSize" := Num(5), "page" := Num(1)];
    assert DropNulls(raw).Keys == want.Keys;
  }

  /** `source` field of an article: absent, null and `{}` all read as no source object. */
  datatype Source = Source(name: Option<Value>)

  /** One entry of the response's `articles` array; None for a missing key. */
  datatype Article = Article(
    title: Option<Value>,
    source: Option<Source>,
    publishedAt: Option<Value>,
    url: Option<Value>,
    description: Option<Value>)

  /** A decoded search response: the `articles` array when the key is there,
      and the other top-level scalars (status, totalResults, error code and message). */
  datatype NewsResponse = NewsResponse(articles: Option<seq<Article>>, other: map<string, Value>)

  /** `result.get("articles", [])`. */
  function ArticlesOf(r: NewsResponse): seq<Article> {
    r.articles.GetOr([])
  }
}
