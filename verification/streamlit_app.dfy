/**
 The earlier request builder of `backend/streamlit_app.py`: the abstract
 `APIRequest` base and its subclass `AlphaVantageRequest`, whose
 `build_url` writes the same fields as the live builder but no `month`, so
 the query string has seven fields and `apikey` is last.
 */
module StreamlitApp {
  import opened Wrappers
  import Query
  import opened AlphaVantage

  /**
   The subclass's seven attributes, set by its constructor; `func` holds
   `function`. The flag is a boolean, as the sidebar checkbox delivers it.
   */
  datatype AlphaVantageRequest = AlphaVantageRequest(
    symbol: string,
    func: string,
    interval: string,
    dataType: string,
    outputSize: string,
    extended: bool,
    apiKey: string)

  /** A request object: an instance of the base class itself, or of the subclass. */
  datatype Request =
    | Base
    | Subclass(av: AlphaVantageRequest)

  /** The subclass's `build_url`: the endpoint and seven fields, values inserted as they are. */
  function Url(r: AlphaVantageRequest): string
  {
    var extendedStr := ExtendedToken(r.extended);
    "https://www.alphavantage.co/query"
    + "?function=" + r.func
    + "&symbol=" + r.symbol
    + "&interval=" + r.interval
    + "&datatype=" + r.dataType
    + "&outputsize=" + r.outputSize
    + "&extended_hours=" + extendedStr
    + "&apikey=" + r.apiKey
  }

  /**
   `build_url` called on a request object: the subclass overrides the
   base's method and always builds a URL; the base raises
   `NotImplementedError`.
   */
  function BuildUrl(req: Request): (res: Result<string, Error>)
    ensures res.Success? <==> req.Subclass?
    ensures res.Success? ==> Endpoint + "?function=" + req.av.func <= res.value
    ensures res.Success? ==> Query.EndsWith(res.value, "&apikey=" + req.av.apiKey)
    ensures res.Failure? ==> res.error == NotImplementedError(AbstractMessage)
  {
    match req
    case Base => AbstractBuildUrl()
    case Subclass(r) =>
      UrlEnds(r);
      Success(Url(r))
  }

  /** The URL starts with the endpoint and the `function` field, and ends with the `apikey` field. */
  lemma UrlEnds(r: AlphaVantageRequest)
    ensures Endpoint + "?function=" + r.func <= Url(r)
    ensures Query.EndsWith(Url(r), "&apikey=" + r.apiKey)
  {
    var head := Endpoint + "?function=" + r.func;
    var u := head;
    Query.PrefixGrows(head, u, "&symbol=", r.symbol);
    u := u + "&symbol=" + r.symbol;
    Query.PrefixGrows(head, u, "&interval=", r.interval);
    u := u + "&interval=" + r.interval;
    Query.PrefixGrows(head, u, "&datatype=", r.dataType);
    u := u + "&datatype=" + r.dataType;
    Query.PrefixGrows(head, u, "&outputsize=", r.outputSize);
    u := u + "&outputsize=" + r.outputSize;
    Query.PrefixGrows(head, u, "&extended_hours=", ExtendedToken(r.extended));
    u := u + "&extended_hours=" + ExtendedToken(r.extended);
    Query.PrefixGrows(head, u, "&apikey=", r.apiKey);
    Query.EndsWithAppended(u, "&apikey=", r.apiKey);
  }

  /** The parameters of the URL, in the order they are written. */
  const Order: seq<Param> :=
    [Function, Symbol, Interval, DataType, OutputSize, ExtendedHours, ApiKey]

  /** The fields of the URL: one per parameter, keyed and valued, in order. */
  function Fields(r: AlphaVantageRequest): (fs: seq<Query.Field>)
    ensures |fs| == |Order|
  {
    [ Query.Field("function", r.func),
      Query.Field("symbol", r.symbol),
      Query.Field("interval", r.interval),
      Query.Field("datatype", r.dataType),
      Query.Field("outputsize", r.outputSize),
      Query.Field("extended_hours", ExtendedToken(r.extended)),
      Query.Field("apikey", r.apiKey) ]
  }

  /** No value the builder splices in holds the field separator `&`. */
  predicate NoSeparator(r: AlphaVantageRequest)
  {
    && Query.Sep !in r.symbol
    && Query.Sep !in r.func
    && Query.Sep !in r.interval
    && Query.Sep !in r.dataType
    && Query.Sep !in r.outputSize
    && Query.Sep !in r.apiKey
  }

  /** The request a list of fields describes: seven fields with the builder's keys in its order. */
  function FromFields(fs: seq<Query.Field>): Option<AlphaVantageRequest>
  {
    if KeyedBy(fs, Order)
       && ParseToken(fs[5].value).Some?
    then Some(AlphaVantageRequest(
      symbol := fs[1].value,
      func := fs[0].value,
      interval := fs[2].value,
      dataType := fs[3].value,
      outputSize := fs[4].value,
      extended := ParseToken(fs[5].value).value,
      apiKey := fs[6].value))
    else None
  }

  /** The request a URL was built from, when it can be read back. */
  function FromUrl(url: string): Option<AlphaVantageRequest>
  {
    match ParseUrl(url)
    case None => None
    case Some(fs) => FromFields(fs)
  }

  /** The URL is the endpoint, `?`, and the query string of the fields in order. */
  lemma UrlIsJoin(r: AlphaVantageRequest)
    ensures Url(r) == QueryStart + Query.Join(Fields(r))
  {
    LiteralPieces();
    var fs := Fields(r);
    JoinedFirstFour(fs, r.func, r.symbol, r.interval, r.dataType);
    var u := "https://www.alphavantage.co/query" + "?function=" + r.func + "&symbol=" + r.symbol
      + "&interval=" + r.interval + "&datatype=" + r.dataType;
    Query.JoinStep(QueryStart, fs, 4, u);
    u := u + "&outputsize=" + r.outputSize;
    Query.JoinStep(QueryStart, fs, 5, u);
    u := u + "&extended_hours=" + ExtendedToken(r.extended);
    Query.JoinStep(QueryStart, fs, 6, u);
    u := u + "&apikey=" + r.apiKey;
    assert fs[..7] == fs;
  }

  /** The fields of a request describe it: reading them back gives the request. */
  lemma FromFieldsFields(r: AlphaVantageRequest)
    ensures FromFields(Fields(r)) == Some(r)
  {
    var fs := Fields(r);
    assert fs[5].value == ExtendedToken(r.extended);
  }

  /** When no value holds `&`, the fields of the URL can be told apart. */
  lemma FieldsSeparable(r: AlphaVantageRequest)
    requires NoSeparator(r)
    ensures Query.Separable(Fields(r))
  {
    assert KeyedBy(Fields(r), Order);
    KeyedSeparable(Fields(r), Order);
  }

  /** The query string of separable fields splits into exactly those seven fields, keys in order. */
  lemma JoinedFieldsInOrder(r: AlphaVantageRequest)
    requires NoSeparator(r)
    ensures |Query.Split(Query.Join(Fields(r)))| == 7
    ensures ParseUrl(QueryStart + Query.Join(Fields(r))) == Some(Fields(r))
    ensures Query.Keys(Fields(r)) ==
      ["function", "symbol", "interval", "datatype", "outputsize", "extended_hours", "apikey"]
  {
    FieldsSeparable(r);
    ParseUrlJoin(Fields(r));
    Query.SplitUnsplit(Query.RenderAll(Fields(r)));
    var ks := Query.Keys(Fields(r));
    assert ks[5] == "extended_hours";
  }

  /**
   When no value holds `&`, the text after `?` splits on `&` into exactly
   seven fields whose keys are `function`, `symbol`, `interval`,
   `datatype`, `outputsize`, `extended_hours` and `apikey`, in that order,
   each carrying its value.
   */
  lemma QueryFieldsInOrder(r: AlphaVantageRequest)
    requires NoSeparator(r)
    ensures |Query.Split(Url(r)[|QueryStart|..])| == 7
    ensures ParseUrl(Url(r)) == Some(Fields(r))
    ensures Query.Keys(Fields(r)) ==
      ["function", "symbol", "interval", "datatype", "outputsize", "extended_hours", "apikey"]
  {
    UrlIsJoin(r);
    JoinedFieldsInOrder(r);
    assert (QueryStart + Query.Join(Fields(r)))[|QueryStart|..] == Query.Join(Fields(r));
  }

  /** Round trip: when no value holds `&`, the URL gives back the request it was built from. */
  lemma FromUrlUrl(r: AlphaVantageRequest)
    requires NoSeparator(r)
    ensures FromUrl(Url(r)) == Some(r)
  {
    QueryFieldsInOrder(r);
    FromFieldsFields(r);
  }

  /** The flag's field is in the URL, as `extended_hours=true` or `extended_hours=false`. */
  lemma ExtendedHoursInUrl(r: AlphaVantageRequest)
    ensures Query.Contains(Url(r), "extended_hours=" + (if r.extended then "true" else "false"))
  {
    var fs := Fields(r);
    var jb, ja := Query.JoinBefore(fs, 5), Query.JoinAfter(fs, 5);
    UrlIsJoin(r);
    Query.JoinAround(fs, 5);
    Query.RegroupField(QueryStart, jb, "extended_hours", ExtendedToken(r.extended), ja);
    Query.ContainsField(QueryStart + jb, "extended_hours", ExtendedToken(r.extended), ja);
    assert "extended_hours" + [Query.Eq] == "extended_hours=";
  }
}
