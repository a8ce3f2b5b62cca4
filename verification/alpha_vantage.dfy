/**
 What the two request builders of the dashboard share: the query endpoint,
 the parameter keys, the lowercase rendering of the extended-hours flag, and
 the error the abstract base request raises. Also the parser of a request
 URL, the partner of both builders.
 */
module AlphaVantage {
  import opened Wrappers
  import Query

  /** The endpoint every request goes to. */
  const Endpoint: string := "https://www.alphavantage.co/query"

  /** The endpoint and the `?` that opens the query string. */
  const QueryStart: string := Endpoint + "?"

  /** The flag as the builders write it: the lowercase words `true` and `false`. */
  function ExtendedToken(extended: bool): (token: string)
    ensures token == "true" || token == "false"
    ensures ParseToken(token) == Some(extended)
  {
    if extended then "true" else "false"
  }

  /** The flag a token denotes; none for anything but `true` and `false`. */
  function ParseToken(token: string): Option<bool>
  {
    if token == "true" then Some(true)
    else if token == "false" then Some(false)
    else None
  }

  /** The query parameters a builder can emit. */
  datatype Param =
    | Function
    | Symbol
    | Interval
    | DataType
    | OutputSize
    | ExtendedHours
    | ApiKey
    | Month

  /** The key a parameter is sent under. */
  function Key(p: Param): (k: string)
    ensures Query.Sep !in k && Query.Eq !in k
  {
    match p
    case Function => "function"
    case Symbol => "symbol"
    case Interval => "interval"
    case DataType => "datatype"
    case OutputSize => "outputsize"
    case ExtendedHours => "extended_hours"
    case ApiKey => "apikey"
    case Month => "month"
  }

  /** The fields carry the keys of `order`, one field per parameter, in order. */
  predicate KeyedBy(fs: seq<Query.Field>, order: seq<Param>)
  {
    |fs| == |order| && forall i :: 0 <= i < |fs| ==> fs[i].key == Key(order[i])
  }

  /** Fields keyed by parameters whose values hold no `&` can be told apart. */
  lemma KeyedSeparable(fs: seq<Query.Field>, order: seq<Param>)
    requires KeyedBy(fs, order)
    requires forall i :: 0 <= i < |fs| ==> Query.Sep !in fs[i].value
    ensures Query.Separable(fs)
  {
    forall i | 0 <= i < |fs|
      ensures Query.Sep !in fs[i].key && Query.Sep !in fs[i].value && Query.Eq !in fs[i].key
    {
      assert fs[i].key == Key(order[i]);
    }
  }

  /** The literal pieces the builders write between values: a separator, a key and `=`. */
  lemma LiteralPieces()
    ensures "&symbol=" == [Query.Sep] + "symbol" + [Query.Eq]
    ensures "&interval=" == [Query.Sep] + "interval" + [Query.Eq]
    ensures "&datatype=" == [Query.Sep] + "datatype" + [Query.Eq]
    ensures "&outputsize=" == [Query.Sep] + "outputsize" + [Query.Eq]
    ensures "&extended_hours=" == [Query.Sep] + "extended_hours" + [Query.Eq]
    ensures "&apikey=" == [Query.Sep] + "apikey" + [Query.Eq]
    ensures "&month=" == [Query.Sep] + "month" + [Query.Eq]
    ensures "https://www.alphavantage.co/query" + "?function=" == QueryStart + "function" + [Query.Eq]
  {
  }

  /**
   The text both builders start with: the endpoint, `?`, and the query
   string of the `function`, `symbol`, `interval` and `datatype` fields.
   */
  lemma JoinedFirstFour(fs: seq<Query.Field>, func: string, symbol: string, interval: string, dataType: string)
    requires |fs| >= 4
    requires fs[0] == Query.Field("function", func) && fs[1] == Query.Field("symbol", symbol)
    requires fs[2] == Query.Field("interval", interval) && fs[3] == Query.Field("datatype", dataType)
    ensures QueryStart + Query.Join(fs[..4]) ==
      "https://www.alphavantage.co/query" + "?function=" + func + "&symbol=" + symbol
      + "&interval=" + interval + "&datatype=" + dataType
  {
    LiteralPieces();
    var u := "https://www.alphavantage.co/query" + "?function=" + func;
    assert QueryStart + Query.Join(fs[..1]) == u;
    Query.JoinStep(QueryStart, fs, 1, u);
    u := u + "&symbol=" + symbol;
    Query.JoinStep(QueryStart, fs, 2, u);
    u := u + "&interval=" + interval;
    Query.JoinStep(QueryStart, fs, 3, u);
  }

  /** The error Python raises from a method its subclass should have overridden. */
  datatype Error = NotImplementedError(message: string)

  /** The message of the abstract base request's error. */
  const AbstractMessage: string := "Subclass must implement abstract method"

  /** The base request's `build_url`: it has no URL to build and always raises. */
  function AbstractBuildUrl(): (r: Result<string, Error>)
    ensures r.Failure?
    ensures r.error == NotImplementedError(AbstractMessage)
  {
    Failure(NotImplementedError(AbstractMessage))
  }

  /** The fields of a request URL; none unless it starts with the query endpoint and every piece is a field. */
  function ParseUrl(url: string): Option<seq<Query.Field>>
  {
    if QueryStart <= url then Query.ParseQuery(url[|QueryStart|..]) else None
  }

  /** A URL made of the endpoint and the query string of separable fields parses back to those fields. */
  lemma ParseUrlJoin(fs: seq<Query.Field>)
    requires |fs| >= 1
    requires Query.Separable(fs)
    ensures ParseUrl(QueryStart + Query.Join(fs)) == Some(fs)
  {
    var url := QueryStart + Query.Join(fs);
    assert url[|QueryStart|..] == Query.Join(fs);
    Query.ParseJoin(fs);
  }
}
