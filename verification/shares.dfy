/**
 The live request builder, `AlphaVantageRequest` of `backend/shares.py`:
 a configuration record of seven strings and one flag, and `build_url`,
 which splices the values verbatim into a query URL of eight fields with
 `month` last. Nothing is validated: every configuration, empty strings and
 values outside the sidebar's choices included, yields a URL.
 */
module Shares {
  import opened Wrappers
  import Query
  import opened AlphaVantage

  /**
   The configuration the request is built from (the Python dict with keys
   `symbol`, `function`, `interval`, `data_type`, `output_size`, `extended`,
   `month` and `api_key`); `func` holds the `function` entry.
   */
  datatype Config = Config(
    symbol: string,
    func: string,
    interval: string,
    dataType: string,
    outputSize: string,
    extended: bool,
    month: string,
    apiKey: string)

  /** `build_url`: the endpoint and the eight fields, values inserted as they are. */
  function BuildUrl(c: Config): string
  {
    var extendedStr := ExtendedToken(c.extended);
    "https://www.alphavantage.co/query"
    + "?function=" + c.func
    + "&symbol=" + c.symbol
    + "&interval=" + c.interval
    + "&datatype=" + c.dataType
    + "&outputsize=" + c.outputSize
    + "&extended_hours=" + extendedStr
    + "&apikey=" + c.apiKey
    + "&month=" + c.month
  }

  /** The URL starts with the endpoint and the `function` field, and ends with the `month` field. */
  lemma BuildUrlEnds(c: Config)
    ensures Endpoint + "?function=" + c.func <= BuildUrl(c)
    ensures Query.EndsWith(BuildUrl(c), "&month=" + c.month)
  {
    var head := Endpoint + "?function=" + c.func;
    var u := head;
    Query.PrefixGrows(head, u, "&symbol=", c.symbol);
    u := u + "&symbol=" + c.symbol;
    Query.PrefixGrows(head, u, "&interval=", c.interval);
    u := u + "&interval=" + c.interval;
    Query.PrefixGrows(head, u, "&datatype=", c.dataType);
    u := u + "&datatype=" + c.dataType;
    Query.PrefixGrows(head, u, "&outputsize=", c.outputSize);
    u := u + "&outputsize=" + c.outputSize;
    Query.PrefixGrows(head, u, "&extended_hours=", ExtendedToken(c.extended));
    u := u + "&extended_hours=" + ExtendedToken(c.extended);
    Query.PrefixGrows(head, u, "&apikey=", c.apiKey);
    u := u + "&apikey=" + c.apiKey;
    Query.PrefixGrows(head, u, "&month=", c.month);
    Query.EndsWithAppended(u, "&month=", c.month);
  }

  /** The parameters of the URL, in the order they are written. */
  const Order: seq<Param> :=
    [Function, Symbol, Interval, DataType, OutputSize, ExtendedHours, ApiKey, Month]

  /** Where a parameter stands in the URL. */
  function Index(p: Param): (i: nat)
    ensures i < |Order| && Order[i] == p
  {
    match p
    case Function => 0
    case Symbol => 1
    case Interval => 2
    case DataType => 3
    case OutputSize => 4
    case ExtendedHours => 5
    case ApiKey => 6
    case Month => 7
  }

  /** The text a parameter's value takes in the URL. */
  function Value(c: Config, p: Param): string
  {
    match p
    case Function => c.func
    case Symbol => c.symbol
    case Interval => c.interval
    case DataType => c.dataType
    case OutputSize => c.outputSize
    case ExtendedHours => ExtendedToken(c.extended)
    case ApiKey => c.apiKey
    case Month => c.month
  }

  /** The fields of the URL: one per parameter, keyed and valued, in order. */
  function Fields(c: Config): (fs: seq<Query.Field>)
    ensures |fs| == |Order|
  {
    [ Query.Field("function", c.func),
      Query.Field("symbol", c.symbol),
      Query.Field("interval", c.interval),
      Query.Field("datatype", c.dataType),
      Query.Field("outputsize", c.outputSize),
      Query.Field("extended_hours", ExtendedToken(c.extended)),
      Query.Field("apikey", c.apiKey),
      Query.Field("month", c.month) ]
  }

  /** The field at a parameter's place carries its key and its value. */
  lemma FieldAt(c: Config, p: Param)
    ensures Fields(c)[Index(p)] == Query.Field(Key(p), Value(c, p))
  {
  }

  /** Each place in the URL belongs to exactly one parameter. */
  lemma IndexOrder(j: nat)
    requires j < |Order|
    ensures Index(Order[j]) == j
  {
  }

  /** No value the builder splices in holds the field separator `&`. */
  predicate NoSeparator(c: Config)
  {
    && Query.Sep !in c.symbol
    && Query.Sep !in c.func
    && Query.Sep !in c.interval
    && Query.Sep !in c.dataType
    && Query.Sep !in c.outputSize
    && Query.Sep !in c.month
    && Query.Sep !in c.apiKey
  }

  /** The configuration a list of fields describes: eight fields with the builder's keys in its order. */
  function FromFields(fs: seq<Query.Field>): Option<Config>
  {
    if KeyedBy(fs, Order)
       && ParseToken(fs[5].value).Some?
    then Some(Config(
      symbol := fs[1].value,
      func := fs[0].value,
      interval := fs[2].value,
      dataType := fs[3].value,
      outputSize := fs[4].value,
      extended := ParseToken(fs[5].value).value,
      month := fs[7].value,
      apiKey := fs[6].value))
    else None
  }

  /** The configuration a URL was built from, when it can be read back. */
  function FromUrl(url: string): Option<Config>
  {
    match ParseUrl(url)
    case None => None
    case Some(fs) => FromFields(fs)
  }

  /** The URL is the endpoint, `?`, and the query string of the fields in order. */
  lemma BuildUrlIsJoin(c: Config)
    ensures BuildUrl(c) == QueryStart + Query.Join(Fields(c))
  {
    LiteralPieces();
    var fs := Fields(c);
    JoinedFirstFour(fs, c.func, c.symbol, c.interval, c.dataType);
    var u := "https://www.alphavantage.co/query" + "?function=" + c.func + "&symbol=" + c.symbol
      + "&interval=" + c.interval + "&datatype=" + c.dataType;
    Query.JoinStep(QueryStart, fs, 4, u);
    u := u + "&outputsize=" + c.outputSize;
    Query.JoinStep(QueryStart, fs, 5, u);
    u := u + "&extended_hours=" + ExtendedToken(c.extended);
    Query.JoinStep(QueryStart, fs, 6, u);
    u := u + "&apikey=" + c.apiKey;
    Query.JoinStep(QueryStart, fs, 7, u);
    u := u + "&month=" + c.month;
    assert fs[..8] == fs;
  }

  /** The fields of a configuration describe it: reading them back gives the configuration. */
  lemma FromFieldsFields(c: Config)
    ensures FromFields(Fields(c)) == Some(c)
  {
    var fs := Fields(c);
    assert fs[5].value == ExtendedToken(c.extended);
  }

  /** When no value holds `&`, the fields of the URL can be told apart. */
  lemma FieldsSeparable(c: Config)
    requires NoSeparator(c)
    ensures Query.Separable(Fields(c))
  {
    assert KeyedBy(Fields(c), Order);
    KeyedSeparable(Fields(c), Order);
  }

  /** The query string of separable fields splits into exactly those eight fields, keys in order. */
  lemma JoinedFieldsInOrder(c: Config)
    requires NoSeparator(c)
    ensures |Query.Split(Query.Join(Fields(c)))| == 8
    ensures ParseUrl(QueryStart + Query.Join(Fields(c))) == Some(Fields(c))
    ensures Query.Keys(Fields(c)) ==
      ["function", "symbol", "interval", "datatype", "outputsize", "extended_hours", "apikey", "month"]
  {
    FieldsSeparable(c);
    ParseUrlJoin(Fields(c));
    Query.SplitUnsplit(Query.RenderAll(Fields(c)));
    var ks := Query.Keys(Fields(c));
    assert ks[5] == "extended_hours";
  }

  /**
   When no value holds `&`, the text after `?` splits on `&` into exactly
   eight fields whose keys are `function`, `symbol`, `interval`, `datatype`,
   `outputsize`, `extended_hours`, `apikey` and `month`, in that order, each
   carrying its value.
   */
  lemma QueryFieldsInOrder(c: Config)
    requires NoSeparator(c)
    ensures |Query.Split(BuildUrl(c)[|QueryStart|..])| == 8
    ensures ParseUrl(BuildUrl(c)) == Some(Fields(c))
    ensures Query.Keys(Fields(c)) ==
      ["function", "symbol", "interval", "datatype", "outputsize", "extended_hours", "apikey", "month"]
  {
    BuildUrlIsJoin(c);
    JoinedFieldsInOrder(c);
    assert (QueryStart + Query.Join(Fields(c)))[|QueryStart|..] == Query.Join(Fields(c));
  }

  /** Round trip: when no value holds `&`, the URL gives back the configuration it was built from. */
  lemma FromUrlBuildUrl(c: Config)
    requires NoSeparator(c)
    ensures FromUrl(BuildUrl(c)) == Some(c)
  {
    QueryFieldsInOrder(c);
    FromFieldsFields(c);
  }

  /** Configurations without `&` in any value that give the same URL are the same configuration. */
  lemma BuildUrlInjective(c: Config, d: Config)
    requires NoSeparator(c) && NoSeparator(d)
    requires BuildUrl(c) == BuildUrl(d)
    ensures c == d
  {
    FromUrlBuildUrl(c);
    FromUrlBuildUrl(d);
  }

  /**
   Values are not percent-encoded, so without the `&` condition the round
   trip fails: moving `&symbol=` and what follows it from the end of the
   function value to the front of the symbol value gives a different
   configuration and the same URL.
   */
  lemma AmpersandCollision(c: Config, s: string)
    ensures var moved := c.(func := c.func + "&symbol=" + s);
            var kept := c.(symbol := s + "&symbol=" + c.symbol);
            moved != kept && BuildUrl(moved) == BuildUrl(kept)
  {
    var moved := c.(func := c.func + "&symbol=" + s);
    var kept := c.(symbol := s + "&symbol=" + c.symbol);
    assert |moved.symbol| < |kept.symbol|;
    var x := "https://www.alphavantage.co/query" + "?function=";
    Query.ShiftAcross(x, c.func, "&symbol=", s, c.symbol);
  }

  /** The text of the URL before the value of parameter `p`: everything up to and including `key=`. */
  function Before(c: Config, p: Param): string
  {
    QueryStart + Query.JoinBefore(Fields(c), Index(p)) + Key(p) + [Query.Eq]
  }

  /** The text of the URL after the value of parameter `p`. */
  function After(c: Config, p: Param): string
  {
    Query.JoinAfter(Fields(c), Index(p))
  }

  /** The assembled URL around the value of parameter `p`. */
  lemma JoinedAround(c: Config, p: Param)
    ensures QueryStart + Query.Join(Fields(c)) == Before(c, p) + Value(c, p) + After(c, p)
  {
    var fs, i := Fields(c), Index(p);
    var jb, ja := Query.JoinBefore(fs, i), Query.JoinAfter(fs, i);
    Query.JoinAround(fs, i);
    FieldAt(c, p);
    Query.RegroupField(QueryStart, jb, Key(p), Value(c, p), ja);
  }

  /** Configurations that agree on every parameter but `p` share the text around `p`'s value. */
  lemma SameSurroundings(c: Config, d: Config, p: Param)
    requires forall q :: q != p ==> Value(c, q) == Value(d, q)
    ensures Before(c, p) == Before(d, p) && After(c, p) == After(d, p)
  {
    var i := Index(p);
    var fc, fd := Fields(c), Fields(d);
    assert fc[..i] == fd[..i] by {
      forall j | 0 <= j < i ensures fc[j] == fd[j] {
        IndexOrder(j);
        FieldAt(c, Order[j]);
        FieldAt(d, Order[j]);
      }
    }
    assert fc[i + 1..] == fd[i + 1..] by {
      forall j | i + 1 <= j < |fc| ensures fc[j] == fd[j] {
        IndexOrder(j);
        FieldAt(c, Order[j]);
        FieldAt(d, Order[j]);
      }
    }
  }

  /**
   Changing one parameter changes only its own segment: two configurations
   that agree on every other parameter give URLs that share the text before
   and after that parameter's value, and differ only in the value itself.
   */
  lemma OnlyItsSegmentDiffers(c: Config, d: Config, p: Param)
    requires forall q :: q != p ==> Value(c, q) == Value(d, q)
    ensures BuildUrl(c) == Before(c, p) + Value(c, p) + After(c, p)
    ensures BuildUrl(d) == Before(c, p) + Value(d, p) + After(c, p)
  {
    BuildUrlIsJoin(c);
    BuildUrlIsJoin(d);
    JoinedAround(c, p);
    JoinedAround(d, p);
    SameSurroundings(c, d, p);
  }

  /** Every parameter's `key=value` text occurs in the URL. */
  lemma EveryFieldInUrl(c: Config, p: Param)
    ensures Query.Contains(BuildUrl(c), Key(p) + "=" + Value(c, p))
  {
    OnlyItsSegmentDiffers(c, c, p);
    Query.ContainsField(QueryStart + Query.JoinBefore(Fields(c), Index(p)), Key(p), Value(c, p), After(c, p));
    assert [Query.Eq] == "=";
  }

  /** The flag's field is in the URL, as `extended_hours=true` or `extended_hours=false`. */
  lemma ExtendedHoursInUrl(c: Config)
    ensures Query.Contains(BuildUrl(c), "extended_hours=" + (if c.extended then "true" else "false"))
  {
    EveryFieldInUrl(c, ExtendedHours);
    assert Key(ExtendedHours) + "=" == "extended_hours=";
  }

  /** The configuration of the repository's `build_url` test. */
  const Fixture: Config := Config(
    symbol := "AAPL",
    func := "TIME_SERIES_INTRADAY",
    interval := "5min",
    dataType := "json",
    outputSize := "compact",
    extended := false,
    month := "2023-01",
    apiKey := "your_api_key")

  /** The parts the repository's test looks for in a URL: the endpoint and every `key=value` field. */
  function TestParts(c: Config): seq<string>
  {
    [Endpoint] + seq(|Order|, i requires 0 <= i < |Order| => Key(Order[i]) + "=" + Value(c, Order[i]))
  }

  /** Every URL contains each of the parts the test looks for. */
  lemma UrlContainsTestParts(c: Config)
    ensures forall i :: 0 <= i < |TestParts(c)| ==> Query.Contains(BuildUrl(c), TestParts(c)[i])
  {
    var url := BuildUrl(c);
    forall i | 0 <= i < |TestParts(c)|
      ensures Query.Contains(url, TestParts(c)[i])
    {
      if i == 0 {
        BuildUrlEnds(c);
        assert url == Endpoint + url[|Endpoint|..];
        Query.ContainsInfix("", Endpoint, url[|Endpoint|..]);
      } else {
        EveryFieldInUrl(c, Order[i - 1]);
      }
    }
  }

  /**
   The nine parts the repository's `build_url` test expects, each field
   written as its key, `=` and its value.
   */
  const FixtureParts: seq<string> := [
    "https://www.alphavantage.co/query",
    "function" + "=" + "TIME_SERIES_INTRADAY",
    "symbol" + "=" + "AAPL",
    "interval" + "=" + "5min",
    "datatype" + "=" + "json",
    "outputsize" + "=" + "compact",
    "extended_hours" + "=" + "false",
    "apikey" + "=" + "your_api_key",
    "month" + "=" + "2023-01"]

  /** The test's URL contains each of the nine parts the test expects. */
  lemma FixtureUrlParts()
    ensures forall i :: 0 <= i < |FixtureParts| ==> Query.Contains(BuildUrl(Fixture), FixtureParts[i])
  {
    UrlContainsTestParts(Fixture);
    assert TestParts(Fixture) == FixtureParts;
  }
}
