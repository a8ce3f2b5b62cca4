# Alpha Vantage request-URL builder

A Dafny model of the request-URL construction of a small stock-market
dashboard. The dashboard collects a symbol, a time-series function, an
interval, a data type, an output size, an extended-hours flag, a month and
an API key, and turns them into a query URL for the Alpha Vantage endpoint
`https://www.alphavantage.co/query`. Everything else in the repository
(widgets, the HTTP fetch, CSV parsing, charts) is outside the model.

Two versions of the builder exist and both are modelled:

- `AlphaVantageRequest.build_url` in `backend/shares.py` (module `Shares`), the
  live one. It takes a configuration dict and writes eight `key=value` fields
  joined by `&`, in the order `function`, `symbol`, `interval`, `datatype`,
  `outputsize`, `extended_hours`, `apikey`, `month`.
- The earlier `AlphaVantageRequest(APIRequest).build_url` in
  `backend/streamlit_app.py` (module `StreamlitApp`). It writes the same
  fields without `month`, so `apikey` is last. There the class inherits from
  the abstract `APIRequest`, and a request object is either the base or the
  subclass (`StreamlitApp.Request`).

In both files the abstract `APIRequest.build_url` raises
`NotImplementedError("Subclass must implement abstract method")`; the model
returns that error as a `Result` failure (`AlphaVantage.AbstractBuildUrl`).

The flag is written as the lowercase word `true` or `false`. Values are
spliced in verbatim: there is no percent-encoding (section 2.1 of RFC 3986)
and no validation. Empty strings and values outside the sidebar's choice
lists all give a URL, so neither builder has a precondition.

Module layout:

- `Wrappers`: `Option` and `Result`.
- `Query`: `key=value` fields, joining them with `&`, and the partner parser.
  The parser splits on `&` the way Python's `str.split` does, then splits each
  piece at its first `=`. The module proves that parsing undoes joining
  for every non-empty list of fields in which no key or value holds `&` and no
  key holds `=`. The empty list is the exception: it joins to the empty
  string, which parses as one piece without `=`.
- `AlphaVantage`: what both builders share. This is the endpoint, the
  parameter keys, the flag token, the abstract base's error and the URL parser.
- `Shares` and `StreamlitApp`: the two builders, the record each one reads,
  and their properties.
- `Versions`: how the two builders relate.

Neither builder validates anything: unknown functions or intervals and empty
symbols or keys all give a URL. The choice lists exist only as sidebar select
boxes (`backend/shares.py:57-67`).

The round-trip and field-order lemmas need the condition that no value holds
`&`. `Shares.AmpersandCollision` shows that the condition cannot be dropped.
Two different configurations can give the same URL when a value carries
`&symbol=`.

## Model

| member | source | states |
|---|---|---|
| `Shares.BuildUrl` | backend/shares.py:125-135 | The live `build_url`. It has no `requires`, so it is total on every configuration, and its body is the f-string concatenation. It carries no `ensures` of its own; its shape is stated by `Shares.BuildUrlIsJoin` and `Shares.BuildUrlEnds`. |
| `Shares.BuildUrlIsJoin` | backend/shares.py:125-135 | For every configuration, with no validation, the URL is exactly the endpoint, `?`, and the eight `key=value` fields joined by `&`. The fields come in the order function, symbol, interval, datatype, outputsize, extended_hours, apikey, month, and each value is inserted verbatim. |
| `Shares.BuildUrlEnds` | backend/shares.py:127-135 | The URL starts with `https://www.alphavantage.co/query?function=` followed by the function value. It ends with `&month=` followed by the month. |
| `AlphaVantage.ExtendedToken` | backend/shares.py:126 | The flag is rendered as one of the two lowercase words `true` and `false`, and the word read back gives the flag. |
| `Shares.ExtendedHoursInUrl` | backend/shares.py:126-133 | The URL contains `extended_hours=true` when the flag is set and `extended_hours=false` when it is not. |
| `Shares.EveryFieldInUrl` | backend/shares.py:128-135 | Every parameter's `key=value` text occurs in the URL. |
| `Shares.QueryFieldsInOrder` | backend/shares.py:128-135 | When no value holds `&`, the text after `?` splits on `&` into exactly 8 fields. Their keys are function, symbol, interval, datatype, outputsize, extended_hours, apikey and month, in that order, and each field carries its value. |
| `Shares.FromUrlBuildUrl` | backend/shares.py:125-135 | When no value holds `&`, parsing the URL gives back exactly the configuration it was built from. |
| `Shares.BuildUrlInjective` | backend/shares.py:125-135 | Two configurations without `&` in any value that give the same URL are equal. |
| `Shares.AmpersandCollision` | backend/shares.py:128-129 | Values are not encoded. Moving `&symbol=` and the text after it from the function value to the front of the symbol value gives a different configuration with the same URL. |
| `Shares.OnlyItsSegmentDiffers` | backend/shares.py:126-135 | Take two configurations that agree on every parameter but one. Their URLs share the text before and after that parameter's value and differ only in the value itself. For the flag, that value is the `true`/`false` token. |
| `Shares.FixtureUrlParts` | tests/test_shares.py:37-83 | For the test's configuration (AAPL, TIME_SERIES_INTRADAY, 5min, json, compact, false, 2023-01, your_api_key), the URL contains each of the nine parts the test expects, `extended_hours=false` and `month=2023-01` among them. |
| `AlphaVantage.AbstractBuildUrl` | backend/shares.py:109-115 | The abstract base's `build_url` never gives a URL. It always fails with `NotImplementedError("Subclass must implement abstract method")`. |
| `StreamlitApp.BuildUrl` | backend/streamlit_app.py:64-90 | Calling `build_url` on a request object succeeds exactly when the object is the subclass. Then the URL starts with the endpoint and `?function=` and the function value, and ends with `&apikey=` and the key. On the base it fails with `NotImplementedError` and the abstract-method message. |
| `StreamlitApp.Url` | backend/streamlit_app.py:80-90 | The earlier subclass's `build_url`. It has no `requires`, so it is total on every request, and its body is the f-string concatenation. It carries no `ensures` of its own; its shape is stated by `StreamlitApp.UrlIsJoin` and `StreamlitApp.UrlEnds`. |
| `StreamlitApp.UrlEnds` | backend/streamlit_app.py:83-90 | The subclass's URL starts with `https://www.alphavantage.co/query?function=` and the function value. It ends with `&apikey=` and the API key, for every request, with no validation. |
| `StreamlitApp.UrlIsJoin` | backend/streamlit_app.py:80-90 | The URL is exactly the endpoint, `?`, and seven `key=value` fields joined by `&`, ending with apikey. There is no month field. |
| `StreamlitApp.ExtendedHoursInUrl` | backend/streamlit_app.py:82-89 | The URL contains `extended_hours=true` or `extended_hours=false` according to the flag. |
| `StreamlitApp.QueryFieldsInOrder` | backend/streamlit_app.py:84-90 | When no value holds `&`, the query splits into exactly 7 fields. Their keys are function, symbol, interval, datatype, outputsize, extended_hours and apikey, in that order. |
| `StreamlitApp.FromUrlUrl` | backend/streamlit_app.py:80-90 | When no value holds `&`, parsing the URL gives back exactly the request it was built from. |
| `Versions.MonthAppended` | backend/shares.py:127-135 | For equal field values, the live URL equals the earlier URL followed by `&month=` and the month. |
| `Versions.MonthFieldAppended` | backend/streamlit_app.py:83-90 | For equal field values, the live builder's fields are the earlier builder's seven fields followed by the `month` field. |
| `Versions.LiveUrlIsNotEarlier` | backend/shares.py:125-135 | For every configuration, including values that hold `&`, the live URL's query splits into at least eight pieces, so the seven-field reading of the earlier builder rejects it. |

## Left out

- The network fetch is left out. This is `APIRequest.get_data`, a `requests.get` with a 10-second timeout (`backend/shares.py:104-107`, `backend/streamlit_app.py:55-62`). It is I/O, and the model ends at the URL.
- The `st.cache_data(ttl=600)` memoisation of the fetch is left out. It is a framework decorator with a wall-clock TTL and has no cache logic of its own to verify.
- Response handling is left out: `st.json`, `StringIO`, `pd.read_csv` and the table display. These are foreign library calls, and the code does no column or value validation.
- `plot_candlestick_chart`, page setup, tabs, sidebar widgets, the `tracemalloc`/`warnings` bootstrap and `main()` are left out. They are rendering and process setup.
- `backend/call.py` is not part of this model. It is a one-off script with fixed constants and an import-time network call, and its field order differs (`month` right after `interval`).
- `app.py` is not part of this model. It is entry-point wiring only.
- The configuration dict is modelled as a record. A dict missing a key, which raises `KeyError` in Python, is not modelled. Non-string values, which the f-string would format with `str()`, are not modelled either.
- The flag is modelled as a boolean, as the sidebar toggle and checkbox deliver it. Python's truthiness of other values in the `'true' if ... else 'false'` test is not modelled.
- The constructors `AlphaVantageRequest.__init__` in both files only store their arguments. They are the datatype constructors `Shares.Config` and `StreamlitApp.AlphaVantageRequest`.
