/**
 How the two builders relate: for the same values, the live builder's URL
 is the earlier builder's URL followed by `&month=` and the month, and its
 fields are the earlier fields followed by the `month` field.
 */
module Versions {
  import Query
  import Shares
  import StreamlitApp
  import AlphaVantage

  /** The earlier builder's request carrying the same values as a configuration; the month is dropped. */
  function Earlier(c: Shares.Config): (r: StreamlitApp.AlphaVantageRequest)
    ensures WithMonth(r, c.month) == c
  {
    StreamlitApp.AlphaVantageRequest(
      symbol := c.symbol,
      func := c.func,
      interval := c.interval,
      dataType := c.dataType,
      outputSize := c.outputSize,
      extended := c.extended,
      apiKey := c.apiKey)
  }

  /** The configuration of the live builder made of an earlier request and a month. */
  function WithMonth(r: StreamlitApp.AlphaVantageRequest, month: string): (c: Shares.Config)
    ensures c.month == month
  {
    Shares.Config(
      symbol := r.symbol,
      func := r.func,
      interval := r.interval,
      dataType := r.dataType,
      outputSize := r.outputSize,
      extended := r.extended,
      month := month,
      apiKey := r.apiKey)
  }

  /** The live URL is the earlier URL followed by `&month=` and the month. */
  lemma MonthAppended(c: Shares.Config)
    ensures Shares.BuildUrl(c) == StreamlitApp.Url(Earlier(c)) + "&month=" + c.month
  {
  }

  /** The live fields are the earlier fields followed by the `month` field. */
  lemma MonthFieldAppended(c: Shares.Config)
    ensures Shares.Fields(c) == StreamlitApp.Fields(Earlier(c)) + [Query.Field("month", c.month)]
  {
  }

  /**
   The URLs are not interchangeable: whatever its values hold, a live URL
   splits into at least eight pieces, so reading it as an earlier URL fails.
   */
  lemma LiveUrlIsNotEarlier(c: Shares.Config)
    ensures |Query.Split(Shares.BuildUrl(c)[|AlphaVantage.QueryStart|..])| >= 8
    ensures StreamlitApp.FromUrl(Shares.BuildUrl(c)).None?
  {
    var fs := Shares.Fields(c);
    var url := Shares.BuildUrl(c);
    Shares.BuildUrlIsJoin(c);
    assert url[|AlphaVantage.QueryStart|..] == Query.Join(fs);
    Query.SplitUnsplitAtLeast(Query.RenderAll(fs));
  }
}
