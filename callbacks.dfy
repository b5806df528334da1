/**
 * The row selections of the two Dash callbacks: `update_stringency_plot`
 * (a line chart over a date window) and `update_cases_plot` (a bar chart
 * on the end date). Each callback returns the rows it hands to the chart
 * and the subtitle shown above it.
 */
module Callbacks {
  import opened Wrappers
  import opened Sequences
  import opened Dataset

  const NoMatchSubtitle := "No countries match your filters."

  /** How many locations the Worldwide new-cases chart shows at most. */
  const MaxBarLocations := 7

  /** The two ends of a range slider, both inclusive. */
  datatype Range = Range(lo: real, hi: real)

  /** A NaN cell compares false in pandas, so a missing value is never in range. */
  predicate InRange(v: Option<real>, r: Range)
  {
    v.Some? && r.lo <= v.value && v.value <= r.hi
  }

  /** The rows a callback gives to its chart and the subtitle it returns. */
  datatype Plot = Plot(rows: seq<Row>, subtitle: string)

  /** The rows of one location. */
  function WhereLocation(rows: seq<Row>, country: string): seq<Row>
  {
    Filter(rows, (r: Row) => r.location == country)
  }

  /** The rows dated in the inclusive window [start, end]. */
  function WhereDateBetween(rows: seq<Row>, start: int, end: int): seq<Row>
  {
    Filter(rows, (r: Row) => start <= r.date && r.date <= end)
  }

  /** The rows dated on one day. */
  function WhereDateIs(rows: seq<Row>, day: int): seq<Row>
  {
    Filter(rows, (r: Row) => r.date == day)
  }

  /** The rows whose GDP per capita and population both lie in their slider ranges. */
  function WhereDemographics(rows: seq<Row>, population: Range, gdp: Range): seq<Row>
  {
    Filter(rows, (r: Row) => InRange(r.gdpPerCapita, gdp) && InRange(r.population, population))
  }

  /** The rows whose location is one of `locations`. */
  function WhereLocationIn(rows: seq<Row>, locations: seq<string>): seq<Row>
  {
    Filter(rows, (r: Row) => r.location in locations)
  }

  function SubtitleFor(selection: seq<Row>): string
  {
    if |selection| == 0 then NoMatchSubtitle else ""
  }

  /** `update_stringency_plot`, without the chart it renders. */
  function StringencyPlot(data: seq<Row>, country: string, population: Range, gdp: Range,
                          start: int, end: int): (plot: Plot)
    ensures forall r :: r in plot.rows ==> r in data && start <= r.date <= end
    ensures country != Worldwide ==> plot.subtitle == ""
    ensures plot.subtitle == "" || plot.subtitle == NoMatchSubtitle
  {
    if country != Worldwide then
      Plot(WhereDateBetween(WhereLocation(data, country), start, end), "")
    else
      var selection := WhereDateBetween(WhereDemographics(data, population, gdp), start, end);
      Plot(selection, SubtitleFor(selection))
  }

  /** The Worldwide new-cases rows before the cut to the first locations. */
  function CasesCandidates(data: seq<Row>, population: Range, gdp: Range, end: int): (candidates: seq<Row>)
    ensures forall r :: r in candidates ==> r in data && r.date == end
  {
    WhereDateIs(WhereDemographics(data, population, gdp), end)
  }

  /** The distinct candidate locations in encounter order, cut to the first MaxBarLocations when there are more. */
  function ShownLocations(candidates: seq<Row>): (shown: seq<string>)
    ensures |shown| <= MaxBarLocations
    ensures forall l :: l in shown ==> l in Locations(candidates)
  {
    var unique := Unique(Locations(candidates));
    if |unique| > MaxBarLocations then unique[..MaxBarLocations] else unique
  }

  /** `update_cases_plot`, without the chart it renders. */
  function CasesPlot(data: seq<Row>, country: string, population: Range, gdp: Range,
                     start: int, end: int): (plot: Plot)
    ensures forall r :: r in plot.rows ==> r in data && r.date == end
    ensures country != Worldwide ==> plot.subtitle == ""
    ensures plot.subtitle == "" || plot.subtitle == NoMatchSubtitle
  {
    if country != Worldwide then
      Plot(WhereDateIs(WhereLocation(data, country), end), "")
    else
      var candidates := CasesCandidates(data, population, gdp, end);
      Plot(WhereLocationIn(candidates, ShownLocations(candidates)), SubtitleFor(candidates))
  }

  /**
   * Stringency for one country: exactly the rows of that country dated
   * within [start, end], both ends inclusive, in their original order, and
   * no subtitle.
   */
  lemma StringencyCountrySelection(data: seq<Row>, country: string, population: Range, gdp: Range,
                                   start: int, end: int)
    requires country != Worldwide
    ensures var plot := StringencyPlot(data, country, population, gdp, start, end);
      && plot.rows == Filter(data, (r: Row) => r.location == country && start <= r.date <= end)
      && (forall r :: r in plot.rows <==> r in data && r.location == country && start <= r.date <= end)
      && IsSubsequence(plot.rows, data)
      && plot.subtitle == ""
  {
    FilterFilter(data, (r: Row) => r.location == country, (r: Row) => start <= r.date && r.date <= end,
                 (r: Row) => r.location == country && start <= r.date <= end);
    FilterSubsequence(data, (r: Row) => r.location == country && start <= r.date <= end);
  }

  /**
   * Stringency for Worldwide: exactly the rows whose population, GDP per
   * capita and date all lie in their inclusive ranges, in their original
   * order; the subtitle reports an empty selection and is empty otherwise.
   */
  lemma StringencyWorldwideSelection(data: seq<Row>, population: Range, gdp: Range, start: int, end: int)
    ensures var plot := StringencyPlot(data, Worldwide, population, gdp, start, end);
      && plot.rows == Filter(data, (r: Row) => InRange(r.population, population) &&
                                               InRange(r.gdpPerCapita, gdp) && start <= r.date <= end)
      && (forall r :: r in plot.rows <==> r in data && InRange(r.population, population) &&
                                          InRange(r.gdpPerCapita, gdp) && start <= r.date <= end)
      && IsSubsequence(plot.rows, data)
      && (plot.subtitle == NoMatchSubtitle <==> plot.rows == [])
      && (plot.subtitle == "" <==> plot.rows != [])
  {
    var all := (r: Row) => InRange(r.population, population) && InRange(r.gdpPerCapita, gdp) &&
                           start <= r.date <= end;
    FilterFilter(data, (r: Row) => InRange(r.gdpPerCapita, gdp) && InRange(r.population, population),
                 (r: Row) => start <= r.date && r.date <= end, all);
    FilterSubsequence(data, all);
  }

  /** Running the stringency selection on its own output changes nothing, subtitle included. */
  lemma StringencyIdempotent(data: seq<Row>, country: string, population: Range, gdp: Range,
                             start: int, end: int)
    ensures var plot := StringencyPlot(data, country, population, gdp, start, end);
      StringencyPlot(plot.rows, country, population, gdp, start, end) == plot
  {
    var rows := StringencyPlot(data, country, population, gdp, start, end).rows;
    if country != Worldwide {
      FilterAll(rows, (r: Row) => r.location == country);
      FilterAll(rows, (r: Row) => start <= r.date && r.date <= end);
    } else {
      FilterAll(rows, (r: Row) => InRange(r.gdpPerCapita, gdp) && InRange(r.population, population));
      FilterAll(rows, (r: Row) => start <= r.date && r.date <= end);
    }
  }

  /**
   * New cases for one country: exactly the rows of that country dated on the
   * end date, in their original order, with no cut and no subtitle.
   */
  lemma CasesCountrySelection(data: seq<Row>, country: string, population: Range, gdp: Range,
                              start: int, end: int)
    requires country != Worldwide
    ensures var plot := CasesPlot(data, country, population, gdp, start, end);
      && plot.rows == Filter(data, (r: Row) => r.location == country && r.date == end)
      && (forall r :: r in plot.rows <==> r in data && r.location == country && r.date == end)
      && IsSubsequence(plot.rows, data)
      && plot.subtitle == ""
  {
    FilterFilter(data, (r: Row) => r.location == country, (r: Row) => r.date == end,
                 (r: Row) => r.location == country && r.date == end);
    FilterSubsequence(data, (r: Row) => r.location == country && r.date == end);
  }

  /**
   * The Worldwide new-cases candidates: exactly the rows whose population and
   * GDP per capita lie in their inclusive ranges and that are dated on the
   * end date, in their original order.
   */
  lemma CasesCandidatesSelection(data: seq<Row>, population: Range, gdp: Range, end: int)
    ensures var candidates := CasesCandidates(data, population, gdp, end);
      && candidates == Filter(data, (r: Row) => InRange(r.population, population) &&
                                                InRange(r.gdpPerCapita, gdp) && r.date == end)
      && (forall r :: r in candidates <==> r in data && InRange(r.population, population) &&
                                           InRange(r.gdpPerCapita, gdp) && r.date == end)
      && IsSubsequence(candidates, data)
  {
    var all := (r: Row) => InRange(r.population, population) && InRange(r.gdpPerCapita, gdp) && r.date == end;
    FilterFilter(data, (r: Row) => InRange(r.gdpPerCapita, gdp) && InRange(r.population, population),
                 (r: Row) => r.date == end, all);
    FilterSubsequence(data, all);
  }

  /**
   * What the `[:7]` cut means: the shown locations are the first min(7, n)
   * of the n distinct candidate locations, in encounter order (not ranked by
   * case count).
   */
  lemma ShownLocationsPrefix(candidates: seq<Row>)
    ensures var unique := Unique(Locations(candidates));
      && ShownLocations(candidates) <= unique
      && |ShownLocations(candidates)| == if |unique| > MaxBarLocations then MaxBarLocations else |unique|
  {
  }

  /** The distinct locations of the Worldwide cases result are exactly the shown locations. */
  lemma {:induction false} ShownLocationsOfResult(candidates: seq<Row>)
    ensures Unique(Locations(WhereLocationIn(candidates, ShownLocations(candidates)))) == ShownLocations(candidates)
  {
    var unique := Unique(Locations(candidates));
    var shown := ShownLocations(candidates);
    var m := |shown|;
    assert shown == unique[..m];
    MapFilter(candidates, (r: Row) => r.location, (r: Row) => r.location in shown, (l: string) => l in shown);
    UniqueFilter(Locations(candidates), (l: string) => l in shown);
    FilterPrefix(unique, m, (l: string) => l in shown);
  }

  /**
   * New cases for Worldwide: the rows come from the candidates, in their
   * order; a candidate is kept exactly when its location is shown; the
   * result has at most seven distinct locations, and these are a prefix of
   * the candidates' distinct locations in encounter order.
   */
  lemma CasesWorldwideCut(data: seq<Row>, population: Range, gdp: Range, start: int, end: int)
    ensures var candidates := CasesCandidates(data, population, gdp, end);
      var plot := CasesPlot(data, Worldwide, population, gdp, start, end);
      && IsSubsequence(plot.rows, candidates)
      && (forall r :: r in plot.rows <==> r in candidates && r.location in ShownLocations(candidates))
      && Unique(Locations(plot.rows)) <= Unique(Locations(candidates))
      && |Unique(Locations(plot.rows))| <= MaxBarLocations
  {
    var candidates := CasesCandidates(data, population, gdp, end);
    FilterSubsequence(candidates, (r: Row) => r.location in ShownLocations(candidates));
    ShownLocationsOfResult(candidates);
  }

  /** With seven or fewer distinct candidate locations the cut removes no row. */
  lemma CasesWorldwideNoCut(data: seq<Row>, population: Range, gdp: Range, start: int, end: int)
    requires |Unique(Locations(CasesCandidates(data, population, gdp, end)))| <= MaxBarLocations
    ensures CasesPlot(data, Worldwide, population, gdp, start, end).rows == CasesCandidates(data, population, gdp, end)
  {
    var candidates := CasesCandidates(data, population, gdp, end);
    var shown := ShownLocations(candidates);
    forall r | r in candidates
      ensures r.location in shown
    {
      LocationsMembers(candidates, r.location);
    }
    FilterAll(candidates, (r: Row) => r.location in shown);
  }

  /** The cut never empties a non-empty candidate set. */
  lemma CasesCutKeepsSome(candidates: seq<Row>)
    ensures WhereLocationIn(candidates, ShownLocations(candidates)) == [] <==> candidates == []
  {
    if candidates != [] {
      var unique := Unique(Locations(candidates));
      assert Locations(candidates)[0] == candidates[0].location;
      assert candidates[0].location in unique;
      var first := ShownLocations(candidates)[0];
      LocationsMembers(candidates, first);
      var r :| r in candidates && r.location == first;
      assert r in WhereLocationIn(candidates, ShownLocations(candidates));
    }
  }

  /**
   * New cases for Worldwide: the subtitle reports "no match" exactly when no
   * candidate matches the filters, which is exactly when the chart is empty.
   */
  lemma CasesWorldwideSubtitle(data: seq<Row>, population: Range, gdp: Range, start: int, end: int)
    ensures var plot := CasesPlot(data, Worldwide, population, gdp, start, end);
      && (plot.subtitle == NoMatchSubtitle <==> CasesCandidates(data, population, gdp, end) == [])
      && (plot.subtitle == "" <==> CasesCandidates(data, population, gdp, end) != [])
      && (plot.rows == [] <==> CasesCandidates(data, population, gdp, end) == [])
  {
    CasesCutKeepsSome(CasesCandidates(data, population, gdp, end));
  }

  /** Running the new-cases selection on its own output changes nothing, subtitle included. */
  lemma CasesIdempotent(data: seq<Row>, country: string, population: Range, gdp: Range,
                        start: int, end: int)
    ensures var plot := CasesPlot(data, country, population, gdp, start, end);
      CasesPlot(plot.rows, country, population, gdp, start, end) == plot
  {
    var rows := CasesPlot(data, country, population, gdp, start, end).rows;
    if country != Worldwide {
      FilterAll(rows, (r: Row) => r.location == country);
      FilterAll(rows, (r: Row) => r.date == end);
    } else {
      var candidates := CasesCandidates(data, population, gdp, end);
      var shown := ShownLocations(candidates);
      FilterAll(rows, (r: Row) => InRange(r.gdpPerCapita, gdp) && InRange(r.population, population));
      FilterAll(rows, (r: Row) => r.date == end);
      assert CasesCandidates(rows, population, gdp, end) == rows;
      ShownLocationsOfResult(candidates);
      assert ShownLocations(rows) == shown;
      FilterAll(rows, (r: Row) => r.location in shown);
      CasesCutKeepsSome(candidates);
    }
  }
}
