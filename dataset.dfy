/**
 * The data table as the dashboard holds it after start-up: the projection of
 * the Our World in Data file to seven columns, with the aggregate rows
 * (World, continents, income groups) removed, and the list of options of the
 * country dropdown built from it.
 */
module Dataset {
  import opened Wrappers
  import opened Sequences

  /**
   * One observation: the seven selected columns. Dates are day numbers; a
   * numeric cell that pandas reads as NaN is None.
   */
  datatype Row = Row(
    isoCode: string,
    location: string,
    date: int,
    newCasesSmoothed: Option<real>,
    stringencyIndex: Option<real>,
    population: Option<real>,
    gdpPerCapita: Option<real>)

  /** The marker that Our World in Data puts in the code of every aggregate row. */
  const AggregateMarker := "OWID"

  /** The dropdown value that selects every country. */
  const Worldwide := "Worldwide"

  /** One entry of the country dropdown. */
  datatype DropdownOption = DropdownOption(labelText: string, value: string)

  const WorldwideOption := DropdownOption(Worldwide, Worldwide)

  predicate StartsWith(s: string, prefix: string)
  {
    |prefix| <= |s| && s[..|prefix|] == prefix
  }

  /** Case-sensitive substring test, as `Series.str.contains` with a pattern free of metacharacters. */
  function Contains(s: string, sub: string): (b: bool)
    ensures b ==> |sub| <= |s|
    ensures StartsWith(s, sub) ==> b
    decreases |s|
  {
    StartsWith(s, sub) || (s != [] && Contains(s[1..], sub))
  }

  ghost predicate OccursAt(s: string, sub: string, i: int)
  {
    0 <= i && i + |sub| <= |s| && s[i..i + |sub|] == sub
  }

  /** `sub` occurs somewhere in `s`. */
  ghost predicate HasSubstring(s: string, sub: string)
  {
    exists i :: OccursAt(s, sub, i)
  }

  lemma {:induction false} ContainsIsSubstring(s: string, sub: string)
    ensures Contains(s, sub) <==> HasSubstring(s, sub)
    decreases |s|
  {
    if StartsWith(s, sub) {
      assert OccursAt(s, sub, 0);
    } else if s != [] {
      ContainsIsSubstring(s[1..], sub);
      if HasSubstring(s[1..], sub) {
        var i :| OccursAt(s[1..], sub, i);
        assert s[i + 1..i + 1 + |sub|] == s[1..][i..i + |sub|];
        assert OccursAt(s, sub, i + 1);
      }
      if HasSubstring(s, sub) {
        var i :| OccursAt(s, sub, i);
        assert i != 0;
        assert s[1..][i - 1..i - 1 + |sub|] == s[i..i + |sub|];
        assert OccursAt(s[1..], sub, i - 1);
      }
    }
  }

  /** The load-time selection: the rows whose code does not contain the aggregate marker. */
  function ExcludeAggregates(data: seq<Row>): (kept: seq<Row>)
    ensures |kept| <= |data|
    ensures forall r :: r in kept ==> r in data && !Contains(r.isoCode, AggregateMarker)
  {
    Filter(data, (r: Row) => !Contains(r.isoCode, AggregateMarker))
  }

  /**
   * After loading, no row's code contains the aggregate marker; every other
   * row is kept, each occurrence of it, in its original order.
   */
  lemma ExcludeAggregatesKeepsCountries(raw: seq<Row>)
    ensures forall r :: r in ExcludeAggregates(raw) <==> r in raw && !HasSubstring(r.isoCode, AggregateMarker)
    ensures forall r :: (multiset(ExcludeAggregates(raw))[r] ==
                         if HasSubstring(r.isoCode, AggregateMarker) then 0 else multiset(raw)[r])
    ensures IsSubsequence(ExcludeAggregates(raw), raw)
  {
    forall r: Row {
      ContainsIsSubstring(r.isoCode, AggregateMarker);
    }
    FilterCounts(raw, (r: Row) => !Contains(r.isoCode, AggregateMarker));
    FilterSubsequence(raw, (r: Row) => !Contains(r.isoCode, AggregateMarker));
  }

  /** The `location` column. */
  function Locations(rows: seq<Row>): seq<string>
  {
    Map(rows, (r: Row) => r.location)
  }

  /** A location occurs in the column exactly when some row has it. */
  lemma LocationsMembers(rows: seq<Row>, l: string)
    ensures l in Locations(rows) <==> exists r :: r in rows && r.location == l
  {
    if l in Locations(rows) {
      var i :| 0 <= i < |rows| && Locations(rows)[i] == l;
      assert rows[i] in rows;
    }
  }

  /** The dropdown options: the Worldwide sentinel, then one option per distinct location. */
  function CountryOptions(data: seq<Row>): (opts: seq<DropdownOption>)
    ensures |opts| == 1 + |Unique(Locations(data))|
    ensures opts[0] == WorldwideOption
    ensures forall i :: 1 <= i < |opts| ==> opts[i].labelText == opts[i].value
  {
    [WorldwideOption] + Map(Unique(Locations(data)), (l: string) => DropdownOption(l, l))
  }

  /**
   * The option list starts with Worldwide; after it comes every location of
   * the table exactly once, in order of first appearance, with its label text
   * equal to its value.
   */
  lemma CountryOptionsListing(data: seq<Row>)
    ensures var opts := CountryOptions(data);
      && |opts| >= 1 && opts[0] == WorldwideOption
      && (forall i :: 1 <= i < |opts| ==> opts[i].labelText == opts[i].value)
      && (forall l :: (exists i :: 1 <= i < |opts| && opts[i].value == l) <==> l in Locations(data))
      && (forall i, j :: 1 <= i < j < |opts| ==> opts[i].value != opts[j].value)
      && (forall i, j :: 1 <= i < j < |opts| ==>
            opts[i].value in Locations(data) && opts[j].value in Locations(data) &&
            FirstIndex(Locations(data), opts[i].value) < FirstIndex(Locations(data), opts[j].value))
  {
    var u := Unique(Locations(data));
    var opts := CountryOptions(data);
    assert forall i :: 1 <= i < |opts| ==> opts[i] == DropdownOption(u[i - 1], u[i - 1]);
    UniqueFirstAppearance(Locations(data));
    forall l | l in Locations(data)
      ensures exists i :: 1 <= i < |opts| && opts[i].value == l
    {
      var k :| 0 <= k < |u| && u[k] == l;
      assert opts[k + 1].value == l;
    }
  }

  /**
   * Start-up: project the table (the Row type), drop the aggregate rows
   * (rebinding `data`), then build the dropdown list by extending a list that
   * holds the Worldwide option.
   */
  method Setup(raw: seq<Row>) returns (data: seq<Row>, countries: seq<DropdownOption>)
    ensures data == ExcludeAggregates(raw)
    ensures countries == CountryOptions(data)
    ensures forall r :: r in data ==> !HasSubstring(r.isoCode, AggregateMarker)
    ensures |countries| >= 1 && countries[0] == WorldwideOption
  {
    data := raw;
    data := ExcludeAggregates(data);
    countries := [WorldwideOption];
    countries := countries + Map(Unique(Locations(data)), (l: string) => DropdownOption(l, l));
    ExcludeAggregatesKeepsCountries(raw);
  }
}
