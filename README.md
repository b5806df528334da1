# covid_viz: the dashboard's row selection, in Dafny

The dashboard (`app.py`) loads the Our World in Data COVID-19 table once. It
keeps seven columns, drops the aggregate rows (World, continents, income
groups), and builds a country dropdown. Two Dash callbacks then choose the rows
each chart shows:

- `update_stringency_plot` draws a line chart over a date window.
- `update_cases_plot` draws a bar chart for the end date. In Worldwide mode it
  cuts the chart to the first seven distinct locations.

This project models that pipeline over a table given as `seq<Row>` and proves
what each selection returns.

Modules:

- `Wrappers` (`wrappers.dfy`): `Option`, used for numeric cells that pandas
  reads as NaN.
- `Sequences` (`sequences.dfy`): the table operations the code uses.
  - `Filter` is a boolean-mask selection `frame[mask]`.
  - `Map` extracts a column.
  - `Unique` is first-appearance de-duplication, as `Series.unique()`.
  - The module also proves the general facts about these operations.
- `Dataset` (`dataset.dfy`): the `Row` type (the seven selected columns), the
  load-time exclusion of aggregate rows, the country options, and the start-up
  method `Setup`.
- `Callbacks` (`callbacks.dfy`): the two callbacks as functions returning a
  `Plot` (the chart's rows and the subtitle), plus lemmas on what they select.

Dates are integer day numbers. Population and GDP per capita are
`Option<real>`. A missing value never lies in a range, because a NaN comparison
is false in pandas.

Points where the code behaves differently from what one might expect:

- Aggregate rows are those whose `iso_code` contains `OWID` anywhere, not
  only those that start with it.
- A slider range whose low end is above its high end is not rejected. In
  Worldwide mode it selects nothing, so the subtitle becomes "No countries
  match your filters." With a named country the sliders are not read at all:
  the rows are still selected and the subtitle stays empty.
- The bar chart is cut to the first seven locations in encounter order, not
  to the seven with the most cases, although its title (app.py:210) says
  "Top" daily new cases. The model follows the code.

## Model

| member | source | states |
|---|---|---|
| `Dataset.Contains` | app.py:20 | A match needs the marker to fit in the code, and a code that starts with the marker matches; the full meaning is in `Dataset.ContainsIsSubstring` |
| `Dataset.ExcludeAggregates` | app.py:20 | Every kept row comes from the file and its code does not contain "OWID"; see `Dataset.ExcludeAggregatesKeepsCountries` for the exact row set and order |
| `Dataset.CountryOptions` | app.py:26-27 | The list has the Worldwide option first, then one option per distinct location, with label equal to value; see `Dataset.CountryOptionsListing` for order and uniqueness |
| `Dataset.ContainsIsSubstring` | app.py:20 | The `str.contains` test used at load is true exactly when the marker occurs at some position of the code |
| `Dataset.ExcludeAggregatesKeepsCountries` | app.py:18-20 | After loading, a row is present exactly when it was in the file and its code does not contain "OWID"; each kept row keeps all its occurrences, and the rows keep their original order |
| `Dataset.LocationsMembers` | app.py:27 | A name is in the `location` column exactly when some row has that location |
| `Dataset.CountryOptionsListing` | app.py:26-27 | The dropdown list starts with the Worldwide option. Then comes every location of the loaded table exactly once, in order of first appearance, with label equal to value |
| `Dataset.Setup` | app.py:18-27 | Start-up rebinds `data` to the table without aggregate rows, so no kept code contains "OWID"; `countries` is that table's option list and starts with Worldwide |
| `Sequences.Filter` | app.py:20 | A boolean-mask selection contains a row exactly when the input has it and the mask is true for it, and is never longer than the input |
| `Sequences.Map` | app.py:27 | Taking a column keeps the length, and entry i is the column value of row i |
| `Sequences.Unique` | app.py:27 | `unique()` contains exactly the values of the column, with no duplicates; order is in `Sequences.UniqueFirstAppearance` |
| `Sequences.FilterCounts` | app.py:20 | A boolean-mask selection keeps every occurrence of a selected row and no other row |
| `Sequences.FilterSubsequence` | app.py:20 | A boolean-mask selection keeps the selected rows in their original order |
| `Sequences.FilterFilter` | app.py:137-139 | Two masks applied one after the other select exactly what their conjunction selects |
| `Sequences.FilterAll` | app.py:209 | A mask that every row already meets changes nothing |
| `Sequences.MapFilter` | app.py:205-209 | Taking a column commutes with a mask that looks only at that column |
| `Sequences.UniqueFirstAppearance` | app.py:205 | `unique()` lists the distinct values in the order in which they first appear |
| `Sequences.UniqueFilter` | app.py:205-209 | De-duplicating a masked column equals masking the de-duplicated column |
| `Sequences.FilterPrefix` | app.py:207-209 | Keeping, from a sequence without duplicates, the members of one of its prefixes gives exactly that prefix |
| `Callbacks.StringencyPlot` | app.py:127-166 | Every plotted row comes from the table and is dated in [start, end]; with a named country the subtitle is empty, and it is never anything other than empty or the no-match text; see the Stringency lemmas |
| `Callbacks.CasesCandidates` | app.py:198-202 | Every candidate comes from the table and is dated on the end date; see `Callbacks.CasesCandidatesSelection` |
| `Callbacks.ShownLocations` | app.py:205-208 | At most 7 locations are shown, each one a location of the candidates; see `Callbacks.ShownLocationsPrefix` |
| `Callbacks.CasesPlot` | app.py:176-219 | Every bar row comes from the table and is dated on the end date; with a named country the subtitle is empty, and it is never anything other than empty or the no-match text; see the Cases lemmas |
| `Callbacks.StringencyCountrySelection` | app.py:133-139 | For a named country, the line chart gets exactly that country's rows dated in [start, end] (both ends inclusive), in original order, and the subtitle is empty |
| `Callbacks.StringencyWorldwideSelection` | app.py:147-155 | For Worldwide, the line chart gets exactly the rows with population, GDP per capita and date all in their inclusive ranges, in original order. The subtitle is the no-match text exactly when this selection is empty, and empty otherwise |
| `Callbacks.StringencyIdempotent` | app.py:136-155 | Running the stringency selection on its own result gives the same rows and subtitle, in both modes |
| `Callbacks.CasesCountrySelection` | app.py:181-187 | For a named country, the bar chart gets exactly that country's rows dated on the end date, in original order, with no cut and an empty subtitle |
| `Callbacks.CasesCandidatesSelection` | app.py:198-202 | Before the cut, the Worldwide bar chart's rows are exactly those with population and GDP per capita in range and dated on the end date, in original order |
| `Callbacks.ShownLocationsPrefix` | app.py:205-208 | The shown locations are the first min(7, n) of the n distinct candidate locations, in encounter order |
| `Callbacks.ShownLocationsOfResult` | app.py:205-209 | The distinct locations of the cut result are exactly the shown locations |
| `Callbacks.CasesWorldwideCut` | app.py:205-209 | Every Worldwide bar row is a candidate, in the same order. A candidate is kept exactly when its location is shown. The result has at most 7 distinct locations, and they are a prefix of the candidates' distinct locations |
| `Callbacks.CasesWorldwideNoCut` | app.py:207-209 | With 7 or fewer distinct candidate locations, the cut removes no row |
| `Callbacks.CasesCutKeepsSome` | app.py:205-209 | The cut leaves the rows empty exactly when the candidates are empty |
| `Callbacks.CasesWorldwideSubtitle` | app.py:197-204 | For Worldwide, the subtitle is the no-match text exactly when no candidate matches, and empty otherwise. The chart is empty in the same case |
| `Callbacks.CasesIdempotent` | app.py:185-209 | Running the new-cases selection on its own result gives the same rows and subtitle, in both modes |

## Left out

- Reading the CSV file and parsing dates (`pd.read_csv`, `pd.to_datetime`): file I/O and library parsing. The table is a given `seq<Row>`, and dates are day numbers.
- The column projection `data[selected_cols]`: the `Row` type is that projection. A file missing a column, which would raise in pandas, is not modelled.
- Missing `iso_code` or `location` cells: the model assumes these text columns are always present. A NaN `iso_code` would make the load mask non-boolean.
- A cleared dropdown (value `None`): the country is a string here. `None` equals no location, so it selects nothing, just like a name no row has.
- The Dash layout, range sliders, date picker, callback wiring and server start-up: UI plumbing. The callbacks' inputs become parameters.
- The slider tick marks built with `date_range` and `strftime`: date formatting for display only.
- Chart construction with Altair and `fig.to_html()`, including chart titles. Any descending sort of the bars (`sort="-x"`) happens in the renderer, so sorting is not a property of this code.
- Floating-point behaviour of the numeric columns: they are `real` values, and NaN is `None`.
- Pandas index labels carried by a selected frame: the model keeps only the row values and their order.
