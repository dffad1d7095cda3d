# terrafedash data core in Dafny

terrafedash is a Streamlit dashboard for a coffee shop and craft institute. Its data core is
`utils.py`. The core loads two semicolon-separated exports:

- **Meta ads export.** `process_ad_data` renames its fourteen columns, parses the two ISO dates and
  turns comma-decimal text into floats. It then tags every campaign with the business line
  (`tipo_campanha`) named by the `[INSTITUTO]` marker.
- **E-commerce order export.** `process_order_data` renames its nine columns and converts the order
  id, the two money columns, the quantity and the day-first date. It then derives each product's
  category (`categorize_product`) and the sale line (`tipo_venda`) that follows from the category.

`get_orders_summary` and `get_ads_summary` compute the dashboard's totals, rates and group-by
breakdowns. `filter_dataframe` selects the rows whose field equals a value.

Modules:

- `Wrappers`: the `Option` type with `:-` propagation. A step that raises in Python is `None`.
- `Text`: Python's `in`, the `','` to `'.'` rewrite, and `float()`/`int()` on plain notation. It
  also holds the `%Y-%m-%d` and `%d/%m/%Y` date formats, with their round trips.
- `Categories`: the keyword rules of `categorize_product`, with `\b`-bounded, case-insensitive
  search, plus the two business-line tags.
- `Tables`: a frame as a value.
  - It has names, columns of cells and a height.
  - A cell is text, a float, an integer or a date.
  - Operations: rename, column assignment, the `astype`/`to_datetime` conversions and
    `Series.apply`.
- `Loaders`: the two loaders as chains of those steps. It holds what their results contain and
  exactly which exports they accept.
- `Frames`: class `Frame`, the data frame the loaders change in place. Each of its methods is
  proved against the value-level step it performs.
- `Filtering`, `Folds` and `Summaries`: `filter_dataframe`, the sum, distinct-count and group-by
  folds, and the two summaries over typed rows.

## Model

| member | source | states |
|---|---|---|
| Frames.Frame.Rename | utils.py:36-41 | assigning `df.columns` succeeds exactly when the header has as many names as the frame has columns; it then replaces the names and keeps cells and height; otherwise nothing changes |
| Frames.Frame.Store | utils.py:44 | `df[n] = cells` overwrites column `n` if present, otherwise appends it as the last column |
| Frames.Frame.Convert | utils.py:44-45 | a column conversion succeeds exactly when the column exists and every cell converts; the frame then equals `Converted`, otherwise it is unchanged |
| Frames.Frame.ConvertEach | utils.py:52-55 | the loop over the numeric columns succeeds exactly when `ConvertedAll` does and leaves the frame equal to its result; the loop invariant ties each iteration to the fold over the remaining targets |
| Frames.Frame.Derive | utils.py:58-60 | `df[dst] = df[src].apply(f)` succeeds exactly when `src` exists and `f` accepts every cell; the frame then equals `Applied`, otherwise it is unchanged |
| Frames.Frame.ProcessAdData | utils.py:31-66 | running the ad loader's steps in place succeeds exactly when `ProcessedAds` of the initial frame exists, and the frame then equals it |
| Frames.Frame.ProcessOrderData | utils.py:68-100 | running the order loader's steps in place succeeds exactly when `ProcessedOrders` of the initial frame exists, and the frame then equals it |
| Loaders.AdsRejectWidth | utils.py:36-41 | an ad export whose width is not 14 is rejected |
| Loaders.AdsSchema | utils.py:36-60 | the loaded ad frame has the fourteen renamed columns followed by `tipo_campanha`, and keeps every row |
| Loaders.AdsDates | utils.py:44-45 | `data_inicio` and `data_fim` hold, cell by cell, the ISO parse of the export's cells |
| Loaders.AdsNumbers | utils.py:48-55 | each of the eleven numeric columns is converted cell by cell when it held text and kept otherwise, and afterwards holds no text |
| Loaders.AdsCampaignLines | utils.py:58-60 | each campaign name is text and the row's `tipo_campanha` is `Instituto` or `Ecommerce` as `CampaignLine` of the name says; the name column is unchanged |
| Loaders.AdsAccepts | utils.py:31-60 | the ad loader succeeds exactly when the export has 14 columns, both date columns parse as ISO dates, every numeric column is numeric or parses as a comma decimal, and every campaign name is text |
| Loaders.OrdersRejectWidth | utils.py:73-77 | an order export whose width is not 9 is rejected |
| Loaders.OrdersSchema | utils.py:73-98 | the loaded order frame has the nine renamed columns followed by `categoria_produto` and `tipo_venda`, and keeps every row |
| Loaders.OrdersNumbers | utils.py:80-87 | `pedido_id` and `produto_quantidade` hold `astype(int)` of the export's cells (text read as an `int64`, floats truncated toward zero), and the two price columns their comma-decimal float reading |
| Loaders.OrdersDates | utils.py:90 | `pedido_data` holds the day-first parse of every cell; hour, status, state and product name are unchanged |
| Loaders.OrdersLines | utils.py:93-98 | every product name is text; its row's `categoria_produto` is `Categorize` of it and `tipo_venda` is `SaleLine` of that category |
| Loaders.OrdersAccepts | utils.py:68-98 | the order loader succeeds exactly when the export has 9 columns, id and quantity convert with `astype(int)` (text must name an integer within the `int64` range), both prices with the comma rewrite and `float()`, the date in `%d/%m/%Y`, and every product name is text |
| Loaders.CampaignCell | utils.py:58-60 | the campaign-line cell exists exactly for a text cell and is `Str(CampaignLine(name))` |
| Loaders.CategoryCell | utils.py:93 | the category cell exists exactly for a text cell and is `Str(Categorize(name))` |
| Loaders.SaleLineCell | utils.py:96-98 | `tipo_venda` is always defined, and is `Instituto` exactly for the cell `Cursos e Workshops`, otherwise `Ecommerce` |
| Loaders.ProcessedAds | utils.py:31-66 | when the ad loader succeeds its result is well formed and has as many rows as the export |
| Loaders.ProcessedOrders | utils.py:68-100 | when the order loader succeeds its result is well formed and has as many rows as the export |
| Tables.Find | utils.py:44 | column lookup by name finds an index exactly when the name is in the header, and the index holds that name |
| Tables.FindFirst | utils.py:44 | the index found is the first occurrence of the name |
| Tables.Column | utils.py:44 | `df[n]` exists exactly for a name in the header and is that column, of the frame's height |
| Tables.Renamed | utils.py:36-41 | renaming succeeds exactly when the lengths agree; the result has the new names, the same cells and the same height |
| Tables.SetColumn | utils.py:44 | assignment replaces the existing column of that name or appends a new one, and keeps the frame well formed |
| Tables.SetColumnReads | utils.py:44 | reading the assigned column gives the assigned cells; every other column reads as before |
| Tables.MapCells | utils.py:58-60 | `apply` succeeds exactly when the function accepts every cell, and the result holds the function's value at every position |
| Tables.Truncate | utils.py:80-87 | `astype(int)` of a float rounds toward zero: the result lies within one of the value, on the side of zero |
| Tables.ConvertCell | utils.py:44-87 | a successful float conversion gives a float, `astype(int)` an integer, and a date conversion a valid calendar date; text converts to an integer exactly when it reads as one within the `int64` range |
| Tables.Int64BoundExample | utils.py:80-87 | text naming 2^63 overflows `int64` and raises; text naming 2^63 - 1 converts |
| Tables.ConvertIdempotent | utils.py:52-55 | converting an already converted cell again changes nothing |
| Tables.CommaCellExample | utils.py:55 | the text `12,50` converts to the float 12.5 |
| Tables.TruncationExample | utils.py:80 | `int()` of -2.7 is -2 |
| Tables.DateCellsExample | utils.py:44-90 | `05/04/2025` in `%d/%m/%Y` and `2025-04-05` in `%Y-%m-%d` both name 5 April 2025 |
| Tables.ConvertedSucceeds | utils.py:44-45 | a column conversion succeeds exactly when the column exists and every one of its cells converts |
| Tables.ConvertedStep | utils.py:44-45 | a column conversion touches only its own column |
| Tables.ConvertedAt | utils.py:44-45 | after a conversion each cell of the column is the conversion of the old cell |
| Tables.ConvertedAllKeeps | utils.py:52-55 | the conversion loop keeps every column it does not name |
| Tables.ConvertedAllTreats | utils.py:52-55 | the loop converts each named column cell by cell, except that with the dtype test a column holding no text is left alone |
| Tables.ConvertedAllSucceeds | utils.py:52-55 | the loop succeeds exactly when every named column exists and either is skipped by the dtype test or converts |
| Tables.ConvertedPair | utils.py:83-85 | the loop over two different columns succeeds exactly when both convert, converts both and keeps the rest |
| Tables.CellsConvertedKinds | utils.py:52-90 | a converted column holds only floats, only integers or only dates, as its conversion says |
| Tables.TreatedHoldsNoText | utils.py:54-55 | after the dtype-tested float conversion a column holds no text |
| Tables.AppliedSucceeds | utils.py:58-60 | deriving a column succeeds exactly when the source column exists and the function accepts every one of its cells |
| Tables.AppliedKeeps | utils.py:58-60 | deriving a new column appends it and keeps the old columns |
| Tables.AppliedAt | utils.py:58-60 | each cell of the new column is the function of the source cell in the same row |
| Categories.Categorize | utils.py:102-119 | the category is one of the seven; a course word forces `Cursos e Workshops`; `Outros` exactly when no keyword matches |
| Categories.CategoryPrecedence | utils.py:106-119 | each keyword decides only when every earlier rule fails, in the source's order |
| Categories.CategoryExactly | utils.py:106-111 | the first three categories hold exactly when their own rule fires and no earlier rule does |
| Categories.CourseWordInContext | utils.py:106 | a name with a whole course word stays a course inside any longer name that does not run into the word |
| Categories.WholeWordInContext | utils.py:106 | a whole-word match survives added text that starts and ends with non-word characters |
| Categories.CourseBeatsCoffeeExample | utils.py:106-115 | `Curso de Café Especial` is a course, not coffee; `WORKSHOP de Aquarelas` is a course, not art: the search ignores case |
| Categories.PluralIsNotAWholeWordExample | utils.py:106-109 | `Cursos de Café` is coffee: `Cursos` is not the whole word `Curso` |
| Categories.OrdinalJoinsWordExample | utils.py:106 | `Cursoº` has no whole word `Curso`: `º` is a word character, as for `\w` |
| Categories.SaleLine | utils.py:96-98 | `tipo_venda` is `Instituto` exactly for `Cursos e Workshops`, otherwise `Ecommerce` |
| Categories.SaleLineOfProduct | utils.py:93-98 | an order line is the institute's exactly when its product name has a course word |
| Categories.CampaignLine | utils.py:58-60 | `tipo_campanha` is `Instituto` exactly when the name contains `[INSTITUTO]` |
| Categories.CampaignLineInContext | utils.py:59 | the marker tags a campaign wherever it occurs in the name |
| Categories.CampaignMarkerIsCaseSensitiveExample | utils.py:59 | the lower-case marker `[instituto]` does not tag a campaign |
| Text.ContainsInContext | utils.py:59 | a substring stays a substring inside any longer text |
| Text.NormalizeDecimal | utils.py:55 | the comma rewrite keeps the length, turns every comma into a point, leaves no comma and changes nothing else |
| Text.NormalizeDecimalIdempotent | utils.py:55 | rewriting twice is rewriting once |
| Text.NormalizeDecimalAppend | utils.py:55 | the rewrite distributes over concatenation |
| Text.NormalizeDecimalNoComma | utils.py:55 | text without a comma is left alone |
| Text.CommaIsNotANumber | utils.py:55 | text with a comma does not parse as a float until rewritten |
| Text.ParseUnsignedDecimal | utils.py:55 | `w.f` with digit strings `w` and `f` parses to the value of the numeral |
| Text.DecimalRoundTrip | utils.py:55 | a zero-padded numeral `whole.fraction` parses back to `whole + fraction / 10^width` |
| Text.CommaDecimalRoundTrip | utils.py:55 | the same numeral written with a comma, as the exports hold it, reads back to the same value after the rewrite |
| Text.CommaDecimalExample | utils.py:55 | `12,50` is read as 12.5 |
| Text.IntegerRoundTrip | utils.py:80-87 | every integer written with an optional `-` and zero-padded digits reads back with `int()` as itself |
| Text.IntegerRejectsPoint | utils.py:80-87 | `int()` rejects any text holding a decimal point |
| Text.PaddedValue | utils.py:44-90 | reading back a zero-padded numeral gives the number when it fits the width |
| Text.PaddedOfValue | utils.py:44-90 | a digit string is the padded numeral of its own value |
| Text.DateOfPadded | utils.py:44-90 | the fields of a valid day, written at their usual widths, name that day |
| Text.ParseIsoDate | utils.py:44-45 | `%Y-%m-%d` yields only valid calendar days |
| Text.ParseDayFirstDate | utils.py:90 | `%d/%m/%Y` yields only valid calendar days |
| Text.IsoRoundTrip | utils.py:44-45 | every valid day written in ISO form parses back to itself |
| Text.DayFirstRoundTrip | utils.py:90 | every valid day written day first parses back to itself |
| Text.IsoParseUnique | utils.py:44-45 | the ISO parser accepts exactly one spelling of each day |
| Text.DayFirstParseUnique | utils.py:90 | the day-first parser accepts exactly one spelling of each day |
| Text.FormatsAgree | utils.py:44-90 | the day-first spelling of an ISO date's day parses to the same day |
| Text.IsoDateExample | utils.py:44 | `2025-04-05` is 5 April 2025 |
| Text.DayFirstDateExample | utils.py:90 | `05/04/2025` is 5 April 2025 |
| Text.DateFormatsExample | utils.py:44-90 | the two spellings name the same day |
| Filtering.Filter | utils.py:192-196 | the result is no longer than the input and every row in it matches |
| Filtering.FilterCounts | utils.py:196 | every matching row is kept as often as it occurs, and no other row |
| Filtering.FilterIsSubsequence | utils.py:196 | the result keeps the table's row order |
| Filtering.FilterAppend | utils.py:196 | filtering splits over concatenation |
| Filtering.FilterIdempotent | utils.py:196 | filtering twice is filtering once |
| Filtering.FilterKeepsMatching | utils.py:196 | a table whose rows all match is its own filter |
| Filtering.FiltersCommute | utils.py:196 | the order of two filters does not matter |
| Folds.SumAppend | utils.py:126 | `sum()` is additive over concatenation |
| Folds.SumIntAppend | utils.py:128 | the integer `sum()` is additive over concatenation |
| Folds.SumMonotone | utils.py:126 | a pointwise larger column has a larger sum |
| Folds.SumNonNegative | utils.py:161 | a sum of non-negative values is non-negative |
| Folds.SumZero | utils.py:162 | a sum of zeros is zero |
| Folds.SumSplit | utils.py:172 | with two group keys, the two groups' sums add up to the total |
| Folds.Values | utils.py:125 | the distinct values of a column are exactly those that occur in it |
| Folds.ValuesBound | utils.py:125 | `nunique` never exceeds the number of rows |
| Folds.ValuesEmpty | utils.py:125 | `nunique` is 0 exactly for an empty table |
| Folds.FilterMissing | utils.py:131-143 | filtering on a key that does not occur gives no rows |
| Folds.FilterValuesBound | utils.py:131 | the distinct values of a group are among those of the table |
| Folds.GroupSumKeys | utils.py:135-143 | a `groupby(...).sum()` has exactly the keys that occur |
| Folds.GroupSumAt | utils.py:135-143 | a group's sum is the sum over the rows with that key |
| Folds.GroupSumTotal | utils.py:135-143 | the group sums add up to the total |
| Folds.GroupValuesKeys | utils.py:131 | a `groupby(...).nunique()` has exactly the keys that occur |
| Folds.GroupValuesAt | utils.py:131 | a group's distinct values are those of the rows with that key |
| Folds.GroupDistinctCountAt | utils.py:131 | a group's distinct count is that of the rows with that key |
| Summaries.SummarizeOrders | utils.py:121-155 | the average ticket exists exactly for a non-empty table and times the order count gives the revenue |
| Summaries.OrderCount | utils.py:125 | `total_pedidos` is at most the number of lines, is 0 exactly for no lines, and counts an order id exactly when it occurs |
| Summaries.OrderTotalsAdditive | utils.py:125-128 | revenue and units add over concatenation; the order count is subadditive |
| Summaries.BreakdownKeys | utils.py:131-144 | each breakdown is keyed by exactly the values of its column |
| Summaries.BreakdownTotals | utils.py:135-144 | the state, category and day breakdowns each add up to the revenue |
| Summaries.StatusCountAgreesWithFilter | utils.py:131 | a status count is the order count of the lines with that status, and at most the total |
| Summaries.StateSalesAgreeWithFilter | utils.py:135 | a state's revenue is that of the lines filtered to the state |
| Summaries.CategorySalesAgreeWithFilter | utils.py:139 | a category's revenue is that of the lines filtered to the category |
| Summaries.DaySalesAgreeWithFilter | utils.py:143 | a day's revenue is that of the lines filtered to the day |
| Summaries.WellTaggedLines | utils.py:93-98 | lines tagged as the loader tags them carry one of the seven categories and one of the two lines |
| Summaries.CategoryBreakdownKeys | utils.py:139 | the category breakdown is keyed by categories among the seven |
| Summaries.SegmentsSplitSales | utils.py:96-98 | institute and e-commerce revenue add up to the total |
| Summaries.OrdersExample | utils.py:121-155 | a worked summary of two orders with four lines |
| Summaries.Percentage | utils.py:166-167 | a rate is 0 for a non-positive whole, and otherwise `part * 100 / whole` |
| Summaries.PercentageBounds | utils.py:166 | a share of a non-negative whole is between 0 and 100 |
| Summaries.SummarizeAds | utils.py:157-190 | CTR and conversion rate are 0 without impressions or clicks, and otherwise the percentages of the totals |
| Summaries.NoImpressionsNoCtr | utils.py:166 | campaigns never shown give a CTR of 0 |
| Summaries.RatesBounded | utils.py:166-167 | with no more clicks than impressions, the CTR is between 0 and 100 and the conversion rate is non-negative |
| Summaries.AdsTotalsAdditive | utils.py:161-164 | the four campaign totals add over concatenation |
| Summaries.LineBreakdowns | utils.py:172-177 | the per-line breakdowns are keyed by the lines present, add up to the totals, and each entry is the filtered total |
| Summaries.TaggedCampaignLines | utils.py:58-60 | campaigns tagged from their names are each in one of the two lines |
| Summaries.CampaignSegmentsSplitSpend | utils.py:172 | institute and e-commerce spend add up to the total spend |

## Left out

- CSV reading and the file paths of `load_and_process_data` (utils.py:7-29) are I/O. A frame enters the model as a `Table` value.
- The derived metrics `taxa_conversao` and `roi` per campaign (utils.py:63-64) are float arithmetic that yields inf or NaN on a zero divisor. The model has no IEEE floats, so they are not modelled.
- `cpm_medio` and `cpc_medio` (utils.py:168-169) are means that are NaN on an empty frame. They are not modelled, for the same reason.
- Floats are modelled as exact reals: no rounding, no NaN, no infinity.
- Summaries.SummarizeOrders: on an empty table the source divides by zero (NaN). The model gives no average ticket there instead.
- Text.ParseDecimal covers only plain decimal notation: an optional sign, digits and at most one point. Exponents, `inf`, `nan`, surrounding spaces, underscores and non-ASCII Unicode decimal digits (such as the fullwidth `１２`), which Python's `float()` also accepts, are left out.
- Text.ParseInteger leaves out the surrounding spaces, the underscores between digits and the non-ASCII Unicode decimal digits that `int()` accepts. On ASCII text the two readers are exact.
- Tables.Truncate: `astype(int)` of a float outside the `int64` range gives an unspecified `int64` (pandas checks only that the float is finite). The model gives the exact truncation there. Text outside the `int64` range does raise, and `ConvertCell` models that.
- Summaries.SummarizeOrders and Folds.SumIntAppend: integer sums are unbounded. The `int64` wrap-around of `produto_quantidade.sum()` (utils.py:128) on totals beyond 2^63 is not modelled.
- Tables.ConvertCell: a number read as text and back is taken to be the same number, that is, `astype(str)` round-trips a float.
- Text.ParseIsoDate and Text.ParseDayFirstDate accept only zero-padded fixed-width fields with a year from 1 to 9999. They leave out `strptime`'s leniency with one-digit fields and pandas' `Timestamp` range, 1677 to 2262.
- The case-insensitive search of `categorize_product` folds only ASCII letters. Its word characters agree with Python's `\w` on Latin-1 (U+0000 to U+00FF): ASCII letters and digits, `_`, ª µ º ¹ ² ³ ¼ ½ ¾ and U+00C0 to U+00FF except × and ÷. Word characters beyond Latin-1 are not modelled.
- Missing values (NaN cells) are not modelled. A cell is text, a float, an integer or a date.
- pandas' dtype `object` test is modelled as "the column holds a text cell".
- Duplicate column names are not modelled: a lookup takes the first column of that name.
- Group-by results are maps, so the key order that pandas sorts in is not modelled. The summaries work on typed rows; the step from the loaded frame to those rows is not modelled.
- Frames.Frame.ConvertEach: a failure partway leaves the columns converted before it in place, as pandas does. Its contract then states only that the frame is still well formed.
- Frames.Frame.ProcessAdData and Frames.Frame.ProcessOrderData: likewise, after a failure the frame is only stated to be well formed. The Python caller propagates the exception, so that frame is never used.
- The dashboard pages (app.py, terrafedash/app.py) and the packaging script (setup.py) are not part of this model.
