# Order insights query resolver

The dashboard answers a free-text question about a table of shipping orders. The
question is lower-cased and tested against a fixed chain of trigger phrases, in order.
The first phrase it contains selects one aggregation over the order table:

- the number of orders;
- the number with terminal status COMPLETED, or with terminal status CANCELLED;
- the carrier with the most ON_TIME records;
- the records the average delivery time is taken over;
- the most common cancellation reason, city or state;
- the number of orders per calendar month, in month order.

A question that contains no phrase gets a fixed apology.

The model is pure. The resolver's own effects, the "Month" column it writes into the
shared order table and the chart it draws, are listed under "## Left out". The modules:

- `Text` holds ASCII lower-casing and substring containment.
- `Dataset` holds the order record with its missing cells, columns, row selection and
  counting.
- `Aggregates` holds the most-frequent-value rule, the best carrier and the delivery
  subset.
- `Months` holds the per-month table.
- `Insights` holds the trigger catalog, the dispatch and `QueryInsights`, together with
  lemmas about each answer.
- `InsightsExamples` holds example queries and a three-order table answered end to end.

An answer is the data the resolver's reply is computed from:

- a count, which the reply prints;
- a name, which the reply prints, or `NoData` where pandas would raise;
- for the delivery query, the records whose mean delivery time the reply prints rounded;
- for the month query, the month table the chart is drawn from (the reply itself is a
  fixed sentence);
- the fallback apology.

Consequences of the first-match rule, which the model proves:

- Any question containing "total orders" gets the total count, even "total orders per
  month" or "total orders and completed orders".
- Whether the fallback is given depends only on the question, never on the data.

## Model

| member | source | states |
|---|---|---|
| Text.LowerChar | app.py:22 | the result is never an upper-case ASCII letter; an upper-case letter moves up by 32 code points; every other character is kept |
| Text.Lower | app.py:22 | same length as the input, lower-cased character by character, and no upper-case letter remains |
| Text.LowerIdempotent | app.py:22 | lower-casing twice equals lower-casing once |
| Text.LowerKeepsLowercase | app.py:22 | text without upper-case letters is unchanged by lower-casing |
| Text.LowerAgrees | app.py:22 | strings that agree character by character after lower-casing have equal lower-casings |
| Text.ContainsIffOccurs | app.py:24-57 | `Text.Contains`, the model of Python's `in` on strings that every trigger test uses, holds exactly when the phrase occurs at some position of the text |
| Text.OccursAtContains | app.py:24 | an occurrence at a known position makes `in` true |
| Text.MissingCharRulesOut | app.py:24 | a phrase with a character the text lacks is not contained in it |
| Insights.FirstMatch | app.py:24-66 | returns none exactly when no catalog phrase from `lo` on occurs; otherwise the first position whose phrase occurs, with no earlier phrase occurring |
| Insights.ClassifyIsFirstMatch | app.py:22-68 | `Insights.Classify` (lower-casing, then `Insights.Dispatch`, the if/elif chain) takes the branch of the earliest phrase of `Insights.Catalog` (the ten trigger phrases in chain order) it contains, and the fallback exactly when it contains none |
| Insights.FirstMatchWins | app.py:22-66 | if phrase `i` occurs in the lower-cased query and no earlier phrase does, the query takes phrase `i`'s branch |
| Insights.Respond | app.py:24-68 | the fallback exactly for the unrecognised branch; a count never exceeds the number of records; the delivery records are exactly the records with both timestamps |
| Insights.QueryInsights | app.py:21-68 | the fallback exactly when the query is unrecognised; counts are at most the table size; the delivery answer holds exactly the records with both an order date and a completion time |
| Insights.FallbackExactlyWhenNoPhrase | app.py:68 | the apology is given exactly when no trigger phrase occurs in the lower-cased query, and then for every table |
| Insights.QueryIgnoresCase | app.py:22 | two queries that agree once lower-cased get the same answer over any table |
| Insights.LoweredQuerySameAnswer | app.py:22 | asking the lower-cased question gives the same answer as the original |
| Insights.CountAnswers | app.py:24-33 | total orders is the number of records; completed and canceled orders are the number of records whose status is exactly COMPLETED or CANCELLED |
| Insights.CompletedAndCanceledWithinTotal | app.py:24-33 | the completed count plus the canceled count is at most the total count |
| Insights.CarrierAnswer | app.py:35-37 | the answer is `NoData` exactly when no ON_TIME record names a carrier; otherwise it names the carrier of some ON_TIME record, and no carrier has more ON_TIME records |
| Insights.ModeAnswer | app.py:45-55 | `NoData` exactly when every cell of the column is missing; otherwise a value some record holds, which no other value beats on count |
| Insights.ModeAnswerIgnoresMissing | app.py:46-54 | appending a record whose queried cell is missing leaves the reason, city or state answer unchanged |
| Insights.DeliveryAnswer | app.py:39-40 | inserting a record without an order date or completion time anywhere leaves the delivery answer unchanged |
| Insights.MonthAnswer | app.py:57-59 | the month table is strictly ascending; each entry's count is the positive number of records ordered in that month; a month has an entry exactly when it has orders; the counts sum to the records with an order date |
| Dataset.Column | app.py:28 | one cell per record, in record order |
| Dataset.Occurrences | app.py:50 | at most the length, and positive exactly when the value occurs |
| Dataset.OccurrencesIsMultiplicity | app.py:50 | the count equals the value's multiplicity in the multiset of the sequence |
| Dataset.OccurrencesAppend | app.py:50 | counting over a concatenation adds the counts of the two parts |
| Dataset.Present | app.py:46 | no longer than the column, and a value is present exactly when some cell holds it |
| Dataset.PresentKeepsCounts | app.py:46 | dropping missing cells keeps every value's count |
| Dataset.PresentLength | app.py:46 | the present values number the cells minus the missing ones |
| Dataset.PresentIgnoresMissing | app.py:46 | a missing cell appended to a column changes nothing once missing cells are dropped |
| Dataset.Where | app.py:28 | the selection is no larger than the table |
| Dataset.WhereCount | app.py:28 | the selection's size is the number of cells of the column equal to the value |
| Dataset.WhereMembers | app.py:28 | a record is selected exactly when it is in the table and its cell equals the value |
| Dataset.WhereDisjoint | app.py:28-32 | selections by two different values together hold at most the whole table |
| Aggregates.Mode | app.py:36-54 | none exactly for no values; otherwise a value that occurs and that no value beats on count, and the first such value in order |
| Aggregates.ModeOfColumnIsMostFrequent | app.py:46-54 | `Aggregates.ModeOfColumn`, the most frequent present value of a column: none exactly when every cell is missing; otherwise a value some record holds, which no value beats on count |
| Aggregates.ModeOfColumnIgnoresMissing | app.py:46-54 | appending a record whose cell is missing leaves the most frequent value unchanged |
| Aggregates.OnTimeRecordsCounted | app.py:36 | a carrier's count among the ON_TIME records equals its number of ON_TIME records |
| Aggregates.BestCarrierIsMostOnTime | app.py:36 | `Aggregates.BestCarrier`, the most frequent carrier among ON_TIME records: none exactly when no ON_TIME record names a carrier; otherwise the carrier of some ON_TIME record, and no carrier has more ON_TIME records |
| Aggregates.DeliverySubset | app.py:40 | no larger than the table, and a record is kept exactly when it is in the table and `Aggregates.Delivered` holds of it (order date and completion time both present) |
| Aggregates.DeliverySubsetAppend | app.py:40 | filtering a concatenation concatenates the filtered parts, so record order is kept |
| Aggregates.DeliverySubsetIgnoresIncomplete | app.py:40 | a record missing either timestamp, inserted anywhere, does not change the subset |
| Months.MonthColumn | app.py:58 | one month per record, which is `Months.MonthOf` the record: missing exactly where the order date is |
| Months.Dated | app.py:58 | at most the number of records |
| Months.Bump | app.py:59 | counting one more order keeps the table in strictly ascending month order |
| Months.BumpCounts | app.py:59 | one more order in month `k` adds one to `k`'s count and to the total, leaves every other count, and keeps counts positive |
| Months.Tally | app.py:59 | the table is ascending, has positive counts, and finds each month's number of occurrences; its counts sum to the number of keys |
| Months.OrdersPerMonthCorrect | app.py:58-59 | `Months.OrdersPerMonth`, the month table: ascending; each entry's count is the positive number of records ordered in its month; a month has an entry exactly when it has orders; the counts sum to the records with an order date |
| InsightsExamples.TotalOrdersPhraseWins | app.py:24-25 | any text containing "total orders" takes the total-orders branch, whatever else it contains |
| InsightsExamples.FallbackWithoutTriggerLetters | app.py:68 | a lower-case query without the letters o, b, g and v gets the apology |
| InsightsExamples.WeatherIsFallback | app.py:68 | "what is the weather" gets the apology |
| InsightsExamples.SampleStatusCounts | app.py:28-32 | the three-order table has two COMPLETED records and one CANCELLED record |
| InsightsExamples.SampleReason | app.py:46 | its most common cancellation reason is "Address not found" |
| InsightsExamples.SampleCarrier | app.py:36 | its best ON_TIME carrier is FastShip |
| InsightsExamples.SampleMonths | app.py:58-59 | its month table is one entry, January 2024, with three orders |
| InsightsExamples.SampleDeliveries | app.py:40 | its delivery subset is the one order that has a completion time |
| InsightsExamples.SampleCountAnswers | app.py:24-33 | the count queries answer 3, 2 and 1 on it |
| InsightsExamples.SampleDeliveryAnswer | app.py:39-40 | the delivery query is answered with its first record only |
| InsightsExamples.SampleReasonAnswer | app.py:45-47 | the reason query names "Address not found" |

## Left out

- Loading the CSV and parsing dates (app.py:7-18). The model starts from parsed records. A blank or unparseable cell is `None`, as NaN/NaT is after `errors='coerce'`. The Streamlit cache is not modelled either.
- The Streamlit page, the text box and the reply display (app.py:70 on).
- Drawing the chart (app.py:60-65). The month answer is the table the chart is drawn from, not the literal reply "Orders per month plotted.".
- The reply sentences and the f-string formatting of numbers. The model returns the value each sentence carries.
- The average itself (app.py:41-43): the float hour differences, the mean and the rounding to two places. Float arithmetic is not modelled. The delivery answer is the exact set of records the mean is taken over.
- The "Month" and "Delivery Time" columns the source writes into its frames (app.py:41, app.py:58). The model derives them as values, so the later state of the shared frame is not modelled.
- Text.Lower: only ASCII letters are lower-cased. Python's `str.lower` also lower-cases other Unicode letters.
- Aggregates.Mode: ties between equally frequent values go to the value that occurs first in record order. The ordering pandas gives to tied counts is not specified here.
- Aggregates.Mode: with no values at all, pandas' `idxmax` raises `ValueError`, which would surface as an error page. The model answers `NoData` instead.
- Months.Month: a month is a (year, month) pair compared year first. The source sorts '%Y-%m' strings, which gives the same order for the four-digit years pandas timestamps can hold.
- The source also handles missing cells in the CARRIER NAME, CITY and STATE columns: `value_counts` skips them, just as the explicit drop does for the reason column. The model drops them in all four.
