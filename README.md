# Training dashboard: monthly report reducer and ledger append

This project models, in Dafny, the upload step of the Training Dashboard
Uploader (`dashboardapp.py`). The app keeps a dashboard table with one row
per month. An uploaded report of training-event records is handled in four steps:

1. Each record gets a month key, `YYYY-MM`. A timestamp that cannot be
   parsed becomes the text `NaT`.
2. The batch is rejected unless the keys take exactly one distinct value.
3. The batch is rejected if that month already has a row.
4. Otherwise the batch is reduced to one row of nine counts, and that row
   is appended to the dashboard.

The nine counts are:

- the number of trainings;
- DXFleet and Phoenix SQL Lite sessions, found by a case-insensitive
  substring match on the event type;
- cancellations;
- no-shows;
- four US time-zone buckets.

The source is pure: vectorised pandas expressions, and a `concat` that
builds a new table. So the model uses datatypes, functions over sequences
and lemmas, with no classes or loops.

Modules:

- `Options` (`options.dfy`): the optional cell value. `None` stands for
  pandas' NaN/NaT.
- `Text` (`text.dfy`): ASCII lower-casing and substring search. The search
  is proved against an "occurs at position k" definition.
- `Counting` (`counting.dfy`): counting the records that satisfy a
  condition. This is what boolean-mask `.sum()` and
  `value_counts().get(label, 0)` compute. It is proved equal to the size
  of the set of matching positions.
- `MonthKey` (`month_key.dfy`): the `YYYY-MM` key and its inverse parser.
  Because the key is injective, distinct keys are distinct months. `NaT`
  is never a `YYYY-MM` key.
- `Dashboard` (`dashboard.dfy`): records, rows, the initial dashboard, the
  gates, the reducer, the upload, and their properties.
- `DashboardExamples` (`examples.dfy`): two concrete uploads. A 10-record
  May 2025 report is accepted. A March 2025 report is rejected as a
  duplicate.

Two behaviours of the code are worth stating up front:

- An unparsable timestamp becomes the string `NaT` (lines 29-30), and
  `nunique` counts that string as a month of its own (line 32). So a batch
  that mixes parsable and unparsable timestamps is rejected, and a batch
  whose timestamps are all unparsable is filed under the month `NaT` when
  it is accepted.
- The app rebuilds the dashboard from the two initial rows on every run
  (line 16). `Session` models one run.

Inputs arrive already decoded. Each record carries:

- an optional calendar month for its start time;
- optional text for its event type, no-show marker and time-zone label;
- an optional boolean Canceled cell.

A report also says whether it has a `Canceled` column at all.

Lower-casing is modelled on ASCII letters only. For the no-show test
(`str.lower() == 'yes'`, line 42) this is exact: no non-ASCII character
lower-cases to `y`, `e` or `s`, so the No-Shows count is the one pandas
computes.

## Model

| member | source | states |
|---|---|---|
| `Dashboard.InitialDashboard` | dashboardapp.py:10-14 | The initial dashboard has the months 2025-03 and 2025-04, in that order, and no month twice. |
| `MonthKey.Key` | dashboardapp.py:29-30 | A record's month key is the text `NaT` exactly when its timestamp is missing or could not be parsed. |
| `MonthKey.Format` | dashboardapp.py:30 | A parsed month is written as seven characters, `YYYY-MM`, with digits around the dash. |
| `MonthKey.ParseFormat` | dashboardapp.py:30 | Reading a written month key back gives the same year and month. |
| `MonthKey.FormatParse` | dashboardapp.py:30 | Every text that parses as a month key is exactly how that month is written. |
| `MonthKey.FormatInjective` | dashboardapp.py:30-32 | Two different calendar months never get the same key, so counting distinct keys counts distinct months. |
| `Dashboard.DistinctMonths` | dashboardapp.py:32 | The set that `nunique` counts holds every record's month key and nothing else, and it never has more keys than the batch has records. |
| `Dashboard.OneDistinctMonthIff` | dashboardapp.py:32 | The batch has exactly one distinct month key (`nunique() == 1`) if and only if it is non-empty and every record has the first record's key. |
| `Dashboard.EmptyReportRejected` | dashboardapp.py:32-33 | An empty batch has zero distinct months. It is rejected, and the dashboard is unchanged. |
| `Dashboard.MixedTimestampsRejected` | dashboardapp.py:29-33 | A batch with both a parsable and an unparsable timestamp has at least two keys, among them a `YYYY-MM` key and `NaT`. It is rejected, and the dashboard is unchanged. |
| `Dashboard.DifferentMonthsRejected` | dashboardapp.py:30-33 | A batch with records from two different calendar months is rejected, and the dashboard is unchanged. |
| `Dashboard.AllUnparsableIsNaT` | dashboardapp.py:29-35 | A non-empty batch whose timestamps are all unparsable is accepted under the month `NaT` when that month is not yet in the dashboard and its event-type and no-show columns each hold at least one value. |
| `Dashboard.OneCalendarMonthKey` | dashboardapp.py:30-35 | When every record falls in one calendar month and the batch is accepted, the new row's month key parses back to that month. |
| `Text.Contains` | dashboardapp.py:39-40 | The substring test is true exactly when the pattern occurs at some position of the text. |
| `Text.ContainsIgnoreCase` | dashboardapp.py:39-40 | The `case=False` test is true exactly when the lower-cased pattern occurs in the lower-cased text. |
| `Text.ExactMatchIgnoringCase` | dashboardapp.py:39-40 | An exact occurrence of the pattern is also a case-insensitive match. |
| `Text.IgnoresCaseOfText` | dashboardapp.py:39-40 | Lower-casing the text first does not change the case-insensitive result. |
| `Counting.Count` | dashboardapp.py:39-47 | The number of matching records never exceeds the number of records. |
| `Counting.CountIsCardinality` | dashboardapp.py:39-47 | The count equals the size of the set of positions whose record satisfies the condition. |
| `Counting.CountAppend` | dashboardapp.py:39-47 | The count over two batches placed one after the other is the sum of their counts. |
| `Counting.CountRepeat` | dashboardapp.py:39-47 | The count over n copies of one record is n if that record matches, and 0 if it does not. |
| `Dashboard.ZoneCountsBounded` | dashboardapp.py:43-47 | Buckets with four different exact labels share no record, so their counts add up to at most the number of records. |
| `Dashboard.Summarize` | dashboardapp.py:39-60 | The row carries the given month and the record count. It also carries the number of records: (1) whose event type contains `DXFleet`, ignoring case; (2) whose event type contains `Phoenix SQL Lite`, ignoring case; (3) whose Canceled cell is exactly true, or 0 without that column; (4) whose no-show marker lower-cases to `yes`; (5) whose time-zone label equals each `... Time - US & Canada` label. Absent cells never match, and a record with an unrecognised time-zone label falls in no bucket. Every count is at most the total, and the four zone counts sum to at most the total. |
| `Dashboard.EventTypeIsText` | dashboardapp.py:39-40 | `.str` works on the event-type column exactly when its count of present cells is positive. A column with no value is read as numeric NaN, so `.str` raises, the catch-all at lines 74-75 reports it, and the upload is rejected with `ProcessingFailed`. |
| `Dashboard.NoShowIsText` | dashboardapp.py:42 | `.str` works on the no-show column exactly when its count of present cells is positive. Otherwise line 42 raises, the catch-all at lines 74-75 reports it, and the upload is rejected with `ProcessingFailed`. |
| `Dashboard.Upload` | dashboardapp.py:28-62 | A rejected upload leaves the dashboard unchanged. It is rejected for the month gate exactly when the records do not all share one month key, and as a duplicate exactly when that key is already a month of the dashboard (the reason names that month). It is accepted exactly when neither gate fires and the text columns are readable. On acceptance the old dashboard gets one row appended: the length grows by one, earlier rows are kept in order, and the new row is the summary of the batch under the batch's month key. |
| `Dashboard.UploadKeepsMonthsUnique` | dashboardapp.py:35-37 | An upload into a dashboard with unique months keeps the months unique. |
| `Dashboard.ReuploadRejected` | dashboardapp.py:36-37 | Uploading an accepted batch a second time into the dashboard that the first upload produced is rejected as a duplicate of its month, and that dashboard stays as it is. This holds within one upload step only. The app rebuilds the dashboard from the initial rows on every run (line 16), so the duplicate gate only ever sees 2025-03 and 2025-04, and the same report is accepted again in a later run (as `Session` implies). |
| `Dashboard.Session` | dashboardapp.py:16-62 | Every run ends with the two initial rows and no month twice. A third row is present exactly when a report was uploaded and its upload into the initial dashboard was accepted, and that row is the summary row the upload added. |
| `DashboardExamples.MayUploadAdded` | dashboardapp.py:39-62 | Ten May 2025 records (three DXFleet, one canceled, five Central, five Eastern) are appended as the row `2025-05, 10, 3, 0, 1, 0, 0, 0, 5, 5`. |
| `DashboardExamples.MarchUploadRejected` | dashboardapp.py:35-37 | A March 2025 report is rejected as a duplicate of `2025-03`, and the dashboard is unchanged. |

## Left out

- The Streamlit page (lines 6-7, 17-24, 33, 37, 63-64) is left out: the title, the tables, the buttons, the uploader and the messages. The messages become the `Rejection` and `Outcome` values.
- Reading the CSV with `pd.read_csv` and parsing timestamps with `pd.to_datetime` (lines 28-29) are left out. These are library parsers, so records arrive decoded. A timestamp that is unparsable or outside pandas' range (1677-09-21 to 2262-04-11) is `None`. The `Year` type admits all of 1677 and 2262, so it over-approximates that range at the two end years.
- The Excel and CSV downloads (lines 20-21, 66-72) are left out. They are library serialisers with no logic of their own.
- The catch-all `except` in the upload (lines 74-75) is only partly modelled. The model does cover one failure: a whole event-type or no-show column with no value reads as numeric NaN, so `.str` raises after both gates have passed. That is the `ProcessingFailed` rejection. A missing required column, and any other library failure, are not modelled: a decoded record always has those cells.
- Text columns are modelled only in part. Whether a column is text is decided by `read_csv`, so a column of numbers also breaks `.str`. The model treats cells as text, and `EventTypeIsText`/`NoShowIsText` look only for an absent column.
- `Text.ContainsIgnoreCase`: lower-cases ASCII letters only, where Python and its regular-expression engine fold Unicode letters too. The two fixed patterns contain no regular-expression metacharacters, so a regex match is a plain substring match.
- `Dashboard.IsCanceled`: a Canceled cell counts only when it is the boolean `true`. pandas would also count a numeric `1`, because `1 == True`. Decoded cells here are booleans.
- The remote versioned store, the version-token writes, the TOTAL row and the spreadsheet colours are not part of this model: nothing in `dashboardapp.py` does them.
