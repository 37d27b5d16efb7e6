# WKF kata results scraper — a Dafny model of its page interpretation

The scraper collects judged kata performances from the draws pages of the
WKF results site. For each event it reads the category links of the event's
draws index and keeps the kata rounds. It then reads each round page: the
header names the tournament and the category, and every pool table yields
one record per competitor who performed. A record holds the name,
nationality and kata, the technical grades (`TEC1..`), the athletic grades
(`ATH1..`) and the score. Rounds, and then events, are concatenated in order.

This project models that logic on pages that have already been fetched and
parsed. A page is a list of header texts plus pool tables. A pool table is
its first row's text plus its result rows. A result row holds the texts of
its `td` cells, of its bold elements and of its nested rows. A link is a
title and an href. Every rule is a pure function that returns a record list
or the error that Python would raise.

Modules, one per component:

- `PyStrings` (`py_strings.dfy`): the Python primitives the scraper relies on. These are slicing with negative bounds, `rsplit(sep, 1)` with the search from the right (`rfind`) it performs, `split(c)`, `replace`, and `str(n)`.
- `Outcomes` (`outcomes.dfy`): the errors, the result type, and the in-order concatenation used at every level. The first failure wins.
- `Dom` (`dom.dfy`): the extracted page data.
- `CategoryPage` (`category_page.dfy`): `category_data`, which gives tournament and category from the header, plus the pool tables.
- `Performances` (`performances.dfy`): `get_round_performances`. This covers the pool label, competitor identity, the row guard, grades and records.
- `Columns` (`columns.dfy`): the field names of a record's dictionary (`TEC1..TECn`, `ATH1..ATHn`).
- `RoundLinks` (`round_urls.dfy`): `get_rounds_urls`.
- `Aggregate` (`aggregate.dfy`): `get_performances` and `concat_tournaments`.

The repository holds two copies of `data_utils.py`, each defining the same
five functions: `category_data`, `get_round_performances`, `get_rounds_urls`,
`get_performances` and `concat_tournaments`.
`wkf-kata-machine-learning/data_utils.py` is
`wkf_kata_machine_learning/data_utils.py` without the docstrings, so its
lines are shifted:

- header split: 28 there, 13 here;
- pool tables and rows: 62-109 there, 21-70 here;
- round links: 122-129 there, 74-81 here;
- events: 144-150 and 165-169 there, 85-91 and 94-98 here.

One model covers both copies, and the table below cites whichever copy is
clearer for each member.

The model follows the code as written. These are the points where the code
does something its own docstring (`wkf_kata_machine_learning/data_utils.py:43-58`)
and comments do not say:

- The docstring gives the nationality as an Alpha-3 code ("JPN"). For bold text shaped `"<name> (<city>, <country>)"`, the code keeps the blank after the comma (`" ESP"`, see `IdentityOfNameCityCountry`).
- The docstring says each record "should have 7 scores" of each kind. Nothing enforces this. A judge row with fewer than eight cells gives fewer grades, and the keys follow (`TEC1..TECn`).
- The name is the text before the *last* `" ("`.
- The pool label is the text between the first and the *second* colon (`split(":")[1]`).
- The comment on the guard speaks of competitors without grades. The guard skips a row only when the kata is empty or there is *no* nested row. A row with exactly one nested row passes the guard, and reading the second nested row then fails (`MissingAthleticRow`).
- Subtotals and the score go to `float` *without* comma normalisation. Only the grades are normalised (`SubtotalWithCommaAborts`, `CommaReadAsGradeNotAsSubtotal`).
- `pd.concat` of an empty list raises. So an event with no kata round, or an empty list of events, is an error (`NothingToConcatenate`).
- The competitor and the kata cell are read before the guard. So a row with no bold text or fewer than three cells fails even when the guard would have skipped it.

## Model

| member | source | states |
|---|---|---|
| PyStrings.Slice | wkf_kata_machine_learning/data_utils.py:84 | Python slice `s[start:stop]`: negative bounds count from the end and are clamped; the result is the contiguous run from the resolved start, never longer than `s`. |
| PyStrings.DropLastSlice | wkf_kata_machine_learning/data_utils.py:124 | `s[:-k]` is all but the last `k` elements, or empty when `s` has fewer than `k`. |
| PyStrings.RFind | wkf_kata_machine_learning/data_utils.py:28 | The search from the right inside `rsplit` (Python's `rfind`) finds an index iff the substring occurs, and that index is the rightmost occurrence. |
| PyStrings.RSplitOnce | wkf_kata_machine_learning/data_utils.py:73 | `rsplit(sep, 1)` gives one piece (the whole text) iff `sep` does not occur; otherwise two pieces that glue back to the text around the rightmost `sep`, the second free of `sep`. |
| PyStrings.RSplitOnceAt | wkf-kata-machine-learning/data_utils.py:13 | Splitting `x + sep + y` when no `sep` starts after `x` gives back exactly `[x, y]`. |
| PyStrings.Split | wkf_kata_machine_learning/data_utils.py:67 | `split(c)` gives at least one piece and no piece contains `c`; with `Join` it is an inverse pair (next rows). |
| PyStrings.JoinSplit | wkf_kata_machine_learning/data_utils.py:67 | Joining the pieces of `split(c)` with `c` restores the text. |
| PyStrings.SplitJoin | wkf-kata-machine-learning/data_utils.py:26 | Splitting a join of `c`-free pieces gives back the pieces: `split` and `join` are inverse. |
| PyStrings.SplitFirst | wkf_kata_machine_learning/data_utils.py:67 | The first piece of `split(c)` is the text before the first `c`; there is a second piece iff `c` occurs, and the rest is the split of the text after the first `c`. |
| PyStrings.ReplaceAllClears | wkf-kata-machine-learning/data_utils.py:47-48 | After `replace(a, b)` with `a != b` no `a` remains, and replacing again changes nothing. |
| PyStrings.DecimalStringInjective | wkf_kata_machine_learning/data_utils.py:100-101 | `str(n) == str(m)` only when `n == m`, so the numbered keys never collide. |
| Outcomes.Concat | wkf_kata_machine_learning/data_utils.py:147-150 | In-order concatenation succeeds iff every element succeeds; a failure is the first failing element's error; every record comes from some element. |
| Outcomes.ConcatIsFlatten | wkf_kata_machine_learning/data_utils.py:150 | When nothing fails, the result is the plain flattening of the elements' record lists in element order. |
| Outcomes.ConcatAppend | wkf-kata-machine-learning/data_utils.py:88-91 | Concatenating over `a + b` is the concatenation over `a` followed by that over `b`, with the first failure winning. |
| Outcomes.ConcatSkip | wkf_kata_machine_learning/data_utils.py:79-82 | An element that yields no records can be removed without changing the result. |
| CategoryPage.TrimHeader | wkf_kata_machine_learning/data_utils.py:28 | `text[:-2]` loses exactly the last two characters, or is empty for shorter texts. |
| CategoryPage.SplitHeader | wkf_kata_machine_learning/data_utils.py:28 | Succeeds iff the trimmed header contains `" - "`; then tournament + `" - "` + category is the trimmed header, split at the last separator, and the category contains no separator; otherwise the unpacking error. |
| CategoryPage.ParseCategoryPage | wkf_kata_machine_learning/data_utils.py:6-32 | A page without a header block fails. Otherwise it fails iff the trimmed header has no `" - "`. A parsed page has tournament + `" - "` + category equal to the trimmed header, split at the *last* separator, a separator-free category, and all pool tables in order. |
| CategoryPage.HeaderSplitsAtLastSeparator | wkf-kata-machine-learning/data_utils.py:6-17 | A header `t + " - " + c` plus two trailing characters parses to tournament `t` and category `c`, even when `t` itself contains `" - "`, when `c` has no `" - "` and does not start with `"- "`. Neither condition rules out a dash, so "Male Kata U-21" qualifies. |
| CategoryPage.SplitAtSeparatorNeedsCleanCategory | wkf-kata-machine-learning/data_utils.py:13 | The converse: when such a header splits into `t` and `c`, `c` has no `" - "` and does not start with `"- "`. The two conditions are therefore exactly the headers that split there. |
| CategoryPage.SalzburgHeader | tests/test_data_utils.py:4-9 | The test's header yields tournament "Karate1 Premier League - Salzburg 2020" and category "Female Kata" and keeps the page's tables. |
| Performances.PoolLabel | wkf_kata_machine_learning/data_utils.py:67 | Succeeds iff the first row contains a colon; the label is the colon-free text from after the first colon up to the next colon or the end. |
| Performances.CompetitorName | wkf_kata_machine_learning/data_utils.py:73 | The whole text when `" ("` does not occur; otherwise the prefix that ends where the last `" ("` starts. |
| Performances.Nationality | wkf_kata_machine_learning/data_utils.py:74 | The text after the last comma (the whole text if there is none), without its final character. |
| Performances.NameBeforeLastParenthesis | wkf_kata_machine_learning/data_utils.py:73 | When no `(` follows the `" ("` after `name`, the competitor name is exactly `name`. |
| Performances.NationalityAfterLastComma | wkf_kata_machine_learning/data_utils.py:74 | When no comma follows the comma before `z`, the nationality is `z` without its last character. |
| Performances.IdentityOfNameCityCountry | wkf-kata-machine-learning/data_utils.py:31-33 | For bold text `"<name> (<city>, <country>)"` the name is `<name>` and the nationality is `" " + <country>`, even when the city contains commas. |
| Performances.GradeCells | wkf_kata_machine_learning/data_utils.py:84 | `cells[1:8]`: at most seven grades, exactly seven when there are at least eight cells, the cell count minus one for shorter rows, each the cell one place further right. |
| Performances.Normalise | wkf_kata_machine_learning/data_utils.py:88-89 | Same length, no comma left, every comma becomes a point and every other character is kept. |
| Performances.NormaliseExample | wkf-kata-machine-learning/data_utils.py:48 | The grade `"8,5"` is read as `"8.5"`. |
| Performances.ParseGrades | wkf_kata_machine_learning/data_utils.py:88 | Succeeds iff every normalised grade parses, giving one number per grade in order; otherwise it fails on the first grade that does not parse. |
| Performances.ScoredPerformance | wkf-kata-machine-learning/data_utils.py:42-68 | A row past the guard with two judge rows yields a record iff both subtotals, the score and every normalised grade of both judge rows are numbers. The record is then the one the row determines (`RecordOf`). Here `Float` is `float`, giving the parser's value or the `ValueError` naming the text, and `Subtotal` is `float` of a judge row's raw last cell. |
| Performances.GradedPerformance | wkf_kata_machine_learning/data_utils.py:84-104 | With the score read, the row yields a record iff every normalised grade of both judge rows is a number, and the record is the one the row determines. Otherwise the technical grades' first failure wins, then the athletic grades'. |
| Performances.ScoredPerformanceNumbersFirst | wkf_kata_machine_learning/data_utils.py:85-86 | Reading order: a technical subtotal that is not a number decides the error; then the athletic subtotal; then the score. |
| Performances.ScoredPerformanceGradesNext | wkf_kata_machine_learning/data_utils.py:88-89 | Once subtotals and score are numbers, a failure reading the technical grades comes before one reading the athletic grades; with `ParseGrades` each names its first bad grade. |
| Performances.RecordOfUnique | wkf_kata_machine_learning/data_utils.py:92-104 | A row and the parser determine at most one record: every field of it is fixed by the row. |
| Performances.RowPerformance | wkf_kata_machine_learning/data_utils.py:70-107 | No bold text fails, then fewer than three cells fails. The row is skipped iff the kata is empty or there is no nested row (the guard `Performed`, line 82). Exactly one nested row fails. With two judge rows, the row succeeds iff every number it is read for is a number, with the record the row determines; otherwise the error is the first failing read in source order. |
| Performances.SubtotalWithCommaAborts | wkf_kata_machine_learning/data_utils.py:85-89 | With a `float` that rejects every text containing a comma, a performed row whose technical subtotal contains a comma fails with that subtotal's `ValueError`. |
| Performances.CommaReadAsGradeNotAsSubtotal | wkf-kata-machine-learning/data_utils.py:44-48 | With a `float` that rejects commas, a text with a comma that reads after normalisation is read as a grade, giving that number, but fails as a subtotal. |
| Performances.RowsPerformances | wkf-kata-machine-learning/data_utils.py:29-68 | The rows of a pool succeed iff every row succeeds, and a failure is the first failing row's error. Every record is the record of one of the rows, and every row's record is among them. |
| Performances.RowsSingle | wkf-kata-machine-learning/data_utils.py:29-68 | A pool of one row yields exactly that row's records: none when skipped, its one record otherwise, or its error. |
| Performances.TablePerformances | wkf_kata_machine_learning/data_utils.py:66-68 | A table without a row or whose first row has no colon fails. Otherwise its result is the rows' result under the pool label of the first row, so every record carries the page's names and that label and comes from one of its rows. |
| Performances.RoundPerformances | wkf_kata_machine_learning/data_utils.py:62-66 | A header failure is the round's failure. Otherwise the round succeeds iff every table succeeds, a failure is the first failing table's error, every table's records appear, and all carry the parsed tournament and category. |
| Performances.RowRecordWellFormed | wkf-kata-machine-learning/data_utils.py:41-48 | An emitted record has a non-empty kata and at most seven grades of each kind. |
| Performances.RoundRecordsWellFormed | wkf_kata_machine_learning/data_utils.py:82-107 | Every record of a round has a non-empty kata and at most seven grades of each kind. |
| Performances.SkippedRowChangesNothing | wkf_kata_machine_learning/data_utils.py:82 | A row the guard skips adds nothing and leaves the records of the other rows as they were. |
| Performances.RowsInOrder | wkf-kata-machine-learning/data_utils.py:68 | The records of `a + b` are those of `a` followed by those of `b`. |
| Performances.RoundIsTablesInOrder | wkf_kata_machine_learning/data_utils.py:66-107 | When every table succeeds, a round's records are its tables' records one table after the other. |
| Columns.GradeKeys | wkf_kata_machine_learning/data_utils.py:100-101 | `n` keys, the i-th being the prefix followed by `str(i + 1)`, no two equal. |
| Columns.GradeFields | wkf_kata_machine_learning/data_utils.py:102-103 | One field per grade, the k-th named prefix + `str(k + 1)` and holding the k-th grade. |
| Columns.Fields | wkf_kata_machine_learning/data_utils.py:92-104 | Six identity fields, then `TEC1..TECn` with the technical grades, `ATH1..ATHm` with the athletic grades, then the score: `7 + n + m` fields. |
| Columns.KeysOfFields | wkf-kata-machine-learning/data_utils.py:53-65 | The keys of a record are the identity keys, `TEC1..TECn`, `ATH1..ATHm` and "Score", in that order. |
| Columns.FieldKeysDistinct | wkf_kata_machine_learning/data_utils.py:102-104 | No two fields of a record share a key, so every `update` of the dictionary adds and none overwrites. |
| RoundLinks.KataUrls | wkf_kata_machine_learning/data_utils.py:126-128 | Every output is the base path plus the href of a link whose title contains "Male Kata" or "Female Kata", and every such link contributes its URL. `IsKataTitle` is that test (line 127), case sensitive as in the source. |
| RoundLinks.RoundUrls | wkf_kata_machine_learning/data_utils.py:124-129 | At most `max(0, n - 3)` URLs; each comes from a kata link among the first `n - 3` links, and each such link contributes. |
| RoundLinks.KataUrlsAppend | wkf_kata_machine_learning/data_utils.py:126-129 | Selection keeps link order: the URLs of `a + b` are those of `a` followed by those of `b`. |
| RoundLinks.KataUrlsSnoc | wkf-kata-machine-learning/data_utils.py:78-80 | One more link adds its URL at the end exactly when it is a kata link. |
| RoundLinks.KataUrlsKeepsEveryKataLink | wkf-kata-machine-learning/data_utils.py:78-80 | When every link is a kata link, the i-th URL is the base plus the i-th href: nothing is dropped and duplicates stay. |
| RoundLinks.TrailingLinksIgnored | wkf-kata-machine-learning/data_utils.py:76 | The last three links are never consulted, whatever they are. |
| RoundLinks.CollectRoundUrls | wkf-kata-machine-learning/data_utils.py:76-81 | The loop of the source computes exactly the selection above. |
| RoundLinks.KataTitleNamesKata | wkf_kata_machine_learning/data_utils.py:127 | Every accepted title contains " Kata". |
| RoundLinks.FemaleKataNeedsItsOwnTest | wkf_kata_machine_learning/data_utils.py:127 | The test is case sensitive: "Female Kata" does not contain "Male Kata", yet it is accepted by its own test. |
| Aggregate.EventPerformances | wkf_kata_machine_learning/data_utils.py:144-150 | An event without kata rounds fails (empty concatenation). Otherwise it succeeds iff every round succeeds, and a failure is the first failing round's error. Every record comes from one of its rounds, and every round's records appear. |
| Aggregate.AllPerformances | wkf_kata_machine_learning/data_utils.py:165-169 | An empty list fails. Otherwise it succeeds iff every event succeeds, and a failure is the first failing event's error. Every record comes from one of the events, and every event's records appear. |
| Aggregate.EventIsRoundsInOrder | wkf-kata-machine-learning/data_utils.py:84-91 | A successful event's records are its rounds' records, round after round. |
| Aggregate.TwoEventsInOrder | wkf-kata-machine-learning/data_utils.py:97 | Aggregating `[A, B]` gives all of A's records followed by all of B's. |
| Aggregate.EventsInOrder | wkf_kata_machine_learning/data_utils.py:168 | The records of `first + rest` are those of `first` followed by those of `rest`, with the first failure winning. |

## Left out

- Fetching (`requests.get`) and HTML parsing (`BeautifulSoup`, `find_all`) are not modelled; both are external. Pages come in as the `Dom` datatypes, and fetching is a function parameter (`IndexFetcher`, `PageFetcher`).
- Selecting result rows by their two row classes, and collecting `td`, `b` and nested `tr` texts, belong to the HTML layer. The model receives them as lists.
- `float` is not modelled: it is a parameter `parse: string -> Option<real>`, and `None` stands for a `ValueError`. The subtotals are read only to decide failure, as in the source, which discards them.
- Missing `title` or `href` attributes on a link (a `KeyError` in the source) are not modelled; every `Link` carries both.
- `pd.DataFrame` construction and the column alignment of `pd.concat` are not modelled. This includes filling missing grade columns and the row index. Only the order of records is kept.
- Reading the list of event URLs (`open`, `splitlines`) and the `__main__` block (`isfile`, `to_csv`) are I/O. `AllPerformances` takes the list of URLs directly.
- The Python exception classes (`IndexError`, `ValueError`) are not kept apart. Each raising site has its own `Error` constructor instead.
- Repeating a parse on the same page content gives the same records: every member is a pure function. No lemma states this separately.
