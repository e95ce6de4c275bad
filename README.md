# EtoroHelper scraper core, modelled in Dafny

EtoroHelper reads saved eToro pages and writes JSON and Markdown reports for them. This project
models the parts of it that compute something:

- **Usernames**: taking an eToro username from a profile URL, and checking a username given on
  the command line (`url_utils.dfy`, module `UrlUtils`).
- **Portfolio page**: the portfolio table becomes one ten-field record per row, and the records
  become a Markdown table (`portfolio.dfy`, module `Portfolio`).
- **Profile page**: the yearly gain/loss candles and four headline metrics, and their two
  Markdown tables (`performance.dfy`, module `Performance`).
- **Statistics page**: six sections of labelled figures and their Markdown report
  (`stats.dfy`, module `Stats`). The figures are found by landmark, by a fallback landmark, or
  by the text of a nearby label.
- **Command line**: the base directory; the username taken from `--user`, else `--user-url`,
  else `<base>/portfolio/person.txt`; and the download directory and profile page chosen for
  that person (`cli.dfy`, module `Cli`).

## How Python is modelled

The modules below are shared building blocks:

- **`Html`**: the parsed page is a tree of elements and text nodes.
  - The BeautifulSoup queries the scraper uses are functions on that tree: `find`,
    `find_all` (recursive or not), `.text`, `find_parent` and `find_next_sibling`.
  - Their lemmas state what a query returns: `find` is the first of `find_all`, and a found
    path leads to a matching node.
- **`Dicts`**: a Python `dict` is a sequence of key/value pairs in insertion order.
  - `Put` (and the method `Assign`) is `d[k] = v`: it overwrites in place or appends, so key
    order is kept.
  - `Get` is `d.get(k)`.
- **`Strings`**: the few `str` operations used:
  - `strip`, with Python's whitespace set;
  - `lower` and `title`;
  - `split`, `replace`, `join` and `in`.
- **`Markdown`**: the `"| " + " | ".join(cells) + " |"` row format, and a reader for such rows.

A state-changing step of the source is a method whose `ensures` ties its result to a function:
- each loop that fills a list or a dict is a `while` loop with its invariant;
- the function states the same computation on values;
- the properties are lemmas about those functions.

## Model

| member | source | states |
|---|---|---|
| `UrlUtils.ExtractUsernameFromUrl` | src/url_utils.py:4-45 | `UrlEmpty` is raised exactly when the URL is missing or empty; a returned name always consists of letters, digits, `_` and `-` only |
| `UrlUtils.UrlParse` | src/url_utils.py:21 | the only error `urlparse` can raise here is the invalid-IPv6 one (when it is raised is stated by `UrlUtils.UrlParseStages`); the parsed host holds no `/`, `?` or `#`, and the parsed path holds no newline, `?` or `#` |
| `UrlUtils.UsernameFromParsed` | src/url_utils.py:24-43 | "Invalid eToro URL" comes out exactly when the scheme is not `http`/`https` or the host lacks `etoro.com`; only the four error kinds of the source can come out; a returned name matches the username pattern and is made of characters of the path |
| `UrlUtils.UsernameFromPath` | src/url_utils.py:28-43 | "must be a people profile URL" comes out exactly when the stripped path does not start with `people/`; a returned name matches the username pattern and comes from the path |
| `UrlUtils.ValidateUsername` | src/url_utils.py:48-67 | accepts exactly the inputs the regular expression matches and returns them unchanged; the empty-input error is told apart from the bad-username error |
| `UrlUtils.ValidateUsernameAcceptsNewline` | src/url_utils.py:64-65 | as written, `"user\n"` is accepted although it is not a username |
| `UrlUtils.ValidateUsernameStrict` | src/url_utils.py:48-67 | accepts exactly the non-empty names made of letters, digits, `_` and `-`, with the same two errors |
| `UrlUtils.StrictAgreesWithoutNewline` | src/url_utils.py:64-65 | on any input without a newline, the corrected check and the check as written agree |
| `UrlUtils.PatternWithoutNewline` | src/url_utils.py:42-43 | without a newline in the input, a match of the `^...$` pattern means the input is a username |
| `UrlUtils.PeoplePathSplits` | src/url_utils.py:35-37 | a path starting `people/` always splits into at least two parts, the first being `people` |
| `UrlUtils.BadPeopleUrlUnreachable` | src/url_utils.py:35-37 | the "invalid people URL" error can never be raised |
| `UrlUtils.SanitizeKeeps` | src/url_utils.py:21 | `urlparse` leaves a URL untouched when it has no leading control or space and no tab, CR or LF |
| `UrlUtils.SplitHttpScheme` | src/url_utils.py:21 | `http:` and `https:` are split off as the scheme |
| `UrlUtils.SplitPlainNetloc` | src/url_utils.py:21 | after `//`, the host runs up to the first `/` of the path |
| `UrlUtils.UrlParseStages` | src/url_utils.py:21 | `urlparse` is the composition of its scheme, host and path stages, and succeeds whenever the host part holds neither `[` nor `]` |
| `UrlUtils.ParseHttpUrl` | src/url_utils.py:21-25 | `scheme://host/path` of plain characters parses to exactly that scheme, host and path |
| `UrlUtils.StripProfilePath` | src/url_utils.py:28 | stripping slashes from `/people/<name>...` leaves `people/<name>...`, also for an empty name when a later segment follows |
| `UrlUtils.SplitProfilePath` | src/url_utils.py:35-37 | splitting `people/<name>...` on `/` yields `people` and then the name |
| `UrlUtils.NamedProfilePath` | src/url_utils.py:28-43 | a `/people/<name>` path yields the name when it is a username, and the bad-username error otherwise, including an empty name followed by a segment (`/people//x`) |
| `UrlUtils.AcceptedEtoroUrl` | src/url_utils.py:17-43 | an http(s) URL on an `etoro.com` host is decided by its path alone |
| `UrlUtils.ProfileUrlYieldsName` | src/url_utils.py:4-45 | `https://www.etoro.com/people/<name>` yields `<name>` when it is a username, and the bad-username error otherwise, an empty name before a later segment (`.../people//x`) included |
| `UrlUtils.EtoroUrlChecks` | src/url_utils.py:17-32 | on any URL that parses, "Invalid eToro URL" is raised exactly when the scheme is not `http`/`https` or the host lacks `etoro.com`; past that, "must be a people profile URL" exactly when the stripped path does not start with `people/` |
| `UrlUtils.ForeignHostRefused` | src/url_utils.py:24-25 | an http(s) URL whose host lacks `etoro.com` is refused as an invalid eToro URL, whatever its path |
| `UrlUtils.NonProfilePathRefused` | src/url_utils.py:31-32 | an http(s) URL on an eToro host whose stripped path is outside `people/` is refused as not a profile URL |
| `UrlUtils.GoogleUrlRefused` | tests/test_url_utils.py:32-35 | `https://www.google.com/people/user` is refused as an invalid eToro URL |
| `UrlUtils.InvestUrlRefused` | tests/test_url_utils.py:37-40 | `https://www.etoro.com/invest` is refused as not a people profile URL |
| `Portfolio.Record` | src/parser.py:60-71 | every record has the ten field keys, in the source's order |
| `Portfolio.Blank` | src/parser.py:26-71 | the record before cells are read: ticker, name and type as found, the seven value fields `None` |
| `Portfolio.NumberIn` | src/parser.py:76-118 | a number is stored exactly when its element exists and its stripped text, with the field's characters removed, parses as a float; what is stored is that cleaned text, which holds none of the removed characters |
| `Portfolio.ExtractNames` | src/parser.py:26-50 | the ticker and the name/type pair are those of the first cell |
| `Portfolio.ExtractRow` | src/parser.py:20-126 | one row gives the record of `RowRecord`: none without a first cell or a body slot |
| `Portfolio.BuildRecord` | src/parser.py:59-124 | the filled record equals `Record` of the first cell and the data cells |
| `Portfolio.FillValueFields` | src/parser.py:74-124 | with at least eight cells, each value field is read from its own cell and the name fields are kept |
| `Portfolio.StoreNumber` | src/parser.py:76-118 | one numeric field takes the parsed value or stays `None`; no other field changes |
| `Portfolio.StoreText` | src/parser.py:84-124 | one text field takes the found text or stays `None`; no other field changes |
| `Portfolio.RecordByField` | src/parser.py:59-124 | a record agreeing with `Record` field by field is `Record` |
| `Portfolio.ExtractPortfolioData` | src/parser.py:15-128 | the list returned is `PortfolioOf(doc)`: one record per kept row, in page order |
| `Portfolio.RowKeptIff` | src/parser.py:20-57 | a row yields a record exactly when it has a first cell and a body slot |
| `Portfolio.OneRecordPerKeptRow` | src/parser.py:20-126 | the records are the rows' records, in order, one for every kept row and no others |
| `Portfolio.RecordsHaveFieldKeys` | src/parser.py:59-71 | every record of the list has the ten keys, each once |
| `Portfolio.RowRecordKeys` | src/parser.py:59-71 | the record of a kept row has the ten keys, in order, each once |
| `Portfolio.FieldKeysDistinct` | src/parser.py:60-71 | the ten field names are pairwise distinct |
| `Portfolio.PersonIffMirrorName` | src/parser.py:40-50 | the type is `Person` exactly when there is no company name but a mirror display name; otherwise `Instrument` |
| `Portfolio.ShortRowHasNoValues` | src/parser.py:73-74 | with fewer than eight cells, all seven value fields are `None` |
| `Portfolio.FieldReadsOwnCell` | src/parser.py:76-124 | each value field depends on its own cell only |
| `Portfolio.CellOneIgnored` | src/parser.py:74-124 | cell 1 is never read: replacing it does not change the record |
| `Portfolio.PriceField` | src/parser.py:76-81 | the price is the float of the price text with commas removed, or `None` when the element is missing or the text does not parse |
| `Portfolio.NumericFieldDecoration` | src/parser.py:158-167 | numbers get a `%` suffix under percent keys and a `$` prefix under price, net value and daily P&L |
| `Portfolio.MoneyKey` | src/parser.py:160-165 | the price, net value and daily P&L keys take the money branch, not the percent branch |
| `Portfolio.PercentKey` | src/parser.py:160 | the change and gain percent keys take the percent branch |
| `Portfolio.NotPercentKey` | src/parser.py:160 | a key missing a letter of each of `percent`, `gain` and `change` does not take the percent branch |
| `Portfolio.GenerateMarkdown` | src/parser.py:134-171 | nothing is written for an empty list; otherwise header, separator and one row per item |
| `Portfolio.HeaderAndSeparator` | src/parser.py:139-147 | the header row reads back as the header names and the separator as their dashes, each of equal width |
| `Portfolio.DataRowWidth` | src/parser.py:150-171 | row `i` of the table reads back as the cells of item `i`, as many as there are headers |
| `Performance.ExtractAnnual` | src/performance_parser.py:12-29 | the annual list is `AnnualOf(doc)`: the entries of the candles, in page order |
| `Performance.CandleEntryIff` | src/performance_parser.py:18-29 | a candle gives an entry exactly when its tooltip has both spans, and the entry holds their stripped texts |
| `Performance.OneEntryPerKeptCandle` | src/performance_parser.py:16-29 | the annual list has one entry per kept candle, in order, and no others |
| `Performance.ExtractMetrics` | src/performance_parser.py:31-55 | the metric keys are those present, in lookup order, and each key maps to the text of its element |
| `Performance.AssignMetric` | src/performance_parser.py:35-55 | one metric key is added exactly when its element was found; no other entry changes |
| `Performance.StoreMetrics` | src/performance_parser.py:35-55 | the four conditional stores keep, in lookup order, exactly the keys whose value was found, each with that value |
| `Performance.MetricKeysDistinct` | src/performance_parser.py:37-55 | the four metric keys are distinct |
| `Performance.PresentKeysIff` | src/performance_parser.py:35-55 | a metric key is present exactly when its element is found; there are at most four |
| `Performance.ExtractPerformanceData` | src/performance_parser.py:4-60 | the returned dict holds the annual list and the found metrics |
| `Performance.AnnualRows` | src/performance_parser.py:82-87 | one row per entry, or a single dash row when there is none |
| `Performance.MetricRows` | src/performance_parser.py:96-110 | one row per metric, or a single dash row when there is none |
| `Performance.WriteAnnual` | src/performance_parser.py:82-87 | writing the annual table appends exactly its rows |
| `Performance.WriteMetrics` | src/performance_parser.py:96-110 | writing the metrics table appends exactly its rows, in insertion order |
| `Performance.GeneratePerformanceMarkdown` | src/performance_parser.py:69-110 | the lines written are `PerformanceLines(data)` |
| `Performance.ReportLayout` | src/performance_parser.py:76-110 | for a non-empty dict: the two headings, table headers and separators at fixed places, with the rows between them |
| `Performance.EntryRowReadsBack` | src/performance_parser.py:84-85 | an annual row reads back as the year and the gain/loss, with a dash for a missing one |
| `Performance.MetricRowReadsBack` | src/performance_parser.py:99-108 | a metric row reads back as the readable name and the value; an unknown key is shown as itself |
| `Performance.EmptyTablesShowDashes` | src/performance_parser.py:82-110 | empty tables still get their headers and one dash row each |
| `Stats.FindCopiers` | src/stats_parser.py:15-22 | the copier count comes from the primary element, and from the fallback only when the primary is absent |
| `Stats.FindVersus` | src/stats_parser.py:24-32 | the comparison is present when either return is found, with `None` for the missing one |
| `Stats.ExtractPerformance` | src/stats_parser.py:12-34 | the performance section holds exactly the found figures, in order |
| `Stats.PerformanceFields` | src/stats_parser.py:15-32 | reading the section back gives the copiers and the comparison; copiers are found exactly when either element exists |
| `Stats.VersusShown` | src/stats_parser.py:28-32 | the comparison is reported as `user: …, spx500: …`, with `None` for a missing return |
| `Stats.ZipAllocation` | src/stats_parser.py:44-49 | the allocation is the zipped pairs stored in order, a later name overwriting an earlier one |
| `Stats.BarAllocation` | src/stats_parser.py:50-57 | the allocation holds the pairs of the bars that have both a name and a value |
| `Stats.LabelAllocation` | src/stats_parser.py:59-71 | the fallback stores one pair per label found with a nearby value |
| `Stats.ExtractAllocation` | src/stats_parser.py:36-73 | the allocation section is `AllocationOf(doc)` |
| `Stats.ZipNeverFallsBack` | src/stats_parser.py:41-49 | with equal, non-empty name and value lists, the allocation is the zip and every name is stored |
| `Stats.AllocationLastWins` | src/stats_parser.py:48-49 | the value stored for a name is the value of its last occurrence |
| `Stats.LabelFallbackIff` | src/stats_parser.py:36-73 | without a container, the label fallback decides; the allocation is empty exactly when both searches find nothing |
| `Stats.ValueByLabelIgnoresCase` | src/stats_parser.py:82-101 | the label lookup does not depend on the case of the label asked for |
| `Stats.DividendsOf` | src/stats_parser.py:75-109 | the dividends section has at least the five labelled figures |
| `Stats.DividendKeysDistinct` | src/stats_parser.py:103-107 | the five dividend keys are distinct, and none is `dividend_yield` |
| `Stats.ExtractDividends` | src/stats_parser.py:75-109 | the dividends section is `DividendsOf(doc)` |
| `Stats.AssignFigures` | src/stats_parser.py:103-107 | the five labelled figures are appended after the yield |
| `Stats.DividendFields` | src/stats_parser.py:75-109 | each of the five figures is always stored, as its value or `None`; the yield is present exactly when its element is found |
| `Stats.FiguresGet` | src/stats_parser.py:103-107 | each of the five keys reads back as its labelled value or `None` |
| `Stats.ExtractTrading` | src/stats_parser.py:111-130 | the trading section holds exactly the found figures, in order |
| `Stats.TradingFields` | src/stats_parser.py:111-130 | each trading key reads back as its element's text, absent when not found |
| `Stats.FindProfitableWeeks` | src/stats_parser.py:146-151 | profitable weeks are read from the value inside their container |
| `Stats.ExtractAdditional` | src/stats_parser.py:132-153 | the additional section holds exactly the found figures, in order |
| `Stats.AdditionalFields` | src/stats_parser.py:132-153 | each additional key reads back as its element's text, absent when not found |
| `Stats.EsgKeysDistinct` | src/stats_parser.py:155-174 | the category keys are distinct from each other and from `overall_score` |
| `Stats.ExtractEsg` | src/stats_parser.py:155-176 | the ESG section is `EsgOf(doc)`: the overall score, then each category found by label |
| `Stats.EsgFields` | src/stats_parser.py:155-176 | with a breakdown list, only the overall score can be stored; without it, each category reads back as its value found by label |
| `Stats.Sections` | src/stats_parser.py:5-178 | the page's dict holds the six section keys, in order |
| `Stats.SectionKeysDistinct` | src/stats_parser.py:5-178 | the six section keys are distinct |
| `Stats.SectionGet` | src/stats_parser.py:5-178 | in a dict holding the six section keys in order, each section reads back under its own key |
| `Stats.AssignSections` | src/stats_parser.py:5-178 | the six sections are stored under their keys, in order |
| `Stats.ExtractStatsData` | src/stats_parser.py:5-178 | the returned dict is `StatsOf(doc)` |
| `Stats.WriteSection` | src/stats_parser.py:189-202 | writing a section appends exactly its lines |
| `Stats.GenerateStatsMarkdown` | src/stats_parser.py:184-209 | the lines written are `StatsLines(data)`: the title, then the six sections in order |
| `Stats.SectionShape` | src/stats_parser.py:189-202 | a section is skipped exactly when it is missing or empty; otherwise heading, table header, separator, one row per entry, blank line |
| `Stats.SectionRowReadsBack` | src/stats_parser.py:193-200 | a section row reads back as the title-cased key and the rendered value |
| `Stats.DividendsAlwaysReported` | src/stats_parser.py:75-109 | the dividends section is always stored and always reported, in at least ten lines |
| `Stats.CopiersHeading` | src/stats_parser.py:201 | the key `copiers_12m` is shown as `Copiers 12M`: a letter after a digit opens a word |
| `Markdown.HeaderNameAt` | src/parser.py:143 | character by character, a key's shown name has a space for each `_`, upper-cases a letter that opens a word, lower-cases a letter inside one, and keeps every other character |
| `Stats.NoSectionsOnlyTitle` | src/stats_parser.py:184-209 | with every section missing or empty, the report is the title alone |
| `Cli.PathJoin` | main.py:83-85 | `os.path.join(a, b)` ends with `b`, starts with `a` when `b` is relative, and is `b` when `b` is absolute |
| `Cli.PathJoinPlain` | main.py:83-85 | joining a relative part onto a directory puts exactly one `/` between them |
| `Cli.UserResolution` | main.py:24-31 | `--user` goes on exactly when `validate_username` as written accepts it (a username, or one followed by a single newline), is kept unchanged and announced; otherwise the run ends with the validator's error line |
| `Cli.UrlResolution` | main.py:33-40 | a URL that goes on always yields a username; otherwise one error line ends the run |
| `Cli.ResolveUsername` | main.py:22-40 | `--user` takes precedence and is accepted exactly when it matches the pattern as written; a name from the URL is always a username; with neither option there is no name and no output |
| `Cli.ProfilePath` | main.py:102-104 | `profile.html` when it exists, and `<person>.html` when it does not, both in the download directory |
| `Cli.CheckUser` | main.py:25-31 | the `--user` step is `UserResolution` |
| `Cli.CheckUrl` | main.py:34-40 | the `--user-url` step is `UrlResolution` |
| `Cli.ResolveStep` | main.py:22-40 | the resolution step is `ResolveUsername(args)` |
| `Cli.PersonStep` | main.py:81-88 | the person is the username, else the stripped contents of `person.txt` when the directory and the file exist |
| `Cli.Run` | main.py:15-132 | the printed lines and the outcome are `RunOf(args, today, disk)` |
| `Cli.UserWins` | main.py:24-31 | a `--user` the check accepts is announced first and becomes the person downloaded |
| `Cli.BadUserAborts` | main.py:25-31 | a `--user` the check refuses prints one error and stops |
| `Cli.NewlineUserDownloaded` | main.py:25-28 | a username followed by one newline passes `--user` and is downloaded as the person, newline included, where the corrected check would refuse it |
| `Cli.UserCheckAgreesWithoutNewline` | main.py:25-28 | on a `--user` without a newline, the check as written and the corrected one agree |
| `Cli.UrlDecidesWithoutUser` | main.py:33-40 | without `--user`, a URL's name is announced and downloaded, and a bad URL prints one error and stops |
| `Cli.PersonFileFallback` | main.py:81-88 | without either option, `person.txt` decides; with no usable file the run ends with the no-username message |
| `Cli.AbortsOnlyOnOptions` | main.py:24-40 | a run stops early only because of a given option, and prints one line |
| `Cli.DownloadDirLayout` | main.py:92 | downloads go to `downloads/<person>/<date>` |
| `Cli.ResolvedUsernameIsPerson` | main.py:81-92 | a resolved username is the person downloaded, under the chosen base directory |

## Left out

- Fetching pages, installing dependencies and writing JSON files (`src/downloader.py`, `src/dependencies.py`, the `generate_*_json` writers) are not part of this model.
- Reading and writing files is not modelled. The extractors take the parsed page and the report writers return the lines they would write. `main.py` sees the disk as a set of directories and a map from files to contents.
- The HTML parser that turns markup into a tree is not modelled: the tree is the input. The model does not cover entity decoding or how BeautifulSoup repairs broken markup.
- In `main.py`, the portfolio part (lines 42-78) and the parsing of the downloaded pages (lines 105-130) are not modelled, nor is the download at line 96. `Cli.Run` stops at the chosen profile path, and its log holds only the lines printed in the modelled parts.
- The clock is an input: `today` stands for `datetime.now().strftime('%Y-%m-%d')`.
- `Cli.Run`: opening a `person.txt` that is a directory raises in Python. The model reads only regular files, so it treats that case as no file.
- Floats are abstract. `isFloat(s)` says whether `float(s)` succeeds, a parsed number is kept as its literal, and `show(s)` stands for `str(float(s))`. The model does not prove which texts parse or how they print.
- `lower`, `upper` and `title` map ASCII letters only. Python's Unicode case mapping is not modelled.
- `Strings.HasPercentFigure` (the `\d+\.?\d*%` search at `src/stats_parser.py:69`) counts only `0`-`9` as digits. Python's `\d` on a `str` also matches the other Unicode decimal digits, so a figure written in, say, Arabic-Indic digits is found by the source and not by the model.
- `UrlUtils.UrlParse` keeps only the scheme, host and path of `urlparse`, and checks only the IPv6 bracket error. It leaves out NFKC netloc checks, port validation, query and fragment values, and the `;` parameters beyond dropping them from the path.
- The placeholder for `None` in the portfolio table is the three characters at `src/parser.py:155` (`â€”`, a mis-decoded em dash), kept as written. The performance report uses `—`, and the statistics report prints `None`.
- BeautifulSoup elements are always truthy. Where the source tests an element with `if elem:`, the model tests whether it was found.

## Findings

| source | as written | input that shows it | evidently intended | confidence | as-written member | corrected member |
|---|---|---|---|---|---|---|
| src/url_utils.py:64-65 | the username check uses `re.match` with a pattern ending in `$`, which also matches just before a final newline | `validate_username("user\n")` returns `"user\n"` instead of raising | accept only non-empty names of letters, digits, `_` and `-`, as the error message says | not executed | `UrlUtils.ValidateUsernameAcceptsNewline` | `UrlUtils.ValidateUsernameStrict` |

The command line keeps the check as written, because `main.py:27` calls `validate_username` itself. `Cli.NewlineUserDownloaded` shows what the flaw does there: `--user` set to a name plus a newline is downloaded under that name, newline included. `Cli.UserCheckAgreesWithoutNewline` shows that the corrected check changes nothing for any input without a newline.
