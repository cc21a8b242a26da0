# retrieveHistory in Dafny

A model of `retrieveHistory.py`, a scraper that downloads ten seasons of rowing
workouts from the Concept2 logbook as `.fit` files. The program:

- checks its three arguments (login, password, output directory);
- fetches the season page of each of the last ten years and collects the workout links
  on it with a regular expression;
- for each season that has links, turns every link into an export URL and downloads it
  into `<output>/<year>/<year>_<workout>.fit`;
- counts the downloads that succeeded, per season and in total.

The model is split into modules that follow the program's parts:

- `Wrappers`: `Option`.
- `PyStr`: the bits of Python it relies on. These are `str.split("/")` (with `"/".join`
  as its inverse), `str(int)` (with a parser as its inverse) and POSIX `os.path.join`.
- `Args`: `warmup`, as a pure decision `Validate` and as a `Settings` class. The class
  holds the globals `CONCEPT2_LOGIN`, `CONCEPT2_PASSWORD` and `OUTPUT_DIR`, which
  `Warmup` updates.
- `Scanner`: `trainingPattern` and `re.findall`, written for this one fixed expression.
  - `MatchLen` is the match at one position. It is proved to be the longest link prefix,
    which makes it the match the regular expression takes.
  - `FindAll` is the leftmost, non-overlapping scan. It is proved sound (every result is
    a link that occurs in the page) and complete for links that no earlier match
    overlaps (`FindAllReports`).
  - `CollectTraining` is the list-then-set loop of `collectTraining`. The scanner is stated
    for any form of the host part. The program scans with `WrittenPattern`, the expression
    as line 39 builds it, in which both dots of the host name are wildcards.
    `IntendedPattern`, with literal dots, is the corrected form (see "## Findings").
- `Seasons`: the season range and `getAllWorkouts`. The Python dict is a `SeasonDict`,
  which keeps its keys in insertion order.
- `Download`: `downloadWorkout`, acting on a `Disk` object. The disk maps each file path
  to its bytes.
- `Retrieve`: the main block.
  - `BuildJobs` builds one job per link by iterating the link set.
  - `RunJobs` stands for the `pool.starmap` over one season's jobs.
  - `RunSeason`, `RunAllSeasons` and `RetrieveHistory` are the per-season body, the
    season loop and the whole program.

The network and the clock are parameters:

- `pages(year)` is the body of the season page for that year.
- `fetch(url)` is the response (status and body) to the export request for that URL.
- `currentYear` stands for `datetime.date.today().year`.

`pages` and `fetch` stand for the two `requests.get` calls (lines 110-114 and 167).

## Model

| member | source | states |
|---|---|---|
| Args.Validate | retrieveHistory.py:58-72 | Exit code 1 exactly when the list does not hold four entries; it is checked first, so the values are never looked at in that case. With four entries, exit code 2 exactly when one of the three values after the program name has fewer than 4 characters. Accepted exactly when neither holds, and then login, password and output directory are `allArgs[1]`, `allArgs[2]`, `allArgs[3]` unchanged. |
| Args.Settings.constructor | retrieveHistory.py:28-30 | Before `warmup` runs, login and password are unset and the output directory is `"."`. |
| Args.Settings.Warmup | retrieveHistory.py:43-72 | A rejected list makes it return the exit status of `Validate` and leaves all three globals as they were. An accepted list makes it return nothing and sets the three globals to the three values. |
| PyStr.Split | retrieveHistory.py:174 | `split("/")` yields one piece more than the string has slashes, and no piece contains a slash. |
| PyStr.JoinSplit | retrieveHistory.py:174 | Joining the pieces of `split("/")` with `"/"` gives back the original string. |
| PyStr.SplitWithoutSlash | retrieveHistory.py:174 | A string without a slash splits into itself alone. |
| PyStr.SplitAround | retrieveHistory.py:174 | Splitting `a + "/" + b` gives the pieces of `a` followed by the pieces of `b`. |
| PyStr.SplitTwoMore | retrieveHistory.py:174 | Appending `/a/b` with slash-free `a` and `b` adds exactly the pieces `a` and `b`. |
| PyStr.NatToStr | retrieveHistory.py:216 | `str(n)` of a natural number is a nonempty digit string without a leading zero. |
| PyStr.ParseNatToStr | retrieveHistory.py:216 | Reading the decimal text of `n` back gives `n`. |
| PyStr.IntToStr | retrieveHistory.py:216 | `str(n)` is a nonempty decimal numeral without a leading zero that reads back as `n`, preceded by `-` when `n` is negative. With `ParseNatToStr` this fixes the text uniquely. |
| PyStr.PathJoin | retrieveHistory.py:207 | POSIX `os.path.join(a, b)`. The result always ends with `b`. An absolute `b` is the result itself. Otherwise the result starts with `a`. It is `a + b` when `a` is empty or ends with a slash, and `a + "/" + b` otherwise. |
| Scanner.DigitRunEnd | retrieveHistory.py:39 | The `[0-9]+` run that starts at a position is maximal: digits up to the returned end, and no digit at the end. |
| Scanner.MatchLen | retrieveHistory.py:39-40 | A match at the start of the text is a link prefix: host part, digits, `/log/`, digits. It cannot be extended by one more digit. |
| Scanner.MatchLenLongest | retrieveHistory.py:39-40 | Every link prefix of the text is at most as long as the reported match, and one that cannot be extended by a digit is exactly the match. So the reported match is the one greedy regular-expression matching takes. |
| Scanner.FindAll | retrieveHistory.py:117 | Every text `re.findall` returns is a full match of the expression and occurs in the page. |
| Scanner.FindAllReports | retrieveHistory.py:117 | Completeness of the leftmost, non-overlapping scan. A link in the page that cannot be extended by a digit, and that no earlier match reaches into, is among the results. |
| Scanner.ScanStep | retrieveHistory.py:117 | One scan step consumes the match at the front, or one character when there is none. Whatever the rest of the scan finds is found. |
| Scanner.FindAllUnextended | retrieveHistory.py:117 | Every text `re.findall` returns occurs in the page at a place where no digit follows it, so no reported link has a cut-off workout number. |
| Scanner.FindAllLinkFirst | retrieveHistory.py:117 | A link followed by a non-digit is reported first, and scanning resumes right after it. |
| Scanner.FindAllSkips | retrieveHistory.py:117 | A character that cannot start the expression is skipped. |
| Scanner.FindAllSingle | retrieveHistory.py:117 | A page that is exactly one link yields exactly that link. |
| Scanner.FindAllLinkSpace | retrieveHistory.py:117 | A link, a space and more text yield the link followed by what the rest yields. |
| Scanner.LiteralPrefix | retrieveHistory.py:39 | A host part made of literal characters matches exactly the text it spells. |
| Scanner.LinkParts | retrieveHistory.py:39 | Under either form of the expression, every link is a text the host part matches, a nonempty digit string, `/log/` and a nonempty digit string. |
| Scanner.IntendedLinkParts | retrieveHistory.py:39 | With literal dots, every link is `https://log.concept2.com/profile/`, a nonempty digit string, `/log/` and a nonempty digit string. |
| Scanner.PartsAreIntendedLink | retrieveHistory.py:39 | Conversely, every text of that shape is a link. |
| Scanner.IntendedLinksNeedDot | retrieveHistory.py:32-39 | With literal dots, a page that yields any link contains a dot, namely the one of the host name. |
| Scanner.WrittenPatternAcceptsLookalike | retrieveHistory.py:32-39 | As written, the expression reports `https://logXconcept2Ycom/profile/1/log/2` as a workout link. With literal dots it reports nothing on that page. |
| Scanner.CollectTraining | retrieveHistory.py:108-122 | The result is exactly the set of `findall` matches of the given expression. Each element is a link of that expression and occurs in the page. |
| Scanner.DuplicateLinkCollapses | retrieveHistory.py:117-122 | For an expression that cannot begin at a space, as neither form can, the page `t + " " + t` (the same link twice, a space between) yields the list `[t, t]` and the set `{t}`. |
| Scanner.RescanFindsSame | retrieveHistory.py:117 | Scanning the found links, written one after another with spaces, finds exactly those links in the same order. |
| Scanner.RescanIdempotent | retrieveHistory.py:117-122 | Extracting the link set from the extracted links gives the same set again. |
| Seasons.RangeDown | retrieveHistory.py:195 | `range(start, stop, -1)` has `start - stop` entries when `start > stop` and none otherwise. Entry `k` is `start - k`. |
| Seasons.YearRangeShape | retrieveHistory.py:195 | The year range has exactly ten entries. It starts at the current year and descends by one at each step to the current year minus nine. It holds exactly those years. |
| Seasons.InsertionOrder | retrieveHistory.py:137-147 | The dict's keys hold a season exactly when it is in the range and its page has a link of the given expression. Each season appears once. |
| Seasons.AccumulateLast | retrieveHistory.py:139-145 | One more season at the end of the range adds it to the dict only when its link set is nonempty. It becomes a new last key only when it was not a key before. |
| Seasons.InsertionOrderDescends | retrieveHistory.py:139-145 | A strictly descending range gives strictly descending keys. |
| Seasons.GetAllWorkouts | retrieveHistory.py:125-147 | The dict it returns maps every season of the range whose page has links to that page's link set. Its keys are in insertion order. |
| Seasons.SeasonDictKeys | retrieveHistory.py:137-147 | The dict over the ten seasons holds a year exactly when the year is within the last ten seasons and its page has a link. No key maps to an empty set. |
| Seasons.SeasonsNewestFirst | retrieveHistory.py:195-199 | The main loop visits the seasons newest first. |
| Download.WorkoutId | retrieveHistory.py:174 | `split("/")[-3]` exists exactly when the URL has at least two slashes. The piece it yields holds no slash. |
| Download.DownloadEffect | retrieveHistory.py:169-180 | A status other than 200 reports `False` and leaves every file as it was. The call reports `True` exactly when the status is 200 and the URL has a workout number. It raises `IndexError` exactly when the status is 200 and the URL has fewer than two slashes. On `True` the whole body is written to `<dir>/<year>_<id>.fit`, and no other file changes. |
| Download.DownloadWorkout | retrieveHistory.py:150-180 | The result and the new files are those `DownloadEffect` describes, including `IndexError` for a URL too short to split. |
| Download.ExportUrlHasId | retrieveHistory.py:174 | An export URL always has a third-from-last piece, so that `IndexError` cannot happen on it. |
| Download.ExportSplit | retrieveHistory.py:217 | The pieces of an export URL are the link's pieces followed by `export` and `fit`. |
| Download.ExportUrlId | retrieveHistory.py:174 | For a link ending in `/log/<workout>`, the workout number taken from its export URL is `<workout>`. |
| Retrieve.BuildJobs | retrieveHistory.py:210-220 | There is one job per link of the season. Each job carries the season directory, the season as text and `link + "/export/fit"`. Every link is visited exactly once. |
| Retrieve.DownloadStep | retrieveHistory.py:169-180 | One job adds its file path exactly when it reports `True`. |
| Retrieve.FilesAfterKeys | retrieveHistory.py:222-223 | Running the jobs adds exactly the paths of the jobs that report `True`. |
| Retrieve.FilesAfterContents | retrieveHistory.py:222-223 | After the jobs, every file that no job reporting `True` writes keeps its bytes. Every path such a job writes holds the body answered to one of the jobs that write it. |
| Retrieve.RunJobs | retrieveHistory.py:222-226 | Without an `IndexError`, the count is the number of `True` results and the files are those of the jobs run in turn. The run fails exactly when some job raises `IndexError`. |
| Retrieve.ExportJobSucceeds | retrieveHistory.py:169-174 | An export job reports `True` exactly when its request is answered with status 200. |
| Retrieve.CountTrueOfEnumeration | retrieveHistory.py:212-226 | Counting `True` results over one job per link counts the links whose export is answered with 200. |
| Retrieve.PathsOfEnumeration | retrieveHistory.py:212-223 | The files those jobs write are the derived paths of the links whose export is answered with 200. |
| Retrieve.SeasonContents | retrieveHistory.py:212-223 | A path written by a job of the season holds the body answered to the export of one of the season's links exported with 200, and that link's path is this path. |
| Retrieve.SeasonOfEnumeration | retrieveHistory.py:204-226 | For a season's jobs, the count is the number of its links exported with 200. The paths written are those links' paths. |
| Retrieve.RunSeason | retrieveHistory.py:204-226 | One season of the main loop. `seasonWorkouts` ends as the number of the season's links whose export is answered with 200. The files added are exactly their `<yearPath>/<year>_<id>.fit` paths. Each such path holds the exported body of one of those links whose path it is. Every other file keeps its bytes. |
| Retrieve.Counts | retrieveHistory.py:199-226 | There is one counter per season, in loop order. Each counter is that season's number of links exported with 200. |
| Retrieve.RunAllSeasons | retrieveHistory.py:198-226 | The counters are those of `Counts`, in the dict's key order. `totalkWorkouts` is their sum. The files added are all the seasons' paths. Each of those paths holds the exported body of a link of some season whose path it is. Every other file keeps its bytes. |
| Retrieve.RetrieveHistory | retrieveHistory.py:183-226 | A rejected argument list exits with its status, touches no file and counts nothing. Otherwise the pages are scanned with the expression as written, and the program exits normally with one counter per season of the dict, in insertion order. `totalkWorkouts` is their sum. The files added are exactly those of the successful exports. Each holds the exported body of one of the links that write it, and every other file keeps its bytes. |
| Retrieve.SeasonCounts | retrieveHistory.py:199-226 | The counter of each season in the dict is the number of links on that season's page whose export is answered with 200. |
| Retrieve.FileNameExample | retrieveHistory.py:174-175 | Season 2024 and a link ending in `/log/456` give the file `2024_456.fit` in the season's directory. |
| Retrieve.FileNameOfLink | retrieveHistory.py:174-175 | For any link of either form of the expression, the third-from-last piece of its export URL is the link's whole trailing digit run: a nonempty digit suffix of the link with a slash just before it. So the file is `<yearPath>/<year>_<that run>.fit`. |

## Left out

- Authentication (`getAuthCookie`, lines 75-93) is not modelled. It is one POST whose `Set-Cookie` header is sent with every request.
- All requests are left out. The headers are not modelled, and the two GET bodies become the parameters `pages` and `fetch`. Network faults, which would crash the run, are not modelled.
- The `print` messages of `warmup` and all `logging` calls are left out: they are output only.
- `os.makedirs(yearPath, exist_ok=True)` (line 208) is not modelled. The disk is a flat map from path to content, in which directories need not exist. Filesystem errors on writing are not modelled.
- `multiprocessing.Pool` is not modelled: the jobs of a season run one after another, each writing whole files. Two links of one season with the same workout number under different profiles write the same path, and under the pool two workers can write that file at the same time, so it may end up holding parts of both bodies. The sequential model cannot produce such a mixed file.
- Retrieve.RunJobs: an `IndexError` stops the run at the first job that raises it, while the pool would finish the other jobs first. The error is proved impossible for export URLs (`Download.ExportUrlHasId`), so this never comes into play.
- The order in which a Python `set` is iterated is not modelled. `BuildJobs` picks links in an unspecified order. The dict's key order is modelled as insertion order, as Python guarantees.
- Retrieve.RetrieveHistory: at a path that several links write, it states that the file holds the body of one of them, not which one. That depends on the unspecified job order.
- `Scanner` is not a general regular-expression engine. It covers only the one fixed expression of `trainingPattern`.
- Text is Dafny `string`, so there is no decoding of the page body and no Unicode detail. File bodies are byte sequences.
- `fetch` is a function of the URL, so every request for the same export URL gets the same answer. The program requests a link once for each season page that lists it, and the model does not capture two requests for one URL answered differently.
- `datetime.date.today().year` (line 35) is the parameter `currentYear`.
- `SystemExit(n)` is returned as the exit status. A normal end is status 0.

## Findings

| source | as written | input that shows it | evidently intended | confidence | as-written member | corrected member |
|---|---|---|---|---|---|---|
| retrieveHistory.py:32-39 | The host `log.concept2.com` is put into the regular expression unescaped, so each of its dots matches any character but a newline. | A season page containing `https://logXconcept2Ycom/profile/1/log/2` has that text reported as a workout link. Its export URL is then requested. | The dots are literal (`re.escape` of the host). Every link is then `https://log.concept2.com/profile/<digits>/log/<digits>`. | not executed | Scanner.WrittenPatternAcceptsLookalike | Scanner.IntendedLinkParts |

The program model (`Retrieve.RetrieveHistory`) scans with the expression as written, so on such a page it adds the season and requests the lookalike's export, as the program does. The scanner, the season dictionary and the file-name lemmas are stated for either form of the expression. `Scanner.IntendedPattern` is the corrected form, and `Scanner.IntendedLinkParts` with `Scanner.PartsAreIntendedLink` proves that its links are exactly the real workout links.
