/** The main program of retrieveHistory.py: check the arguments, gather the links of
    the last ten seasons, and for each season with links build one export job per link,
    run them and count the successes. The network answers are parameters: `pages` gives
    the season page for a year, `fetch` the answer to an export request. */
module Retrieve {
  import opened Wrappers
  import opened PyStr
  import opened Args
  import opened Scanner
  import opened Seasons
  import opened Download

  /** One entry of `items`: the season directory, the season as text and the export URL
      (the headers, the same for every job, are left out). */
  datatype Job = Job(yearPath: string, year: string, url: string)

  /** The jobs of one season, built by iterating its link set: `done` is the order the
      iteration visits the links in, each link once, and job `i` exports link `i`. */
  method BuildJobs(yearPath: string, itemYear: int, workouts: set<string>)
    returns (items: seq<Job>, ghost done: seq<string>)
    ensures |items| == |workouts|
    ensures Enumerates(items, done, yearPath, IntToStr(itemYear)) && Distinct(done)
    ensures forall l :: l in workouts <==> l in done
  {
    var year := IntToStr(itemYear);
    items, done := [], [];
    var rest := workouts;
    ghost var visited: set<string> := {};
    while rest != {}
      invariant visited + rest == workouts && visited !! rest
      invariant Enumerates(items, done, yearPath, year) && Distinct(done)
      invariant |done| == |visited| && forall l :: l in visited <==> l in done
      decreases |rest|
    {
      var oneWorkout :| oneWorkout in rest;
      EnumeratesSnoc(items, done, yearPath, year, oneWorkout);
      DistinctSnoc(done, oneWorkout);
      items := items + [Job(yearPath, year, ExportUrl(oneWorkout))];
      done := done + [oneWorkout];
      visited := visited + {oneWorkout};
      rest := rest - {oneWorkout};
    }
  }

  /** A job's call reports `True` for the answer its URL gets. */
  predicate Succeeds(job: Job, fetch: string -> Response) {
    Verdict(job.url, fetch(job.url)) == Done(true)
  }

  /** No job of the list raises `IndexError`. */
  predicate NoFault(items: seq<Job>, fetch: string -> Response) {
    NoFaultBefore(items, |items|, fetch)
  }

  /** No job before position `n` raises `IndexError`. */
  predicate NoFaultBefore(items: seq<Job>, n: nat, fetch: string -> Response)
    requires n <= |items|
  {
    forall i :: 0 <= i < n ==> Verdict(items[i].url, fetch(items[i].url)) != IndexFault
  }

  /** The number of `True` results among the jobs. */
  function CountTrue(items: seq<Job>, fetch: string -> Response): nat
    decreases |items|
  {
    if |items| == 0 then 0
    else CountTrue(items[..|items| - 1], fetch) + (if Succeeds(items[|items| - 1], fetch) then 1 else 0)
  }

  /** The files after the jobs have run one after another. */
  function FilesAfter(files: map<string, seq<Byte>>, items: seq<Job>, fetch: string -> Response): map<string, seq<Byte>>
    decreases |items|
  {
    if |items| == 0 then files
    else
      var job := items[|items| - 1];
      AfterDownload(FilesAfter(files, items[..|items| - 1], fetch), job.yearPath, job.year, job.url, fetch(job.url))
  }

  /** The path a succeeding job writes. */
  function JobPath(job: Job): string {
    match WorkoutId(job.url)
    case Some(id) => WorkoutPath(job.yearPath, job.year, id)
    case None => job.yearPath
  }

  /** The paths the succeeding jobs of a list write. */
  function SucceedingPaths(items: seq<Job>, fetch: string -> Response): set<string>
    decreases |items|
  {
    if |items| == 0 then {}
    else
      var job := items[|items| - 1];
      SucceedingPaths(items[..|items| - 1], fetch) + (if Succeeds(job, fetch) then {JobPath(job)} else {})
  }

  /** One job adds its path exactly when it succeeds. */
  lemma DownloadStep(files: map<string, seq<Byte>>, job: Job, fetch: string -> Response)
    ensures AfterDownload(files, job.yearPath, job.year, job.url, fetch(job.url)).Keys ==
      files.Keys + (if Succeeds(job, fetch) then {JobPath(job)} else {})
  {
    DownloadEffect(files, job.yearPath, job.year, job.url, fetch(job.url));
  }

  /** Running the jobs adds exactly the paths of the succeeding ones. */
  lemma {:induction false} FilesAfterKeys(files: map<string, seq<Byte>>, items: seq<Job>, fetch: string -> Response)
    ensures FilesAfter(files, items, fetch).Keys == files.Keys + SucceedingPaths(items, fetch)
    decreases |items|
  {
    if |items| > 0 {
      var init := items[..|items| - 1];
      FilesAfterKeys(files, init, fetch);
      DownloadStep(FilesAfter(files, init, fetch), items[|items| - 1], fetch);
    }
  }

  /** `p` holds the body answered to a succeeding job of the list that writes `p`. */
  ghost predicate WrittenByJob(files: map<string, seq<Byte>>, p: string, items: seq<Job>, fetch: string -> Response) {
    exists i :: 0 <= i < |items| && Succeeds(items[i], fetch) && JobPath(items[i]) == p &&
      p in files && files[p] == fetch(items[i].url).content
  }

  /** Every file of `initial` outside `written` is still there with the same bytes. */
  ghost predicate Untouched(initial: map<string, seq<Byte>>, files: map<string, seq<Byte>>, written: set<string>) {
    forall p :: p in initial && p !in written ==> p in files && files[p] == initial[p]
  }

  /** Running the jobs leaves every file that no succeeding job writes as it was, and
      every path a succeeding job writes holds the body answered to one such job. */
  lemma {:induction false} FilesAfterContents(files: map<string, seq<Byte>>, items: seq<Job>, fetch: string -> Response)
    ensures Untouched(files, FilesAfter(files, items, fetch), SucceedingPaths(items, fetch))
    ensures forall p :: p in SucceedingPaths(items, fetch) ==> WrittenByJob(FilesAfter(files, items, fetch), p, items, fetch)
    decreases |items|
  {
    if |items| > 0 {
      FilesAfterContents(files, items[..|items| - 1], fetch);
      ContentsStep(files, items, fetch);
    }
  }

  lemma ContentsStep(files: map<string, seq<Byte>>, items: seq<Job>, fetch: string -> Response)
    requires |items| > 0
    requires var init := items[..|items| - 1];
      Untouched(files, FilesAfter(files, init, fetch), SucceedingPaths(init, fetch)) &&
      forall p :: p in SucceedingPaths(init, fetch) ==> WrittenByJob(FilesAfter(files, init, fetch), p, init, fetch)
    ensures Untouched(files, FilesAfter(files, items, fetch), SucceedingPaths(items, fetch))
    ensures forall p :: p in SucceedingPaths(items, fetch) ==> WrittenByJob(FilesAfter(files, items, fetch), p, items, fetch)
  {
    var n := |items| - 1;
    var init, job := items[..n], items[n];
    var before, after := FilesAfter(files, init, fetch), FilesAfter(files, items, fetch);
    DownloadEffect(before, job.yearPath, job.year, job.url, fetch(job.url));
    forall p | p in SucceedingPaths(items, fetch) ensures WrittenByJob(after, p, items, fetch) {
      if !(Succeeds(job, fetch) && p == JobPath(job)) {
        var i :| 0 <= i < |init| && Succeeds(init[i], fetch) && JobPath(init[i]) == p &&
          p in before && before[p] == fetch(init[i].url).content;
        assert items[i] == init[i];
      }
    }
  }

  /** The `pool.starmap` over one season's jobs, run one job after another. An `IndexError` in a job ends the run with no count. */
  method RunJobs(disk: Disk, items: seq<Job>, fetch: string -> Response) returns (seasonWorkouts: Option<nat>)
    modifies disk
    ensures seasonWorkouts.Some? <==> NoFault(items, fetch)
    ensures seasonWorkouts.Some? ==>
      seasonWorkouts.value == CountTrue(items, fetch) && disk.files == FilesAfter(old(disk.files), items, fetch)
  {
    var count := 0;
    for i := 0 to |items|
      invariant count == CountTrue(items[..i], fetch)
      invariant disk.files == FilesAfter(old(disk.files), items[..i], fetch)
      invariant NoFaultBefore(items, i, fetch)
    {
      var job := items[i];
      RunStep(old(disk.files), items, i, fetch);
      var result := DownloadWorkout(disk, job.yearPath, job.year, job.url, fetch(job.url));
      if result == IndexFault {
        return None;
      }
      if result.ok {
        count := count + 1;
      }
    }
    assert items[..|items|] == items;
    seasonWorkouts := Some(count);
  }

  lemma RunStep(files: map<string, seq<Byte>>, items: seq<Job>, i: nat, fetch: string -> Response)
    requires i < |items|
    ensures CountTrue(items[..i + 1], fetch) == CountTrue(items[..i], fetch) + (if Succeeds(items[i], fetch) then 1 else 0)
    ensures FilesAfter(files, items[..i + 1], fetch) ==
      AfterDownload(FilesAfter(files, items[..i], fetch), items[i].yearPath, items[i].year, items[i].url, fetch(items[i].url))
  {
    assert items[..i + 1][..i] == items[..i];
  }


  /** The export request for the link is answered with status 200. */
  predicate LinkOk(link: string, fetch: string -> Response) {
    fetch(ExportUrl(link)).status == 200
  }

  /** The links of a season whose export request is answered with status 200. */
  function OkLinks(workouts: set<string>, fetch: string -> Response): set<string> {
    set l | l in workouts && LinkOk(l, fetch)
  }

  /** The path the export job of a link writes when it succeeds. */
  function LinkPath(yearPath: string, year: string, link: string): string {
    JobPath(Job(yearPath, year, ExportUrl(link)))
  }

  /** An export job succeeds exactly when its request is answered with status 200. */
  lemma ExportJobSucceeds(yearPath: string, year: string, link: string, fetch: string -> Response)
    ensures Succeeds(Job(yearPath, year, ExportUrl(link)), fetch) <==> LinkOk(link, fetch)
  {
    ExportUrlHasId(link);
  }

  /** Job `i` exports link `i`. */
  predicate Enumerates(items: seq<Job>, done: seq<string>, yearPath: string, year: string) {
    |items| == |done| && forall i :: 0 <= i < |items| ==> items[i] == Job(yearPath, year, ExportUrl(done[i]))
  }

  predicate Distinct(done: seq<string>) {
    forall i, j :: 0 <= i < j < |done| ==> done[i] != done[j]
  }

  lemma EnumeratesSnoc(items: seq<Job>, done: seq<string>, yearPath: string, year: string, link: string)
    requires Enumerates(items, done, yearPath, year)
    ensures Enumerates(items + [Job(yearPath, year, ExportUrl(link))], done + [link], yearPath, year)
  {
  }

  lemma DistinctSnoc(done: seq<string>, link: string)
    requires Distinct(done) && link !in done
    ensures Distinct(done + [link])
  {
  }

  lemma EnumeratesPrefix(items: seq<Job>, done: seq<string>, yearPath: string, year: string, n: nat)
    requires Enumerates(items, done, yearPath, year) && n <= |items|
    ensures Enumerates(items[..n], done[..n], yearPath, year)
  {
    assert forall i :: 0 <= i < n ==> items[..n][i] == items[i] && done[..n][i] == done[i];
  }

  /** The links of a visiting order whose export request is answered with status 200. */
  function OkIn(done: seq<string>, fetch: string -> Response): set<string> {
    set l | l in done && LinkOk(l, fetch)
  }

  lemma OkInSnoc(done: seq<string>, x: string, fetch: string -> Response)
    ensures OkIn(done + [x], fetch) == OkIn(done, fetch) + (if LinkOk(x, fetch) then {x} else {})
  {
    assert forall l :: l in done + [x] <==> l in done || l == x;
  }

  /** Counting over the jobs of an enumeration of the links is counting the links. */
  lemma {:induction false} CountTrueOfEnumeration(items: seq<Job>, done: seq<string>, yearPath: string, year: string,
                                                  fetch: string -> Response)
    requires Enumerates(items, done, yearPath, year) && Distinct(done)
    ensures CountTrue(items, fetch) == |OkIn(done, fetch)|
    decreases |items|
  {
    if |items| > 0 {
      var n := |items| - 1;
      var x := done[n];
      EnumeratesPrefix(items, done, yearPath, year, n);
      CountTrueOfEnumeration(items[..n], done[..n], yearPath, year, fetch);
      ExportJobSucceeds(yearPath, year, x, fetch);
      assert done == done[..n] + [x];
      OkInSnoc(done[..n], x, fetch);
      assert x !in OkIn(done[..n], fetch);
    }
  }

  /** The paths the export jobs of some links write when they succeed. */
  function PathsOf(links: set<string>, yearPath: string, year: string): set<string> {
    set l | l in links :: LinkPath(yearPath, year, l)
  }

  lemma PathsOfAdd(links: set<string>, more: set<string>, yearPath: string, year: string)
    ensures PathsOf(links + more, yearPath, year) == PathsOf(links, yearPath, year) + PathsOf(more, yearPath, year)
  {
  }

  /** The paths written by the jobs of an enumeration are those of its succeeding links. */
  lemma {:induction false} PathsOfEnumeration(items: seq<Job>, done: seq<string>, yearPath: string, year: string,
                                              fetch: string -> Response)
    requires Enumerates(items, done, yearPath, year)
    ensures SucceedingPaths(items, fetch) == PathsOf(OkIn(done, fetch), yearPath, year)
    decreases |items|
  {
    if |items| > 0 {
      var n := |items| - 1;
      var x := done[n];
      EnumeratesPrefix(items, done, yearPath, year, n);
      PathsOfEnumeration(items[..n], done[..n], yearPath, year, fetch);
      ExportJobSucceeds(yearPath, year, x, fetch);
      assert done == done[..n] + [x];
      OkInSnoc(done[..n], x, fetch);
      var more := if LinkOk(x, fetch) then {x} else {};
      PathsOfAdd(OkIn(done[..n], fetch), more, yearPath, year);
      assert PathsOf(more, yearPath, year) == if LinkOk(x, fetch) then {LinkPath(yearPath, year, x)} else {};
    }
  }

  function Sum(counts: seq<nat>): nat
    decreases |counts|
  {
    if |counts| == 0 then 0 else Sum(counts[..|counts| - 1]) + counts[|counts| - 1]
  }

  /** `os.path.join(OUTPUT_DIR, str(itemYear))`. */
  function YearPath(outputDir: string, itemYear: int): string {
    PathJoin(outputDir, IntToStr(itemYear))
  }

  /** The files the run for one season adds: one per link whose export succeeded. */
  function SeasonPaths(outputDir: string, itemYear: int, workouts: set<string>, fetch: string -> Response): set<string> {
    PathsOf(OkLinks(workouts, fetch), YearPath(outputDir, itemYear), IntToStr(itemYear))
  }

  /** The links gathered for a season, none when it has no entry. */
  function LinksOf(links: map<int, set<string>>, itemYear: int): set<string> {
    if itemYear in links then links[itemYear] else {}
  }

  /** The files added over a list of seasons. */
  function AllPaths(outputDir: string, order: seq<int>, links: map<int, set<string>>, fetch: string -> Response): set<string>
    decreases |order|
  {
    if |order| == 0 then {}
    else
      var itemYear := order[|order| - 1];
      AllPaths(outputDir, order[..|order| - 1], links, fetch) + SeasonPaths(outputDir, itemYear, LinksOf(links, itemYear), fetch)
  }

  /** An enumeration of the season's links brings the season's counter and paths. */
  lemma SeasonOfEnumeration(outputDir: string, itemYear: int, workouts: set<string>,
                            items: seq<Job>, done: seq<string>, fetch: string -> Response)
    requires Enumerates(items, done, YearPath(outputDir, itemYear), IntToStr(itemYear)) && Distinct(done)
    requires forall l :: l in workouts <==> l in done
    ensures CountTrue(items, fetch) == |OkLinks(workouts, fetch)|
    ensures SucceedingPaths(items, fetch) == SeasonPaths(outputDir, itemYear, workouts, fetch)
  {
    var yearPath, year := YearPath(outputDir, itemYear), IntToStr(itemYear);
    CountTrueOfEnumeration(items, done, yearPath, year, fetch);
    PathsOfEnumeration(items, done, yearPath, year, fetch);
    assert OkIn(done, fetch) == OkLinks(workouts, fetch);
  }

  /** `p` is the path of one of the season's links whose export was answered with 200,
      and holds the body of that answer. */
  ghost predicate HoldsSeasonExport(files: map<string, seq<Byte>>, p: string, outputDir: string, itemYear: int,
                                    workouts: set<string>, fetch: string -> Response) {
    exists l :: l in OkLinks(workouts, fetch) && LinkPath(YearPath(outputDir, itemYear), IntToStr(itemYear), l) == p &&
      p in files && files[p] == fetch(ExportUrl(l)).content
  }

  /** What a job of an enumeration of the season's links writes is the export of one
      of those links. */
  lemma SeasonContents(outputDir: string, itemYear: int, workouts: set<string>, items: seq<Job>, done: seq<string>,
                       files: map<string, seq<Byte>>, p: string, fetch: string -> Response)
    requires Enumerates(items, done, YearPath(outputDir, itemYear), IntToStr(itemYear))
    requires forall l :: l in workouts <==> l in done
    requires WrittenByJob(files, p, items, fetch)
    ensures HoldsSeasonExport(files, p, outputDir, itemYear, workouts, fetch)
  {
    var i :| 0 <= i < |items| && Succeeds(items[i], fetch) && JobPath(items[i]) == p &&
      p in files && files[p] == fetch(items[i].url).content;
    var l := done[i];
    ExportJobSucceeds(YearPath(outputDir, itemYear), IntToStr(itemYear), l, fetch);
    assert l in OkLinks(workouts, fetch);
  }

  /** A file that keeps its bytes keeps what it holds. */
  lemma HoldsSeasonExportKept(before: map<string, seq<Byte>>, after: map<string, seq<Byte>>, p: string,
                              outputDir: string, itemYear: int, workouts: set<string>, fetch: string -> Response)
    requires HoldsSeasonExport(before, p, outputDir, itemYear, workouts, fetch)
    requires p in after && after[p] == before[p]
    ensures HoldsSeasonExport(after, p, outputDir, itemYear, workouts, fetch)
  {
    var l :| l in OkLinks(workouts, fetch) && LinkPath(YearPath(outputDir, itemYear), IntToStr(itemYear), l) == p &&
      p in before && before[p] == fetch(ExportUrl(l)).content;
    assert after[p] == fetch(ExportUrl(l)).content;
  }

  /** The body of the main loop for one season: build its jobs, run them and count the
      `True` results. */
  method RunSeason(disk: Disk, outputDir: string, itemYear: int, workouts: set<string>, fetch: string -> Response)
    returns (seasonWorkouts: nat)
    modifies disk
    ensures seasonWorkouts == |OkLinks(workouts, fetch)|
    ensures disk.files.Keys == old(disk.files).Keys + SeasonPaths(outputDir, itemYear, workouts, fetch)
    ensures Untouched(old(disk.files), disk.files, SeasonPaths(outputDir, itemYear, workouts, fetch))
    ensures forall p :: p in SeasonPaths(outputDir, itemYear, workouts, fetch) ==>
      HoldsSeasonExport(disk.files, p, outputDir, itemYear, workouts, fetch)
  {
    var yearPath := YearPath(outputDir, itemYear);
    var items, done := BuildJobs(yearPath, itemYear, workouts);
    forall k | 0 <= k < |items| ensures Verdict(items[k].url, fetch(items[k].url)) != IndexFault {
      ExportUrlHasId(done[k]);
    }
    var result := RunJobs(disk, items, fetch);
    seasonWorkouts := result.value;
    FilesAfterKeys(old(disk.files), items, fetch);
    FilesAfterContents(old(disk.files), items, fetch);
    SeasonOfEnumeration(outputDir, itemYear, workouts, items, done, fetch);
    forall p | p in SeasonPaths(outputDir, itemYear, workouts, fetch)
      ensures HoldsSeasonExport(disk.files, p, outputDir, itemYear, workouts, fetch)
    {
      SeasonContents(outputDir, itemYear, workouts, items, done, disk.files, p, fetch);
    }
  }

  lemma AllPathsStep(outputDir: string, order: seq<int>, i: nat, links: map<int, set<string>>, fetch: string -> Response)
    requires i < |order|
    ensures AllPaths(outputDir, order[..i + 1], links, fetch) ==
      AllPaths(outputDir, order[..i], links, fetch) + SeasonPaths(outputDir, order[i], LinksOf(links, order[i]), fetch)
  {
    assert order[..i + 1][..i] == order[..i];
  }

  lemma UnionStep(keys: set<string>, initial: set<string>, before: set<string>, added: set<string>, after: set<string>)
    requires keys == initial + before && after == before + added
    ensures keys + added == initial + after
  {
  }

  /** `p` holds the export of a link of one of the listed seasons. */
  ghost predicate HoldsSomeExport(files: map<string, seq<Byte>>, p: string, outputDir: string, order: seq<int>,
                                  links: map<int, set<string>>, fetch: string -> Response) {
    exists y :: y in order && HoldsSeasonExport(files, p, outputDir, y, LinksOf(links, y), fetch)
  }

  /** One more season of the loop, for the files it does not write: what was untouched
      before the season and is not written by it stays untouched. */
  lemma UntouchedStep(initial: map<string, seq<Byte>>, before: map<string, seq<Byte>>, after: map<string, seq<Byte>>,
                      prevPaths: set<string>, season: set<string>, nextPaths: set<string>)
    requires nextPaths == prevPaths + season
    requires Untouched(initial, before, prevPaths) && Untouched(before, after, season)
    ensures Untouched(initial, after, nextPaths)
  {
  }

  /** One more season of the loop, for the files written so far: a path of the new season
      holds that season's export, and any other path written so far keeps the export it
      held. */
  lemma HoldsStep(before: map<string, seq<Byte>>, after: map<string, seq<Byte>>, outputDir: string,
                  prev: seq<int>, y: int, next: seq<int>, links: map<int, set<string>>, fetch: string -> Response,
                  prevPaths: set<string>, season: set<string>, nextPaths: set<string>)
    requires y in next && (forall x :: x in prev ==> x in next) && nextPaths == prevPaths + season
    requires forall p :: p in prevPaths ==> HoldsSomeExport(before, p, outputDir, prev, links, fetch)
    requires Untouched(before, after, season)
    requires forall p :: p in season ==> HoldsSeasonExport(after, p, outputDir, y, LinksOf(links, y), fetch)
    ensures forall p :: p in nextPaths ==> HoldsSomeExport(after, p, outputDir, next, links, fetch)
  {
    forall p | p in nextPaths ensures HoldsSomeExport(after, p, outputDir, next, links, fetch) {
      if p in season {
        assert y in next;
      } else {
        var x :| x in prev && HoldsSeasonExport(before, p, outputDir, x, LinksOf(links, x), fetch);
        HoldsSeasonExportKept(before, after, p, outputDir, x, LinksOf(links, x), fetch);
        assert x in next;
      }
    }
  }

  /** The files after the seasons of `order` have run, starting from `initial`: exactly
      their paths are added, no other file changes, and each of their paths holds the
      export of a link of one of them. */
  ghost predicate SeasonsWrote(initial: map<string, seq<Byte>>, files: map<string, seq<Byte>>, outputDir: string,
                               order: seq<int>, links: map<int, set<string>>, fetch: string -> Response) {
    files.Keys == initial.Keys + AllPaths(outputDir, order, links, fetch) &&
    Untouched(initial, files, AllPaths(outputDir, order, links, fetch)) &&
    forall p :: p in AllPaths(outputDir, order, links, fetch) ==> HoldsSomeExport(files, p, outputDir, order, links, fetch)
  }

  lemma SeasonsGrow(order: seq<int>, i: nat)
    requires i < |order|
    ensures order[i] in order[..i + 1] && forall x :: x in order[..i] ==> x in order[..i + 1]
  {
    assert order[..i + 1] == order[..i] + [order[i]];
  }

  /** One more season of the loop keeps `SeasonsWrote`. */
  lemma SeasonsWroteStep(initial: map<string, seq<Byte>>, before: map<string, seq<Byte>>, after: map<string, seq<Byte>>,
                         outputDir: string, order: seq<int>, i: nat, links: map<int, set<string>>, fetch: string -> Response)
    requires i < |order|
    requires SeasonsWrote(initial, before, outputDir, order[..i], links, fetch)
    requires var season := SeasonPaths(outputDir, order[i], LinksOf(links, order[i]), fetch);
      after.Keys == before.Keys + season && Untouched(before, after, season) &&
      forall p :: p in season ==> HoldsSeasonExport(after, p, outputDir, order[i], LinksOf(links, order[i]), fetch)
    ensures SeasonsWrote(initial, after, outputDir, order[..i + 1], links, fetch)
  {
    var y := order[i];
    var season := SeasonPaths(outputDir, y, LinksOf(links, y), fetch);
    var prevPaths, nextPaths := AllPaths(outputDir, order[..i], links, fetch), AllPaths(outputDir, order[..i + 1], links, fetch);
    AllPathsStep(outputDir, order, i, links, fetch);
    UnionStep(before.Keys, initial.Keys, prevPaths, season, nextPaths);
    UntouchedStep(initial, before, after, prevPaths, season, nextPaths);
    SeasonsGrow(order, i);
    HoldsStep(before, after, outputDir, order[..i], y, order[..i + 1], links, fetch, prevPaths, season, nextPaths);
  }

  /** The counters of a list of seasons: the number of each one's links exported with
      status 200. */
  function Counts(links: map<int, set<string>>, order: seq<int>, fetch: string -> Response): (r: seq<nat>)
    ensures |r| == |order|
    ensures forall i :: 0 <= i < |order| ==> r[i] == |OkLinks(LinksOf(links, order[i]), fetch)|
    decreases |order|
  {
    if |order| == 0 then []
    else Counts(links, order[..|order| - 1], fetch) + [|OkLinks(LinksOf(links, order[|order| - 1]), fetch)|]
  }

  lemma CountsStep(links: map<int, set<string>>, order: seq<int>, i: nat, fetch: string -> Response)
    requires i < |order|
    ensures Counts(links, order[..i + 1], fetch) == Counts(links, order[..i], fetch) + [|OkLinks(LinksOf(links, order[i]), fetch)|]
  {
    assert order[..i + 1][..i] == order[..i];
  }

  lemma SumStep(counts: seq<nat>, c: nat)
    ensures Sum(counts + [c]) == Sum(counts) + c
  {
    assert (counts + [c])[..|counts|] == counts;
  }

  /** The loop over the seasons of the dictionary, in its insertion order; each season's
      counter is the number of its links exported with status 200, and the total adds
      them up. */
  method RunAllSeasons(disk: Disk, outputDir: string, allWorkouts: SeasonDict, fetch: string -> Response)
    returns (seasonWorkouts: seq<nat>, totalkWorkouts: nat)
    modifies disk
    ensures seasonWorkouts == Counts(allWorkouts.links, allWorkouts.order, fetch)
    ensures totalkWorkouts == Sum(seasonWorkouts)
    ensures disk.files.Keys == old(disk.files).Keys + AllPaths(outputDir, allWorkouts.order, allWorkouts.links, fetch)
    ensures Untouched(old(disk.files), disk.files, AllPaths(outputDir, allWorkouts.order, allWorkouts.links, fetch))
    ensures forall p :: p in AllPaths(outputDir, allWorkouts.order, allWorkouts.links, fetch) ==>
      HoldsSomeExport(disk.files, p, outputDir, allWorkouts.order, allWorkouts.links, fetch)
  {
    var seasons := allWorkouts.order;
    seasonWorkouts := [];
    totalkWorkouts := 0;
    for i := 0 to |seasons|
      invariant seasonWorkouts == Counts(allWorkouts.links, seasons[..i], fetch)
      invariant totalkWorkouts == Sum(seasonWorkouts)
      invariant SeasonsWrote(old(disk.files), disk.files, outputDir, seasons[..i], allWorkouts.links, fetch)
    {
      var itemYear := seasons[i];
      var workouts := LinksOf(allWorkouts.links, itemYear);
      ghost var before := disk.files;
      var count := RunSeason(disk, outputDir, itemYear, workouts, fetch);
      SeasonsWroteStep(old(disk.files), before, disk.files, outputDir, seasons, i, allWorkouts.links, fetch);
      CountsStep(allWorkouts.links, seasons, i, fetch);
      SumStep(seasonWorkouts, count);
      totalkWorkouts := totalkWorkouts + count;
      seasonWorkouts := seasonWorkouts + [count];
    }
    assert seasons[..|seasons|] == seasons;
  }

  /** The main block of retrieveHistory.py, with `datetime.date.today().year` as
      `currentYear`. A rejected argument list ends the run with its exit status before
      anything else happens. Otherwise each season with links gets its counter of `True`
      results, the total is their sum, and the files added are those of the succeeding
      exports: each holds the body answered to one of the links that write it, and every
      other file keeps its bytes. The season pages are scanned with the expression as
      the program compiles it, `WrittenPattern`. */
  method RetrieveHistory(argv: seq<string>, currentYear: int, pages: int -> string,
                         fetch: string -> Response, disk: Disk)
    returns (exitCode: int, seasons: seq<int>, seasonWorkouts: seq<nat>, totalkWorkouts: nat)
    modifies disk
    ensures Validate(argv).Rejected? ==>
      exitCode == Validate(argv).exitCode && seasons == [] && seasonWorkouts == [] &&
      totalkWorkouts == 0 && disk.files == old(disk.files)
    ensures Validate(argv).Accepted? ==>
      var links := Accumulated(WrittenPattern, YearRange(currentYear), pages);
      exitCode == 0 && seasons == InsertionOrder(WrittenPattern, YearRange(currentYear), pages) &&
      seasonWorkouts == Counts(links, seasons, fetch) &&
      totalkWorkouts == Sum(seasonWorkouts) &&
      disk.files.Keys == old(disk.files).Keys + AllPaths(argv[3], seasons, links, fetch) &&
      Untouched(old(disk.files), disk.files, AllPaths(argv[3], seasons, links, fetch)) &&
      forall p :: p in AllPaths(argv[3], seasons, links, fetch) ==> HoldsSomeExport(disk.files, p, argv[3], seasons, links, fetch)
  {
    var settings := new Settings();
    var exit := settings.Warmup(argv);
    if exit.Some? {
      return exit.value, [], [], 0;
    }
    var rangeYears := YearRange(currentYear);
    var allWorkouts := GetAllWorkouts(WrittenPattern, rangeYears, pages);
    seasons := allWorkouts.order;
    seasonWorkouts, totalkWorkouts := RunAllSeasons(disk, settings.outputDir, allWorkouts, fetch);
    exitCode := 0;
  }

  /** Each season's counter is the number of links on that season's page whose export is
      answered with status 200. */
  lemma SeasonCounts(pat: seq<Sym>, currentYear: int, pages: int -> string, fetch: string -> Response)
    ensures var seasons := InsertionOrder(pat, YearRange(currentYear), pages);
      var counts := Counts(Accumulated(pat, YearRange(currentYear), pages), seasons, fetch);
      forall i :: 0 <= i < |seasons| ==> counts[i] == |OkLinks(LinkSet(pat, pages(seasons[i])), fetch)|
  {
    var seasons := InsertionOrder(pat, YearRange(currentYear), pages);
    var links := Accumulated(pat, YearRange(currentYear), pages);
    forall i | 0 <= i < |seasons| ensures LinksOf(links, seasons[i]) == LinkSet(pat, pages(seasons[i])) {
      assert seasons[i] in YearRange(currentYear);
    }
  }

  lemma Year2024()
    ensures IntToStr(2024) == "2024"
  {
  }

  /** The workout number in a link becomes the file name: for season 2024 and a link
      ending in `/log/456`, whatever the profile number, the file is `2024_456.fit` in the
      season's directory. */
  lemma FileNameExample(outputDir: string, profile: string)
    ensures JobPath(Job(YearPath(outputDir, 2024), IntToStr(2024), ExportUrl(HostPrefix + profile + "/log/" + "456"))) ==
      YearPath(outputDir, 2024) + "/" + "2024_456.fit"
  {
    var workout, year := "456", "2024";
    var yearPath := YearPath(outputDir, 2024);
    ExportUrlId(HostPrefix + profile, workout);
    Year2024();
    assert JobPath(Job(yearPath, IntToStr(2024), ExportUrl(HostPrefix + profile + "/log/" + workout))) ==
      WorkoutPath(yearPath, year, workout);
    FileNameConcat(yearPath, year, workout);
  }

  lemma FileNameConcat(yearPath: string, year: string, workout: string)
    requires year == "2024" && workout == "456"
    ensures WorkoutPath(yearPath, year, workout) == yearPath + "/" + "2024_456.fit"
  {
    assert year + "_" + workout + ".fit" == "2024_456.fit";
  }

  /** In general the file of a link is named by the season and the link's workout
      number, under either form of the expression. */
  lemma FileNameOfLink(pat: seq<Sym>, outputDir: string, itemYear: int, link: string) returns (workout: string)
    requires IsLink(pat, link)
    ensures AllDigits(workout) && 0 < |workout| < |link| && link[|link| - |workout|..] == workout
    ensures link[|link| - |workout| - 1] == '/'
    ensures JobPath(Job(YearPath(outputDir, itemYear), IntToStr(itemYear), ExportUrl(link))) ==
      YearPath(outputDir, itemYear) + "/" + IntToStr(itemYear) + "_" + workout + ".fit"
  {
    var host, profile;
    host, profile, workout := LinkParts(pat, link);
    assert '/' !in workout by {
      forall k | 0 <= k < |workout| ensures workout[k] != '/' {
        assert IsDigit(workout[k]);
      }
    }
    assert link == (host + profile) + "/log/" + workout;
    assert link[|link| - |workout| - 1] == ("/log/" + workout)[4];
    ExportUrlId(host + profile, workout);
  }
}
