/** `downloadWorkout`: the export request's status decides whether the body is saved,
    under a file name built from the season and the workout number in the URL. */
module Download {
  import opened Wrappers
  import opened PyStr

  type Byte = bv8

  /** What the export request returns: the HTTP status and the body. */
  datatype Response = Response(status: int, content: seq<Byte>)

  /** The result of one call: `True`/`False`, or the `IndexError` that
      `split("/")[-3]` raises on a URL with fewer than two slashes. */
  datatype Outcome = Done(ok: bool) | IndexFault

  /** `oneLink.split("/")[-3]`: the third piece from the end. */
  function WorkoutId(oneLink: string): (r: Option<string>)
    ensures r.Some? <==> Occurrences('/', oneLink) >= 2
    ensures r.Some? ==> '/' !in r.value
  {
    var segments := Split(oneLink);
    if |segments| < 3 then None else Some(segments[|segments| - 3])
  }

  /** `"{0}/{1}_{2}.fit".format(oneOutputDir, str(oneYear), workoutId)`. */
  function WorkoutPath(oneOutputDir: string, oneYear: string, workoutId: string): string {
    oneOutputDir + "/" + oneYear + "_" + workoutId + ".fit"
  }

  /** The output tree, as a map from file path to content. */
  class Disk {
    var files: map<string, seq<Byte>>
  }

  /** What one call reports for a response. */
  function Verdict(oneLink: string, dataFit: Response): Outcome {
    if dataFit.status != 200 then Done(false)
    else if WorkoutId(oneLink).None? then IndexFault
    else Done(true)
  }

  /** The files after one call. */
  function AfterDownload(files: map<string, seq<Byte>>, oneOutputDir: string, oneYear: string,
                         oneLink: string, dataFit: Response): map<string, seq<Byte>>
  {
    if dataFit.status == 200 && WorkoutId(oneLink).Some? then
      files[WorkoutPath(oneOutputDir, oneYear, WorkoutId(oneLink).value) := dataFit.content]
    else files
  }

  /** A call reports `True` exactly when it writes, and then it writes the whole body to
      the derived path and nothing else; a status other than 200 reports `False` and
      leaves every file as it was. */
  lemma DownloadEffect(files: map<string, seq<Byte>>, oneOutputDir: string, oneYear: string,
                       oneLink: string, dataFit: Response)
    ensures dataFit.status != 200 ==>
      Verdict(oneLink, dataFit) == Done(false) && AfterDownload(files, oneOutputDir, oneYear, oneLink, dataFit) == files
    ensures Verdict(oneLink, dataFit) == Done(true) <==> dataFit.status == 200 && Occurrences('/', oneLink) >= 2
    ensures Verdict(oneLink, dataFit) == IndexFault <==> dataFit.status == 200 && Occurrences('/', oneLink) < 2
    ensures Verdict(oneLink, dataFit) == Done(true) ==>
      var path := WorkoutPath(oneOutputDir, oneYear, WorkoutId(oneLink).value);
      var after := AfterDownload(files, oneOutputDir, oneYear, oneLink, dataFit);
      after.Keys == files.Keys + {path} && after[path] == dataFit.content &&
      forall p :: p in files && p != path ==> after[p] == files[p]
    ensures Verdict(oneLink, dataFit) != Done(true) ==> AfterDownload(files, oneOutputDir, oneYear, oneLink, dataFit) == files
  {
  }

  /** `downloadWorkout(oneOutputDir, oneYear, oneLink, headers)` once the export request
      has answered with `dataFit`. */
  method DownloadWorkout(disk: Disk, oneOutputDir: string, oneYear: string, oneLink: string, dataFit: Response)
    returns (r: Outcome)
    modifies disk
    ensures r == Verdict(oneLink, dataFit)
    ensures disk.files == AfterDownload(old(disk.files), oneOutputDir, oneYear, oneLink, dataFit)
  {
    if dataFit.status != 200 {
      return Done(false);
    }
    var segments := Split(oneLink);
    if |segments| < 3 {
      return IndexFault;
    }
    var workoutId := segments[|segments| - 3];
    var workoutPath := WorkoutPath(oneOutputDir, oneYear, workoutId);
    disk.files := disk.files[workoutPath := dataFit.content];
    r := Done(true);
  }

  /** The link with the export suffix: `"{0}/export/fit".format(oneWorkout)`. */
  function ExportUrl(link: string): string {
    link + "/export/fit"
  }

  /** Every export URL has a workout number: the suffix alone brings two slashes. */
  lemma ExportUrlHasId(link: string)
    ensures WorkoutId(ExportUrl(link)).Some?
  {
    ExportSplit(link);
  }

  lemma ExportSplit(link: string)
    ensures Split(ExportUrl(link)) == Split(link) + ["export", "fit"]
  {
    var exportPart, fitPart := "export", "fit";
    assert ExportUrl(link) == link + "/" + exportPart + "/" + fitPart;
    SplitTwoMore(link, exportPart, fitPart);
  }

  /** For a link ending in `/log/<workout>`, the third piece from the end of its export
      URL is `<workout>`. */
  lemma ExportUrlId(front: string, workout: string)
    requires '/' !in workout
    ensures WorkoutId(ExportUrl(front + "/log/" + workout)) == Some(workout)
  {
    var link := front + "/log/" + workout;
    ExportSplit(link);
    assert link == (front + "/log") + "/" + workout;
    SplitAround(front + "/log", workout);
    SplitWithoutSlash(workout);
  }
}
