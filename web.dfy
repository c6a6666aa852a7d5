/**
 * The web service (app.py): the validation chain of the POST
 * /create-mashup endpoint, and create_mashup, the pipeline its background
 * worker runs in a per-task directory `temp_<task_id>`.
 */
module Web {
  import opened Wrappers
  import opened Text
  import opened PyInt
  import opened Email
  import opened Audio
  import opened Files
  import opened Download
  import opened Stages
  import opened Checks

  /** Why the endpoint rejects a request. */
  datatype RequestError =
    | SingerRequired
    | EmailRequired
    | InvalidEmail
    | TooFewVideos
    | VideosNotInteger
    | DurationTooShort
    | DurationNotInteger

  /** The `error` text of the JSON reply. */
  function ErrorMessage(e: RequestError): string {
    match e
    case SingerRequired => "Singer name is required"
    case EmailRequired => "Email is required"
    case InvalidEmail => "Invalid email format"
    case TooFewVideos => "Number of videos must be greater than 10"
    case VideosNotInteger => "Number of videos must be a valid integer"
    case DurationTooShort => "Duration must be greater than 20 seconds"
    case DurationNotInteger => "Duration must be a valid integer"
  }

  /** `request.form.get(key, '').strip()` */
  function FormField(form: map<string, string>, key: string): string {
    Strip(if key in form then form[key] else "")
  }

  /**
   * The endpoint's answer. `Accepted` is the success reply, sent after a
   * worker thread was started on these arguments; `Rejected` carries the
   * error (its message is ErrorMessage(error)) and starts nothing.
   */
  datatype Response =
    | Rejected(error: RequestError)
    | Accepted(singer: string, numVideos: int, duration: int, email: string)

  /** The checks of create_mashup_endpoint, each returning early on failure. */
  function CreateMashupEndpoint(form: map<string, string>): Response {
    var email := FormField(form, "email");
    Decide(FormField(form, "singer_name"), email, ValidateEmail(email),
           ParseInt(FormField(form, "num_videos")), ParseInt(FormField(form, "duration")))
  }

  /**
   * The endpoint's decision on the stripped singer name and address, the
   * verdict of validate_email on the address, and what `int()` made of the
   * two numeric fields (None where it raised ValueError).
   */
  function Decide(singer: string, email: string, emailOk: bool, numVideos: Option<int>, duration: Option<int>): Response {
    if |singer| == 0 then Rejected(SingerRequired)
    else if |email| == 0 then Rejected(EmailRequired)
    else if !emailOk then Rejected(InvalidEmail)
    else match numVideos
      case None => Rejected(VideosNotInteger)
      case Some(n) =>
        if n <= 10 then Rejected(TooFewVideos)
        else match duration
          case None => Rejected(DurationNotInteger)
          case Some(y) =>
            if y <= 20 then Rejected(DurationTooShort)
            else Accepted(singer, n, y, email)
  }

  /** The endpoint's checks, in the order the source makes them. */
  function EndpointChecks(singer: string, email: string, emailOk: bool, n: Option<int>, y: Option<int>): seq<Check<RequestError>> {
    [ Check(|singer| > 0, SingerRequired),
      Check(|email| > 0, EmailRequired),
      Check(emailOk, InvalidEmail),
      Check(n.Some?, VideosNotInteger),
      Check(n.Some? && n.value > 10, TooFewVideos),
      Check(y.Some?, DurationNotInteger),
      Check(y.Some? && y.value > 20, DurationTooShort) ]
  }

  /**
   * The endpoint reports the first failing check and starts a worker only
   * when every check passes, with the parsed values.
   */
  lemma DecideReportsFirstFailure(singer: string, email: string, emailOk: bool, n: Option<int>, y: Option<int>)
    ensures var r := Decide(singer, email, emailOk, n, y);
            match FirstFailure(EndpointChecks(singer, email, emailOk, n, y))
            case Some(m) => r == Rejected(m)
            case None => n.Some? && y.Some? && r == Accepted(singer, n.value, y.value, email)
  {
    var c := EndpointChecks(singer, email, emailOk, n, y);
    if |singer| == 0 {
      FirstFailureAt(c, 0);
    } else if |email| == 0 {
      FirstFailureAt(c, 1);
    } else if !emailOk {
      FirstFailureAt(c, 2);
    } else if n.None? {
      FirstFailureAt(c, 3);
    } else if n.value <= 10 {
      FirstFailureAt(c, 4);
    } else if y.None? {
      FirstFailureAt(c, 5);
    } else if y.value <= 20 {
      FirstFailureAt(c, 6);
    }
  }

  /**
   * A worker is started only for a request whose fields all pass: a
   * singer name, an address matching the e-mail pattern, more than 10
   * videos and more than 20 seconds.
   */
  lemma AcceptedRequestIsValid(form: map<string, string>)
    ensures CreateMashupEndpoint(form).Accepted? ==>
              var r := CreateMashupEndpoint(form);
              && r.singer == FormField(form, "singer_name") && |r.singer| > 0
              && r.email == FormField(form, "email") && FullMatch(r.email)
              && ParseInt(FormField(form, "num_videos")) == Some(r.numVideos) && r.numVideos > 10
              && ParseInt(FormField(form, "duration")) == Some(r.duration) && r.duration > 20
  {
    AcceptedAddressMatches(FormField(form, "singer_name"), FormField(form, "email"),
                           ParseInt(FormField(form, "num_videos")), ParseInt(FormField(form, "duration")));
  }

  lemma AcceptedAddressMatches(singer: string, email: string, n: Option<int>, y: Option<int>)
    requires email == [] || !IsSpace(email[|email| - 1])
    ensures var r := Decide(singer, email, ValidateEmail(email), n, y);
            r.Accepted? ==> r.singer == singer && |singer| > 0 && r.email == email && FullMatch(email)
                            && n == Some(r.numVideos) && r.numVideos > 10
                            && y == Some(r.duration) && r.duration > 20
  {
    AcceptedByDecide(singer, email, ValidateEmail(email), n, y);
    ValidateStripped(email);
  }

  lemma AcceptedByDecide(singer: string, email: string, emailOk: bool, n: Option<int>, y: Option<int>)
    ensures var r := Decide(singer, email, emailOk, n, y);
            r.Accepted? ==> r.singer == singer && |singer| > 0 && r.email == email && emailOk
                            && n == Some(r.numVideos) && r.numVideos > 10
                            && y == Some(r.duration) && r.duration > 20
  {
  }

  /** A request with the address "not-an-email" is rejected for its format. */
  lemma NotAnEmailRejected(form: map<string, string>)
    requires |FormField(form, "singer_name")| > 0
    requires FormField(form, "email") == "not-an-email"
    ensures CreateMashupEndpoint(form) == Rejected(InvalidEmail)
  {
    var email := FormField(form, "email");
    Email.NotAnEmailRejected();
    RejectedByDecide(FormField(form, "singer_name"), email, ValidateEmail(email),
                     ParseInt(FormField(form, "num_videos")), ParseInt(FormField(form, "duration")));
  }

  lemma RejectedByDecide(singer: string, email: string, emailOk: bool, n: Option<int>, y: Option<int>)
    requires |singer| > 0 && |email| > 0 && !emailOk
    ensures Decide(singer, email, emailOk, n, y) == Rejected(InvalidEmail)
  {
  }

  /** A form without the field num_videos is rejected as not an integer. */
  lemma MissingCountRejected(form: map<string, string>)
    requires |FormField(form, "singer_name")| > 0
    requires ValidateEmail(FormField(form, "email"))
    requires "num_videos" !in form
    ensures CreateMashupEndpoint(form) == Rejected(VideosNotInteger)
  {
    assert FormField(form, "num_videos") == Strip("");
    ParseIntNeedsDigit(FormField(form, "num_videos"));
  }

  /** Why create_mashup raised. */
  datatype MashupError =
    | NoVideos      // "No videos were downloaded successfully"
    | NoClips       // "No audio files were processed successfully"
    | MergeFailed   // decoding a clip or exporting the mashup raised
    | CleanupFailed // shutil.rmtree raised

  datatype Completion = Returned | Raised(error: MashupError)

  function DownloadDir(taskId: string): string {
    "temp_" + taskId
  }

  /**
   * download_videos: recreate the directory, run the downloader, and
   * collect the sorted `.mp3` paths. Whatever the downloader raised, quota or
   * not, is only printed: nothing in the result depends on it.
   */
  method DownloadVideos(fs: FileSystem, taskId: string, run: DownloadRun)
    returns (files: seq<string>, d: string)
    requires fs.Valid()
    modifies fs
    ensures fs.Valid() && d == DownloadDir(taskId)
    ensures fs.View() == Downloaded(old(fs.View()), d, run)
    ensures files == SortSeq(Mp3Entries(d, Listing(run)))
  {
    d := DownloadDir(taskId);
    PrepareWorkspace(fs, d);
    StoreDownloads(fs, d, run.stored);
    files := CollectAudioFiles(d, Listing(run));
  }

  /**
   * The `except` branch of create_mashup: remove the directory if it exists,
   * then re-raise. A failing rmtree raises its own error instead.
   */
  function AfterError(disk: Disk, d: string, e: MashupError, rmtreeFails: bool): (Completion, Disk) {
    if d !in disk.paths then (Raised(e), disk)
    else if rmtreeFails then (Raised(CleanupFailed), disk)
    else (Raised(e), WithoutTree(disk, d))
  }

  /** The sorted `.mp3` paths download_videos returns. */
  function MashupInputs(d: string, run: DownloadRun): seq<string> {
    SortSeq(Mp3Entries(d, Listing(run)))
  }

  /** What cut_audio does to the disk left by the download. */
  function MashupCut(disk: Disk, d: string, duration: nat, run: DownloadRun, unwritable: set<string>): CutState {
    var after := Downloaded(disk, d, run);
    CutRun(MashupInputs(d, run), CutState([], after.paths, after.audio), duration, unwritable)
  }

  /** create_mashup from start to end: its completion and the disk it leaves. */
  function CreateMashupRun(disk: Disk, taskId: string, duration: nat, output: string, run: DownloadRun,
                           unwritable: set<string>, rmtreeFails: bool): (Completion, Disk)
  {
    var d := DownloadDir(taskId);
    var downloaded := Downloaded(disk, d, run);
    var files := MashupInputs(d, run);
    if |files| == 0 then AfterError(downloaded, d, NoVideos, rmtreeFails)
    else
      var cut := MashupCut(disk, d, duration, run, unwritable);
      var cutDisk := Disk(cut.paths, cut.audio);
      if |cut.names| == 0 then AfterError(cutDisk, d, NoClips, rmtreeFails)
      else
        var clips := DecodeAll(cut.names, cut.audio);
        if clips.None? || output in unwritable then AfterError(cutDisk, d, MergeFailed, rmtreeFails)
        else
          var merged := Disk(cut.paths + {output}, cut.audio[output := Concat(clips.value)]);
          if d !in merged.paths then (Returned, merged)
          else if rmtreeFails then AfterError(merged, d, CleanupFailed, rmtreeFails)
          else (Returned, WithoutTree(merged, d))
  }

  method HandleError(fs: FileSystem, d: string, e: MashupError, rmtreeFails: bool) returns (result: Completion)
    requires fs.Valid()
    modifies fs
    ensures fs.Valid()
    ensures (result, fs.View()) == AfterError(old(fs.View()), d, e, rmtreeFails)
  {
    result := Raised(e);
    if fs.Exists(d) {
      var removed := fs.RemoveTree(d, rmtreeFails);
      if !removed {
        result := Raised(CleanupFailed);
      }
    }
  }

  /**
   * create_mashup. The downloader's behaviour, which paths cannot be
   * written, and whether rmtree fails are the oracles.
   */
  method CreateMashup(fs: FileSystem, taskId: string, duration: nat, output: string, run: DownloadRun,
                      unwritable: set<string>, rmtreeFails: bool)
    returns (result: Completion)
    requires fs.Valid()
    modifies fs
    ensures fs.Valid()
    ensures (result, fs.View()) == CreateMashupRun(old(fs.View()), taskId, duration, output, run, unwritable, rmtreeFails)
  {
    var files, d := DownloadVideos(fs, taskId, run);
    if |files| == 0 {
      result := HandleError(fs, d, NoVideos, rmtreeFails);
      return;
    }
    var cutFiles := CutAudio(fs, files, duration, unwritable);
    if |cutFiles| == 0 {
      result := HandleError(fs, d, NoClips, rmtreeFails);
      return;
    }
    var merged := MergeAudio(fs, cutFiles, output, unwritable);
    if !merged {
      result := HandleError(fs, d, MergeFailed, rmtreeFails);
      return;
    }
    result := Returned;
    if fs.Exists(d) {
      var removed := fs.RemoveTree(d, rmtreeFails);
      if !removed {
        result := HandleError(fs, d, CleanupFailed, rmtreeFails);
      }
    }
  }

  /** The download creates the task directory, and cut_audio removes nothing. */
  lemma MashupDirPersists(disk: Disk, taskId: string, duration: nat, run: DownloadRun, unwritable: set<string>)
    ensures var d := DownloadDir(taskId);
            && d in Downloaded(disk, d, run).paths
            && d in MashupCut(disk, d, duration, run, unwritable).paths
  {
    var d := DownloadDir(taskId);
    DownloadedHasDir(disk, d, run);
    var after := Downloaded(disk, d, run);
    var _ := CutRunInOrder(MashupInputs(d, run), after.paths, after.audio, duration, unwritable);
  }

  /**
   * create_mashup removes `temp_<task_id>` and everything in it on every
   * path, success or error, unless rmtree itself raises, which is then the
   * error create_mashup raises.
   */
  lemma CreateMashupCleansUp(disk: Disk, taskId: string, duration: nat, output: string, run: DownloadRun,
                             unwritable: set<string>, rmtreeFails: bool)
    ensures var r := CreateMashupRun(disk, taskId, duration, output, run, unwritable, rmtreeFails);
            && (rmtreeFails ==> r.0 == Raised(CleanupFailed))
            && (!rmtreeFails ==> forall p :: p in r.1.paths ==> !Under(p, DownloadDir(taskId)))
  {
    MashupDirPersists(disk, taskId, duration, run, unwritable);
  }

  /**
   * When rmtree works, create_mashup raises "No videos were downloaded
   * successfully" exactly when the downloader left no file ending in
   * `.mp3`; whether rmtree works or not, the outcome does not depend on
   * what the downloader raised.
   */
  lemma CreateMashupNoVideos(disk: Disk, taskId: string, duration: nat, output: string, run: DownloadRun,
                             unwritable: set<string>, rmtreeFails: bool)
    ensures var r := CreateMashupRun(disk, taskId, duration, output, run, unwritable, rmtreeFails);
            !rmtreeFails ==>
              (r.0 == Raised(NoVideos) <==> forall k :: 0 <= k < |run.stored| ==> !EndsWith(run.stored[k].name, ".mp3"))
    ensures CreateMashupRun(disk, taskId, duration, output, run, unwritable, rmtreeFails)
            == CreateMashupRun(disk, taskId, duration, output, DownloadRun(run.stored, None), unwritable, rmtreeFails)
  {
    var d := DownloadDir(taskId);
    CollectedFiles(d, Listing(run));
    NoMp3Listed(run);
    NoVideosExactly(disk, taskId, duration, output, run, unwritable, rmtreeFails);
    MashupIgnoresRaised(disk, taskId, duration, output, run, unwritable, rmtreeFails);
  }

  /** No stored name ends in `.mp3` iff no listed name does. */
  lemma NoMp3Listed(run: DownloadRun)
    ensures (forall k :: 0 <= k < |run.stored| ==> !EndsWith(run.stored[k].name, ".mp3"))
            <==> (forall i :: 0 <= i < |Listing(run)| ==> !EndsWith(Listing(run)[i], ".mp3"))
  {
    var names := Listing(run);
    if exists k :: 0 <= k < |run.stored| && EndsWith(run.stored[k].name, ".mp3") {
      var k :| 0 <= k < |run.stored| && EndsWith(run.stored[k].name, ".mp3");
      assert run.stored[k].name in names;
    }
    if exists i :: 0 <= i < |names| && EndsWith(names[i], ".mp3") {
      var i :| 0 <= i < |names| && EndsWith(names[i], ".mp3");
      assert names[i] in names;
      var k :| 0 <= k < |run.stored| && run.stored[k].name == names[i];
    }
  }

  /** With a working rmtree, "No videos" is raised exactly when there are no inputs. */
  lemma NoVideosExactly(disk: Disk, taskId: string, duration: nat, output: string, run: DownloadRun,
                        unwritable: set<string>, rmtreeFails: bool)
    ensures !rmtreeFails ==>
              (CreateMashupRun(disk, taskId, duration, output, run, unwritable, rmtreeFails).0 == Raised(NoVideos)
               <==> |MashupInputs(DownloadDir(taskId), run)| == 0)
  {
  }

  /** create_mashup does not look at what the downloader raised. */
  lemma MashupIgnoresRaised(disk: Disk, taskId: string, duration: nat, output: string, run: DownloadRun,
                            unwritable: set<string>, rmtreeFails: bool)
    ensures CreateMashupRun(disk, taskId, duration, output, run, unwritable, rmtreeFails)
            == CreateMashupRun(disk, taskId, duration, output, DownloadRun(run.stored, None), unwritable, rmtreeFails)
  {
    var d := DownloadDir(taskId);
    var quiet := DownloadRun(run.stored, None);
    assert Listing(run) == Listing(quiet);
    assert Downloaded(disk, d, run) == Downloaded(disk, d, quiet);
  }

  /**
   * create_mashup writes only inside its task directory and at the output:
   * every other path, and the audio of every other file, is as it was. The
   * task directory's name must not hold `.mp3` (else the cut names of the
   * files in it would leave it) and the downloader's names must not start
   * with `/`.
   */
  lemma CreateMashupStaysUnder(disk: Disk, taskId: string, duration: nat, output: string, run: DownloadRun,
                               unwritable: set<string>, rmtreeFails: bool)
    requires !EndsWith(DownloadDir(taskId), "/") && !Contains(DownloadDir(taskId) + "/", ".mp3")
    requires forall k :: 0 <= k < |run.stored| ==> !StartsWith(run.stored[k].name, "/")
    ensures SameOutside(disk, CreateMashupRun(disk, taskId, duration, output, run, unwritable, rmtreeFails).1,
                        DownloadDir(taskId), output)
  {
    var d := DownloadDir(taskId);
    assert |d| >= 5;
    var after := Downloaded(disk, d, run);
    var files := MashupInputs(d, run);
    var r := CreateMashupRun(disk, taskId, duration, output, run, unwritable, rmtreeFails);
    DownloadedStaysUnder(disk, d, run);
    assert SameOutside(disk, after, d, output);
    if |files| == 0 {
      AfterErrorStaysUnder(after, d, NoVideos, rmtreeFails, output);
      SameOutsideTransitive(disk, after, r.1, d, output);
    } else {
      InputsUnder(d, run);
      CutRunStaysUnder(files, after.paths, after.audio, duration, unwritable, d);
      var cut := MashupCut(disk, d, duration, run, unwritable);
      var cutDisk := Disk(cut.paths, cut.audio);
      assert SameOutside(after, cutDisk, d, output);
      SameOutsideTransitive(disk, after, cutDisk, d, output);
      var clips := DecodeAll(cut.names, cut.audio);
      if |cut.names| == 0 {
        AfterErrorStaysUnder(cutDisk, d, NoClips, rmtreeFails, output);
        SameOutsideTransitive(disk, cutDisk, r.1, d, output);
      } else if clips.None? || output in unwritable {
        AfterErrorStaysUnder(cutDisk, d, MergeFailed, rmtreeFails, output);
        SameOutsideTransitive(disk, cutDisk, r.1, d, output);
      } else {
        var merged := Disk(cut.paths + {output}, cut.audio[output := Concat(clips.value)]);
        assert SameOutside(cutDisk, merged, d, output);
        SameOutsideTransitive(disk, cutDisk, merged, d, output);
        AfterErrorStaysUnder(merged, d, CleanupFailed, rmtreeFails, output);
        assert SameOutside(merged, r.1, d, output);
        SameOutsideTransitive(disk, merged, r.1, d, output);
      }
    }
  }

  /** The `except` branch removes at most the task directory. */
  lemma AfterErrorStaysUnder(disk: Disk, d: string, e: MashupError, rmtreeFails: bool, output: string)
    ensures SameOutside(disk, AfterError(disk, d, e, rmtreeFails).1, d, output)
    ensures SameOutside(disk, WithoutTree(disk, d), d, output)
  {
  }

  /**
   * When the cut names are fresh and the output lies outside the task
   * directory, create_mashup returns exactly when some downloaded file
   * decodes and has a writable cut name and the output is writable; the
   * output then holds the surviving files' clips, in sorted-name order,
   * each trimmed to the duration. Otherwise it reports which stage failed.
   */
  lemma CreateMashupResult(disk: Disk, taskId: string, duration: nat, output: string, run: DownloadRun,
                           unwritable: set<string>)
    requires CutNamesFresh(MashupInputs(DownloadDir(taskId), run))
    requires !Under(output, DownloadDir(taskId))
    ensures var d := DownloadDir(taskId);
            var r := CreateMashupRun(disk, taskId, duration, output, run, unwritable, false);
            var after := Downloaded(disk, d, run);
            var kept := Survivors(MashupInputs(d, run), after.audio, unwritable);
            && (r.0 == Returned <==> |kept| > 0 && output !in unwritable)
            && (r.0 == Raised(NoClips) <==> |MashupInputs(d, run)| > 0 && |kept| == 0)
            && (r.0 == Raised(MergeFailed) <==> |kept| > 0 && output in unwritable)
            && (r.0 == Returned ==>
                  && output in r.1.paths && output in r.1.audio
                  && r.1.audio[output]
                     == Concat(seq(|kept|, k requires 0 <= k < |kept| => Trim(after.audio[kept[k]], duration))))
  {
    var d := DownloadDir(taskId);
    var after := Downloaded(disk, d, run);
    var files := MashupInputs(d, run);
    MashupDirPersists(disk, taskId, duration, run, unwritable);
    CutRunClips(files, after.paths, after.audio, duration, unwritable);
    MergedMashup(files, after.paths, after.audio, duration, unwritable);
  }
}
