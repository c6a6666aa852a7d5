/**
 * The command-line version (102317026.py): argument validation, the three
 * stages, and main, which runs them in the fixed directory `temp_downloads`.
 * Every stage that gives up calls `sys.exit(1)`; the SystemExit it raises
 * is not an Exception, so main's handlers, and the cleanup they run, are
 * skipped on those paths.
 */
module Cli {
  import opened Wrappers
  import opened Text
  import opened PyInt
  import opened Audio
  import opened Files
  import opened Download
  import opened Stages
  import opened Checks

  /** Why validate_arguments exits. */
  datatype UsageError =
    | WrongArgumentCount
    | TooFewVideos
    | VideosNotInteger
    | DurationTooShort
    | DurationNotInteger

  /** The error line validate_arguments prints before `sys.exit(1)`. */
  function UsageMessage(e: UsageError): string {
    match e
    case WrongArgumentCount => "Error: Incorrect number of parameters!"
    case TooFewVideos => "Error: Number of videos must be greater than 10!"
    case VideosNotInteger => "Error: Number of videos must be a valid integer!"
    case DurationTooShort => "Error: Audio duration must be greater than 20 seconds!"
    case DurationNotInteger => "Error: Audio duration must be a valid integer!"
  }

  /** The directory the CLI downloads into. */
  const DownloadsDir: string := "temp_downloads"

  /** What validate_arguments does: exit with an error, or return the four settings. */
  datatype Validated =
    | Invalid(error: UsageError)
    | Valid(singer: string, numVideos: int, duration: nat, output: string)

  /** The output name, with `.mp3` appended when it does not already end in it. */
  function NormalizeOutput(name: string): (r: string)
    ensures EndsWith(r, ".mp3")
    ensures r == name <==> EndsWith(name, ".mp3")
    ensures r != name ==> r == name + ".mp3"
  {
    if EndsWith(name, ".mp3") then name
    else
      var r := name + ".mp3";
      assert r[|r| - 4..] == ".mp3";
      r
  }

  /** Normalising a normalised name changes nothing. */
  lemma NormalizeOutputIdempotent(name: string)
    ensures NormalizeOutput(NormalizeOutput(name)) == NormalizeOutput(name)
  {
  }

  /** validate_arguments on `sys.argv` (the program name first). */
  function ValidateArguments(argv: seq<string>): Validated {
    if |argv| != 5 then Invalid(WrongArgumentCount)
    else DecideArguments(argv[1], ParseInt(argv[2]), ParseInt(argv[3]), argv[4])
  }

  /** The checks after the count, on what `int()` made of the two numbers (None where it raised). */
  function DecideArguments(singer: string, numVideos: Option<int>, duration: Option<int>, output: string): Validated {
    match numVideos
    case None => Invalid(VideosNotInteger)
    case Some(n) =>
      if n <= 10 then Invalid(TooFewVideos)
      else match duration
        case None => Invalid(DurationNotInteger)
        case Some(y) =>
          if y <= 20 then Invalid(DurationTooShort)
          else Valid(singer, n, y, NormalizeOutput(output))
  }

  /** validate_arguments' checks, in the order it makes them. */
  function ArgumentChecks(argv: seq<string>): seq<Check<UsageError>> {
    if |argv| == 5 then CountedChecks(true, ParseInt(argv[2]), ParseInt(argv[3]))
    else CountedChecks(false, None, None)
  }

  /** The checks, on whether the count is right and what `int()` made of the two numbers. */
  function CountedChecks(countOk: bool, n: Option<int>, y: Option<int>): seq<Check<UsageError>> {
    [ Check(countOk, WrongArgumentCount),
      Check(n.Some?, VideosNotInteger),
      Check(n.Some? && n.value > 10, TooFewVideos),
      Check(y.Some?, DurationNotInteger),
      Check(y.Some? && y.value > 20, DurationTooShort) ]
  }

  /**
   * validate_arguments exits with the error of the first failing check,
   * and returns only when all pass: the singer as given, the parsed
   * numbers, and the normalised output name.
   */
  lemma ValidateArgumentsReportsFirstFailure(argv: seq<string>)
    ensures var r := ValidateArguments(argv);
            match FirstFailure(ArgumentChecks(argv))
            case Some(e) => r == Invalid(e)
            case None =>
              && |argv| == 5 && ParseInt(argv[2]).Some? && ParseInt(argv[3]).Some? && ParseInt(argv[3]).value > 20
              && r == Valid(argv[1], ParseInt(argv[2]).value, ParseInt(argv[3]).value, NormalizeOutput(argv[4]))
  {
    if |argv| != 5 {
      FirstFailureAt(CountedChecks(false, None, None), 0);
    } else {
      DecideArgumentsReportsFirstFailure(argv[1], ParseInt(argv[2]), ParseInt(argv[3]), argv[4]);
    }
  }

  lemma DecideArgumentsReportsFirstFailure(singer: string, n: Option<int>, y: Option<int>, output: string)
    ensures var r := DecideArguments(singer, n, y, output);
            match FirstFailure(CountedChecks(true, n, y))
            case Some(e) => r == Invalid(e)
            case None => n.Some? && y.Some? && y.value > 20 && r == Valid(singer, n.value, y.value, NormalizeOutput(output))
  {
    var c := CountedChecks(true, n, y);
    if n.None? {
      FirstFailureAt(c, 1);
    } else if n.value <= 10 {
      FirstFailureAt(c, 2);
    } else if y.None? {
      FirstFailureAt(c, 3);
    } else if y.value <= 20 {
      FirstFailureAt(c, 4);
    }
  }

  /**
   * validate_arguments returns exactly when there are four parameters, the
   * count parses to more than 10 and the duration to more than 20 seconds;
   * the output name it returns ends in `.mp3`.
   */
  lemma ValidArguments(argv: seq<string>)
    ensures ValidateArguments(argv).Valid? <==>
              && |argv| == 5
              && ParseInt(argv[2]).Some? && ParseInt(argv[2]).value > 10
              && ParseInt(argv[3]).Some? && ParseInt(argv[3]).value > 20
    ensures ValidateArguments(argv).Valid? ==>
              && ValidateArguments(argv).numVideos > 10 && ValidateArguments(argv).duration > 20
              && EndsWith(ValidateArguments(argv).output, ".mp3")
  {
    if |argv| == 5 {
      ValidArgumentsDecided(argv[1], ParseInt(argv[2]), ParseInt(argv[3]), argv[4]);
    }
  }

  lemma ValidArgumentsDecided(singer: string, n: Option<int>, y: Option<int>, output: string)
    ensures DecideArguments(singer, n, y, output).Valid? <==>
              n.Some? && n.value > 10 && y.Some? && y.value > 20
    ensures var r := DecideArguments(singer, n, y, output);
            r.Valid? ==> r.numVideos > 10 && r.duration > 20 && EndsWith(r.output, ".mp3")
  {
  }

  /** The download raised an exception that is not the quota message: the CLI exits. */
  predicate DownloadFatal(run: DownloadRun) {
    run.raised.Some? && !IsQuota(run.raised.value)
  }

  /**
   * download_videos: recreate `temp_downloads`, run the downloader, exit on
   * an exception other than the quota message, then collect the sorted
   * `.mp3` paths, warn when there are fewer than requested, and exit when
   * there are none. `exits` is the `sys.exit(1)`.
   */
  method DownloadVideos(fs: FileSystem, numVideos: int, run: DownloadRun)
    returns (files: seq<string>, exits: bool, warned: bool)
    requires fs.Valid()
    modifies fs
    ensures fs.Valid() && fs.View() == Downloaded(old(fs.View()), DownloadsDir, run)
    ensures exits <==> DownloadFatal(run) || |SortSeq(Mp3Entries(DownloadsDir, Listing(run)))| == 0
    ensures !exits ==> files == SortSeq(Mp3Entries(DownloadsDir, Listing(run)))
    ensures warned <==> !DownloadFatal(run) && |SortSeq(Mp3Entries(DownloadsDir, Listing(run)))| < numVideos
  {
    PrepareWorkspace(fs, DownloadsDir);
    StoreDownloads(fs, DownloadsDir, run.stored);
    if run.raised.Some? && !IsQuota(run.raised.value) {
      return [], true, false;
    }
    files := CollectAudioFiles(DownloadsDir, Listing(run));
    warned := |files| < numVideos;
    exits := |files| == 0;
  }

  /** cut_audio with its final check: exit when no file was cut. */
  method CutStage(fs: FileSystem, files: seq<string>, duration: nat, unwritable: set<string>)
    returns (cutFiles: seq<string>, exits: bool)
    requires fs.Valid()
    modifies fs
    ensures fs.Valid()
    ensures CutState(cutFiles, fs.paths, fs.audio)
            == CutRun(files, CutState([], old(fs.paths), old(fs.audio)), duration, unwritable)
    ensures exits <==> |cutFiles| == 0
  {
    cutFiles := CutAudio(fs, files, duration, unwritable);
    exits := |cutFiles| == 0;
  }

  /** cleanup: remove the directory if it exists; a failing rmtree is only reported. */
  function CleanupDisk(disk: Disk, d: string, rmtreeFails: bool): (r: Disk)
    ensures d in disk.paths && !rmtreeFails ==> forall p :: p in r.paths <==> p in disk.paths && !Under(p, d)
    ensures d !in disk.paths || rmtreeFails ==> r == disk
    ensures forall p :: !Under(p, d) ==> (p in r.paths <==> p in disk.paths) && (p in r.audio <==> p in disk.audio)
    ensures forall p :: p in r.audio ==> p in disk.audio && r.audio[p] == disk.audio[p]
  {
    if d in disk.paths && !rmtreeFails then WithoutTree(disk, d) else disk
  }

  method Cleanup(fs: FileSystem, d: string, rmtreeFails: bool)
    requires fs.Valid()
    modifies fs
    ensures fs.Valid() && fs.View() == CleanupDisk(old(fs.View()), d, rmtreeFails)
  {
    if fs.Exists(d) {
      var _ := fs.RemoveTree(d, rmtreeFails);
    }
  }

  /** The stages main runs inside its `try`. */
  datatype Stage = Downloading | Cutting | Merging

  /**
   * What interrupts main from outside the stages' own logic, taken to
   * happen just before a stage starts: a KeyboardInterrupt, or an exception
   * no stage handles (such as one from `os.makedirs`).
   */
  datatype Fault = NoFault | Interrupt(at: Stage) | Crash(at: Stage)

  /** How main ends. */
  datatype MainEnd =
    | Finished                    // returns normally
    | ArgumentError(error: UsageError) // validate_arguments called sys.exit(1)
    | StageExit(at: Stage)        // a stage called sys.exit(1); no cleanup
    | Interrupted(at: Stage)      // except KeyboardInterrupt: cleanup, sys.exit(1)
    | Crashed(at: Stage)          // except Exception: cleanup, sys.exit(1)

  /** The process's exit status. */
  function ExitStatus(end: MainEnd): (status: int)
    ensures status == 0 <==> end == Finished
    ensures status == 0 || status == 1
  {
    if end == Finished then 0 else 1
  }

  /** The end the fault causes at `at`, if it strikes there. */
  function FaultAt(fault: Fault, at: Stage): (r: Option<MainEnd>)
    ensures r.None? <==> fault == NoFault || fault.at != at
    ensures r.Some? ==> (r.value.Interrupted? || r.value.Crashed?) && r.value.at == at
    ensures r == Some(Interrupted(at)) <==> fault == Interrupt(at)
    ensures r == Some(Crashed(at)) <==> fault == Crash(at)
  {
    match fault
    case NoFault => None
    case Interrupt(s) => if s == at then Some(Interrupted(at)) else None
    case Crash(s) => if s == at then Some(Crashed(at)) else None
  }

  /** main from start to end: how it ends and the disk it leaves. */
  function MainRun(disk: Disk, argv: seq<string>, run: DownloadRun, unwritable: set<string>,
                   rmtreeFails: bool, fault: Fault): (MainEnd, Disk)
  {
    match ValidateArguments(argv)
    case Invalid(m) => (ArgumentError(m), disk)
    case Valid(_, _, duration, output) =>
      Pipeline(disk, DownloadsDir, duration, output, run, DownloadFatal(run), unwritable, rmtreeFails, fault)
  }

  /**
   * The `try` block of main and its handlers, with the download directory
   * `d` (always `temp_downloads` in main): the three stages, then cleanup.
   * `fatal` says that the downloader raised something other than the quota
   * message.
   */
  function Pipeline(disk: Disk, d: string, duration: nat, output: string, run: DownloadRun, fatal: bool,
                    unwritable: set<string>, rmtreeFails: bool, fault: Fault): (MainEnd, Disk)
  {
    if FaultAt(fault, Downloading).Some? then (FaultAt(fault, Downloading).value, CleanupDisk(disk, d, rmtreeFails))
    else
      var downloaded := Downloaded(disk, d, run);
      var files := SortSeq(Mp3Entries(d, Listing(run)));
      if fatal || |files| == 0 then (StageExit(Downloading), downloaded)
      else if FaultAt(fault, Cutting).Some? then (FaultAt(fault, Cutting).value, CleanupDisk(downloaded, d, rmtreeFails))
      else
        var cut := CutRun(files, CutState([], downloaded.paths, downloaded.audio), duration, unwritable);
        var cutDisk := Disk(cut.paths, cut.audio);
        if |cut.names| == 0 then (StageExit(Cutting), cutDisk)
        else if FaultAt(fault, Merging).Some? then (FaultAt(fault, Merging).value, CleanupDisk(cutDisk, d, rmtreeFails))
        else
          var clips := DecodeAll(cut.names, cut.audio);
          if clips.None? || output in unwritable then (StageExit(Merging), cutDisk)
          else (Finished, CleanupDisk(Disk(cut.paths + {output}, cut.audio[output := Concat(clips.value)]), d, rmtreeFails))
  }

  /**
   * main. The command line, the downloader's behaviour, which paths cannot
   * be written, whether rmtree fails, and where a fault strikes are the
   * oracles.
   */
  method Run(fs: FileSystem, argv: seq<string>, run: DownloadRun, unwritable: set<string>,
             rmtreeFails: bool, fault: Fault)
    returns (end: MainEnd)
    requires fs.Valid()
    modifies fs
    ensures fs.Valid()
    ensures (end, fs.View()) == MainRun(old(fs.View()), argv, run, unwritable, rmtreeFails, fault)
  {
    var args := ValidateArguments(argv);
    if args.Invalid? {
      return ArgumentError(args.error);
    }
    if FaultAt(fault, Downloading).Some? {
      Cleanup(fs, DownloadsDir, rmtreeFails);
      return FaultAt(fault, Downloading).value;
    }
    var files, exits, _ := DownloadVideos(fs, args.numVideos, run);
    if exits {
      return StageExit(Downloading);
    }
    if FaultAt(fault, Cutting).Some? {
      Cleanup(fs, DownloadsDir, rmtreeFails);
      return FaultAt(fault, Cutting).value;
    }
    var cutFiles;
    cutFiles, exits := CutStage(fs, files, args.duration, unwritable);
    if exits {
      return StageExit(Cutting);
    }
    if FaultAt(fault, Merging).Some? {
      Cleanup(fs, DownloadsDir, rmtreeFails);
      return FaultAt(fault, Merging).value;
    }
    var merged := MergeAudio(fs, cutFiles, args.output, unwritable);
    if !merged {
      return StageExit(Merging);
    }
    Cleanup(fs, DownloadsDir, rmtreeFails);
    end := Finished;
  }

  /** Bad arguments end main with status 1 before anything touches the disk. */
  lemma MainArgumentError(disk: Disk, argv: seq<string>, run: DownloadRun, unwritable: set<string>,
                          rmtreeFails: bool, fault: Fault)
    ensures var r := MainRun(disk, argv, run, unwritable, rmtreeFails, fault);
            && (r.0.ArgumentError? <==> ValidateArguments(argv).Invalid?)
            && (r.0.ArgumentError? ==> r.1 == disk && r.0.error == ValidateArguments(argv).error)
  {
    var args := ValidateArguments(argv);
    if args.Valid? {
      PipelineNeverArgumentError(disk, DownloadsDir, args.duration, args.output, run, DownloadFatal(run), unwritable, rmtreeFails, fault);
    }
  }

  lemma PipelineNeverArgumentError(disk: Disk, d: string, duration: nat, output: string, run: DownloadRun, fatal: bool,
                                   unwritable: set<string>, rmtreeFails: bool, fault: Fault)
    ensures !Pipeline(disk, d, duration, output, run, fatal, unwritable, rmtreeFails, fault).0.ArgumentError?
  {
  }

  /** The download creates `d`, and cut_audio removes nothing. */
  lemma PipelineDirPersists(disk: Disk, d: string, duration: nat, run: DownloadRun, unwritable: set<string>)
    ensures var downloaded := Downloaded(disk, d, run);
            var files := SortSeq(Mp3Entries(d, Listing(run)));
            && d in downloaded.paths
            && d in CutRun(files, CutState([], downloaded.paths, downloaded.audio), duration, unwritable).paths
  {
    DownloadedHasDir(disk, d, run);
    var downloaded := Downloaded(disk, d, run);
    var _ := CutRunInOrder(SortSeq(Mp3Entries(d, Listing(run))), downloaded.paths, downloaded.audio, duration, unwritable);
  }

  /**
   * main removes the download directory after success and after a
   * KeyboardInterrupt or an unexpected exception, unless rmtree fails
   * (which cleanup only reports). `disk` must not hold stale paths under
   * a missing directory.
   */
  lemma PipelineCleansUpWhenHandled(disk: Disk, d: string, duration: nat, output: string, run: DownloadRun, fatal: bool,
                                    unwritable: set<string>, fault: Fault)
    requires d in disk.paths || forall p :: p in disk.paths ==> !Under(p, d)
    ensures var r := Pipeline(disk, d, duration, output, run, fatal, unwritable, false, fault);
            r.0 == Finished || r.0.Interrupted? || r.0.Crashed? ==>
              forall p :: p in r.1.paths ==> !Under(p, d)
  {
    PipelineDirPersists(disk, d, duration, run, unwritable);
  }

  /**
   * A stage that exits (a fatal download error, nothing downloaded, nothing
   * cut, or a failing merge) leaves the download directory behind: sys.exit
   * raises SystemExit, which neither of main's handlers catches.
   */
  lemma PipelineLeavesDirOnStageExit(disk: Disk, d: string, duration: nat, output: string, run: DownloadRun, fatal: bool,
                                     unwritable: set<string>, rmtreeFails: bool, fault: Fault)
    ensures var r := Pipeline(disk, d, duration, output, run, fatal, unwritable, rmtreeFails, fault);
            r.0.StageExit? ==> d in r.1.paths
  {
    PipelineDirPersists(disk, d, duration, run, unwritable);
  }

  /**
   * The quota message is tolerated: main goes on as if the downloader had
   * not raised. Any other download exception, once the arguments are valid
   * and unless a fault struck first, ends main with a stage exit.
   */
  lemma MainDownloadErrors(disk: Disk, argv: seq<string>, stored: seq<StoredFile>, message: string,
                           unwritable: set<string>, rmtreeFails: bool, fault: Fault)
    ensures IsQuota(message) ==>
              MainRun(disk, argv, DownloadRun(stored, Some(message)), unwritable, rmtreeFails, fault)
              == MainRun(disk, argv, DownloadRun(stored, None), unwritable, rmtreeFails, fault)
    ensures !IsQuota(message) && ValidateArguments(argv).Valid? && FaultAt(fault, Downloading).None? ==>
              MainRun(disk, argv, DownloadRun(stored, Some(message)), unwritable, rmtreeFails, fault).0
              == StageExit(Downloading)
  {
    var quota := DownloadRun(stored, Some(message));
    var quiet := DownloadRun(stored, None);
    var args := ValidateArguments(argv);
    if args.Valid? {
      var f := DownloadFatal(quota);
      assert MainRun(disk, argv, quota, unwritable, rmtreeFails, fault)
             == Pipeline(disk, DownloadsDir, args.duration, args.output, quota, f, unwritable, rmtreeFails, fault);
      assert MainRun(disk, argv, quiet, unwritable, rmtreeFails, fault)
             == Pipeline(disk, DownloadsDir, args.duration, args.output, quiet, false, unwritable, rmtreeFails, fault);
      if IsQuota(message) {
        assert !f;
        PipelineIgnoresRaised(disk, DownloadsDir, args.duration, args.output, stored, message, unwritable, rmtreeFails, fault);
      }
    }
  }

  /** What the downloader raised matters to the stages only through `fatal`. */
  lemma PipelineIgnoresRaised(disk: Disk, d: string, duration: nat, output: string, stored: seq<StoredFile>,
                              message: string, unwritable: set<string>, rmtreeFails: bool, fault: Fault)
    ensures Pipeline(disk, d, duration, output, DownloadRun(stored, Some(message)), false, unwritable, rmtreeFails, fault)
            == Pipeline(disk, d, duration, output, DownloadRun(stored, None), false, unwritable, rmtreeFails, fault)
  {
    assert Listing(DownloadRun(stored, Some(message))) == Listing(DownloadRun(stored, None));
  }

  /** cleanup swallows a failing rmtree: how main ends does not depend on it. */
  lemma PipelineEndIgnoresCleanupFailure(disk: Disk, d: string, duration: nat, output: string, run: DownloadRun, fatal: bool,
                                         unwritable: set<string>, fault: Fault)
    ensures Pipeline(disk, d, duration, output, run, fatal, unwritable, true, fault).0
            == Pipeline(disk, d, duration, output, run, fatal, unwritable, false, fault).0
  {
  }

  /** A fault strikes at one of the three stages, or there is none. */
  lemma NoFaultAnywhere(fault: Fault)
    ensures fault == NoFault <==>
              FaultAt(fault, Downloading).None? && FaultAt(fault, Cutting).None? && FaultAt(fault, Merging).None?
  {
  }

  /**
   * A KeyboardInterrupt ends main as interrupted, and an unhandled
   * exception as crashed, at the stage where it struck, and only then; if it
   * strikes before the download, main removes the download directory left
   * by an earlier run (unless rmtree fails) and touches nothing else.
   */
  lemma PipelineFaultEnds(disk: Disk, d: string, duration: nat, output: string, run: DownloadRun, fatal: bool,
                          unwritable: set<string>, rmtreeFails: bool, fault: Fault)
    ensures var r := Pipeline(disk, d, duration, output, run, fatal, unwritable, rmtreeFails, fault);
            && (r.0.Interrupted? ==> fault == Interrupt(r.0.at))
            && (r.0.Crashed? ==> fault == Crash(r.0.at))
            && (fault.Interrupt? && fault.at == Downloading ==> r == (Interrupted(Downloading), CleanupDisk(disk, d, rmtreeFails)))
            && (fault.Crash? && fault.at == Downloading ==> r == (Crashed(Downloading), CleanupDisk(disk, d, rmtreeFails)))
  {
    var r := Pipeline(disk, d, duration, output, run, fatal, unwritable, rmtreeFails, fault);
    if r.0.Interrupted? || r.0.Crashed? {
      var at := r.0.at;
      assert FaultAt(fault, at) == Some(r.0);
    }
  }

  /**
   * main's exit status is 0 exactly when the arguments are valid, nothing
   * interrupts it, the download raised nothing but the quota message, some
   * file decodes and has a writable cut name, and the output is writable
   * (with fresh cut names).
   */
  lemma MainExitStatus(disk: Disk, argv: seq<string>, run: DownloadRun, unwritable: set<string>,
                       rmtreeFails: bool, fault: Fault)
    requires CutNamesFresh(SortSeq(Mp3Entries(DownloadsDir, Listing(run))))
    ensures var kept := Survivors(SortSeq(Mp3Entries(DownloadsDir, Listing(run))),
                                  Downloaded(disk, DownloadsDir, run).audio, unwritable);
            ExitStatus(MainRun(disk, argv, run, unwritable, rmtreeFails, fault).0) == 0 <==>
              && ValidateArguments(argv).Valid?
              && fault == NoFault
              && !DownloadFatal(run)
              && |kept| > 0
              && ValidateArguments(argv).output !in unwritable
  {
    var args := ValidateArguments(argv);
    if args.Valid? {
      PipelineFinishes(disk, DownloadsDir, args.duration, args.output, run, DownloadFatal(run), unwritable, rmtreeFails, fault);
    }
  }

  /**
   * With fresh cut names, main finishes exactly when nothing interrupts it,
   * the download raised nothing fatal, some file decodes and has a
   * writable cut name, and the output is writable.
   */
  lemma PipelineFinishes(disk: Disk, d: string, duration: nat, output: string, run: DownloadRun, fatal: bool,
                         unwritable: set<string>, rmtreeFails: bool, fault: Fault)
    requires CutNamesFresh(SortSeq(Mp3Entries(d, Listing(run))))
    ensures var r := Pipeline(disk, d, duration, output, run, fatal, unwritable, rmtreeFails, fault);
            var kept := Survivors(SortSeq(Mp3Entries(d, Listing(run))), Downloaded(disk, d, run).audio, unwritable);
            r.0 == Finished <==> fault == NoFault && !fatal && |kept| > 0 && output !in unwritable
  {
    var after := Downloaded(disk, d, run);
    var files := SortSeq(Mp3Entries(d, Listing(run)));
    var kept := Survivors(files, after.audio, unwritable);
    var cut := CutRun(files, CutState([], after.paths, after.audio), duration, unwritable);
    var r := Pipeline(disk, d, duration, output, run, fatal, unwritable, rmtreeFails, fault);
    NoFaultAnywhere(fault);
    if FaultAt(fault, Downloading).Some? {
      assert r.0 == FaultAt(fault, Downloading).value;
    } else if fatal || |files| == 0 {
      assert r.0 == StageExit(Downloading);
      assert |files| == 0 ==> |kept| == 0;
    } else if FaultAt(fault, Cutting).Some? {
      assert r.0 == FaultAt(fault, Cutting).value;
    } else {
      CutRunClips(files, after.paths, after.audio, duration, unwritable);
      assert |cut.names| == |kept|;
      if |cut.names| == 0 {
        assert r.0 == StageExit(Cutting);
      } else if FaultAt(fault, Merging).Some? {
        assert r.0 == FaultAt(fault, Merging).value;
      } else {
        MergedMashup(files, after.paths, after.audio, duration, unwritable);
        assert DecodeAll(cut.names, cut.audio).Some?;
      }
    }
  }

  /**
   * Without an interruption or crash, and with fresh cut names, each stage
   * exits with status 1 exactly on its own failure: the download on a fatal
   * error or no `.mp3` file, the cut when no file survives, the merge when
   * the output cannot be written.
   */
  lemma PipelineStageExits(disk: Disk, d: string, duration: nat, output: string, run: DownloadRun, fatal: bool,
                           unwritable: set<string>, rmtreeFails: bool, fault: Fault)
    requires fault == NoFault
    requires CutNamesFresh(SortSeq(Mp3Entries(d, Listing(run))))
    ensures var r := Pipeline(disk, d, duration, output, run, fatal, unwritable, rmtreeFails, fault);
            var files := SortSeq(Mp3Entries(d, Listing(run)));
            var kept := Survivors(files, Downloaded(disk, d, run).audio, unwritable);
            && (r.0 == StageExit(Downloading) <==> fatal || |files| == 0)
            && (r.0 == StageExit(Cutting) <==> !fatal && |files| > 0 && |kept| == 0)
            && (r.0 == StageExit(Merging) <==> !fatal && |kept| > 0 && output in unwritable)
  {
    var files := SortSeq(Mp3Entries(d, Listing(run)));
    var kept := Survivors(files, Downloaded(disk, d, run).audio, unwritable);
    var end := Pipeline(disk, d, duration, output, run, fatal, unwritable, rmtreeFails, fault).0;
    PipelineEndWithoutFault(disk, d, duration, output, run, fatal, unwritable, rmtreeFails, fault);
    assert |files| == 0 ==> |kept| == 0;
    StageExitCases(end, fatal, |files|, |kept|, output in unwritable);
  }

  /** Without a fault, the end of main is decided by the stages alone. */
  lemma PipelineEndWithoutFault(disk: Disk, d: string, duration: nat, output: string, run: DownloadRun, fatal: bool,
                                unwritable: set<string>, rmtreeFails: bool, fault: Fault)
    requires fault == NoFault
    requires CutNamesFresh(SortSeq(Mp3Entries(d, Listing(run))))
    ensures var files := SortSeq(Mp3Entries(d, Listing(run)));
            var kept := Survivors(files, Downloaded(disk, d, run).audio, unwritable);
            Pipeline(disk, d, duration, output, run, fatal, unwritable, rmtreeFails, fault).0
            == if fatal || |files| == 0 then StageExit(Downloading)
               else if |kept| == 0 then StageExit(Cutting)
               else if output in unwritable then StageExit(Merging)
               else Finished
  {
    var after := Downloaded(disk, d, run);
    var files := SortSeq(Mp3Entries(d, Listing(run)));
    var kept := Survivors(files, after.audio, unwritable);
    NoFaultAnywhere(fault);
    if !fatal && |files| > 0 {
      var cut := CutRun(files, CutState([], after.paths, after.audio), duration, unwritable);
      CutRunClips(files, after.paths, after.audio, duration, unwritable);
      assert |cut.names| == |kept|;
      if |cut.names| > 0 {
        MergedMashup(files, after.paths, after.audio, duration, unwritable);
        assert DecodeAll(cut.names, cut.audio).Some?;
      }
    } else {
      assert |files| == 0 ==> |kept| == 0;
    }
  }

  lemma StageExitCases(end: MainEnd, fatal: bool, files: nat, kept: nat, unwritable: bool)
    requires files == 0 ==> kept == 0
    requires end == if fatal || files == 0 then StageExit(Downloading)
                    else if kept == 0 then StageExit(Cutting)
                    else if unwritable then StageExit(Merging)
                    else Finished
    ensures end == StageExit(Downloading) <==> fatal || files == 0
    ensures end == StageExit(Cutting) <==> !fatal && files > 0 && kept == 0
    ensures end == StageExit(Merging) <==> !fatal && kept > 0 && unwritable
  {
  }

  /**
   * main's `try` block writes only inside the download directory and at the
   * output: every other path, and the audio of every other file, is as it
   * was.
   */
  lemma PipelineStaysUnder(disk: Disk, d: string, duration: nat, output: string, run: DownloadRun, fatal: bool,
                           unwritable: set<string>, rmtreeFails: bool, fault: Fault)
    requires d != [] && !EndsWith(d, "/") && !Contains(d + "/", ".mp3")
    requires forall k :: 0 <= k < |run.stored| ==> !StartsWith(run.stored[k].name, "/")
    ensures SameOutside(disk, Pipeline(disk, d, duration, output, run, fatal, unwritable, rmtreeFails, fault).1, d, output)
  {
    var r := Pipeline(disk, d, duration, output, run, fatal, unwritable, rmtreeFails, fault);
    var after := Downloaded(disk, d, run);
    var files := SortSeq(Mp3Entries(d, Listing(run)));
    if FaultAt(fault, Downloading).Some? {
      CleanupStaysUnder(disk, d, rmtreeFails, output);
      return;
    }
    DownloadedStaysUnder(disk, d, run);
    assert SameOutside(disk, after, d, output);
    if fatal || |files| == 0 {
      return;
    }
    InputsUnder(d, run);
    CutRunStaysUnder(files, after.paths, after.audio, duration, unwritable, d);
    var cut := CutRun(files, CutState([], after.paths, after.audio), duration, unwritable);
    var cutDisk := Disk(cut.paths, cut.audio);
    assert SameOutside(after, cutDisk, d, output);
    SameOutsideTransitive(disk, after, cutDisk, d, output);
    if FaultAt(fault, Cutting).Some? {
      CleanupStaysUnder(after, d, rmtreeFails, output);
      SameOutsideTransitive(disk, after, r.1, d, output);
    } else if |cut.names| == 0 {
    } else if FaultAt(fault, Merging).Some? {
      CleanupStaysUnder(cutDisk, d, rmtreeFails, output);
      SameOutsideTransitive(disk, cutDisk, r.1, d, output);
    } else {
      var clips := DecodeAll(cut.names, cut.audio);
      if clips.Some? && output !in unwritable {
        var merged := Disk(cut.paths + {output}, cut.audio[output := Concat(clips.value)]);
        assert SameOutside(cutDisk, merged, d, output);
        SameOutsideTransitive(disk, cutDisk, merged, d, output);
        CleanupStaysUnder(merged, d, rmtreeFails, output);
        SameOutsideTransitive(disk, merged, r.1, d, output);
      }
    }
  }

  /** cleanup removes at most the download directory. */
  lemma CleanupStaysUnder(disk: Disk, d: string, rmtreeFails: bool, output: string)
    ensures SameOutside(disk, CleanupDisk(disk, d, rmtreeFails), d, output)
  {
  }

  /** `temp_downloads` has no trailing `/`, and its cut names stay inside it. */
  lemma DownloadsDirHoldsNoMp3()
    ensures DownloadsDir != [] && !EndsWith(DownloadsDir, "/") && !Contains(DownloadsDir + "/", ".mp3")
  {
    assert '.' !in DownloadsDir + "/";
    MissingCharNotContained(DownloadsDir + "/", ".mp3");
  }

  /**
   * main changes nothing outside `temp_downloads` but the output file:
   * bad arguments change nothing at all.
   */
  lemma MainStaysUnder(disk: Disk, argv: seq<string>, run: DownloadRun, unwritable: set<string>,
                       rmtreeFails: bool, fault: Fault)
    requires forall k :: 0 <= k < |run.stored| ==> !StartsWith(run.stored[k].name, "/")
    ensures var r := MainRun(disk, argv, run, unwritable, rmtreeFails, fault);
            ValidateArguments(argv).Invalid? ==> r.1 == disk
    ensures var r := MainRun(disk, argv, run, unwritable, rmtreeFails, fault);
            ValidateArguments(argv).Valid? ==> SameOutside(disk, r.1, DownloadsDir, ValidateArguments(argv).output)
  {
    var args := ValidateArguments(argv);
    if args.Valid? {
      DownloadsDirHoldsNoMp3();
      PipelineStaysUnder(disk, DownloadsDir, args.duration, args.output, run, DownloadFatal(run), unwritable,
                         rmtreeFails, fault);
    }
  }

  /**
   * When main finishes, with fresh cut names and the output outside the
   * download directory, the output holds the surviving files' clips in
   * sorted-name order, each trimmed to the duration.
   */
  lemma PipelineOutput(disk: Disk, d: string, duration: nat, output: string, run: DownloadRun, fatal: bool,
                       unwritable: set<string>, rmtreeFails: bool, fault: Fault)
    requires CutNamesFresh(SortSeq(Mp3Entries(d, Listing(run))))
    requires !Under(output, d)
    ensures var r := Pipeline(disk, d, duration, output, run, fatal, unwritable, rmtreeFails, fault);
            var after := Downloaded(disk, d, run);
            var kept := Survivors(SortSeq(Mp3Entries(d, Listing(run))), after.audio, unwritable);
            r.0 == Finished ==>
              && output in r.1.paths && output in r.1.audio
              && r.1.audio[output]
                 == Concat(seq(|kept|, k requires 0 <= k < |kept| => Trim(after.audio[kept[k]], duration)))
  {
    var after := Downloaded(disk, d, run);
    var files := SortSeq(Mp3Entries(d, Listing(run)));
    var kept := Survivors(files, after.audio, unwritable);
    var cut := CutRun(files, CutState([], after.paths, after.audio), duration, unwritable);
    var r := Pipeline(disk, d, duration, output, run, fatal, unwritable, rmtreeFails, fault);
    if r.0 == Finished {
      assert FaultAt(fault, Downloading).None? && !fatal && |files| > 0;
      assert FaultAt(fault, Cutting).None? && |cut.names| > 0 && FaultAt(fault, Merging).None?;
      var clips := seq(|kept|, k requires 0 <= k < |kept| => Trim(after.audio[kept[k]], duration));
      MergedMashup(files, after.paths, after.audio, duration, unwritable);
      assert DecodeAll(cut.names, cut.audio) == Some(clips);
      var merged := Disk(cut.paths + {output}, cut.audio[output := Concat(clips)]);
      assert r.1 == CleanupDisk(merged, d, rmtreeFails);
    }
  }
}
