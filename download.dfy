/**
 * The download step that both front ends share: recreate the download
 * directory, let the downloader leave its files there, and collect the
 * `.mp3` ones. The downloader itself is an oracle: a DownloadRun says which
 * files it left and whether it raised, and with what message.
 */
module Download {
  import opened Wrappers
  import opened Text
  import opened Audio
  import opened Files

  /** A file the downloader left in the directory; `content` is None when it does not decode. */
  datatype StoredFile = StoredFile(name: string, content: Option<Audio>)

  /**
   * What one `ydl.download([query])` call did. The directory is fresh, so
   * `os.listdir` afterwards lists exactly the stored names (in any order).
   */
  datatype DownloadRun = DownloadRun(stored: seq<StoredFile>, raised: Option<string>)

  const QuotaMessage: string := "Maximum number of downloads reached"

  /**
   * The names of `stored`, each once, in the order they were first stored.
   * A name stored twice is one file, so `os.listdir` lists it once.
   */
  function ListedNames(stored: seq<StoredFile>): (names: seq<string>)
    ensures forall n :: n in names <==> exists k :: 0 <= k < |stored| && stored[k].name == n
    ensures forall i, j :: 0 <= i < j < |names| ==> names[i] != names[j]
    decreases |stored|
  {
    if |stored| == 0 then []
    else
      var pre := stored[..|stored| - 1];
      var rest := ListedNames(pre);
      var n := stored[|stored| - 1].name;
      assert forall k :: 0 <= k < |pre| ==> pre[k] == stored[k];
      if n in rest then rest else rest + [n]
  }

  /** The directory listing after the run (in some order: the caller sorts it). */
  function Listing(run: DownloadRun): seq<string> {
    ListedNames(run.stored)
  }

  /** `"Maximum number of downloads reached" in str(e)`: the one exception the CLI tolerates. */
  predicate IsQuota(message: string) {
    Contains(message, QuotaMessage)
  }

  /** The disk after `if os.path.exists(d): shutil.rmtree(d)` and `os.makedirs(d)`. */
  function Prepared(disk: Disk, d: string): (r: Disk)
    ensures d in r.paths
    ensures forall p :: !Under(p, d) ==> (p in r.paths <==> p in disk.paths)
    ensures forall p :: !Under(p, d) ==>
              (p in r.audio <==> p in disk.audio) && (p in disk.audio ==> r.audio[p] == disk.audio[p])
    ensures (d in disk.paths || forall p :: p in disk.paths ==> !Under(p, d)) ==>
              forall p :: p in r.paths && Under(p, d) ==> p == d
  {
    var cleared := if d in disk.paths then WithoutTree(disk, d) else disk;
    Disk(cleared.paths + {d}, cleared.audio)
  }

  /** The disk after the downloader stored `stored` under `d`, one file after the other. */
  function Stored(disk: Disk, d: string, stored: seq<StoredFile>): Disk
    decreases |stored|
  {
    if |stored| == 0 then disk
    else
      var before := Stored(disk, d, stored[..|stored| - 1]);
      var f := stored[|stored| - 1];
      var p := JoinPath(d, f.name);
      Disk(before.paths + {p},
           if f.content.Some? then before.audio[p := f.content.value] else before.audio - {p})
  }

  /** The disk once download_videos has prepared `d` and the downloader has run. */
  function Downloaded(disk: Disk, d: string, run: DownloadRun): Disk {
    Stored(Prepared(disk, d), d, run.stored)
  }

  /** Storing files removes no path, so the download directory survives the download. */
  lemma {:induction false} StoredKeepsPaths(disk: Disk, d: string, stored: seq<StoredFile>)
    ensures disk.paths <= Stored(disk, d, stored).paths
    decreases |stored|
  {
    if |stored| > 0 {
      StoredKeepsPaths(disk, d, stored[..|stored| - 1]);
    }
  }

  lemma DownloadedHasDir(disk: Disk, d: string, run: DownloadRun)
    ensures d in Downloaded(disk, d, run).paths
  {
    StoredKeepsPaths(Prepared(disk, d), d, run.stored);
  }

  /** Storing adds exactly the stored names, joined to the directory. */
  lemma {:induction false} StoredPaths(disk: Disk, d: string, stored: seq<StoredFile>)
    ensures forall p :: p in Stored(disk, d, stored).paths <==>
              p in disk.paths || exists k :: 0 <= k < |stored| && p == JoinPath(d, stored[k].name)
    decreases |stored|
  {
    if |stored| > 0 {
      var pre := stored[..|stored| - 1];
      StoredPaths(disk, d, pre);
      assert forall k :: 0 <= k < |pre| ==> pre[k] == stored[k];
    }
  }

  /** A name that does not start with `/` joins to a path strictly below a directory not ending in `/`. */
  lemma JoinUnder(d: string, n: string)
    requires d != [] && !EndsWith(d, "/") && !StartsWith(n, "/")
    ensures Under(JoinPath(d, n), d) && JoinPath(d, n) != d
  {
    assert JoinPath(d, n) == (d + "/") + n;
    assert |JoinPath(d, n)| > |d|;
  }

  /** The downloader writes only inside `d`, given names that do not start with `/`. */
  lemma {:induction false} StoredStaysUnder(disk: Disk, d: string, stored: seq<StoredFile>)
    requires d != [] && !EndsWith(d, "/")
    requires forall k :: 0 <= k < |stored| ==> !StartsWith(stored[k].name, "/")
    ensures var r := Stored(disk, d, stored);
            forall p :: !Under(p, d) ==>
              && (p in r.paths <==> p in disk.paths)
              && (p in r.audio <==> p in disk.audio)
              && (p in disk.audio ==> r.audio[p] == disk.audio[p])
    decreases |stored|
  {
    if |stored| > 0 {
      var pre := stored[..|stored| - 1];
      assert forall k :: 0 <= k < |pre| ==> pre[k] == stored[k];
      StoredStaysUnder(disk, d, pre);
      JoinUnder(d, stored[|stored| - 1].name);
    }
  }

  /**
   * download_videos, from `os.makedirs` to the downloader's last file,
   * changes nothing outside `d`.
   */
  lemma DownloadedStaysUnder(disk: Disk, d: string, run: DownloadRun)
    requires d != [] && !EndsWith(d, "/")
    requires forall k :: 0 <= k < |run.stored| ==> !StartsWith(run.stored[k].name, "/")
    ensures var r := Downloaded(disk, d, run);
            forall p :: !Under(p, d) ==>
              && (p in r.paths <==> p in disk.paths)
              && (p in r.audio <==> p in disk.audio)
              && (p in disk.audio ==> r.audio[p] == disk.audio[p])
  {
    StoredStaysUnder(Prepared(disk, d), d, run.stored);
  }

  /** Every path download_videos returns lies inside `d`. */
  lemma InputsUnder(d: string, run: DownloadRun)
    requires d != [] && !EndsWith(d, "/")
    requires forall k :: 0 <= k < |run.stored| ==> !StartsWith(run.stored[k].name, "/")
    ensures forall f :: f in SortSeq(Mp3Entries(d, Listing(run))) ==> StartsWith(f, d + "/")
  {
    var names := Listing(run);
    CollectedFiles(d, names);
    forall f | f in SortSeq(Mp3Entries(d, names))
      ensures StartsWith(f, d + "/")
    {
      var i :| IsMp3Source(d, names, i, f);
      assert names[i] in names;
      var k :| 0 <= k < |run.stored| && run.stored[k].name == names[i];
      JoinUnder(d, names[i]);
    }
  }

  /**
   * After the directory was recreated and the downloader ran, what lies
   * strictly below `d` is exactly the listed names joined to `d`: the
   * listing is what `os.listdir(d)` reads from the disk. A stale path below
   * a missing `d` is ruled out, as a real file system does.
   */
  lemma DownloadedListing(disk: Disk, d: string, run: DownloadRun)
    requires d in disk.paths || forall p :: p in disk.paths ==> !Under(p, d)
    requires d != [] && !EndsWith(d, "/")
    requires forall k :: 0 <= k < |run.stored| ==> !StartsWith(run.stored[k].name, "/")
    ensures forall p :: p in Downloaded(disk, d, run).paths && Under(p, d) && p != d <==>
              exists n :: n in Listing(run) && p == JoinPath(d, n)
  {
    var prepared := Prepared(disk, d);
    StoredPaths(prepared, d, run.stored);
    forall p | exists n :: n in Listing(run) && p == JoinPath(d, n)
      ensures p in Downloaded(disk, d, run).paths && Under(p, d) && p != d
    {
      var n :| n in Listing(run) && p == JoinPath(d, n);
      var k :| 0 <= k < |run.stored| && run.stored[k].name == n;
      JoinUnder(d, n);
    }
    forall p | p in Downloaded(disk, d, run).paths && Under(p, d) && p != d
      ensures exists n :: n in Listing(run) && p == JoinPath(d, n)
    {
      if p !in prepared.paths {
        var k :| 0 <= k < |run.stored| && p == JoinPath(d, run.stored[k].name);
        assert run.stored[k].name in Listing(run);
      }
    }
  }

  /** `if os.path.exists(d): shutil.rmtree(d)` then `os.makedirs(d)`. */
  method PrepareWorkspace(fs: FileSystem, d: string)
    requires fs.Valid()
    modifies fs
    ensures fs.Valid()
    ensures fs.View() == Prepared(old(fs.View()), d)
  {
    if fs.Exists(d) {
      var _ := fs.RemoveTree(d, false);
    }
    fs.MakeDirs(d);
  }

  /** The downloader writes its files into `d`. */
  method StoreDownloads(fs: FileSystem, d: string, stored: seq<StoredFile>)
    requires fs.Valid()
    modifies fs
    ensures fs.Valid() && fs.View() == Stored(old(fs.View()), d, stored)
  {
    ghost var start := fs.View();
    for i := 0 to |stored|
      invariant fs.Valid() && fs.View() == Stored(start, d, stored[..i])
    {
      assert stored[..i + 1][..i] == stored[..i];
      fs.Store(JoinPath(d, stored[i].name), stored[i].content);
    }
    assert stored[..|stored|] == stored;
  }
}
