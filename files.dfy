/**
 * The file system as the pipeline sees it, and the collection of the
 * downloaded `.mp3` files: list the download directory, keep the names
 * ending in `.mp3`, join them to the directory and sort the list in place.
 */
module Files {
  import opened Wrappers
  import opened Text
  import opened Audio

  /** `os.path.join(d, f)` for two parts. */
  function JoinPath(d: string, f: string): string {
    if StartsWith(f, "/") then f
    else if d == [] || EndsWith(d, "/") then d + f
    else d + "/" + f
  }

  /** `p` is the directory `d` itself or lies somewhere below it. */
  predicate Under(p: string, d: string) {
    p == d || StartsWith(p, d + "/")
  }

  /**
   * A snapshot of the file system: the existing paths (files and
   * directories) and what `AudioSegment.from_mp3` decodes at each path where
   * decoding succeeds.
   */
  datatype Disk = Disk(paths: set<string>, audio: map<string, Audio>)

  /** The disk after `shutil.rmtree(d)` succeeded. */
  function WithoutTree(disk: Disk, d: string): (r: Disk)
    ensures forall p :: p in r.paths <==> p in disk.paths && !Under(p, d)
    ensures forall p :: p in r.audio <==> p in disk.audio && !Under(p, d)
    ensures forall p :: p in r.audio ==> r.audio[p] == disk.audio[p]
  {
    Disk(set p | p in disk.paths && !Under(p, d), map p | p in disk.audio && !Under(p, d) :: disk.audio[p])
  }

  /**
   * `b` has the same paths as `a`, and the same decodable files with the
   * same audio, everywhere outside the directory `d` except at `output`.
   */
  ghost predicate SameOutside(a: Disk, b: Disk, d: string, output: string) {
    forall p :: !Under(p, d) && p != output ==>
      && (p in b.paths <==> p in a.paths)
      && (p in b.audio <==> p in a.audio)
      && (p in a.audio ==> b.audio[p] == a.audio[p])
  }

  lemma SameOutsideTransitive(a: Disk, b: Disk, c: Disk, d: string, output: string)
    requires SameOutside(a, b, d, output) && SameOutside(b, c, d, output)
    ensures SameOutside(a, c, d, output)
  {
  }

  /** A path below a directory below `d` is below `d`. */
  lemma UnderTransitive(p: string, e: string, d: string)
    requires Under(p, e) && Under(e, d)
    ensures Under(p, d)
  {
    if p != e && e != d {
      assert p[..|d + "/"|] == e[..|e|][..|d + "/"|];
    }
  }

  /**
   * Removing a tree removes every tree inside it: afterwards removing `d`
   * or any directory `e` below it changes nothing (in particular a second
   * rmtree of `d` would find nothing), and removing `e` first makes no
   * difference to what removing `d` leaves.
   */
  lemma WithoutTreeAbsorbs(disk: Disk, d: string, e: string)
    requires Under(e, d)
    ensures d !in WithoutTree(disk, d).paths && e !in WithoutTree(disk, d).paths
    ensures WithoutTree(WithoutTree(disk, d), e) == WithoutTree(disk, d)
    ensures WithoutTree(WithoutTree(disk, e), d) == WithoutTree(disk, d)
  {
    forall p | Under(p, e)
      ensures Under(p, d)
    {
      UnderTransitive(p, e, d);
    }
    assert WithoutTree(WithoutTree(disk, d), e).paths == WithoutTree(disk, d).paths;
    assert WithoutTree(WithoutTree(disk, d), e).audio == WithoutTree(disk, d).audio;
    assert WithoutTree(WithoutTree(disk, e), d).paths == WithoutTree(disk, d).paths;
    assert WithoutTree(WithoutTree(disk, e), d).audio == WithoutTree(disk, d).audio;
  }

  /**
   * The existing paths (files and directories) and, for each file that
   * pydub can decode, the audio `AudioSegment.from_mp3` yields. A path with
   * no entry in `audio` is a file whose decoding raises.
   */
  class FileSystem {
    var paths: set<string>
    var audio: map<string, Audio>

    ghost predicate Valid()
      reads this
    {
      audio.Keys <= paths
    }

    constructor (paths: set<string>, audio: map<string, Audio>)
      requires audio.Keys <= paths
      ensures Valid() && this.paths == paths && this.audio == audio
    {
      this.paths := paths;
      this.audio := audio;
    }

    function View(): Disk
      reads this
    {
      Disk(paths, audio)
    }

    /** `os.path.exists(p)` */
    predicate Exists(p: string)
      reads this
    {
      p in paths
    }

    /**
     * `shutil.rmtree(d)`: removes `d` and everything below it. `fails`
     * stands for an OS error, which raises and leaves everything in place.
     */
    method RemoveTree(d: string, fails: bool) returns (ok: bool)
      requires Valid()
      modifies this
      ensures Valid() && ok == !fails
      ensures View() == if ok then WithoutTree(old(View()), d) else old(View())
    {
      ok := !fails;
      if ok {
        paths := set p | p in paths && !Under(p, d);
        audio := map p | p in audio && !Under(p, d) :: audio[p];
      }
    }

    /** `os.makedirs(d)` */
    method MakeDirs(d: string)
      requires Valid()
      modifies this
      ensures Valid() && paths == old(paths) + {d} && audio == old(audio)
    {
      paths := paths + {d};
    }

    /** The downloader leaves a file at `p`, decodable or not. */
    method Store(p: string, content: Option<Audio>)
      requires Valid()
      modifies this
      ensures Valid() && paths == old(paths) + {p}
      ensures audio == if content.Some? then old(audio)[p := content.value] else old(audio) - {p}
    {
      paths := paths + {p};
      audio := if content.Some? then audio[p := content.value] else audio - {p};
    }

    /** `segment.export(p)`: raises when `p` cannot be written, else stores `a` at `p`. */
    method Export(p: string, a: Audio, unwritable: set<string>) returns (ok: bool)
      requires Valid()
      modifies this
      ensures Valid() && ok == (p !in unwritable)
      ensures ok ==> paths == old(paths) + {p} && audio == old(audio)[p := a]
      ensures !ok ==> paths == old(paths) && audio == old(audio)
    {
      ok := p !in unwritable;
      if ok {
        paths := paths + {p};
        audio := audio[p := a];
      }
    }
  }

  /** `[os.path.join(d, f) for f in names if f.endswith('.mp3')]` */
  function Mp3Entries(d: string, names: seq<string>): seq<string>
    decreases |names|
  {
    if |names| == 0 then []
    else
      var last := names[|names| - 1];
      Mp3Entries(d, names[..|names| - 1]) + (if EndsWith(last, ".mp3") then [JoinPath(d, last)] else [])
  }

  lemma JoinEndsWith(d: string, f: string, suffix: string)
    requires EndsWith(f, suffix)
    ensures EndsWith(JoinPath(d, f), suffix)
  {
    var p := JoinPath(d, f);
    assert p[|p| - |f|..] == f;
    assert p[|p| - |suffix|..] == f[|f| - |suffix|..];
  }

  /** Entry `i` of the listing is an `.mp3` name that joins to `p`. */
  ghost predicate IsMp3Source(d: string, names: seq<string>, i: int, p: string) {
    0 <= i < |names| && EndsWith(names[i], ".mp3") && p == JoinPath(d, names[i])
  }

  /** The collected entries are exactly the `.mp3` names of the listing, joined to the directory. */
  lemma {:induction false} Mp3EntriesMember(d: string, names: seq<string>, p: string)
    ensures p in Mp3Entries(d, names) <==> exists i :: IsMp3Source(d, names, i, p)
    decreases |names|
  {
    if |names| > 0 {
      var n := |names| - 1;
      var pre := names[..n];
      Mp3EntriesMember(d, pre, p);
      if p in Mp3Entries(d, pre) {
        var i :| IsMp3Source(d, pre, i, p);
        assert IsMp3Source(d, names, i, p);
      } else if p in Mp3Entries(d, names) {
        assert IsMp3Source(d, names, n, p);
      }
      if exists i :: IsMp3Source(d, names, i, p) {
        var i :| IsMp3Source(d, names, i, p);
        if i < n {
          assert IsMp3Source(d, pre, i, p);
        }
      }
    }
  }

  /** Every collected entry ends in `.mp3`. */
  lemma Mp3EntriesEndWithMp3(d: string, names: seq<string>, p: string)
    requires p in Mp3Entries(d, names)
    ensures EndsWith(p, ".mp3")
  {
    Mp3EntriesMember(d, names, p);
    var i :| IsMp3Source(d, names, i, p);
    JoinEndsWith(d, names[i], ".mp3");
  }

  /** The first `n` elements are in order. */
  ghost predicate SortedPrefix(s: seq<string>, n: int) {
    forall k, l :: 0 <= k < l < n && l < |s| ==> LexLe(s[k], s[l])
  }

  /** The first `i + 1` elements are in order, leaving out position `j`. */
  ghost predicate SortedExcept(s: seq<string>, i: int, j: int) {
    forall k, l :: 0 <= k < l <= i && l < |s| && k != j && l != j ==> LexLe(s[k], s[l])
  }

  /** The element at `j` is below every later element up to `i`. */
  ghost predicate LeastFrom(s: seq<string>, i: int, j: int) {
    0 <= j < |s| && forall l :: j < l <= i && l < |s| ==> LexLe(s[j], s[l])
  }

  /** Swapping the element at `j` one place down keeps the inner loop's invariant. */
  lemma SwapDown(s: seq<string>, i: int, j: int)
    requires 0 < j <= i < |s|
    requires SortedExcept(s, i, j) && LeastFrom(s, i, j) && !LexLe(s[j - 1], s[j])
    ensures var t := s[j - 1 := s[j]][j := s[j - 1]];
            SortedExcept(t, i, j - 1) && LeastFrom(t, i, j - 1)
  {
    var t := s[j - 1 := s[j]][j := s[j - 1]];
    LexLeTotal(s[j - 1], s[j]);
    forall l | j - 1 < l <= i
      ensures LexLe(t[j - 1], t[l])
    {
      if l > j {
        assert t[l] == s[l];
      }
    }
    forall k, l | 0 <= k < l <= i && k != j - 1 && l != j - 1
      ensures LexLe(t[k], t[l])
    {
      if l == j {
        assert t[k] == s[k] && t[l] == s[j - 1];
      } else if k == j {
        assert t[k] == s[j - 1] && t[l] == s[l];
      } else {
        assert t[k] == s[k] && t[l] == s[l];
      }
    }
  }

  /** Once the element at `j` rests above its predecessor, the first `i + 1` elements are in order. */
  lemma InsertionDone(s: seq<string>, i: int, j: int)
    requires 0 <= j <= i < |s|
    requires SortedExcept(s, i, j) && LeastFrom(s, i, j) && (j == 0 || LexLe(s[j - 1], s[j]))
    ensures SortedPrefix(s, i + 1)
  {
    forall k, l | 0 <= k < l <= i
      ensures LexLe(s[k], s[l])
    {
      if l == j && k < j - 1 {
        LexLeTransitive(s[k], s[j - 1], s[j]);
      }
    }
  }

  /** `audio_files.sort()`: sorts the list in place, here by insertion. */
  method SortInPlace(a: array<string>)
    modifies a
    ensures Sorted(a[..])
    ensures multiset(a[..]) == old(multiset(a[..]))
    ensures a[..] == SortSeq(old(a[..]))
  {
    var i := 0;
    while i < a.Length
      invariant 0 <= i <= a.Length
      invariant SortedPrefix(a[..], i)
      invariant multiset(a[..]) == old(multiset(a[..]))
    {
      var j := i;
      while j > 0 && !LexLe(a[j - 1], a[j])
        invariant 0 <= j <= i < a.Length
        invariant SortedExcept(a[..], i, j) && LeastFrom(a[..], i, j)
        invariant multiset(a[..]) == old(multiset(a[..]))
      {
        ghost var s := a[..];
        a[j - 1], a[j] := a[j], a[j - 1];
        assert a[..] == s[j - 1 := s[j]][j := s[j - 1]];
        SwapDown(s, i, j);
        j := j - 1;
      }
      InsertionDone(a[..], i, j);
      i := i + 1;
    }
    assert Sorted(a[..]);
    SortedIsSortSeq(old(a[..]), a[..]);
  }

  /**
   * The file collection of download_videos: the `.mp3` entries of the
   * listing, joined to the directory, in sorted order.
   */
  method CollectAudioFiles(d: string, names: seq<string>) returns (files: seq<string>)
    ensures files == SortSeq(Mp3Entries(d, names))
    ensures Sorted(files) && multiset(files) == multiset(Mp3Entries(d, names))
  {
    var found: seq<string> := [];
    for i := 0 to |names|
      invariant found == Mp3Entries(d, names[..i])
    {
      assert names[..i + 1][..i] == names[..i];
      if EndsWith(names[i], ".mp3") {
        found := found + [JoinPath(d, names[i])];
      }
    }
    assert names[..|names|] == names;
    var a := new string[|found|](k requires 0 <= k < |found| => found[k]);
    assert a[..] == found;
    SortInPlace(a);
    files := a[..];
  }

  /** No entry is collected exactly when no name of the listing ends in `.mp3`. */
  lemma {:induction false} Mp3EntriesEmpty(d: string, names: seq<string>)
    ensures |Mp3Entries(d, names)| == 0 <==> forall i :: 0 <= i < |names| ==> !EndsWith(names[i], ".mp3")
    decreases |names|
  {
    if |names| > 0 {
      var n := |names| - 1;
      Mp3EntriesEmpty(d, names[..n]);
      assert forall i :: 0 <= i < n ==> names[..n][i] == names[i];
    }
  }

  /**
   * The list download_videos returns: sorted, and holding exactly the
   * listing's `.mp3` entries joined to the directory, each ending in
   * `.mp3`; it is empty exactly when no entry ends in `.mp3`.
   */
  lemma CollectedFiles(d: string, names: seq<string>)
    ensures var files := SortSeq(Mp3Entries(d, names));
            && Sorted(files)
            && (forall p :: p in files <==> exists i :: IsMp3Source(d, names, i, p))
            && (forall p :: p in files ==> EndsWith(p, ".mp3"))
            && (|files| == 0 <==> forall i :: 0 <= i < |names| ==> !EndsWith(names[i], ".mp3"))
  {
    var found := Mp3Entries(d, names);
    var files := SortSeq(found);
    SortSeqSorted(found);
    forall p
      ensures p in files <==> exists i :: IsMp3Source(d, names, i, p)
      ensures p in files ==> EndsWith(p, ".mp3")
    {
      assert p in files <==> p in multiset(files);
      assert p in found <==> p in multiset(found);
      Mp3EntriesMember(d, names, p);
      if p in found {
        Mp3EntriesEndWithMp3(d, names, p);
      }
    }
    assert |files| == |multiset(files)| == |multiset(found)| == |found|;
    Mp3EntriesEmpty(d, names);
  }
}
