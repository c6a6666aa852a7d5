/**
 * The trim and merge stages that both front ends run: cut_audio trims every
 * collected file and exports the clip next to it, skipping files that fail;
 * merge_audio decodes the clips again and appends them in order.
 */
module Stages {
  import opened Wrappers
  import opened Text
  import opened Audio
  import opened Files

  /** `audio_file.replace('.mp3', '_cut.mp3')`: every occurrence is replaced. */
  function CutName(f: string): string {
    ReplaceAll(f, ".mp3", "_cut.mp3")
  }

  /** A file inside a directory whose name holds no `.mp3` keeps its cut file in that directory. */
  lemma CutNameUnder(d: string, f: string)
    requires StartsWith(f, d + "/") && !Contains(d + "/", ".mp3")
    ensures StartsWith(CutName(f), d + "/")
  {
    var a := d + "/";
    assert f == a + f[|a|..];
    assert a[|a| - 1] == '/';
    ReplaceAllPrefix(a, f[|a|..], ".mp3", "_cut.mp3");
  }

  /** `.mp3` cannot overlap itself, so a name that starts and ends with it has it twice. */
  lemma Mp3NoOverlap(f: string)
    requires |f| >= 4 && f[..4] == ".mp3" && EndsWith(f, ".mp3")
    ensures |f| == 4 || |f| >= 8
  {
    assert f[|f| - 4] == '.' by { assert f[|f| - 4..][0] == f[|f| - 4]; }
    assert forall k :: 1 <= k < 4 ==> f[k] == f[..4][k] != '.';
  }

  lemma SuffixOfTail(f: string, drop: nat, suffix: string)
    requires drop + |suffix| <= |f| && EndsWith(f, suffix)
    ensures EndsWith(f[drop..], suffix)
  {
    assert f[drop..][|f| - drop - |suffix|..] == f[|f| - |suffix|..];
  }

  lemma SuffixOfLonger(head: string, t: string, suffix: string)
    requires EndsWith(t, suffix)
    ensures EndsWith(head + t, suffix)
  {
    var r := head + t;
    assert r[|r| - |suffix|..] == t[|t| - |suffix|..];
  }

  /** A name ending in `.mp3` always gets a name ending in `_cut.mp3`. */
  lemma {:induction false} CutNameSuffix(f: string)
    requires EndsWith(f, ".mp3")
    ensures EndsWith(CutName(f), "_cut.mp3")
    decreases |f|
  {
    if f[..4] == ".mp3" {
      Mp3NoOverlap(f);
      assert CutName(f) == "_cut.mp3" + CutName(f[4..]);
      if |f| == 4 {
        assert CutName(f[4..]) == [];
        assert CutName(f) == "_cut.mp3";
      } else {
        SuffixOfTail(f, 4, ".mp3");
        CutNameSuffix(f[4..]);
        SuffixOfLonger("_cut.mp3", CutName(f[4..]), "_cut.mp3");
      }
    } else {
      assert CutName(f) == [f[0]] + CutName(f[1..]);
      SuffixOfTail(f, 1, ".mp3");
      CutNameSuffix(f[1..]);
      SuffixOfLonger([f[0]], CutName(f[1..]), "_cut.mp3");
    }
  }

  /** What cut_audio has produced so far: the list it returns and the file system. */
  datatype CutState = CutState(names: seq<string>, paths: set<string>, audio: map<string, Audio>)

  /**
   * One iteration of cut_audio's loop for file `f`: decoding raises when
   * there is no decodable audio at `f`, exporting raises when the cut name
   * is unwritable; either way the file is skipped.
   */
  function CutStep(st: CutState, f: string, duration: nat, unwritable: set<string>): CutState {
    if f !in st.audio then st
    else
      var c := CutName(f);
      if c in unwritable then st
      else CutState(st.names + [c], st.paths + {c}, st.audio[c := Trim(st.audio[f], duration)])
  }

  /** cut_audio's loop over `files`, from the state `st`. */
  function CutRun(files: seq<string>, st: CutState, duration: nat, unwritable: set<string>): CutState
    decreases |files|
  {
    if |files| == 0 then st
    else CutStep(CutRun(files[..|files| - 1], st, duration, unwritable), files[|files| - 1], duration, unwritable)
  }

  /** cut_audio (without the CLI's final emptiness check). */
  method CutAudio(fs: FileSystem, files: seq<string>, duration: nat, unwritable: set<string>)
    returns (cutFiles: seq<string>)
    requires fs.Valid()
    modifies fs
    ensures fs.Valid()
    ensures CutState(cutFiles, fs.paths, fs.audio)
            == CutRun(files, CutState([], old(fs.paths), old(fs.audio)), duration, unwritable)
  {
    ghost var start := CutState([], fs.paths, fs.audio);
    cutFiles := [];
    for i := 0 to |files|
      invariant fs.Valid()
      invariant CutState(cutFiles, fs.paths, fs.audio) == CutRun(files[..i], start, duration, unwritable)
    {
      assert files[..i + 1][..i] == files[..i];
      var f := files[i];
      if f in fs.audio {
        var clip := Trim(fs.audio[f], duration);
        var c := CutName(f);
        var ok := fs.Export(c, clip, unwritable);
        if ok {
          cutFiles := cutFiles + [c];
        }
      }
    }
    assert files[..|files|] == files;
  }

  /** `idx` picks, in increasing order, the inputs whose cut names form `names`. */
  ghost predicate PicksInOrder(files: seq<string>, names: seq<string>, idx: seq<nat>) {
    && |idx| == |names|
    && (forall k :: 0 <= k < |idx| ==> idx[k] < |files| && names[k] == CutName(files[idx[k]]))
    && (forall k, l :: 0 <= k < l < |idx| ==> idx[k] < idx[l])
  }

  /**
   * The cut list follows the input order: it is the cut names of a
   * subsequence of the inputs, so never longer than the input list, and the
   * files written are exactly the listed ones.
   */
  lemma {:induction false} CutRunInOrder(files: seq<string>, paths: set<string>, audio: map<string, Audio>,
                                         duration: nat, unwritable: set<string>)
    returns (idx: seq<nat>)
    ensures var r := CutRun(files, CutState([], paths, audio), duration, unwritable);
            && PicksInOrder(files, r.names, idx) && |r.names| <= |files|
            && (forall p :: p in r.paths <==> p in paths || p in r.names)
            && (forall g :: g !in r.names ==> (g in r.audio <==> g in audio) && (g in audio ==> r.audio[g] == audio[g]))
    decreases |files|
  {
    if |files| == 0 {
      idx := [];
    } else {
      var n := |files| - 1;
      var pre := files[..n];
      idx := CutRunInOrder(pre, paths, audio, duration, unwritable);
      var st := CutRun(pre, CutState([], paths, audio), duration, unwritable);
      var f := files[n];
      assert CutRun(files, CutState([], paths, audio), duration, unwritable) == CutStep(st, f, duration, unwritable);
      assert forall k :: 0 <= k < |idx| ==> pre[idx[k]] == files[idx[k]];
      if f in st.audio && CutName(f) !in unwritable {
        idx := idx + [n];
        PicksExtend(files, st.names, idx);
      }
    }
  }

  /** Picking the last input as well extends the picked cut names by its cut name. */
  lemma PicksExtend(files: seq<string>, names: seq<string>, idx: seq<nat>)
    requires |files| > 0 && |idx| == |names| + 1 && idx[|names|] == |files| - 1
    requires PicksInOrder(files[..|files| - 1], names, idx[..|names|])
    ensures PicksInOrder(files, names + [CutName(files[|files| - 1])], idx)
  {
    var pre := files[..|files| - 1];
    forall k | 0 <= k < |names|
      ensures idx[k] < |files| - 1 && names[k] == CutName(files[idx[k]])
    {
      assert idx[..|names|][k] == idx[k] && pre[idx[k]] == files[idx[k]];
    }
  }

  /**
   * cut_audio on files inside `d` writes only inside `d`: every path and
   * every decodable file outside it is as it was.
   */
  lemma CutRunStaysUnder(files: seq<string>, paths: set<string>, audio: map<string, Audio>,
                         duration: nat, unwritable: set<string>, d: string)
    requires forall f :: f in files ==> StartsWith(f, d + "/")
    requires !Contains(d + "/", ".mp3")
    ensures var r := CutRun(files, CutState([], paths, audio), duration, unwritable);
            forall p :: !Under(p, d) ==>
              && (p in r.paths <==> p in paths)
              && (p in r.audio <==> p in audio)
              && (p in audio ==> r.audio[p] == audio[p])
  {
    var r := CutRun(files, CutState([], paths, audio), duration, unwritable);
    var idx := CutRunInOrder(files, paths, audio, duration, unwritable);
    forall k | 0 <= k < |r.names|
      ensures Under(r.names[k], d)
    {
      CutNameUnder(d, files[idx[k]]);
    }
  }

  /** Every file on the cut list has decodable audio. */
  ghost predicate ListedDecodable(st: CutState) {
    forall k :: 0 <= k < |st.names| ==> st.names[k] in st.audio
  }

  /**
   * Every listed cut file can be decoded again afterwards: it was exported,
   * and nothing cut_audio does removes a decodable file.
   */
  lemma {:induction false} CutRunListsDecodable(files: seq<string>, st: CutState, duration: nat, unwritable: set<string>)
    requires ListedDecodable(st)
    ensures ListedDecodable(CutRun(files, st, duration, unwritable))
    decreases |files|
  {
    if |files| > 0 {
      var pre := CutRun(files[..|files| - 1], st, duration, unwritable);
      CutRunListsDecodable(files[..|files| - 1], st, duration, unwritable);
      var r := CutStep(pre, files[|files| - 1], duration, unwritable);
      assert CutRun(files, st, duration, unwritable) == r;
      forall k | 0 <= k < |r.names|
        ensures r.names[k] in r.audio
      {
        if k < |pre.names| {
          assert r.names[..|pre.names|] == pre.names;
          assert pre.names[k] in pre.audio;
        }
      }
    }
  }

  /** The inputs that cut_audio keeps: decodable, and with a writable cut name. */
  function Survivors(files: seq<string>, audio: map<string, Audio>, unwritable: set<string>): (kept: seq<string>)
    ensures forall k :: 0 <= k < |kept| ==> kept[k] in audio && CutName(kept[k]) !in unwritable
    decreases |files|
  {
    if |files| == 0 then []
    else
      var f := files[|files| - 1];
      Survivors(files[..|files| - 1], audio, unwritable)
        + (if f in audio && CutName(f) !in unwritable then [f] else [])
  }

  /**
   * cut_audio keeps an input exactly when it decodes and its cut name is
   * writable, and keeps no more files than it was given.
   */
  lemma {:induction false} SurvivorsExactly(files: seq<string>, audio: map<string, Audio>, unwritable: set<string>)
    ensures var kept := Survivors(files, audio, unwritable);
            && (forall f :: f in kept <==> f in files && f in audio && CutName(f) !in unwritable)
            && |kept| <= |files|
    decreases |files|
  {
    if |files| > 0 {
      var pre := files[..|files| - 1];
      var f := files[|files| - 1];
      SurvivorsExactly(pre, audio, unwritable);
      assert files == pre + [f];
    }
  }

  /** No cut name is an input name, and distinct inputs get distinct cut names. */
  ghost predicate CutNamesFresh(files: seq<string>) {
    && (forall i, j :: 0 <= i < |files| && 0 <= j < |files| ==> CutName(files[i]) != files[j])
    && (forall i, j :: 0 <= i < j < |files| ==> CutName(files[i]) != CutName(files[j]))
  }

  lemma FreshPrefix(files: seq<string>)
    requires |files| > 0 && CutNamesFresh(files)
    ensures CutNamesFresh(files[..|files| - 1])
  {
    var pre := files[..|files| - 1];
    forall i, j | 0 <= i < |pre| && 0 <= j < |pre|
      ensures CutName(pre[i]) != pre[j]
    {
      assert pre[i] == files[i] && pre[j] == files[j];
    }
  }

  /** Neither the last input nor its cut name is among the cut names of the inputs before it. */
  lemma FreshLast(files: seq<string>, names: seq<string>, idx: seq<nat>)
    requires |files| > 0 && CutNamesFresh(files)
    requires PicksInOrder(files[..|files| - 1], names, idx)
    ensures files[|files| - 1] !in names && CutName(files[|files| - 1]) !in names
    ensures forall g :: g in files ==> CutName(files[|files| - 1]) != g
  {
    var n := |files| - 1;
    forall k | 0 <= k < |names|
      ensures names[k] != files[n] && names[k] != CutName(files[n])
    {
      assert names[k] == CutName(files[..n][idx[k]]) && files[..n][idx[k]] == files[idx[k]];
    }
    forall g | g in files
      ensures CutName(files[n]) != g
    {
      var j :| 0 <= j < |files| && files[j] == g;
    }
  }

  /**
   * When no cut file overwrites an input or another cut file, cut_audio
   * keeps exactly the surviving inputs, in order, and the clip written for
   * each is its decoded audio trimmed to the duration.
   */
  lemma {:induction false} CutRunClips(files: seq<string>, paths: set<string>, audio: map<string, Audio>,
                                       duration: nat, unwritable: set<string>)
    requires CutNamesFresh(files)
    ensures var r := CutRun(files, CutState([], paths, audio), duration, unwritable);
            var kept := Survivors(files, audio, unwritable);
            && |r.names| == |kept|
            && (forall k :: 0 <= k < |kept| ==> kept[k] in audio && r.names[k] == CutName(kept[k]))
            && (forall k :: 0 <= k < |kept| ==> r.names[k] in r.audio && r.audio[r.names[k]] == Trim(audio[kept[k]], duration))
            && (forall f :: f in files ==> (f in r.audio <==> f in audio) && (f in audio ==> r.audio[f] == audio[f]))
    decreases |files|
  {
    if |files| > 0 {
      var n := |files| - 1;
      var pre := files[..n];
      var f := files[n];
      FreshPrefix(files);
      CutRunClips(pre, paths, audio, duration, unwritable);
      var st := CutRun(pre, CutState([], paths, audio), duration, unwritable);
      var idx := CutRunInOrder(pre, paths, audio, duration, unwritable);
      FreshLast(files, st.names, idx);
      var keptPre := Survivors(pre, audio, unwritable);
      assert CutRun(files, CutState([], paths, audio), duration, unwritable) == CutStep(st, f, duration, unwritable);
      assert Survivors(files, audio, unwritable)
          == keptPre + (if f in audio && CutName(f) !in unwritable then [f] else []);
      ClipsStep(files, st, keptPre, audio, duration, unwritable);
    }
  }

  /** One iteration of cut_audio keeps the correspondence between the cut list and the survivors. */
  lemma ClipsStep(files: seq<string>, st: CutState, keptPre: seq<string>, audio: map<string, Audio>,
                  duration: nat, unwritable: set<string>)
    requires |files| > 0
    requires |st.names| == |keptPre|
    requires forall k :: 0 <= k < |keptPre| ==> keptPre[k] in audio && st.names[k] == CutName(keptPre[k])
    requires forall k :: 0 <= k < |keptPre| ==>
               st.names[k] in st.audio && st.audio[st.names[k]] == Trim(audio[keptPre[k]], duration)
    requires forall g :: g in files[..|files| - 1] ==>
               (g in st.audio <==> g in audio) && (g in audio ==> st.audio[g] == audio[g])
    requires var f := files[|files| - 1];
             && f !in st.names && CutName(f) !in st.names
             && (f in st.audio <==> f in audio) && (f in audio ==> st.audio[f] == audio[f])
             && forall g :: g in files ==> CutName(f) != g
    ensures var f := files[|files| - 1];
            var r := CutStep(st, f, duration, unwritable);
            var kept := keptPre + (if f in audio && CutName(f) !in unwritable then [f] else []);
            && |r.names| == |kept|
            && (forall k :: 0 <= k < |kept| ==> kept[k] in audio && r.names[k] == CutName(kept[k]))
            && (forall k :: 0 <= k < |kept| ==> r.names[k] in r.audio && r.audio[r.names[k]] == Trim(audio[kept[k]], duration))
            && (forall g :: g in files ==> (g in r.audio <==> g in audio) && (g in audio ==> r.audio[g] == audio[g]))
  {
    var f := files[|files| - 1];
    assert forall g :: g in files ==> g in files[..|files| - 1] || g == f;
    if f in audio && CutName(f) !in unwritable {
      var c := CutName(f);
      forall k | 0 <= k < |keptPre|
        ensures st.names[k] != c
      {
        assert st.names[k] in st.names;
      }
    }
  }

  /** `AudioSegment.from_mp3` for every cut file, or None when any of them raises. */
  function DecodeAll(files: seq<string>, audio: map<string, Audio>): (r: Option<seq<Audio>>)
    ensures r.Some? <==> forall k :: 0 <= k < |files| ==> files[k] in audio
    ensures r.Some? ==> |r.value| == |files| && forall k :: 0 <= k < |files| ==> r.value[k] == audio[files[k]]
    decreases |files|
  {
    if |files| == 0 then Some([])
    else
      var n := |files| - 1;
      match DecodeAll(files[..n], audio)
      case None => None
      case Some(clips) => if files[n] in audio then Some(clips + [audio[files[n]]]) else None
  }

  /**
   * merge_audio: decode every cut file in order, append it to the merged
   * audio, and export the result. Fails, changing nothing, when a decode or
   * the export raises.
   */
  method MergeAudio(fs: FileSystem, cutFiles: seq<string>, output: string, unwritable: set<string>)
    returns (ok: bool)
    requires fs.Valid()
    modifies fs
    ensures fs.Valid()
    ensures ok <==> DecodeAll(cutFiles, old(fs.audio)).Some? && output !in unwritable
    ensures ok ==> fs.paths == old(fs.paths) + {output}
                   && fs.audio == old(fs.audio)[output := Concat(DecodeAll(cutFiles, old(fs.audio)).value)]
    ensures !ok ==> fs.paths == old(fs.paths) && fs.audio == old(fs.audio)
  {
    var merged: Audio := [];
    for i := 0 to |cutFiles|
      invariant DecodeAll(cutFiles[..i], fs.audio).Some?
      invariant merged == Concat(DecodeAll(cutFiles[..i], fs.audio).value)
    {
      assert cutFiles[..i + 1][..i] == cutFiles[..i];
      if cutFiles[i] !in fs.audio {
        assert cutFiles[..i + 1][i] == cutFiles[i];
        assert DecodeAll(cutFiles, fs.audio).None?;
        return false;
      }
      merged := merged + fs.audio[cutFiles[i]];
    }
    assert cutFiles[..|cutFiles|] == cutFiles;
    ok := fs.Export(output, merged, unwritable);
  }

  /**
   * Both stages together: the merged audio is the surviving inputs' clips in
   * input order, and it lasts as long as those clips together, each the
   * shorter of its track and the target duration.
   */
  lemma MergedMashup(files: seq<string>, paths: set<string>, audio: map<string, Audio>,
                     duration: nat, unwritable: set<string>)
    requires CutNamesFresh(files)
    ensures var r := CutRun(files, CutState([], paths, audio), duration, unwritable);
            var kept := Survivors(files, audio, unwritable);
            var clips := seq(|kept|, k requires 0 <= k < |kept| => Trim(audio[kept[k]], duration));
            && DecodeAll(r.names, r.audio) == Some(clips)
            && |Concat(clips)| == TotalLength(clips)
            && (forall k :: 0 <= k < |clips| ==>
                  clips[k] <= audio[kept[k]] && |clips[k]| == Min(|audio[kept[k]]|, duration * 1000))
  {
    CutRunClips(files, paths, audio, duration, unwritable);
    var r := CutRun(files, CutState([], paths, audio), duration, unwritable);
    var kept := Survivors(files, audio, unwritable);
    var clips := seq(|kept|, k requires 0 <= k < |kept| => Trim(audio[kept[k]], duration));
    var d := DecodeAll(r.names, r.audio);
    assert d.value == clips;
    ConcatLength(clips);
  }
}
