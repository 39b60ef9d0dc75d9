/** to-resolve.py, `convertir_videos_en_carpeta`: convert every walked video into
    `{stem}_R.mp4` beside it, in the walked tree itself, skipping outputs that exist. */
module ToResolve {
  import opened Base
  import opened Paths
  import opened Effects
  import opened Media

  // ---------------------------------------------------------------------------------------
  // Specification

  /** The output path for file `name` of walked directory `rel`: same directory, `_R.mp4`. */
  function OutputPath(root: string, rel: seq<string>, name: string): Path {
    [root] + rel + [ResolveCopyName(Stem(name))]
  }

  function FileStep(st: State, root: string, rel: seq<string>, name: string, oracle: Oracle): State {
    if Classify(name) == Video then
      ResolveStep(st, ResolveCopy, [root] + rel + [name], OutputPath(root, rel, name), oracle)
    else st
  }

  function RunNames(st: State, root: string, rel: seq<string>, names: seq<string>, oracle: Oracle): State {
    if names == [] then st
    else FileStep(RunNames(st, root, rel, names[..|names| - 1], oracle), root, rel, names[|names| - 1], oracle)
  }

  function RunDirs(st: State, root: string, walk: Walk, oracle: Oracle): State {
    if walk == [] then st
    else
      var e := walk[|walk| - 1];
      RunNames(RunDirs(st, root, walk[..|walk| - 1], oracle), root, e.rel, e.names, oracle)
  }

  function Run(root: string, walk: Walk, fs0: set<Path>, oracle: Oracle): State {
    RunDirs(State(fs0, []), root, walk, oracle)
  }

  method ConvertFolder(root: string, walk: Walk, fs0: set<Path>, oracle: Oracle)
    returns (fs: set<Path>, log: seq<Event>)
    ensures State(fs, log) == Run(root, walk, fs0, oracle)
  {
    fs, log := fs0, [];
    for i := 0 to |walk|
      invariant State(fs, log) == RunDirs(State(fs0, []), root, walk[..i], oracle)
    {
      var e := walk[i];
      ghost var atDir := State(fs, log);
      for j := 0 to |e.names|
        invariant State(fs, log) == RunNames(atDir, root, e.rel, e.names[..j], oracle)
      {
        assert e.names[..j + 1][..j] == e.names[..j];
        var name := e.names[j];
        var stem, ext := SplitExt(name).0, SplitExt(name).1;
        if Lower(ext) in VideoExts {
          var src := [root] + e.rel + [name];
          var dst := [root] + e.rel + [stem + "_R.mp4"];
          if dst in fs {
            log := log + [Skipped(ResolveCopy, dst)];
            continue;
          }
          var call := Transcode(src, dst, ResolveParams);
          var o := oracle(|log|, call);
          if o.LeavesOutput() { fs := fs + {dst}; }
          log := log + [Ran(ResolveCopy, call, o)];
        }
      }
      assert e.names[..|e.names|] == e.names;
      assert walk[..i + 1][..i] == walk[..i];
    }
    assert walk[..|walk|] == walk;
  }

  // ---------------------------------------------------------------------------------------
  // One file

  /** Only videos are touched; any other file leaves the state as it is. */
  lemma NonVideoIsIgnored(st: State, root: string, rel: seq<string>, name: string, oracle: Oracle)
    requires Classify(name) != Video
    ensures FileStep(st, root, rel, name, oracle) == st
  {
  }

  /** A video adds exactly one event about `{stem}_R.mp4` in its own directory: a skip when
      that path exists (and nothing is written), otherwise one Resolve conversion from the
      video; only that path can appear. */
  lemma VideoFile(st: State, root: string, rel: seq<string>, name: string, oracle: Oracle)
    requires Classify(name) == Video
    ensures var r := FileStep(st, root, rel, name, oracle);
            var src := [root] + rel + [name];
            var dst := OutputPath(root, rel, name);
            var call := Transcode(src, dst, ResolveParams);
            && dst[..|dst| - 1] == src[..|src| - 1]
            && (dst in st.fs ==> r == State(st.fs, st.log + [Skipped(ResolveCopy, dst)]))
            && (dst !in st.fs ==> r.log == st.log + [Ran(ResolveCopy, call, oracle(|st.log|, call))])
            && st.fs <= r.fs <= st.fs + {dst}
  {
    var src := [root] + rel + [name];
    var dst := OutputPath(root, rel, name);
    assert dst[..|dst| - 1] == [root] + rel == src[..|src| - 1];
  }

  /** An output lands in the walked tree and has the `.mp4` extension, so a later walk lists it
      as a video: its own output is `{stem}_R_R.mp4`, converted from it unless that exists. */
  lemma OutputIsLaterInput(st: State, root: string, rel: seq<string>, stem: string, oracle: Oracle)
    requires [root] + rel + [stem + "_R_R.mp4"] !in st.fs
    ensures Classify(ResolveCopyName(stem)) == Video
    ensures var src := [root] + rel + [stem + "_R.mp4"];
            var call := Transcode(src, [root] + rel + [stem + "_R_R.mp4"], ResolveParams);
            FileStep(st, root, rel, ResolveCopyName(stem), oracle).log
              == st.log + [Ran(ResolveCopy, call, oracle(|st.log|, call))]
  {
    var name := ResolveCopyName(stem);
    var s, e := stem + "_R", ".mp4";
    assert s + e == name;
    assert s[|s| - 2] == '_';
    assert !AllDots(s);
    SplitExtUnique(name, s, e);
    assert Lower(e) == e;
    assert ResolveCopyName(s) == stem + "_R_R.mp4";
  }

  // ---------------------------------------------------------------------------------------
  // The run

  /** Every event of the log is about one video and its `_R.mp4` beside it: a skip of that
      path, or a Resolve conversion (H.264, yuv420p, AAC, `+faststart`, overwrite) into the
      directory of its input. */
  predicate ResolveLog(log: seq<Event>) {
    forall i :: 0 <= i < |log| ==>
      match log[i]
      case MadeDirs(_) => false
      case Skipped(kind, _) => kind == ResolveCopy
      case Ran(kind, call, _) =>
        && kind == ResolveCopy && call.Transcode? && call.params == ResolveParams
        && |call.src| > 0 && |call.dst| > 0 && call.src[..|call.src| - 1] == call.dst[..|call.dst| - 1]
        && EndsWith(call.dst[|call.dst| - 1], "_R.mp4")
  }

  lemma FileStepLog(st: State, root: string, rel: seq<string>, name: string, oracle: Oracle)
    requires ResolveLog(st.log)
    ensures var r := FileStep(st, root, rel, name, oracle);
            && ResolveLog(r.log)
            && |r.log| == |st.log| + (if Classify(name) == Video then 1 else 0)
  {
    if Classify(name) == Video {
      VideoFile(st, root, rel, name, oracle);
      var n := ResolveCopyName(Stem(name));
      assert n[|n| - 6..] == "_R.mp4";
    }
  }

  lemma {:induction false} RunNamesLog(st: State, root: string, rel: seq<string>, names: seq<string>,
                                       oracle: Oracle)
    requires ResolveLog(st.log)
    ensures var r := RunNames(st, root, rel, names, oracle);
            ResolveLog(r.log) && |r.log| == |st.log| + VideosIn(names)
  {
    if names != [] {
      RunNamesLog(st, root, rel, names[..|names| - 1], oracle);
      FileStepLog(RunNames(st, root, rel, names[..|names| - 1], oracle), root, rel, names[|names| - 1], oracle);
    }
  }

  lemma {:induction false} RunDirsLog(st: State, root: string, walk: Walk, oracle: Oracle)
    requires ResolveLog(st.log)
    ensures var r := RunDirs(st, root, walk, oracle);
            ResolveLog(r.log) && |r.log| == |st.log| + VideoCount(walk)
  {
    if walk != [] {
      var e := walk[|walk| - 1];
      RunDirsLog(st, root, walk[..|walk| - 1], oracle);
      RunNamesLog(RunDirs(st, root, walk[..|walk| - 1], oracle), root, e.rel, e.names, oracle);
    }
  }

  /** Whatever the conversions do, a run logs exactly one event per walked video and none for
      any other file, and every conversion uses the Resolve parameters and writes beside its
      input. */
  lemma EveryVideoIsReached(root: string, walk: Walk, fs0: set<Path>, oracle: Oracle)
    ensures var r := Run(root, walk, fs0, oracle);
            ResolveLog(r.log) && |r.log| == VideoCount(walk)
  {
    RunDirsLog(State(fs0, []), root, walk, oracle);
  }

  // ---------------------------------------------------------------------------------------
  // Re-running over the same listing

  function NamesTargets(root: string, rel: seq<string>, names: seq<string>): set<Path> {
    if names == [] then {}
    else
      var n := names[|names| - 1];
      NamesTargets(root, rel, names[..|names| - 1]) + (if Classify(n) == Video then {OutputPath(root, rel, n)} else {})
  }

  function Targets(root: string, walk: Walk): set<Path> {
    if walk == [] then {}
    else Targets(root, walk[..|walk| - 1]) + NamesTargets(root, walk[|walk| - 1].rel, walk[|walk| - 1].names)
  }

  lemma {:induction false} RunNamesCovers(st: State, root: string, rel: seq<string>, names: seq<string>,
                                          oracle: Oracle)
    requires AllSucceed(oracle)
    ensures st.fs + NamesTargets(root, rel, names) <= RunNames(st, root, rel, names, oracle).fs
  {
    if names != [] {
      var prev := RunNames(st, root, rel, names[..|names| - 1], oracle);
      var n := names[|names| - 1];
      RunNamesCovers(st, root, rel, names[..|names| - 1], oracle);
      assert oracle(|prev.log|, Transcode([root] + rel + [n], OutputPath(root, rel, n), ResolveParams)) == Succeeded;
    }
  }

  lemma {:induction false} RunDirsCovers(st: State, root: string, walk: Walk, oracle: Oracle)
    requires AllSucceed(oracle)
    ensures st.fs + Targets(root, walk) <= RunDirs(st, root, walk, oracle).fs
  {
    if walk != [] {
      var e := walk[|walk| - 1];
      RunDirsCovers(st, root, walk[..|walk| - 1], oracle);
      RunNamesCovers(RunDirs(st, root, walk[..|walk| - 1], oracle), root, e.rel, e.names, oracle);
    }
  }

  lemma {:induction false} RunNamesQuiet(st: State, root: string, rel: seq<string>, names: seq<string>,
                                         oracle: Oracle)
    requires NamesTargets(root, rel, names) <= st.fs && NoCalls(st.log)
    ensures var r := RunNames(st, root, rel, names, oracle);
            r.fs == st.fs && NoCalls(r.log)
  {
    if names != [] {
      RunNamesQuiet(st, root, rel, names[..|names| - 1], oracle);
    }
  }

  lemma {:induction false} RunDirsQuiet(st: State, root: string, walk: Walk, oracle: Oracle)
    requires Targets(root, walk) <= st.fs && NoCalls(st.log)
    ensures var r := RunDirs(st, root, walk, oracle);
            r.fs == st.fs && NoCalls(r.log)
  {
    if walk != [] {
      var e := walk[|walk| - 1];
      RunDirsQuiet(st, root, walk[..|walk| - 1], oracle);
      RunNamesQuiet(RunDirs(st, root, walk[..|walk| - 1], oracle), root, e.rel, e.names, oracle);
    }
  }

  /** After a run in which every conversion succeeded, a run over the same listing converts
      nothing. A real second walk also lists the new `_R.mp4` files, which OutputIsLaterInput
      shows are converted again. */
  lemma SameListingRerunIsQuiet(root: string, walk: Walk, fs0: set<Path>, ok: Oracle, any: Oracle)
    requires AllSucceed(ok)
    ensures var first := Run(root, walk, fs0, ok);
            var second := Run(root, walk, first.fs, any);
            second.fs == first.fs && NoCalls(second.log)
  {
    RunDirsCovers(State(fs0, []), root, walk, ok);
    RunDirsQuiet(State(Run(root, walk, fs0, ok).fs, []), root, walk, any);
  }
}
