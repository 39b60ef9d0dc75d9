/** compresores/optimizer-2-davinci.py, `optimizar_archivos`: mirror every walked directory,
    compress images to `{stem}_opt.jpeg`, and turn each video into `{stem}_opt.mp4` (stage 1)
    and then `{stem}_opt_R.mp4` made from the stage-1 file (stage 2), skipping every artifact
    whose path exists. */
module OptimizerDavinci {
  import opened Base
  import opened Paths
  import opened Effects
  import opened Media

  // ---------------------------------------------------------------------------------------
  // Specification: the walk as a fold of per-file steps

  /** One pass of the inner loop: file `name` of walked directory `rel`, mirrored at `dir`. */
  function FileStep(st: State, root: string, cfg: Config, rel: seq<string>, dir: Path, name: string,
                    oracle: Oracle): State
  {
    FileStepAt(st, cfg, [root] + rel + [name], dir, name, oracle)
  }

  /** The same pass for the file at path `src`, whose last component is `name`. */
  function FileStepAt(st: State, cfg: Config, src: Path, dir: Path, name: string, oracle: Oracle): State {
    var stem := Stem(name);
    match Classify(name)
    case Image => ImageStep(st, src, dir + [OptImageName(stem)], cfg.quality, oracle)
    case Video =>
      var opt := dir + [OptVideoName(stem)];
      var c1 := Transcode(src, opt, CompressParams(cfg));
      if opt !in st.fs && oracle(|st.log|, c1).Failed? then
        Exec(st, OptVideo, c1, oracle)  // the error is logged and the loop continues
      else
        ResolveStep(CompressStep(st, src, opt, cfg, oracle), ResolveVideo, opt,
                    dir + [ResolveVideoName(stem)], oracle)
    case Unsupported => st
  }

  function RunNames(st: State, root: string, cfg: Config, rel: seq<string>, dir: Path,
                    names: seq<string>, oracle: Oracle): State
  {
    if names == [] then st
    else FileStep(RunNames(st, root, cfg, rel, dir, names[..|names| - 1], oracle),
                  root, cfg, rel, dir, names[|names| - 1], oracle)
  }

  /** One pass of the outer loop: make the mirror, then process the directory's files. */
  function DirStep(st: State, root: string, cfg: Config, e: DirEntry, oracle: Oracle): State {
    var dir := MirrorDir(OutputRoot(root), e.rel);
    RunNames(MakeDirs(st, dir), root, cfg, e.rel, dir, e.names, oracle)
  }

  function RunDirs(st: State, root: string, cfg: Config, walk: Walk, oracle: Oracle): State {
    if walk == [] then st
    else DirStep(RunDirs(st, root, cfg, walk[..|walk| - 1], oracle), root, cfg, walk[|walk| - 1], oracle)
  }

  /** The state before the walk: the output root has been made. */
  function Start(root: string, fs0: set<Path>): State {
    MakeDirs(State(fs0, []), [OutputRoot(root)])
  }

  function Run(root: string, cfg: Config, walk: Walk, fs0: set<Path>, oracle: Oracle): State {
    RunDirs(Start(root, fs0), root, cfg, walk, oracle)
  }

  // ---------------------------------------------------------------------------------------
  // The script's loops

  method OptimizeFiles(root: string, cfg: Config, walk: Walk, fs0: set<Path>, oracle: Oracle)
    returns (fs: set<Path>, log: seq<Event>)
    ensures State(fs, log) == Run(root, cfg, walk, fs0, oracle)
  {
    var out := OutputRoot(root);
    fs, log := fs0 + Prefixes([out]), [MadeDirs([out])];
    for i := 0 to |walk|
      invariant State(fs, log) == RunDirs(Start(root, fs0), root, cfg, walk[..i], oracle)
    {
      var e := walk[i];
      var dir := MirrorDir(out, e.rel);
      fs, log := fs + Prefixes(dir), log + [MadeDirs(dir)];
      fs, log := OptimizeDir(root, cfg, e.rel, dir, e.names, fs, log, oracle);
      assert walk[..i + 1][..i] == walk[..i];
    }
    assert walk[..|walk|] == walk;
  }

  /** The inner loop over the files of walked directory `rel`, mirrored at `dir`. */
  method OptimizeDir(root: string, cfg: Config, rel: seq<string>, dir: Path, names: seq<string>,
                     fs0: set<Path>, log0: seq<Event>, oracle: Oracle)
    returns (fs: set<Path>, log: seq<Event>)
    ensures State(fs, log) == RunNames(State(fs0, log0), root, cfg, rel, dir, names, oracle)
  {
    fs, log := fs0, log0;
    for j := 0 to |names|
      invariant State(fs, log) == RunNames(State(fs0, log0), root, cfg, rel, dir, names[..j], oracle)
    {
      assert names[..j + 1][..j] == names[..j];
      fs, log := OptimizeFile(root, cfg, rel, dir, names[j], fs, log, oracle);
    }
    assert names[..|names|] == names;
  }

  /** The body of the inner loop for file `name`; each `continue` of the loop is a `return`
      here. */
  method OptimizeFile(root: string, cfg: Config, rel: seq<string>, dir: Path, name: string,
                      fs0: set<Path>, log0: seq<Event>, oracle: Oracle)
    returns (fs: set<Path>, log: seq<Event>)
    ensures State(fs, log) == FileStep(State(fs0, log0), root, cfg, rel, dir, name, oracle)
  {
    fs, log := fs0, log0;
    var src := [root] + rel + [name];
    var stem, ext := SplitExt(name).0, Lower(SplitExt(name).1);
    if ext in ImageExts {
      var dst := dir + [OptImageName(stem)];
      if dst in fs {
        log := log + [Skipped(OptImage, dst)];
        return;
      }
      var call := SaveJpeg(src, dst, cfg.quality);
      var o := oracle(|log|, call);
      if o.LeavesOutput() { fs := fs + {dst}; }
      log := log + [Ran(OptImage, call, o)];
    } else if ext in VideoExts {
      var opt := dir + [OptVideoName(stem)];
      if opt !in fs {
        var call := Transcode(src, opt, CompressParams(cfg));
        var o := oracle(|log|, call);
        if o.LeavesOutput() { fs := fs + {opt}; }
        log := log + [Ran(OptVideo, call, o)];
        if o.Failed? { return; }
      } else {
        log := log + [Skipped(OptVideo, opt)];
      }
      var res := dir + [ResolveVideoName(stem)];
      if res !in fs {
        var call := Transcode(opt, res, ResolveParams);
        var o := oracle(|log|, call);
        if o.LeavesOutput() { fs := fs + {res}; }
        log := log + [Ran(ResolveVideo, call, o)];
      } else {
        log := log + [Skipped(ResolveVideo, res)];
      }
    }
  }

  // ---------------------------------------------------------------------------------------
  // One file

  /** A file only adds paths and only appends to the log. */
  lemma FileStepAtGrows(st: State, cfg: Config, src: Path, dir: Path, name: string, oracle: Oracle)
    ensures var r := FileStepAt(st, cfg, src, dir, name, oracle);
            st.fs <= r.fs && |st.log| <= |r.log| && r.log[..|st.log|] == st.log
  {
    var r := FileStepAt(st, cfg, src, dir, name, oracle);
    if Classify(name) == Video {
      var s1 := CompressStep(st, src, dir + [OptVideoName(Stem(name))], cfg, oracle);
      assert s1.log[..|st.log|] == st.log;
      assert r.log[..|s1.log|] == s1.log;
      assert r.log[..|st.log|] == s1.log[..|st.log|];
    }
  }

  lemma FileStepGrows(st: State, root: string, cfg: Config, rel: seq<string>, dir: Path, name: string,
                      oracle: Oracle)
    ensures var r := FileStep(st, root, cfg, rel, dir, name, oracle);
            st.fs <= r.fs && |st.log| <= |r.log| && r.log[..|st.log|] == st.log
  {
    FileStepAtGrows(st, cfg, [root] + rel + [name], dir, name, oracle);
  }

  /** An unsupported extension does nothing at all. */
  lemma UnsupportedFileIsIgnored(st: State, root: string, cfg: Config, rel: seq<string>, dir: Path,
                                 name: string, oracle: Oracle)
    requires Classify(name) == Unsupported
    ensures FileStep(st, root, cfg, rel, dir, name, oracle) == st
  {
  }

  /** An image adds exactly one event, about `{stem}_opt.jpeg` in the mirror directory: a skip
      when that path exists (and nothing is written), otherwise one save to it from the source
      at the configured quality; only that path can appear. */
  lemma ImageFile(st: State, root: string, cfg: Config, rel: seq<string>, dir: Path, name: string,
                  oracle: Oracle)
    requires Classify(name) == Image
    ensures var r := FileStep(st, root, cfg, rel, dir, name, oracle);
            var dst := dir + [OptImageName(Stem(name))];
            var call := SaveJpeg([root] + rel + [name], dst, cfg.quality);
            && |r.log| == |st.log| + 1 && r.log[..|st.log|] == st.log
            && (dst in st.fs ==> r.fs == st.fs && r.log[|st.log|] == Skipped(OptImage, dst))
            && (dst !in st.fs ==> r.log[|st.log|] == Ran(OptImage, call, oracle(|st.log|, call)))
            && st.fs <= r.fs <= st.fs + {dst}
  {
  }

  /** A failing stage-1 call ends the file: one event, the error, and no stage-2 attempt,
      whether or not the failed call left a file behind. */
  lemma StageOneFailureStopsFile(st: State, root: string, cfg: Config, rel: seq<string>, dir: Path,
                                 name: string, oracle: Oracle)
    requires Classify(name) == Video
    requires var opt := dir + [OptVideoName(Stem(name))];
             opt !in st.fs && oracle(|st.log|, Transcode([root] + rel + [name], opt, CompressParams(cfg))).Failed?
    ensures var r := FileStep(st, root, cfg, rel, dir, name, oracle);
            var opt := dir + [OptVideoName(Stem(name))];
            var c1 := Transcode([root] + rel + [name], opt, CompressParams(cfg));
            && r.log == st.log + [Ran(OptVideo, c1, oracle(|st.log|, c1))]
            && st.fs <= r.fs <= st.fs + {opt}
  {
  }

  /** When stage 1 is skipped because `{stem}_opt.mp4` exists, stage 2 still runs if
      `{stem}_opt_R.mp4` is absent, and it converts the existing stage-1 file. */
  lemma StageTwoAfterSkippedStageOne(st: State, root: string, cfg: Config, rel: seq<string>, dir: Path,
                                     name: string, oracle: Oracle)
    requires Classify(name) == Video
    requires dir + [OptVideoName(Stem(name))] in st.fs
    requires dir + [ResolveVideoName(Stem(name))] !in st.fs
    ensures var r := FileStep(st, root, cfg, rel, dir, name, oracle);
            var opt := dir + [OptVideoName(Stem(name))];
            var c2 := Transcode(opt, dir + [ResolveVideoName(Stem(name))], ResolveParams);
            r.log == st.log + [Skipped(OptVideo, opt), Ran(ResolveVideo, c2, oracle(|st.log| + 1, c2))]
  {
  }

  /** A stage-1 failure that left a partial `{stem}_opt.mp4` is trusted by the next run: stage 1
      is skipped and stage 2 converts the partial file. */
  lemma PartialStageOneIsTrusted(st: State, root: string, cfg: Config, rel: seq<string>, dir: Path,
                                 name: string, first: Oracle, second: Oracle)
    requires Classify(name) == Video
    requires var opt := dir + [OptVideoName(Stem(name))];
             && opt !in st.fs && dir + [ResolveVideoName(Stem(name))] !in st.fs
             && first(|st.log|, Transcode([root] + rel + [name], opt, CompressParams(cfg))) == Failed(true)
    ensures var mid := FileStep(st, root, cfg, rel, dir, name, first);
            var again := FileStep(mid, root, cfg, rel, dir, name, second);
            var opt := dir + [OptVideoName(Stem(name))];
            var c2 := Transcode(opt, dir + [ResolveVideoName(Stem(name))], ResolveParams);
            again.log == mid.log + [Skipped(OptVideo, opt), Ran(ResolveVideo, c2, second(|mid.log| + 1, c2))]
  {
    var opt := dir + [OptVideoName(Stem(name))];
    var mid := FileStep(st, root, cfg, rel, dir, name, first);
    assert opt in mid.fs;
    ArtifactNamesDistinct(Stem(name), Stem(name));
    var res := dir + [ResolveVideoName(Stem(name))];
    assert res[|dir|] != opt[|dir|];
    assert mid.fs == st.fs + {opt};
    assert res !in mid.fs;
    StageTwoAfterSkippedStageOne(mid, root, cfg, rel, dir, name, second);
  }

  /** Two images with the same stem (`a.jpg`, `a.png`) target the same artifact: once the first
      has left it in place, the second is skipped. */
  lemma SameStemImagesShareArtifact(st: State, root: string, cfg: Config, rel: seq<string>, dir: Path,
                                    n1: string, n2: string, oracle: Oracle)
    requires Classify(n1) == Image && Classify(n2) == Image && Stem(n1) == Stem(n2)
    requires var dst := dir + [OptImageName(Stem(n1))];
             dst in st.fs || oracle(|st.log|, SaveJpeg([root] + rel + [n1], dst, cfg.quality)).LeavesOutput()
    ensures var mid := FileStep(st, root, cfg, rel, dir, n1, oracle);
            FileStep(mid, root, cfg, rel, dir, n2, oracle)
              == Skip(mid, OptImage, dir + [OptImageName(Stem(n2))])
  {
  }

  // ---------------------------------------------------------------------------------------
  // What every log of a run satisfies

  /** Every call uses the run's configuration: saves at the configured quality, stage 1 with
      the configured codec, crf and preset, stage 2 with the Resolve parameters. */
  /** A call event's call is the one its artifact kind prescribes under `cfg`. */
  predicate UsesConfig(e: Event, cfg: Config) {
    e.Ran? ==>
      match e.kind
      case OptImage => e.call.SaveJpeg? && e.call.quality == cfg.quality
      case OptVideo => e.call.Transcode? && e.call.params == CompressParams(cfg)
      case ResolveVideo => e.call.Transcode? && e.call.params == ResolveParams
      case ResolveCopy => false
  }

  predicate CallsUseConfig(log: seq<Event>, cfg: Config) {
    forall i :: 0 <= i < |log| ==> UsesConfig(log[i], cfg)
  }

  /** The stage-1 event that lets stage 2 run on `opt`: a skip because `opt` exists, or a
      successful stage-1 call that wrote `opt`. */
  predicate ReadyFor(e: Event, opt: Path) {
    e == Skipped(OptVideo, opt) || (e.Ran? && e.kind == OptVideo && e.call.dst == opt && e.outcome == Succeeded)
  }

  /** Every stage-2 call comes right after a stage-1 event that left its input in place, and
      reads the stage-1 path, never the original source. */
  predicate StageTwoFollowsStageOne(log: seq<Event>) {
    forall i :: 0 <= i < |log| && log[i].Ran? && log[i].kind == ResolveVideo ==>
      0 < i && ReadyFor(log[i - 1], log[i].call.src)
  }

  predicate LogShape(log: seq<Event>, cfg: Config) {
    CallsUseConfig(log, cfg) && StageTwoFollowsStageOne(log)
  }

  lemma ShapeAppend(log: seq<Event>, e: Event, cfg: Config)
    requires LogShape(log, cfg) && UsesConfig(e, cfg)
    requires e.Ran? && e.kind == ResolveVideo ==> 0 < |log| && ReadyFor(log[|log| - 1], e.call.src)
    ensures LogShape(log + [e], cfg)
  {
    var l := log + [e];
    assert forall i :: 0 <= i < |log| ==> l[i] == log[i];
  }

  lemma FileStepShape(st: State, root: string, cfg: Config, rel: seq<string>, dir: Path, name: string,
                      oracle: Oracle)
    requires LogShape(st.log, cfg)
    ensures LogShape(FileStep(st, root, cfg, rel, dir, name, oracle).log, cfg)
  {
    var r := FileStep(st, root, cfg, rel, dir, name, oracle);
    var src := [root] + rel + [name];
    var stem := Stem(name);
    match Classify(name)
    case Image =>
      var dst := dir + [OptImageName(stem)];
      var c := SaveJpeg(src, dst, cfg.quality);
      var e := if dst in st.fs then Skipped(OptImage, dst) else Ran(OptImage, c, oracle(|st.log|, c));
      assert r.log == st.log + [e];
      ShapeAppend(st.log, e, cfg);
    case Video =>
      var opt := dir + [OptVideoName(stem)];
      var c1 := Transcode(src, opt, CompressParams(cfg));
      var e1 := if opt in st.fs then Skipped(OptVideo, opt) else Ran(OptVideo, c1, oracle(|st.log|, c1));
      var s1 := CompressStep(st, src, opt, cfg, oracle);
      assert s1.log == st.log + [e1];
      ShapeAppend(st.log, e1, cfg);
      if !(opt !in st.fs && oracle(|st.log|, c1).Failed?) {
        var res := dir + [ResolveVideoName(stem)];
        var c2 := Transcode(opt, res, ResolveParams);
        var e2 := if res in s1.fs then Skipped(ResolveVideo, res) else Ran(ResolveVideo, c2, oracle(|s1.log|, c2));
        assert r.log == s1.log + [e2];
        assert ReadyFor(e1, opt);
        ShapeAppend(s1.log, e2, cfg);
      }
    case Unsupported =>
  }

  lemma {:induction false} RunNamesShape(st: State, root: string, cfg: Config, rel: seq<string>, dir: Path,
                                         names: seq<string>, oracle: Oracle)
    requires LogShape(st.log, cfg)
    ensures LogShape(RunNames(st, root, cfg, rel, dir, names, oracle).log, cfg)
  {
    if names != [] {
      var prev := RunNames(st, root, cfg, rel, dir, names[..|names| - 1], oracle);
      RunNamesShape(st, root, cfg, rel, dir, names[..|names| - 1], oracle);
      FileStepShape(prev, root, cfg, rel, dir, names[|names| - 1], oracle);
    }
  }

  lemma {:induction false} RunDirsShape(st: State, root: string, cfg: Config, walk: Walk, oracle: Oracle)
    requires LogShape(st.log, cfg)
    ensures LogShape(RunDirs(st, root, cfg, walk, oracle).log, cfg)
  {
    if walk != [] {
      var prev := RunDirs(st, root, cfg, walk[..|walk| - 1], oracle);
      RunDirsShape(st, root, cfg, walk[..|walk| - 1], oracle);
      var e := walk[|walk| - 1];
      var atDir := MakeDirs(prev, MirrorDir(OutputRoot(root), e.rel));
      assert forall i :: 0 <= i < |prev.log| ==> atDir.log[i] == prev.log[i];
      RunNamesShape(atDir, root, cfg, e.rel, MirrorDir(OutputRoot(root), e.rel), e.names, oracle);
    }
  }

  /** Whatever the external calls do, every call of a run uses the configuration, and every
      stage-2 call directly follows the skipped or successful stage 1 of its own input. */
  lemma RunLogShape(root: string, cfg: Config, walk: Walk, fs0: set<Path>, oracle: Oracle)
    ensures LogShape(Run(root, cfg, walk, fs0, oracle).log, cfg)
  {
    RunDirsShape(Start(root, fs0), root, cfg, walk, oracle);
  }

  // ---------------------------------------------------------------------------------------
  // Fault isolation: every supported file is reached

  lemma FileAttempts(st: State, root: string, cfg: Config, rel: seq<string>, dir: Path, name: string,
                     oracle: Oracle)
    ensures Attempts(FileStep(st, root, cfg, rel, dir, name, oracle).log)
              == Attempts(st.log) + (if Classify(name) != Unsupported then 1 else 0)
  {
    var r := FileStep(st, root, cfg, rel, dir, name, oracle);
    var src := [root] + rel + [name];
    var stem := Stem(name);
    match Classify(name)
    case Image =>
      var dst := dir + [OptImageName(stem)];
      var c := SaveJpeg(src, dst, cfg.quality);
      var e := if dst in st.fs then Skipped(OptImage, dst) else Ran(OptImage, c, oracle(|st.log|, c));
      assert r.log == st.log + [e] && IsAttempt(e);
      AttemptsOne(st.log, e);
    case Video =>
      var opt := dir + [OptVideoName(stem)];
      var c1 := Transcode(src, opt, CompressParams(cfg));
      var e1 := if opt in st.fs then Skipped(OptVideo, opt) else Ran(OptVideo, c1, oracle(|st.log|, c1));
      var s1 := CompressStep(st, src, opt, cfg, oracle);
      assert s1.log == st.log + [e1] && IsAttempt(e1);
      AttemptsOne(st.log, e1);
      if !(opt !in st.fs && oracle(|st.log|, c1).Failed?) {
        var res := dir + [ResolveVideoName(stem)];
        var c2 := Transcode(opt, res, ResolveParams);
        var e2 := if res in s1.fs then Skipped(ResolveVideo, res) else Ran(ResolveVideo, c2, oracle(|s1.log|, c2));
        assert r.log == s1.log + [e2] && !IsAttempt(e2);
        AttemptsOne(s1.log, e2);
      } else {
        assert r == s1;
      }
    case Unsupported =>
  }

  lemma {:induction false} RunNamesAttempts(st: State, root: string, cfg: Config, rel: seq<string>, dir: Path,
                                            names: seq<string>, oracle: Oracle)
    ensures Attempts(RunNames(st, root, cfg, rel, dir, names, oracle).log) == Attempts(st.log) + SupportedIn(names)
  {
    if names != [] {
      RunNamesAttempts(st, root, cfg, rel, dir, names[..|names| - 1], oracle);
      FileAttempts(RunNames(st, root, cfg, rel, dir, names[..|names| - 1], oracle), root, cfg, rel, dir,
                   names[|names| - 1], oracle);
    }
  }

  lemma {:induction false} RunDirsAttempts(st: State, root: string, cfg: Config, walk: Walk, oracle: Oracle)
    ensures Attempts(RunDirs(st, root, cfg, walk, oracle).log) == Attempts(st.log) + SupportedCount(walk)
  {
    if walk != [] {
      var prev := RunDirs(st, root, cfg, walk[..|walk| - 1], oracle);
      RunDirsAttempts(st, root, cfg, walk[..|walk| - 1], oracle);
      var e := walk[|walk| - 1];
      var dir := MirrorDir(OutputRoot(root), e.rel);
      AttemptsOne(prev.log, MadeDirs(dir));
      RunNamesAttempts(MakeDirs(prev, dir), root, cfg, e.rel, dir, e.names, oracle);
    }
  }

  /** Whatever the external calls do, a run reaches every image and video of the walk: it logs
      exactly one first-stage event (skip, written or error) per supported file. */
  lemma EveryFileIsReached(root: string, cfg: Config, walk: Walk, fs0: set<Path>, oracle: Oracle)
    ensures Attempts(Run(root, cfg, walk, fs0, oracle).log) == SupportedCount(walk)
  {
    AttemptsOne([], MadeDirs([OutputRoot(root)]));
    RunDirsAttempts(Start(root, fs0), root, cfg, walk, oracle);
  }

  // ---------------------------------------------------------------------------------------
  // Mirror directories

  lemma {:induction false} RunNamesGrows(st: State, root: string, cfg: Config, rel: seq<string>, dir: Path,
                                         names: seq<string>, oracle: Oracle)
    ensures st.fs <= RunNames(st, root, cfg, rel, dir, names, oracle).fs
  {
    if names != [] {
      RunNamesGrows(st, root, cfg, rel, dir, names[..|names| - 1], oracle);
      FileStepGrows(RunNames(st, root, cfg, rel, dir, names[..|names| - 1], oracle), root, cfg, rel, dir,
                    names[|names| - 1], oracle);
    }
  }

  lemma {:induction false} RunDirsMirrors(st: State, root: string, cfg: Config, walk: Walk, oracle: Oracle)
    ensures var r := RunDirs(st, root, cfg, walk, oracle); st.fs <= r.fs && MirrorsIn(OutputRoot(root), walk, r.fs)
  {
    if walk != [] {
      var init := walk[..|walk| - 1];
      var prev := RunDirs(st, root, cfg, init, oracle);
      RunDirsMirrors(st, root, cfg, init, oracle);
      var e := walk[|walk| - 1];
      var dir := MirrorDir(OutputRoot(root), e.rel);
      var mid := MakeDirs(prev, dir);
      RunNamesGrows(mid, root, cfg, e.rel, dir, e.names, oracle);
      var r := RunNames(mid, root, cfg, e.rel, dir, e.names, oracle);
      assert r == RunDirs(st, root, cfg, walk, oracle);
      assert prev.fs + Prefixes(dir) == mid.fs <= r.fs;
      MirrorsInAppend(OutputRoot(root), walk, prev.fs, r.fs);
    }
  }

  /** After a run, the output root and the mirror of every walked directory exist, whether or
      not the directory held any media. */
  lemma MirrorsExist(root: string, cfg: Config, walk: Walk, fs0: set<Path>, oracle: Oracle)
    ensures var r := Run(root, cfg, walk, fs0, oracle);
            && Prefixes([OutputRoot(root)]) <= r.fs
            && forall i :: 0 <= i < |walk| ==> Prefixes(MirrorDir(OutputRoot(root), walk[i].rel)) <= r.fs
  {
    RunDirsMirrors(Start(root, fs0), root, cfg, walk, oracle);
  }

  // ---------------------------------------------------------------------------------------
  // Re-running

  /** The artifact paths a file leads to. */
  function FileTargets(dir: Path, name: string): set<Path> {
    var stem := Stem(name);
    match Classify(name)
    case Image => {dir + [OptImageName(stem)]}
    case Video => {dir + [OptVideoName(stem)], dir + [ResolveVideoName(stem)]}
    case Unsupported => {}
  }

  function NamesTargets(dir: Path, names: seq<string>): set<Path> {
    if names == [] then {} else NamesTargets(dir, names[..|names| - 1]) + FileTargets(dir, names[|names| - 1])
  }

  /** Every path a run over the walk makes or expects: mirrors and artifacts. */
  function Footprint(root: string, walk: Walk): set<Path> {
    if walk == [] then Prefixes([OutputRoot(root)])
    else
      var e := walk[|walk| - 1];
      var dir := MirrorDir(OutputRoot(root), e.rel);
      Footprint(root, walk[..|walk| - 1]) + Prefixes(dir) + NamesTargets(dir, e.names)
  }

  lemma FileCovers(st: State, root: string, cfg: Config, rel: seq<string>, dir: Path, name: string,
                   oracle: Oracle)
    requires AllSucceed(oracle)
    ensures st.fs + FileTargets(dir, name) <= FileStep(st, root, cfg, rel, dir, name, oracle).fs
  {
    var src := [root] + rel + [name];
    var stem := Stem(name);
    if Classify(name) == Image {
      var dst := dir + [OptImageName(stem)];
      assert oracle(|st.log|, SaveJpeg(src, dst, cfg.quality)) == Succeeded;
    } else if Classify(name) == Video {
      var opt := dir + [OptVideoName(stem)];
      var c1 := Transcode(src, opt, CompressParams(cfg));
      assert oracle(|st.log|, c1) == Succeeded;
      var s1 := CompressStep(st, src, opt, cfg, oracle);
      var res := dir + [ResolveVideoName(stem)];
      assert oracle(|s1.log|, Transcode(opt, res, ResolveParams)) == Succeeded;
    }
  }

  lemma {:induction false} RunNamesCovers(st: State, root: string, cfg: Config, rel: seq<string>, dir: Path,
                                          names: seq<string>, oracle: Oracle)
    requires AllSucceed(oracle)
    ensures st.fs + NamesTargets(dir, names) <= RunNames(st, root, cfg, rel, dir, names, oracle).fs
  {
    if names != [] {
      var prev := RunNames(st, root, cfg, rel, dir, names[..|names| - 1], oracle);
      RunNamesCovers(st, root, cfg, rel, dir, names[..|names| - 1], oracle);
      FileCovers(prev, root, cfg, rel, dir, names[|names| - 1], oracle);
    }
  }

  lemma {:induction false} RunDirsCovers(st: State, root: string, cfg: Config, walk: Walk, oracle: Oracle)
    requires AllSucceed(oracle)
    requires Prefixes([OutputRoot(root)]) <= st.fs
    ensures st.fs + Footprint(root, walk) <= RunDirs(st, root, cfg, walk, oracle).fs
  {
    if walk != [] {
      var prev := RunDirs(st, root, cfg, walk[..|walk| - 1], oracle);
      RunDirsCovers(st, root, cfg, walk[..|walk| - 1], oracle);
      var e := walk[|walk| - 1];
      var dir := MirrorDir(OutputRoot(root), e.rel);
      RunNamesCovers(MakeDirs(prev, dir), root, cfg, e.rel, dir, e.names, oracle);
    }
  }

  lemma FileQuiet(st: State, root: string, cfg: Config, rel: seq<string>, dir: Path, name: string,
                  oracle: Oracle)
    requires FileTargets(dir, name) <= st.fs && NoCalls(st.log)
    ensures var r := FileStep(st, root, cfg, rel, dir, name, oracle);
            r.fs == st.fs && NoCalls(r.log)
  {
  }

  lemma {:induction false} RunNamesQuiet(st: State, root: string, cfg: Config, rel: seq<string>, dir: Path,
                                         names: seq<string>, oracle: Oracle)
    requires NamesTargets(dir, names) <= st.fs && NoCalls(st.log)
    ensures var r := RunNames(st, root, cfg, rel, dir, names, oracle);
            r.fs == st.fs && NoCalls(r.log)
  {
    if names != [] {
      var prev := RunNames(st, root, cfg, rel, dir, names[..|names| - 1], oracle);
      RunNamesQuiet(st, root, cfg, rel, dir, names[..|names| - 1], oracle);
      FileQuiet(prev, root, cfg, rel, dir, names[|names| - 1], oracle);
    }
  }

  lemma {:induction false} RunDirsQuiet(st: State, root: string, cfg: Config, walk: Walk, oracle: Oracle)
    requires Footprint(root, walk) <= st.fs && NoCalls(st.log)
    ensures var r := RunDirs(st, root, cfg, walk, oracle);
            r.fs == st.fs && NoCalls(r.log)
  {
    if walk != [] {
      var prev := RunDirs(st, root, cfg, walk[..|walk| - 1], oracle);
      RunDirsQuiet(st, root, cfg, walk[..|walk| - 1], oracle);
      var e := walk[|walk| - 1];
      var dir := MirrorDir(OutputRoot(root), e.rel);
      var atDir := MakeDirs(prev, dir);
      assert atDir.fs == prev.fs;
      RunNamesQuiet(atDir, root, cfg, e.rel, dir, e.names, oracle);
    }
  }

  /** After a run in which every call succeeded, running again over the same walk with any
      outcome for external calls makes no save and no ffmpeg call and changes no path. */
  lemma RerunIsQuiet(root: string, cfg: Config, walk: Walk, fs0: set<Path>, ok: Oracle, any: Oracle)
    requires AllSucceed(ok)
    ensures var first := Run(root, cfg, walk, fs0, ok);
            var second := Run(root, cfg, walk, first.fs, any);
            second.fs == first.fs && NoCalls(second.log)
  {
    var first := Run(root, cfg, walk, fs0, ok);
    RunDirsCovers(Start(root, fs0), root, cfg, walk, ok);
    var st2 := Start(root, first.fs);
    assert st2.fs == first.fs;
    RunDirsQuiet(st2, root, cfg, walk, any);
  }
}
