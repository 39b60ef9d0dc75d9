/** compresores/optimizer.py, `optimizar_archivos`: mirror every walked directory, compress
    images to `{stem}_opt.jpeg` and videos to `{stem}_opt.mp4` (one stage only), skipping every
    artifact whose path exists. */
module Optimizer {
  import opened Base
  import opened Paths
  import opened Effects
  import opened Media

  // ---------------------------------------------------------------------------------------
  // Specification: the walk as a fold of per-file steps

  /** One pass of the inner loop: file `name` of walked directory `rel`, mirrored at `dir`. */
  function FileStep(st: State, root: string, cfg: Config, rel: seq<string>, dir: Path, name: string,
                    oracle: Oracle): State
  {
    var src := [root] + rel + [name];
    var stem := Stem(name);
    match Classify(name)
    case Image => ImageStep(st, src, dir + [OptImageName(stem)], cfg.quality, oracle)
    case Video => CompressStep(st, src, dir + [OptVideoName(stem)], cfg, oracle)
    case Unsupported => st
  }

  function RunNames(st: State, root: string, cfg: Config, rel: seq<string>, dir: Path,
                    names: seq<string>, oracle: Oracle): State
  {
    if names == [] then st
    else FileStep(RunNames(st, root, cfg, rel, dir, names[..|names| - 1], oracle),
                  root, cfg, rel, dir, names[|names| - 1], oracle)
  }

  /** One pass of the outer loop: make the mirror, then process the directory's files. */
  function DirStep(st: State, root: string, cfg: Config, e: DirEntry, oracle: Oracle): State {
    var dir := MirrorDir(OutputRoot(root), e.rel);
    RunNames(MakeDirs(st, dir), root, cfg, e.rel, dir, e.names, oracle)
  }

  function RunDirs(st: State, root: string, cfg: Config, walk: Walk, oracle: Oracle): State {
    if walk == [] then st
    else DirStep(RunDirs(st, root, cfg, walk[..|walk| - 1], oracle), root, cfg, walk[|walk| - 1], oracle)
  }

  /** The state before the walk: the output root has been made. */
  function Start(root: string, fs0: set<Path>): State {
    MakeDirs(State(fs0, []), [OutputRoot(root)])
  }

  function Run(root: string, cfg: Config, walk: Walk, fs0: set<Path>, oracle: Oracle): State {
    RunDirs(Start(root, fs0), root, cfg, walk, oracle)
  }

  /** The image branch checks the normalised join but saves to the plain join of the mirror
      directory and the artifact name; both name the same file. */
  lemma SavePathIsCheckedPath(out: string, rel: seq<string>, stem: string)
    ensures Norm([out] + RelPath(rel) + [OptImageName(stem)]) == MirrorDir(out, rel) + [OptImageName(stem)]
  {
    ArtifactNamesAreNotDot(stem);
    NormJoin([out] + RelPath(rel), OptImageName(stem));
  }

  // ---------------------------------------------------------------------------------------
  // The script's loops

  method OptimizeFiles(root: string, cfg: Config, walk: Walk, fs0: set<Path>, oracle: Oracle)
    returns (fs: set<Path>, log: seq<Event>)
    ensures State(fs, log) == Run(root, cfg, walk, fs0, oracle)
  {
    var out := OutputRoot(root);
    fs, log := fs0 + Prefixes([out]), [MadeDirs([out])];
    for i := 0 to |walk|
      invariant State(fs, log) == RunDirs(Start(root, fs0), root, cfg, walk[..i], oracle)
    {
      var e := walk[i];
      var dest := [out] + RelPath(e.rel);  // joined, not normalised
      fs, log := fs + Prefixes(Norm(dest)), log + [MadeDirs(Norm(dest))];
      fs, log := OptimizeDir(root, cfg, e.rel, dest, e.names, fs, log, oracle);
      assert walk[..i + 1][..i] == walk[..i];
    }
    assert walk[..|walk|] == walk;
  }

  /** The inner loop over the files of walked directory `rel`, whose mirror was joined as
      `dest`. */
  method OptimizeDir(root: string, cfg: Config, rel: seq<string>, dest: Path, names: seq<string>,
                     fs0: set<Path>, log0: seq<Event>, oracle: Oracle)
    returns (fs: set<Path>, log: seq<Event>)
    ensures State(fs, log) == RunNames(State(fs0, log0), root, cfg, rel, Norm(dest), names, oracle)
  {
    fs, log := fs0, log0;
    for j := 0 to |names|
      invariant State(fs, log) == RunNames(State(fs0, log0), root, cfg, rel, Norm(dest), names[..j], oracle)
    {
      assert names[..j + 1][..j] == names[..j];
      fs, log := OptimizeFile(root, cfg, rel, dest, names[j], fs, log, oracle);
    }
    assert names[..|names|] == names;
  }

  /** The body of the inner loop for file `name` of walked directory `rel`, whose mirror was
      joined as `dest`; each `continue` of the loop is a `return` here. */
  method OptimizeFile(root: string, cfg: Config, rel: seq<string>, dest: Path, name: string,
                      fs0: set<Path>, log0: seq<Event>, oracle: Oracle)
    returns (fs: set<Path>, log: seq<Event>)
    ensures State(fs, log) == FileStep(State(fs0, log0), root, cfg, rel, Norm(dest), name, oracle)
  {
    fs, log := fs0, log0;
    var src := [root] + rel + [name];
    var stem, ext := SplitExt(name).0, Lower(SplitExt(name).1);
    ArtifactNamesAreNotDot(stem);
    if ext in ImageExts {
      var checked := Norm(dest + [OptImageName(stem)]);
      NormJoin(dest, OptImageName(stem));
      if checked in fs {
        log := log + [Skipped(OptImage, checked)];
        return;
      }
      var savePath := dest + [OptImageName(stem)];  // joined again, not normalised
      var call := SaveJpeg(src, Norm(savePath), cfg.quality);
      var o := oracle(|log|, call);
      if o.LeavesOutput() { fs := fs + {call.dst}; }
      log := log + [Ran(OptImage, call, o)];
    } else if ext in VideoExts {
      var opt := Norm(dest + [OptVideoName(stem)]);
      NormJoin(dest, OptVideoName(stem));
      if opt in fs {
        log := log + [Skipped(OptVideo, opt)];
        return;
      }
      var call := Transcode(src, opt, CompressParams(cfg));
      var o := oracle(|log|, call);
      if o.LeavesOutput() { fs := fs + {opt}; }
      log := log + [Ran(OptVideo, call, o)];
    }
  }

  // ---------------------------------------------------------------------------------------
  // One file

  /** An image adds exactly one event, about `{stem}_opt.jpeg` in the mirror directory: a skip
      when that path exists (and nothing is written), otherwise one save to it from the source
      at the configured quality; only that path can appear. */
  lemma ImageFile(st: State, root: string, cfg: Config, rel: seq<string>, dir: Path, name: string,
                  oracle: Oracle)
    requires Classify(name) == Image
    ensures var r := FileStep(st, root, cfg, rel, dir, name, oracle);
            var dst := dir + [OptImageName(Stem(name))];
            var call := SaveJpeg([root] + rel + [name], dst, cfg.quality);
            && |r.log| == |st.log| + 1 && r.log[..|st.log|] == st.log
            && (dst in st.fs ==> r.fs == st.fs && r.log[|st.log|] == Skipped(OptImage, dst))
            && (dst !in st.fs ==> r.log[|st.log|] == Ran(OptImage, call, oracle(|st.log|, call)))
            && st.fs <= r.fs <= st.fs + {dst}
  {
  }

  /** A video adds exactly one event, about `{stem}_opt.mp4`: a skip when that path exists,
      otherwise one ffmpeg run from the source with the configured parameters. There is no
      second stage, whatever the outcome. */
  lemma VideoFile(st: State, root: string, cfg: Config, rel: seq<string>, dir: Path, name: string,
                  oracle: Oracle)
    requires Classify(name) == Video
    ensures var r := FileStep(st, root, cfg, rel, dir, name, oracle);
            var opt := dir + [OptVideoName(Stem(name))];
            var call := Transcode([root] + rel + [name], opt, CompressParams(cfg));
            && |r.log| == |st.log| + 1 && r.log[..|st.log|] == st.log
            && (opt in st.fs ==> r.fs == st.fs && r.log[|st.log|] == Skipped(OptVideo, opt))
            && (opt !in st.fs ==> r.log[|st.log|] == Ran(OptVideo, call, oracle(|st.log|, call)))
            && st.fs <= r.fs <= st.fs + {opt}
  {
  }

  /** An unsupported extension does nothing at all. */
  lemma UnsupportedFileIsIgnored(st: State, root: string, cfg: Config, rel: seq<string>, dir: Path,
                                 name: string, oracle: Oracle)
    requires Classify(name) == Unsupported
    ensures FileStep(st, root, cfg, rel, dir, name, oracle) == st
  {
  }

  // ---------------------------------------------------------------------------------------
  // What every log of a run satisfies

  /** Every call uses the run's configuration and is a first-stage call: saves at the
      configured quality, ffmpeg with the configured codec, crf and preset; no Resolve
      conversion and no `_R` artifact ever appears. */
  predicate SingleStage(log: seq<Event>, cfg: Config) {
    forall i :: 0 <= i < |log| ==>
      match log[i]
      case MadeDirs(_) => true
      case Skipped(kind, _) => kind == OptImage || kind == OptVideo
      case Ran(kind, call, _) =>
        || (kind == OptImage && call.SaveJpeg? && call.quality == cfg.quality)
        || (kind == OptVideo && call.Transcode? && call.params == CompressParams(cfg))
  }

  lemma FileStepSingleStage(st: State, root: string, cfg: Config, rel: seq<string>, dir: Path,
                            name: string, oracle: Oracle)
    requires SingleStage(st.log, cfg)
    ensures SingleStage(FileStep(st, root, cfg, rel, dir, name, oracle).log, cfg)
  {
  }

  lemma {:induction false} RunNamesSingleStage(st: State, root: string, cfg: Config, rel: seq<string>,
                                               dir: Path, names: seq<string>, oracle: Oracle)
    requires SingleStage(st.log, cfg)
    ensures SingleStage(RunNames(st, root, cfg, rel, dir, names, oracle).log, cfg)
  {
    if names != [] {
      RunNamesSingleStage(st, root, cfg, rel, dir, names[..|names| - 1], oracle);
      FileStepSingleStage(RunNames(st, root, cfg, rel, dir, names[..|names| - 1], oracle), root, cfg,
                          rel, dir, names[|names| - 1], oracle);
    }
  }

  lemma {:induction false} RunDirsSingleStage(st: State, root: string, cfg: Config, walk: Walk,
                                              oracle: Oracle)
    requires SingleStage(st.log, cfg)
    ensures SingleStage(RunDirs(st, root, cfg, walk, oracle).log, cfg)
  {
    if walk != [] {
      var prev := RunDirs(st, root, cfg, walk[..|walk| - 1], oracle);
      RunDirsSingleStage(st, root, cfg, walk[..|walk| - 1], oracle);
      var e := walk[|walk| - 1];
      var dir := MirrorDir(OutputRoot(root), e.rel);
      RunNamesSingleStage(MakeDirs(prev, dir), root, cfg, e.rel, dir, e.names, oracle);
    }
  }

  /** Whatever the external calls do, every call of a run uses the configuration and none is a
      second-stage conversion. */
  lemma RunIsSingleStage(root: string, cfg: Config, walk: Walk, fs0: set<Path>, oracle: Oracle)
    ensures SingleStage(Run(root, cfg, walk, fs0, oracle).log, cfg)
  {
    RunDirsSingleStage(Start(root, fs0), root, cfg, walk, oracle);
  }

  // ---------------------------------------------------------------------------------------
  // Fault isolation: every supported file is reached

  lemma FileAttempts(st: State, root: string, cfg: Config, rel: seq<string>, dir: Path, name: string,
                     oracle: Oracle)
    ensures Attempts(FileStep(st, root, cfg, rel, dir, name, oracle).log)
              == Attempts(st.log) + (if Classify(name) != Unsupported then 1 else 0)
  {
    var r := FileStep(st, root, cfg, rel, dir, name, oracle);
    if Classify(name) != Unsupported {
      AttemptsOne(st.log, r.log[|st.log|]);
      assert r.log == st.log + [r.log[|st.log|]];
    }
  }

  lemma {:induction false} RunNamesAttempts(st: State, root: string, cfg: Config, rel: seq<string>, dir: Path,
                                            names: seq<string>, oracle: Oracle)
    ensures Attempts(RunNames(st, root, cfg, rel, dir, names, oracle).log) == Attempts(st.log) + SupportedIn(names)
  {
    if names != [] {
      RunNamesAttempts(st, root, cfg, rel, dir, names[..|names| - 1], oracle);
      FileAttempts(RunNames(st, root, cfg, rel, dir, names[..|names| - 1], oracle), root, cfg, rel, dir,
                   names[|names| - 1], oracle);
    }
  }

  lemma {:induction false} RunDirsAttempts(st: State, root: string, cfg: Config, walk: Walk, oracle: Oracle)
    ensures Attempts(RunDirs(st, root, cfg, walk, oracle).log) == Attempts(st.log) + SupportedCount(walk)
  {
    if walk != [] {
      var prev := RunDirs(st, root, cfg, walk[..|walk| - 1], oracle);
      RunDirsAttempts(st, root, cfg, walk[..|walk| - 1], oracle);
      var e := walk[|walk| - 1];
      var dir := MirrorDir(OutputRoot(root), e.rel);
      AttemptsOne(prev.log, MadeDirs(dir));
      RunNamesAttempts(MakeDirs(prev, dir), root, cfg, e.rel, dir, e.names, oracle);
    }
  }

  /** Whatever the external calls do, a run reaches every image and video of the walk: it logs
      exactly one event (skip, written or error) per supported file. */
  lemma EveryFileIsReached(root: string, cfg: Config, walk: Walk, fs0: set<Path>, oracle: Oracle)
    ensures Attempts(Run(root, cfg, walk, fs0, oracle).log) == SupportedCount(walk)
  {
    AttemptsOne([], MadeDirs([OutputRoot(root)]));
    RunDirsAttempts(Start(root, fs0), root, cfg, walk, oracle);
  }

  // ---------------------------------------------------------------------------------------
  // Mirror directories

  lemma {:induction false} RunNamesGrows(st: State, root: string, cfg: Config, rel: seq<string>, dir: Path,
                                         names: seq<string>, oracle: Oracle)
    ensures st.fs <= RunNames(st, root, cfg, rel, dir, names, oracle).fs
  {
    if names != [] {
      RunNamesGrows(st, root, cfg, rel, dir, names[..|names| - 1], oracle);
    }
  }

  lemma {:induction false} RunDirsMirrors(st: State, root: string, cfg: Config, walk: Walk, oracle: Oracle)
    ensures var r := RunDirs(st, root, cfg, walk, oracle); st.fs <= r.fs && MirrorsIn(OutputRoot(root), walk, r.fs)
  {
    if walk != [] {
      var init := walk[..|walk| - 1];
      var prev := RunDirs(st, root, cfg, init, oracle);
      RunDirsMirrors(st, root, cfg, init, oracle);
      var e := walk[|walk| - 1];
      var dir := MirrorDir(OutputRoot(root), e.rel);
      var mid := MakeDirs(prev, dir);
      RunNamesGrows(mid, root, cfg, e.rel, dir, e.names, oracle);
      var r := RunNames(mid, root, cfg, e.rel, dir, e.names, oracle);
      assert r == RunDirs(st, root, cfg, walk, oracle);
      assert prev.fs + Prefixes(dir) == mid.fs <= r.fs;
      MirrorsInAppend(OutputRoot(root), walk, prev.fs, r.fs);
    }
  }

  /** After a run, the output root and the mirror of every walked directory exist, whether or
      not the directory held any media. */
  lemma MirrorsExist(root: string, cfg: Config, walk: Walk, fs0: set<Path>, oracle: Oracle)
    ensures var r := Run(root, cfg, walk, fs0, oracle);
            && Prefixes([OutputRoot(root)]) <= r.fs
            && forall i :: 0 <= i < |walk| ==> Prefixes(MirrorDir(OutputRoot(root), walk[i].rel)) <= r.fs
  {
    RunDirsMirrors(Start(root, fs0), root, cfg, walk, oracle);
  }

  // ---------------------------------------------------------------------------------------
  // Re-running

  /** The artifact path a file leads to. */
  function FileTargets(dir: Path, name: string): set<Path> {
    var stem := Stem(name);
    match Classify(name)
    case Image => {dir + [OptImageName(stem)]}
    case Video => {dir + [OptVideoName(stem)]}
    case Unsupported => {}
  }

  function NamesTargets(dir: Path, names: seq<string>): set<Path> {
    if names == [] then {} else NamesTargets(dir, names[..|names| - 1]) + FileTargets(dir, names[|names| - 1])
  }

  /** Every path a run over the walk makes or expects: mirrors and artifacts. */
  function Footprint(root: string, walk: Walk): set<Path> {
    if walk == [] then Prefixes([OutputRoot(root)])
    else
      var e := walk[|walk| - 1];
      var dir := MirrorDir(OutputRoot(root), e.rel);
      Footprint(root, walk[..|walk| - 1]) + Prefixes(dir) + NamesTargets(dir, e.names)
  }

  lemma FileCovers(st: State, root: string, cfg: Config, rel: seq<string>, dir: Path, name: string,
                   oracle: Oracle)
    requires AllSucceed(oracle)
    ensures st.fs + FileTargets(dir, name) <= FileStep(st, root, cfg, rel, dir, name, oracle).fs
  {
    var src := [root] + rel + [name];
    var stem := Stem(name);
    if Classify(name) == Image {
      assert oracle(|st.log|, SaveJpeg(src, dir + [OptImageName(stem)], cfg.quality)) == Succeeded;
    } else if Classify(name) == Video {
      assert oracle(|st.log|, Transcode(src, dir + [OptVideoName(stem)], CompressParams(cfg))) == Succeeded;
    }
  }

  lemma {:induction false} RunNamesCovers(st: State, root: string, cfg: Config, rel: seq<string>, dir: Path,
                                          names: seq<string>, oracle: Oracle)
    requires AllSucceed(oracle)
    ensures st.fs + NamesTargets(dir, names) <= RunNames(st, root, cfg, rel, dir, names, oracle).fs
  {
    if names != [] {
      var prev := RunNames(st, root, cfg, rel, dir, names[..|names| - 1], oracle);
      RunNamesCovers(st, root, cfg, rel, dir, names[..|names| - 1], oracle);
      FileCovers(prev, root, cfg, rel, dir, names[|names| - 1], oracle);
    }
  }

  lemma {:induction false} RunDirsCovers(st: State, root: string, cfg: Config, walk: Walk, oracle: Oracle)
    requires AllSucceed(oracle)
    requires Prefixes([OutputRoot(root)]) <= st.fs
    ensures st.fs + Footprint(root, walk) <= RunDirs(st, root, cfg, walk, oracle).fs
  {
    if walk != [] {
      var prev := RunDirs(st, root, cfg, walk[..|walk| - 1], oracle);
      RunDirsCovers(st, root, cfg, walk[..|walk| - 1], oracle);
      var e := walk[|walk| - 1];
      var dir := MirrorDir(OutputRoot(root), e.rel);
      RunNamesCovers(MakeDirs(prev, dir), root, cfg, e.rel, dir, e.names, oracle);
    }
  }

  lemma {:induction false} RunNamesQuiet(st: State, root: string, cfg: Config, rel: seq<string>, dir: Path,
                                         names: seq<string>, oracle: Oracle)
    requires NamesTargets(dir, names) <= st.fs && NoCalls(st.log)
    ensures var r := RunNames(st, root, cfg, rel, dir, names, oracle);
            r.fs == st.fs && NoCalls(r.log)
  {
    if names != [] {
      RunNamesQuiet(st, root, cfg, rel, dir, names[..|names| - 1], oracle);
    }
  }

  lemma {:induction false} RunDirsQuiet(st: State, root: string, cfg: Config, walk: Walk, oracle: Oracle)
    requires Footprint(root, walk) <= st.fs && NoCalls(st.log)
    ensures var r := RunDirs(st, root, cfg, walk, oracle);
            r.fs == st.fs && NoCalls(r.log)
  {
    if walk != [] {
      var prev := RunDirs(st, root, cfg, walk[..|walk| - 1], oracle);
      RunDirsQuiet(st, root, cfg, walk[..|walk| - 1], oracle);
      var e := walk[|walk| - 1];
      var dir := MirrorDir(OutputRoot(root), e.rel);
      var atDir := MakeDirs(prev, dir);
      assert atDir.fs == prev.fs;
      RunNamesQuiet(atDir, root, cfg, e.rel, dir, e.names, oracle);
    }
  }

  /** After a run in which every call succeeded, running again over the same walk with any
      outcome for external calls makes no save and no ffmpeg call and changes no path. */
  lemma RerunIsQuiet(root: string, cfg: Config, walk: Walk, fs0: set<Path>, ok: Oracle, any: Oracle)
    requires AllSucceed(ok)
    ensures var first := Run(root, cfg, walk, fs0, ok);
            var second := Run(root, cfg, walk, first.fs, any);
            second.fs == first.fs && NoCalls(second.log)
  {
    var first := Run(root, cfg, walk, fs0, ok);
    RunDirsCovers(Start(root, fs0), root, cfg, walk, ok);
    var st2 := Start(root, first.fs);
    assert st2.fs == first.fs;
    RunDirsQuiet(st2, root, cfg, walk, any);
  }
}
