/** compresores/optimizer-3-hilos.py: `optimizar_archivos_parallel` makes every mirror directory
    while it lists one task per walked file, picks a worker count, and hands the tasks to a
    thread pool; `procesar_archivo` is the per-file skip-and-convert logic under a single `try`.
    Tasks run here one after the other, in list order. */
module OptimizerThreads {
  import opened Base
  import opened Paths
  import opened Effects
  import opened Media
  import Davinci = OptimizerDavinci

  /** The argument tuple of one `procesar_archivo` call. `dest` is the mirror directory as
      joined, before any normalisation. */
  datatype Task = Task(src: Path, dest: Path, quality: int, vcodec: string, crf: int, preset: string)

  function TaskConfig(t: Task): Config {
    Config(t.quality, t.vcodec, t.crf, t.preset)
  }

  /** `os.path.basename`. */
  function Basename(p: Path): string {
    if p == [] then "" else p[|p| - 1]
  }

  // ---------------------------------------------------------------------------------------
  // procesar_archivo

  /** One task, as the OS resolves its joined paths. A stage-1 failure raises out of the single
      `try`, so stage 2 is not reached. */
  function TaskStep(st: State, t: Task, oracle: Oracle): State {
    var name := Basename(t.src);
    var stem := Stem(name);
    var cfg := TaskConfig(t);
    match Classify(name)
    case Image => ImageStep(st, t.src, Norm(t.dest + [OptImageName(stem)]), t.quality, oracle)
    case Video =>
      var opt := Norm(t.dest + [OptVideoName(stem)]);
      var c1 := Transcode(t.src, opt, CompressParams(cfg));
      if opt !in st.fs && oracle(|st.log|, c1).Failed? then Exec(st, OptVideo, c1, oracle)
      else ResolveStep(CompressStep(st, t.src, opt, cfg, oracle), ResolveVideo, opt,
                       Norm(t.dest + [ResolveVideoName(stem)]), oracle)
    case Unsupported => st
  }

  method ProcessTask(t: Task, fs0: set<Path>, log0: seq<Event>, oracle: Oracle)
    returns (fs: set<Path>, log: seq<Event>)
    ensures State(fs, log) == TaskStep(State(fs0, log0), t, oracle)
  {
    fs, log := fs0, log0;
    var name := Basename(t.src);
    var stem, ext := SplitExt(name).0, Lower(SplitExt(name).1);
    if ext in ImageExts {
      var dst := Norm(t.dest + [OptImageName(stem)]);
      if dst in fs {
        log := log + [Skipped(OptImage, dst)];
        return;
      }
      var call := SaveJpeg(t.src, dst, t.quality);
      var o := oracle(|log|, call);
      if o.LeavesOutput() { fs := fs + {dst}; }
      log := log + [Ran(OptImage, call, o)];
    } else if ext in VideoExts {
      var opt := Norm(t.dest + [OptVideoName(stem)]);
      if opt !in fs {
        var call := Transcode(t.src, opt, CompressParams(TaskConfig(t)));
        var o := oracle(|log|, call);
        if o.LeavesOutput() { fs := fs + {opt}; }
        log := log + [Ran(OptVideo, call, o)];
        if o.Failed? { return; }  // the exception leaves the try; the handler logs it
      } else {
        log := log + [Skipped(OptVideo, opt)];
      }
      var res := Norm(t.dest + [ResolveVideoName(stem)]);
      if res !in fs {
        var call := Transcode(opt, res, ResolveParams);
        var o := oracle(|log|, call);
        if o.LeavesOutput() { fs := fs + {res}; }
        log := log + [Ran(ResolveVideo, call, o)];
      } else {
        log := log + [Skipped(ResolveVideo, res)];
      }
    }
  }

  // ---------------------------------------------------------------------------------------
  // optimizar_archivos_parallel

  /** The task `optimizar_archivos_parallel` lists for file `name` of walked directory `rel`. */
  function MakeTask(root: string, cfg: Config, rel: seq<string>, name: string): Task {
    Task([root] + rel + [name], [OutputRoot(root)] + RelPath(rel), cfg.quality, cfg.vcodec, cfg.crf, cfg.preset)
  }

  function DirTasks(root: string, cfg: Config, rel: seq<string>, names: seq<string>): seq<Task> {
    if names == [] then []
    else DirTasks(root, cfg, rel, names[..|names| - 1]) + [MakeTask(root, cfg, rel, names[|names| - 1])]
  }

  /** The task list, in walk order. */
  function Plan(root: string, cfg: Config, walk: Walk): seq<Task> {
    if walk == [] then []
    else Plan(root, cfg, walk[..|walk| - 1]) + DirTasks(root, cfg, walk[|walk| - 1].rel, walk[|walk| - 1].names)
  }

  /** The mirror directories made while the task list is built. */
  function MakeMirrors(st: State, root: string, walk: Walk): State {
    if walk == [] then st
    else MakeDirs(MakeMirrors(st, root, walk[..|walk| - 1]), MirrorDir(OutputRoot(root), walk[|walk| - 1].rel))
  }

  function TasksRun(st: State, tasks: seq<Task>, oracle: Oracle): State {
    if tasks == [] then st else TaskStep(TasksRun(st, tasks[..|tasks| - 1], oracle), tasks[|tasks| - 1], oracle)
  }

  /** `max(1, os.cpu_count() // 2)`; `None` when `os.cpu_count()` is unknown, where the floor
      division raises a TypeError. */
  function WorkerCount(cpus: Option<nat>): (r: Option<nat>)
    ensures r.Some? <==> cpus.Some?
    ensures r.Some? ==> r.value >= 1 && 2 * r.value >= cpus.value - 1
    ensures r.Some? && cpus.value >= 2 ==> 2 * r.value <= cpus.value
    ensures r.Some? && cpus.value < 2 ==> r.value == 1
  {
    match cpus
    case None => None
    case Some(n) => Some(if n / 2 < 1 then 1 else n / 2)
  }

  /** The whole script: mirrors and task list first, then, when a worker count exists, every
      task. An unknown processor count stops the script after the mirrors are made. */
  function ParallelRun(root: string, cfg: Config, walk: Walk, fs0: set<Path>, cpus: Option<nat>,
                       oracle: Oracle): State
  {
    var m := MakeMirrors(Davinci.Start(root, fs0), root, walk);
    if WorkerCount(cpus).None? then m else TasksRun(m, Plan(root, cfg, walk), oracle)
  }

  /** The tasks of one walked directory, appended name by name. */
  method BuildDirTasks(root: string, cfg: Config, rel: seq<string>, dest: Path, names: seq<string>)
    returns (tasks: seq<Task>)
    requires dest == [OutputRoot(root)] + RelPath(rel)
    ensures tasks == DirTasks(root, cfg, rel, names)
  {
    tasks := [];
    for j := 0 to |names|
      invariant tasks == DirTasks(root, cfg, rel, names[..j])
    {
      assert names[..j + 1][..j] == names[..j];
      tasks := tasks + [Task([root] + rel + [names[j]], dest, cfg.quality, cfg.vcodec, cfg.crf, cfg.preset)];
    }
    assert names[..|names|] == names;
  }

  method BuildTasks(root: string, cfg: Config, walk: Walk, fs0: set<Path>)
    returns (fs: set<Path>, log: seq<Event>, tasks: seq<Task>)
    ensures State(fs, log) == MakeMirrors(Davinci.Start(root, fs0), root, walk)
    ensures tasks == Plan(root, cfg, walk)
  {
    var out := OutputRoot(root);
    fs, log := fs0 + Prefixes([out]), [MadeDirs([out])];
    tasks := [];
    for i := 0 to |walk|
      invariant State(fs, log) == MakeMirrors(Davinci.Start(root, fs0), root, walk[..i])
      invariant tasks == Plan(root, cfg, walk[..i])
    {
      var e := walk[i];
      var dest := [out] + RelPath(e.rel);
      fs, log := fs + Prefixes(Norm(dest)), log + [MadeDirs(Norm(dest))];
      var dirTasks := BuildDirTasks(root, cfg, e.rel, dest, e.names);
      tasks := tasks + dirTasks;
      assert walk[..i + 1][..i] == walk[..i];
    }
    assert walk[..|walk|] == walk;
  }

  method RunTasks(tasks: seq<Task>, fs0: set<Path>, log0: seq<Event>, oracle: Oracle)
    returns (fs: set<Path>, log: seq<Event>)
    ensures State(fs, log) == TasksRun(State(fs0, log0), tasks, oracle)
  {
    fs, log := fs0, log0;
    for i := 0 to |tasks|
      invariant State(fs, log) == TasksRun(State(fs0, log0), tasks[..i], oracle)
    {
      assert tasks[..i + 1][..i] == tasks[..i];
      fs, log := ProcessTask(tasks[i], fs, log, oracle);
    }
    assert tasks[..|tasks|] == tasks;
  }

  method OptimizeParallel(root: string, cfg: Config, walk: Walk, fs0: set<Path>, cpus: Option<nat>,
                          oracle: Oracle)
    returns (fs: set<Path>, log: seq<Event>)
    ensures State(fs, log) == ParallelRun(root, cfg, walk, fs0, cpus, oracle)
  {
    var tasks;
    fs, log, tasks := BuildTasks(root, cfg, walk, fs0);
    var workers := WorkerCount(cpus);
    if workers.None? {
      return;  // TypeError before the pool starts
    }
    fs, log := RunTasks(tasks, fs, log, oracle);
  }

  // ---------------------------------------------------------------------------------------
  // The task list

  lemma {:induction false} DirTasksShape(root: string, cfg: Config, rel: seq<string>, names: seq<string>)
    ensures var ts := DirTasks(root, cfg, rel, names);
            && |ts| == |names|
            && forall k :: 0 <= k < |ts| ==> ts[k] == MakeTask(root, cfg, rel, names[k])
  {
    if names != [] {
      DirTasksShape(root, cfg, rel, names[..|names| - 1]);
    }
  }

  /** Every walked file, supported or not, becomes exactly one task: the list is as long as
      the walk has files, holds the task of every walked file, and every task carries the
      run's quality, codec, crf and preset. */
  lemma {:induction false} PlanShape(root: string, cfg: Config, walk: Walk)
    ensures var p := Plan(root, cfg, walk);
            && |p| == NameCount(walk)
            && (forall k :: 0 <= k < |p| ==> TaskConfig(p[k]) == cfg)
            && forall i, j :: 0 <= i < |walk| && 0 <= j < |walk[i].names| ==>
                 MakeTask(root, cfg, walk[i].rel, walk[i].names[j]) in p
  {
    if walk != [] {
      var init := walk[..|walk| - 1];
      var e := walk[|walk| - 1];
      PlanShape(root, cfg, init);
      DirTasksShape(root, cfg, e.rel, e.names);
      var p := Plan(root, cfg, walk);
      var ts := DirTasks(root, cfg, e.rel, e.names);
      assert p == Plan(root, cfg, init) + ts;
      forall i, j | 0 <= i < |walk| && 0 <= j < |walk[i].names|
        ensures MakeTask(root, cfg, walk[i].rel, walk[i].names[j]) in p
      {
        if i < |init| {
          assert walk[i] == init[i];
        } else {
          assert ts[j] in p;
        }
      }
    }
  }

  // ---------------------------------------------------------------------------------------
  // Mirrors before tasks

  /** The directories of the walk's mirrors, the output root excluded. */
  function MirrorSet(root: string, walk: Walk): set<Path> {
    if walk == [] then {}
    else MirrorSet(root, walk[..|walk| - 1]) + Prefixes(MirrorDir(OutputRoot(root), walk[|walk| - 1].rel))
  }

  lemma {:induction false} MakeMirrorsFs(st: State, root: string, walk: Walk)
    ensures var m := MakeMirrors(st, root, walk);
            && m.fs == st.fs + MirrorSet(root, walk)
            && forall i :: 0 <= i < |walk| ==> Prefixes(MirrorDir(OutputRoot(root), walk[i].rel)) <= m.fs
  {
    if walk != [] {
      var init := walk[..|walk| - 1];
      MakeMirrorsFs(st, root, init);
      assert forall i :: 0 <= i < |init| ==> walk[i] == init[i];
    }
  }

  lemma {:induction false} MakeMirrorsLog(st: State, root: string, walk: Walk)
    ensures var m := MakeMirrors(st, root, walk);
            && |m.log| == |st.log| + |walk| && m.log[..|st.log|] == st.log
            && (NoCalls(st.log) ==> NoCalls(m.log))
            && Attempts(m.log) == Attempts(st.log)
  {
    if walk != [] {
      var init := walk[..|walk| - 1];
      var prev := MakeMirrors(st, root, init);
      MakeMirrorsLog(st, root, init);
      var dir := MirrorDir(OutputRoot(root), walk[|walk| - 1].rel);
      AttemptsOne(prev.log, MadeDirs(dir));
      var m := MakeMirrors(st, root, walk);
      assert m.log == prev.log + [MadeDirs(dir)];
      assert m.log[..|prev.log|] == prev.log;
      assert m.log[..|st.log|] == prev.log[..|st.log|];
    }
  }

  lemma MakeMirrorsEffect(st: State, root: string, walk: Walk)
    ensures var m := MakeMirrors(st, root, walk);
            && m.fs == st.fs + MirrorSet(root, walk)
            && |m.log| == |st.log| + |walk| && m.log[..|st.log|] == st.log
            && (NoCalls(st.log) ==> NoCalls(m.log))
            && Attempts(m.log) == Attempts(st.log)
            && forall i :: 0 <= i < |walk| ==> Prefixes(MirrorDir(OutputRoot(root), walk[i].rel)) <= m.fs
  {
    MakeMirrorsFs(st, root, walk);
    MakeMirrorsLog(st, root, walk);
  }

  lemma {:induction false} TasksRunGrows(st: State, tasks: seq<Task>, oracle: Oracle)
    ensures var r := TasksRun(st, tasks, oracle);
            st.fs <= r.fs && |st.log| <= |r.log| && r.log[..|st.log|] == st.log
  {
    if tasks != [] {
      var prev := TasksRun(st, tasks[..|tasks| - 1], oracle);
      TasksRunGrows(st, tasks[..|tasks| - 1], oracle);
      var t := tasks[|tasks| - 1];
      TaskIsFileStepAt(prev, t, oracle);
      Davinci.FileStepAtGrows(prev, TaskConfig(t), t.src, Norm(t.dest), Basename(t.src), oracle);
      var r := TasksRun(st, tasks, oracle);
      assert r.log[..|prev.log|] == prev.log;
      assert r.log[..|st.log|] == prev.log[..|st.log|];
    }
  }

  /** Every mirror directory, and only mirror directories, exist before the first task runs:
      the run's log starts with one directory event per walked directory (after the output
      root) and no call, and every mirror is in place at that point. */
  lemma MirrorsBeforeTasks(root: string, cfg: Config, walk: Walk, fs0: set<Path>, cpus: Option<nat>,
                           oracle: Oracle)
    ensures var m := MakeMirrors(Davinci.Start(root, fs0), root, walk);
            var r := ParallelRun(root, cfg, walk, fs0, cpus, oracle);
            && m.fs == fs0 + Prefixes([OutputRoot(root)]) + MirrorSet(root, walk)
            && |m.log| == |walk| + 1 && NoCalls(m.log)
            && (forall i :: 0 <= i < |walk| ==> Prefixes(MirrorDir(OutputRoot(root), walk[i].rel)) <= m.fs)
            && |m.log| <= |r.log| && r.log[..|m.log|] == m.log
  {
    var st := Davinci.Start(root, fs0);
    MakeMirrorsEffect(st, root, walk);
    var m := MakeMirrors(st, root, walk);
    TasksRunGrows(m, Plan(root, cfg, walk), oracle);
  }

  // ---------------------------------------------------------------------------------------
  // procesar_archivo behaves as the sequential loop's file step

  /** A task whose joined mirror directory resolves to `dir` does what one pass of the
      two-stage sequential loop does for that file in `dir`. */
  lemma TaskIsFileStepAt(st: State, t: Task, oracle: Oracle)
    ensures TaskStep(st, t, oracle)
              == Davinci.FileStepAt(st, TaskConfig(t), t.src, Norm(t.dest), Basename(t.src), oracle)
  {
    var stem := Stem(Basename(t.src));
    ArtifactNamesAreNotDot(stem);
    NormJoin(t.dest, OptImageName(stem));
    NormJoin(t.dest, OptVideoName(stem));
    NormJoin(t.dest, ResolveVideoName(stem));
  }

  /** The task of a walked file does exactly what one pass of the two-stage sequential loop
      does for that file, so every per-file property of that loop holds for tasks: nothing
      for an unsupported name, one skip or one save for an image, no stage 2 after a failed
      stage 1, and stage 2 on the stage-1 path even when stage 1 was skipped. */
  lemma TaskIsFileStep(st: State, root: string, cfg: Config, rel: seq<string>, name: string,
                       oracle: Oracle)
    ensures TaskStep(st, MakeTask(root, cfg, rel, name), oracle)
              == Davinci.FileStep(st, root, cfg, rel, MirrorDir(OutputRoot(root), rel), name, oracle)
  {
    TaskIsFileStepAt(st, MakeTask(root, cfg, rel, name), oracle);
  }

  /** A stage-1 failure leaves the single `try` of the task: exactly one event is logged for
      the file, the error, and stage 2 is never attempted. */
  lemma StageOneFailureEndsTask(st: State, root: string, cfg: Config, rel: seq<string>, name: string,
                                oracle: Oracle)
    requires Classify(name) == Video
    requires var opt := MirrorDir(OutputRoot(root), rel) + [OptVideoName(Stem(name))];
             opt !in st.fs && oracle(|st.log|, Transcode([root] + rel + [name], opt, CompressParams(cfg))).Failed?
    ensures var r := TaskStep(st, MakeTask(root, cfg, rel, name), oracle);
            var opt := MirrorDir(OutputRoot(root), rel) + [OptVideoName(Stem(name))];
            var c1 := Transcode([root] + rel + [name], opt, CompressParams(cfg));
            r.log == st.log + [Ran(OptVideo, c1, oracle(|st.log|, c1))]
  {
    TaskIsFileStep(st, root, cfg, rel, name, oracle);
    Davinci.StageOneFailureStopsFile(st, root, cfg, rel, MirrorDir(OutputRoot(root), rel), name, oracle);
  }

  // ---------------------------------------------------------------------------------------
  // Running the task list directory by directory

  /** The tasks of the walk, a directory at a time, as the sequential loop's inner loop. */
  function ByDirs(st: State, root: string, cfg: Config, walk: Walk, oracle: Oracle): State {
    if walk == [] then st
    else
      var e := walk[|walk| - 1];
      Davinci.RunNames(ByDirs(st, root, cfg, walk[..|walk| - 1], oracle), root, cfg, e.rel,
                       MirrorDir(OutputRoot(root), e.rel), e.names, oracle)
  }

  lemma {:induction false} TasksRunConcat(st: State, a: seq<Task>, b: seq<Task>, oracle: Oracle)
    ensures TasksRun(st, a + b, oracle) == TasksRun(TasksRun(st, a, oracle), b, oracle)
  {
    if b == [] {
      assert a + b == a;
    } else {
      assert (a + b)[..|a + b| - 1] == a + b[..|b| - 1];
      TasksRunConcat(st, a, b[..|b| - 1], oracle);
    }
  }

  lemma {:induction false} DirTasksRun(st: State, root: string, cfg: Config, rel: seq<string>,
                                       names: seq<string>, oracle: Oracle)
    ensures TasksRun(st, DirTasks(root, cfg, rel, names), oracle)
              == Davinci.RunNames(st, root, cfg, rel, MirrorDir(OutputRoot(root), rel), names, oracle)
  {
    if names != [] {
      var init := names[..|names| - 1];
      DirTasksRun(st, root, cfg, rel, init, oracle);
      var ts := DirTasks(root, cfg, rel, init);
      TasksRunConcat(st, ts, [MakeTask(root, cfg, rel, names[|names| - 1])], oracle);
      assert [MakeTask(root, cfg, rel, names[|names| - 1])][..0] == [];
      TaskIsFileStep(TasksRun(st, ts, oracle), root, cfg, rel, names[|names| - 1], oracle);
    }
  }

  lemma {:induction false} PlanRun(st: State, root: string, cfg: Config, walk: Walk, oracle: Oracle)
    ensures TasksRun(st, Plan(root, cfg, walk), oracle) == ByDirs(st, root, cfg, walk, oracle)
  {
    if walk != [] {
      var init := walk[..|walk| - 1];
      var e := walk[|walk| - 1];
      PlanRun(st, root, cfg, init, oracle);
      TasksRunConcat(st, Plan(root, cfg, init), DirTasks(root, cfg, e.rel, e.names), oracle);
      DirTasksRun(TasksRun(st, Plan(root, cfg, init), oracle), root, cfg, e.rel, e.names, oracle);
    }
  }

  lemma {:induction false} ByDirsAttempts(st: State, root: string, cfg: Config, walk: Walk, oracle: Oracle)
    ensures Attempts(ByDirs(st, root, cfg, walk, oracle).log) == Attempts(st.log) + SupportedCount(walk)
  {
    if walk != [] {
      var e := walk[|walk| - 1];
      ByDirsAttempts(st, root, cfg, walk[..|walk| - 1], oracle);
      Davinci.RunNamesAttempts(ByDirs(st, root, cfg, walk[..|walk| - 1], oracle), root, cfg, e.rel,
                               MirrorDir(OutputRoot(root), e.rel), e.names, oracle);
    }
  }

  /** No task's outcome keeps another from running: with a worker count, the run logs exactly
      one first-stage event per image and video of the walk, whatever the calls do; without
      one, no file is processed. */
  lemma EveryTaskIsReached(root: string, cfg: Config, walk: Walk, fs0: set<Path>, cpus: Option<nat>,
                           oracle: Oracle)
    ensures Attempts(ParallelRun(root, cfg, walk, fs0, cpus, oracle).log)
              == if cpus.Some? then SupportedCount(walk) else 0
  {
    var st := Davinci.Start(root, fs0);
    AttemptsOne([], MadeDirs([OutputRoot(root)]));
    assert st.log == [] + [MadeDirs([OutputRoot(root)])];
    MakeMirrorsEffect(st, root, walk);
    var m := MakeMirrors(st, root, walk);
    PlanRun(m, root, cfg, walk, oracle);
    ByDirsAttempts(m, root, cfg, walk, oracle);
  }

  // ---------------------------------------------------------------------------------------
  // Re-running

  /** The artifacts of every walked file. */
  function Targets(root: string, walk: Walk): set<Path> {
    if walk == [] then {}
    else
      var e := walk[|walk| - 1];
      Targets(root, walk[..|walk| - 1]) + Davinci.NamesTargets(MirrorDir(OutputRoot(root), e.rel), e.names)
  }

  lemma {:induction false} FootprintSplit(root: string, walk: Walk)
    ensures Davinci.Footprint(root, walk) == Prefixes([OutputRoot(root)]) + MirrorSet(root, walk) + Targets(root, walk)
  {
    if walk != [] {
      FootprintSplit(root, walk[..|walk| - 1]);
    }
  }

  lemma {:induction false} ByDirsCovers(st: State, root: string, cfg: Config, walk: Walk, oracle: Oracle)
    requires AllSucceed(oracle)
    ensures st.fs + Targets(root, walk) <= ByDirs(st, root, cfg, walk, oracle).fs
  {
    if walk != [] {
      var e := walk[|walk| - 1];
      var prev := ByDirs(st, root, cfg, walk[..|walk| - 1], oracle);
      ByDirsCovers(st, root, cfg, walk[..|walk| - 1], oracle);
      Davinci.RunNamesCovers(prev, root, cfg, e.rel, MirrorDir(OutputRoot(root), e.rel), e.names, oracle);
    }
  }

  lemma {:induction false} ByDirsQuiet(st: State, root: string, cfg: Config, walk: Walk, oracle: Oracle)
    requires Targets(root, walk) <= st.fs && NoCalls(st.log)
    ensures var r := ByDirs(st, root, cfg, walk, oracle);
            r.fs == st.fs && NoCalls(r.log)
  {
    if walk != [] {
      var e := walk[|walk| - 1];
      var prev := ByDirs(st, root, cfg, walk[..|walk| - 1], oracle);
      ByDirsQuiet(st, root, cfg, walk[..|walk| - 1], oracle);
      Davinci.RunNamesQuiet(prev, root, cfg, e.rel, MirrorDir(OutputRoot(root), e.rel), e.names, oracle);
    }
  }

  /** After a run that had a worker count and in which every call succeeded, running again over
      the same walk, with any processor count and any outcome for external calls, makes no save
      and no ffmpeg call and changes no path. */
  lemma ParallelRerunIsQuiet(root: string, cfg: Config, walk: Walk, fs0: set<Path>, cpus1: Option<nat>,
                             cpus2: Option<nat>, ok: Oracle, any: Oracle)
    requires AllSucceed(ok) && cpus1.Some?
    ensures var first := ParallelRun(root, cfg, walk, fs0, cpus1, ok);
            var second := ParallelRun(root, cfg, walk, first.fs, cpus2, any);
            second.fs == first.fs && NoCalls(second.log)
  {
    var first := ParallelRun(root, cfg, walk, fs0, cpus1, ok);
    var m1 := MakeMirrors(Davinci.Start(root, fs0), root, walk);
    MakeMirrorsEffect(Davinci.Start(root, fs0), root, walk);
    PlanRun(m1, root, cfg, walk, ok);
    ByDirsCovers(m1, root, cfg, walk, ok);
    FootprintSplit(root, walk);
    var st2 := Davinci.Start(root, first.fs);
    assert st2.fs == first.fs;
    var m2 := MakeMirrors(st2, root, walk);
    MakeMirrorsEffect(st2, root, walk);
    assert m2.fs == first.fs;
    PlanRun(m2, root, cfg, walk, any);
    ByDirsQuiet(m2, root, cfg, walk, any);
  }
}
