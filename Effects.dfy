/** The observable effects of the scripts: the set of existing paths, the calls into PIL and
    ffmpeg (oracles whose outcome is an input), and the log of outcome tags. */
module Effects {
  import opened Base
  import opened Paths

  /** How an external call ended. A failed call may still have left (part of) its output file
      behind: no script removes output after a failure. */
  datatype Outcome = Succeeded | Failed(leftOutput: bool) {
    predicate LeavesOutput() { Succeeded? || leftOutput }
  }

  /** The keyword arguments of one ffmpeg invocation (`None` where the script passes none). */
  datatype Params = Params(
    vcodec: string,
    crf: Option<int>,
    preset: Option<string>,
    acodec: string,
    pixFmt: Option<string>,
    movflags: Option<string>,
    overwrite: bool)

  /** An external call: a PIL open/orient/RGB/JPEG-save pipeline, or one ffmpeg run. */
  datatype Call =
    | SaveJpeg(src: Path, dst: Path, quality: int)
    | Transcode(src: Path, dst: Path, params: Params)

  /** The artifact a log event is about. */
  datatype Artifact =
    | OptImage      // {stem}_opt.jpeg
    | OptVideo      // {stem}_opt.mp4
    | ResolveVideo  // {stem}_opt_R.mp4, made from {stem}_opt.mp4
    | ResolveCopy   // {stem}_R.mp4 beside the source video

  /** One outcome tag of the log: a directory made, an artifact skipped because its path
      exists, or an external call with its outcome (written or error). */
  datatype Event =
    | MadeDirs(dir: Path)
    | Skipped(kind: Artifact, path: Path)
    | Ran(kind: Artifact, call: Call, outcome: Outcome)

  datatype State = State(fs: set<Path>, log: seq<Event>)

  /** The outcome of an external call, given the number of log events before it. */
  type Oracle = (nat, Call) -> Outcome

  function Exec(st: State, kind: Artifact, call: Call, oracle: Oracle): State {
    var o := oracle(|st.log|, call);
    State(if o.LeavesOutput() then st.fs + {call.dst} else st.fs, st.log + [Ran(kind, call, o)])
  }

  function Skip(st: State, kind: Artifact, path: Path): State {
    State(st.fs, st.log + [Skipped(kind, path)])
  }

  /** `os.makedirs(dir, exist_ok=True)`. */
  function MakeDirs(st: State, dir: Path): State {
    State(st.fs + Prefixes(dir), st.log + [MadeDirs(dir)])
  }

  ghost predicate AllSucceed(oracle: Oracle) {
    forall k, c :: oracle(k, c) == Succeeded
  }

  /** No event of the log is an external call. */
  predicate NoCalls(log: seq<Event>) {
    forall i :: 0 <= i < |log| ==> !log[i].Ran?
  }

  predicate IsAttempt(e: Event) {
    (e.Skipped? || e.Ran?) && e.kind != ResolveVideo
  }

  /** The number of first-stage events: one per source file that was reached. */
  function Attempts(log: seq<Event>): nat {
    if log == [] then 0
    else Attempts(log[..|log| - 1]) + (if IsAttempt(log[|log| - 1]) then 1 else 0)
  }

  lemma {:induction false} AttemptsConcat(a: seq<Event>, b: seq<Event>)
    ensures Attempts(a + b) == Attempts(a) + Attempts(b)
  {
    if b == [] {
      assert a + b == a;
    } else {
      var b' := b[..|b| - 1];
      assert (a + b)[..|a + b| - 1] == a + b';
      AttemptsConcat(a, b');
    }
  }

  lemma AttemptsOne(a: seq<Event>, e: Event)
    ensures Attempts(a + [e]) == Attempts(a) + (if IsAttempt(e) then 1 else 0)
  {
    assert (a + [e])[..|a|] == a;
  }
}
