/** What the three optimiser scripts and the in-place converter share: the run configuration,
    the ffmpeg parameter sets, the artifact names and the skip-or-call step for one artifact. */
module Media {
  import opened Base
  import opened Paths
  import opened Effects

  /** The run configuration: JPEG quality and the stage-1 video codec, crf and preset. */
  datatype Config = Config(quality: int, vcodec: string, crf: int, preset: string)

  /** The defaults of the optimiser functions' keyword arguments. */
  const Defaults: Config := Config(80, "libx265", 28, "medium")

  /** Stage 1: the configured codec, crf and preset, audio re-encoded to AAC. */
  function CompressParams(cfg: Config): Params {
    Params(cfg.vcodec, Some(cfg.crf), Some(cfg.preset), "aac", None, None, true)
  }

  /** `convertir_a_resolve`: H.264, yuv420p, AAC and the index moved to the front. */
  const ResolveParams: Params :=
    Params("libx264", None, None, "aac", Some("yuv420p"), Some("+faststart"), true)

  /** With the defaults, which the folder-dialog entry points also pass explicitly, images are
      saved at quality 80 and stage 1 is H.265 at crf 28 with the medium preset and AAC audio,
      which is never the Resolve parameter set. */
  lemma DefaultStages()
    ensures Defaults.quality == 80
    ensures CompressParams(Defaults) == Params("libx265", Some(28), Some("medium"), "aac", None, None, true)
    ensures forall cfg: Config :: CompressParams(cfg) != ResolveParams
  {
  }

  function OptImageName(stem: string): string { stem + "_opt.jpeg" }
  function OptVideoName(stem: string): string { stem + "_opt.mp4" }
  function ResolveVideoName(stem: string): string { stem + "_opt_R.mp4" }
  function ResolveCopyName(stem: string): string { stem + "_R.mp4" }

  lemma SuffixDiffers(s1: string, s2: string, a: string, b: string, k: nat)
    requires k < |a| && k < |b| && a[|a| - 1 - k] != b[|b| - 1 - k]
    ensures s1 + a != s2 + b
  {
    var x, y := s1 + a, s2 + b;
    assert x[|x| - 1 - k] == a[|a| - 1 - k];
    assert y[|y| - 1 - k] == b[|b| - 1 - k];
  }

  /** The three optimiser artifacts of any two stems are three different names, and each name
      determines its stem. */
  lemma ArtifactNamesDistinct(s1: string, s2: string)
    ensures OptImageName(s1) != OptVideoName(s2)
    ensures OptImageName(s1) != ResolveVideoName(s2)
    ensures OptVideoName(s1) != ResolveVideoName(s2)
    ensures OptImageName(s1) == OptImageName(s2) <==> s1 == s2
    ensures OptVideoName(s1) == OptVideoName(s2) <==> s1 == s2
    ensures ResolveVideoName(s1) == ResolveVideoName(s2) <==> s1 == s2
    ensures ResolveCopyName(s1) == ResolveCopyName(s2) <==> s1 == s2
  {
    SuffixDiffers(s1, s2, "_opt.jpeg", "_opt.mp4", 0);
    SuffixDiffers(s1, s2, "_opt.jpeg", "_opt_R.mp4", 0);
    SuffixDiffers(s1, s2, "_opt.mp4", "_opt_R.mp4", 4);
    if OptImageName(s1) == OptImageName(s2) { assert s1 == OptImageName(s1)[..|s1|]; }
    if OptVideoName(s1) == OptVideoName(s2) { assert s1 == OptVideoName(s1)[..|s1|]; }
    if ResolveVideoName(s1) == ResolveVideoName(s2) { assert s1 == ResolveVideoName(s1)[..|s1|]; }
    if ResolveCopyName(s1) == ResolveCopyName(s2) { assert s1 == ResolveCopyName(s1)[..|s1|]; }
  }

  /** No artifact name is ".", so joining one to a directory needs no normalisation. */
  lemma ArtifactNamesAreNotDot(stem: string)
    ensures OptImageName(stem) != "." && OptVideoName(stem) != "."
    ensures ResolveVideoName(stem) != "." && ResolveCopyName(stem) != "."
  {
    assert |OptImageName(stem)| > 1 && |OptVideoName(stem)| > 1;
    assert |ResolveVideoName(stem)| > 1 && |ResolveCopyName(stem)| > 1;
  }

  /** The image branch: skip when `dst` exists, otherwise one PIL save to `dst`. */
  function ImageStep(st: State, src: Path, dst: Path, quality: int, oracle: Oracle): State {
    if dst in st.fs then Skip(st, OptImage, dst)
    else Exec(st, OptImage, SaveJpeg(src, dst, quality), oracle)
  }

  /** Stage 1 of a video: skip when `dst` exists, otherwise one ffmpeg run with the
      configured parameters. */
  function CompressStep(st: State, src: Path, dst: Path, cfg: Config, oracle: Oracle): State {
    if dst in st.fs then Skip(st, OptVideo, dst)
    else Exec(st, OptVideo, Transcode(src, dst, CompressParams(cfg)), oracle)
  }

  /** `convertir_a_resolve` behind an existence check. */
  function ResolveStep(st: State, kind: Artifact, src: Path, dst: Path, oracle: Oracle): State {
    if dst in st.fs then Skip(st, kind, dst)
    else Exec(st, kind, Transcode(src, dst, ResolveParams), oracle)
  }
}
