/** Paths, the directory walk, `os.path.splitext`, extension classification and the
    mirrored output tree shared by the optimiser scripts. */
module Paths {
  import opened Base

  /** A filesystem path as its sequence of components. The first component of every path in
      the model is a root directory as the caller spelled it. */
  type Path = seq<string>

  /** One entry of `os.walk`: a directory, as its components relative to the walked root
      (`[]` for the root itself), and the names of the regular files it holds. */
  datatype DirEntry = DirEntry(rel: seq<string>, names: seq<string>)

  type Walk = seq<DirEntry>

  const Sep: char := '/'
  const MirrorSuffix: string := "-optimizados"

  // ---------------------------------------------------------------------------------------
  // os.path.splitext

  predicate AllDots(s: string) { forall i :: 0 <= i < |s| ==> s[i] == '.' }

  /** The index of the last '.' of s, if it has one. */
  function LastDot(s: string): (r: Option<nat>)
    ensures r.Some? ==> r.value < |s| && s[r.value] == '.' && forall j :: r.value < j < |s| ==> s[j] != '.'
    ensures r.None? ==> forall j :: 0 <= j < |s| ==> s[j] != '.'
  {
    if s == [] then None
    else if s[|s| - 1] == '.' then Some(|s| - 1)
    else LastDot(s[..|s| - 1])
  }

  /** `os.path.splitext` on a file name (which never holds a separator): the extension runs
      from the last dot to the end, unless only dots come before that dot. */
  function SplitExt(name: string): (r: (string, string))
    ensures r.0 + r.1 == name
    ensures r.1 != [] ==> r.1[0] == '.' && (forall j :: 1 <= j < |r.1| ==> r.1[j] != '.') && !AllDots(r.0)
    ensures r.1 == [] ==> forall i :: 0 <= i < |name| && name[i] == '.' ==> AllDots(name[..i])
  {
    match LastDot(name)
    case None => (name, "")
    case Some(d) =>
      if AllDots(name[..d]) then
        assert forall i :: 0 <= i < |name| && name[i] == '.' ==> name[..i] == name[..d][..i];
        (name, "")
      else (name[..d], name[d..])
  }

  /** The three conditions of SplitExt's contract determine its result: they are a complete,
      independent description of `os.path.splitext`. */
  lemma SplitExtUnique(name: string, stem: string, ext: string)
    requires stem + ext == name
    requires ext != [] ==> ext[0] == '.' && (forall j :: 1 <= j < |ext| ==> ext[j] != '.') && !AllDots(stem)
    requires ext == [] ==> forall i :: 0 <= i < |name| && name[i] == '.' ==> AllDots(name[..i])
    ensures SplitExt(name) == (stem, ext)
  {
    var r := SplitExt(name);
    if ext != [] {
      var d := |stem|;
      assert name[d] == '.';
      assert forall j :: d < j < |name| ==> name[j] == ext[j - d];
      var ld := LastDot(name);
      assert ld == Some(d);
      assert name[..d] == stem;
      assert name[d..] == ext;
    } else {
      assert stem == name;
    }
  }

  /** Examples: a lone extension is no extension, and only the last dot separates. */
  lemma SplitExtExamples()
    ensures SplitExt(".mp4") == (".mp4", "")
    ensures SplitExt("a.tar.gz") == ("a.tar", ".gz")
    ensures SplitExt("..mp4") == ("..mp4", "")
    ensures SplitExt("clip.") == ("clip", ".")
    ensures SplitExt("README") == ("README", "")
  {
    SplitExtUnique(".mp4", ".mp4", "");
    assert "a.tar"[0] != '.' && "clip"[0] != '.';
    SplitExtUnique("a.tar.gz", "a.tar", ".gz");
    assert "..mp4"[..0] == [] && "..mp4"[..1] == ".";
    SplitExtUnique("..mp4", "..mp4", "");
    SplitExtUnique("clip.", "clip", ".");
    SplitExtUnique("README", "README", "");
  }

  // ---------------------------------------------------------------------------------------
  // Classification by lower-cased extension

  datatype Kind = Image | Video | Unsupported

  const ImageExts: seq<string> := [".jpg", ".png"]
  const VideoExts: seq<string> := [".mp4", ".mov", ".avi", ".mkv", ".flv", ".wmv", ".webm"]

  function Ext(name: string): string { Lower(SplitExt(name).1) }

  function Stem(name: string): string { SplitExt(name).0 }

  /** The media kind of a file name, from its lower-cased `splitext` extension. */
  function Classify(name: string): (k: Kind)
    ensures k == Image <==> Ext(name) in ImageExts
    ensures k == Video <==> Ext(name) in VideoExts
  {
    var ext := Ext(name);
    if ext in ImageExts then Image else if ext in VideoExts then Video else Unsupported
  }

  /** Classification described on the name itself: the name ends, in any letter case, with one
      of the listed extensions, and something other than dots comes before it. */
  lemma ClassifyBySuffix(name: string, ext: string)
    requires ext in ImageExts + VideoExts
    ensures Ext(name) == ext <==>
              |ext| < |name| && Lower(name[|name| - |ext|..]) == ext && !AllDots(name[..|name| - |ext|])
  {
    var r := SplitExt(name);
    var n := |name| - |ext|;
    if Ext(name) == ext {
      assert |r.1| == |ext|;
      assert name[n..] == r.1 && name[..n] == r.0;
    }
    if 0 <= n && Lower(name[n..]) == ext && !AllDots(name[..n]) && |ext| < |name| {
      var stem, e := name[..n], name[n..];
      assert e[0] == '.' by { assert Lower(e)[0] == ext[0] == '.'; }
      forall j | 1 <= j < |e| ensures e[j] != '.' {
        assert Lower(e)[j] == ext[j] != '.';
      }
      assert stem + e == name;
      SplitExtUnique(name, stem, e);
    }
  }

  // ---------------------------------------------------------------------------------------
  // The mirrored tree

  /** `s.rstrip(os.sep)`. */
  function RStripSep(s: string): (r: string)
    ensures |r| <= |s| && s[..|r|] == r
    ensures forall i :: |r| <= i < |s| ==> s[i] == Sep
    ensures r == [] || r[|r| - 1] != Sep
  {
    if s != [] && s[|s| - 1] == Sep then RStripSep(s[..|s| - 1]) else s
  }

  /** The output root of the optimiser scripts: the input root without its trailing
      separators, followed by "-optimizados". */
  function OutputRoot(root: string): string {
    RStripSep(root) + MirrorSuffix
  }

  function Seps(k: nat): (r: string)
    ensures |r| == k && forall i :: 0 <= i < k ==> r[i] == Sep
  {
    if k == 0 then "" else Seps(k - 1) + [Sep]
  }

  /** Any number of trailing separators on the input root leads to the same output root. */
  lemma {:induction false} OutputRootIgnoresTrailingSeps(root: string, k: nat)
    ensures OutputRoot(root + Seps(k)) == OutputRoot(root)
  {
    if k > 0 {
      assert root + Seps(k) == (root + Seps(k - 1)) + [Sep];
      var longer := root + Seps(k);
      assert longer[..|longer| - 1] == root + Seps(k - 1);
      assert RStripSep(longer) == RStripSep(root + Seps(k - 1));
      OutputRootIgnoresTrailingSeps(root, k - 1);
    } else {
      assert root + Seps(k) == root;
    }
  }

  /** The output root is never the input root itself. */
  lemma OutputRootIsNotRoot(root: string)
    ensures OutputRoot(root) != root
  {
  }

  /** `os.path.relpath` of a walked directory against the walked root. */
  function RelPath(rel: seq<string>): seq<string> {
    if rel == [] then ["."] else rel
  }

  /** Path normalisation as the OS resolves a path: "." components name nothing. */
  function Norm(p: Path): (r: Path)
    ensures "." !in r && |r| <= |p|
  {
    if p == [] then [] else (if p[0] == "." then [] else [p[0]]) + Norm(p[1..])
  }

  lemma {:induction false} NormConcat(p: Path, q: Path)
    ensures Norm(p + q) == Norm(p) + Norm(q)
  {
    if p != [] {
      assert (p + q)[1..] == p[1..] + q;
      NormConcat(p[1..], q);
    } else {
      assert p + q == q;
    }
  }

  lemma {:induction false} NormOfNormal(p: Path)
    requires "." !in p
    ensures Norm(p) == p
  {
    if p != [] {
      NormOfNormal(p[1..]);
    }
  }

  /** A path joined from a normalised directory and a name other than "." is normal, so the
      unnormalised join and its `normpath` name the same file. */
  lemma NormJoin(dir: Path, name: string)
    requires name != "."
    ensures Norm(dir + [name]) == Norm(dir) + [name]
    ensures Norm(Norm(dir + [name])) == Norm(dir + [name])
  {
    NormConcat(dir, [name]);
    assert Norm([name]) == [name] + Norm([]);
    NormOfNormal(Norm(dir + [name]));
  }

  /** The mirror of a walked directory: the output root joined with the directory's path
      relative to the walked root, as the OS resolves it. */
  function MirrorDir(out: string, rel: seq<string>): Path {
    Norm([out] + RelPath(rel))
  }

  /** The mirror of the walked root is the output root itself (its "." collapses), and the
      mirror of every other directory is the output root followed by its relative path. */
  lemma MirrorDirShape(out: string, rel: seq<string>)
    requires out != "." && "." !in rel
    ensures MirrorDir(out, rel) == [out] + rel
  {
    NormConcat([out], RelPath(rel));
    assert Norm([out]) == [out] + Norm([]);
    if rel == [] {
      assert Norm(["."]) == [] + Norm([]);
    } else {
      NormOfNormal(rel);
    }
  }

  /** All directories `os.makedirs(dir)` leaves in place. */
  function Prefixes(dir: Path): set<Path> {
    set k | 1 <= k <= |dir| :: dir[..k]
  }

  /** Every walked directory's mirror, with all its ancestors, is in fs. */
  predicate MirrorsIn(out: string, walk: Walk, fs: set<Path>) {
    forall i :: 0 <= i < |walk| ==> Prefixes(MirrorDir(out, walk[i].rel)) <= fs
  }

  lemma MirrorsInAppend(out: string, walk: Walk, before: set<Path>, after: set<Path>)
    requires walk != [] && MirrorsIn(out, walk[..|walk| - 1], before)
    requires before + Prefixes(MirrorDir(out, walk[|walk| - 1].rel)) <= after
    ensures MirrorsIn(out, walk, after)
  {
    var init := walk[..|walk| - 1];
    forall i | 0 <= i < |walk| ensures Prefixes(MirrorDir(out, walk[i].rel)) <= after {
      if i < |init| {
        assert walk[i] == init[i];
      }
    }
  }

  // ---------------------------------------------------------------------------------------
  // Counting over a walk

  function NameCount(walk: Walk): nat {
    if walk == [] then 0 else NameCount(walk[..|walk| - 1]) + |walk[|walk| - 1].names|
  }

  function SupportedIn(names: seq<string>): nat {
    if names == [] then 0
    else SupportedIn(names[..|names| - 1]) + (if Classify(names[|names| - 1]) != Unsupported then 1 else 0)
  }

  /** The number of walked files whose extension is an image or a video extension. */
  function SupportedCount(walk: Walk): nat {
    if walk == [] then 0 else SupportedCount(walk[..|walk| - 1]) + SupportedIn(walk[|walk| - 1].names)
  }

  function VideosIn(names: seq<string>): nat {
    if names == [] then 0
    else VideosIn(names[..|names| - 1]) + (if Classify(names[|names| - 1]) == Video then 1 else 0)
  }

  /** The number of walked files whose extension is a video extension. */
  function VideoCount(walk: Walk): nat {
    if walk == [] then 0 else VideoCount(walk[..|walk| - 1]) + VideosIn(walk[|walk| - 1].names)
  }
}
