/** compresores/renombrarRegex.py, `renombrarArchivos`: rename every camera file
    `IMG_<digits>.<ext>` / `MVI_<digits>.<ext>` of the walked tree to
    `<YYYYMMDD>_<digits>.<ext>`, in its own directory, from its capture date. */
module Renamer {
  import opened Base
  import opened Paths
  import opened CaptureDate

  // ---------------------------------------------------------------------------------------
  // The pattern ^(IMG|MVI)_(\d+)\.(.+)$ with IGNORECASE

  /** Case-insensitive `I`: also DOTTED CAPITAL I and DOTLESS SMALL I, whose simple
      lower-case forms the regular-expression engine equates with `i`. */
  predicate IChar(c: char) { c == 'I' || c == 'i' || c == '\U{0130}' || c == '\U{0131}' }
  predicate MChar(c: char) { c == 'M' || c == 'm' }
  predicate GChar(c: char) { c == 'G' || c == 'g' }
  predicate VChar(c: char) { c == 'V' || c == 'v' }

  /** `IMG` or `MVI` in any letter case. */
  predicate IsPrefix(p: string) {
    |p| == 3 && ((IChar(p[0]) && MChar(p[1]) && GChar(p[2])) || (MChar(p[0]) && VChar(p[1]) && IChar(p[2])))
  }

  /** The three groups of a match. */
  datatype CameraName = CameraName(prefix: string, digits: string, ext: string)

  /** The names the pattern accepts, with their groups: prefix, `_`, a digit run, `.`, and an
      extension of one or more characters other than a newline, where `$` also allows one
      final newline after it. */
  predicate Shape(name: string, m: CameraName) {
    && IsPrefix(m.prefix) && |m.digits| > 0 && AllDigits(m.digits) && |m.ext| > 0 && '\n' !in m.ext
    && (name == m.prefix + "_" + m.digits + "." + m.ext || name == m.prefix + "_" + m.digits + "." + m.ext + "\n")
  }

  /** The end of the digit run of s that starts at i. */
  function DigitRunEnd(s: string, i: nat): (k: nat)
    requires i <= |s|
    ensures i <= k <= |s| && AllDigits(s[i..k]) && (k < |s| ==> !IsDigit(s[k]))
    decreases |s| - i
  {
    if i < |s| && IsDigit(s[i]) then
      var k := DigitRunEnd(s, i + 1);
      assert s[i..k] == [s[i]] + s[i + 1..k];
      k
    else i
  }

  lemma {:induction false} DigitRunEndIs(s: string, i: nat, k: nat)
    requires i <= k < |s| && AllDigits(s[i..k]) && !IsDigit(s[k])
    ensures DigitRunEnd(s, i) == k
    decreases k - i
  {
    if i < k {
      assert s[i] == s[i..k][0];
      assert s[i + 1..k] == s[i..k][1..];
      DigitRunEndIs(s, i + 1, k);
    }
  }

  /** `patron.match(name)`: the groups, or `None`. */
  function Match(name: string): Option<CameraName> {
    if |name| < 4 || !IsPrefix(name[..3]) || name[3] != '_' then None
    else
      var k := DigitRunEnd(name, 4);
      if k == 4 || k == |name| || name[k] != '.' then None
      else
        var rest := name[k + 1..];
        var x := if rest != [] && rest[|rest| - 1] == '\n' then rest[..|rest| - 1] else rest;
        if x == [] || '\n' in x then None else Some(CameraName(name[..3], name[4..k], x))
  }

  /** Every match has the accepted shape, with these groups. */
  lemma MatchSound(name: string)
    requires Match(name).Some?
    ensures Shape(name, Match(name).value)
  {
    var m := Match(name).value;
    var k := DigitRunEnd(name, 4);
    var rest := name[k + 1..];
    assert name == name[..3] + "_" + name[4..k] + "." + rest;
    if rest != [] && rest[|rest| - 1] == '\n' {
      assert rest == rest[..|rest| - 1] + "\n";
    }
  }

  /** The slices of a name assembled from groups, up to its extension. */
  lemma AssembledParts(m: CameraName, tail: string)
    requires |m.prefix| == 3
    ensures var name, k := m.prefix + "_" + m.digits + "." + m.ext + tail, 4 + |m.digits|;
            && k < |name| && name[..3] == m.prefix && name[3] == '_' && name[4..k] == m.digits
            && name[k] == '.' && name[k + 1..] == m.ext + tail
  {
    var name, k := m.prefix + "_" + m.digits + "." + m.ext + tail, 4 + |m.digits|;
    assert name == m.prefix + ("_" + (m.digits + ("." + (m.ext + tail))));
  }

  /** Every name of the accepted shape matches, with exactly those groups. */
  lemma MatchComplete(name: string, m: CameraName)
    requires Shape(name, m)
    ensures Match(name) == Some(m)
  {
    var k := 4 + |m.digits|;
    var tail := if name == m.prefix + "_" + m.digits + "." + m.ext then "" else "\n";
    assert name == m.prefix + "_" + m.digits + "." + m.ext + tail;
    AssembledParts(m, tail);
    DigitRunEndIs(name, 4, k);
    var rest := name[k + 1..];
    assert rest == m.ext + tail;
    if tail == "" {
      assert rest[|rest| - 1] == m.ext[|m.ext| - 1] != '\n';
    } else {
      assert rest[..|rest| - 1] == m.ext;
    }
  }

  /** Examples: upper and lower case, leading zeros kept, several dots in the extension, the
      final newline, and the names the pattern refuses. */
  lemma MatchExamples()
    ensures Match("IMG_0001.JPG") == Some(CameraName("IMG", "0001", "JPG"))
    ensures Match("mvi_12.tar.gz") == Some(CameraName("mvi", "12", "tar.gz"))
    ensures Match("IMG_7.mp4\n") == Some(CameraName("IMG", "7", "mp4"))
    ensures Match("IMG_.jpg") == None
    ensures Match("IMG_12") == None
    ensures Match("DSC_0001.jpg") == None
  {
    UpperCaseExample();
    DottedExtensionExample();
    NewlineExample();
    NoDigitsExample();
    NoExtensionExample();
    OtherPrefixExample();
  }

  lemma OtherPrefixExample()
    ensures Match("DSC_0001.jpg") == None
  {
    assert "DSC_0001.jpg"[..3] == "DSC";
  }

  lemma UpperCaseExample()
    ensures Match("IMG_0001.JPG") == Some(CameraName("IMG", "0001", "JPG"))
  {
    var m := CameraName("IMG", "0001", "JPG");
    assert AllDigits(m.digits) && '\n' !in m.ext && IsPrefix(m.prefix);
    assert "IMG_0001.JPG" == m.prefix + "_" + m.digits + "." + m.ext;
    MatchComplete("IMG_0001.JPG", m);
  }

  lemma DottedExtensionExample()
    ensures Match("mvi_12.tar.gz") == Some(CameraName("mvi", "12", "tar.gz"))
  {
    var m := CameraName("mvi", "12", "tar.gz");
    assert AllDigits(m.digits) && '\n' !in m.ext && IsPrefix(m.prefix);
    assert "mvi_12.tar.gz" == m.prefix + "_" + m.digits + "." + m.ext;
    MatchComplete("mvi_12.tar.gz", m);
  }

  lemma NewlineExample()
    ensures Match("IMG_7.mp4\n") == Some(CameraName("IMG", "7", "mp4"))
  {
    var m := CameraName("IMG", "7", "mp4");
    assert AllDigits(m.digits) && '\n' !in m.ext && IsPrefix(m.prefix);
    assert "IMG_7.mp4\n" == m.prefix + "_" + m.digits + "." + m.ext + "\n";
    MatchComplete("IMG_7.mp4\n", m);
  }

  lemma NoDigitsExample()
    ensures Match("IMG_.jpg") == None
  {
    var s := "IMG_.jpg";
    assert !IsDigit(s[4]);
    assert DigitRunEnd(s, 4) == 4;
  }

  lemma NoExtensionExample()
    ensures Match("IMG_12") == None
  {
    var s := "IMG_12";
    assert DigitRunEnd(s, 6) == 6;
    assert DigitRunEnd(s, 5) == 6;
    assert DigitRunEnd(s, 4) == 6;
  }

  // ---------------------------------------------------------------------------------------
  // The new name

  /** `f"{fecha:%Y%m%d}_{numero}.{extension}"`. */
  function NewName(m: CameraName, d: Date): string {
    DateDigits(d) + "_" + m.digits + "." + m.ext
  }

  /** The new name is the eight date digits (year, month, day), `_`, the digit run as it was
      (leading zeros kept), `.`, and the extension as it was (letter case kept); the prefix is
      gone. */
  lemma NewNameParts(m: CameraName, d: Date)
    ensures var n := NewName(m, d);
            var k := 9 + |m.digits|;
            && |n| == k + 1 + |m.ext|
            && AllDigits(n[..8]) && Num(n[..4]) == d.year && Num(n[4..6]) == d.month && Num(n[6..8]) == d.day
            && n[8] == '_' && n[9..k] == m.digits && n[k] == '.' && n[k + 1..] == m.ext
  {
    var n := NewName(m, d);
    var dd := DateDigits(d);
    assert n[..8] == dd;
    assert n[..4] == dd[..4] && n[4..6] == dd[4..6] && n[6..8] == dd[6..];
  }

  /** A new name starts with a digit, so the pattern never accepts it. */
  lemma NewNameNeverMatches(m: CameraName, d: Date)
    ensures Match(NewName(m, d)) == None
  {
    var n := NewName(m, d);
    assert n[0] == DateDigits(d)[0];
    assert IsDigit(n[0]);
  }

  // ---------------------------------------------------------------------------------------
  // The walk

  /** One outcome of the rename loop: the file was renamed, or `os.rename` raised; both carry
      where the capture date came from. */
  datatype RenameEvent =
    | Renamed(src: Path, dst: Path, source: DateSource)
    | RenameFailed(src: Path, dst: Path, source: DateSource)

  datatype RState = RState(fs: set<Path>, log: seq<RenameEvent>)

  /** Whether `os.rename(src, dst)` succeeds, given the number of events before it. */
  type RenameOracle = (nat, Path, Path) -> bool

  /** What a date lookup sees for the file at a path. */
  type MetaOf = Path -> Metadata

  function FileStep(st: RState, root: string, rel: seq<string>, name: string, meta: MetaOf,
                    ren: RenameOracle): RState
  {
    match Match(name)
    case None => st
    case Some(m) =>
      var src := [root] + rel + [name];
      var c := Lookup(name, meta(src));
      var dst := [root] + rel + [NewName(m, c.date)];
      if ren(|st.log|, src, dst) then RState(st.fs - {src} + {dst}, st.log + [Renamed(src, dst, c.source)])
      else RState(st.fs, st.log + [RenameFailed(src, dst, c.source)])
  }

  function RunNames(st: RState, root: string, rel: seq<string>, names: seq<string>, meta: MetaOf,
                    ren: RenameOracle): RState
  {
    if names == [] then st
    else FileStep(RunNames(st, root, rel, names[..|names| - 1], meta, ren), root, rel, names[|names| - 1], meta, ren)
  }

  function RunDirs(st: RState, root: string, walk: Walk, meta: MetaOf, ren: RenameOracle): RState {
    if walk == [] then st
    else
      var e := walk[|walk| - 1];
      RunNames(RunDirs(st, root, walk[..|walk| - 1], meta, ren), root, e.rel, e.names, meta, ren)
  }

  function Run(root: string, walk: Walk, fs0: set<Path>, meta: MetaOf, ren: RenameOracle): RState {
    RunDirs(RState(fs0, []), root, walk, meta, ren)
  }

  method RenameFiles(root: string, walk: Walk, fs0: set<Path>, meta: MetaOf, ren: RenameOracle)
    returns (fs: set<Path>, log: seq<RenameEvent>)
    ensures RState(fs, log) == Run(root, walk, fs0, meta, ren)
  {
    fs, log := fs0, [];
    for i := 0 to |walk|
      invariant RState(fs, log) == RunDirs(RState(fs0, []), root, walk[..i], meta, ren)
    {
      var e := walk[i];
      ghost var atDir := RState(fs, log);
      for j := 0 to |e.names|
        invariant RState(fs, log) == RunNames(atDir, root, e.rel, e.names[..j], meta, ren)
      {
        assert e.names[..j + 1][..j] == e.names[..j];
        var name := e.names[j];
        var groups := Match(name);
        if groups.Some? {
          var src := [root] + e.rel + [name];
          var capture := Lookup(name, meta(src));
          var dst := [root] + e.rel + [DateDigits(capture.date) + "_" + groups.value.digits + "." + groups.value.ext];
          if ren(|log|, src, dst) {
            fs := fs - {src} + {dst};
            log := log + [Renamed(src, dst, capture.source)];
          } else {
            log := log + [RenameFailed(src, dst, capture.source)];
          }
        }
      }
      assert e.names[..|e.names|] == e.names;
      assert walk[..i + 1][..i] == walk[..i];
    }
    assert walk[..|walk|] == walk;
  }

  // ---------------------------------------------------------------------------------------
  // One file

  /** A name the pattern refuses is neither looked up nor renamed. */
  lemma NonMatchingIsUntouched(st: RState, root: string, rel: seq<string>, name: string, meta: MetaOf,
                               ren: RenameOracle)
    requires Match(name).None?
    ensures FileStep(st, root, rel, name, meta, ren) == st
  {
  }

  /** A matching file gets one lookup and one rename attempt, to its new name in its own
      directory (a different name). A successful rename moves the path; a failed one is
      logged and leaves every path as it was. */
  lemma MatchingFile(st: RState, root: string, rel: seq<string>, name: string, meta: MetaOf,
                     ren: RenameOracle)
    requires Match(name).Some?
    ensures var r := FileStep(st, root, rel, name, meta, ren);
            var src := [root] + rel + [name];
            var c := Lookup(name, meta(src));
            var dst := [root] + rel + [NewName(Match(name).value, c.date)];
            && src != dst && dst[..|dst| - 1] == src[..|src| - 1]
            && |r.log| == |st.log| + 1 && r.log[..|st.log|] == st.log
            && (ren(|st.log|, src, dst) ==> r.fs == st.fs - {src} + {dst} && r.log[|st.log|] == Renamed(src, dst, c.source))
            && (!ren(|st.log|, src, dst) ==> r.fs == st.fs && r.log[|st.log|] == RenameFailed(src, dst, c.source))
  {
    var src := [root] + rel + [name];
    var c := Lookup(name, meta(src));
    var n := NewName(Match(name).value, c.date);
    NewNameNeverMatches(Match(name).value, c.date);
    var dst := [root] + rel + [n];
    assert dst[|dst| - 1] == n && src[|src| - 1] == name;
    assert dst[..|dst| - 1] == [root] + rel == src[..|src| - 1];
  }

  // ---------------------------------------------------------------------------------------
  // The run

  function MatchesIn(names: seq<string>): nat {
    if names == [] then 0 else MatchesIn(names[..|names| - 1]) + (if Match(names[|names| - 1]).Some? then 1 else 0)
  }

  /** The number of walked files whose name the pattern accepts. */
  function MatchCount(walk: Walk): nat {
    if walk == [] then 0 else MatchCount(walk[..|walk| - 1]) + MatchesIn(walk[|walk| - 1].names)
  }

  /** The event renames, or tries to rename, a matching file to a name the pattern refuses,
      in the same directory. */
  predicate EventWellPlaced(e: RenameEvent) {
    && |e.src| > 0 && |e.dst| > 0 && e.src[..|e.src| - 1] == e.dst[..|e.dst| - 1]
    && Match(e.src[|e.src| - 1]).Some? && Match(e.dst[|e.dst| - 1]).None?
  }

  predicate WellPlaced(log: seq<RenameEvent>) {
    forall i :: 0 <= i < |log| ==> EventWellPlaced(log[i])
  }

  lemma WellPlacedAppend(log: seq<RenameEvent>, e: RenameEvent)
    requires WellPlaced(log) && EventWellPlaced(e)
    ensures WellPlaced(log + [e])
  {
  }

  lemma FileStepWellPlaced(st: RState, root: string, rel: seq<string>, name: string, meta: MetaOf,
                           ren: RenameOracle)
    requires WellPlaced(st.log)
    ensures var r := FileStep(st, root, rel, name, meta, ren);
            WellPlaced(r.log) && |r.log| == |st.log| + (if Match(name).Some? then 1 else 0)
  {
    if Match(name).Some? {
      var m := Match(name).value;
      var src := [root] + rel + [name];
      var c := Lookup(name, meta(src));
      var n := NewName(m, c.date);
      var dst := [root] + rel + [n];
      NewNameNeverMatches(m, c.date);
      assert src[|src| - 1] == name && dst[|dst| - 1] == n;
      assert dst[..|dst| - 1] == [root] + rel == src[..|src| - 1];
      var e := if ren(|st.log|, src, dst) then Renamed(src, dst, c.source) else RenameFailed(src, dst, c.source);
      assert EventWellPlaced(e);
      assert FileStep(st, root, rel, name, meta, ren).log == st.log + [e];
      WellPlacedAppend(st.log, e);
    }
  }

  lemma {:induction false} RunNamesWellPlaced(st: RState, root: string, rel: seq<string>, names: seq<string>,
                                              meta: MetaOf, ren: RenameOracle)
    requires WellPlaced(st.log)
    ensures var r := RunNames(st, root, rel, names, meta, ren);
            WellPlaced(r.log) && |r.log| == |st.log| + MatchesIn(names)
  {
    if names != [] {
      RunNamesWellPlaced(st, root, rel, names[..|names| - 1], meta, ren);
      FileStepWellPlaced(RunNames(st, root, rel, names[..|names| - 1], meta, ren), root, rel,
                         names[|names| - 1], meta, ren);
    }
  }

  lemma {:induction false} RunDirsWellPlaced(st: RState, root: string, walk: Walk, meta: MetaOf,
                                             ren: RenameOracle)
    requires WellPlaced(st.log)
    ensures var r := RunDirs(st, root, walk, meta, ren);
            WellPlaced(r.log) && |r.log| == |st.log| + MatchCount(walk)
  {
    if walk != [] {
      var e := walk[|walk| - 1];
      RunDirsWellPlaced(st, root, walk[..|walk| - 1], meta, ren);
      RunNamesWellPlaced(RunDirs(st, root, walk[..|walk| - 1], meta, ren), root, e.rel, e.names, meta, ren);
    }
  }

  /** Whatever the renames do, every matching file of the walk gets exactly one lookup and one
      rename attempt, and no other file gets any: a failure does not stop the walk. Every
      attempt stays in the file's directory and targets a name that will not match again. */
  lemma EveryMatchIsAttempted(root: string, walk: Walk, fs0: set<Path>, meta: MetaOf, ren: RenameOracle)
    ensures var r := Run(root, walk, fs0, meta, ren);
            WellPlaced(r.log) && |r.log| == MatchCount(walk)
  {
    RunDirsWellPlaced(RState(fs0, []), root, walk, meta, ren);
  }

  lemma {:induction false} NoMatchInNames(st: RState, root: string, rel: seq<string>, names: seq<string>,
                                          meta: MetaOf, ren: RenameOracle)
    requires forall j :: 0 <= j < |names| ==> Match(names[j]).None?
    ensures RunNames(st, root, rel, names, meta, ren) == st
  {
    if names != [] {
      NoMatchInNames(st, root, rel, names[..|names| - 1], meta, ren);
    }
  }

  /** A walk in which no name matches (a tree whose camera files all carry their new names)
      renames nothing and looks nothing up. */
  lemma {:induction false} RenamedTreeIsFixed(st: RState, root: string, walk: Walk, meta: MetaOf,
                                              ren: RenameOracle)
    requires forall i, j :: 0 <= i < |walk| && 0 <= j < |walk[i].names| ==> Match(walk[i].names[j]).None?
    ensures RunDirs(st, root, walk, meta, ren) == st
  {
    if walk != [] {
      var init := walk[..|walk| - 1];
      assert forall i :: 0 <= i < |init| ==> init[i] == walk[i];
      RenamedTreeIsFixed(st, root, init, meta, ren);
      var e := walk[|walk| - 1];
      NoMatchInNames(st, root, e.rel, e.names, meta, ren);
    }
  }

  // ---------------------------------------------------------------------------------------
  // After the renames

  /** The name a walked file carries once its rename succeeded: its new name when the pattern
      accepts it, the name itself otherwise. */
  function RenamedName(root: string, rel: seq<string>, name: string, meta: MetaOf): string {
    match Match(name)
    case None => name
    case Some(m) => NewName(m, Lookup(name, meta([root] + rel + [name])).date)
  }

  /** The listing of the tree after a run in which every rename succeeded. */
  function RenamedWalk(root: string, walk: Walk, meta: MetaOf): Walk {
    seq(|walk|, i requires 0 <= i < |walk| =>
      DirEntry(walk[i].rel, seq(|walk[i].names|, j requires 0 <= j < |walk[i].names| =>
        RenamedName(root, walk[i].rel, walk[i].names[j], meta))))
  }

  /** Once renamed, a file's name is one the pattern refuses. */
  lemma RenamedNameNeverMatches(root: string, rel: seq<string>, name: string, meta: MetaOf)
    ensures Match(RenamedName(root, rel, name, meta)).None?
  {
    if Match(name).Some? {
      NewNameNeverMatches(Match(name).value, Lookup(name, meta([root] + rel + [name])).date);
    }
  }

  predicate LastMatches(p: Path) { |p| > 0 && Match(p[|p| - 1]).Some? }

  /** The paths of the walk's matching files. */
  function Sources(root: string, walk: Walk): (r: set<Path>)
    ensures forall p :: p in r ==> LastMatches(p)
  {
    if walk == [] then {}
    else
      var e := walk[|walk| - 1];
      Sources(root, walk[..|walk| - 1]) + NameSources(root, e.rel, e.names)
  }

  function NameSources(root: string, rel: seq<string>, names: seq<string>): (r: set<Path>)
    ensures forall p :: p in r ==> LastMatches(p)
  {
    if names == [] then {}
    else
      var n := names[|names| - 1];
      NameSources(root, rel, names[..|names| - 1]) + (if Match(n).Some? then {[root] + rel + [n]} else {})
  }

  /** The paths the walk's matching files are renamed to. */
  function Targets(root: string, walk: Walk, meta: MetaOf): (r: set<Path>)
    ensures forall p :: p in r ==> |p| > 0 && !LastMatches(p)
  {
    if walk == [] then {}
    else
      var e := walk[|walk| - 1];
      Targets(root, walk[..|walk| - 1], meta) + NameTargets(root, e.rel, e.names, meta)
  }

  function NameTargets(root: string, rel: seq<string>, names: seq<string>, meta: MetaOf): (r: set<Path>)
    ensures forall p :: p in r ==> |p| > 0 && !LastMatches(p)
  {
    if names == [] then {}
    else
      var n := names[|names| - 1];
      var t := [root] + rel + [RenamedName(root, rel, n, meta)];
      assert t[|t| - 1] == RenamedName(root, rel, n, meta);
      RenamedNameNeverMatches(root, rel, n, meta);
      NameTargets(root, rel, names[..|names| - 1], meta) + (if Match(n).Some? then {t} else {})
  }

  ghost predicate AllRenamesSucceed(ren: RenameOracle) {
    forall k, src, dst :: ren(k, src, dst)
  }

  /** A successful rename removes its source and adds its target; since a source always
      matches and a target never does, no earlier source comes back and no earlier target
      goes away. */
  lemma FileStepLands(st: RState, root: string, rel: seq<string>, name: string, meta: MetaOf,
                      ren: RenameOracle, src: set<Path>, dst: set<Path>)
    requires AllRenamesSucceed(ren)
    requires (forall p :: p in src ==> LastMatches(p)) && (forall p :: p in dst ==> !LastMatches(p))
    requires src !! st.fs && dst <= st.fs
    ensures var r := FileStep(st, root, rel, name, meta, ren);
            var one := if Match(name).Some? then {[root] + rel + [name]} else {};
            var t := if Match(name).Some? then {[root] + rel + [RenamedName(root, rel, name, meta)]} else {};
            (src + one) !! r.fs && dst + t <= r.fs
  {
    if Match(name).Some? {
      var s := [root] + rel + [name];
      var t := [root] + rel + [RenamedName(root, rel, name, meta)];
      var m := Match(name).value;
      assert t == [root] + rel + [NewName(m, Lookup(name, meta(s)).date)];
      assert ren(|st.log|, s, t);
      var r := FileStep(st, root, rel, name, meta, ren);
      assert r.fs == st.fs - {s} + {t};
      assert s[|s| - 1] == name && t[|t| - 1] == RenamedName(root, rel, name, meta);
      RenamedNameNeverMatches(root, rel, name, meta);
      assert LastMatches(s) && !LastMatches(t);
      forall p | p in src ensures p !in r.fs {
        assert p != t;
      }
      forall p | p in dst ensures p in r.fs {
        assert p != s;
      }
    } else {
      assert FileStep(st, root, rel, name, meta, ren) == st;
    }
  }

  lemma {:induction false} RunNamesLand(st: RState, root: string, rel: seq<string>, names: seq<string>,
                                        meta: MetaOf, ren: RenameOracle, src: set<Path>, dst: set<Path>)
    requires AllRenamesSucceed(ren)
    requires (forall p :: p in src ==> LastMatches(p)) && (forall p :: p in dst ==> !LastMatches(p))
    requires src !! st.fs && dst <= st.fs
    ensures var r := RunNames(st, root, rel, names, meta, ren);
            (src + NameSources(root, rel, names)) !! r.fs && dst + NameTargets(root, rel, names, meta) <= r.fs
  {
    if names != [] {
      var init := names[..|names| - 1];
      RunNamesLand(st, root, rel, init, meta, ren, src, dst);
      FileStepLands(RunNames(st, root, rel, init, meta, ren), root, rel, names[|names| - 1], meta, ren,
                    src + NameSources(root, rel, init), dst + NameTargets(root, rel, init, meta));
    }
  }

  lemma {:induction false} RunDirsLand(st: RState, root: string, walk: Walk, meta: MetaOf,
                                       ren: RenameOracle, src: set<Path>, dst: set<Path>)
    requires AllRenamesSucceed(ren)
    requires (forall p :: p in src ==> LastMatches(p)) && (forall p :: p in dst ==> !LastMatches(p))
    requires src !! st.fs && dst <= st.fs
    ensures var r := RunDirs(st, root, walk, meta, ren);
            (src + Sources(root, walk)) !! r.fs && dst + Targets(root, walk, meta) <= r.fs
  {
    if walk != [] {
      var init := walk[..|walk| - 1];
      var e := walk[|walk| - 1];
      RunDirsLand(st, root, init, meta, ren, src, dst);
      RunNamesLand(RunDirs(st, root, init, meta, ren), root, e.rel, e.names, meta, ren,
                   src + Sources(root, init), dst + Targets(root, init, meta));
    }
  }

  /** After a run in which every rename succeeded, no matching file of the walk is left under
      its old name and every one exists under its new name, in its own directory. */
  lemma RenamesLand(root: string, walk: Walk, fs0: set<Path>, meta: MetaOf, ren: RenameOracle)
    requires AllRenamesSucceed(ren)
    ensures var r := Run(root, walk, fs0, meta, ren);
            Sources(root, walk) !! r.fs && Targets(root, walk, meta) <= r.fs
  {
    RunDirsLand(RState(fs0, []), root, walk, meta, ren, {}, {});
  }

  /** Running the renamer again, over the listing of the renamed tree, renames and looks up
      nothing, whatever the second run's metadata and renames. */
  lemma SecondRunIsQuiet(root: string, walk: Walk, fs0: set<Path>, meta: MetaOf, ren: RenameOracle,
                         meta2: MetaOf, ren2: RenameOracle)
    ensures var first := Run(root, walk, fs0, meta, ren);
            Run(root, RenamedWalk(root, walk, meta), first.fs, meta2, ren2) == RState(first.fs, [])
  {
    var w := RenamedWalk(root, walk, meta);
    forall i, j | 0 <= i < |w| && 0 <= j < |w[i].names| ensures Match(w[i].names[j]).None? {
      RenamedNameNeverMatches(root, walk[i].rel, walk[i].names[j], meta);
    }
    RenamedTreeIsFixed(RState(Run(root, walk, fs0, meta, ren).fs, []), root, w, meta2, ren2);
  }
}
