/** compresores/renombrarRegex.py, `obtener_fecha_captura`: the capture date of a file, from
    its EXIF DateTimeOriginal (images), from exiftool's CreateDate (videos), or else from its
    modification time. */
module CaptureDate {
  import opened Base

  // ---------------------------------------------------------------------------------------
  // Dates

  datatype DateTime = DateTime(year: int, month: int, day: int, hour: int, minute: int, second: int)

  predicate IsLeap(y: int) { y % 4 == 0 && (y % 100 != 0 || y % 400 == 0) }

  function DaysIn(y: int, m: int): int {
    if m == 2 then (if IsLeap(y) then 29 else 28)
    else if m == 4 || m == 6 || m == 9 || m == 11 then 30
    else 31
  }

  /** The values a Python `datetime` accepts. */
  predicate ValidDate(d: DateTime) {
    && 1 <= d.year <= 9999 && 1 <= d.month <= 12 && 1 <= d.day <= DaysIn(d.year, d.month)
    && 0 <= d.hour <= 23 && 0 <= d.minute <= 59 && 0 <= d.second <= 59
  }

  type Date = d: DateTime | ValidDate(d) witness DateTime(1970, 1, 1, 0, 0, 0)

  // ---------------------------------------------------------------------------------------
  // The "%Y:%m:%d %H:%M:%S" stamp

  lemma Pow10Values()
    ensures Pow10(2) == 100 && Pow10(4) == 10000
  {
  }

  /** A date written in the stamp form. */
  function FormatStamp(d: Date): (r: string)
    ensures |r| == 19
  {
    Pow10Values();
    Pad(d.year, 4) + ":" + Pad(d.month, 2) + ":" + Pad(d.day, 2) + " "
      + Pad(d.hour, 2) + ":" + Pad(d.minute, 2) + ":" + Pad(d.second, 2)
  }

  predicate DigitsAt(s: string, i: nat, j: nat) {
    i <= j <= |s| && AllDigits(s[i..j])
  }

  predicate StampShape(s: string) {
    && |s| == 19
    && s[4] == ':' && s[7] == ':' && s[10] == ' ' && s[13] == ':' && s[16] == ':'
    && DigitsAt(s, 0, 4) && DigitsAt(s, 5, 7) && DigitsAt(s, 8, 10)
    && DigitsAt(s, 11, 13) && DigitsAt(s, 14, 16) && DigitsAt(s, 17, 19)
  }

  /** `datetime.strptime(s, "%Y:%m:%d %H:%M:%S")` in its strict fixed-width form: `None` where
      Python raises ValueError. */
  function ParseStamp(s: string): Option<Date> {
    if !StampShape(s) then None
    else
      var d := DateTime(Num(s[0..4]), Num(s[5..7]), Num(s[8..10]), Num(s[11..13]), Num(s[14..16]), Num(s[17..19]));
      if ValidDate(d) then var date: Date := d; Some(date) else None
  }

  lemma StampSlices(d: Date)
    ensures var s := FormatStamp(d);
            && s[0..4] == Pad(d.year, 4) && s[5..7] == Pad(d.month, 2) && s[8..10] == Pad(d.day, 2)
            && s[11..13] == Pad(d.hour, 2) && s[14..16] == Pad(d.minute, 2) && s[17..19] == Pad(d.second, 2)
            && s[4] == ':' && s[7] == ':' && s[10] == ' ' && s[13] == ':' && s[16] == ':'
  {
    Pow10Values();
  }

  /** Writing a date and reading it back gives the date. */
  lemma ParseFormat(d: Date)
    ensures ParseStamp(FormatStamp(d)) == Some(d)
  {
    Pow10Values();
    StampSlices(d);
    NumPad(d.year, 4);
    NumPad(d.month, 2);
    NumPad(d.day, 2);
    NumPad(d.hour, 2);
    NumPad(d.minute, 2);
    NumPad(d.second, 2);
  }

  lemma Grow(s: string, i: nat, j: nat)
    requires i <= j <= |s|
    ensures s[..j] == s[..i] + s[i..j]
  {
  }

  lemma StampParts(s: string)
    requires |s| == 19
    ensures s == s[0..4] + [s[4]] + s[5..7] + [s[7]] + s[8..10] + [s[10]]
                 + s[11..13] + [s[13]] + s[14..16] + [s[16]] + s[17..19]
  {
    assert s[..4] == s[0..4];
    Grow(s, 4, 5); assert s[4..5] == [s[4]];
    Grow(s, 5, 7);
    Grow(s, 7, 8); assert s[7..8] == [s[7]];
    Grow(s, 8, 10);
    Grow(s, 10, 11); assert s[10..11] == [s[10]];
    Grow(s, 11, 13);
    Grow(s, 13, 14); assert s[13..14] == [s[13]];
    Grow(s, 14, 16);
    Grow(s, 16, 17); assert s[16..17] == [s[16]];
    Grow(s, 17, 19);
    assert s[..19] == s;
  }

  /** Every accepted text is exactly the stamp of the date read from it. */
  lemma FormatParse(s: string)
    requires ParseStamp(s).Some?
    ensures FormatStamp(ParseStamp(s).value) == s
  {
    var d := ParseStamp(s).value;
    PadNum(s[0..4]);
    PadNum(s[5..7]);
    PadNum(s[8..10]);
    PadNum(s[11..13]);
    PadNum(s[14..16]);
    PadNum(s[17..19]);
    StampParts(s);
  }

  /** The parser accepts exactly the stamps of valid dates. */
  lemma ParseStampIff(s: string, d: Date)
    ensures ParseStamp(s) == Some(d) <==> FormatStamp(d) == s
  {
    if ParseStamp(s) == Some(d) { FormatParse(s); }
    if FormatStamp(d) == s { ParseFormat(d); }
  }

  /** Examples of the calendar `strptime` enforces: the leap day of a leap year and of a year
      divisible by 400, no leap day in other years or in a century year, no day beyond the
      month's length; and a stamp with other separators is refused. */
  lemma ParseStampExamples()
    ensures ValidDate(DateTime(2024, 2, 29, 13, 5, 9)) && ValidDate(DateTime(2000, 2, 29, 0, 0, 0))
    ensures !ValidDate(DateTime(2023, 2, 29, 13, 5, 9)) && !ValidDate(DateTime(1900, 2, 29, 0, 0, 0))
    ensures !ValidDate(DateTime(2024, 4, 31, 0, 0, 0)) && !ValidDate(DateTime(2024, 1, 1, 24, 0, 0))
    ensures ParseStamp("2024-02-29 13:05:09") == None
  {
    assert "2024-02-29 13:05:09"[4] != ':';
  }

  // ---------------------------------------------------------------------------------------
  // str.strip()

  /** The characters `str.isspace` accepts. */
  predicate IsSpace(c: char) {
    || '\U{0009}' <= c <= '\U{000D}' || '\U{001C}' <= c <= ' ' || c == '\U{0085}' || c == '\U{00A0}'
    || c == '\U{1680}' || '\U{2000}' <= c <= '\U{200A}' || c == '\U{2028}' || c == '\U{2029}'
    || c == '\U{202F}' || c == '\U{205F}' || c == '\U{3000}'
  }

  /** `s.lstrip()`. */
  function LStrip(s: string): (r: string)
    ensures |r| <= |s|
  {
    if s != [] && IsSpace(s[0]) then LStrip(s[1..]) else s
  }

  /** `s.rstrip()`. */
  function RStrip(s: string): (r: string)
    ensures |r| <= |s|
  {
    if s != [] && IsSpace(s[|s| - 1]) then RStrip(s[..|s| - 1]) else s
  }

  /** `str.strip()`. */
  function Strip(s: string): string {
    RStrip(LStrip(s))
  }

  /** LStrip drops the leading whitespace and nothing else. */
  lemma {:induction false} LStripSpec(s: string)
    ensures var r := LStrip(s);
            && |r| <= |s| && r == s[|s| - |r|..]
            && (forall k :: 0 <= k < |s| - |r| ==> IsSpace(s[k]))
            && (r == [] || !IsSpace(r[0]))
  {
    if s != [] && IsSpace(s[0]) {
      LStripSpec(s[1..]);
      var r := LStrip(s);
      assert r == LStrip(s[1..]);
      assert s[1..][|s| - 1 - |r|..] == s[|s| - |r|..];
      forall k | 0 <= k < |s| - |r| ensures IsSpace(s[k]) {
        if k > 0 {
          assert s[k] == s[1..][k - 1];
        }
      }
    }
  }

  /** RStrip drops the trailing whitespace and nothing else. */
  lemma {:induction false} RStripSpec(s: string)
    ensures var r := RStrip(s);
            && |r| <= |s| && r == s[..|r|]
            && (forall k :: |r| <= k < |s| ==> IsSpace(s[k]))
            && (r == [] || !IsSpace(r[|r| - 1]))
  {
    if s != [] && IsSpace(s[|s| - 1]) {
      var init := s[..|s| - 1];
      RStripSpec(init);
      var r := RStrip(s);
      assert r == RStrip(init);
      assert init[..|r|] == s[..|r|];
      forall k | |r| <= k < |s| ensures IsSpace(s[k]) {
        if k < |s| - 1 {
          assert s[k] == init[k];
        }
      }
    }
  }

  /** Strip keeps the slice of s that neither starts nor ends with whitespace, all of s
      outside it being whitespace. */
  lemma StripSpec(s: string)
    ensures var r, i := Strip(s), |s| - |LStrip(s)|;
            && i + |r| <= |s| && r == s[i..i + |r|]
            && (forall k :: 0 <= k < i ==> IsSpace(s[k]))
            && (forall k :: i + |r| <= k < |s| ==> IsSpace(s[k]))
            && (r == [] || (!IsSpace(r[0]) && !IsSpace(r[|r| - 1])))
  {
    var l := LStrip(s);
    var r := RStrip(l);
    LStripSpec(s);
    RStripSpec(l);
    var i := |s| - |l|;
    SliceOfSuffix(s, i, |r|);
    forall k | i + |r| <= k < |s| ensures IsSpace(s[k]) {
      assert s[k] == l[k - i];
    }
    if r != [] {
      assert r[0] == l[0];
    }
  }

  lemma SliceOfSuffix(s: string, i: nat, n: nat)
    requires i + n <= |s|
    ensures s[i..][..n] == s[i..i + n]
  {
  }

  /** Output is blank exactly when it is whitespace throughout. */
  lemma StripBlank(s: string)
    ensures Strip(s) == [] <==> forall k :: 0 <= k < |s| ==> IsSpace(s[k])
  {
    StripSpec(s);
    var i := |s| - |LStrip(s)|;
    if Strip(s) != [] {
      assert !IsSpace(s[i]);
    }
  }

  // ---------------------------------------------------------------------------------------
  // The metadata a lookup sees

  /** One entry of `img._getexif()`: its tag name after `ExifTags.TAGS.get`, and its value when
      that is text (`None` for any other value, which `strptime` rejects). */
  datatype ExifItem = ExifItem(name: string, value: Option<string>)

  /** What opening the image and reading its EXIF gives: an exception, or its items in
      dictionary order (`None` from `_getexif` is the empty list). */
  datatype ExifRead = ExifUnreadable | ExifItems(items: seq<ExifItem>)

  /** What running exiftool gives: an exception (not installed), or its standard output. */
  datatype ToolRun = ToolUnavailable | ToolRan(stdout: string)

  /** Everything the lookup can observe about one file. The modification time is the local
      datetime of `os.path.getmtime`. */
  datatype Metadata = Metadata(exif: ExifRead, tool: ToolRun, mtime: Date)

  datatype DateSource = FromExif | FromTool | FromMtime

  datatype Capture = Capture(date: Date, source: DateSource)

  const OriginalTag: string := "DateTimeOriginal"

  /** The first item named DateTimeOriginal, the one the loop returns on. */
  function FirstOriginal(items: seq<ExifItem>): (r: Option<nat>)
    ensures r.Some? ==> r.value < |items| && items[r.value].name == OriginalTag
                        && forall j :: 0 <= j < r.value ==> items[j].name != OriginalTag
    ensures r.None? ==> forall j :: 0 <= j < |items| ==> items[j].name != OriginalTag
  {
    if items == [] then None
    else if items[0].name == OriginalTag then Some(0)
    else match FirstOriginal(items[1..])
      case None => None
      case Some(k) => Some(k + 1)
  }

  /** The loop over the EXIF items up to its `return`: the index of the item it returns on, or
      `None` when it runs to the end. */
  method FindOriginal(items: seq<ExifItem>) returns (r: Option<nat>)
    ensures r == FirstOriginal(items)
  {
    var i := 0;
    while i < |items|
      invariant 0 <= i <= |items|
      invariant forall j :: 0 <= j < i ==> items[j].name != OriginalTag
    {
      if items[i].name == OriginalTag {
        return Some(i);
      }
      i := i + 1;
    }
    return None;
  }

  /** The date the image branch returns, if it returns one: the first DateTimeOriginal, when it
      is text in the stamp form. */
  function ExifDate(exif: ExifRead): Option<Date> {
    match exif
    case ExifUnreadable => None
    case ExifItems(items) =>
      match FirstOriginal(items)
      case None => None
      case Some(k) => if items[k].value.Some? then ParseStamp(items[k].value.value) else None
  }

  /** The date the video branch returns, if it returns one: exiftool's stripped output, when it
      is not blank and is in the stamp form. */
  function ToolDate(tool: ToolRun): Option<Date> {
    match tool
    case ToolUnavailable => None
    case ToolRan(out) => if Strip(out) == "" then None else ParseStamp(Strip(out))
  }

  const ImageSuffixes: seq<string> := [".jpg", ".jpeg", ".png"]
  const VideoSuffixes: seq<string> := [".mp4", ".mov", ".avi"]

  predicate HasSuffix(name: string, suffixes: seq<string>) {
    exists k :: 0 <= k < |suffixes| && EndsWith(Lower(name), suffixes[k])
  }

  /** The capture date of the file called `name`. Each failure of the embedded metadata falls
      through to the modification time. */
  function Lookup(name: string, md: Metadata): (c: Capture)
    ensures c.source == FromExif <==> HasSuffix(name, ImageSuffixes) && ExifDate(md.exif).Some?
    ensures c.source == FromTool <==>
              !HasSuffix(name, ImageSuffixes) && HasSuffix(name, VideoSuffixes) && ToolDate(md.tool).Some?
    ensures c.source == FromExif ==> Some(c.date) == ExifDate(md.exif)
    ensures c.source == FromTool ==> Some(c.date) == ToolDate(md.tool)
    ensures c.source == FromMtime ==> c.date == md.mtime
  {
    if HasSuffix(name, ImageSuffixes) then
      match ExifDate(md.exif)
      case Some(d) => Capture(d, FromExif)
      case None => Capture(md.mtime, FromMtime)
    else if HasSuffix(name, VideoSuffixes) then
      match ToolDate(md.tool)
      case Some(d) => Capture(d, FromTool)
      case None => Capture(md.mtime, FromMtime)
    else Capture(md.mtime, FromMtime)
  }

  /** Every failure of the embedded metadata ends in the modification time, and none raises:
      an unreadable image, no DateTimeOriginal, a non-text or malformed value; exiftool
      missing, blank or malformed output; and any other suffix. */
  lemma FallsBackToMtime(name: string, md: Metadata)
    requires
      || (HasSuffix(name, ImageSuffixes) &&
           (|| md.exif.ExifUnreadable?
            || (md.exif.ExifItems? && FirstOriginal(md.exif.items).None?)
            || (md.exif.ExifItems? && FirstOriginal(md.exif.items).Some? &&
                 var v := md.exif.items[FirstOriginal(md.exif.items).value].value;
                 v.None? || ParseStamp(v.value).None?)))
      || (!HasSuffix(name, ImageSuffixes) && HasSuffix(name, VideoSuffixes) &&
           (|| md.tool.ToolUnavailable?
            || (md.tool.ToolRan? && (Strip(md.tool.stdout) == "" || ParseStamp(Strip(md.tool.stdout)).None?))))
      || (!HasSuffix(name, ImageSuffixes) && !HasSuffix(name, VideoSuffixes))
    ensures Lookup(name, md) == Capture(md.mtime, FromMtime)
  {
  }

  /** An image's date depends on its EXIF and its modification time only, a video's on
      exiftool's output and its modification time only. */
  lemma SourcesAreIndependent(name: string, md1: Metadata, md2: Metadata)
    ensures (HasSuffix(name, ImageSuffixes) && md1.exif == md2.exif && md1.mtime == md2.mtime)
              ==> Lookup(name, md1) == Lookup(name, md2)
    ensures (!HasSuffix(name, ImageSuffixes) && md1.tool == md2.tool && md1.mtime == md2.mtime)
              ==> Lookup(name, md1) == Lookup(name, md2)
  {
  }

  /** The suffix test runs on the joined path; since no suffix holds a separator, testing the
      file name instead gives the same answer whatever directory holds it. */
  lemma SuffixOfJoinedPath(dir: string, name: string, suffix: string)
    requires '/' !in suffix
    ensures EndsWith(Lower(dir + "/" + name), suffix) <==> EndsWith(Lower(name), suffix)
  {
    var p := dir + "/" + name;
    LowerConcat(dir + "/", name);
    var lp := Lower(p);
    if |suffix| <= |name| {
      assert lp[|lp| - |suffix|..] == Lower(name)[|name| - |suffix|..];
    } else if |suffix| <= |lp| {
      var k := |suffix| - |name| - 1;
      assert lp[|lp| - |suffix| + k] == lp[|dir|] == '/';
      assert suffix[k] != '/';
      assert lp[|lp| - |suffix|..][k] != suffix[k];
    }
  }

  /** The digits `strftime("%Y%m%d")` writes for a date. */
  function DateDigits(d: Date): (r: string)
    ensures |r| == 8 && AllDigits(r)
    ensures Num(r[..4]) == d.year && Num(r[4..6]) == d.month && Num(r[6..]) == d.day
  {
    Pow10Values();
    var y, m, dd := Pad(d.year, 4), Pad(d.month, 2), Pad(d.day, 2);
    NumPad(d.year, 4);
    NumPad(d.month, 2);
    NumPad(d.day, 2);
    var r := y + m + dd;
    assert r[..4] == y && r[4..6] == m && r[6..] == dd;
    r
  }
}
