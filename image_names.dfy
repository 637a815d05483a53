/** Recognising the image file of a directory and reading its acquisition
    time (sort_csk_image_dirs.py lines 160-198). A name such as
    CSKS2_SCS_B_HI_0B_HH_RD_SF_20170803194620_20170803194626.h5 is a prefix,
    a 14-digit start time YYYYMMDDHHMMSS, "_", a second 14-digit time and
    ".h5". */
module ImageNames {
  import opened Text

  const STAMP_WIDTH: nat := 14

  /** What the regular expression captures: the prefix (group 1) and the
      14 digits of the start time (groups 2 to 7 together). */
  datatype ImageMatch = ImageMatch(prefix: string, start: string)

  predicate IsStamp(t: string) {
    |t| == STAMP_WIDTH && AllDigits(t)
  }

  /** Python's `$` also matches just before a newline that ends the string,
      so the pattern is matched against the name without that newline. */
  function MatchedPart(name: string): string {
    if |name| > 0 && name[|name| - 1] == '\n' then name[..|name| - 1] else name
  }

  /** The second stamp's position in a name the pattern matches. */
  function SecondStamp(name: string): string
    requires |MatchedPart(name)| >= 32
  {
    var b := MatchedPart(name);
    b[|b| - 17..|b| - 3]
  }

  /** The match of the pattern. The tail has a fixed width of 32
      characters (two 14-digit stamps, the "_" between them and ".h5"), so
      the greedy `(.*)` takes everything before it; `.` does not match a
      newline, so the prefix holds none. */
  function MatchImageName(name: string): (r: Option<ImageMatch>)
    ensures r.Some? ==> IsStamp(r.value.start) && '\n' !in r.value.prefix
  {
    var b := MatchedPart(name);
    if |b| < 32 then None
    else
      var n := |b|;
      var prefix := b[..n - 32];
      var start := b[n - 32..n - 18];
      if '\n' !in prefix && AllDigits(start) && b[n - 18] == '_'
         && AllDigits(b[n - 17..n - 3]) && b[n - 3..] == ".h5"
      then Some(ImageMatch(prefix, start))
      else None
  }

  /** The name the pattern describes, with or without a final newline. */
  function ComposeName(prefix: string, start: string, second: string, newline: bool): string {
    prefix + start + "_" + second + ".h5" + if newline then "\n" else ""
  }

  /** Every name built as prefix, stamp, "_", stamp, ".h5" is an image name,
      and the parser gives back its prefix and its first stamp. */
  lemma MatchComposedName(prefix: string, start: string, second: string, newline: bool)
    requires '\n' !in prefix && IsStamp(start) && IsStamp(second)
    ensures MatchImageName(ComposeName(prefix, start, second, newline)) == Some(ImageMatch(prefix, start))
  {
    var name := ComposeName(prefix, start, second, newline);
    var b := prefix + start + "_" + second + ".h5";
    assert MatchedPart(name) == b;
    var n := |b|;
    assert b[..n - 32] == prefix;
    assert b[n - 32..n - 18] == start;
    assert b[n - 17..n - 3] == second;
    assert b[n - 3..] == ".h5";
  }

  /** Conversely, a name the parser accepts is exactly such a name: a name
      that does not end in "_", 14 digits and ".h5" after 14 digits is not
      an image file. */
  lemma MatchedNameIsComposed(name: string)
    requires MatchImageName(name).Some?
    ensures var m := MatchImageName(name).value;
      && '\n' !in m.prefix && IsStamp(m.start) && IsStamp(SecondStamp(name))
      && name == ComposeName(m.prefix, m.start, SecondStamp(name), name != MatchedPart(name))
  {
    var b := MatchedPart(name);
    var n := |b|;
    assert b == b[..n - 32] + b[n - 32..n - 18] + [b[n - 18]] + b[n - 17..n - 3] + b[n - 3..];
    if name != b {
      assert name == b + "\n";
    }
  }

  /** The six integers handed to `datetime(...)` (lines 183-188). */
  datatype DateTime = DateTime(year: int, month: int, day: int, hour: int, minute: int, second: int)

  function StartFields(start: string): DateTime
    requires IsStamp(start)
  {
    DateTime(Number(start[0..4]), Number(start[4..6]), Number(start[6..8]),
             Number(start[8..10]), Number(start[10..12]), Number(start[12..14]))
  }

  predicate IsLeapYear(year: int) {
    year % 4 == 0 && (year % 100 != 0 || year % 400 == 0)
  }

  function DaysInMonth(year: int, month: int): int
    requires 1 <= month <= 12
  {
    if month == 2 then (if IsLeapYear(year) then 29 else 28)
    else if month in {4, 6, 9, 11} then 30
    else 31
  }

  /** The arguments `datetime` accepts: years 1 to 9999, a real calendar
      day, hours, minutes and seconds in range. */
  predicate ValidDateTime(t: DateTime) {
    && 1 <= t.year <= 9999
    && 1 <= t.month <= 12
    && 1 <= t.day <= DaysInMonth(t.year, t.month)
    && 0 <= t.hour < 24 && 0 <= t.minute < 60 && 0 <= t.second < 60
  }

  /** A `datetime` value: one that construction did not refuse. */
  type Timestamp = t: DateTime | ValidDateTime(t) witness DateTime(1, 1, 1, 0, 0, 0)

  /** What a file name contributes to the scan. */
  datatype FileKind =
    | NotImage
      /** `datetime(...)` raised ValueError: the script has no handler for it. */
    | MalformedTimestamp
    | Image(key: string, stamp: Timestamp)

  /** The batch key of line 198: the prefix and the date digits YYYYMMDD. */
  function BatchKey(m: ImageMatch): string
    requires IsStamp(m.start)
  {
    m.prefix + m.start[..8]
  }

  function ClassifyFile(name: string): (r: FileKind)
    ensures r.NotImage? <==> MatchImageName(name).None?
  {
    match MatchImageName(name)
    case None => NotImage
    case Some(m) =>
      var t := StartFields(m.start);
      if ValidDateTime(t) then Image(BatchKey(m), t) else MalformedTimestamp
  }

  /** An image name is classified by the key and the time taken from its
      own first stamp, or fails when the stamp's fields are no date. */
  lemma ClassifyComposedName(prefix: string, start: string, second: string, newline: bool)
    requires '\n' !in prefix && IsStamp(start) && IsStamp(second)
    ensures ClassifyFile(ComposeName(prefix, start, second, newline))
         == if ValidDateTime(StartFields(start)) then Image(prefix + start[..8], StartFields(start))
            else MalformedTimestamp
  {
    MatchComposedName(prefix, start, second, newline);
  }

  /** The key has day granularity: two image names that agree on the
      prefix and on the date digits share a key, whatever their times of
      day and second stamps. */
  lemma KeyIgnoresTimeOfDay(prefix: string, start1: string, second1: string, newline1: bool,
                            start2: string, second2: string, newline2: bool)
    requires '\n' !in prefix && IsStamp(start1) && IsStamp(second1) && IsStamp(start2) && IsStamp(second2)
    requires start1[..8] == start2[..8]
    requires ValidDateTime(StartFields(start1)) && ValidDateTime(StartFields(start2))
    ensures var c1 := ClassifyFile(ComposeName(prefix, start1, second1, newline1));
      var c2 := ClassifyFile(ComposeName(prefix, start2, second2, newline2));
      c1.Image? && c2.Image? && c1.key == c2.key
  {
    ClassifyComposedName(prefix, start1, second1, newline1);
    ClassifyComposedName(prefix, start2, second2, newline2);
  }

  /** And the key tells prefix and date apart: equal keys mean equal
      prefixes and equal dates (the date has a fixed width). */
  lemma KeyDeterminesPrefixAndDate(m1: ImageMatch, m2: ImageMatch)
    requires IsStamp(m1.start) && IsStamp(m2.start)
    requires BatchKey(m1) == BatchKey(m2)
    ensures m1.prefix == m2.prefix && m1.start[..8] == m2.start[..8]
  {
    var k := BatchKey(m1);
    assert |m1.prefix| == |m2.prefix|;
    assert m1.prefix == k[..|m1.prefix|] == m2.prefix;
    assert m1.start[..8] == k[|m1.prefix|..] == m2.start[..8];
  }
}
