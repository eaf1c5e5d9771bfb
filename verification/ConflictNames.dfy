/** Names cut to fit a component: the conflict copy's and the trash's numbered one. A string
    is its UTF-8 bytes. */
module ConflictNames {
  import opened Prelude
  import opened Paths
  import opened Entries
  import Calendar

  /** A name's stem and its extension. Neither a directory nor a name whose only dot leads it has
      the second. */
  function SplitName(name: string, kind: Kind): (string, string) {
    var i := LastIndex(name, '.');
    if kind == Dir || i <= 0 then (name, "") else (name[..i], name[i..])
  }

  /** `n` does not fall inside a multi-byte character. */
  predicate IsBoundary(s: string, n: nat)
    requires n <= |s|
  {
    n == 0 || n == |s| || !(0x80 <= s[n] as int < 0xC0)
  }

  /** What fits in `max` bytes without splitting a character. */
  method Cut(s: string, max: nat) returns (r: string)
    ensures r == LongestCut(s, max)
  {
    var n: nat := if max < |s| then max else |s|;
    while !IsBoundary(s, n)
      invariant n <= |s| && n <= max
      invariant LongestCut(s, max) == LongestCut(s, n)
      decreases n
    {
      n := n - 1;
    }
    r := s[..n];
  }

  function LongestCut(s: string, max: nat): (r: string)
    ensures r <= s && |r| <= max
    ensures |s| <= max ==> r == s
    ensures IsBoundary(s, |r|)
    ensures forall n :: |r| < n <= max && n <= |s| ==> !IsBoundary(s, n)
    decreases max
  {
    if |s| <= max then s
    else if IsBoundary(s, max) then s[..max]
    else LongestCut(s, max - 1)
  }

  function Minus(a: nat, b: nat): nat {
    if a < b then 0 else a - b
  }

  /** A name of `max` bytes at most with the suffix in it: the extension is cut only when no stem
      is left. */
  function Fit(stem: string, suffix: string, ext: string, max: nat): string {
    var budget := Minus(max, |suffix|);
    if |stem| + |ext| <= budget then stem + suffix + ext
    else
      var s := LongestCut(stem, Minus(budget, |ext|));
      s + suffix + LongestCut(ext, Minus(budget, |s|))
  }

  /** A fitted name keeps its suffix whole between prefixes of the stem and the extension,
      stays within the limit if the suffix does, and loses the extension only after the stem. */
  lemma FitFacts(stem: string, suffix: string, ext: string, max: nat)
    ensures exists s, e :: Fit(stem, suffix, ext, max) == s + suffix + e && s <= stem && e <= ext
              && (e != ext ==> s == "")
    ensures |suffix| <= max ==> |Fit(stem, suffix, ext, max)| <= max
  {
    var budget := Minus(max, |suffix|);
    if |stem| + |ext| > budget {
      var s := LongestCut(stem, Minus(budget, |ext|));
      var e := LongestCut(ext, Minus(budget, |s|));
      assert Fit(stem, suffix, ext, max) == s + suffix + e;
    } else {
      assert Fit(stem, suffix, ext, max) == stem + suffix + ext;
    }
  }

  function Digits(n: nat): string {
    if n < 10 then ["0123456789"[n]] else Digits(n / 10) + ["0123456789"[n % 10]]
  }

  function PowerOfTen(k: nat): nat {
    if k == 0 then 1 else 10 * PowerOfTen(k - 1)
  }

  /** A number below ten to the `k` has at most `k` digits. */
  lemma {:induction false} FewDigits(n: nat, k: nat)
    requires k >= 1 && n < PowerOfTen(k)
    ensures |Digits(n)| <= k
  {
    if n >= 10 {
      FewDigits(n / 10, k - 1);
    }
  }

  /** Nothing in `s` ends a component. */
  predicate Clean(s: string) {
    '/' !in s && '\0' !in s
  }

  lemma CleanDigits(n: nat)
    ensures Clean(Digits(n))
  {
  }

  function Padded(n: nat, width: nat): string {
    Zeros(Minus(width, |Digits(n)|)) + Digits(n)
  }

  lemma PaddedWidth(n: nat, width: nat)
    requires width >= 1 && n < PowerOfTen(width)
    ensures |Padded(n, width)| == width && Clean(Padded(n, width))
  {
    FewDigits(n, width);
    CleanDigits(n);
  }

  function Zeros(n: nat): string {
    seq(n, i => '0')
  }

  function Year(y: int): string {
    if y < 0 then "-" + Padded(-y, 3) else Padded(y, 4)
  }

  const NANOS_PER_SECOND := 1_000_000_000

  /** `YYYYMMDD-HHMMSS` in UTC. */
  function FormatUtcCompact(nanos: int): string
  {
    var secs := nanos / NANOS_PER_SECOND;
    var sod := secs % 86_400;
    Calendar.CivilIsInverse(secs / 86_400);
    var t := Calendar.CivilFromDays(secs / 86_400);
    Year(t.year) + Padded(t.month, 2) + Padded(t.day, 2) + "-"
    + Padded(sod / 3600, 2) + Padded(sod % 3600 / 60, 2) + Padded(sod % 60, 2)
  }

  /** The source's 64-bit nanoseconds: the years 1677 to 2262. */
  predicate IsTime(nanos: int) {
    -0x8000_0000_0000_0000 <= nanos < 0x8000_0000_0000_0000
  }

  lemma FourDigitYear(days: int)
    requires -110_000 <= days <= 110_000
    ensures 0 <= Calendar.CivilFromDays(days).year < 10_000
  {
  }

  /** A time's stamp is fifteen bytes. */
  lemma CompactWidth(nanos: int)
    requires IsTime(nanos)
    ensures |FormatUtcCompact(nanos)| == 15 && Clean(FormatUtcCompact(nanos))
  {
    var secs := nanos / NANOS_PER_SECOND;
    var days, sod := secs / 86_400, secs % 86_400;
    assert -9_300_000_000 <= secs <= 9_300_000_000;
    Calendar.CivilIsInverse(days);
    FourDigitYear(days);
    var t := Calendar.CivilFromDays(days);
    assert PowerOfTen(2) == 100 && PowerOfTen(4) == 10_000;
    PaddedWidth(t.year, 4);
    PaddedWidth(t.month, 2);
    PaddedWidth(t.day, 2);
    PaddedWidth(sod / 3600, 2);
    PaddedWidth(sod % 3600 / 60, 2);
    PaddedWidth(sod % 60, 2);
  }

  /** What a decimal number reads as. */
  ghost function Reads(s: string): nat {
    if s == "" then 0
    else
      var c := s[|s| - 1] as int;
      10 * Reads(s[..|s| - 1]) + if 48 <= c <= 57 then c - 48 else 0
  }

  ghost predicate Decimal(s: string) {
    forall c :: c in s ==> '0' <= c <= '9'
  }

  lemma {:induction false} DigitsRead(n: nat)
    ensures Reads(Digits(n)) == n && Decimal(Digits(n))
  {
    var s := Digits(n);
    if n >= 10 {
      DigitsRead(n / 10);
      assert s[..|s| - 1] == Digits(n / 10);
    } else {
      assert s[..0] == "";
    }
  }

  lemma {:induction false} ZerosRead(k: nat, s: string)
    ensures Reads(Zeros(k) + s) == Reads(s)
    decreases |s|, k
  {
    var z := Zeros(k) + s;
    if s != "" {
      assert z[..|z| - 1] == Zeros(k) + s[..|s| - 1];
      ZerosRead(k, s[..|s| - 1]);
    } else if k > 0 {
      assert z[..|z| - 1] == Zeros(k - 1) + "";
      ZerosRead(k - 1, "");
    }
  }

  lemma PaddedReads(n: nat, width: nat)
    ensures Reads(Padded(n, width)) == n && Decimal(Padded(n, width))
  {
    DigitsRead(n);
    ZerosRead(Minus(width, |Digits(n)|), Digits(n));
  }

  /** A stamp reads back as the second the time is in: a date of the calendar and a time of day,
      which count up to it from the epoch. */
  lemma CompactReads(nanos: int)
    requires IsTime(nanos)
    ensures var s := FormatUtcCompact(nanos);
            && |s| == 15 && s[8] == '-' && Decimal(s[..8]) && Decimal(s[9..])
            && var d := Calendar.Date(Reads(s[..4]), Reads(s[4..6]), Reads(s[6..8]));
               var h, m, sec := Reads(s[9..11]), Reads(s[11..13]), Reads(s[13..15]);
               && Calendar.IsDate(d) && h < 24 && m < 60 && sec < 60
               && ((Calendar.DaysFromCivil(d) * 24 + h) * 60 + m) * 60 + sec == nanos / 1_000_000_000
  {
    hide FormatUtcCompact, Padded, Reads, Decimal, Calendar.CivilFromDays, Calendar.DaysFromCivil;
    var days, sod := nanos / NANOS_PER_SECOND / 86_400, nanos / NANOS_PER_SECOND % 86_400;
    var t := Calendar.CivilFromDays(days);
    CompactParts(nanos);
    assert PowerOfTen(2) == 100 && PowerOfTen(4) == 10_000;
    PartReads(t.year, 4);
    PartReads(t.month, 2);
    PartReads(t.day, 2);
    PartReads(sod / 3600, 2);
    PartReads(sod % 3600 / 60, 2);
    PartReads(sod % 60, 2);
    var y, mo, d := Padded(t.year, 4), Padded(t.month, 2), Padded(t.day, 2);
    var h, mi, sec := Padded(sod / 3600, 2), Padded(sod % 3600 / 60, 2), Padded(sod % 60, 2);
    Sliced(y, mo, d, h, mi, sec);
    DecimalAppend(y, mo, d);
    DecimalAppend(h, mi, sec);
  }

  lemma DecimalAppend(a: string, b: string, c: string)
    requires Decimal(a) && Decimal(b) && Decimal(c)
    ensures Decimal(a + b + c)
  {
  }

  lemma CompactParts(nanos: int)
    requires IsTime(nanos)
    ensures var days, sod := nanos / NANOS_PER_SECOND / 86_400, nanos / NANOS_PER_SECOND % 86_400;
            var t := Calendar.CivilFromDays(days);
            && 0 <= t.year < 10_000 && Calendar.IsDate(t) && Calendar.DaysFromCivil(t) == days
            && FormatUtcCompact(nanos) == Padded(t.year, 4) + Padded(t.month, 2) + Padded(t.day, 2) + "-"
                                          + Padded(sod / 3600, 2) + Padded(sod % 3600 / 60, 2) + Padded(sod % 60, 2)
  {
    hide Padded, Calendar.CivilFromDays, Calendar.DaysFromCivil;
    var secs := nanos / NANOS_PER_SECOND;
    assert -9_300_000_000 <= secs <= 9_300_000_000;
    Calendar.CivilIsInverse(secs / 86_400);
    FourDigitYear(secs / 86_400);
  }

  lemma PartReads(n: nat, width: nat)
    requires width >= 1 && n < PowerOfTen(width)
    ensures |Padded(n, width)| == width && Reads(Padded(n, width)) == n && Decimal(Padded(n, width))
  {
    PaddedWidth(n, width);
    PaddedReads(n, width);
  }

  lemma Sliced(y: string, mo: string, d: string, h: string, mi: string, sec: string)
    requires |y| == 4 && |mo| == |d| == |h| == |mi| == |sec| == 2
    ensures var s := y + mo + d + "-" + h + mi + sec;
            && |s| == 15 && s[8] == '-' && s[..4] == y && s[4..6] == mo && s[6..8] == d
            && s[9..11] == h && s[11..13] == mi && s[13..15] == sec
            && s[..8] == y + mo + d && s[9..] == h + mi + sec
  {
  }

  /** A node id is sixteen bytes; its short form is the first four, in hex. */
  function ShortId(n: nat): string {
    Hex(n, 32)[..8]
  }

  function Hex(n: nat, width: nat): (s: string)
    ensures |s| == width && Clean(s)
  {
    if width == 0 then "" else Hex(n / 16, width - 1) + [HEX_DIGITS[n % 16]]
  }

  function PowerOfSixteen(k: nat): nat {
    if k == 0 then 1 else 16 * PowerOfSixteen(k - 1)
  }

  /** What a hexadecimal number reads as. */
  ghost function ReadsHex(s: string): nat {
    if s == "" then 0 else 16 * ReadsHex(s[..|s| - 1]) + HexValue(s[|s| - 1])
  }

  ghost function HexValue(c: char): nat {
    var i := c as int;
    if 48 <= i <= 57 then i - 48 else if 97 <= i <= 102 then i - 87 else 0
  }

  const HEX_DIGITS := "0123456789abcdef"

  lemma DigitValue(d: nat)
    requires d < 16
    ensures HexValue(HEX_DIGITS[d]) == d
  {
  }

  /** Digits read back as the number, if there are digits enough for it. */
  lemma {:induction false} HexReads(n: nat, width: nat)
    requires n < PowerOfSixteen(width)
    ensures ReadsHex(Hex(n, width)) == n
  {
    hide HexValue, Clean;
    if width > 0 {
      HexReads(n / 16, width - 1);
      DigitValue(n % 16);
      var s := Hex(n, width);
      assert s == Hex(n / 16, width - 1) + [HEX_DIGITS[n % 16]];
      assert s[..|s| - 1] == Hex(n / 16, width - 1);
    }
  }

  const MAX_HOST_LEN: nat := 63

  predicate IsHostName(s: string) {
    |s| <= MAX_HOST_LEN && forall c :: c in s ==> 'a' <= c <= 'z' || '0' <= c <= '9' || c == '-'
  }

  function CopySuffix(l: Entry): string {
    ".conflict-" + FormatUtcCompact(l.mtime) + "-"
    + if l.authorHost == "" then ShortId(l.modifiedBy) else l.authorHost
  }

  lemma SuffixFits(l: Entry)
    requires IsTime(l.mtime) && IsHostName(l.authorHost)
    ensures 26 <= |CopySuffix(l)| <= MAX_COMPONENT_LEN && Clean(CopySuffix(l))
  {
    hide FormatUtcCompact, ShortId, IsTime;
    CompactWidth(l.mtime);
    ShortIdWidth(l.modifiedBy);
  }

  lemma ShortIdWidth(n: nat)
    ensures |ShortId(n)| == 8 && Clean(ShortId(n))
  {
  }

  /** The short form is the first eight of the thirty-two digits that read back as the id. */
  lemma ShortIdBegins(n: nat)
    requires n < PowerOfSixteen(32)
    ensures |ShortId(n)| == 8 && exists rest :: ReadsHex(ShortId(n) + rest) == n && |rest| == 24
  {
    hide PowerOfSixteen, ReadsHex, Hex;
    HexReads(n, 32);
    assert Hex(n, 32)[..8] + Hex(n, 32)[8..] == Hex(n, 32);
  }

  /** The suffix says when the losing version was written and by whom: its author's host, or short
      id where the host has no name. */
  lemma SuffixNames(l: Entry)
    requires IsTime(l.mtime)
    ensures var s := CopySuffix(l);
            && |s| >= 26 && s[..10] == ".conflict-" && s[10..25] == FormatUtcCompact(l.mtime) && s[25] == '-'
            && s[26..] == if |l.authorHost| > 0 then l.authorHost else ShortId(l.modifiedBy)
  {
    hide FormatUtcCompact, ShortId, IsTime;
    CompactWidth(l.mtime);
  }

  /** The path the losing entry `l` is kept at: beside it, and made of `l` alone; none should that
      be no path. */
  function ConflictCopyName(l: Entry): Option<RelPath> {
    var name := FittedCopy(l);
    var p := Join(Parent(l.path), name);
    if IsPath(p) && (Parent(l.path).Some? ==> '/' !in name) then Some(p) else None
  }

  function FittedCopy(l: Entry): string {
    var parts := SplitName(FileName(l.path), l.kind);
    Fit(parts.0, CopySuffix(l), parts.1, MAX_COMPONENT_LEN)
  }

  lemma SplitParts(name: string, kind: Kind)
    requires Clean(name)
    ensures Clean(SplitName(name, kind).0) && Clean(SplitName(name, kind).1)
    ensures SplitName(name, kind).0 + SplitName(name, kind).1 == name
  {
  }

  /** The extension is the last dot and what follows it; a directory has none, nor has a name with
      no dot past its first byte. */
  lemma ExtensionMeans(name: string, kind: Kind)
    ensures var (stem, ext) := SplitName(name, kind);
            && stem + ext == name && (ext == "" || (stem != "" && kind != Dir && ext[0] == '.' && '.' !in ext[1..]))
            && (ext == "" && kind != Dir && name != "" ==> '.' !in name[1..])
  {
    assert forall i :: 1 <= i < |name| ==> name[i] == name[1..][i - 1];
  }

  /** The copy's name keeps the whole suffix, between beginnings of the stem and the extension. */
  ghost predicate CarriesSuffix(l: Entry, name: string) {
    exists s, e :: name == s + CopySuffix(l) + e
                   && s <= SplitName(FileName(l.path), l.kind).0
                   && e <= SplitName(FileName(l.path), l.kind).1
                   && (e != SplitName(FileName(l.path), l.kind).1 ==> s == "")
  }

  lemma FittedIsComponent(l: Entry)
    requires Clean(FileName(l.path)) && IsTime(l.mtime) && IsHostName(l.authorHost)
    ensures IsComponent(FittedCopy(l)) && |FittedCopy(l)| > |RESERVED_DIR| && CarriesSuffix(l, FittedCopy(l))
    ensures |FileName(l.path)| + |CopySuffix(l)| <= MAX_COMPONENT_LEN ==> FittedCopy(l) != FileName(l.path)
  {
    hide SplitName, CopySuffix;
    var parts := SplitName(FileName(l.path), l.kind);
    SuffixFits(l);
    SplitParts(FileName(l.path), l.kind);
    FitFacts(parts.0, CopySuffix(l), parts.1, MAX_COMPONENT_LEN);
    var s, e :| FittedCopy(l) == s + CopySuffix(l) + e && s <= parts.0 && e <= parts.1 && (e != parts.1 ==> s == "");
    PrefixClean(s, parts.0);
    PrefixClean(e, parts.1);
  }

  lemma PrefixClean(s: string, t: string)
    requires s <= t && Clean(t)
    ensures Clean(s)
  {
  }

  /** There always is one: a proper path beside the entry's own, whose name says which version
      lost. Where nothing had to be cut, it is not the entry's own path. */
  lemma ConflictCopyIsSibling(l: Entry)
    requires IsPath(l.path) && IsTime(l.mtime) && IsHostName(l.authorHost)
    ensures ConflictCopyName(l).Some?
    ensures var copy := ConflictCopyName(l).value;
            && IsPath(copy) && Parent(copy) == Parent(l.path) && CarriesSuffix(l, FileName(copy))
            && (|FileName(l.path)| + |CopySuffix(l)| <= MAX_COMPONENT_LEN ==> copy != l.path)
  {
    hide SplitName, CopySuffix, FittedCopy, CarriesSuffix;
    FittedIsComponent(l);
    JoinIsPath(Parent(l.path), FittedCopy(l));
    JoinParent(Parent(l.path), FittedCopy(l));
  }
}
