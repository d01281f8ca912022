/** Sparkle build numbers of release versions, in two encodings joined at 2026.6.5.
    scripts/sparkle-build.ts. */
module SparkleBuild {
  import opened Text

  // ---------- digits ----------

  predicate IsDigit(c: char) {
    '0' <= c <= '9'
  }

  predicate AllDigits(s: string) {
    forall i | 0 <= i < |s| :: IsDigit(s[i])
  }

  /** `Number(s)` for a string of digits. */
  function Value(s: string): nat
    requires AllDigits(s)
  {
    if s == "" then 0 else 10 * Value(s[..|s| - 1]) + (s[|s| - 1] - '0') as nat
  }

  function Pow10(n: nat): (r: nat)
    ensures r >= 1
  {
    if n == 0 then 1 else 10 * Pow10(n - 1)
  }

  lemma {:induction false} ValueOfDecimal(n: nat)
    ensures AllDigits(Decimal(n)) && Value(Decimal(n)) == n
  {
    var s := Decimal(n);
    assert s[|s| - 1] == '0' + ((n % 10) as char);
    if n >= 10 {
      ValueOfDecimal(n / 10);
      assert s[..|s| - 1] == Decimal(n / 10);
    } else {
      assert s[..|s| - 1] == "";
    }
  }

  lemma Shift(a: nat, p: nat, b: nat, digit: nat)
    ensures 10 * (a * p + b) + digit == a * (10 * p) + (10 * b + digit)
  {
  }

  lemma {:induction false} ValueAppend(a: string, b: string)
    requires AllDigits(a) && AllDigits(b)
    ensures AllDigits(a + b) && Value(a + b) == Value(a) * Pow10(|b|) + Value(b)
  {
    if b == "" {
      assert a + b == a;
    } else {
      var init, digit := b[..|b| - 1], (b[|b| - 1] - '0') as nat;
      ValueAppend(a, init);
      assert (a + b)[..|a + b| - 1] == a + init && (a + b)[|a + b| - 1] == b[|b| - 1];
      Shift(Value(a), Pow10(|init|), Value(init), digit);
    }
  }

  function PadStart2(s: string): string {
    if |s| == 0 then "00" else if |s| == 1 then "0" + s else s
  }

  lemma PadKeepsValue(n: nat)
    ensures AllDigits(PadStart2(Decimal(n))) && Value(PadStart2(Decimal(n))) == n
    ensures |PadStart2(Decimal(n))| >= 2
  {
    ValueOfDecimal(n);
    if |Decimal(n)| == 1 {
      ValueAppend("0", Decimal(n));
      assert Value("0") == 0;
    }
  }

  lemma Widths(n: nat)
    ensures |Decimal(n)| == 1 <==> n < 10
    ensures |Decimal(n)| == 2 <==> 10 <= n < 100
    ensures |PadStart2(Decimal(n))| == 2 <==> n < 100
    ensures |PadStart2(Decimal(n))| >= 2
  {
    assert n >= 10 ==> |Decimal(n)| == |Decimal(n / 10)| + 1;
    assert n >= 100 ==> |Decimal(n / 10)| == |Decimal(n / 100)| + 1;
  }

  lemma {:induction false} Pow10Monotone(a: nat, b: nat)
    requires a <= b
    ensures Pow10(a) <= Pow10(b)
  {
    if a < b {
      Pow10Monotone(a, b - 1);
    }
  }

  lemma SmallPowers()
    ensures Pow10(1) == 10 && Pow10(2) == 100 && Pow10(3) == 1000 && Pow10(4) == 10000 && Pow10(5) == 100000
  {
    assert Pow10(1) == 10;
    assert Pow10(2) == 100;
    assert Pow10(3) == 1000;
    assert Pow10(4) == 10000;
  }

  // ---------- build numbers ----------

  datatype Release = Release(year: nat, month: nat, patch: nat)

  const ADOPTION := Release(2026, 6, 5)

  function Sign(n: int): int {
    if n < 0 then -1 else if n > 0 then 1 else 0
  }

  function CompareReleaseParts(left: Release, right: Release): int {
    if left.year != right.year then Sign(left.year - right.year)
    else if left.month != right.month then Sign(left.month - right.month)
    else Sign(left.patch - right.patch)
  }

  predicate UsesMonthlyPatch(r: Release) {
    CompareReleaseParts(r, ADOPTION) >= 0
  }

  function LegacyDateReleaseKey(r: Release): nat {
    ValueOfDecimal(r.year);
    PadKeepsValue(r.month);
    PadKeepsValue(r.patch);
    Value(Decimal(r.year) + PadStart2(Decimal(r.month)) + PadStart2(Decimal(r.patch)))
  }

  function MonthlyPatchReleaseKey(r: Release): int {
    (r.year - 2000) * 100000000 + r.month * 1000000 + r.patch * 100
  }

  datatype Floors = Floors(releaseKey: int, legacyFloor: int, laneFloor: int, lane: nat)

  function FloorsOf(r: Release, lane: nat): Floors {
    if UsesMonthlyPatch(r) then
      var key := MonthlyPatchReleaseKey(r);
      Floors(key, key, key + lane, lane)
    else
      var key := LegacyDateReleaseKey(r);
      ValueOfDecimal(key);
      PadKeepsValue(lane);
      Floors(key, Value(Decimal(key) + "0"), Value(Decimal(key) + PadStart2(Decimal(lane))), lane)
  }

  // ---------- the digits say what arithmetic says ----------

  /** How many digits the patch takes in the legacy key. */
  function PatchWidth(patch: nat): nat {
    |PadStart2(Decimal(patch))|
  }

  lemma LegacyKeyIsPositional(r: Release)
    requires r.month < 100
    ensures LegacyDateReleaseKey(r)
      == (r.year * 100 + r.month) * Pow10(PatchWidth(r.patch)) + r.patch
    ensures r.patch <= 99 <==> PatchWidth(r.patch) == 2
    ensures PatchWidth(r.patch) >= 2
  {
    var y, m, p := Decimal(r.year), PadStart2(Decimal(r.month)), PadStart2(Decimal(r.patch));
    ValueOfDecimal(r.year);
    PadKeepsValue(r.month);
    PadKeepsValue(r.patch);
    SmallPowers();
    Widths(r.month);
    Widths(r.patch);
    hide Value, Pow10, Decimal, PadStart2;
    ValueAppend(y, m);
    ValueAppend(y + m, p);
  }

  /** The legacy floors, written by appending digits, in arithmetic. */
  lemma LegacyFloorsArePositional(r: Release, lane: nat)
    requires !UsesMonthlyPatch(r) && lane < 100
    ensures var f := FloorsOf(r, lane);
      && f.releaseKey == LegacyDateReleaseKey(r)
      && f.legacyFloor == 10 * f.releaseKey
      && f.laneFloor == 100 * f.releaseKey + lane
  {
    var key := LegacyDateReleaseKey(r);
    ValueOfDecimal(key);
    PadKeepsValue(lane);
    SmallPowers();
    Widths(lane);
    assert Value("0") == 0;
    hide Value, Pow10, Decimal, PadStart2, LegacyDateReleaseKey;
    ValueAppend(Decimal(key), "0");
    ValueAppend(Decimal(key), PadStart2(Decimal(lane)));
  }

  // ---------- order ----------

  datatype Version = Version(release: Release, lane: nat)

  /** What a version string can denote. */
  predicate Valid(v: Version) {
    v.release.year <= 9999 && 1 <= v.release.month <= 12 && v.release.patch >= 1 && v.lane <= 90
  }

  predicate Before(a: Version, b: Version) {
    CompareReleaseParts(a.release, b.release) < 0 || (a.release == b.release && a.lane < b.lane)
  }

  function Build(v: Version): int {
    FloorsOf(v.release, v.lane).laneFloor
  }

  /** The patches for which the build number stays below those of all later versions. */
  predicate SafePatch(r: Release) {
    if !UsesMonthlyPatch(r) then r.patch <= 99
    else if r.month < 12 then r.patch <= 10000
    else r.patch <= 890000
  }

  lemma ScaleUp(a: nat, x: nat, y: nat)
    requires x <= y
    ensures a * x <= a * y
  {
  }

  lemma WidePatch(r: Release)
    requires r.month <= 12 && r.patch > 99
    ensures LegacyDateReleaseKey(r) >= (r.year * 100 + r.month) * 1000 + r.patch
  {
    LegacyKeyIsPositional(r);
    SmallPowers();
    hide LegacyDateReleaseKey, PatchWidth, Pow10;
    Pow10Monotone(3, PatchWidth(r.patch));
    ScaleUp(r.year * 100 + r.month, 1000, Pow10(PatchWidth(r.patch)));
  }

  lemma LegacyArithmetic(r: Release, lane: nat)
    requires !UsesMonthlyPatch(r) && r.month <= 12 && lane < 100
    ensures r.patch <= 99 ==> FloorsOf(r, lane).laneFloor == ((r.year * 100 + r.month) * 100 + r.patch) * 100 + lane
    ensures r.patch > 99 ==> FloorsOf(r, lane).laneFloor >= ((r.year * 100 + r.month) * 1000 + r.patch) * 100 + lane
  {
    LegacyFloorsArePositional(r, lane);
    LegacyKeyIsPositional(r);
    SmallPowers();
    hide FloorsOf, LegacyDateReleaseKey, PatchWidth, Pow10;
    if r.patch > 99 {
      WidePatch(r);
    } else {
      assert Pow10(PatchWidth(r.patch)) == 100;
    }
  }

  /** Build numbers in arithmetic. */
  lemma BuildArithmetic(v: Version)
    requires Valid(v)
    ensures UsesMonthlyPatch(v.release) ==>
      Build(v) == (v.release.year - 2000) * 100000000 + v.release.month * 1000000 + v.release.patch * 100 + v.lane
    ensures !UsesMonthlyPatch(v.release) && v.release.patch <= 99 ==>
      Build(v) == v.release.year * 1000000 + v.release.month * 10000 + v.release.patch * 100 + v.lane
    ensures !UsesMonthlyPatch(v.release) && v.release.patch > 99 ==>
      Build(v) >= v.release.year * 10000000 + v.release.month * 100000 + v.release.patch * 100 + v.lane
  {
    if !UsesMonthlyPatch(v.release) {
      hide FloorsOf, UsesMonthlyPatch;
      LegacyArithmetic(v.release, v.lane);
    }
  }

  lemma LegacyAtLeast(w: Version)
    requires Valid(w) && !UsesMonthlyPatch(w.release)
    ensures Build(w) >= w.release.year * 1000000 + w.release.month * 10000 + w.release.patch * 100 + w.lane
  {
    BuildArithmetic(w);
    hide Build, UsesMonthlyPatch;
  }

  lemma BeforeMeans(v: Version, w: Version)
    requires Before(v, w)
    ensures v.release.year <= w.release.year
    ensures v.release.year == w.release.year ==> v.release.month <= w.release.month
    ensures v.release.year == w.release.year && v.release.month == w.release.month ==>
      v.release.patch < w.release.patch || (v.release.patch == w.release.patch && v.lane < w.lane)
  {
  }

  lemma LegacyBelowLegacy(v: Version, w: Version)
    requires Valid(v) && Valid(w) && Before(v, w) && v.release.patch <= 99
    requires !UsesMonthlyPatch(v.release) && !UsesMonthlyPatch(w.release)
    ensures Build(v) < Build(w)
  {
    BuildArithmetic(v);
    LegacyAtLeast(w);
    BeforeMeans(v, w);
    hide Build, UsesMonthlyPatch, Before;
  }

  lemma LegacyBelowMonthly(v: Version, w: Version)
    requires Valid(v) && Valid(w) && v.release.patch <= 99
    requires !UsesMonthlyPatch(v.release) && UsesMonthlyPatch(w.release)
    ensures Build(v) < Build(w)
  {
    BuildArithmetic(v);
    BuildArithmetic(w);
    assert v.release.year <= 2026 && w.release.year >= 2026;
    assert w.release.year == 2026 ==> w.release.month >= 6;
    hide Build, UsesMonthlyPatch;
  }

  lemma MonthlyBelowMonthly(v: Version, w: Version)
    requires Valid(v) && Valid(w) && Before(v, w)
    requires if v.release.month < 12 then v.release.patch <= 10000 else v.release.patch <= 890000
    requires UsesMonthlyPatch(v.release) && UsesMonthlyPatch(w.release)
    ensures Build(v) < Build(w)
  {
    BuildArithmetic(v);
    BuildArithmetic(w);
    BeforeMeans(v, w);
    hide Build, UsesMonthlyPatch, Before;
  }

  /** The change of encoding is never undone by a later version. */
  lemma MonthlyStays(v: Version, w: Version)
    requires Before(v, w) && UsesMonthlyPatch(v.release)
    ensures UsesMonthlyPatch(w.release)
  {
  }

  lemma SafeStaysBelow(v: Version, w: Version)
    requires Valid(v) && Valid(w) && Before(v, w) && SafePatch(v.release)
    ensures Build(v) < Build(w)
  {
    hide UsesMonthlyPatch, Before, Build, Valid;
    if UsesMonthlyPatch(v.release) {
      MonthlyStays(v, w);
      MonthlyBelowMonthly(v, w);
    } else if UsesMonthlyPatch(w.release) {
      LegacyBelowMonthly(v, w);
    } else {
      LegacyBelowLegacy(v, w);
    }
  }

  /** The first version of the next month. */
  function NextMonth(v: Version): Version {
    var r := v.release;
    if r.month < 12 then Version(Release(r.year, r.month + 1, 1), 0) else Version(Release(r.year + 1, 1, 1), 0)
  }

  /** The last month that a version string can denote. */
  predicate InLastMonth(r: Release) {
    r.year == 9999 && r.month == 12
  }

  lemma NextMonthIsLater(v: Version)
    requires Valid(v) && !InLastMonth(v.release)
    ensures Valid(NextMonth(v)) && Before(v, NextMonth(v))
    ensures UsesMonthlyPatch(v.release) ==> UsesMonthlyPatch(NextMonth(v).release)
    ensures !UsesMonthlyPatch(v.release) && v.release.patch > 99 ==> !UsesMonthlyPatch(NextMonth(v).release)
  {
  }

  /** An unsafe patch overtakes the first version of the next month or year. */
  lemma UnsafeOvertakes(v: Version)
    requires Valid(v) && !SafePatch(v.release) && !InLastMonth(v.release)
    ensures Valid(NextMonth(v)) && Before(v, NextMonth(v)) && Build(v) >= Build(NextMonth(v))
  {
    NextMonthIsLater(v);
    BuildArithmetic(v);
    BuildArithmetic(NextMonth(v));
    hide Build, UsesMonthlyPatch, Before;
  }

  lemma LastMonthStaysBelow(v: Version, w: Version)
    requires Valid(v) && Valid(w) && Before(v, w) && InLastMonth(v.release)
    ensures Build(v) < Build(w)
  {
    BuildArithmetic(v);
    BuildArithmetic(w);
    BeforeMeans(v, w);
    assert UsesMonthlyPatch(v.release) && UsesMonthlyPatch(w.release);
    hide Build, UsesMonthlyPatch, Before;
  }

  /** Whether a version's build number is below those of all later versions depends only on
      its patch: up to 99 before the adoption of monthly patches, up to 10000 after it, and
      up to 890000 in a December; in the last month of all any patch will do. */
  lemma BelowAllLaterIff(v: Version)
    requires Valid(v)
    ensures (forall w :: Valid(w) && Before(v, w) ==> Build(v) < Build(w))
      <==> SafePatch(v.release) || InLastMonth(v.release)
  {
    hide SafePatch, InLastMonth;
    if SafePatch(v.release) || InLastMonth(v.release) {
      forall w | Valid(w) && Before(v, w) ensures Build(v) < Build(w) {
        if SafePatch(v.release) {
          SafeStaysBelow(v, w);
        } else {
          LastMonthStaysBelow(v, w);
        }
      }
    } else {
      UnsafeOvertakes(v);
    }
  }

  /** Among safe versions the build numbers are ordered exactly as the versions, across the
      change of encoding too, and no number leaves the range of exact integers. */
  lemma BuildsOrderVersions(a: Version, b: Version)
    requires Valid(a) && Valid(b) && SafePatch(a.release) && SafePatch(b.release)
    ensures Build(a) < Build(b) <==> Before(a, b)
    ensures Build(a) == Build(b) <==> a == b
    ensures 0 <= Build(a) < 0x20_0000_0000_0000
  {
    BuildArithmetic(a);
    hide Build;
    if Before(a, b) {
      SafeStaysBelow(a, b);
    } else if Before(b, a) {
      SafeStaysBelow(b, a);
    } else {
      assert a == b;
    }
  }

  // ---------- reading a version string ----------

  /** How many digits `s` starts with. */
  function DigitRun(s: string): (n: nat)
    ensures n <= |s| && AllDigits(s[..n])
    ensures n < |s| ==> !IsDigit(s[n])
  {
    if s == "" || !IsDigit(s[0]) then 0
    else
      var n := 1 + DigitRun(s[1..]);
      assert forall i :: 1 <= i < n ==> s[i] == s[1..][i - 1];
      n
  }

  function TrailingDigits(s: string): (r: string)
    ensures AllDigits(r)
  {
    if s == "" || !IsDigit(s[|s| - 1]) then "" else TrailingDigits(s[..|s| - 1]) + [s[|s| - 1]]
  }

  predicate IsLineTerminator(c: char) {
    c == '\n' || c == '\r' || c == '\U{2028}' || c == '\U{2029}'
  }

  predicate IsSuffix(s: string) {
    s == "" || ((s[0] == '.' || s[0] == '-') && forall i | 0 <= i < |s| :: !IsLineTerminator(s[i]))
  }

  /** Digits of a width in the given range, and what follows the dot after them. */
  function DigitsThenDot(s: string, least: nat, most: nat): Option<(nat, string)> {
    var n := DigitRun(s);
    if n < least || n > most || |s| == n || s[n] != '.' then None else Some((Value(s[..n]), s[n + 1..]))
  }

  /** A number that does not start with a zero, and the suffix after it. */
  function PatchThenSuffix(s: string): Option<(nat, string)> {
    var n := DigitRun(s);
    if n == 0 || s[0] == '0' || !IsSuffix(s[n..]) then None else Some((Value(s[..n]), s[n..]))
  }

  /** The release part and the suffix of a version string, as its pattern matches them. */
  function ParseVersion(text: string): Option<(Release, string)> {
    var year := DigitsThenDot(Trim(text), 4, 4);
    if year.None? then None
    else
      var month := DigitsThenDot(year.value.1, 1, 2);
      if month.None? then None
      else
        var patch := PatchThenSuffix(month.value.1);
        if patch.None? || month.value.0 < 1 || month.value.0 > 12 || patch.value.0 < 1 then None
        else Some((Release(year.value.0, month.value.0, patch.value.0), patch.value.1))
  }

  function LaneOf(suffix: string): nat {
    if suffix == "" then 90
    else
      var digits := TrailingDigits(suffix);
      if digits == "" then 1 else if Value(digits) < 89 then Value(digits) else 89
  }

  function VersionOf(text: string): Option<Version> {
    match ParseVersion(text)
    case None => None
    case Some((r, suffix)) => Some(Version(r, LaneOf(suffix)))
  }

  /** sparkleBuildFloorsFromShortVersion. */
  function SparkleBuildFloors(text: string): Option<Floors> {
    match VersionOf(text)
    case None => None
    case Some(v) => Some(FloorsOf(v.release, v.lane))
  }

  lemma {:induction false} ValueBound(s: string)
    requires AllDigits(s)
    ensures Value(s) < Pow10(|s|)
  {
    if s != "" {
      ValueBound(s[..|s| - 1]);
    }
  }

  lemma YearBound(s: string)
    ensures DigitsThenDot(s, 4, 4).Some? ==> DigitsThenDot(s, 4, 4).value.0 <= 9999
  {
    ValueBound(s[..DigitRun(s)]);
    SmallPowers();
    hide Value, Pow10;
  }

  lemma ParsedIsValid(text: string)
    requires VersionOf(text).Some?
    ensures Valid(VersionOf(text).value)
  {
    YearBound(Trim(text));
    hide Trim, Value, DigitsThenDot, PatchThenSuffix, TrailingDigits;
  }

  /** For every two version strings with safe patches, whatever their spelling, the build
      numbers compare as the versions they denote. */
  lemma TextBuildsOrder(a: string, b: string)
    requires VersionOf(a).Some? && VersionOf(b).Some?
    requires SafePatch(VersionOf(a).value.release) && SafePatch(VersionOf(b).value.release)
    ensures SparkleBuildFloors(a).Some? && SparkleBuildFloors(b).Some?
    ensures SparkleBuildFloors(a).value.laneFloor < SparkleBuildFloors(b).value.laneFloor
      <==> Before(VersionOf(a).value, VersionOf(b).value)
  {
    ParsedIsValid(a);
    ParsedIsValid(b);
    hide VersionOf, FloorsOf, Before;
    BuildsOrderVersions(VersionOf(a).value, VersionOf(b).value);
  }

  // ---------- what the lane says about the string ----------

  /** A suffix is what precedes its trailing digits and those digits. */
  lemma {:induction false} TrailingSplit(s: string)
    ensures var digits := TrailingDigits(s);
      && |digits| <= |s| && s == s[..|s| - |digits|] + digits
      && (|digits| < |s| ==> !IsDigit(s[|s| - |digits| - 1]))
  {
    if s != "" && IsDigit(s[|s| - 1]) {
      var init, last := s[..|s| - 1], s[|s| - 1];
      var digits := TrailingDigits(init);
      assert TrailingDigits(s) == digits + [last];
      hide TrailingDigits, AllDigits;
      TrailingSplit(init);
      assert s == init + [last] && s[..|s| - |digits| - 1] == init[..|init| - |digits|];
    }
  }

  lemma {:induction false} TrailingOf(init: string, digits: string)
    requires AllDigits(digits) && (init != "" ==> !IsDigit(init[|init| - 1]))
    ensures TrailingDigits(init + digits) == digits
    decreases |digits|
  {
    if digits == "" {
      assert init + digits == init;
    } else {
      var n := |digits| - 1;
      assert (init + digits)[..|init + digits| - 1] == init + digits[..n];
      TrailingOf(init, digits[..n]);
    }
  }

  /** The lane of a suffix: 90 exactly if there is none; the number in its last digits, up
      to 89, if it ends in a digit; and 1 if it does not. */
  lemma LaneMeaning(init: string, digits: string)
    requires AllDigits(digits) && (init != "" ==> !IsDigit(init[|init| - 1]))
    ensures LaneOf(init + digits) == 90 <==> init + digits == ""
    ensures digits != "" ==> LaneOf(init + digits) == Min(Value(digits), 89)
    ensures digits == "" && init != "" ==> LaneOf(init + digits) == 1
  {
    TrailingOf(init, digits);
    hide TrailingDigits, Value;
  }

  /** Every suffix has such a form, so this says what every lane is. */
  lemma LaneOfEverySuffix(suffix: string) returns (init: string, digits: string)
    ensures suffix == init + digits && AllDigits(digits) && (init != "" ==> !IsDigit(init[|init| - 1]))
    ensures LaneOf(suffix) ==
      if suffix == "" then 90 else if digits == "" then 1 else Min(Value(digits), 89)
  {
    TrailingSplit(suffix);
    digits := TrailingDigits(suffix);
    init := suffix[..|suffix| - |digits|];
    LaneMeaning(init, digits);
    hide LaneOf, TrailingDigits, Value;
  }

  /** Builds of one release are ordered by lane, whatever its patch. */
  lemma LanesOrder(r: Release, a: nat, b: nat)
    requires a < 100 && b < 100
    ensures FloorsOf(r, a).laneFloor < FloorsOf(r, b).laneFloor <==> a < b
  {
    if !UsesMonthlyPatch(r) {
      LegacyFloorsArePositional(r, a);
      LegacyFloorsArePositional(r, b);
      hide FloorsOf, LegacyDateReleaseKey;
    }
  }

  lemma FloorsOfText(text: string, r: Release, suffix: string)
    requires ParseVersion(text) == Some((r, suffix))
    ensures SparkleBuildFloors(text) == Some(FloorsOf(r, LaneOf(suffix)))
  {
    hide ParseVersion, LaneOf, FloorsOf;
  }

  lemma LaneBelow100(suffix: string)
    ensures LaneOf(suffix) <= 90 && (suffix != "" ==> LaneOf(suffix) < 90)
  {
    hide TrailingDigits, Value;
  }

  /** A final release builds above every suffixed version of it. */
  lemma FinalBuildsAboveSuffixed(final: string, other: string, r: Release, suffix: string)
    requires ParseVersion(final) == Some((r, "")) && ParseVersion(other) == Some((r, suffix)) && suffix != ""
    ensures SparkleBuildFloors(final).Some? && SparkleBuildFloors(other).Some?
    ensures SparkleBuildFloors(other).value.laneFloor < SparkleBuildFloors(final).value.laneFloor
  {
    FloorsOfText(final, r, "");
    FloorsOfText(other, r, suffix);
    LaneBelow100(suffix);
    assert LaneOf("") == 90;
    hide *;
    LanesOrder(r, LaneOf(suffix), LaneOf(""));
  }

  /** Numbered suffixes of one release build in the order of their numbers as long as the
      smaller number is below 89, whatever their names; from 89 on they build alike. */
  lemma NumberedSuffixesOrder(a: string, b: string, r: Release, name: string, m: nat, other: string, n: nat)
    requires name != "" && !IsDigit(name[|name| - 1]) && other != "" && !IsDigit(other[|other| - 1])
    requires ParseVersion(a) == Some((r, name + Decimal(m))) && ParseVersion(b) == Some((r, other + Decimal(n)))
    ensures SparkleBuildFloors(a).Some? && SparkleBuildFloors(b).Some?
    ensures SparkleBuildFloors(a).value.laneFloor < SparkleBuildFloors(b).value.laneFloor <==> m < n && m < 89
    ensures SparkleBuildFloors(a).value.laneFloor == SparkleBuildFloors(b).value.laneFloor <==>
      m == n || (m >= 89 && n >= 89)
  {
    FloorsOfText(a, r, name + Decimal(m));
    FloorsOfText(b, r, other + Decimal(n));
    ValueOfDecimal(m);
    ValueOfDecimal(n);
    LaneMeaning(name, Decimal(m));
    LaneMeaning(other, Decimal(n));
    hide ParseVersion, FloorsOf, LaneOf, SparkleBuildFloors, Decimal, Value;
    var x, y := LaneOf(name + Decimal(m)), LaneOf(other + Decimal(n));
    LanesOrder(r, x, y);
    LanesOrder(r, y, x);
  }

  function PadStart4(s: string): string
    decreases 4 - |s|
  {
    if |s| < 4 then PadStart4("0" + s) else s
  }

  function PrintVersion(r: Release, suffix: string): string {
    PadStart4(Decimal(r.year)) + ("." + (Decimal(r.month) + ("." + (Decimal(r.patch) + suffix))))
  }

  lemma {:induction false} RunOfPrefix(digits: string, rest: string)
    requires AllDigits(digits) && (rest == "" || !IsDigit(rest[0]))
    ensures DigitRun(digits + rest) == |digits|
  {
    if digits == "" {
      assert digits + rest == rest;
    } else {
      assert (digits + rest)[1..] == digits[1..] + rest;
      RunOfPrefix(digits[1..], rest);
    }
  }

  lemma {:induction false} PadKeepsValue4(s: string)
    requires AllDigits(s) && 1 <= |s| <= 4
    ensures AllDigits(PadStart4(s)) && Value(PadStart4(s)) == Value(s) && |PadStart4(s)| == 4
    decreases 4 - |s|
  {
    if |s| < 4 {
      ValueAppend("0", s);
      assert Value("0") == 0;
      PadKeepsValue4("0" + s);
    }
  }

  lemma {:induction false} FirstDigit(n: nat)
    requires n > 0
    ensures Decimal(n)[0] != '0'
  {
    if n >= 10 {
      FirstDigit(n / 10);
    }
  }

  lemma DigitsOfYear(n: nat)
    requires n <= 9999
    ensures |Decimal(n)| <= 4
  {
    Widths(n / 100);
    assert n >= 10 ==> |Decimal(n)| == |Decimal(n / 10)| + 1;
    assert n >= 100 ==> |Decimal(n / 10)| == |Decimal(n / 100)| + 1;
  }

  lemma TrimNothing(s: string)
    requires s != "" && !IsSpace(s[0]) && !IsSpace(s[|s| - 1])
    ensures Trim(s) == s
  {
  }

  lemma PrintedEdges(r: Release, suffix: string)
    requires suffix != "" ==> !IsSpace(suffix[|suffix| - 1])
    requires |PadStart4(Decimal(r.year))| == 4 && AllDigits(PadStart4(Decimal(r.year)))
    ensures Trim(PrintVersion(r, suffix)) == PrintVersion(r, suffix)
  {
    var y, s := PadStart4(Decimal(r.year)), PrintVersion(r, suffix);
    var last := if suffix == "" then Decimal(r.patch) else suffix;
    assert s[0] == y[0] && IsDigit(y[0]);
    assert s[|s| - 1] == last[|last| - 1];
    TrimNothing(s);
  }

  lemma RunThenDot(digits: string, rest: string, least: nat, most: nat)
    requires AllDigits(digits) && least <= |digits| <= most
    ensures DigitsThenDot(digits + ("." + rest), least, most) == Some((Value(digits), rest))
  {
    RunOfPrefix(digits, "." + rest);
    hide DigitRun, Value, AllDigits;
    var s := digits + ("." + rest);
    assert s[|digits|] == '.';
    assert s[..|digits|] == digits;
    assert s[|digits| + 1..] == ("." + rest)[1..] == rest;
  }

  lemma RunThenSuffix(digits: string, suffix: string)
    requires AllDigits(digits) && digits != "" && digits[0] != '0' && IsSuffix(suffix)
    ensures PatchThenSuffix(digits + suffix) == Some((Value(digits), suffix))
  {
    SuffixStart(suffix);
    hide DigitRun, IsSuffix, Value;
    RunOfPrefix(digits, suffix);
    var s := digits + suffix;
    assert s[..|digits|] == digits && s[|digits|..] == suffix && s[0] == digits[0];
  }

  /** The pattern finds the parts that a string is made of. */
  lemma ParseOfParts(text: string, y: string, m: string, p: string, suffix: string)
    requires AllDigits(y) && AllDigits(m) && AllDigits(p)
    requires |y| == 4 && 1 <= |m| <= 2 && p != "" && p[0] != '0'
    requires 1 <= Value(m) <= 12 && Value(p) >= 1 && IsSuffix(suffix)
    requires Trim(text) == y + ("." + (m + ("." + (p + suffix))))
    ensures ParseVersion(text) == Some((Release(Value(y), Value(m), Value(p)), suffix))
  {
    hide Value, Trim, DigitsThenDot, PatchThenSuffix, IsSuffix;
    RunThenDot(y, m + ("." + (p + suffix)), 4, 4);
    RunThenDot(m, p + suffix, 1, 2);
    RunThenSuffix(p, suffix);
  }

  lemma SuffixStart(suffix: string)
    requires IsSuffix(suffix)
    ensures suffix == "" || !IsDigit(suffix[0])
  {
  }

  /** Reading inverts printing: every release with every suffix of the pattern's form that
      ends in no white space is read back. */
  lemma ParseInvertsPrint(r: Release, suffix: string)
    requires r.year <= 9999 && 1 <= r.month <= 12 && r.patch >= 1
    requires IsSuffix(suffix) && (suffix != "" ==> !IsSpace(suffix[|suffix| - 1]))
    ensures ParseVersion(PrintVersion(r, suffix)) == Some((r, suffix))
  {
    ValueOfDecimal(r.year);
    ValueOfDecimal(r.month);
    ValueOfDecimal(r.patch);
    DigitsOfYear(r.year);
    PadKeepsValue4(Decimal(r.year));
    Widths(r.month);
    FirstDigit(r.patch);
    PrintedEdges(r, suffix);
    hide Value, Decimal, PadStart4, Trim, ParseVersion, IsSuffix;
    ParseOfParts(PrintVersion(r, suffix), PadStart4(Decimal(r.year)), Decimal(r.month), Decimal(r.patch), suffix);
  }

  // ---------- which strings denote a version ----------

  predicate OneLine(s: string) {
    forall i | 0 <= i < |s| :: s[i] !in {'\n', '\r', '\U{2028}', '\U{2029}'}
  }

  lemma SuffixMeaning(suffix: string)
    ensures IsSuffix(suffix) <==> suffix == "" || (suffix[0] in {'.', '-'} && OneLine(suffix))
  {
  }

  /** The trimmed string is four digits, a dot, one or two digits for a month, a dot, a
      number that does not start with a zero, and a suffix. */
  ghost predicate Spelled(text: string, y: string, m: string, p: string, suffix: string) {
    && AllDigits(y) && |y| == 4
    && AllDigits(m) && 1 <= |m| <= 2 && 1 <= Value(m) <= 12
    && AllDigits(p) && p != "" && p[0] != '0'
    && (suffix == "" || (suffix[0] in {'.', '-'} && OneLine(suffix)))
    && Trim(text) == y + ("." + (m + ("." + (p + suffix))))
  }

  lemma {:induction false} ValuePositive(p: string)
    requires AllDigits(p) && p != "" && p[0] != '0'
    ensures Value(p) >= 1
  {
    if |p| > 1 {
      ValuePositive(p[..|p| - 1]);
    } else {
      assert p[..0] == "";
    }
  }

  lemma DigitsThenDotMeans(s: string, least: nat, most: nat) returns (digits: string)
    requires DigitsThenDot(s, least, most).Some?
    ensures AllDigits(digits) && least <= |digits| <= most
    ensures s == digits + ("." + DigitsThenDot(s, least, most).value.1)
    ensures DigitsThenDot(s, least, most).value.0 == Value(digits)
  {
    var n := DigitRun(s);
    digits := s[..n];
    hide Value;
    assert s == s[..n] + ([s[n]] + s[n + 1..]);
  }

  lemma PatchThenSuffixMeans(s: string) returns (digits: string)
    requires PatchThenSuffix(s).Some?
    ensures AllDigits(digits) && digits != "" && digits[0] != '0' && IsSuffix(PatchThenSuffix(s).value.1)
    ensures s == digits + PatchThenSuffix(s).value.1 && PatchThenSuffix(s).value.0 == Value(digits)
  {
    digits := s[..DigitRun(s)];
    hide Value, IsSuffix;
  }

  /** A string denotes a version exactly if it is spelled as one, and then the version is
      made of the numbers spelled; every other string is rejected. */
  lemma ParsedIffSpelled(text: string)
    ensures ParseVersion(text).Some? <==> exists y, m, p, suffix :: Spelled(text, y, m, p, suffix)
    ensures forall y, m, p, suffix :: Spelled(text, y, m, p, suffix) ==>
      ParseVersion(text) == Some((Release(Value(y), Value(m), Value(p)), suffix))
    ensures SparkleBuildFloors(text).Some? <==> ParseVersion(text).Some?
  {
    if ParseVersion(text).Some? {
      ParsedIsSpelled(text);
    }
    hide ParseVersion, Value, Trim, FloorsOf, IsSuffix;
    forall y, m, p, suffix | Spelled(text, y, m, p, suffix)
      ensures ParseVersion(text) == Some((Release(Value(y), Value(m), Value(p)), suffix)) {
      ValuePositive(p);
      SuffixMeaning(suffix);
      ParseOfParts(text, y, m, p, suffix);
    }
  }

  lemma ParsedIsSpelled(text: string)
    requires ParseVersion(text).Some?
    ensures exists y, m, p, suffix :: Spelled(text, y, m, p, suffix)
  {
    hide DigitsThenDot, PatchThenSuffix, Value, Trim, IsSuffix, AllDigits;
    var year := DigitsThenDot(Trim(text), 4, 4);
    var month := DigitsThenDot(year.value.1, 1, 2);
    var y := DigitsThenDotMeans(Trim(text), 4, 4);
    var m := DigitsThenDotMeans(year.value.1, 1, 2);
    var p := PatchThenSuffixMeans(month.value.1);
    SuffixMeaning(PatchThenSuffix(month.value.1).value.1);
    assert Spelled(text, y, m, p, PatchThenSuffix(month.value.1).value.1);
  }

  /** From the adoption of monthly patches on, the floors of a version in arithmetic. */
  lemma MonthlyFloors(text: string, v: Version)
    requires VersionOf(text) == Some(v) && UsesMonthlyPatch(v.release)
    ensures var key := (v.release.year - 2000) * 100000000 + v.release.month * 1000000 + v.release.patch * 100;
      SparkleBuildFloors(text) == Some(Floors(key, key, key + v.lane, v.lane))
  {
    hide VersionOf, UsesMonthlyPatch;
  }

  /** Monthly patches are used from 2026.6.5 on. */
  lemma AdoptionMeaning(r: Release)
    ensures UsesMonthlyPatch(r) <==>
      r.year > 2026 || (r.year == 2026 && (r.month > 6 || (r.month == 6 && r.patch >= 5)))
  {
  }
}
