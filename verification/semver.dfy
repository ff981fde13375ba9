/** The part of Semantic Versioning 2.0.0 the detector relies on: the
    `MAJOR.MINOR.PATCH` core of a valid version (section 2) and precedence
    between two such versions (section 11, items 1 and 2), with the limits
    the npm `semver` package adds: a version string of at most 256
    characters and components no larger than JavaScript's largest safe
    integer. Pre-release and build metadata are not modelled. */
module SemVer {
  import opened Wrappers
  import opened Strings

  datatype Version = Version(major: nat, minor: nat, patch: nat)

  /** The longest version string the package accepts. */
  const MaxLength: nat := 256

  /** `Number.MAX_SAFE_INTEGER`, the largest component the package accepts. */
  const MaxSafeInteger: nat := 9007199254740991

  predicate InRange(v: Version) {
    v.major <= MaxSafeInteger && v.minor <= MaxSafeInteger && v.patch <= MaxSafeInteger
  }

  function DigitValue(c: char): nat
    requires IsDigit(c)
  {
    c as int - '0' as int
  }

  function DigitChar(d: nat): (c: char)
    requires d < 10
    ensures IsDigit(c) && DigitValue(c) == d
  {
    ('0' as int + d) as char
  }

  predicate AllDigits(s: string) {
    forall k :: 0 <= k < |s| ==> IsDigit(s[k])
  }

  /** Section 2: a numeric identifier is a non-empty run of digits without a
      leading zero. */
  predicate IsNumericIdentifier(s: string) {
    |s| > 0 && AllDigits(s) && (s[0] == '0' ==> |s| == 1)
  }

  /** The decimal spelling of `n`. */
  function Decimal(n: nat): (r: string)
    ensures IsNumericIdentifier(r)
    ensures '.' !in r
    decreases n
  {
    if n < 10 then [DigitChar(n)] else Decimal(n / 10) + [DigitChar(n % 10)]
  }

  /** The number a run of decimal digits denotes. */
  function ValueOf(s: string): nat
    requires AllDigits(s)
    decreases |s|
  {
    if |s| == 0 then 0 else ValueOf(s[..|s| - 1]) * 10 + DigitValue(s[|s| - 1])
  }

  lemma {:induction false} ValueOfDecimal(n: nat)
    ensures ValueOf(Decimal(n)) == n
    decreases n
  {
    if n >= 10 {
      var d := Decimal(n / 10);
      ValueOfDecimal(n / 10);
      assert (d + [DigitChar(n % 10)])[..|d|] == d;
    }
  }

  lemma {:induction false} LeadingNonZeroIsPositive(s: string)
    requires |s| > 0 && AllDigits(s) && s[0] != '0'
    ensures ValueOf(s) > 0
    decreases |s|
  {
    if |s| > 1 {
      var p := s[..|s| - 1];
      assert p[0] == s[0];
      LeadingNonZeroIsPositive(p);
    }
  }

  lemma {:induction false} DecimalValueOf(s: string)
    requires IsNumericIdentifier(s)
    ensures Decimal(ValueOf(s)) == s
    decreases |s|
  {
    if |s| == 1 {
      assert s == [s[0]];
    } else {
      var p := s[..|s| - 1];
      var last := s[|s| - 1];
      assert p[0] == s[0];
      LeadingNonZeroIsPositive(p);
      DecimalValueOf(p);
      var n := ValueOf(s);
      assert n == ValueOf(p) * 10 + DigitValue(last);
      assert n / 10 == ValueOf(p) && n % 10 == DigitValue(last);
      assert DigitChar(n % 10) == last;
      assert s == p + [last];
    }
  }

  /** `semver.valid` restricted to the numeric core: a string of at most
      256 characters holding exactly three dot-separated numeric identifiers,
      none of them above the largest safe integer. */
  function Parse(s: string): (r: Option<Version>)
    ensures r.Some? ==> |s| <= MaxLength && InRange(r.value)
  {
    var parts := Split(s, ".");
    if |s| <= MaxLength && |parts| == 3 && IsNumericIdentifier(parts[0]) && IsNumericIdentifier(parts[1])
       && IsNumericIdentifier(parts[2])
    then
      var v := Version(ValueOf(parts[0]), ValueOf(parts[1]), ValueOf(parts[2]));
      if InRange(v) then Some(v) else None
    else None
  }

  predicate Valid(s: string) {
    Parse(s).Some?
  }

  /** The canonical spelling of a version. */
  function Format(v: Version): string {
    Join([Decimal(v.major), Decimal(v.minor), Decimal(v.patch)], ".")
  }

  function Pow10(k: nat): nat {
    if k == 0 then 1 else 10 * Pow10(k - 1)
  }

  /** A number below 10^k has at most k digits. */
  lemma {:induction false} DecimalLength(n: nat, k: nat)
    requires n < Pow10(k) && k >= 1
    ensures |Decimal(n)| <= k
    decreases k
  {
    if n >= 10 {
      DecimalLength(n / 10, k - 1);
    }
  }

  /** The spelling of a version in range is short enough to be accepted. */
  lemma FormatLength(v: Version)
    requires InRange(v)
    ensures |Format(v)| <= MaxLength
  {
    Pow10Sixteen();
    DecimalLength(v.major, 16);
    DecimalLength(v.minor, 16);
    DecimalLength(v.patch, 16);
    var parts := [Decimal(v.major), Decimal(v.minor), Decimal(v.patch)];
    assert parts[1..] == [Decimal(v.minor), Decimal(v.patch)];
    assert parts[1..][1..] == [Decimal(v.patch)];
    assert Join(parts[1..][1..], ".") == Decimal(v.patch);
    assert Join(parts[1..], ".") == Decimal(v.minor) + "." + Decimal(v.patch);
    assert Join(parts, ".") == Decimal(v.major) + "." + (Decimal(v.minor) + "." + Decimal(v.patch));
  }

  lemma Pow10Sixteen()
    ensures Pow10(16) == 10000000000000000
  {
    assert Pow10(4) == 10000 by {
      assert Pow10(1) == 10;
      assert Pow10(2) == 100;
      assert Pow10(3) == 1000;
    }
    assert Pow10(8) == 100000000 by {
      assert Pow10(5) == 100000;
      assert Pow10(6) == 1000000;
      assert Pow10(7) == 10000000;
    }
    assert Pow10(12) == 1000000000000 by {
      assert Pow10(9) == 1000000000;
      assert Pow10(10) == 10000000000;
      assert Pow10(11) == 100000000000;
    }
    assert Pow10(13) == 10000000000000;
    assert Pow10(14) == 100000000000000;
    assert Pow10(15) == 1000000000000000;
  }

  /** Every version in range has a valid spelling that parses back to it. */
  lemma ParseFormat(v: Version)
    requires InRange(v)
    ensures Parse(Format(v)) == Some(v)
  {
    var parts := [Decimal(v.major), Decimal(v.minor), Decimal(v.patch)];
    FormatLength(v);
    SplitJoin(parts, '.');
    ValueOfDecimal(v.major);
    ValueOfDecimal(v.minor);
    ValueOfDecimal(v.patch);
  }

  /** A valid version string is the canonical spelling of what it parses to:
      no two valid strings denote the same version. */
  lemma FormatParse(s: string)
    requires Valid(s)
    ensures Format(Parse(s).value) == s
  {
    var parts := Split(s, ".");
    DecimalValueOf(parts[0]);
    DecimalValueOf(parts[1]);
    DecimalValueOf(parts[2]);
    assert parts == [parts[0], parts[1], parts[2]];
    JoinSplit(s, ".");
  }

  /** Precedence of two numeric cores: compare major, minor and patch
      numerically, in that order. */
  predicate Precedes(a: Version, b: Version) {
    || a.major < b.major
    || (a.major == b.major && a.minor < b.minor)
    || (a.major == b.major && a.minor == b.minor && a.patch < b.patch)
  }

  /** `semver.lt(a, b)`; `None` stands for the exception it throws when either
      argument is not a valid version. */
  function Lt(a: string, b: string): (r: Option<bool>)
    ensures r.None? <==> !Valid(a) || !Valid(b)
    ensures r.Some? ==> (r.value <==> Precedes(Parse(a).value, Parse(b).value))
  {
    match (Parse(a), Parse(b))
    case (Some(x), Some(y)) => Some(Precedes(x, y))
    case _ => None
  }

  /** No valid version is lower than itself, so an equal "latest" is never an
      upgrade. */
  lemma LtIrreflexive(a: string)
    requires Valid(a)
    ensures Lt(a, a) == Some(false)
  {
  }

  lemma LtAsymmetric(a: string, b: string)
    requires Lt(a, b) == Some(true)
    ensures Lt(b, a) == Some(false)
  {
  }

  lemma LtTransitive(a: string, b: string, c: string)
    requires Lt(a, b) == Some(true) && Lt(b, c) == Some(true)
    ensures Lt(a, c) == Some(true)
  {
  }

  /** Any two distinct valid versions are ordered one way or the other. */
  lemma LtTotal(a: string, b: string)
    requires Valid(a) && Valid(b) && a != b
    ensures Lt(a, b) == Some(true) || Lt(b, a) == Some(true)
  {
    FormatParse(a);
    FormatParse(b);
  }

  /** A component one past the largest safe integer makes the version
      invalid, so `semver.valid` rejects it and `semver.lt` throws on it. */
  lemma UnsafeComponentRejected(v: Version)
    requires !InRange(v)
    ensures !Valid(Format(v))
    ensures forall b :: Lt(Format(v), b).None?
  {
    var parts := [Decimal(v.major), Decimal(v.minor), Decimal(v.patch)];
    SplitJoin(parts, '.');
    ValueOfDecimal(v.major);
    ValueOfDecimal(v.minor);
    ValueOfDecimal(v.patch);
  }

  /** 1.2.0 is lower than 1.3.0 and not lower than 1.1.0. */
  lemma UpgradeExamples()
    ensures Lt("1.2.0", "1.3.0") == Some(true)
    ensures Lt("1.2.0", "1.1.0") == Some(false)
  {
    assert Format(Version(1, 2, 0)) == "1.2.0";
    assert Format(Version(1, 3, 0)) == "1.3.0";
    assert Format(Version(1, 1, 0)) == "1.1.0";
    ParseFormat(Version(1, 2, 0));
    ParseFormat(Version(1, 3, 0));
    ParseFormat(Version(1, 1, 0));
  }
}
