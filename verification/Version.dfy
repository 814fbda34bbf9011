/**
 `getVersion` of CL/cl.hpp and CL/cl2.hpp: reads the major and the minor version out of a platform's version string,
 "OpenCL M.m" followed by a space and more text or by a NUL, and packs them into one word.
 */
module Version {
  import opened Decimals

  const PREFIX: nat := 7
  const HIGH := 0x8000
  const LOW := 0x1_0000

  /** Major and minor versions of a packed word, compared as the source compares the words. */
  function Pack(major: nat, minor: nat): nat { major * LOW + minor }

  predicate Ends(c: char) { c == ' ' || c == '\0' }

  /** The string holds, after seven characters, the digits of `major`, a dot, the digits of `minor` and an end. */
  ghost predicate Holds(info: string, major: string, minor: string) {
    && AllDigits(major) && AllDigits(minor)
    && PREFIX + |major| + 1 + |minor| < |info|
    && info[PREFIX..PREFIX + |major|] == major
    && info[PREFIX + |major|] == '.'
    && info[PREFIX + |major| + 1..PREFIX + |major| + 1 + |minor|] == minor
    && Ends(info[PREFIX + |major| + 1 + |minor|])
  }

  lemma {:induction false} ValueMonotone(s: string, i: nat)
    requires AllDigits(s) && i <= |s|
    ensures Value(s[..i]) <= Value(s)
    decreases |s| - i
  {
    if i < |s| {
      assert s[..i + 1][..i] == s[..i];
      ValueMonotone(s, i + 1);
    } else {
      assert s[..i] == s;
    }
  }

  /** `a << n` and `a | b` of the source, on numbers that stay below 2^32. */
  function ShiftLeft(a: nat, n: nat): nat {
    if n == 0 then a else 2 * ShiftLeft(a, n - 1)
  }

  function BitOr(a: nat, b: nat): nat {
    if a == 0 && b == 0 then 0
    else 2 * BitOr(a / 2, b / 2) + (if a % 2 == 1 || b % 2 == 1 then 1 else 0)
  }

  lemma {:induction false} OrWithNothing(a: nat)
    ensures BitOr(a, 0) == a
  {
    if a > 0 { OrWithNothing(a / 2); }
  }

  /** A number with no bit above the `n`-th fits below one shifted by `n`, so that their bits only add up. */
  lemma {:induction false} OrIsSum(high: nat, low: nat, n: nat)
    requires low < ShiftLeft(1, n)
    ensures BitOr(ShiftLeft(high, n), low) == ShiftLeft(high, n) + low
  {
    if n == 0 {
      OrWithNothing(high);
    } else {
      OrIsSum(high, low / 2, n - 1);
    }
  }

  lemma {:induction false} ShiftIsProduct(a: nat, n: nat)
    ensures ShiftLeft(a, n) == a * ShiftLeft(1, n)
  {
    if n > 0 { ShiftIsProduct(a, n - 1); }
  }

  lemma Sixteen()
    ensures ShiftLeft(1, 16) == LOW
  {
    assert ShiftLeft(1, 4) == 16;
    assert ShiftLeft(1, 8) == 256;
    assert ShiftLeft(1, 12) == 4096;
  }

  /** The word that the source packs is the one that the gates compare. */
  lemma PacksBits(high: nat, low: nat)
    requires low < LOW
    ensures BitOr(ShiftLeft(high, 16), low) == Pack(high, low)
  {
    Sixteen();
    OrIsSum(high, low, 16);
    ShiftIsProduct(high, 16);
  }

  /** The parser, whose 32-bit accumulators do not overflow for versions below 32768.65536. */
  method GetVersion(info: string, ghost major: string, ghost minor: string) returns (version: nat)
    requires Holds(info, major, minor) && Value(major) < HIGH && Value(minor) < LOW
    ensures version == Pack(Value(major), Value(minor)) && version < 0x8000_0000
  {
    ghost var dot := PREFIX + |major|;
    ghost var end := dot + 1 + |minor|;
    assert forall i | PREFIX <= i < dot :: info[i] == major[i - PREFIX] && IsDigit(info[i]);
    assert forall i | dot < i < end :: info[i] == minor[i - dot - 1] && IsDigit(info[i]);
    var high, low := 0, 0;
    var index := PREFIX;
    while info[index] != '.'
      invariant PREFIX <= index <= dot && 0 <= high < HIGH && high == Value(major[..index - PREFIX])
      decreases dot - index
    {
      assert index < dot && info[index] == major[index - PREFIX];
      assert major[..index + 1 - PREFIX][..index - PREFIX] == major[..index - PREFIX];
      ValueMonotone(major, index + 1 - PREFIX);
      high := high * 10;
      high := high + DigitValue(info[index]);
      index := index + 1;
    }
    assert major[..|major|] == major;
    index := index + 1;
    while info[index] != ' ' && info[index] != '\0'
      invariant dot + 1 <= index <= end && 0 <= low < LOW && low == Value(minor[..index - dot - 1])
      decreases end - index
    {
      assert index < end && info[index] == minor[index - dot - 1];
      assert minor[..index - dot][..index - dot - 1] == minor[..index - dot - 1];
      ValueMonotone(minor, index - dot);
      low := low * 10;
      low := low + DigitValue(info[index]);
      index := index + 1;
    }
    assert minor[..|minor|] == minor;
    PacksBits(high, low);
    version := BitOr(ShiftLeft(high, 16), low);
  }

  /** The version string that a platform reports. */
  function Print(major: nat, minor: nat, suffix: string): string {
    "OpenCL " + Decimal(major) + "." + Decimal(minor) + suffix
  }

  lemma HoldsWhatItIsMadeOf(prefix: string, major: string, minor: string, suffix: string)
    requires |prefix| == PREFIX && AllDigits(major) && AllDigits(minor) && |suffix| > 0 && Ends(suffix[0])
    ensures Holds(prefix + major + "." + minor + suffix, major, minor)
  {
    var info := prefix + major + "." + minor + suffix;
    var dot := PREFIX + |major|;
    assert forall i | 0 <= i < |major| :: info[PREFIX + i] == major[i];
    assert forall i | 0 <= i < |minor| :: info[dot + 1 + i] == minor[i];
    assert info[PREFIX..dot] == major;
    assert info[dot + 1..dot + 1 + |minor|] == minor;
  }

  /** The parser reads back every printed version, whatever follows it. */
  lemma ParsesWhatIsPrinted(major: nat, minor: nat, suffix: string)
    requires |suffix| > 0 && Ends(suffix[0])
    ensures Holds(Print(major, minor, suffix), Decimal(major), Decimal(minor))
    ensures Value(Decimal(major)) == major && Value(Decimal(minor)) == minor
  {
    ValueOfDecimal(major);
    ValueOfDecimal(minor);
    HoldsWhatItIsMadeOf("OpenCL ", Decimal(major), Decimal(minor), suffix);
  }

  /** No string holds two different versions. */
  lemma HoldsOneVersion(info: string, a: string, b: string, c: string, d: string)
    requires Holds(info, a, b) && Holds(info, c, d)
    ensures a == c && b == d
  {
    assert forall i | 0 <= i < |a| :: info[PREFIX + i] == a[i] && IsDigit(a[i]);
    assert forall i | 0 <= i < |c| :: info[PREFIX + i] == c[i] && IsDigit(c[i]);
    assert |a| == |c|;
    var start := PREFIX + |a| + 1;
    assert forall i | 0 <= i < |b| :: info[start + i] == b[i] && IsDigit(b[i]);
    assert forall i | 0 <= i < |d| :: info[start + i] == d[i] && IsDigit(d[i]);
  }

  /** Version a is at least version b. */
  predicate AtLeast(major: nat, minor: nat, major': nat, minor': nat) {
    major > major' || (major == major' && minor >= minor')
  }

  /** Packed words are ordered as versions are, so that both gates of the sources mean "at least 1.2". */
  lemma PackedOrder(major: nat, minor: nat, major': nat, minor': nat)
    requires minor < LOW && minor' < LOW
    ensures Pack(major, minor) >= Pack(major', minor') <==> AtLeast(major, minor, major', minor')
    ensures Pack(major, minor) > 0x1_0000 + 1 <==> AtLeast(major, minor, 1, 2)
    ensures Pack(major, minor) >= 0x1_0002 <==> AtLeast(major, minor, 1, 2)
  {
    if major > major' { assert major * LOW >= (major' + 1) * LOW; }
    if major < major' { assert (major + 1) * LOW <= major' * LOW; }
  }
}
