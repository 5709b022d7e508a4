/** Kube-aware version order and the in-place sort of a group's versions. */
module KubeVersions {
  import opened Wrappers

  datatype Stability = Alpha | Beta | GA

  /** A version of the form v<major>, v<major>beta<minor> or v<major>alpha<minor>. */
  datatype KubeVersion = KubeVersion(stability: Stability, major: nat, minor: nat)

  const MAX_INT := 0x7fff_ffff_ffff_ffff

  predicate Digit(c: char) {
    '0' <= c <= '9'
  }

  /** The length of the longest prefix of digits. */
  function DigitsPrefix(s: string): (n: nat)
    ensures n <= |s|
    ensures forall i | 0 <= i < n :: Digit(s[i])
  {
    if s != "" && Digit(s[0]) then 1 + DigitsPrefix(s[1..]) else 0
  }

  function DigitsValue(s: string): nat
    requires forall i | 0 <= i < |s| :: Digit(s[i])
  {
    if s == "" then 0
    else
      var last := s[|s| - 1];
      assert Digit(last);
      10 * DigitsValue(s[..|s| - 1]) + (last as int - '0' as int)
  }

  /** A non-empty string of digits whose value fits the platform's integers. */
  function ParseNumber(s: string): Option<nat> {
    if s != "" && DigitsPrefix(s) == |s| && DigitsValue(s) <= MAX_INT then Some(DigitsValue(s)) else None
  }

  /** The reading of a version cut into its major digits and what follows them. */
  function ParseParts(major: string, rest: string): Option<KubeVersion> {
    match ParseNumber(major)
    case None => None
    case Some(m) =>
      if rest == "" then Some(KubeVersion(GA, m, 0))
      else if "alpha" <= rest then
        match ParseNumber(rest[5..])
        case None => None
        case Some(n) => Some(KubeVersion(Alpha, m, n))
      else if "beta" <= rest then
        match ParseNumber(rest[4..])
        case None => None
        case Some(n) => Some(KubeVersion(Beta, m, n))
      else None
  }

  function ParseKubeVersion(v: string): Option<KubeVersion> {
    if v == "" || v[0] != 'v' then None
    else
      var n := DigitsPrefix(v[1..]);
      ParseParts(v[1..1 + n], v[1 + n..])
  }

  function Rank(s: Stability): int {
    match s
    case Alpha => 0
    case Beta => 1
    case GA => 2
  }

  function CompareStrings(a: string, b: string): int {
    if a == [] && b == [] then 0
    else if a == [] then -1
    else if b == [] then 1
    else if a[0] < b[0] then -1
    else if a[0] > b[0] then 1
    else CompareStrings(a[1..], b[1..])
  }

  function CompareNumbers(x: KubeVersion, y: KubeVersion): int {
    if x.stability != y.stability then Rank(x.stability) - Rank(y.stability)
    else if x.major != y.major then x.major - y.major
    else x.minor - y.minor
  }

  /** Positive when `a` has the higher priority. */
  function Compare(a: string, b: string): int {
    if a == b then 0
    else
      match (ParseKubeVersion(a), ParseKubeVersion(b))
      case (None, None) => CompareStrings(b, a)
      case (None, Some(_)) => -1
      case (Some(_), None) => 1
      case (Some(x), Some(y)) => CompareNumbers(x, y)
  }

  // ---- the comparison is a total preorder

  lemma {:induction false} CompareStringsAntisymmetric(a: string, b: string)
    ensures CompareStrings(a, b) == -CompareStrings(b, a)
    ensures CompareStrings(a, b) == 0 <==> a == b
  {
    if a != [] && b != [] {
      CompareStringsAntisymmetric(a[1..], b[1..]);
      assert a == [a[0]] + a[1..] && b == [b[0]] + b[1..];
    }
  }

  lemma {:induction false} CompareStringsTransitive(a: string, b: string, c: string)
    requires CompareStrings(a, b) <= 0 && CompareStrings(b, c) <= 0
    ensures CompareStrings(a, c) <= 0
  {
    if a != [] && b != [] && c != [] && a[0] == b[0] == c[0] {
      CompareStringsTransitive(a[1..], b[1..], c[1..]);
    }
  }

  lemma CompareAntisymmetric(a: string, b: string)
    ensures Compare(a, b) == -Compare(b, a)
  {
    CompareStringsAntisymmetric(a, b);
  }

  lemma CompareTransitive(a: string, b: string, c: string)
    requires Compare(a, b) >= 0 && Compare(b, c) >= 0
    ensures Compare(a, c) >= 0
  {
    if ParseKubeVersion(a).None? && ParseKubeVersion(b).None? && ParseKubeVersion(c).None? {
      CompareStringsAntisymmetric(a, b);
      CompareStringsAntisymmetric(b, c);
      CompareStringsAntisymmetric(a, c);
      CompareStringsTransitive(a, b, c);
    }
  }

  /** Two different versions of equal priority differ only in leading zeros. */
  lemma EqualPriorityExactly(a: string, b: string)
    ensures Compare(a, b) == 0 <==>
            a == b || (ParseKubeVersion(a).Some? && ParseKubeVersion(a) == ParseKubeVersion(b))
  {
    CompareStringsAntisymmetric(b, a);
    if a != b && ParseKubeVersion(a).Some? && ParseKubeVersion(b).Some? {
      GAHasNoMinor(a);
      GAHasNoMinor(b);
      if ParseKubeVersion(a) != ParseKubeVersion(b) {
        CompareParsed(a, b);
      }
    }
  }

  lemma GAHasNoMinor(v: string)
    ensures ParseKubeVersion(v).Some? && ParseKubeVersion(v).value.stability == GA ==>
              ParseKubeVersion(v).value.minor == 0
  {
  }

  // ---- the in-place sort

  datatype GroupVersionForDiscovery = GroupVersionForDiscovery(groupVersion: string, version: string)

  ghost predicate NonIncreasing(s: seq<GroupVersionForDiscovery>) {
    forall i, j | 0 <= i < j < |s| :: Compare(s[i].version, s[j].version) >= 0
  }

  ghost predicate Permutation<T>(s: seq<T>, t: seq<T>) {
    multiset(s) == multiset(t)
  }

  method Swap<T>(a: array<T>, i: nat, j: nat)
    requires i < a.Length && j < a.Length
    modifies a
    ensures a[..] == old(a[..])[i := old(a[j])][j := old(a[i])]
    ensures Permutation(a[..], old(a[..]))
  {
    a[i], a[j] := a[j], a[i];
  }

  /** Sorted apart from the element at `j`, which is at least as high as everything behind it. */
  ghost predicate SortedExcept(s: seq<GroupVersionForDiscovery>, j: int, n: int)
    requires 0 <= j <= n <= |s|
  {
    && (forall p, q | 0 <= p < q < n && p != j && q != j :: Compare(s[p].version, s[q].version) >= 0)
    && (forall q | j < q < n && j < n :: Compare(s[j].version, s[q].version) >= 0)
  }

  /** Moves element `n` down to its place among the sorted elements before it. */
  method Insert(a: array<GroupVersionForDiscovery>, n: nat)
    requires n < a.Length && NonIncreasing(a[..n])
    modifies a
    ensures NonIncreasing(a[..n + 1])
    ensures Permutation(a[..], old(a[..]))
  {
    var j := n;
    assert a[..][..n] == a[..n];
    SortedAtStart(a[..], n);
    while j > 0 && Compare(a[j].version, a[j - 1].version) > 0
      invariant 0 <= j <= n
      invariant SortedExcept(a[..], j, n + 1)
      invariant Permutation(a[..], old(a[..]))
    {
      j := MoveUp(a, j, n + 1);
    }
    SortedWhenPlaced(a[..], j, n + 1);
    assert a[..][..n + 1] == a[..n + 1];
  }

  /** One swap moves the element at `j` before a lower one. */
  method MoveUp(a: array<GroupVersionForDiscovery>, j: nat, ghost n: nat) returns (k: nat)
    requires 0 < j < n <= a.Length && SortedExcept(a[..], j, n)
    requires Compare(a[j].version, a[j - 1].version) > 0
    modifies a
    ensures k == j - 1 && SortedExcept(a[..], k, n)
    ensures Permutation(a[..], old(a[..]))
  {
    k := j - 1;
    ghost var before := a[..];
    Swap(a, j, k);
    SortedAfterSwap(before, a[..], j, n);
  }

  lemma SortedAtStart(s: seq<GroupVersionForDiscovery>, n: int)
    requires 0 <= n < |s| && NonIncreasing(s[..n])
    ensures SortedExcept(s, n, n + 1)
  {
    forall p, q | 0 <= p < q < n ensures Compare(s[p].version, s[q].version) >= 0 {
      assert s[..n][p] == s[p] && s[..n][q] == s[q];
    }
  }

  lemma SortedAfterSwap(s: seq<GroupVersionForDiscovery>, t: seq<GroupVersionForDiscovery>, j: int, n: int)
    requires 0 < j < n <= |s| && SortedExcept(s, j, n)
    requires Compare(s[j].version, s[j - 1].version) > 0
    requires t == s[j := s[j - 1]][j - 1 := s[j]]
    ensures SortedExcept(t, j - 1, n)
  {
  }

  lemma SortedWhenPlaced(s: seq<GroupVersionForDiscovery>, j: int, n: int)
    requires 0 <= j < n <= |s| && SortedExcept(s, j, n)
    requires j > 0 ==> Compare(s[j].version, s[j - 1].version) <= 0
    ensures NonIncreasing(s[..n])
  {
    forall p | 0 <= p < j ensures Compare(s[p].version, s[j].version) >= 0 {
      AbovePlaced(s, p, j, n);
    }
  }

  lemma AbovePlaced(s: seq<GroupVersionForDiscovery>, p: int, j: int, n: int)
    requires 0 <= p < j < n <= |s| && SortedExcept(s, j, n)
    requires Compare(s[j].version, s[j - 1].version) <= 0
    ensures Compare(s[p].version, s[j].version) >= 0
  {
    CompareAntisymmetric(s[j].version, s[j - 1].version);
    if p < j - 1 {
      CompareTransitive(s[p].version, s[j - 1].version, s[j].version);
    }
  }

  /** A permutation with the highest version first, so that the first entry is the preferred one. */
  method SortGroupDiscoveryByKubeAwareVersion(a: array<GroupVersionForDiscovery>)
    modifies a
    ensures Permutation(a[..], old(a[..]))
    ensures NonIncreasing(a[..])
  {
    for n := 0 to a.Length
      invariant NonIncreasing(a[..n])
      invariant Permutation(a[..], old(a[..]))
    {
      Insert(a, n);
    }
    assert a[..a.Length] == a[..];
  }

  /** A permutation of equal entries is the same list. */
  lemma PermutationOfEqual<T>(s: seq<T>, t: seq<T>, x: T)
    requires Permutation(s, t) && forall i | 0 <= i < |t| :: t[i] == x
    ensures s == t
  {
    assert |s| == |multiset(s)| == |multiset(t)| == |t|;
    forall i | 0 <= i < |s| ensures s[i] == x {
      assert s[i] in multiset(t);
    }
  }

  /** Sorting determines the order up to entries of equal priority. */
  lemma {:induction false} SortedPermutationsAgree(
      s: seq<GroupVersionForDiscovery>, t: seq<GroupVersionForDiscovery>, i: nat)
    requires Permutation(s, t) && NonIncreasing(s) && NonIncreasing(t) && i < |s|
    ensures i < |t| && Compare(s[i].version, t[i].version) == 0
  {
    assert |s| == |multiset(s)| == |multiset(t)| == |t|;
    NotBelow(s, t, i);
    NotBelow(t, s, i);
    CompareAntisymmetric(s[i].version, t[i].version);
  }

  /** Among the first i + 1 entries of `t` one is not among the first i of `s`. */
  lemma NotBelow(s: seq<GroupVersionForDiscovery>, t: seq<GroupVersionForDiscovery>, i: nat)
    requires Permutation(s, t) && NonIncreasing(s) && NonIncreasing(t) && i < |s| == |t|
    ensures Compare(s[i].version, t[i].version) >= 0
  {
    var k := EntryBeyond(s, t, i);
    if k != i {
      assert Compare(t[k].version, t[i].version) >= 0;
    } else {
      CompareAntisymmetric(t[i].version, t[i].version);
    }
    var m :| i <= m < |s| && s[m] == t[k];
    if m != i {
      assert Compare(s[i].version, s[m].version) >= 0;
    } else {
      CompareAntisymmetric(s[i].version, s[i].version);
    }
    CompareTransitive(s[i].version, t[k].version, t[i].version);
  }

  /** Counting: the first i + 1 entries of `t` cannot all be among the first i of `s`. */
  lemma EntryBeyond<T>(s: seq<T>, t: seq<T>, i: nat) returns (k: nat)
    requires Permutation(s, t) && i < |s| == |t|
    ensures k <= i && t[k] in s[i..]
  {
    if !(exists p | 0 <= p <= i :: t[p] in s[i..]) {
      Pigeonhole(s, t, i, i + 1);
      assert false;
    }
    k :| 0 <= k <= i && t[k] in s[i..];
  }

  lemma Pigeonhole<T>(s: seq<T>, t: seq<T>, i: nat, m: nat)
    requires Permutation(s, t) && i <= |s| && m <= |t|
    requires forall p | 0 <= p < m :: t[p] !in s[i..]
    ensures m <= i
  {
    var few, many := multiset(s[..i]), multiset(t[..m]);
    assert s == s[..i] + s[i..] && t == t[..m] + t[m..];
    assert many <= few + multiset(s[i..]);
    forall x ensures many[x] <= few[x] {
      if x in many {
        var p :| 0 <= p < m && t[..m][p] == x;
        assert t[p] !in s[i..];
        assert multiset(s[i..])[x] == 0;
      }
    }
    assert few == many + (few - many);
    assert |few| == i && |many| == m;
  }

  // ---- the parser reads back what the version form prints

  ghost predicate Digits(d: string) {
    d != "" && (forall i | 0 <= i < |d| :: Digit(d[i])) && DigitsValue(d) <= MAX_INT
  }

  lemma {:induction false} DigitsPrefixOf(d: string, rest: string)
    requires forall i | 0 <= i < |d| :: Digit(d[i])
    requires rest == "" || !Digit(rest[0])
    ensures DigitsPrefix(d + rest) == |d|
  {
    if d == "" {
      assert d + rest == rest;
    } else {
      assert (d + rest)[1..] == d[1..] + rest;
      DigitsPrefixOf(d[1..], rest);
    }
  }

  lemma NumberOf(d: string)
    requires Digits(d)
    ensures ParseNumber(d) == Some(DigitsValue(d))
  {
    assert d + "" == d;
    DigitsPrefixOf(d, "");
  }

  /** Digits behind the "v" are cut off as the major number, whatever follows them. */
  lemma ParseOfPrinted(major: string, rest: string)
    requires Digits(major) && (rest == "" || !Digit(rest[0]))
    ensures ParseKubeVersion("v" + major + rest) == ParseParts(major, rest)
  {
    var v := "v" + major + rest;
    assert v[1..] == major + rest;
    DigitsPrefixOf(major, rest);
    assert v[1..1 + |major|] == major && v[1 + |major|..] == rest;
  }

  lemma ParseOfStable(major: string)
    requires Digits(major)
    ensures ParseKubeVersion("v" + major) == Some(KubeVersion(GA, DigitsValue(major), 0))
  {
    assert "v" + major == "v" + major + "";
    ParseOfPrinted(major, "");
    NumberOf(major);
  }

  lemma ParseOfUnstable(major: string, minor: string)
    requires Digits(major) && Digits(minor)
    ensures ParseKubeVersion("v" + major + ("alpha" + minor)) ==
            Some(KubeVersion(Alpha, DigitsValue(major), DigitsValue(minor)))
    ensures ParseKubeVersion("v" + major + ("beta" + minor)) ==
            Some(KubeVersion(Beta, DigitsValue(major), DigitsValue(minor)))
  {
    NumberOf(major);
    NumberOf(minor);
    ParseOfPrinted(major, "alpha" + minor);
    assert ("alpha" + minor)[5..] == minor;
    ParseOfPrinted(major, "beta" + minor);
    assert ("beta" + minor)[4..] == minor;
    assert !("alpha" <= "beta" + minor) by {
      assert ("beta" + minor)[0] == 'b';
    }
  }

  /** Only printed versions are read as versions: whatever parses has one of the three forms. */
  lemma FormOfParsed(v: string) returns (major: string, minor: string)
    requires ParseKubeVersion(v).Some?
    ensures Digits(major)
    ensures match ParseKubeVersion(v).value.stability
            case GA => v == "v" + major
            case Beta => Digits(minor) && v == "v" + major + ("beta" + minor)
            case Alpha => Digits(minor) && v == "v" + major + ("alpha" + minor)
  {
    var n := DigitsPrefix(v[1..]);
    major, minor := v[1..1 + n], "";
    var rest := v[1 + n..];
    assert v == "v" + major + rest;
    NumberDigits(major);
    if "alpha" <= rest {
      minor := rest[5..];
      assert rest == "alpha" + minor;
      NumberDigits(minor);
    } else if "beta" <= rest {
      minor := rest[4..];
      assert rest == "beta" + minor;
      NumberDigits(minor);
    }
  }

  lemma NumberDigits(s: string)
    ensures ParseNumber(s).Some? ==> Digits(s)
  {
  }

  /** The decimal digits of a number. */
  function Decimal(n: nat): string {
    (if n < 10 then "" else Decimal(n / 10)) + [(n % 10) as char + '0']
  }

  /** Digits are read as the decimal number they are. */
  lemma {:induction false} DecimalReadsBack(n: nat)
    ensures forall i | 0 <= i < |Decimal(n)| :: Digit(Decimal(n)[i])
    ensures DigitsValue(Decimal(n)) == n
  {
    var s := Decimal(n);
    if n >= 10 {
      DecimalReadsBack(n / 10);
      assert s[..|s| - 1] == Decimal(n / 10);
    } else {
      assert s[..|s| - 1] == "";
    }
  }

  /** Stable versions come before unstable ones, betas before alphas, and other strings last. */
  lemma StabilityFirst(major: string, minor: string, otherMajor: string, otherMinor: string, other: string)
    requires Digits(major) && Digits(minor) && Digits(otherMajor) && Digits(otherMinor)
    requires ParseKubeVersion(other) == None
    ensures Compare("v" + major, "v" + otherMajor + ("beta" + otherMinor)) > 0
    ensures Compare("v" + major + ("beta" + minor), "v" + otherMajor + ("alpha" + otherMinor)) > 0
    ensures Compare("v" + major + ("alpha" + minor), other) > 0
  {
    ParseOfStable(major);
    ParseOfUnstable(major, minor);
    ParseOfUnstable(otherMajor, otherMinor);
    CompareParsed("v" + major, "v" + otherMajor + ("beta" + otherMinor));
    CompareParsed("v" + major + ("beta" + minor), "v" + otherMajor + ("alpha" + otherMinor));
  }

  /** Two different version numbers decide alone. */
  lemma CompareParsed(a: string, b: string)
    requires ParseKubeVersion(a).Some? && ParseKubeVersion(b).Some? && ParseKubeVersion(a) != ParseKubeVersion(b)
    ensures Compare(a, b) == CompareNumbers(ParseKubeVersion(a).value, ParseKubeVersion(b).value)
  {
  }

  /** At equal stability the larger major number comes first, then the larger minor number. */
  lemma LargerNumberFirst(major: string, minor: string, otherMajor: string, otherMinor: string)
    requires Digits(major) && Digits(minor) && Digits(otherMajor) && Digits(otherMinor)
    ensures DigitsValue(major) > DigitsValue(otherMajor) ==> Compare("v" + major, "v" + otherMajor) > 0
    ensures DigitsValue(major) > DigitsValue(otherMajor)
            || (DigitsValue(major) == DigitsValue(otherMajor) && DigitsValue(minor) > DigitsValue(otherMinor)) ==>
              && Compare("v" + major + ("beta" + minor), "v" + otherMajor + ("beta" + otherMinor)) > 0
              && Compare("v" + major + ("alpha" + minor), "v" + otherMajor + ("alpha" + otherMinor)) > 0
  {
    if DigitsValue(major) > DigitsValue(otherMajor) {
      ParseOfStable(major);
      ParseOfStable(otherMajor);
      CompareParsed("v" + major, "v" + otherMajor);
    }
    if DigitsValue(major) != DigitsValue(otherMajor) || DigitsValue(minor) != DigitsValue(otherMinor) {
      CompareUnstable(major, minor, otherMajor, otherMinor);
    }
  }

  lemma CompareUnstable(major: string, minor: string, otherMajor: string, otherMinor: string)
    requires Digits(major) && Digits(minor) && Digits(otherMajor) && Digits(otherMinor)
    requires DigitsValue(major) != DigitsValue(otherMajor) || DigitsValue(minor) != DigitsValue(otherMinor)
    ensures Compare("v" + major + ("beta" + minor), "v" + otherMajor + ("beta" + otherMinor)) ==
            Compare("v" + major + ("alpha" + minor), "v" + otherMajor + ("alpha" + otherMinor)) ==
            if DigitsValue(major) != DigitsValue(otherMajor) then DigitsValue(major) - DigitsValue(otherMajor)
            else DigitsValue(minor) - DigitsValue(otherMinor)
  {
    ParseOfUnstable(major, minor);
    ParseOfUnstable(otherMajor, otherMinor);
    CompareParsed("v" + major + ("beta" + minor), "v" + otherMajor + ("beta" + otherMinor));
    CompareParsed("v" + major + ("alpha" + minor), "v" + otherMajor + ("alpha" + otherMinor));
  }

  /** Of two strings that are not of the version form, a proper prefix comes first. */
  lemma ShorterOtherFirst(s: string, suffix: string)
    requires suffix != "" && ParseKubeVersion(s) == None && ParseKubeVersion(s + suffix) == None
    ensures Compare(s, s + suffix) > 0
  {
    LongerComparesHigher(s, suffix);
  }

  /** And of two that differ, the one with the smaller character at the first difference. */
  lemma SmallerOtherFirst(common: string, x: char, y: char, s: string, t: string)
    requires x < y
    requires ParseKubeVersion(common + ([x] + s)) == None && ParseKubeVersion(common + ([y] + t)) == None
    ensures Compare(common + ([x] + s), common + ([y] + t)) > 0
  {
    FirstDifference(common, x, y, s, t);
  }

  lemma {:induction false} FirstDifference(common: string, x: char, y: char, s: string, t: string)
    requires x < y
    ensures CompareStrings(common + ([y] + t), common + ([x] + s)) == 1
    ensures common + ([x] + s) != common + ([y] + t)
  {
    var a, b := common + ([x] + s), common + ([y] + t);
    if common == "" {
      assert a[0] == x && b[0] == y;
    } else {
      assert a[1..] == common[1..] + ([x] + s) && b[1..] == common[1..] + ([y] + t);
      FirstDifference(common[1..], x, y, s, t);
    }
  }

  lemma {:induction false} LongerComparesHigher(s: string, suffix: string)
    requires suffix != ""
    ensures CompareStrings(s + suffix, s) == 1
  {
    if s != "" {
      assert (s + suffix)[1..] == s[1..] + suffix;
      LongerComparesHigher(s[1..], suffix);
    } else {
      assert s + suffix == suffix;
    }
  }
}
