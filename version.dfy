/** The `Version` helper of the build script: a version of three Kotlin `Int`
    parts, printed as `major.minor.patch`, parsed back from a project version
    string after normalisation, bumped by one of three tasks, and written back
    into the build text by replacing the first `version = "<current>"`. */
module Versioning {
  import opened Common

  const MinInt: int := -0x8000_0000
  const MaxInt: int := 0x7fff_ffff

  /** A Kotlin `Int`. */
  type Int32 = x: int | MinInt <= x <= MaxInt

  datatype Version = Version(major: Int32, minor: Int32, patch: Int32)

  /** Kotlin's `+ 1` on an `Int`, which wraps around at the top of the range. */
  function Inc(x: Int32): (r: Int32)
    ensures x < MaxInt ==> r == x + 1
    ensures x == MaxInt ==> r == MinInt
    ensures r == (x + 1 - MinInt) % 0x1_0000_0000 + MinInt
  {
    if x == MaxInt then MinInt else x + 1
  }

  function BumpPatch(v: Version): Version {
    Version(v.major, v.minor, Inc(v.patch))
  }

  function BumpMinor(v: Version): Version {
    Version(v.major, Inc(v.minor), 0)
  }

  function BumpMajor(v: Version): Version {
    Version(Inc(v.major), 0, 0)
  }

  /** Lexicographic order on versions. */
  predicate Less(v: Version, w: Version) {
    || v.major < w.major
    || (v.major == w.major && v.minor < w.minor)
    || (v.major == w.major && v.minor == w.minor && v.patch < w.patch)
  }

  /** Each bump yields a later version, unless the part it increments is at
      the top of the `Int` range; then it wraps to an earlier one. Each bump is
      also the earliest version of its kind above `v`: nothing lies strictly
      between `v` and its patch bump, and, among versions with no negative
      lower part, every version strictly between `v` and its minor (major)
      bump has the same minor (major) part as `v`. (`0.1.-1` lies between
      `0.0.2` and `0.1.0`, and `1.-1.0` between `0.0.2` and `1.0.0`.) */
  lemma BumpsOrder(v: Version, w: Version)
    ensures v.patch < MaxInt <==> Less(v, BumpPatch(v))
    ensures v.minor < MaxInt <==> Less(v, BumpMinor(v))
    ensures v.major < MaxInt <==> Less(v, BumpMajor(v))
    ensures Less(v, w) && v.patch < MaxInt ==> !Less(w, BumpPatch(v))
    ensures Less(v, w) && Less(w, BumpMinor(v)) && 0 <= w.patch ==> w.major == v.major && w.minor == v.minor
    ensures Less(v, w) && Less(w, BumpMajor(v)) && 0 <= w.minor && 0 <= w.patch ==> w.major == v.major
  {
  }

  // ----- printing -----

  function DigitChar(d: nat): char
    requires d < 10
  {
    "0123456789"[d]
  }

  predicate IsDigit(c: char) {
    '0' <= c <= '9'
  }

  /** The decimal digits of `n`, most significant first, with no leading zero. */
  function NatToString(n: nat): (r: string)
    ensures |r| >= 1 && (|r| > 1 ==> r[0] != '0')
    ensures forall i :: 0 <= i < |r| ==> IsDigit(r[i])
    decreases n
  {
    if n < 10 then [DigitChar(n)] else NatToString(n / 10) + [DigitChar(n % 10)]
  }

  /** Kotlin's `Int.toString()`. */
  function IntToString(x: int): (r: string)
    // a minus sign exactly for a negative number ...
    ensures |r| >= 1 && (r[0] == '-' <==> x < 0)
    // ... then decimal digits, with no leading zero (their value is stated by
    // `ToIntOfIntToString`)
    ensures var digits := if x < 0 then r[1..] else r;
            |digits| >= 1 && (|digits| > 1 ==> digits[0] != '0') && AllDigits(digits)
  {
    if x < 0 then "-" + NatToString(-x) else NatToString(x)
  }

  /** `toString()`: the three parts joined by dots. */
  function ToString(v: Version): string {
    IntToString(v.major) + "." + IntToString(v.minor) + "." + IntToString(v.patch)
  }

  /** Splitting a printed version on dots gives back its three printed parts. */
  lemma PrintedPartsSplit(v: Version)
    ensures Split(ToString(v), '.') == [IntToString(v.major), IntToString(v.minor), IntToString(v.patch)]
  {
    NoDotInIntToString(v.major);
    NoDotInIntToString(v.minor);
    NoDotInIntToString(v.patch);
    SplitThree(IntToString(v.major), IntToString(v.minor), IntToString(v.patch));
  }

  lemma NoDotInIntToString(x: int)
    ensures '.' !in IntToString(x)
  {
    var r := IntToString(x);
    var digits := if x < 0 then r[1..] else r;
    assert forall i :: 0 <= i < |r| ==> r[i] == '-' || IsDigit(r[i]) by {
      assert forall i :: 1 <= i < |r| && x < 0 ==> r[i] == digits[i - 1];
    }
  }

  // ----- normalisation -----

  /** `lowercase` on one character; only ASCII letters are mapped. */
  function LowerChar(c: char): char {
    if 'A' <= c <= 'Z' then (c as int + 32) as char else c
  }

  function Lower(s: string): string {
    seq(|s|, i requires 0 <= i < |s| => LowerChar(s[i]))
  }

  /** Lowercasing keeps the length, leaves no uppercase ASCII letter, turns
      each one into the same letter in lowercase, and keeps every other
      character. */
  lemma LowerMeaning(s: string)
    ensures |Lower(s)| == |s|
    ensures forall i :: 0 <= i < |s| ==> !('A' <= Lower(s)[i] <= 'Z')
    ensures forall i :: 0 <= i < |s| && 'A' <= s[i] <= 'Z' ==>
              'a' <= Lower(s)[i] <= 'z' && Lower(s)[i] as int - 'a' as int == s[i] as int - 'A' as int
    ensures forall i :: 0 <= i < |s| && !('A' <= s[i] <= 'Z') ==> Lower(s)[i] == s[i]
  {
  }

  /** `replace(pat, "")`: removes the non-overlapping occurrences of `pat` found
      in one left-to-right pass. */
  function Remove(s: string, pat: string): (r: string)
    requires |pat| > 0
    ensures |r| <= |s|
    // removing never introduces a character ...
    ensures forall c :: c in r ==> c in s
    // ... and removing a single character removes all of them
    ensures |pat| == 1 ==> pat[0] !in r
    decreases |s|
  {
    if |s| < |pat| then
      assert |pat| == 1 ==> s == [];
      s
    else if s[..|pat|] == pat then Remove(s[|pat|..], pat)
    else [s[0]] + Remove(s[1..], pat)
  }

  /** Lowercase, then strip spaces, `version`, `snapshot` and `-`, in that order. */
  function Normalize(code: string): (r: string)
    ensures ' ' !in r && '-' !in r
  {
    Remove(Remove(Remove(Remove(Lower(code), " "), "version"), "snapshot"), "-")
  }

  // ----- splitting -----

  function CountOf(s: string, d: char): nat {
    if s == [] then 0 else (if s[0] == d then 1 else 0) + CountOf(s[1..], d)
  }

  /** The parts, with `d` put back between them. */
  function Join(parts: seq<string>, d: char): string
    requires |parts| >= 1
  {
    if |parts| == 1 then parts[0] else parts[0] + [d] + Join(parts[1..], d)
  }

  /** `split(d)`: every part between delimiters, empty ones included. */
  function Split(s: string, d: char): (r: seq<string>)
    ensures |r| == CountOf(s, d) + 1
    ensures forall i :: 0 <= i < |r| ==> d !in r[i]
    ensures forall i, c :: 0 <= i < |r| && c in r[i] ==> c in s
    ensures Join(r, d) == s
    decreases |s|
  {
    if s == [] then [""]
    else
      var rest := Split(s[1..], d);
      if s[0] == d then
        assert s == [d] + s[1..];
        [""] + rest
      else
        var r := [[s[0]] + rest[0]] + rest[1..];
        JoinCons(s[0], rest, d);
        assert s == [s[0]] + s[1..];
        r
  }

  /** Putting a character in front of the first part puts it in front of the
      joined string. */
  lemma JoinCons(c: char, parts: seq<string>, d: char)
    requires |parts| >= 1
    ensures Join([[c] + parts[0]] + parts[1..], d) == [c] + Join(parts, d)
  {
    var r := [[c] + parts[0]] + parts[1..];
    if |parts| > 1 {
      assert r[1..] == parts[1..];
      assert Join(r, d) == ([c] + parts[0]) + [d] + Join(parts[1..], d);
    }
  }

  // ----- integer parsing -----

  function DigitValue(c: char): nat
    requires IsDigit(c)
  {
    c as nat - '0' as nat
  }

  predicate AllDigits(s: string) {
    forall i :: 0 <= i < |s| ==> IsDigit(s[i])
  }

  /** The value of a string of decimal digits. */
  function DigitsValue(s: string): nat
    requires AllDigits(s)
    decreases |s|
  {
    if s == [] then 0 else DigitsValue(s[..|s| - 1]) * 10 + DigitValue(s[|s| - 1])
  }

  /** Kotlin's `String.toInt()`, on ASCII digits: an optional sign, then at
      least one digit, and a value within the `Int` range; anything else is a
      `NumberFormatException`, here `None`. */
  function ToInt(s: string): (r: Option<Int32>)
    // an empty string, a lone sign, or a non-digit after the sign fails
    ensures s == [] || s == "-" || s == "+" ==> r.None?
    // without a minus sign the value is never negative
    ensures '-' !in s && r.Some? ==> r.value >= 0
  {
    if s == [] then None
    else
      var digits := Unsigned(s);
      if digits == [] || !AllDigits(digits) then None
      else
        var value: int := if s[0] == '-' then -(DigitsValue(digits) as int) else DigitsValue(digits);
        if MinInt <= value <= MaxInt then Some(value) else None
  }

  /** What follows an optional leading sign. */
  function Unsigned(s: string): string {
    if s != [] && (s[0] == '-' || s[0] == '+') then s[1..] else s
  }

  /** `toInt` succeeds exactly on an optional sign followed by at least one
      digit whose value, negated after a minus sign, is an `Int`; the result is
      that value. */
  lemma ToIntValue(s: string)
    ensures ToInt(s).Some? ==> Unsigned(s) != [] && AllDigits(Unsigned(s))
    ensures ToInt(s).Some? ==>
              ToInt(s).value == if s[0] == '-' then -(DigitsValue(Unsigned(s)) as int) else DigitsValue(Unsigned(s))
    ensures Unsigned(s) != [] && AllDigits(Unsigned(s)) &&
            (if s[0] == '-' then DigitsValue(Unsigned(s)) <= -MinInt else DigitsValue(Unsigned(s)) <= MaxInt) ==>
              ToInt(s).Some?
  {
  }

  // ----- parsing a version -----

  datatype ParseError = WrongPartCount(count: nat) | NotAnInteger(part: string)

  datatype Parse = Parsed(version: Version) | Invalid(error: ParseError)

  /** `versionFromCode`: normalise, split on dots, demand exactly three parts,
      and convert them left to right; the first part that is not an `Int`
      throws. */
  function VersionFromCode(code: string): (r: Parse)
    // the part count is checked first: exactly two dots must remain
    ensures r.Invalid? && r.error.WrongPartCount? <==> CountOf(Normalize(code), '.') != 2
    // every minus sign has been stripped, so no part of a result is negative
    ensures r.Parsed? ==> 0 <= r.version.major && 0 <= r.version.minor && 0 <= r.version.patch
  {
    var parts := Split(Normalize(code), '.');
    if |parts| != 3 then Invalid(WrongPartCount(|parts|))
    else
      assert forall i :: 0 <= i < 3 ==> '-' !in parts[i];
      match (ToInt(parts[0]), ToInt(parts[1]), ToInt(parts[2]))
      case (None, _, _) => Invalid(NotAnInteger(parts[0]))
      case (Some(_), None, _) => Invalid(NotAnInteger(parts[1]))
      case (Some(_), Some(_), None) => Invalid(NotAnInteger(parts[2]))
      case (Some(major), Some(minor), Some(patch)) => Parsed(Version(major, minor, patch))
  }

  /** `versionFromCode` in terms of `toInt` on the three parts: with three
      parts, parsing succeeds exactly when each part is an `Int`, the version
      holds the three values in order, and otherwise the first part from the
      left that is not an `Int` is reported. */
  lemma VersionFromCodeParts(code: string)
    ensures var r, p := VersionFromCode(code), Split(Normalize(code), '.');
            r.Invalid? && r.error.WrongPartCount? ==> r.error.count == |p|
    ensures var r, p := VersionFromCode(code), Split(Normalize(code), '.');
            |p| == 3 ==> (r.Parsed? <==> ToInt(p[0]).Some? && ToInt(p[1]).Some? && ToInt(p[2]).Some?)
    ensures var r, p := VersionFromCode(code), Split(Normalize(code), '.');
            r.Parsed? ==> && |p| == 3 && ToInt(p[0]).Some? && ToInt(p[1]).Some? && ToInt(p[2]).Some?
                          && r.version == Version(ToInt(p[0]).value, ToInt(p[1]).value, ToInt(p[2]).value)
    ensures var r, p := VersionFromCode(code), Split(Normalize(code), '.');
            r.Invalid? && r.error.NotAnInteger? ==>
              && |p| == 3
              && (|| (ToInt(p[0]).None? && r.error.part == p[0])
                  || (ToInt(p[0]).Some? && ToInt(p[1]).None? && r.error.part == p[1])
                  || (ToInt(p[0]).Some? && ToInt(p[1]).Some? && ToInt(p[2]).None? && r.error.part == p[2]))
  {
  }

  // ----- round trip -----

  lemma {:induction false} DigitsValueOfNatToString(n: nat)
    ensures AllDigits(NatToString(n)) && DigitsValue(NatToString(n)) == n
    decreases n
  {
    var s := NatToString(n);
    if n >= 10 {
      DigitsValueOfNatToString(n / 10);
      assert s[..|s| - 1] == NatToString(n / 10);
    }
  }

  /** `toInt` reads back what `toString` prints, for every `Int`. */
  lemma ToIntOfIntToString(x: Int32)
    ensures ToInt(IntToString(x)) == Some(x)
  {
    if x < 0 {
      ToIntOfNegative(-(x as int));
    } else {
      ToIntOfNat(x);
    }
  }

  lemma ToIntOfNegative(n: nat)
    requires 0 < n <= -MinInt
    ensures ToInt("-" + NatToString(n)) == Some(-(n as int))
  {
    var s := "-" + NatToString(n);
    DigitsValueOfNatToString(n);
    assert Unsigned(s) == NatToString(n);
  }

  lemma ToIntOfNat(n: nat)
    requires n <= MaxInt
    ensures ToInt(NatToString(n)) == Some(n)
  {
    var s := NatToString(n);
    DigitsValueOfNatToString(n);
    assert IsDigit(s[0]) && Unsigned(s) == s;
  }

  lemma {:induction false} LowerOfNoUpper(s: string)
    requires forall i :: 0 <= i < |s| ==> !('A' <= s[i] <= 'Z')
    ensures Lower(s) == s
  {
  }

  lemma {:induction false} RemoveAbsent(s: string, pat: string)
    requires |pat| > 0 && pat[0] !in s
    ensures Remove(s, pat) == s
    decreases |s|
  {
    if |s| >= |pat| {
      assert s[0] != pat[0];
      assert s[..|pat|] != pat;
      RemoveAbsent(s[1..], pat);
    }
  }

  /** A text long enough for the pattern but not starting with it keeps its
      first character. */
  lemma RemoveKeepsFirst(s: string, pat: string)
    requires |pat| > 0 && |pat| <= |s| && s[..|pat|] != pat
    ensures Remove(s, pat) == [s[0]] + Remove(s[1..], pat)
  {
  }

  /** Removing a pattern from `s[from..]`, where its first occurrence at or
      after `from` is at `k`, keeps the text up to `k`, drops that
      occurrence, and goes on after it. */
  lemma {:induction false} RemoveUpToOccurrence(s: string, pat: string, from: nat, k: nat)
    requires |pat| > 0 && from <= k && OccursAt(s, pat, k)
    requires forall j: nat :: from <= j < k ==> !OccursAt(s, pat, j)
    ensures Remove(s[from..], pat) == s[from..k] + Remove(s[k + |pat|..], pat)
    decreases k - from
  {
    var u := s[from..];
    if from == k {
      assert u[..|pat|] == pat && u[|pat|..] == s[k + |pat|..] && s[from..k] == [];
    } else {
      assert !OccursAt(s, pat, from);
      assert u[..|pat|] == s[from..from + |pat|];
      RemoveKeepsFirst(u, pat);
      assert u[1..] == s[from + 1..];
      RemoveUpToOccurrence(s, pat, from + 1, k);
      var a, b := s[from + 1..k], Remove(s[k + |pat|..], pat);
      assert [s[from]] + a == s[from..k];
      assert [s[from]] + (a + b) == ([s[from]] + a) + b;
    }
  }

  /** With no occurrence of the pattern at or after `from`, `s[from..]` comes
      back unchanged. */
  lemma {:induction false} RemoveNoneFrom(s: string, pat: string, from: nat)
    requires |pat| > 0 && from <= |s| && forall j: nat :: from <= j ==> !OccursAt(s, pat, j)
    ensures Remove(s[from..], pat) == s[from..]
    decreases |s| - from
  {
    var u := s[from..];
    if |u| >= |pat| {
      assert !OccursAt(s, pat, from);
      assert u[..|pat|] == s[from..from + |pat|];
      RemoveKeepsFirst(u, pat);
      assert u[1..] == s[from + 1..];
      RemoveNoneFrom(s, pat, from + 1);
    }
  }

  /** `replace(pat, "")` in terms of the first occurrence of `pat`: none means
      nothing is removed; otherwise the text before it is kept, the occurrence
      is dropped, and the removal goes on after it. */
  lemma RemoveByFirstOccurrence(s: string, pat: string)
    requires |pat| > 0
    ensures IndexFrom(s, pat, 0).None? ==> Remove(s, pat) == s
    ensures IndexFrom(s, pat, 0).Some? ==>
              var k := IndexFrom(s, pat, 0).value;
              Remove(s, pat) == s[..k] + Remove(s[k + |pat|..], pat)
  {
    var first := IndexFrom(s, pat, 0);
    assert s[0..] == s;
    if first.None? {
      RemoveNoneFrom(s, pat, 0);
    } else {
      RemoveUpToOccurrence(s, pat, 0, first.value);
      assert s[0..first.value] == s[..first.value];
    }
  }

  lemma {:induction false} SplitNoDelimiter(c: string, d: char)
    requires d !in c
    ensures Split(c, d) == [c]
    decreases |c|
  {
    if c != [] {
      SplitNoDelimiter(c[1..], d);
    }
  }

  lemma {:induction false} SplitPrefix(a: string, d: char, rest: string)
    requires d !in a
    ensures Split(a + [d] + rest, d) == [a] + Split(rest, d)
    decreases |a|
  {
    var s := a + [d] + rest;
    if a == [] {
      assert s[1..] == rest;
    } else {
      assert s[1..] == a[1..] + [d] + rest;
      SplitPrefix(a[1..], d, rest);
      assert [s[0]] + a[1..] == a;
    }
  }

  /** Removing a pattern skips a prefix that cannot start an occurrence. */
  lemma {:induction false} RemoveSkip(a: string, pat: string, rest: string)
    requires |pat| > 0 && pat[0] !in a
    ensures Remove(a + pat + rest, pat) == a + Remove(rest, pat)
    decreases |a|
  {
    var s := a + pat + rest;
    assert |s| >= |pat|;
    if a == [] {
      assert s[..|pat|] == pat && s[|pat|..] == rest;
    } else {
      assert s[0] == a[0] && a[0] != pat[0];
      assert s[..|pat|] != pat by {
        assert s[..|pat|][0] == s[0];
      }
      assert Remove(s, pat) == [s[0]] + Remove(s[1..], pat);
      assert s[1..] == a[1..] + pat + rest;
      RemoveSkip(a[1..], pat, rest);
      assert [a[0]] + a[1..] == a;
    }
  }

  predicate DigitsAndDots(s: string) {
    forall i :: 0 <= i < |s| ==> IsDigit(s[i]) || s[i] == '.'
  }

  /** A string of digits and dots is its own normal form. */
  lemma NormalizeOfDigitsAndDots(s: string)
    requires DigitsAndDots(s)
    ensures Normalize(s) == s
  {
    LowerOfNoUpper(s);
    RemoveAbsent(s, " ");
    RemoveAbsent(s, "version");
    RemoveAbsent(s, "snapshot");
    RemoveAbsent(s, "-");
  }

  /** Three parts without a dot, joined by dots, split back into themselves. */
  lemma SplitThree(a: string, b: string, c: string)
    requires '.' !in a && '.' !in b && '.' !in c
    ensures Split(a + "." + b + "." + c, '.') == [a, b, c]
  {
    assert a + "." + b + "." + c == a + ['.'] + (b + ['.'] + c);
    SplitPrefix(a, '.', b + ['.'] + c);
    SplitPrefix(b, '.', c);
    SplitNoDelimiter(c, '.');
  }

  /** A string whose normal form is a printed version with no negative part
      parses as that version. */
  lemma ParseOfNormalForm(code: string, v: Version)
    requires 0 <= v.major && 0 <= v.minor && 0 <= v.patch
    requires Normalize(code) == ToString(v)
    ensures VersionFromCode(code) == Parsed(v)
  {
    SplitThree(NatToString(v.major), NatToString(v.minor), NatToString(v.patch));
    ToIntOfIntToString(v.major);
    ToIntOfIntToString(v.minor);
    ToIntOfIntToString(v.patch);
  }

  /** A version with no negative part is parsed back from its printed form. */
  lemma RoundTrip(v: Version)
    requires 0 <= v.major && 0 <= v.minor && 0 <= v.patch
    ensures VersionFromCode(ToString(v)) == Parsed(v)
  {
    PrintedDigitsAndDots(v);
    NormalizeOfDigitsAndDots(ToString(v));
    ParseOfNormalForm(ToString(v), v);
  }

  /** Removing a dash that is a string's first character. */
  lemma RemoveLeadingDash(s: string, rest: string)
    requires s == "-" + rest && '-' !in rest
    ensures Remove(s, "-") == rest
  {
    assert s == "" + "-" + rest;
    RemoveSkip("", "-", rest);
    RemoveAbsent(rest, "-");
  }

  /** A version with no negative part prints as digits and dots. */
  lemma PrintedDigitsAndDots(v: Version)
    requires 0 <= v.major && 0 <= v.minor && 0 <= v.patch
    ensures DigitsAndDots(ToString(v))
  {
    var a, b, c := NatToString(v.major), NatToString(v.minor), NatToString(v.patch);
    assert ToString(v) == a + "." + b + "." + c;
    assert DigitsAndDots(a) && DigitsAndDots(b) && DigitsAndDots(c) && DigitsAndDots(".");
  }

  /** Normalising a dash followed by digits and dots drops the dash. */
  lemma NormalizeDashed(s: string, t: string)
    requires s == "-" + t && DigitsAndDots(t)
    ensures Normalize(s) == t
  {
    assert forall i :: 0 <= i < |s| ==> !('A' <= s[i] <= 'Z') by {
      assert forall i :: 1 <= i < |s| ==> s[i] == t[i - 1];
    }
    LowerOfNoUpper(s);
    assert ' ' !in s && 'v' !in s && 's' !in s by {
      assert forall i :: 1 <= i < |s| ==> s[i] == t[i - 1];
    }
    RemoveAbsent(s, " ");
    RemoveAbsent(s, "version");
    RemoveAbsent(s, "snapshot");
    RemoveLeadingDash(s, t);
  }

  /** A negative number prints as a minus sign before its magnitude. */
  lemma NegativeIntToString(x: int)
    requires x < 0
    ensures IntToString(x) == "-" + IntToString(-x)
  {
  }

  lemma DashFirst(a: string, b: string, c: string)
    ensures ("-" + a) + "." + b + "." + c == "-" + (a + "." + b + "." + c)
  {
  }

  /** A negative part does not survive the round trip: its sign is stripped
      with the other dashes. */
  lemma NegativePartLosesSign(v: Version)
    requires v.major < 0 && MinInt < v.major && 0 <= v.minor && 0 <= v.patch
    ensures VersionFromCode(ToString(v)) == Parsed(v.(major := -v.major))
  {
    var w := v.(major := -v.major);
    NormalizeNegativeMajor(v, w);
    ParseOfNormalForm(ToString(v), w);
  }

  /** Normalising a version whose major part is negative prints its magnitude. */
  lemma NormalizeNegativeMajor(v: Version, w: Version)
    requires MinInt < v.major < 0 && 0 <= v.minor && 0 <= v.patch && w == v.(major := -v.major)
    ensures Normalize(ToString(v)) == ToString(w)
  {
    assert ToString(v) == "-" + ToString(w) by {
      NegativeIntToString(v.major);
      DashFirst(IntToString(w.major), IntToString(v.minor), IntToString(v.patch));
    }
    PrintedDigitsAndDots(w);
    NormalizeDashed(ToString(v), ToString(w));
  }

  /** Lowercasing works character by character, so it distributes over
      concatenation. */
  lemma LowerAppend(a: string, b: string)
    ensures Lower(a + b) == Lower(a) + Lower(b)
  {
    assert forall i :: 0 <= i < |a + b| ==> Lower(a + b)[i] == (Lower(a) + Lower(b))[i];
  }

  /** A string of digits and dots with a `-SNAPSHOT` suffix normalises to the
      string without it. */
  lemma NormalizeSnapshotSuffix(p: string)
    requires DigitsAndDots(p)
    ensures Normalize(p + "-SNAPSHOT") == p
  {
    LowerSnapshotSuffix(p);
    KeepSnapshotSuffix(p);
    RemoveSnapshotWord(p);
    RemoveTrailingDash(p);
  }

  lemma LowerSnapshotSuffix(p: string)
    requires DigitsAndDots(p)
    ensures Lower(p + "-SNAPSHOT") == p + "-snapshot"
  {
    LowerAppend(p, "-SNAPSHOT");
    LowerOfNoUpper(p);
    assert Lower("-SNAPSHOT") == "-snapshot";
  }

  /** Neither a space nor `version` occurs in a lowercased snapshot string. */
  lemma KeepSnapshotSuffix(p: string)
    requires DigitsAndDots(p)
    ensures Remove(p + "-snapshot", " ") == p + "-snapshot"
    ensures Remove(p + "-snapshot", "version") == p + "-snapshot"
  {
    var low := p + "-snapshot";
    assert ' ' !in low && 'v' !in low by {
      assert forall i :: 0 <= i < |low| ==> low[i] == (if i < |p| then p[i] else "-snapshot"[i - |p|]);
    }
    RemoveAbsent(low, " ");
    RemoveAbsent(low, "version");
  }

  lemma RemoveSnapshotWord(p: string)
    requires DigitsAndDots(p)
    ensures Remove(p + "-snapshot", "snapshot") == p + "-"
  {
    assert p + "-snapshot" == (p + "-") + "snapshot" + "";
    assert 's' !in p + "-" by {
      assert forall i :: 0 <= i < |p + "-"| ==> (p + "-")[i] == (if i < |p| then p[i] else '-');
    }
    RemoveSkip(p + "-", "snapshot", "");
  }

  lemma RemoveTrailingDash(p: string)
    requires DigitsAndDots(p)
    ensures Remove(p + "-", "-") == p
  {
    assert p + "-" == p + "-" + "";
    RemoveSkip(p, "-", "");
  }

  /** A `-SNAPSHOT` version string parses as its release version. */
  lemma SnapshotParses(v: Version)
    requires 0 <= v.major && 0 <= v.minor && 0 <= v.patch
    ensures VersionFromCode(ToString(v) + "-SNAPSHOT") == Parsed(v)
  {
    PrintedDigitsAndDots(v);
    NormalizeSnapshotSuffix(ToString(v));
    ParseOfNormalForm(ToString(v) + "-SNAPSHOT", v);
  }

  // ----- rewriting the build text -----

  /** `pat` occurs in `s` at index `j`. */
  predicate OccursAt(s: string, pat: string, j: nat) {
    j + |pat| <= |s| && s[j..j + |pat|] == pat
  }

  /** `k` is the first index where `pat` occurs in `s`. */
  predicate FirstOccurrence(s: string, pat: string, k: nat) {
    OccursAt(s, pat, k) && forall j: nat :: j < k ==> !OccursAt(s, pat, j)
  }

  /** `pat` occurs nowhere in `s`. */
  ghost predicate Absent(s: string, pat: string) {
    forall j: nat :: !OccursAt(s, pat, j)
  }

  /** The first index at or after `from` where `pat` occurs in `s`. */
  function IndexFrom(s: string, pat: string, from: nat): (r: Option<nat>)
    requires from <= |s|
    ensures r.Some? ==> from <= r.value && OccursAt(s, pat, r.value)
    ensures r.Some? ==> forall j :: from <= j < r.value ==> !OccursAt(s, pat, j)
    ensures r.None? ==> forall j :: from <= j ==> !OccursAt(s, pat, j)
    decreases |s| - from
  {
    if from + |pat| > |s| then None
    else if OccursAt(s, pat, from) then Some(from)
    else IndexFrom(s, pat, from + 1)
  }

  /** `replaceFirst(pat, rep)`: replaces the first occurrence of `pat`, if
      any, and keeps everything else. */
  function ReplaceFirst(s: string, pat: string, rep: string): (r: string)
    // with no occurrence the text comes back unchanged
    ensures Absent(s, pat) ==> r == s
    // otherwise only the first occurrence is replaced; the text before and
    // after it is kept
    ensures forall k: nat :: FirstOccurrence(s, pat, k) ==>
              r == s[..k] + rep + s[k + |pat|..]
  {
    match IndexFrom(s, pat, 0)
    case None => s
    case Some(k) => s[..k] + rep + s[k + |pat|..]
  }

  /** The line the tasks look for: `version = "<v>"`. */
  function VersionLine(v: Version): string {
    "version = \"" + ToString(v) + "\""
  }

  datatype Bump = PatchBump | MinorBump | MajorBump

  datatype TaskOutcome = Rewritten(next: Version, text: string) | Failed(error: ParseError)

  /** What each task computes from the current version, as written: the
      `bumpMajor` task calls `bumpMinor`. */
  function TaskBump(task: Bump, v: Version): Version {
    match task
    case PatchBump => BumpPatch(v)
    case MinorBump => BumpMinor(v)
    case MajorBump => BumpMinor(v)
  }

  /** What each task computes as evidently intended. */
  function IntendedBump(task: Bump, v: Version): Version {
    match task
    case PatchBump => BumpPatch(v)
    case MinorBump => BumpMinor(v)
    case MajorBump => BumpMajor(v)
  }

  /** The bump a task applies, as written or as intended. */
  function Bumped(task: Bump, intended: bool, v: Version): Version {
    if intended then IntendedBump(task, v) else TaskBump(task, v)
  }

  /** A bump task with its file read and write taken out: parse the project
      version, bump it, and rewrite the first line naming it. */
  function BumpTaskWith(task: Bump, intended: bool, projectVersion: string, buildText: string): (r: TaskOutcome)
    // a bump fails exactly when the project version does not parse, with its error
    ensures r.Failed? <==> VersionFromCode(projectVersion).Invalid?
    ensures r.Failed? ==> r.error == VersionFromCode(projectVersion).error
    // the new version is the chosen bump of the current one (later than it by
    // `BumpTaskLater`, written into the text as `BumpTaskText` states)
    ensures r.Rewritten? ==> r.next == Bumped(task, intended, VersionFromCode(projectVersion).version)
  {
    match VersionFromCode(projectVersion)
    case Invalid(e) => Failed(e)
    case Parsed(current) =>
      var next := Bumped(task, intended, current);
      Rewritten(next, ReplaceFirst(buildText, VersionLine(current), VersionLine(next)))
  }

  /** The version a task writes is later than the current one unless a part
      is at the top of the `Int` range. */
  lemma BumpTaskLater(task: Bump, intended: bool, projectVersion: string, buildText: string)
    ensures var r := BumpTaskWith(task, intended, projectVersion, buildText);
            r.Rewritten? ==>
              var current := VersionFromCode(projectVersion).version;
              current.major < MaxInt && current.minor < MaxInt && current.patch < MaxInt ==> Less(current, r.next)
  {
    if VersionFromCode(projectVersion).Parsed? {
      BumpedIsLater(task, intended, VersionFromCode(projectVersion).version);
    }
  }

  /** The text a task writes: a build text that never names the current
      version's line comes back unchanged; otherwise its first such line, at
      `k`, and only that one, is rewritten to name the new version. */
  lemma BumpTaskText(task: Bump, intended: bool, projectVersion: string, buildText: string, k: nat)
    requires VersionFromCode(projectVersion).Parsed?
    ensures var line := VersionLine(VersionFromCode(projectVersion).version);
            var r := BumpTaskWith(task, intended, projectVersion, buildText);
            && (Absent(buildText, line) ==> r.text == buildText)
            && (FirstOccurrence(buildText, line, k) ==>
                  r.text == buildText[..k] + VersionLine(r.next) + buildText[k + |line|..])
  {
    var current := VersionFromCode(projectVersion).version;
    var next := Bumped(task, intended, current);
    assert BumpTaskWith(task, intended, projectVersion, buildText) ==
           Rewritten(next, ReplaceFirst(buildText, VersionLine(current), VersionLine(next)));
  }

  lemma BumpedIsLater(task: Bump, intended: bool, v: Version)
    ensures v.major < MaxInt && v.minor < MaxInt && v.patch < MaxInt ==> Less(v, Bumped(task, intended, v))
  {
    BumpsOrder(v, v);
  }

  /** The `bumpPatch`, `bumpMinor` and `bumpMajor` tasks as written. */
  function BumpTask(task: Bump, projectVersion: string, buildText: string): TaskOutcome {
    BumpTaskWith(task, false, projectVersion, buildText)
  }

  /** The three tasks as evidently intended. */
  function BumpTaskIntended(task: Bump, projectVersion: string, buildText: string): TaskOutcome {
    BumpTaskWith(task, true, projectVersion, buildText)
  }

  /** Run on a build text whose first `version = "..."` line for the project
      version starts at `k`, each intended task rewrites exactly that line to
      name the bumped version, which is later than the current one. */
  lemma IntendedTaskRewritesVersionLine(task: Bump, v: Version, text: string, k: nat)
    requires 0 <= v.major < MaxInt && 0 <= v.minor < MaxInt && 0 <= v.patch < MaxInt
    requires FirstOccurrence(text, VersionLine(v), k)
    ensures var next := IntendedBump(task, v);
            && Less(v, next)
            && BumpTaskIntended(task, ToString(v), text) ==
               Rewritten(next, text[..k] + VersionLine(next) + text[k + |VersionLine(v)|..])
            && (task == MajorBump ==> next == Version(v.major + 1, 0, 0))
  {
    RoundTrip(v);
    BumpsOrder(v, v);
  }

  lemma ReplaceWhole(text: string, rep: string)
    ensures ReplaceFirst(text, text, rep) == rep
  {
    assert OccursAt(text, text, 0);
    assert text[..0] == "" && text[|text|..] == "";
  }

  /** Any task run on a build text that is just the version line rewrites it
      to the bumped version's line. */
  lemma TaskOnOwnLine(task: Bump, intended: bool, v: Version)
    requires 0 <= v.major && 0 <= v.minor && 0 <= v.patch
    ensures var next := Bumped(task, intended, v);
            BumpTaskWith(task, intended, ToString(v), VersionLine(v)) == Rewritten(next, VersionLine(next))
  {
    RoundTrip(v);
    ReplaceWhole(VersionLine(v), VersionLine(Bumped(task, intended, v)));
  }

  /** As written, the `bumpMajor` task bumps the minor part: run on a build
      text that is just the version line, it writes the minor bump where the
      intended task writes the major bump. */
  lemma MajorTaskBumpsMinor(v: Version)
    requires 0 <= v.major < MaxInt && 0 <= v.minor < MaxInt && 0 <= v.patch
    ensures BumpTask(MajorBump, ToString(v), VersionLine(v)) ==
              Rewritten(Version(v.major, v.minor + 1, 0), VersionLine(Version(v.major, v.minor + 1, 0)))
    ensures BumpTaskIntended(MajorBump, ToString(v), VersionLine(v)) ==
              Rewritten(Version(v.major + 1, 0, 0), VersionLine(Version(v.major + 1, 0, 0)))
  {
    TaskOnOwnLine(MajorBump, false, v);
    MajorBumps(v);
    TaskOnOwnLine(MajorBump, true, v);
  }

  /** The version the `bumpMajor` task computes, as written and as intended,
      away from the top of the `Int` range. */
  lemma MajorBumps(v: Version)
    requires v.major < MaxInt && v.minor < MaxInt
    ensures Bumped(MajorBump, false, v) == Version(v.major, v.minor + 1, 0)
    ensures Bumped(MajorBump, true, v) == Version(v.major + 1, 0, 0)
  {
  }

  /** The project's own version `0.0.2` shows it: the `bumpMajor` task writes
      `0.1.0`, the intended task `1.0.0`. */
  lemma MajorTaskOnProjectVersion(v: Version)
    requires v == Version(0, 0, 2)
    ensures BumpTask(MajorBump, ToString(v), VersionLine(v)) == Rewritten(Version(0, 1, 0), VersionLine(Version(0, 1, 0)))
    ensures BumpTaskIntended(MajorBump, ToString(v), VersionLine(v)) == Rewritten(Version(1, 0, 0), VersionLine(Version(1, 0, 0)))
  {
    assert Version(v.major, v.minor + 1, 0) == Version(0, 1, 0) && Version(v.major + 1, 0, 0) == Version(1, 0, 0);
    MajorTaskBumpsMinor(v);
  }

  /** The line naming a version does not occur in the line naming its
      snapshot. */
  lemma ReleaseLineAbsent(p: string)
    ensures Absent("version = \"" + p + "-SNAPSHOT\"", "version = \"" + p + "\"")
  {
    var text, pat := "version = \"" + p + "-SNAPSHOT\"", "version = \"" + p + "\"";
    forall j: nat | j + |pat| <= |text| ensures !OccursAt(text, pat, j) {
      var n := 11 + |p|;
      if j == 0 {
        assert text[n] == '-' && pat[n] == '"';
        assert text[..|pat|][n] == text[n];
      } else {
        assert text[j..j + |pat|][0] == text[j] && pat[0] == 'v';
        assert j <= 9 && text[j] == "version = \""[j];
      }
    }
  }

  /** A build text that names the project version with a `-SNAPSHOT` suffix is
      left unchanged: the tasks look for the normalised version. */
  lemma SnapshotLineNotRewritten(v: Version)
    requires 0 <= v.major && 0 <= v.minor && 0 <= v.patch
    ensures var code := ToString(v) + "-SNAPSHOT";
            var text := "version = \"" + code + "\"";
            BumpTask(PatchBump, code, text) == Rewritten(BumpPatch(v), text)
  {
    var code := ToString(v) + "-SNAPSHOT";
    SnapshotParses(v);
    ReleaseLineAbsent(ToString(v));
    assert "version = \"" + code + "\"" == "version = \"" + ToString(v) + "-SNAPSHOT\"";
  }
}
