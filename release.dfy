/**
 * Version arithmetic of the release script (scripts/lightyear-release/index.js):
 * reading a package version "major.minor.patch[-label.canary]" into four
 * numbers, bumping one of them, writing the result back as text, and the
 * arguments handed to `npm publish`.
 */
module Release {
  import opened Js

  /** The four numbers `[major, minor, patch, canary]` of a version. */
  type Version = v: seq<JsNumber> | |v| == 4 witness [Finite(0), Finite(0), Finite(0), Finite(0)]

  /** The kind of release asked for. */
  datatype SemverType = Major | Minor | Patch | Canary

  /** The position in a Version that a bump of this kind increments. */
  function Position(t: SemverType): (p: nat)
    ensures p <= 3
    ensures p == 3 <==> t == Canary
  {
    match t
    case Major => 0
    case Minor => 1
    case Patch => 2
    case Canary => 3
  }

  /** `+parts[i]`, where a missing element is `undefined` and reads as NaN. */
  function NumberAt(parts: seq<string>, i: nat): JsNumber {
    if i < |parts| then ToNumber(parts[i]) else NaN
  }

  /** parseVersion: the text before the first '-' gives major, minor and
      patch; the text between the first and second '-' (or "" when there is
      no '-') gives the canary number. */
  function ParseVersion(version: string): Version {
    var parts := Split(version, '-');
    ParseMain(parts[0]) + [ParseCanary(if |parts| > 1 then parts[1] else "")]
  }

  /** major, minor and patch: the first three '.'-separated fields. */
  function ParseMain(mainPart: string): (r: seq<JsNumber>)
    ensures |r| == 3
  {
    var main := Split(mainPart, '.');
    [NumberAt(main, 0), NumberAt(main, 1), NumberAt(main, 2)]
  }

  /** The canary number: the second '.'-separated field, or 0 when there is
      none. */
  function ParseCanary(canaryRaw: string): JsNumber {
    var canaryParts := Split(canaryRaw, '.');
    if |canaryParts| > 1 then ToNumber(canaryParts[1]) else Finite(0)
  }

  /** The text calculateNextVersion returns for a Version: "M.m.p", followed by
      "-canary.N" only when the canary number is truthy. */
  function Format(v: Version): string {
    MainText(v) + (if Truthy(v[3]) then "-canary." + ToText(v[3]) else "")
  }

  /** "M.m.p" */
  function MainText(v: Version): string {
    ToText(v[0]) + "." + ToText(v[1]) + "." + ToText(v[2])
  }

  /** The version after bumping position `pos`: earlier positions kept, the
      bumped one incremented, every later one zeroed. */
  function Bump(v: Version, pos: nat): (r: Version)
    requires pos <= 3
    ensures forall i :: 0 <= i < pos ==> r[i] == v[i]
    ensures r[pos] == Inc(v[pos])
    ensures forall i :: pos < i < 4 ==> r[i] == Finite(0)
  {
    v[..pos] + [Inc(v[pos])] + seq(3 - pos, _ => Finite(0))
  }

  /** What calculateNextVersion(current, t) returns. */
  function NextVersion(current: string, t: SemverType): string {
    Format(Bump(ParseVersion(current), Position(t)))
  }

  /** calculateNextVersion: parse, increment the selected position in place,
      zero the later positions in a loop, and format. */
  method CalculateNextVersion(currentVersion: string, semverType: SemverType) returns (next: string)
    ensures next == NextVersion(currentVersion, semverType)
  {
    var parsed := ParseVersion(currentVersion);
    var versions := new JsNumber[4](i requires 0 <= i < 4 => parsed[i]);
    var positionToBump := Position(semverType);
    versions[positionToBump] := Inc(versions[positionToBump]);
    var i := positionToBump + 1;
    while i <= 3
      invariant positionToBump + 1 <= i <= 4
      invariant forall k :: 0 <= k < positionToBump ==> versions[k] == parsed[k]
      invariant versions[positionToBump] == Inc(parsed[positionToBump])
      invariant forall k :: positionToBump < k < i ==> versions[k] == Finite(0)
      invariant forall k :: i <= k < 4 ==> versions[k] == parsed[k]
    {
      versions[i] := Finite(0);
      i := i + 1;
    }
    next := Format(versions[..]);
  }

  // -----------------------------------------------------------------------
  // reading versions

  /** Three separator-free fields joined by dots split back into themselves. */
  lemma {:induction false} SplitThreeFields(x: string, y: string, z: string)
    requires '.' !in x && '.' !in y && '.' !in z
    ensures Split(x + "." + y + "." + z, '.') == [x, y, z]
  {
    assert x + "." + y + "." + z == x + ['.'] + (y + ['.'] + z);
    SplitAtFirstSeparator(x, y + ['.'] + z, '.');
    SplitAtFirstSeparator(y, z, '.');
    SplitWithoutSeparator(z, '.');
  }

  /** Three '.'-free fields joined by dots read as their three numbers. */
  lemma {:induction false} ParseMainOfFields(x: string, y: string, z: string)
    requires '.' !in x && '.' !in y && '.' !in z
    ensures ParseMain(x + "." + y + "." + z) == [ToNumber(x), ToNumber(y), ToNumber(z)]
  {
    SplitThreeFields(x, y, z);
  }

  /** A main part with one field reads that field as major; minor and patch
      are `undefined` and read as NaN. */
  lemma {:induction false} ParseMainOfOneField(x: string)
    requires '.' !in x
    ensures ParseMain(x) == [ToNumber(x), NaN, NaN]
  {
    SplitWithoutSeparator(x, '.');
  }

  /** A main part with two fields reads them as major and minor; patch is
      `undefined` and reads as NaN: "1.2" reads as [1, 2, NaN]. */
  lemma {:induction false} ParseMainOfTwoFields(x: string, y: string)
    requires '.' !in x && '.' !in y
    ensures ParseMain(x + "." + y) == [ToNumber(x), ToNumber(y), NaN]
  {
    SplitAtFirstSeparator(x, y, '.');
    SplitWithoutSeparator(y, '.');
  }

  /** Fields after the third are ignored. */
  lemma {:induction false} ParseMainIgnoresExtraFields(x: string, y: string, z: string, rest: string)
    requires '.' !in x && '.' !in y && '.' !in z
    ensures ParseMain(x + "." + y + "." + z + "." + rest) == [ToNumber(x), ToNumber(y), ToNumber(z)]
  {
    assert x + "." + y + "." + z + "." + rest == x + ['.'] + (y + ['.'] + (z + ['.'] + rest));
    SplitAtFirstSeparator(x, y + ['.'] + (z + ['.'] + rest), '.');
    SplitAtFirstSeparator(y, z + ['.'] + rest, '.');
    SplitAtFirstSeparator(z, rest, '.');
  }

  /** Text without a '-' has no canary field, so its canary number is 0. */
  lemma {:induction false} ParseWithoutSuffix(version: string)
    requires '-' !in version
    ensures ParseVersion(version) == ParseMain(version) + [Finite(0)]
  {
    SplitWithoutSeparator(version, '-');
  }

  /** With exactly one '-', the text before it gives major, minor and patch
      and the text after it gives the canary number. */
  lemma {:induction false} ParseWithSuffix(mainPart: string, canaryRaw: string)
    requires '-' !in mainPart && '-' !in canaryRaw
    ensures ParseVersion(mainPart + "-" + canaryRaw) == ParseMain(mainPart) + [ParseCanary(canaryRaw)]
  {
    SplitAtFirstSeparator(mainPart, canaryRaw, '-');
    SplitWithoutSeparator(canaryRaw, '-');
  }

  /** The canary field "label.n" reads as n, whatever the label says. */
  lemma {:induction false} ParseCanaryOfLabel(labelText: string, n: string)
    requires '.' !in labelText && '.' !in n
    ensures ParseCanary(labelText + "." + n) == ToNumber(n)
  {
    SplitAtFirstSeparator(labelText, n, '.');
    SplitWithoutSeparator(n, '.');
  }

  /** "a.b.c" with digit fields reads as [a, b, c, 0]. */
  lemma {:induction false} ParsePlainVersion(a: string, b: string, c: string)
    requires AllDigits(a) && AllDigits(b) && AllDigits(c)
    ensures ParseVersion(a + "." + b + "." + c)
         == [Finite(DigitsValue(a)), Finite(DigitsValue(b)), Finite(DigitsValue(c)), Finite(0)]
  {
    DigitsHaveNoSeparators(a);
    DigitsHaveNoSeparators(b);
    DigitsHaveNoSeparators(c);
    ParseWithoutSuffix(a + "." + b + "." + c);
    ParseMainOfFields(a, b, c);
  }

  /** "a.b.c-label.n" with digit fields reads as [a, b, c, n], whatever the
      label before the dot says. */
  lemma {:induction false} ParseLabelledVersion(a: string, b: string, c: string, labelText: string, n: string)
    requires AllDigits(a) && AllDigits(b) && AllDigits(c) && AllDigits(n)
    requires '-' !in labelText && '.' !in labelText
    ensures ParseVersion(a + "." + b + "." + c + "-" + labelText + "." + n)
         == [Finite(DigitsValue(a)), Finite(DigitsValue(b)), Finite(DigitsValue(c)), Finite(DigitsValue(n))]
  {
    DigitsHaveNoSeparators(a);
    DigitsHaveNoSeparators(b);
    DigitsHaveNoSeparators(c);
    DigitsHaveNoSeparators(n);
    var mainPart := a + "." + b + "." + c;
    var canaryRaw := labelText + "." + n;
    assert mainPart + "-" + labelText + "." + n == mainPart + "-" + canaryRaw;
    ParseWithSuffix(mainPart, canaryRaw);
    ParseMainOfFields(a, b, c);
    ParseCanaryOfLabel(labelText, n);
  }

  /** Reading back a formatted Version gives it again, except that a NaN
      canary number is falsy, is written without a suffix, and reads back as 0. */
  lemma {:induction false} FormatRoundTrip(v: Version)
    ensures ParseVersion(Format(v)) == v[..3] + [if v[3].NaN? then Finite(0) else v[3]]
  {
    MainTextRoundTrip(v);
    if Truthy(v[3]) {
      SuffixedFormatRoundTrip(v);
    } else {
      assert Format(v) == MainText(v);
      ParseWithoutSuffix(MainText(v));
    }
  }

  lemma {:induction false} SuffixedFormatRoundTrip(v: Version)
    requires Truthy(v[3])
    ensures ParseVersion(Format(v)) == v
  {
    var n := ToText(v[3]);
    var canaryRaw := "canary" + "." + n;
    assert "canary." + n == canaryRaw;
    assert Format(v) == MainText(v) + "-" + canaryRaw;
    MainTextRoundTrip(v);
    ParseWithSuffix(MainText(v), canaryRaw);
    ParseCanaryOfLabel("canary", n);
    NumberTextRoundTrip(v[3]);
    assert v == v[..3] + [v[3]];
  }

  /** "M.m.p" reads back as the first three numbers and holds no '-'. */
  lemma {:induction false} MainTextRoundTrip(v: Version)
    ensures '-' !in MainText(v)
    ensures ParseMain(MainText(v)) == v[..3]
  {
    ParseMainOfFields(ToText(v[0]), ToText(v[1]), ToText(v[2]));
    NumberTextRoundTrip(v[0]);
    NumberTextRoundTrip(v[1]);
    NumberTextRoundTrip(v[2]);
  }

  // -----------------------------------------------------------------------
  // bumping versions

  /** A major, minor or patch bump zeroes the canary number, so the new
      version carries no "-canary." suffix and reads back exactly as the
      bumped Version. */
  lemma {:induction false} ReleaseBumpHasNoSuffix(current: string, t: SemverType)
    requires t != Canary
    ensures '-' !in NextVersion(current, t)
    ensures ParseVersion(NextVersion(current, t)) == Bump(ParseVersion(current), Position(t))
  {
    var r := Bump(ParseVersion(current), Position(t));
    assert !Truthy(r[3]);
    assert NextVersion(current, t) == ToText(r[0]) + "." + ToText(r[1]) + "." + ToText(r[2]);
    FormatRoundTrip(r);
  }

  /** A canary bump keeps major, minor and patch and always writes
      "-canary.N" where N is one more than the old canary number. */
  lemma {:induction false} CanaryBumpAddsSuffix(current: string)
    requires ParseVersion(current)[3].Finite?
    ensures var v := ParseVersion(current);
      && NextVersion(current, Canary)
         == ToText(v[0]) + "." + ToText(v[1]) + "." + ToText(v[2]) + "-canary." + ToText(Finite(v[3].n + 1))
      && ParseVersion(NextVersion(current, Canary)) == v[..3] + [Finite(v[3].n + 1)]
  {
    var v := ParseVersion(current);
    var r := Bump(v, 3);
    assert r == v[..3] + [Finite(v[3].n + 1)];
    FormatRoundTrip(r);
  }

  /** A patch bump of a two-field version "x.y" increments the missing patch
      number, which stays NaN: the result is "x.y.NaN". */
  lemma {:induction false} PatchBumpOfTwoFieldVersion(x: string, y: string)
    requires AllDigits(x) && AllDigits(y)
    ensures NextVersion(x + "." + y, Patch) == ToText(ToNumber(x)) + "." + ToText(ToNumber(y)) + ".NaN"
  {
    DigitsHaveNoSeparators(x);
    DigitsHaveNoSeparators(y);
    ParseWithoutSuffix(x + "." + y);
    ParseMainOfTwoFields(x, y);
    var r := Bump(ParseVersion(x + "." + y), 2);
    assert r == [ToNumber(x), ToNumber(y), NaN, Finite(0)];
  }

  /** A canary bump of an unreadable canary number stays NaN, which is
      falsy: the suffix is dropped and the result reads back with canary 0. */
  lemma {:induction false} CanaryBumpOfNaN(current: string)
    requires ParseVersion(current)[3].NaN?
    ensures '-' !in NextVersion(current, Canary)
    ensures ParseVersion(NextVersion(current, Canary)) == ParseVersion(current)[..3] + [Finite(0)]
  {
    var v := ParseVersion(current);
    var r := Bump(v, 3);
    assert r[..3] == v[..3];
    FormatRoundTrip(r);
  }

  // -----------------------------------------------------------------------
  // publishing

  const RealRelease: string := "Real release"

  /** The arguments of the `npm publish` call: a dry run unless the release
      type is exactly "Real release", always tagged with the tag type. */
  method PublishOptions(releaseType: string, tagType: string) returns (publishOptions: seq<string>)
    ensures |publishOptions| == (if releaseType == RealRelease then 3 else 4)
    ensures publishOptions[0] == "publish"
    ensures publishOptions[|publishOptions| - 2..] == ["--tag", tagType]
    ensures "--dry-run" in publishOptions[..|publishOptions| - 2] <==> releaseType != RealRelease
  {
    publishOptions := ["publish", "--dry-run", "--tag", tagType];
    if releaseType == RealRelease {
      publishOptions := ["publish", "--tag", tagType];
      assert publishOptions[..1] == ["publish"] && "publish"[0] != "--dry-run"[0];
    } else {
      assert publishOptions[..2] == ["publish", "--dry-run"];
    }
  }
}
