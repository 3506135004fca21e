/** Release versions (internal/selfupdate/version.go). */
module Versions {
  import opened Prelude
  import opened Decimal
  import opened Splitting

  datatype Version = Version(major: nat, minor: nat, patch: nat)

  function Print(v: Version): string {
    "v" + (Utoa(v.major) + "." + Utoa(v.minor) + "." + Utoa(v.patch))
  }

  /** One to three runs of digits. */
  predicate Segments(parts: seq<string>) {
    1 <= |parts| <= 3 && forall i :: 0 <= i < |parts| ==> parts[i] != "" && AllDigits(parts[i])
  }

  predicate InRange(parts: seq<string>) {
    forall i :: 0 <= i < |parts| ==> AllDigits(parts[i]) && Value(parts[i]) < UINT64_LIMIT
  }

  /** The pattern v?([0-9]+)(\.[0-9]+)?(\.[0-9]+)? for a whole text, and its segments. */
  ghost predicate HasForm(s: string, parts: seq<string>) {
    Segments(parts) && (s == JoinWith(parts, '.') || s == "v" + JoinWith(parts, '.'))
  }

  function ParseSegments(parts: seq<string>): Option<Version> {
    if !Segments(parts) then None
    else
      var major := ParseUint(parts[0], UINT64_LIMIT);
      var minor := if |parts| > 1 then ParseUint(parts[1], UINT64_LIMIT) else Some(0);
      var patch := if |parts| > 2 then ParseUint(parts[2], UINT64_LIMIT) else Some(0);
      if major.None? || minor.None? || patch.None? then None
      else Some(Version(major.value, minor.value, patch.value))
  }

  function ParseVersion(s: string): Option<Version> {
    ParseSegments(SplitOn(if "v" <= s then s[1..] else s, '.'))
  }

  function FromSegments(parts: seq<string>): Version
    requires Segments(parts)
  {
    Version(Value(parts[0]), if |parts| > 1 then Value(parts[1]) else 0, if |parts| > 2 then Value(parts[2]) else 0)
  }

  lemma FormIsSplit(s: string, parts: seq<string>)
    requires HasForm(s, parts)
    ensures SplitOn(if "v" <= s then s[1..] else s, '.') == parts
  {
    forall i | 0 <= i < |parts| ensures '.' !in parts[i] {
      assert AllDigits(parts[i]);
    }
    SplitOfJoin(parts, '.');
    JoinBegins(parts);
  }

  lemma {:induction false} JoinBegins(parts: seq<string>)
    requires parts != [] && parts[0] != ""
    ensures |JoinWith(parts, '.')| > 0 && JoinWith(parts, '.')[0] == parts[0][0]
  {
    if |parts| > 1 { JoinBegins(parts[..|parts| - 1]); }
  }

  lemma ParsedHasForm(s: string) returns (parts: seq<string>)
    requires ParseVersion(s).Some?
    ensures HasForm(s, parts) && InRange(parts)
  {
    var rest := if "v" <= s then s[1..] else s;
    parts := SplitOn(rest, '.');
    assert HasForm(s, parts) by {
      JoinOfSplit(rest, '.');
      assert s == "v" + rest || s == rest;
    }
    ParsedInRange(s, parts);
  }

  lemma ParsedInRange(s: string, parts: seq<string>)
    requires ParseVersion(s).Some? && parts == SplitOn(if "v" <= s then s[1..] else s, '.')
    ensures InRange(parts)
  {
    forall i | 0 <= i < |parts| ensures AllDigits(parts[i]) && Value(parts[i]) < UINT64_LIMIT {
      assert ParseUint(parts[i], UINT64_LIMIT).Some?;
    }
  }

  lemma SegmentsParse(parts: seq<string>)
    requires Segments(parts) && InRange(parts)
    ensures ParseSegments(parts) == Some(FromSegments(parts))
  {
  }

  lemma FormParses(s: string, parts: seq<string>)
    requires HasForm(s, parts) && InRange(parts)
    ensures ParseVersion(s) == Some(FromSegments(parts))
  {
    FormIsSplit(s, parts);
    SegmentsParse(parts);
  }

  /** A text is a version exactly when it has the form and every segment fits in 64 bits, and then
      it is the version its segments spell. */
  lemma ParsesIff(s: string)
    ensures ParseVersion(s).Some? <==> exists parts :: HasForm(s, parts) && InRange(parts)
    ensures forall parts :: HasForm(s, parts) && InRange(parts) ==> ParseVersion(s) == Some(FromSegments(parts))
  {
    if ParseVersion(s).Some? {
      var parts := ParsedHasForm(s);
    }
    forall parts | HasForm(s, parts) && InRange(parts) ensures ParseVersion(s) == Some(FromSegments(parts)) {
      FormParses(s, parts);
    }
  }

  /** Every version that fits reads back from its text. */
  lemma PrintedVersionParses(v: Version)
    requires v.major < UINT64_LIMIT && v.minor < UINT64_LIMIT && v.patch < UINT64_LIMIT
    ensures ParseVersion(Print(v)) == Some(v)
  {
    var a, b, c := Utoa(v.major), Utoa(v.minor), Utoa(v.patch);
    ValueOfUtoa(v.major);
    ValueOfUtoa(v.minor);
    ValueOfUtoa(v.patch);
    ThreeSegments(a, b, c, v);
  }

  lemma JoinThree(a: string, b: string, c: string)
    ensures JoinWith([a, b, c], '.') == a + "." + b + "." + c
  {
    assert [a, b, c][..2] == [a, b] && [a, b][..1] == [a];
    assert JoinWith([a, b], '.') == JoinWith([a], '.') + "." + b;
  }

  lemma ThreeSegments(a: string, b: string, c: string, v: Version)
    requires AllDigits(a) && AllDigits(b) && AllDigits(c) && a != "" && b != "" && c != ""
    requires v == Version(Value(a), Value(b), Value(c))
    requires v.major < UINT64_LIMIT && v.minor < UINT64_LIMIT && v.patch < UINT64_LIMIT
    ensures ParseVersion("v" + (a + "." + b + "." + c)) == Some(v)
  {
    var parts := [a, b, c];
    JoinThree(a, b, c);
    var s := "v" + JoinWith(parts, '.');
    assert HasForm(s, parts) && InRange(parts);
    FormParses(s, parts);
    assert FromSegments(parts) == v;
  }

  function CompareSegment(a: nat, b: nat): int {
    if a < b then -1 else if a > b then 1 else 0
  }

  function Compare(a: Version, b: Version): int {
    var d := CompareSegment(a.major, b.major);
    if d != 0 then d
    else
      var e := CompareSegment(a.minor, b.minor);
      if e != 0 then e else CompareSegment(a.patch, b.patch)
  }

  /** Lexicographic order on the triple. */
  predicate Before(a: Version, b: Version) {
    a.major < b.major || (a.major == b.major && (a.minor < b.minor || (a.minor == b.minor && a.patch < b.patch)))
  }

  lemma CompareIsTotalOrder(a: Version, b: Version, c: Version)
    ensures Compare(a, b) == if Before(a, b) then -1 else if Before(b, a) then 1 else 0
    ensures Compare(a, b) == 0 <==> a == b
    ensures Compare(a, b) == -Compare(b, a)
    ensures Compare(a, b) <= 0 && Compare(b, c) <= 0 ==> Compare(a, c) <= 0
  {
  }

  /** Segments that are left out are zero. */
  lemma ShortVersions(a: nat, b: nat)
    requires a < UINT64_LIMIT && b < UINT64_LIMIT
    ensures ParseVersion(Utoa(a)) == Some(Version(a, 0, 0))
    ensures ParseVersion(Utoa(a) + "." + Utoa(b)) == Some(Version(a, b, 0))
  {
    ValueOfUtoa(a);
    ValueOfUtoa(b);
    var one, two := [Utoa(a)], [Utoa(a), Utoa(b)];
    assert two[..1] == one;
    assert JoinWith(two, '.') == JoinWith(one, '.') + "." + Utoa(b);
    assert HasForm(Utoa(a), one) && InRange(one);
    FormParses(Utoa(a), one);
    assert HasForm(Utoa(a) + "." + Utoa(b), two) && InRange(two);
    FormParses(Utoa(a) + "." + Utoa(b), two);
  }
}
