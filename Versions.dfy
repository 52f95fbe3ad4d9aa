/**
 * `versionCompare` of the content script: dotted version strings compared
 * component by component as numbers, a missing component counting as 0.
 */
module Versions {
  import opened JsValues

  function Max(a: nat, b: nat): nat { if a < b then b else a }

  predicate IsDigit(c: char) { '0' <= c <= '9' }

  /** The decimal value of a string of digits. */
  function DecimalValue(s: string): nat
    requires forall i :: 0 <= i < |s| ==> IsDigit(s[i])
    decreases |s|
  {
    if |s| == 0 then 0
    else
      assert IsDigit(s[|s| - 1]);
      10 * DecimalValue(s[..|s| - 1]) + (s[|s| - 1] as int - '0' as int)
  }

  /**
   * `Number(part) || 0`: a string of digits reads as its decimal value; the
   * empty string reads as 0 and anything else is NaN, which `|| 0` turns into 0.
   */
  function PartValue(s: string): (n: nat)
    ensures s == "" ==> n == 0
    ensures (exists i :: 0 <= i < |s| && !IsDigit(s[i])) ==> n == 0
    ensures |s| == 1 && IsDigit(s[0]) ==> n == s[0] as int - '0' as int
  {
    if forall i :: 0 <= i < |s| ==> IsDigit(s[i]) then
      assert |s| == 1 ==> s[..0] == "" && DecimalValue(s[..0]) == 0 && s[|s| - 1] == s[0];
      DecimalValue(s)
    else 0
  }

  /**
   * A digit string reads as a decimal number, one digit at a time: dropping
   * the last digit divides by ten. So "10" reads as 10, not as anything
   * ordered like text.
   */
  lemma PartValueDigits(s: string)
    requires |s| >= 1 && forall i :: 0 <= i < |s| ==> IsDigit(s[i])
    ensures PartValue(s) == 10 * PartValue(s[..|s| - 1]) + (s[|s| - 1] as int - '0' as int)
  {
    var prefix := s[..|s| - 1];
    forall i | 0 <= i < |prefix| ensures IsDigit(prefix[i]) {
      assert prefix[i] == s[i];
    }
  }

  /** `v.split('.').map(Number)`, each part already passed through `|| 0`. */
  function Parts(v: string): (p: seq<nat>)
    ensures |p| == |Split(v, '.')|
  {
    var pieces := Split(v, '.');
    seq(|pieces|, i requires 0 <= i < |pieces| => PartValue(pieces[i]))
  }

  /** `parts[i] || 0`: reading past the end gives 0. */
  function At(p: seq<nat>, i: nat): nat {
    if i < |p| then p[i] else 0
  }

  /** The comparison of the numeric parts from position `i` on. */
  function CompareFrom(p: seq<nat>, q: seq<nat>, i: nat): (r: int)
    ensures -1 <= r <= 1
    decreases Max(|p|, |q|) - i
  {
    if i >= Max(|p|, |q|) then 0
    else if At(p, i) > At(q, i) then 1
    else if At(p, i) < At(q, i) then -1
    else CompareFrom(p, q, i + 1)
  }

  /** What `versionCompare(v1, v2)` returns. */
  function VersionCmp(v1: string, v2: string): (r: int)
    ensures -1 <= r <= 1
  {
    CompareFrom(Parts(v1), Parts(v2), 0)
  }

  /** The source's loop: walk up to the longer part list, return at the first difference. */
  method VersionCompare(v1: string, v2: string) returns (r: int)
    ensures r == VersionCmp(v1, v2)
    ensures r == -1 || r == 0 || r == 1
  {
    var parts1 := Parts(v1);
    var parts2 := Parts(v2);
    var n := Max(|parts1|, |parts2|);
    var i := 0;
    while i < n
      invariant 0 <= i <= n
      invariant CompareFrom(parts1, parts2, i) == CompareFrom(parts1, parts2, 0)
    {
      var p1 := At(parts1, i);
      var p2 := At(parts2, i);
      if p1 > p2 { return 1; }
      if p1 < p2 { return -1; }
      i := i + 1;
    }
    return 0;
  }

  /** One step of the comparison holds at every position, also past both ends. */
  lemma CompareStep(p: seq<nat>, q: seq<nat>, i: nat)
    ensures CompareFrom(p, q, i) ==
      if At(p, i) > At(q, i) then 1
      else if At(p, i) < At(q, i) then -1
      else CompareFrom(p, q, i + 1)
  {
  }

  /** The comparison is 0 exactly when both part lists agree everywhere, missing parts read as 0. */
  lemma {:induction false} CompareZeroIff(p: seq<nat>, q: seq<nat>, i: nat)
    ensures CompareFrom(p, q, i) == 0 <==> forall j :: i <= j ==> At(p, j) == At(q, j)
    decreases Max(|p|, |q|) - i
  {
    if i < Max(|p|, |q|) {
      CompareZeroIff(p, q, i + 1);
    }
  }

  /** Swapping the arguments negates the result. */
  lemma {:induction false} CompareAntisymmetric(p: seq<nat>, q: seq<nat>, i: nat)
    ensures CompareFrom(p, q, i) == -CompareFrom(q, p, i)
    decreases Max(|p|, |q|) - i
  {
    if i < Max(|p|, |q|) {
      CompareAntisymmetric(p, q, i + 1);
    }
  }

  /** "At most" is transitive. */
  lemma {:induction false} CompareTransitive(a: seq<nat>, b: seq<nat>, c: seq<nat>, i: nat)
    requires CompareFrom(a, b, i) <= 0 && CompareFrom(b, c, i) <= 0
    ensures CompareFrom(a, c, i) <= 0
    decreases Max(Max(|a|, |b|), |c|) - i
  {
    CompareStep(a, b, i);
    CompareStep(b, c, i);
    CompareStep(a, c, i);
    if i < Max(Max(|a|, |b|), |c|) && At(a, i) == At(b, i) == At(c, i) {
      CompareTransitive(a, b, c, i + 1);
    }
  }

  /** `versionCompare(v, v) == 0`. */
  lemma {:induction false} VersionCmpReflexive(v: string)
    ensures VersionCmp(v, v) == 0
  {
    CompareZeroIff(Parts(v), Parts(v), 0);
  }

  /** `versionCompare(a, b) == -versionCompare(b, a)`. */
  lemma VersionCmpAntisymmetric(a: string, b: string)
    ensures VersionCmp(a, b) == -VersionCmp(b, a)
  {
    CompareAntisymmetric(Parts(a), Parts(b), 0);
  }

  /** `versionCompare(a, b) <= 0 && versionCompare(b, c) <= 0` gives `versionCompare(a, c) <= 0`. */
  lemma VersionCmpTransitive(a: string, b: string, c: string)
    requires VersionCmp(a, b) <= 0 && VersionCmp(b, c) <= 0
    ensures VersionCmp(a, c) <= 0
  {
    CompareTransitive(Parts(a), Parts(b), Parts(c), 0);
  }

  /** Versions whose parts agree up to trailing zeros compare equal, and only those. */
  lemma VersionCmpZeroIff(a: string, b: string)
    ensures VersionCmp(a, b) == 0 <==> forall j :: 0 <= j ==> At(Parts(a), j) == At(Parts(b), j)
  {
    CompareZeroIff(Parts(a), Parts(b), 0);
  }

  /** Appending ".0" never changes how a version compares: "1.2" and "1.2.0" are equal. */
  lemma {:induction false} TrailingZeroIsIgnored(v: string)
    ensures VersionCmp(v, v + ".0") == 0
  {
    var pieces := Split(v, '.');
    SplitSpec(v, '.');
    var longer := pieces + ["0"];
    assert Join(longer, '.') == v + ".0" by { JoinSnoc(pieces, "0", '.'); }
    forall i | 0 <= i < |longer| ensures '.' !in longer[i] {
      if i < |pieces| { assert longer[i] == pieces[i]; }
    }
    SplitUnique(v + ".0", '.', longer);
    assert PartValue("0") == 0 by {
      assert DecimalValue("0") == 10 * DecimalValue("") + 0 by { assert "0"[..0] == ""; }
    }
    forall j | 0 <= j ensures At(Parts(v), j) == At(Parts(v + ".0"), j) {
      if j < |pieces| {
        assert Split(v + ".0", '.')[j] == pieces[j];
      }
    }
    CompareZeroIff(Parts(v), Parts(v + ".0"), 0);
  }

  lemma {:induction false} JoinSnoc(parts: seq<string>, last: string, sep: char)
    requires |parts| >= 1
    ensures Join(parts + [last], sep) == Join(parts, sep) + [sep] + last
    decreases |parts|
  {
    if |parts| == 1 {
      assert (parts + [last])[1..] == [last];
    } else {
      assert (parts + [last])[1..] == parts[1..] + [last];
      JoinSnoc(parts[1..], last, sep);
    }
  }
}
