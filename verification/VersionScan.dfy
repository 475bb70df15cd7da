// semver_ok: the hand-written scanner for version numbers. It covers items 2
// and 9 of Semantic Versioning 2.0.0, with an underscore allowed in the tail,
// and has no build metadata (item 10).
module VersionScan {
  import opened Characters

  predicate IsTailChar(c: char) {
    IsDigit(c) || 'a' <= c <= 'z' || 'A' <= c <= 'Z' || c == '.' || c == '-' || c == '_'
  }

  predicate IsRun(s: string, from: nat, to: nat) {
    from < to <= |s| && forall m :: from <= m < to ==> IsDigit(s[m])
  }

  // Three runs of digits s[..i], s[i + 1..j], s[j + 1..k] with dots between
  // them, then nothing, or a dash and a non-empty tail.
  predicate IsVersionAt(s: string, i: nat, j: nat, k: nat) {
    && IsRun(s, 0, i) && i < |s| && s[i] == '.'
    && IsRun(s, i + 1, j) && j < |s| && s[j] == '.'
    && IsRun(s, j + 1, k)
    && (k == |s| || (s[k] == '-' && k + 1 < |s| && forall m :: k < m < |s| ==> IsTailChar(s[m])))
  }

  ghost predicate IsVersion(s: string) {
    exists i: nat, j: nat, k: nat :: IsVersionAt(s, i, j, k)
  }

  // strip_v
  function StripV(v: string): (r: string)
    ensures r == v || v == ['v'] + r || v == ['V'] + r
    ensures r == v ==> v == "" || (v[0] != 'v' && v[0] != 'V')
  {
    if v != "" && (v[0] == 'v' || v[0] == 'V') then v[1..] else v
  }

  // ---- The scanner ----

  function RunEnd(s: string, i: nat): (e: nat)
    requires i <= |s|
    ensures i <= e <= |s| && (forall m :: i <= m < e ==> IsDigit(s[m])) && (e < |s| ==> !IsDigit(s[e]))
    decreases |s| - i
  {
    if i < |s| && IsDigit(s[i]) then RunEnd(s, i + 1) else i
  }

  predicate TailOk(s: string, i: nat)
    requires i <= |s|
  {
    i == |s| || ((s[i] == '.' || s[i] == '-') && i + 1 < |s| && forall m :: i < m < |s| ==> IsTailChar(s[m]))
  }

  // What the scanner decides from position i on, `dots` groups later.
  predicate GroupsOk(s: string, i: nat, dots: nat)
    requires i <= |s|
    decreases |s| - i
  {
    if i < |s| && s[i] == '.' then RunEnd(s, i + 1) > i + 1 && GroupsOk(s, RunEnd(s, i + 1), dots + 1)
    else dots == 2 && TailOk(s, i)
  }

  predicate Accepts(s: string) {
    RunEnd(s, 0) > 0 && GroupsOk(s, RunEnd(s, 0), 0)
  }

  method SkipDigits(s: string, from: nat) returns (i: nat)
    requires from <= |s|
    ensures i == RunEnd(s, from)
  {
    i := from;
    while i < |s| && IsDigit(s[i])
      invariant from <= i <= |s| && RunEnd(s, i) == RunEnd(s, from)
    {
      i := i + 1;
    }
  }

  method SemverOk(version: string) returns (ok: bool)
    ensures ok <==> IsVersion(StripV(version))
  {
    var v := StripV(version);
    AcceptsMeans(v);
    hide IsVersion, IsVersionAt, RunEnd, StripV, IsTailChar;
    if v == "" {
      return false;
    }
    var dots := 0;
    var i := SkipDigits(v, 0);
    if i == 0 {
      return false;
    }
    while i < |v| && v[i] == '.'
      invariant i <= |v| && GroupsOk(v, i, dots) == Accepts(v)
    {
      dots := dots + 1;
      i := i + 1;
      var start := i;
      i := SkipDigits(v, i);
      if i == start {
        return false;
      }
    }
    if dots != 2 {
      return false;
    }
    if i == |v| {
      return true;
    }
    if v[i] == '.' || v[i] == '-' {
      ok := ScanTail(v, i);
      return;
    }
    return false;
  }

  // Behind the dot or dash at position tail: a non-empty tail to the end.
  method ScanTail(v: string, tail: nat) returns (ok: bool)
    requires tail < |v|
    ensures ok <==> tail + 1 < |v| && forall m :: tail < m < |v| ==> IsTailChar(v[m])
  {
    var i := tail + 1;
    if i >= |v| {
      return false;
    }
    while i < |v|
      invariant tail < i <= |v| && forall m :: tail < m < i ==> IsTailChar(v[m])
    {
      if IsTailChar(v[i]) {
        i := i + 1;
      } else {
        return false;
      }
    }
    return true;
  }

  lemma RunEndIs(s: string, i: nat, e: nat)
    requires i <= e <= |s| && (forall m :: i <= m < e ==> IsDigit(s[m])) && (e < |s| ==> !IsDigit(s[e]))
    ensures RunEnd(s, i) == e
  {
  }

  // The scanner accepts exactly the shape; a tail never starts with a dot,
  // because a dot is taken as one more group.
  lemma AcceptsMeans(s: string)
    ensures Accepts(s) <==> IsVersion(s)
  {
    if Accepts(s) {
      AcceptedShape(s);
    }
    if IsVersion(s) {
      var i: nat, j: nat, k: nat :| IsVersionAt(s, i, j, k);
      ShapeAccepted(s, i, j, k);
    }
  }

  lemma AcceptedShape(s: string)
    requires Accepts(s)
    ensures IsVersion(s)
  {
    var i := RunEnd(s, 0);
    assert s[i] == '.';
    var j := RunEnd(s, i + 1);
    assert GroupsOk(s, j, 1) && j < |s| && s[j] == '.';
    var k := RunEnd(s, j + 1);
    assert GroupsOk(s, k, 2);
    if k < |s| && s[k] == '.' {
      MoreDotsFail(s, k, 2);
    }
    assert IsVersionAt(s, i, j, k);
  }

  lemma ShapeAccepted(s: string, i: nat, j: nat, k: nat)
    requires IsVersionAt(s, i, j, k)
    ensures Accepts(s)
  {
    RunEndIs(s, 0, i);
    RunEndIs(s, i + 1, j);
    RunEndIs(s, j + 1, k);
    assert GroupsOk(s, k, 2);
    assert GroupsOk(s, j, 1);
  }

  lemma {:induction false} MoreDotsFail(s: string, i: nat, dots: nat)
    requires i < |s| && s[i] == '.' && dots >= 2
    ensures !GroupsOk(s, i, dots)
    decreases |s| - i
  {
    var e := RunEnd(s, i + 1);
    if e > i + 1 && e < |s| && s[e] == '.' {
      MoreDotsFail(s, e, dots + 1);
    }
  }

  // The version the tool works with may still begin with a v: one is taken
  // off before the scan and one by the scan.
  lemma DoubledV()
    ensures IsVersion(StripV(StripV("vv1.2.3"))) && StripV("vv1.2.3") == "v1.2.3"
  {
    var s := "1.2.3";
    assert StripV("vv1.2.3") == "v1.2.3" && StripV("v1.2.3") == s;
    assert IsVersionAt(s, 1, 3, 5);
  }
}
