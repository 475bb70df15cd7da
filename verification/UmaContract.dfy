// The system contract embedded in a compiled model package: printed and
// scanned as text, and checked against the atoms of a system. Integers are
// signed 64-bit; an accumulation that leaves their range is undefined and
// has no result here.
module UmaContract {
  import opened Characters
  import opened Wrappers

  const INT64_MAX: int := 0x7fff_ffff_ffff_ffff
  const INT64_MIN: int := -0x8000_0000_0000_0000

  predicate Int64(n: int) {
    INT64_MIN <= n <= INT64_MAX
  }

  predicate AllInt64(v: seq<int>) {
    forall i :: 0 <= i < |v| ==> Int64(v[i])
  }

  // ---- Printing ----

  function Digits(n: nat): (s: string)
    ensures s != "" && forall i :: 0 <= i < |s| ==> IsDigit(s[i])
    ensures |s| > 1 ==> n >= 10 && s[0] != '0'
  {
    if n < 10 then ['0' + n as char] else Digits(n / 10) + ['0' + (n % 10) as char]
  }

  // std::to_string
  function ToString(n: int): string {
    if n < 0 then "-" + Digits(-n) else Digits(n)
  }

  // The text of a list from item i on.
  function ListFrom(v: seq<int>, i: nat): string
    requires i <= |v|
    decreases |v| - i
  {
    if i == |v| then "]" else (if i > 0 then ", " else "") + (ToString(v[i]) + ListFrom(v, i + 1))
  }

  function ListText(v: seq<int>): string {
    "[" + ListFrom(v, 0)
  }

  method StrList(v: seq<int>) returns (s: string)
    ensures s == ListText(v)
  {
    s := "[";
    for i := 0 to |v|
      invariant s + ListFrom(v, i) == ListText(v)
    {
      ghost var before := s;
      s := s + ((if i > 0 then ", " else "") + ToString(v[i]));
      assert s + ListFrom(v, i + 1)
          == before + ((if i > 0 then ", " else "") + (ToString(v[i]) + ListFrom(v, i + 1)));
    }
    s := s + "]";
  }

  // std::map<int64_t, int64_t>: pairs by strictly ascending key.
  datatype Pair = Pair(key: int, value: int)

  predicate IsMap(m: seq<Pair>) {
    forall i, j :: 0 <= i < j < |m| ==> m[i].key < m[j].key
  }

  function MapFrom(m: seq<Pair>, i: nat): string
    requires i <= |m|
    decreases |m| - i
  {
    if i == |m| then "}"
    else (if i > 0 then ", " else "") + (ToString(m[i].key) + (": " + (ToString(m[i].value) + MapFrom(m, i + 1))))
  }

  function MapText(m: seq<Pair>): string {
    "{" + MapFrom(m, 0)
  }

  method StrMap(m: seq<Pair>) returns (s: string)
    ensures s == MapText(m)
  {
    s := "{";
    var first := true;
    for i := 0 to |m|
      invariant first <==> i == 0
      invariant s + MapFrom(m, i) == MapText(m)
    {
      ghost var comma := if i > 0 then ", " else "";
      Regroup(s, comma, ToString(m[i].key), ToString(m[i].value), MapFrom(m, i + 1));
      hide ToString;
      s := s + ((if first then "" else ", ") + ToString(m[i].key) + ": " + ToString(m[i].value));
      first := false;
    }
    s := s + "}";
  }

  lemma Regroup(s: string, comma: string, key: string, value: string, rest: string)
    ensures (s + (comma + key + ": " + value)) + rest == s + (comma + (key + (": " + (value + rest))))
  {
  }

  // The separators are those of a list and of a map literal.
  lemma PrintedForms(a: int, b: int, c: int, d: int)
    ensures ListText([]) == "[]" && ListText([a]) == "[" + ToString(a) + "]"
    ensures ListText([a, b]) == "[" + ToString(a) + ", " + ToString(b) + "]"
    ensures MapText([]) == "{}" && MapText([Pair(a, b)]) == "{" + ToString(a) + ": " + ToString(b) + "}"
    ensures MapText([Pair(a, b), Pair(c, d)])
         == "{" + ToString(a) + ": " + ToString(b) + ", " + ToString(c) + ": " + ToString(d) + "}"
  {
    hide ToString;
    var v, m := [a, b], [Pair(a, b), Pair(c, d)];
    assert ListFrom([a], 1) == "]" && MapFrom([Pair(a, b)], 1) == "}";
    assert ListFrom([a], 0) == "" + (ToString(a) + "]");
    assert MapFrom([Pair(a, b)], 0) == "" + (ToString(a) + (": " + (ToString(b) + "}")));
    assert ListFrom(v, 1) == ", " + (ToString(b) + "]");
    assert ListFrom(v, 0) == "" + (ToString(a) + ListFrom(v, 1));
    assert MapFrom(m, 1) == ", " + (ToString(c) + (": " + (ToString(d) + "}")));
    assert MapFrom(m, 0) == "" + (ToString(a) + (": " + (ToString(b) + MapFrom(m, 1))));
  }

  // ---- Scanning ----

  predicate IsNegative(s: string) {
    |s| > 1 && s[0] == '-' && IsDigit(s[1])
  }

  // The length of the digit run at the front.
  function DigitRun(s: string): (n: nat)
    ensures n <= |s|
  {
    if s == "" || !IsDigit(s[0]) then 0 else 1 + DigitRun(s[1..])
  }

  // The value of the digit run at the front, on top of what came before it.
  function Accumulate(s: string, v: int): Option<int> {
    if s == "" || !IsDigit(s[0]) then Some(v)
    else
      var next := v * 10 + (s[0] as int - '0' as int);
      if next > INT64_MAX then None else Accumulate(s[1..], next)
  }

  // The signed integers of a text, in order.
  function Scan(s: string): Option<seq<int>>
    decreases |s|
  {
    if s == "" then Some([])
    else if !IsNegative(s) && !IsDigit(s[0]) then Scan(s[1..])
    else
      var t := if IsNegative(s) then s[1..] else s;
      var v := Accumulate(t, 0);
      if v.None? then None
      else Prepend(if IsNegative(s) then -v.value else v.value, Scan(t[DigitRun(t)..]))
  }

  function Prepend(n: int, rest: Option<seq<int>>): Option<seq<int>> {
    if rest.None? then None else Some([n] + rest.value)
  }

  function Append(before: seq<int>, rest: Option<seq<int>>): Option<seq<int>> {
    if rest.None? then None else Some(before + rest.value)
  }

  // integers()
  method Integers(s: string) returns (out: Option<seq<int>>)
    ensures out == Scan(s)
  {
    var found: seq<int> := [];
    var i := 0;
    assert s[0..] == s && (Scan(s).Some? ==> [] + Scan(s).value == Scan(s).value);
    while i < |s|
      invariant i <= |s|
      invariant Append(found, Scan(s[i..])) == Scan(s)
    {
      ghost var here := s[i..];
      var neg := s[i] == '-' && i + 1 < |s| && '0' <= s[i + 1] <= '9';
      assert neg == IsNegative(here);
      if !neg && !('0' <= s[i] <= '9') {
        assert here[1..] == s[i + 1..];
        i := i + 1;
        continue;
      }
      var start := if neg then i + 1 else i;
      var v, j := ReadDigits(s, start);
      assert s[start..] == if neg then here[1..] else here;
      if v.None? {
        return None;
      }
      assert s[j..] == s[start..][DigitRun(s[start..])..];
      OneMore(found, if neg then -v.value else v.value, Scan(s[j..]));
      found := found + [if neg then -v.value else v.value];
      i := j;
    }
    assert s[i..] == "" && found + [] == found;
    return Some(found);
  }

  lemma OneMore(found: seq<int>, n: int, rest: Option<seq<int>>)
    ensures Append(found, Prepend(n, rest)) == Append(found + [n], rest)
  {
    if rest.Some? {
      assert found + ([n] + rest.value) == (found + [n]) + rest.value;
    }
  }

  // The inner loop.
  method ReadDigits(s: string, start: nat) returns (v: Option<int>, j: nat)
    requires start < |s| && IsDigit(s[start])
    ensures v == Accumulate(s[start..], 0)
    ensures v.Some? ==> j == start + DigitRun(s[start..]) && start < j <= |s|
  {
    j := start;
    var sum: int := 0;
    while j < |s| && '0' <= s[j] <= '9'
      invariant start <= j <= |s| && (j == start ==> j < |s| && '0' <= s[j] <= '9')
      invariant Accumulate(s[start..], 0) == Accumulate(s[j..], sum)
      invariant DigitRun(s[start..]) == j - start + DigitRun(s[j..])
    {
      assert s[j..][1..] == s[j + 1..];
      sum := sum * 10 + (s[j] as int - '0' as int);
      if sum > INT64_MAX {
        return None, j;
      }
      j := j + 1;
    }
    return Some(sum), j;
  }

  // ---- What the scan finds in any text ----

  predicate RunStart(s: string, i: nat) {
    i < |s| && IsDigit(s[i]) && (i == 0 || !IsDigit(s[i - 1]))
  }

  // The positions from i on at which a maximal run of digits starts.
  function RunStarts(s: string, i: nat): (starts: seq<nat>)
    requires i <= |s|
    ensures forall k :: k in starts <==> i <= k && RunStart(s, k)
    ensures forall a :: 0 <= a < |starts| ==> i <= starts[a] < |s|
    ensures forall a, b :: 0 <= a < b < |starts| ==> starts[a] < starts[b]
    decreases |s| - i
  {
    if i == |s| then []
    else
      var rest := RunStarts(s, i + 1);
      assert forall a :: 0 <= a < |rest| ==> rest[a] in rest;
      if RunStart(s, i) then [i] + rest else rest
  }

  // A run of digits as a number, behind digits worth v.
  function Decimal(d: string, v: int): int {
    if d == "" then v else Decimal(d[1..], v * 10 + (d[0] as int - '0' as int))
  }

  function RunAt(s: string, i: nat): (d: string)
    requires i <= |s|
  {
    s[i..i + DigitRun(s[i..])]
  }

  // A run counts negative behind a minus sign.
  function SignedAt(s: string, i: nat): int
    requires i <= |s|
  {
    if i > 0 && s[i - 1] == '-' then -Decimal(RunAt(s, i), 0) else Decimal(RunAt(s, i), 0)
  }

  // The numbers of a text from position i on.
  function Numbers(s: string, i: nat): Option<seq<int>>
    requires i <= |s|
    decreases |s| - i
  {
    if i == |s| then Some([])
    else if !RunStart(s, i) then Numbers(s, i + 1)
    else if Decimal(RunAt(s, i), 0) > INT64_MAX then None
    else Prepend(SignedAt(s, i), Numbers(s, i + 1))
  }

  lemma {:induction false} DecimalGrows(d: string, v: int)
    requires v >= 0 && forall i :: 0 <= i < |d| ==> IsDigit(d[i])
    ensures Decimal(d, v) >= v
  {
    if d != "" {
      DecimalGrows(d[1..], v * 10 + (d[0] as int - '0' as int));
    }
  }

  lemma {:induction false} RunIsDigits(s: string)
    ensures forall i :: 0 <= i < DigitRun(s) ==> IsDigit(s[i])
    ensures DigitRun(s) < |s| ==> !IsDigit(s[DigitRun(s)])
  {
    if s != "" && IsDigit(s[0]) {
      RunIsDigits(s[1..]);
      assert forall i :: 1 <= i < |s| ==> s[i] == s[1..][i - 1];
    }
  }

  lemma {:induction false} AccumulateIsDecimal(s: string, v: int)
    requires 0 <= v <= INT64_MAX
    ensures var d := Decimal(s[..DigitRun(s)], v);
      Accumulate(s, v) == if d > INT64_MAX then None else Some(d)
  {
    var d := s[..DigitRun(s)];
    if s != "" && IsDigit(s[0]) {
      var next := v * 10 + (s[0] as int - '0' as int);
      assert d[1..] == s[1..][..DigitRun(s[1..])];
      if next > INT64_MAX {
        RunIsDigits(s);
        DecimalGrows(d[1..], next);
      } else {
        AccumulateIsDecimal(s[1..], next);
      }
    }
  }

  // Nothing starts inside a run.
  lemma {:induction false} InsideRun(s: string, i: nat, j: nat)
    requires 0 < i <= j <= |s| && forall k :: i - 1 <= k < j ==> IsDigit(s[k])
    ensures Numbers(s, i) == Numbers(s, j)
    decreases j - i
  {
    if i < j {
      InsideRun(s, i + 1, j);
    }
  }

  // Where the scan can stand: not inside a run, and not between a minus sign
  // and its run.
  predicate AtRest(s: string, i: nat) {
    i <= |s| && (i < |s| && IsDigit(s[i]) && i > 0 ==> !IsDigit(s[i - 1]) && s[i - 1] != '-')
  }

  lemma {:induction false} ScanFinds(s: string, i: nat)
    requires AtRest(s, i)
    ensures Scan(s[i..]) == Numbers(s, i)
    decreases |s| - i
  {
    var here := s[i..];
    if i < |s| {
      if !IsNegative(here) && !IsDigit(here[0]) {
        assert here[1..] == s[i + 1..];
        ScanFinds(s, i + 1);
      } else {
        var p := if IsNegative(here) then i + 1 else i;
        assert s[p..] == if IsNegative(here) then here[1..] else here;
        RunFound(s, p);
        hide Accumulate, Decimal;
        var j := p + DigitRun(s[p..]);
        assert s[p..][DigitRun(s[p..])..] == s[j..];
        ScanFinds(s, j);
        assert SignedAt(s, p) == if IsNegative(here) then -Decimal(RunAt(s, p), 0) else Decimal(RunAt(s, p), 0);
      }
    }
  }

  // The run at p, and what comes behind it.
  lemma RunFound(s: string, p: nat)
    requires RunStart(s, p)
    ensures var j := p + DigitRun(s[p..]);
      && p < j <= |s| && AtRest(s, j)
      && Accumulate(s[p..], 0) == (if Decimal(RunAt(s, p), 0) > INT64_MAX then None else Some(Decimal(RunAt(s, p), 0)))
      && Numbers(s, p) == if Decimal(RunAt(s, p), 0) > INT64_MAX then None else Prepend(SignedAt(s, p), Numbers(s, j))
  {
    var t := s[p..];
    var j := p + DigitRun(t);
    RunIsDigits(t);
    AccumulateIsDecimal(t, 0);
    assert t[..DigitRun(t)] == RunAt(s, p);
    forall k | p <= k < j
      ensures IsDigit(s[k])
    {
      assert s[k] == t[k - p];
    }
    assert j < |s| ==> s[j] == t[j - p];
    InsideRun(s, p + 1, j);
  }

  function AllSigned(s: string, starts: seq<nat>): (r: seq<int>)
    requires forall a :: 0 <= a < |starts| ==> starts[a] <= |s|
    ensures |r| == |starts| && forall k :: 0 <= k < |starts| ==> r[k] == SignedAt(s, starts[k])
  {
    if starts == [] then [] else [SignedAt(s, starts[0])] + AllSigned(s, starts[1..])
  }

  predicate SomeTooLarge(s: string, starts: seq<nat>)
    requires forall a :: 0 <= a < |starts| ==> starts[a] <= |s|
  {
    exists a :: 0 <= a < |starts| && Decimal(RunAt(s, starts[a]), 0) > INT64_MAX
  }

  lemma SomeTooLargeFrom(s: string, i: nat, rest: seq<nat>)
    requires i <= |s| && forall a :: 0 <= a < |rest| ==> rest[a] <= |s|
    ensures SomeTooLarge(s, [i] + rest) <==> Decimal(RunAt(s, i), 0) > INT64_MAX || SomeTooLarge(s, rest)
  {
    hide RunAt, Decimal;
    var starts := [i] + rest;
    if SomeTooLarge(s, rest) {
      var a :| 0 <= a < |rest| && Decimal(RunAt(s, rest[a]), 0) > INT64_MAX;
      assert starts[a + 1] == rest[a];
    }
    assert starts[0] == i;
  }

  lemma {:induction false} NumbersAre(s: string, i: nat)
    requires i <= |s|
    ensures var starts := RunStarts(s, i);
      Numbers(s, i) == if SomeTooLarge(s, starts) then None else Some(AllSigned(s, starts))
    decreases |s| - i
  {
    if i < |s| {
      var rest := RunStarts(s, i + 1);
      NextPosition(s, i);
      hide *;
      NumbersAre(s, i + 1);
      if RunStart(s, i) {
        SomeTooLargeFrom(s, i, rest);
        AllSignedFrom(s, i, rest);
        PrependSome(SignedAt(s, i), AllSigned(s, rest));
      }
    } else {
      assert RunStarts(s, i) == [];
    }
  }

  lemma NextPosition(s: string, i: nat)
    requires i < |s|
    ensures RunStarts(s, i) == if RunStart(s, i) then [i] + RunStarts(s, i + 1) else RunStarts(s, i + 1)
    ensures Numbers(s, i) ==
      if !RunStart(s, i) then Numbers(s, i + 1)
      else if Decimal(RunAt(s, i), 0) > INT64_MAX then None
      else Prepend(SignedAt(s, i), Numbers(s, i + 1))
    ensures Prepend(SignedAt(s, i), None) == None
  {
  }

  lemma AllSignedFrom(s: string, i: nat, rest: seq<nat>)
    requires i <= |s| && forall a :: 0 <= a < |rest| ==> rest[a] <= |s|
    ensures AllSigned(s, [i] + rest) == [SignedAt(s, i)] + AllSigned(s, rest)
  {
    assert ([i] + rest)[1..] == rest;
  }

  lemma PrependSome(n: int, rest: seq<int>)
    ensures Prepend(n, Some(rest)) == Some([n] + rest)
  {
  }

  // The scan finds the maximal runs of digits in order, each with the sign in
  // front of it, or stops at one that is too large.
  lemma ScanMeaning(s: string)
    ensures var starts := RunStarts(s, 0);
      Scan(s) == if SomeTooLarge(s, starts) then None else Some(AllSigned(s, starts))
  {
    ScanFinds(s, 0);
    NumbersAre(s, 0);
    assert s[0..] == s;
  }

  // ---- Round trips ----

  lemma {:induction false} DigitsReadBack(n: nat, rest: string)
    ensures Accumulate(Digits(n) + rest, 0) == if n > INT64_MAX then None else Accumulate(rest, n)
  {
    var last := ['0' + (n % 10) as char];
    if n < 10 {
      assert (last + rest)[1..] == rest;
    } else {
      DigitsReadBack(n / 10, last + rest);
      assert Digits(n) + rest == Digits(n / 10) + (last + rest);
      assert (last + rest)[1..] == rest;
    }
  }

  lemma {:induction false} RunOfDigits(s: string, rest: string)
    requires forall i :: 0 <= i < |s| ==> IsDigit(s[i])
    requires rest == "" || !IsDigit(rest[0])
    ensures DigitRun(s + rest) == |s|
  {
    if s == "" {
      assert s + rest == rest;
    } else {
      assert (s + rest)[1..] == s[1..] + rest;
      RunOfDigits(s[1..], rest);
    }
  }

  // One printed number in front of something that does not continue it. The
  // digits of INT64_MIN alone do not fit.
  lemma NumberReadsBack(n: int, rest: string)
    requires Int64(n) && (rest == "" || !IsDigit(rest[0]))
    ensures Scan(ToString(n) + rest) == if n == INT64_MIN then None else Prepend(n, Scan(rest))
  {
    hide Scan, Accumulate, DigitRun, Digits;
    var size := if n < 0 then -n else n;
    var d := Digits(size);
    var t := d + rest;
    DigitsReadBack(size, rest);
    RunOfDigits(d, rest);
    NoMoreDigits(rest, size);
    assert t[|d|..] == rest && t[0] == d[0];
    if n < 0 {
      assert ToString(n) + rest == "-" + t;
      Signed(t);
    } else {
      Unsigned(t);
    }
  }

  lemma NoMoreDigits(rest: string, v: int)
    requires rest == "" || !IsDigit(rest[0])
    ensures Accumulate(rest, v) == Some(v)
  {
  }

  lemma Unsigned(t: string)
    requires t != "" && IsDigit(t[0])
    ensures Scan(t) == if Accumulate(t, 0).None? then None
                       else Prepend(Accumulate(t, 0).value, Scan(t[DigitRun(t)..]))
  {
  }

  lemma Signed(t: string)
    requires t != "" && IsDigit(t[0])
    ensures Scan("-" + t) == if Accumulate(t, 0).None? then None
                             else Prepend(-Accumulate(t, 0).value, Scan(t[DigitRun(t)..]))
  {
    assert ("-" + t)[1..] == t && ("-" + t)[1] == t[0];
  }

  lemma Skip(c: char, rest: string)
    requires c != '-' && !IsDigit(c)
    ensures Scan([c] + rest) == Scan(rest)
  {
    assert ([c] + rest)[1..] == rest;
  }

  lemma Comma(rest: string)
    ensures Scan(", " + rest) == Scan(rest)
  {
    Skip(' ', rest);
    assert ", " + rest == [','] + ([' '] + rest);
    Skip(',', [' '] + rest);
  }

  lemma Colon(rest: string)
    ensures Scan(": " + rest) == Scan(rest)
  {
    Skip(' ', rest);
    assert ": " + rest == [':'] + ([' '] + rest);
    Skip(':', [' '] + rest);
  }

  // The text of item i, with its separator, in front of the rest.
  lemma Separated(i: nat, item: string)
    ensures Scan((if i > 0 then ", " else "") + item) == Scan(item)
  {
    if i > 0 {
      Comma(item);
    } else {
      assert "" + item == item;
    }
  }

  lemma ListGoesOn(v: seq<int>, i: nat)
    requires i <= |v|
    ensures ListFrom(v, i) != "" && (i > 0 ==> !IsDigit(ListFrom(v, i)[0]))
  {
  }

  lemma MapGoesOn(m: seq<Pair>, i: nat)
    requires i <= |m|
    ensures MapFrom(m, i) != "" && (i > 0 ==> !IsDigit(MapFrom(m, i)[0]))
  {
  }

  lemma {:induction false} ListReadsBack(v: seq<int>, i: nat)
    requires AllInt64(v) && i <= |v|
    ensures Scan(ListFrom(v, i)) == if INT64_MIN in v[i..] then None else Some(v[i..])
    decreases |v| - i
  {
    if i == |v| {
      Skip(']', "");
    } else {
      var rest := ListFrom(v, i + 1);
      ListReadsBack(v, i + 1);
      ListGoesOn(v, i + 1);
      assert v[i..] == [v[i]] + v[i + 1..];
      assert ListFrom(v, i) == (if i > 0 then ", " else "") + (ToString(v[i]) + rest);
      hide Scan, ToString, ListFrom;
      NumberReadsBack(v[i], rest);
      Separated(i, ToString(v[i]) + rest);
    }
  }

  // integers(str(v)) gives v back exactly when no item is the least integer.
  lemma ListRoundTrip(v: seq<int>)
    requires AllInt64(v)
    ensures Scan(ListText(v)) == Some(v) <==> INT64_MIN !in v
    ensures INT64_MIN in v ==> Scan(ListText(v)).None?
  {
    Skip('[', ListFrom(v, 0));
    ListReadsBack(v, 0);
    assert v[0..] == v;
  }

  function Flat(m: seq<Pair>, i: nat): (v: seq<int>)
    requires i <= |m|
    ensures |v| == 2 * (|m| - i)
    decreases |m| - i
  {
    if i == |m| then [] else [m[i].key, m[i].value] + Flat(m, i + 1)
  }

  predicate Printable(m: seq<Pair>) {
    forall i :: 0 <= i < |m| ==> Int64(m[i].key) && Int64(m[i].value)
  }

  predicate HasLeast(m: seq<Pair>, i: nat) {
    exists j :: i <= j < |m| && (m[j].key == INT64_MIN || m[j].value == INT64_MIN)
  }

  lemma {:induction false} MapReadsBack(m: seq<Pair>, i: nat)
    requires Printable(m) && i <= |m|
    ensures Scan(MapFrom(m, i)) == if HasLeast(m, i) then None else Some(Flat(m, i))
    decreases |m| - i
  {
    if i == |m| {
      Skip('}', "");
    } else {
      MapReadsBack(m, i + 1);
      MapGoesOn(m, i + 1);
      var rest := MapFrom(m, i + 1);
      var item := ToString(m[i].key) + (": " + (ToString(m[i].value) + rest));
      assert MapFrom(m, i) == (if i > 0 then ", " else "") + item;
      NextPair(m, i);
      hide Scan, ToString, MapFrom, Flat, HasLeast;
      PairReadsBack(m[i], rest);
      Separated(i, item);
    }
  }

  lemma NextPair(m: seq<Pair>, i: nat)
    requires i < |m|
    ensures HasLeast(m, i) <==> m[i].key == INT64_MIN || m[i].value == INT64_MIN || HasLeast(m, i + 1)
    ensures [m[i].key] + ([m[i].value] + Flat(m, i + 1)) == Flat(m, i)
  {
    if HasLeast(m, i) {
      var j :| i <= j < |m| && (m[j].key == INT64_MIN || m[j].value == INT64_MIN);
      assert j > i ==> HasLeast(m, i + 1);
    }
  }

  lemma PairReadsBack(p: Pair, rest: string)
    requires Int64(p.key) && Int64(p.value) && (rest == "" || !IsDigit(rest[0]))
    ensures Scan(ToString(p.key) + (": " + (ToString(p.value) + rest))) ==
      if p.key == INT64_MIN || p.value == INT64_MIN then None else Prepend(p.key, Prepend(p.value, Scan(rest)))
  {
    hide Scan, ToString;
    var value := ToString(p.value) + rest;
    NumberReadsBack(p.value, rest);
    Colon(value);
    NumberReadsBack(p.key, ": " + value);
  }

  // ---- std::map and std::sort ----

  // The value under a key; None without one.
  function Get(m: seq<Pair>, k: int): Option<int> {
    if m == [] then None else if m[0].key == k then Some(m[0].value) else Get(m[1..], k)
  }

  // m[k] = v
  function Put(m: seq<Pair>, k: int, v: int): (r: seq<Pair>)
    requires IsMap(m)
    ensures IsMap(r) && r != []
    ensures r[0].key == if m == [] || k < m[0].key then k else m[0].key
  {
    if m == [] then [Pair(k, v)]
    else if k < m[0].key then [Pair(k, v)] + m
    else if k == m[0].key then [Pair(k, v)] + m[1..]
    else
      var rest := Put(m[1..], k, v);
      Ahead(m[0], rest);
      [m[0]] + rest
  }

  lemma Ahead(p: Pair, m: seq<Pair>)
    requires IsMap(m) && (m != [] ==> p.key < m[0].key)
    ensures IsMap([p] + m)
  {
  }

  lemma {:induction false} PutGet(m: seq<Pair>, k: int, v: int, z: int)
    requires IsMap(m)
    ensures Get(Put(m, k, v), z) == if z == k then Some(v) else Get(m, z)
  {
    if m != [] {
      assert ([Pair(k, v)] + m)[1..] == m;
      if k == m[0].key {
        assert ([Pair(k, v)] + m[1..])[1..] == m[1..];
      } else if k > m[0].key {
        PutGet(m[1..], k, v, z);
        assert ([m[0]] + Put(m[1..], k, v))[1..] == Put(m[1..], k, v);
      }
    }
  }

  lemma {:induction false} NotBefore(m: seq<Pair>, k: int)
    requires IsMap(m) && (m != [] ==> k < m[0].key)
    ensures Get(m, k) == None
  {
    if m != [] {
      NotBefore(m[1..], k);
    }
  }

  // A map is determined by what it holds.
  lemma {:induction false} SameMap(a: seq<Pair>, b: seq<Pair>)
    requires IsMap(a) && IsMap(b) && forall z :: Get(a, z) == Get(b, z)
    ensures a == b
  {
    if a == [] || b == [] {
      assert a != [] ==> Get(a, a[0].key).Some?;
      assert b != [] ==> Get(b, b[0].key).Some?;
    } else {
      if a[0].key < b[0].key {
        NotBefore(b, a[0].key);
      } else if b[0].key < a[0].key {
        NotBefore(a, b[0].key);
      }
      assert Get(a, a[0].key) == Get(b, a[0].key);
      NotBefore(a[1..], a[0].key);
      NotBefore(b[1..], a[0].key);
      assert forall z :: z != a[0].key ==> Get(a, z) == Get(a[1..], z) && Get(b, z) == Get(b[1..], z);
      SameMap(a[1..], b[1..]);
    }
  }

  function Keys(m: seq<Pair>): (k: seq<int>)
    ensures |k| == |m| && forall i :: 0 <= i < |m| ==> k[i] == m[i].key
  {
    seq(|m|, i requires 0 <= i < |m| => m[i].key)
  }

  predicate Strict(v: seq<int>) {
    forall i, j :: 0 <= i < j < |v| ==> v[i] < v[j]
  }

  lemma {:induction false} KeysHeld(m: seq<Pair>, z: int)
    ensures z in Keys(m) <==> Get(m, z).Some?
  {
    if m != [] {
      KeysHeld(m[1..], z);
      assert Keys(m) == [m[0].key] + Keys(m[1..]);
    }
  }

  // A strictly ascending list is determined by its elements.
  lemma {:induction false} SameElements(a: seq<int>, b: seq<int>)
    requires Strict(a) && Strict(b) && forall z :: z in a <==> z in b
    ensures a == b
  {
    if a == [] || b == [] {
      var _ := Member(a);
      var _ := Member(b);
    } else {
      assert a[0] in a && b[0] in b && a[0] == b[0];
      assert a == [a[0]] + a[1..] && b == [b[0]] + b[1..];
      InTail(a);
      InTail(b);
      SameElements(a[1..], b[1..]);
    }
  }

  lemma Member(a: seq<int>) returns (z: int)
    ensures a != [] ==> z in a
  {
    z := if a == [] then 0 else a[0];
  }

  lemma InTail(a: seq<int>)
    requires Strict(a) && a != []
    ensures forall z :: z in a[1..] <==> z in a && z != a[0]
  {
    assert a == [a[0]] + a[1..];
    assert a[0] !in a[1..];
  }

  predicate Ascending(v: seq<int>) {
    forall i, j :: 0 <= i < j < |v| ==> v[i] <= v[j]
  }

  function Insert(v: seq<int>, x: int): (r: seq<int>)
    requires Ascending(v)
    ensures Ascending(r) && r != [] && multiset(r) == multiset(v) + multiset{x}
    ensures r[0] == if v == [] || x <= v[0] then x else v[0]
  {
    if v == [] then [x]
    else if x <= v[0] then
      InFront(x, v);
      [x] + v
    else
      assert v == [v[0]] + v[1..];
      var rest := Insert(v[1..], x);
      InFront(v[0], rest);
      [v[0]] + rest
  }

  lemma InFront(x: int, v: seq<int>)
    requires Ascending(v) && (v != [] ==> x <= v[0])
    ensures Ascending([x] + v)
  {
  }

  function Sorted(v: seq<int>): (r: seq<int>)
    ensures Ascending(r) && multiset(r) == multiset(v)
  {
    if v == [] then []
    else
      assert v == [v[0]] + v[1..];
      Insert(Sorted(v[1..]), v[0])
  }

  lemma {:induction false} SortedStays(v: seq<int>)
    requires Ascending(v)
    ensures Sorted(v) == v
  {
    if v != [] {
      SortedStays(v[1..]);
    }
  }

  // ---- The contract ----

  datatype Contract = Contract(taskName: Option<string>, charge: Option<int>, spin: Option<int>,
                               zSet: Option<seq<int>>, counts: Option<seq<Pair>>, natoms: Option<int>)

  // The metadata keys the contract reads.
  datatype Key = TASK_NAME | CHARGE | SPIN | Z_SET | COUNTS | NATOMS

  datatype Field<+T> = Absent | Given(value: T) | Malformed | Overflowed

  datatype Parsed = Ok(contract: Contract) | Refused(key: Key) | Undefined

  // A missing and an empty entry are the same.
  function Entry(meta: map<Key, string>, key: Key): Option<string> {
    if key in meta && meta[key] != "" then Some(meta[key]) else None
  }

  function OneInt(meta: map<Key, string>, key: Key): Field<int> {
    var raw := Entry(meta, key);
    if raw.None? then Absent
    else
      var v := Scan(raw.value);
      if v.None? then Overflowed else if |v.value| != 1 then Malformed else Given(v.value[0])
  }

  function Elements(meta: map<Key, string>): Field<seq<int>> {
    var raw := Entry(meta, Z_SET);
    if raw.None? then Absent
    else if Scan(raw.value).None? then Overflowed
    else Given(Sorted(Scan(raw.value).value))
  }

  // The map of the first n pairs of a list; a later pair replaces an earlier one.
  function PairsOf(v: seq<int>, n: nat): (m: seq<Pair>)
    requires 2 * n <= |v|
    ensures IsMap(m)
  {
    if n == 0 then [] else Put(PairsOf(v, n - 1), v[2 * n - 2], v[2 * n - 1])
  }

  function CountPairs(meta: map<Key, string>): Field<seq<Pair>> {
    var raw := Entry(meta, COUNTS);
    if raw.None? then Absent
    else
      var v := Scan(raw.value);
      if v.None? then Overflowed
      else if |v.value| % 2 != 0 then Malformed
      else Given(PairsOf(v.value, |v.value| / 2))
  }

  function Optional<T>(f: Field<T>): Option<T> {
    if f.Given? then Some(f.value) else None
  }

  // The first field, in reading order, that cannot be read.
  function Failure(meta: map<Key, string>): Option<Parsed> {
    var charge, spin, natoms := OneInt(meta, CHARGE), OneInt(meta, SPIN), OneInt(meta, NATOMS);
    var elements, counts := Elements(meta), CountPairs(meta);
    if charge.Malformed? then Some(Refused(CHARGE)) else if charge.Overflowed? then Some(Undefined)
    else if spin.Malformed? then Some(Refused(SPIN)) else if spin.Overflowed? then Some(Undefined)
    else if natoms.Malformed? then Some(Refused(NATOMS)) else if natoms.Overflowed? then Some(Undefined)
    else if elements.Overflowed? then Some(Undefined)
    else if counts.Overflowed? then Some(Undefined) else if counts.Malformed? then Some(Refused(COUNTS))
    else None
  }

  function FromMetadata(meta: map<Key, string>): Parsed {
    if Failure(meta).Some? then Failure(meta).value
    else Ok(Contract(Entry(meta, TASK_NAME), Optional(OneInt(meta, CHARGE)), Optional(OneInt(meta, SPIN)),
                     Optional(Elements(meta)), Optional(CountPairs(meta)), Optional(OneInt(meta, NATOMS))))
  }

  // The loop of fromMetadata over the count pairs.
  method ReadPairs(v: seq<int>) returns (m: Option<seq<Pair>>)
    ensures m == if |v| % 2 != 0 then None else Some(PairsOf(v, |v| / 2))
  {
    if |v| % 2 != 0 {
      return None;
    }
    hide *;
    NoPairs(v);
    ghost var half := |v| / 2;
    Halves(|v|, half);
    var pairs: seq<Pair> := [];
    var k := 0;
    ghost var n := 0;
    while k < |v|
      invariant k == 2 * n && n <= half && pairs == PairsOf(v, n)
    {
      NextPairs(v, n);
      pairs := Put(pairs, v[k], v[k + 1]);
      k := k + 2;
      n := n + 1;
    }
    m := Some(pairs);
  }

  lemma Halves(n: nat, half: nat)
    requires n % 2 == 0 && half == n / 2
    ensures n == 2 * half
  {
  }

  lemma NoPairs(v: seq<int>)
    ensures PairsOf(v, 0) == []
  {
  }

  lemma NextPairs(v: seq<int>, n: nat)
    requires 2 * n + 2 <= |v|
    ensures PairsOf(v, n + 1) == Put(PairsOf(v, n), v[2 * n], v[2 * n + 1])
  {
  }

  // What an exporter writes for a contract.
  function Written(c: Contract): map<Key, string> {
    map key | key in {TASK_NAME, CHARGE, SPIN, Z_SET, COUNTS, NATOMS} && TextOf(c, key).Some? :: TextOf(c, key).value
  }

  function TextOf(c: Contract, key: Key): Option<string> {
    match key
    case TASK_NAME => c.taskName
    case CHARGE => NumberText(c.charge)
    case SPIN => NumberText(c.spin)
    case NATOMS => NumberText(c.natoms)
    case Z_SET => if c.zSet.None? then None else Some(ListText(c.zSet.value))
    case COUNTS => if c.counts.None? then None else Some(MapText(c.counts.value))
  }

  function NumberText(n: Option<int>): Option<string> {
    if n.None? then None else Some(ToString(n.value))
  }

  // A contract as a package holds it.
  predicate Proper(c: Contract) {
    && c.taskName != Some("")
    && (c.charge.Some? ==> Int64(c.charge.value)) && (c.spin.Some? ==> Int64(c.spin.value))
    && (c.natoms.Some? ==> Int64(c.natoms.value))
    && (c.zSet.Some? ==> AllInt64(c.zSet.value) && Ascending(c.zSet.value))
    && (c.counts.Some? ==> Printable(c.counts.value) && IsMap(c.counts.value))
  }

  predicate HoldsLeast(c: Contract) {
    || c.charge == Some(INT64_MIN) || c.spin == Some(INT64_MIN) || c.natoms == Some(INT64_MIN)
    || (c.zSet.Some? && INT64_MIN in c.zSet.value)
    || (c.counts.Some? && HasLeast(c.counts.value, 0))
  }

  predicate Below(m: seq<Pair>, k: int) {
    forall i :: 0 <= i < |m| ==> m[i].key < k
  }

  lemma {:induction false} PutLast(m: seq<Pair>, k: int, v: int)
    requires IsMap(m) && Below(m, k)
    ensures Put(m, k, v) == m + [Pair(k, v)]
  {
    if m != [] {
      PutLast(m[1..], k, v);
      assert m == [m[0]] + m[1..];
    }
  }

  lemma {:induction false} FlatAt(m: seq<Pair>, i: nat, n: nat)
    requires i <= n < |m|
    ensures Flat(m, i)[2 * (n - i)] == m[n].key && Flat(m, i)[2 * (n - i) + 1] == m[n].value
    decreases n - i
  {
    var rest := Flat(m, i + 1);
    assert Flat(m, i) == [m[i].key, m[i].value] + rest;
    if i < n {
      FlatAt(m, i + 1, n);
      hide Flat;
      var k := 2 * (n - i - 1);
      assert Flat(m, i)[k + 2] == rest[k] && Flat(m, i)[k + 3] == rest[k + 1];
    }
  }

  lemma FrontIsMap(m: seq<Pair>, n: nat)
    requires IsMap(m) && n < |m|
    ensures IsMap(m[..n]) && Below(m[..n], m[n].key)
  {
  }

  lemma {:induction false} PairsOfFlat(m: seq<Pair>, n: nat)
    requires IsMap(m) && n <= |m|
    ensures PairsOf(Flat(m, 0), n) == m[..n]
  {
    if n > 0 {
      var v, k := Flat(m, 0), n - 1;
      FlatAt(m, 0, k);
      assert PairsOf(v, n) == Put(PairsOf(v, k), m[k].key, m[k].value);
      hide Put, Flat, IsMap, Below, PairsOf;
      PairsOfFlat(m, k);
      FrontIsMap(m, k);
      PutLast(m[..k], m[k].key, m[k].value);
      assert m[..n] == m[..k] + [m[k]];
    }
  }

  // A printed map reads back as itself, unless it holds the least integer.
  lemma MapRoundTrip(m: seq<Pair>)
    requires IsMap(m) && Printable(m)
    ensures var v := Scan(MapText(m));
      if HasLeast(m, 0) then v.None?
      else v.Some? && |v.value| == 2 * |m| && PairsOf(v.value, |m|) == m
  {
    Skip('{', MapFrom(m, 0));
    MapReadsBack(m, 0);
    PairsOfFlat(m, |m|);
    assert m[..|m|] == m;
  }

  lemma NumberRoundTrip(n: int)
    requires Int64(n)
    ensures ToString(n) != "" && Scan(ToString(n)) == if n == INT64_MIN then None else Some([n])
  {
    NumberReadsBack(n, "");
    assert ToString(n) + "" == ToString(n) && [n] + [] == [n];
  }

  lemma WrittenEntry(c: Contract, key: Key)
    requires Proper(c)
    ensures Entry(Written(c), key) == TextOf(c, key)
  {
    match key {
      case CHARGE => if c.charge.Some? { NumberRoundTrip(c.charge.value); }
      case SPIN => if c.spin.Some? { NumberRoundTrip(c.spin.value); }
      case NATOMS => if c.natoms.Some? { NumberRoundTrip(c.natoms.value); }
      case _ =>
    }
  }

  function AsField<T>(x: Option<T>, least: bool): Field<T> {
    if x.None? then Absent else if least then Overflowed else Given(x.value)
  }

  // Reading what was written gives the contract back exactly when it does not
  // hold the least integer anywhere.
  lemma MetadataRoundTrip(c: Contract)
    requires Proper(c)
    ensures FromMetadata(Written(c)) == if HoldsLeast(c) then Undefined else Ok(c)
  {
    var meta := Written(c);
    hide Entry, OneInt, Elements, CountPairs, Written, HasLeast, Int64, AllInt64, Ascending, IsMap, Printable, ToString,
         ListText, MapText;
    WrittenEntry(c, TASK_NAME);
    WrittenEntry(c, CHARGE);
    WrittenEntry(c, SPIN);
    WrittenEntry(c, NATOMS);
    WrittenEntry(c, Z_SET);
    WrittenEntry(c, COUNTS);
    NumberField(c.charge, CHARGE, meta);
    NumberField(c.spin, SPIN, meta);
    NumberField(c.natoms, NATOMS, meta);
    ElementsField(c, meta);
    CountsField(c, meta);
  }

  lemma ElementsField(c: Contract, meta: map<Key, string>)
    requires Proper(c) && Entry(meta, Z_SET) == TextOf(c, Z_SET)
    ensures Elements(meta) == AsField(c.zSet, c.zSet.Some? && INT64_MIN in c.zSet.value)
  {
    hide Scan, ListText, Sorted, Ascending, AllInt64;
    if c.zSet.Some? {
      assert Ascending(c.zSet.value) && AllInt64(c.zSet.value);
      ListRoundTrip(c.zSet.value);
      SortedStays(c.zSet.value);
    }
  }

  lemma CountsField(c: Contract, meta: map<Key, string>)
    requires Proper(c) && Entry(meta, COUNTS) == TextOf(c, COUNTS)
    ensures CountPairs(meta) == AsField(c.counts, c.counts.Some? && HasLeast(c.counts.value, 0))
  {
    hide Scan, MapText, HasLeast;
    if c.counts.Some? {
      MapRoundTrip(c.counts.value);
    }
  }

  lemma NumberField(n: Option<int>, key: Key, meta: map<Key, string>)
    requires n.Some? ==> Int64(n.value)
    requires Entry(meta, key) == NumberText(n)
    ensures OneInt(meta, key) == AsField(n, n == Some(INT64_MIN))
  {
    if n.Some? {
      NumberRoundTrip(n.value);
    }
  }

  // A present, non-empty entry holds what its field needs: one integer, any
  // integers, or an even number of them.
  predicate Readable(meta: map<Key, string>, key: Key) {
    key in meta && meta[key] != "" ==>
      match key
      case TASK_NAME => true
      case Z_SET => Scan(meta[key]).Some?
      case COUNTS => Scan(meta[key]).Some? && |Scan(meta[key]).value| % 2 == 0
      case _ => Scan(meta[key]).Some? && |Scan(meta[key]).value| == 1
  }

  // What reading gives for any metadata: a contract when all entries can be
  // read, else the first one, in the order of reading, decides.
  lemma ReadExactlyWhen(meta: map<Key, string>)
    ensures var order := [CHARGE, SPIN, NATOMS, Z_SET, COUNTS];
      && (FromMetadata(meta).Ok? <==> forall k :: 0 <= k < 5 ==> Readable(meta, order[k]))
      && (forall k :: 0 <= k < 5 && !Readable(meta, order[k]) && (forall j :: 0 <= j < k ==> Readable(meta, order[j]))
            ==> FromMetadata(meta) == if Scan(meta[order[k]]).None? then Undefined else Refused(order[k]))
      && (FromMetadata(meta).Ok? ==>
            FromMetadata(meta).contract.taskName ==
              if TASK_NAME in meta && meta[TASK_NAME] != "" then Some(meta[TASK_NAME]) else None)
  {
    hide Scan, Sorted, PairsOf;
    OneIntReadable(meta, CHARGE);
    OneIntReadable(meta, SPIN);
    OneIntReadable(meta, NATOMS);
    ListsReadable(meta);
    hide OneInt, Elements, CountPairs, Readable;
    var order := [CHARGE, SPIN, NATOMS, Z_SET, COUNTS];
    assert order[0] == CHARGE && order[1] == SPIN && order[2] == NATOMS && order[3] == Z_SET && order[4] == COUNTS;
    assert (forall k :: 0 <= k < 5 ==> Readable(meta, order[k])) <==>
      Readable(meta, order[0]) && Readable(meta, order[1]) && Readable(meta, order[2]) && Readable(meta, order[3])
      && Readable(meta, order[4]);
  }

  lemma OneIntReadable(meta: map<Key, string>, key: Key)
    requires key == CHARGE || key == SPIN || key == NATOMS
    ensures Readable(meta, key) <==> OneInt(meta, key).Absent? || OneInt(meta, key).Given?
    ensures !Readable(meta, key) ==>
      key in meta && if Scan(meta[key]).None? then OneInt(meta, key).Overflowed? else OneInt(meta, key).Malformed?
  {
    hide Scan;
  }

  lemma ListsReadable(meta: map<Key, string>)
    ensures Readable(meta, Z_SET) <==> !Elements(meta).Overflowed?
    ensures !Elements(meta).Malformed?
    ensures !Readable(meta, Z_SET) ==> Z_SET in meta && Scan(meta[Z_SET]).None?
    ensures Readable(meta, COUNTS) <==> CountPairs(meta).Absent? || CountPairs(meta).Given?
    ensures !Readable(meta, COUNTS) ==>
      COUNTS in meta && if Scan(meta[COUNTS]).None? then CountPairs(meta).Overflowed? else CountPairs(meta).Malformed?
  {
    hide Scan, Sorted, PairsOf;
  }

  // An entry that, if present, is one integer.
  predicate OneIntAtMost(meta: map<Key, string>, key: Key, value: Option<int>) {
    if Entry(meta, key).None? then value.None?
    else value.Some? && Scan(Entry(meta, key).value) == Some([value.value])
  }

  // What an accepted contract says about the metadata it was read from.
  lemma AcceptedMetadata(meta: map<Key, string>)
    requires FromMetadata(meta).Ok?
    ensures var c := FromMetadata(meta).contract;
      && OneIntAtMost(meta, CHARGE, c.charge) && OneIntAtMost(meta, SPIN, c.spin) && OneIntAtMost(meta, NATOMS, c.natoms)
      && (c.zSet.Some? <==> Entry(meta, Z_SET).Some?) && (c.counts.Some? <==> Entry(meta, COUNTS).Some?)
      && (c.zSet.Some? ==> Scan(meta[Z_SET]).Some? && Ascending(c.zSet.value)
                           && multiset(c.zSet.value) == multiset(Scan(meta[Z_SET]).value))
      && (c.counts.Some? ==> Scan(meta[COUNTS]).Some? && |Scan(meta[COUNTS]).value| % 2 == 0
                             && forall z :: Get(c.counts.value, z) ==
                                  LastValue(Scan(meta[COUNTS]).value, |Scan(meta[COUNTS]).value| / 2, z))
  {
    hide Scan, Sorted, PairsOf, Get, LastValue;
    forall key | key == CHARGE || key == SPIN || key == NATOMS
      ensures OneIntAtMost(meta, key, Optional(OneInt(meta, key)))
    {
      if OneInt(meta, key).Given? {
        assert Scan(Entry(meta, key).value).value == [OneInt(meta, key).value];
      }
    }
    if CountPairs(meta).Given? {
      var v := Scan(meta[COUNTS]).value;
      forall z: int
        ensures Get(PairsOf(v, |v| / 2), z) == LastValue(v, |v| / 2, z)
      {
        LastValueWins(v, |v| / 2, z);
      }
    }
  }

  // The value behind the last occurrence of a key among the first n pairs.
  function LastValue(v: seq<int>, n: nat, z: int): Option<int>
    requires 2 * n <= |v|
  {
    if n == 0 then None else if v[2 * n - 2] == z then Some(v[2 * n - 1]) else LastValue(v, n - 1, z)
  }

  lemma {:induction false} LastValueWins(v: seq<int>, n: nat, z: int)
    requires 2 * n <= |v|
    ensures Get(PairsOf(v, n), z) == LastValue(v, n, z)
  {
    if n > 0 {
      LastValueWins(v, n - 1, z);
      PutGet(PairsOf(v, n - 1), v[2 * n - 2], v[2 * n - 1], z);
    }
  }

  // ---- checkSystem ----

  datatype Verdict = Accepted | Mismatch(key: Key)

  // A package fits a system by what the system consists of, not by the order
  // of its atoms.
  ghost predicate CountsFit(counts: seq<Pair>, atoms: seq<int>) {
    forall z :: Get(counts, z) == if z in multiset(atoms) then Some(multiset(atoms)[z]) else None
  }

  ghost predicate ElementsFit(zSet: seq<int>, atoms: seq<int>) {
    Strict(zSet) && forall z :: z in zSet <==> z in multiset(atoms)
  }

  ghost function Judge(c: Contract, atoms: seq<int>): Verdict {
    if c.natoms.Some? && c.natoms.value != |multiset(atoms)| then Mismatch(NATOMS)
    else if c.counts.Some? && !CountsFit(c.counts.value, atoms) then Mismatch(COUNTS)
    else if c.zSet.Some? && !ElementsFit(c.zSet.value, atoms) then Mismatch(Z_SET)
    else Accepted
  }

  method CheckSystem(c: Contract, atoms: seq<int>) returns (v: Verdict)
    requires c.counts.Some? ==> IsMap(c.counts.value)
    ensures v == Judge(c, atoms)
    ensures v.Accepted? <==>
      && (c.natoms.Some? ==> c.natoms.value == |atoms|)
      && (c.counts.Some? ==> CountsFit(c.counts.value, atoms))
      && (c.zSet.Some? ==> ElementsFit(c.zSet.value, atoms))
  {
    if c.natoms.Some? && c.natoms.value != |atoms| {
      return Mismatch(NATOMS);
    }
    if c.zSet.None? && c.counts.None? {
      return Accepted;
    }
    var have := Histogram(atoms);
    if c.counts.Some? {
      CountsDecide(c.counts.value, have, atoms);
      if c.counts.value != have {
        return Mismatch(COUNTS);
      }
    }
    if c.zSet.Some? {
      ElementsDecide(c.zSet.value, have, atoms);
      if Keys(have) != c.zSet.value {
        return Mismatch(Z_SET);
      }
    }
    return Accepted;
  }

  // The histogram loop.
  method Histogram(atoms: seq<int>) returns (have: seq<Pair>)
    ensures IsMap(have) && CountsFit(have, atoms)
  {
    have := [];
    for i := 0 to |atoms|
      invariant IsMap(have) && CountsFit(have, atoms[..i])
    {
      var z := atoms[i];
      var n := if Get(have, z).Some? then Get(have, z).value else 0;
      OneAtomMore(have, atoms, i);
      have := Put(have, z, n + 1);
    }
    assert atoms[..|atoms|] == atoms;
  }

  lemma OneAtomMore(have: seq<Pair>, atoms: seq<int>, i: nat)
    requires i < |atoms| && IsMap(have) && CountsFit(have, atoms[..i])
    ensures var z := atoms[i];
      CountsFit(Put(have, z, (if Get(have, z).Some? then Get(have, z).value else 0) + 1), atoms[..i + 1])
  {
    hide Put, Get;
    var z, seen := atoms[i], multiset(atoms[..i]);
    var n := if Get(have, z).Some? then Get(have, z).value else 0;
    assert atoms[..i + 1] == atoms[..i] + [z];
    assert multiset(atoms[..i + 1]) == seen + multiset{z} && n == seen[z];
    forall y: int
      ensures Get(Put(have, z, n + 1), y) == if y in seen + multiset{z} then Some((seen + multiset{z})[y]) else None
    {
      PutGet(have, z, n + 1, y);
    }
  }

  lemma CountsDecide(counts: seq<Pair>, have: seq<Pair>, atoms: seq<int>)
    requires IsMap(counts) && IsMap(have) && CountsFit(have, atoms)
    ensures counts == have <==> CountsFit(counts, atoms)
  {
    if CountsFit(counts, atoms) {
      SameMap(counts, have);
    }
  }

  lemma ElementsDecide(zSet: seq<int>, have: seq<Pair>, atoms: seq<int>)
    requires IsMap(have) && CountsFit(have, atoms)
    ensures Keys(have) == zSet <==> ElementsFit(zSet, atoms)
  {
    forall z
      ensures z in Keys(have) <==> z in multiset(atoms)
    {
      KeysHeld(have, z);
    }
    if ElementsFit(zSet, atoms) {
      SameElements(Keys(have), zSet);
    }
  }

  // The verdict is the same for every order of the atoms.
  lemma OrderDoesNotMatter(c: Contract, atoms: seq<int>, other: seq<int>)
    requires multiset(atoms) == multiset(other)
    ensures Judge(c, atoms) == Judge(c, other)
  {
    if c.counts.Some? {
      assert CountsFit(c.counts.value, atoms) <==> CountsFit(c.counts.value, other);
    }
    if c.zSet.Some? {
      assert ElementsFit(c.zSet.value, atoms) <==> ElementsFit(c.zSet.value, other);
    }
  }
}
