// The version macros of the generated C header.
module VersionHeader {
  import opened Wrappers
  import opened LineText
  import opened VersionScan
  import opened VersionSurfaces
  import VersionFiles

  datatype Macro = Major | Minor | Patch | Full | Other

  function Define(m: Macro): string
    requires !m.Other?
  {
    match m
    case Major => "#define RGPOT_VERSION_MAJOR "
    case Minor => "#define RGPOT_VERSION_MINOR "
    case Patch => "#define RGPOT_VERSION_PATCH "
    case Full => "#define RGPOT_VERSION "
  }

  // The macro a line defines.
  function MacroOf(l: string): Macro {
    if Define(Major) <= l then Major
    else if Define(Minor) <= l then Minor
    else if Define(Patch) <= l then Patch
    else if Define(Full) <= l then Full
    else Other
  }

  // ---- The numbers ----

  // The text up to the first dash or plus.
  function Core(v: string): string {
    if v == "" || v[0] == '-' || v[0] == '+' then "" else [v[0]] + Core(v[1..])
  }

  function UpToDot(s: string): string {
    if s == "" || s[0] == '.' then "" else [s[0]] + UpToDot(s[1..])
  }

  // What follows the first dot.
  function PastDot(s: string): Option<string> {
    if s == "" then None else if s[0] == '.' then Some(s[1..]) else PastDot(s[1..])
  }

  // Part k of a text split at dots; "0" beyond the last.
  function Part(s: string, k: nat): string
    decreases k
  {
    if k == 0 then UpToDot(s)
    else if PastDot(s).None? then "0"
    else Part(PastDot(s).value, k - 1)
  }

  lemma {:induction false} CoreIs(v: string, k: nat)
    requires k <= |v| && (forall i :: 0 <= i < k ==> v[i] != '-' && v[i] != '+')
    requires k < |v| ==> v[k] == '-' || v[k] == '+'
    ensures Core(v) == v[..k]
  {
    if k > 0 {
      CoreIs(v[1..], k - 1);
      assert v[..k] == [v[0]] + v[1..][..k - 1];
    }
  }

  lemma {:induction false} AtDot(a: string, rest: string)
    requires '.' !in a
    ensures UpToDot(a + (['.'] + rest)) == a && PastDot(a + (['.'] + rest)) == Some(rest)
  {
    var s := a + (['.'] + rest);
    if a == "" {
      assert s == ['.'] + rest;
    } else {
      assert a == [a[0]] + a[1..] && a[0] in a;
      assert s[1..] == a[1..] + (['.'] + rest);
      AtDot(a[1..], rest);
    }
  }

  lemma {:induction false} NoDot(a: string)
    requires '.' !in a
    ensures UpToDot(a) == a
  {
    if a != "" {
      assert a == [a[0]] + a[1..] && a[0] in a;
      NoDot(a[1..]);
    }
  }

  lemma ThreeParts(a: string, b: string, c: string)
    requires '.' !in a && '.' !in b && '.' !in c
    ensures var s := a + (['.'] + (b + (['.'] + c))); Part(s, 0) == a && Part(s, 1) == b && Part(s, 2) == c
  {
    AtDot(a, b + (['.'] + c));
    AtDot(b, c);
    NoDot(c);
  }

  lemma RunHasNoDot(s: string, from: nat, to: nat)
    requires IsRun(s, from, to)
    ensures '.' !in s[from..to]
  {
    assert forall m :: 0 <= m < to - from ==> s[from..to][m] == s[m + from];
  }

  // The three macros get the three numbers of the version.
  lemma PartsOfVersion(v: string, i: nat, j: nat, k: nat)
    requires IsVersionAt(v, i, j, k)
    ensures Part(Core(v), 0) == v[..i] && Part(Core(v), 1) == v[i + 1..j] && Part(Core(v), 2) == v[j + 1..k]
  {
    forall m | 0 <= m < k
      ensures v[m] != '-' && v[m] != '+'
    {
      assert m < i || m == i || i + 1 <= m < j || m == j || j + 1 <= m < k;
    }
    CoreIs(v, k);
    RunHasNoDot(v, 0, i);
    RunHasNoDot(v, i + 1, j);
    RunHasNoDot(v, j + 1, k);
    hide Core, Part, IsRun;
    var a, b, c := v[0..i], v[i + 1..j], v[j + 1..k];
    assert v[..k] == a + (['.'] + (b + (['.'] + c)));
    ThreeParts(a, b, c);
    assert v[..i] == a;
  }

  // ---- One line ----

  function Number(v: string, m: Macro): string {
    match m
    case Major => Part(Core(v), 0)
    case Minor => Part(Core(v), 1)
    case Patch => Part(Core(v), 2)
    case Full => "\"" + v + "\""
    case Other => ""
  }

  function Rewritten(v: string, line: string): string {
    var m := MacroOf(TrimStart(Line(line)));
    if m.Other? then line else Define(m) + Number(v, m) + LineEol(line)
  }

  function HeaderValue(line: string): Option<string> {
    var l := TrimStart(Line(line));
    if Define(Full) <= l then Between(l[|Define(Full)|..], '"') else None
  }

  // The macro names differ within their first 24 characters.
  lemma DefineIsItself(m: Macro, rest: string)
    requires !m.Other?
    ensures MacroOf(Define(m) + rest) == m && TrimStart(Define(m) + rest) == Define(m) + rest
  {
    var d := Define(m);
    var s := d + rest;
    assert s[..|d|] == d && s[0] == '#';
    Differ(m, s);
  }

  lemma Differ(m: Macro, s: string)
    requires !m.Other? && Define(m) <= s
    ensures forall n: Macro :: !n.Other? && Define(n) <= s ==> n == m
  {
    var d := Define(m);
    assert s[21] == d[21] && (|d| > 23 ==> s[22] == d[22] && s[23] == d[23]);
    forall n: Macro | !n.Other? && Define(n) <= s
      ensures n == m
    {
      var e := Define(n);
      assert s[21] == e[21] && (|e| > 23 ==> s[22] == e[22] && s[23] == e[23]);
    }
  }

  lemma LineOfPadded(s: string, e: string)
    requires IsEol(e) && s != "" && s[|s| - 1] != '\r' && s[|s| - 1] != '\n'
    ensures Line(s + e) == s
  {
  }

  predicate Clean(s: string) {
    forall i :: 0 <= i < |s| ==> s[i] != '\r' && s[i] != '\n'
  }

  lemma CleanSlice(s: string, from: nat, to: nat)
    requires Clean(s) && from < to <= |s|
    ensures Clean(s[from..to]) && s[from..to] != ""
  {
  }

  lemma CleanQuoted(s: string)
    requires Clean(s)
    ensures Clean("\"" + s + "\"")
  {
  }

  lemma VersionIsClean(v: string)
    requires IsVersionText(v)
    ensures Clean(v)
  {
    forall n | 0 <= n < |v|
      ensures v[n] != '\r' && v[n] != '\n'
    {
      TailCharIsSolid(v[n]);
    }
  }

  lemma NumberIsClean(v: string, m: Macro)
    requires IsVersion(v) && !m.Other?
    ensures Clean(Number(v, m)) && Number(v, m) != ""
  {
    var i: nat, j: nat, k: nat :| IsVersionAt(v, i, j, k);
    assert 0 < i < j < k <= |v| && i + 1 < j && j + 1 < k;
    PartsOfVersion(v, i, j, k);
    VersionIsText(v, i, j, k);
    VersionIsClean(v);
    hide Core, Part, IsVersion, IsVersionAt, Clean, IsVersionText;
    match m {
      case Major => CleanSlice(v, 0, i);
      case Minor => CleanSlice(v, i + 1, j);
      case Patch => CleanSlice(v, j + 1, k);
      case Full => CleanQuoted(v);
    }
    assert v[..i] == v[0..i];
  }

  lemma VersionIsText(v: string, i: nat, j: nat, k: nat)
    requires IsVersionAt(v, i, j, k)
    ensures IsVersionText(v) && StartsWithDigit(v) && StripV(v) == v
  {
    forall m | 0 <= m < |v|
      ensures IsTailChar(v[m])
    {
      assert m < i || m == i || i + 1 <= m < j || m == j || j + 1 <= m < k || m == k || k < m < |v|;
    }
  }

  // A rewritten line defines the same macro, once more rewritten it is as if
  // rewritten the first time, and the reader finds the version on it.
  lemma RewrittenLine(v: string, w: string, line: string)
    requires IsVersion(v) && IsSegment(line)
    ensures var m, put := MacroOf(TrimStart(Line(line))), Rewritten(v, line);
      && MacroOf(TrimStart(Line(put))) == m && LineEol(put) == LineEol(line)
      && (!m.Other? ==> Line(put) == Define(m) + Number(v, m))
      && Rewritten(w, put) == Rewritten(w, line)
      && (m.Full? ==> HeaderValue(put) == Some(v))
      && IsSegment(put) && Ended(put) == Ended(line)
  {
    var m, put := MacroOf(TrimStart(Line(line))), Rewritten(v, line);
    if !m.Other? {
      var body, e := Define(m) + Number(v, m), LineEol(line);
      NumberIsClean(v, m);
      LineEolIsEol(line);
      BodyIsClean(m, Number(v, m));
      assert put == body + e;
      DefineIsItself(m, Number(v, m));
      hide *;
      PutLine(body, e);
      RewrittenIs(w, line, m);
      RewrittenIs(w, put, m);
      if m.Full? {
        QuotedVersion(v);
        ValueIs(put, body);
      }
    }
  }

  // Like the other writers, this one loses the carriage returns in front of
  // the line ending of a rewritten line.
  lemma TailOfRewritten(v: string, line: string)
    requires IsVersion(v) && !MacroOf(TrimStart(Line(line))).Other?
    ensures VersionFiles.Tail(Rewritten(v, line)) == LineEol(line)
    ensures VersionFiles.Tail(Rewritten(v, line)) == VersionFiles.Tail(line) <==> IsEol(VersionFiles.Tail(line))
  {
    var m := MacroOf(TrimStart(Line(line)));
    NumberIsClean(v, m);
    BodyIsClean(m, Number(v, m));
    LineEolIsEol(line);
    VersionFiles.TailParts(line);
    RewrittenIs(v, line, m);
    hide *;
    VersionFiles.TailBehind(Define(m) + Number(v, m), LineEol(line));
  }

  lemma RewrittenIs(v: string, line: string, m: Macro)
    requires MacroOf(TrimStart(Line(line))) == m && !m.Other?
    ensures Rewritten(v, line) == Define(m) + Number(v, m) + LineEol(line)
  {
  }

  lemma ValueIs(line: string, body: string)
    requires Line(line) == body == TrimStart(body) && Define(Full) <= body
    ensures HeaderValue(line) == Between(body[|Define(Full)|..], '"')
  {
  }

  lemma PutLine(body: string, e: string)
    requires IsEol(e) && body != "" && body[|body| - 1] != '\r' && body[|body| - 1] != '\n' && '\n' !in body
    ensures var put := body + e;
      Line(put) == body && LineEol(put) == e && IsSegment(put) && Ended(put) == (e != "")
  {
    LineOfPadded(body, e);
    EolOfStamped("", body, e);
    OneLine("", body, e);
    assert "" + body + e == body + e;
  }

  lemma BodyIsClean(m: Macro, n: string)
    requires !m.Other? && n != "" && Clean(n)
    ensures var body := Define(m) + n;
      body != "" && body[|body| - 1] != '\r' && body[|body| - 1] != '\n' && '\n' !in body
  {
    var d := Define(m);
    assert '\n' !in d;
    var body := d + n;
    forall i | 0 <= i < |body|
      ensures body[i] != '\n'
    {
      assert body[i] == if i < |d| then d[i] else n[i - |d|];
    }
  }

  lemma QuotedVersion(v: string)
    requires IsVersion(v)
    ensures var l := Define(Full) + Number(v, Full);
      Define(Full) <= l && Between(l[|Define(Full)|..], '"') == Some(v)
  {
    var q := Number(v, Full);
    BetweenQuotes("", v, "", '"');
    assert "" + ['"'] + v + ['"'] + "" == q;
    assert (Define(Full) + q)[|Define(Full)|..] == q;
  }

  lemma ReaderIsWriter(line: string)
    ensures HeaderValue(line).Some? ==> MacroOf(TrimStart(Line(line))).Full?
  {
    var l := TrimStart(Line(line));
    if Define(Full) <= l {
      assert l[21] == ' ';
      assert Define(Major)[21] == '_' && Define(Minor)[21] == '_' && Define(Patch)[21] == '_';
    }
  }

  // ---- The file ----

  function RewriteAll(v: string, lines: seq<string>): (r: seq<string>)
    ensures |r| == |lines|
  {
    if lines == [] then [] else [Rewritten(v, lines[0])] + RewriteAll(v, lines[1..])
  }

  function ReadHeader(lines: seq<string>): Option<string> {
    if lines == [] then None
    else if HeaderValue(lines[0]).Some? then HeaderValue(lines[0])
    else ReadHeader(lines[1..])
  }

  predicate HasFull(lines: seq<string>) {
    exists i :: 0 <= i < |lines| && MacroOf(TrimStart(Line(lines[i]))).Full?
  }

  method ReplaceHeader(text: string, v: string) returns (out: string)
    ensures out == Join(RewriteAll(v, Lines(text)))
  {
    var lines := Lines(text);
    out := "";
    for i := 0 to |lines|
      invariant out + Join(RewriteAll(v, lines[i..])) == Join(RewriteAll(v, lines))
    {
      assert lines[i..][1..] == lines[i + 1..];
      VersionFiles.JoinCons(out, Rewritten(v, lines[i]), RewriteAll(v, lines[i + 1..]));
      out := out + Rewritten(v, lines[i]);
    }
    assert out + "" == out;
  }

  // The header reads back exactly when it defines the full version; a second
  // version overwrites the first.
  lemma {:induction false} HeaderReadsBack(v: string, w: string, lines: seq<string>)
    requires AreLines(lines) && IsVersion(v)
    ensures var r := RewriteAll(v, lines);
      && AreLines(r)
      && ReadHeader(r) == (if HasFull(lines) then Some(v) else None)
      && RewriteAll(w, r) == RewriteAll(w, lines)
  {
    if lines != [] {
      var line, rest := lines[0], lines[1..];
      VersionFiles.LinesTail(lines);
      HeaderReadsBack(v, w, rest);
      RewrittenLine(v, w, line);
      FullInCons(line, rest);
      assert lines == [line] + rest;
      ReaderIsWriter(Rewritten(v, line));
      hide HasFull, MacroOf, TrimStart, Line, Rewritten, IsSegment, AreLines, HeaderValue, Ended;
      VersionFiles.LinesCons(Rewritten(v, line), RewriteAll(v, rest));
    }
  }

  lemma FullInCons(line: string, rest: seq<string>)
    ensures HasFull([line] + rest) <==> MacroOf(TrimStart(Line(line))).Full? || HasFull(rest)
  {
    var lines := [line] + rest;
    if HasFull(rest) {
      var i :| 0 <= i < |rest| && MacroOf(TrimStart(Line(rest[i]))).Full?;
      assert lines[i + 1] == rest[i];
    }
    if MacroOf(TrimStart(Line(line))).Full? {
      assert lines[0] == line;
    }
  }
}
