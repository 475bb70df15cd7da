// Whole files: the writers rewrite one line and leave the others alone, the
// readers take the first line that has a version.
module VersionFiles {
  import opened Characters
  import opened Wrappers
  import opened LineText
  import opened VersionSurfaces
  import Sequences

  // ---- meson.build, CMakeLists.txt, Cargo.toml, towncrier.toml ----

  // The number of lines before the first the writer takes.
  function TakenAt(u: Surface, lines: seq<string>): (n: nat)
    ensures n <= |lines| && (forall i :: 0 <= i < n ==> !Takes(u, lines[i])) && (n < |lines| ==> Takes(u, lines[n]))
  {
    if lines == [] || Takes(u, lines[0]) then 0 else 1 + TakenAt(u, lines[1..])
  }

  function Rewrite(u: Surface, v: string, lines: seq<string>): (r: seq<string>) {
    if lines == [] then []
    else if Takes(u, lines[0]) then [Stamped(u, v, lines[0])] + lines[1..]
    else [lines[0]] + Rewrite(u, v, lines[1..])
  }

  function Read(u: Surface, lines: seq<string>): Option<string> {
    if lines == [] then None else if Value(u, lines[0]).Some? then Value(u, lines[0]) else Read(u, lines[1..])
  }

  // What is still to come behind the lines already copied.
  function Remaining(u: Surface, v: string, lines: seq<string>, done: bool): seq<string> {
    if done then lines else Rewrite(u, v, lines)
  }

  method ReplaceFirst(u: Surface, text: string, v: string) returns (out: string)
    ensures out == Join(Rewrite(u, v, Lines(text)))
  {
    var lines := Lines(text);
    var done := false;
    out := "";
    assert out + Join(Remaining(u, v, lines, false)) == Join(Rewrite(u, v, lines));
    assert lines[0..] == lines;
    NothingRemains(u, v, true);
    NothingRemains(u, v, false);
    hide *;
    for i := 0 to |lines|
      invariant out + Join(Remaining(u, v, lines[i..], done)) == Join(Rewrite(u, v, lines))
    {
      assert lines[i..] == [lines[i]] + lines[i + 1..];
      CopyTurn(u, v, out, lines[i], lines[i + 1..], done);
      if !done && Takes(u, lines[i]) {
        out := out + Stamped(u, v, lines[i]);
        done := true;
      } else {
        out := out + lines[i];
      }
    }
    assert lines[|lines|..] == [];
    assert out + "" == out;
  }

  lemma NothingRemains(u: Surface, v: string, done: bool)
    ensures Join(Remaining(u, v, [], done)) == ""
  {
  }

  lemma CopyTurn(u: Surface, v: string, out: string, line: string, rest: seq<string>, done: bool)
    ensures out + Join(Remaining(u, v, [line] + rest, done)) ==
      if !done && Takes(u, line) then (out + Stamped(u, v, line)) + Join(Remaining(u, v, rest, true))
      else (out + line) + Join(Remaining(u, v, rest, done))
  {
    hide Takes, Stamped, Join, Rewrite;
    RewriteCons(u, v, line, rest);
    if !done && Takes(u, line) {
      JoinCons(out, Stamped(u, v, line), rest);
    } else {
      JoinCons(out, line, Remaining(u, v, rest, done));
    }
  }

  lemma RewriteCons(u: Surface, v: string, line: string, rest: seq<string>)
    ensures Rewrite(u, v, [line] + rest) ==
      if Takes(u, line) then [Stamped(u, v, line)] + rest else [line] + Rewrite(u, v, rest)
  {
    assert ([line] + rest)[1..] == rest;
  }

  lemma JoinCons(before: string, line: string, rest: seq<string>)
    ensures before + Join([line] + rest) == (before + line) + Join(rest)
  {
    assert ([line] + rest)[1..] == rest;
  }

  method ReadFirst(u: Surface, text: string) returns (v: Option<string>)
    ensures v == Read(u, Lines(text))
  {
    var lines := Lines(text);
    for i := 0 to |lines|
      invariant Read(u, lines[i..]) == Read(u, lines)
    {
      assert lines[i..][1..] == lines[i + 1..];
      if Value(u, lines[i]).Some? {
        return Value(u, lines[i]);
      }
    }
    return None;
  }

  lemma LinesTail(lines: seq<string>)
    requires AreLines(lines) && lines != []
    ensures IsSegment(lines[0]) && AreLines(lines[1..]) && (|lines| > 1 ==> Ended(lines[0]))
  {
  }

  lemma LinesCons(line: string, rest: seq<string>)
    requires IsSegment(line) && AreLines(rest) && (rest != [] ==> Ended(line))
    ensures AreLines([line] + rest)
  {
  }

  lemma TakenAtCons(u: Surface, line: string, rest: seq<string>)
    ensures TakenAt(u, [line] + rest) == if Takes(u, line) then 0 else 1 + TakenAt(u, rest)
  {
    assert ([line] + rest)[1..] == rest;
  }

  // The lists differ at position n at most.
  predicate SameBut(lines: seq<string>, r: seq<string>, n: nat) {
    |r| == |lines| && forall i :: 0 <= i < |lines| && i != n ==> r[i] == lines[i]
  }

  lemma SameButCons(line: string, lines: seq<string>, r: seq<string>, n: nat)
    requires SameBut(lines, r, n)
    ensures SameBut([line] + lines, [line] + r, n + 1)
    ensures n < |lines| ==> ([line] + lines)[n + 1] == lines[n] && ([line] + r)[n + 1] == r[n]
  {
  }

  lemma SameButHead(line: string, put: string, rest: seq<string>)
    ensures SameBut([line] + rest, [put] + rest, 0) && ([line] + rest)[0] == line && ([put] + rest)[0] == put
  {
  }

  // Exactly one line changes, if any is taken; each keeps its ending.
  lemma {:induction false} OneLineChanges(u: Surface, v: string, lines: seq<string>)
    requires AreLines(lines) && IsVersionText(v)
    ensures var r, n := Rewrite(u, v, lines), TakenAt(u, lines);
      && SameBut(lines, r, n) && AreLines(r)
      && (n < |lines| ==> r[n] == Stamped(u, v, lines[n]) && LineEol(r[n]) == LineEol(lines[n]))
  {
    if lines != [] {
      var line, rest := lines[0], lines[1..];
      LinesTail(lines);
      assert lines == [line] + rest;
      RewriteCons(u, v, line, rest);
      TakenAtCons(u, line, rest);
      hide *;
      if Takes(u, line) {
        StampedParts(u, v, line);
        SameButHead(line, Stamped(u, v, line), rest);
        LinesCons(Stamped(u, v, line), rest);
      } else {
        OneLineChanges(u, v, rest);
        SameButCons(line, rest, Rewrite(u, v, rest), TakenAt(u, rest));
        AfterFirst(line, rest, Rewrite(u, v, rest));
      }
    }
  }

  lemma AfterFirst(line: string, rest: seq<string>, r: seq<string>)
    requires IsSegment(line) && (rest != [] ==> Ended(line)) && |r| == |rest| && AreLines(r)
    ensures AreLines([line] + r)
  {
    hide AreLines, IsSegment, Ended;
    LinesCons(line, r);
  }

  lemma ReadCons(u: Surface, line: string, rest: seq<string>)
    ensures Read(u, [line] + rest) == if Value(u, line).Some? then Value(u, line) else Read(u, rest)
  {
    assert ([line] + rest)[1..] == rest;
  }

  lemma PrefixCons(line: string, rest: seq<string>, n: nat)
    requires n <= |rest|
    ensures ([line] + rest)[..n + 1] == [line] + rest[..n]
    ensures ([line] + rest)[..0] == []
  {
  }

  // What is read back: an earlier version only the reader sees, else the one
  // written, if a line was taken.
  lemma {:induction false} ReadAfterWrite(u: Surface, v: string, lines: seq<string>)
    requires AreLines(lines) && Fits(u, v)
    ensures var n := TakenAt(u, lines);
      Read(u, Rewrite(u, v, lines)) ==
        if Read(u, lines[..n]).Some? then Read(u, lines[..n]) else if n < |lines| then Some(v) else None
  {
    NothingToRead(u);
    if lines != [] {
      var line, rest := lines[0], lines[1..];
      assert lines == [line] + rest;
      LinesTail(lines);
      TakenAtCons(u, line, rest);
      RewriteCons(u, v, line, rest);
      var n := TakenAt(u, rest);
      PrefixCons(line, rest, n);
      hide *;
      if Takes(u, line) {
        StampedLine(u, v, line);
        ReadCons(u, Stamped(u, v, line), rest);
      } else {
        ReadAfterWrite(u, v, rest);
        ReadCons(u, line, rest[..n]);
        ReadCons(u, line, Rewrite(u, v, rest));
      }
    } else {
      assert Rewrite(u, v, lines) == [] && lines[..0] == [];
    }
  }

  lemma NothingToRead(u: Surface)
    ensures Read(u, []) == None
  {
  }

  lemma {:induction false} WriteTwice(u: Surface, v: string, w: string, lines: seq<string>)
    requires AreLines(lines) && Fits(u, v)
    ensures Rewrite(u, w, Rewrite(u, v, lines)) == Rewrite(u, w, lines)
  {
    if lines != [] {
      LinesTail(lines);
      hide Takes, Stamped, AreLines, IsSegment;
      if Takes(u, lines[0]) {
        StampedLine(u, v, lines[0]);
      } else {
        WriteTwice(u, v, w, lines[1..]);
      }
    }
  }

  function Written(u: Surface, v: string, text: string): string {
    Join(Rewrite(u, v, Lines(text)))
  }

  lemma LinesOfWritten(u: Surface, v: string, text: string)
    requires IsVersionText(v)
    ensures Lines(Written(u, v, text)) == Rewrite(u, v, Lines(text))
  {
    LinesJoin(text);
    OneLineChanges(u, v, Lines(text));
    JoinLines(Rewrite(u, v, Lines(text)));
  }

  // Reading a file after writing it gives the version exactly when the writer
  // has a line and no earlier line, which only the reader takes, says
  // otherwise.
  lemma ReadsBackExactlyWhen(u: Surface, v: string, text: string)
    requires Fits(u, v)
    ensures var lines := Lines(text);
      var n := TakenAt(u, lines);
      (Read(u, Lines(Written(u, v, text))) == Some(v)) ==
      (Read(u, lines[..n]) == Some(v) || (Read(u, lines[..n]).None? && n < |lines|))
  {
    LinesJoin(text);
    LinesOfWritten(u, v, text);
    ReadAfterWrite(u, v, Lines(text));
  }

  // On the TOML surface a line of the writer's is all it takes.
  lemma {:induction false} NothingRead(lines: seq<string>)
    requires forall i :: 0 <= i < |lines| ==> !Takes(Toml, lines[i])
    ensures Read(Toml, lines) == None
  {
    if lines != [] {
      TomlReaderIsWriter(lines[0]);
      NothingRead(lines[1..]);
    }
  }

  lemma TomlReadsBack(v: string, text: string)
    requires IsVersionText(v)
    ensures Read(Toml, Lines(Written(Toml, v, text))) == if TakenAt(Toml, Lines(text)) < |Lines(text)| then Some(v) else None
  {
    var lines := Lines(text);
    NothingRead(lines[..TakenAt(Toml, lines)]);
    LinesJoin(text);
    LinesOfWritten(Toml, v, text);
    ReadAfterWrite(Toml, v, lines);
  }

  // A second version overwrites the first as if written alone.
  lemma SecondWriteOverwrites(u: Surface, v: string, w: string, text: string)
    requires Fits(u, v)
    ensures Written(u, w, Written(u, v, text)) == Written(u, w, text)
  {
    LinesJoin(text);
    LinesOfWritten(u, v, text);
    WriteTwice(u, v, w, Lines(text));
  }

  // The meson and CMake readers skip all white space in front of the key, the
  // writers only spaces and tabs: a key behind a vertical tab, form feed or
  // carriage return is read but not written.
  lemma ReaderOnlyLine(u: Surface, c: char, v: string)
    requires !u.Toml? && IsSpace(c) && !IsBlank(c) && c != '\n' && Fits(u, v)
    ensures var line := [c] + Stamp(u, v) + "\n";
      !Takes(u, line) && Value(u, line) == Some(v) && IsSegment(line) && Ended(line)
  {
    var s := Stamp(u, v);
    StampIsSolid(u, v);
    StampValue(u, v);
    OneLine([c], s, "\n");
    hide Stamp;
    var line := [c] + s + "\n";
    assert TrimBlanks(line) == line && line[0] == c;
    TrimPadded([c], s, "\n");
    TrimLine(line);
  }

  // A file with such a line before the writer's own: whatever is written, the
  // reader goes on finding the old version.
  lemma ReaderOnlyFile(u: Surface, c: char, old': string, was: string, v: string)
    requires !u.Toml? && IsSpace(c) && !IsBlank(c) && c != '\n' && Fits(u, old') && Fits(u, was) && Fits(u, v)
    ensures var text := ([c] + Stamp(u, old') + "\n") + (OwnForm(u, was) + "\n");
      Written(u, v, text) == ([c] + Stamp(u, old') + "\n") + (OwnForm(u, v) + "\n")
      && Read(u, Lines(Written(u, v, text))) == Some(old')
  {
    ReaderOnlyLine(u, c, old');
    OwnLine(u, was, v);
    hide *;
    TwoLines(u, v, [c] + Stamp(u, old') + "\n", OwnForm(u, was) + "\n");
  }

  // A file of two lines of which the writer takes the second.
  lemma TwoLines(u: Surface, v: string, first: string, second: string)
    requires IsSegment(first) && Ended(first) && IsSegment(second) && IsSegment(Stamped(u, v, second))
    requires !Takes(u, first) && Takes(u, second) && Value(u, first).Some?
    ensures Written(u, v, first + second) == first + Stamped(u, v, second)
    ensures Read(u, Lines(Written(u, v, first + second))) == Value(u, first)
  {
    hide Takes, Value, Stamped, IsSegment, Ended, Lines;
    var put := Stamped(u, v, second);
    LinesOfTwo(first, second);
    LinesOfTwo(first, put);
    RewriteCons(u, v, first, [second]);
    RewriteCons(u, v, second, []);
    assert [second] + [] == [second] && [put] + [] == [put] && [first] + [second] == [first, second];
    assert Rewrite(u, v, [first, second]) == [first, put];
    ReadCons(u, first, [put]);
    assert [first] + [put] == [first, put];
  }

  lemma LinesOfTwo(first: string, second: string)
    requires IsSegment(first) && Ended(first) && IsSegment(second)
    ensures Lines(first + second) == [first, second] && Join([first, second]) == first + second
  {
    assert [first, second][1..] == [second] && [second][1..] == [];
    assert Join([second]) == second + "" == second;
    JoinLines([first, second]);
  }

  lemma SolidLine(s: string)
    requires Solid(s) && '\n' !in s && s[|s| - 1] != '\r'
    ensures var line := s + "\n";
      IsSegment(line) && Ended(line) && LineEol(line) == "\n" && Indent(line) == "" && TrimStart(line) != ""
  {
    var line := s + "\n";
    assert "" + s + "\n" == line;
    assert AllSpace("") && AllSpace("\n");
    TrimPadded("", s, "\n");
    OneLine("", s, "\n");
    EolOfStamped("", s, "\n");
  }

  lemma OwnLine(u: Surface, was: string, v: string)
    requires Fits(u, was) && Fits(u, v)
    ensures var line := OwnForm(u, was) + "\n";
      IsSegment(line) && Ended(line) && Takes(u, line) && Stamped(u, v, line) == OwnForm(u, v) + "\n"
      && IsSegment(OwnForm(u, v) + "\n")
  {
    hide *;
    var s, t := OwnForm(u, was), OwnForm(u, v);
    OwnTaken(u, was);
    OwnSolid(u, was);
    OwnSolid(u, v);
    SolidLine(s);
    SolidLine(t);
    IndentDropEol(s + "\n");
    StampedIs(u, v, s + "\n");
    OwnFormIsStamp(u, v);
    Sequences.Empties(t);
  }

  lemma OwnTaken(u: Surface, was: string)
    requires Fits(u, was)
    ensures Takes(u, OwnForm(u, was) + "\n")
  {
    hide OwnForm, Takes, Stamped;
    OwnFormStays(u, was, "", "\n");
    assert "" + OwnForm(u, was) + "\n" == OwnForm(u, was) + "\n";
  }

  lemma OwnSolid(u: Surface, v: string)
    requires Fits(u, v)
    ensures var s := OwnForm(u, v); Solid(s) && '\n' !in s && s[|s| - 1] != '\r'
  {
    OwnFormIsStamp(u, v);
    StampIsSolid(u, v);
  }

  // ---- What a replaced line loses at its end ----

  // What trimming line ends cuts off.
  function Tail(line: string): string {
    DropEolIsPrefix(line);
    line[|DropEol(line)|..]
  }

  predicate AllEnds(s: string) {
    forall i :: 0 <= i < |s| ==> s[i] == '\r' || s[i] == '\n'
  }

  lemma {:induction false} DropEolIsPrefix(s: string)
    ensures DropEol(s) <= s && AllEnds(s[|DropEol(s)|..])
  {
    if s != "" && (s[|s| - 1] == '\r' || s[|s| - 1] == '\n') {
      DropEolIsPrefix(s[..|s| - 1]);
    }
  }

  lemma {:induction false} DropEolRun(a: string, e: string)
    requires AllEnds(e)
    ensures DropEol(a + e) == DropEol(a)
  {
    if e == "" {
      assert a + e == a;
    } else {
      var n := |e| - 1;
      assert (a + e)[..|a + e| - 1] == a + e[..n];
      DropEolRun(a, e[..n]);
    }
  }

  lemma TailRun(a: string, e: string)
    requires AllEnds(e)
    ensures Tail(a + e) == Tail(a) + e
  {
    DropEolRun(a, e);
    DropEolIsPrefix(a);
  }

  // A line in front of its ending.
  function Front(line: string): string {
    line[..|line| - |LineEol(line)|]
  }

  lemma FrontTail(line: string)
    ensures line == Front(line) + LineEol(line)
    ensures Tail(line) == Tail(Front(line)) + LineEol(line)
  {
    var e := LineEol(line);
    assert line == Front(line) + e;
    TailRun(Front(line), e);
  }

  // A line has no line feed in front of its ending.
  lemma NoLineFeedInFront(line: string)
    requires IsSegment(line)
    ensures '\n' !in Front(line)
  {
  }

  lemma ReturnsOnly(s: string)
    requires '\n' !in s
    ensures forall i :: 0 <= i < |Tail(s)| ==> Tail(s)[i] == '\r'
  {
    DropEolIsPrefix(s);
    var n := |DropEol(s)|;
    hide DropEol;
    forall i | 0 <= i < |Tail(s)|
      ensures Tail(s)[i] == '\r'
    {
      assert Tail(s)[i] == s[n..][i] == s[n + i];
    }
  }

  // The tail ends with the line ending, and in front of that a line has
  // carriage returns only.
  lemma TailParts(line: string)
    ensures var t, n := Tail(line), |LineEol(line)|;
      && n <= |t| && t[|t| - n..] == LineEol(line)
      && (IsSegment(line) ==> forall i :: 0 <= i < |t| - n ==> t[i] == '\r')
      && (t == LineEol(line) <==> IsEol(t))
  {
    FrontTail(line);
    if IsSegment(line) {
      NoLineFeedInFront(line);
      ReturnsOnly(Front(line));
    }
    TailIsSuffix(line);
    LineEolIsEol(line);
    hide Front, Tail, LineEol, IsSegment;
  }

  lemma TailIsSuffix(line: string)
    ensures IsEol(Tail(line)) ==> Tail(line) == LineEol(line)
  {
    DropEolIsPrefix(line);
    FrontTail(line);
    var t := Tail(line);
    assert line == DropEol(line) + t;
    hide DropEol, Tail, Front;
    if t == "\r\n" {
      assert line[|line| - 2..] == t;
    }
  }

  lemma TailBehind(body: string, e: string)
    requires body != "" && body[|body| - 1] != '\r' && body[|body| - 1] != '\n' && IsEol(e)
    ensures Tail(body + e) == e
  {
    TailRun(body, e);
    assert Tail(body) == "";
  }

  // A replaced line keeps of its tail the line ending and loses any carriage
  // return in front of it: the tail is kept exactly when it is a line ending.
  lemma TailOfStamped(u: Surface, v: string, line: string)
    requires IsVersionText(v)
    ensures Tail(Stamped(u, v, line)) == LineEol(line)
    ensures Tail(Stamped(u, v, line)) == Tail(line) <==> IsEol(Tail(line))
  {
    StampedIs(u, v, line);
    StampIsSolid(u, v);
    LineEolIsEol(line);
    TailParts(line);
    hide *;
    TailBehind(Indent(DropEol(line)) + Stamp(u, v), LineEol(line));
  }

  // One of those: a carriage return without a line feed at the end of the
  // last line.
  lemma LoneReturnDropped(u: Surface, was: string, v: string, pad: string)
    requires Fits(u, was) && IsVersionText(v) && AllBlank(pad)
    ensures var line := pad + Stamp(u, was) + "\r";
      Takes(u, line) && Stamped(u, v, line) == pad + Stamp(u, v)
  {
    var s, line := Stamp(u, was), pad + Stamp(u, was) + "\r";
    StampIsSolid(u, was);
    LoneReturnTaken(u, was, pad);
    BlankIsSpace(pad);
    hide *;
    LoneReturnEol(pad, s);
    IndentDropEol(line);
    StampedIs(u, v, line);
    Sequences.Empties(pad + Stamp(u, v));
  }

  lemma BlankIsSpace(pad: string)
    requires AllBlank(pad)
    ensures AllSpace(pad)
  {
  }

  lemma LoneReturnEol(pad: string, s: string)
    requires AllSpace(pad) && Solid(s)
    ensures var line := pad + s + "\r"; LineEol(line) == "" && Indent(line) == pad && TrimStart(line) != ""
  {
    TrimPadded(pad, s, "\r");
    var line := pad + s + "\r";
    assert line[|line| - 1] == '\r';
  }

  lemma LoneReturnTaken(u: Surface, was: string, pad: string)
    requires Fits(u, was) && AllBlank(pad)
    ensures Takes(u, pad + Stamp(u, was) + "\r")
  {
    var s, line := Stamp(u, was), pad + Stamp(u, was) + "\r";
    StampIsSolid(u, was);
    if u.Toml? {
      assert AllSpace(pad) && AllSpace("\r");
      TrimPadded(pad, s, "\r");
      TomlTakes(was, line);
    } else {
      assert line == pad + (s + "\r");
      StampStartsBlank(pad, s, "\r");
      SpaceAfterStamp(u, was, line);
    }
  }

  // ---- pixi.toml, pyproject.toml: the version line of one table ----

  // toml_table_name
  function TableName(line: string): Option<string> {
    NameOf(Trim(line))
  }

  function NameOf(s: string): Option<string> {
    if |s| < 2 || s[0] != '[' || s[|s| - 1] != ']' then None
    else
      var inner := s[1..|s| - 1];
      if inner == "" || inner[0] != '[' then Some(Trim(inner))
      else if |inner| < 2 || inner[|inner| - 1] != ']' then None
      else Some(Trim(inner[1..|inner| - 1]))
  }

  // `here` says whether the current table is the one looked for.
  function RewriteIn(section: string, v: string, lines: seq<string>, here: bool): seq<string> {
    if lines == [] then []
    else
      var name := TableName(DropEol(lines[0]));
      if name.Some? then [lines[0]] + RewriteIn(section, v, lines[1..], name.value == section)
      else if here && Key(Toml) <= Trim(DropEol(lines[0])) then [Stamped(Toml, v, lines[0])] + lines[1..]
      else [lines[0]] + RewriteIn(section, v, lines[1..], here)
  }

  function ReadIn(section: string, lines: seq<string>, here: bool): Option<string> {
    if lines == [] then None
    else
      var name := TableName(Line(lines[0]));
      if name.Some? then ReadIn(section, lines[1..], name.value == section)
      else if here && Value(Toml, lines[0]).Some? then Value(Toml, lines[0])
      else ReadIn(section, lines[1..], here)
  }

  // The table has a version line.
  predicate HasVersion(section: string, lines: seq<string>, here: bool) {
    lines != [] &&
    var name := TableName(lines[0]);
    if name.Some? then HasVersion(section, lines[1..], name.value == section)
    else (here && Takes(Toml, lines[0])) || HasVersion(section, lines[1..], here)
  }

  method ReplaceSection(text: string, section: string, v: string) returns (out: string)
    ensures out == Join(RewriteIn(section, v, Lines(text), false))
  {
    var lines := Lines(text);
    var done, here := false, false;
    out := "";
    for i := 0 to |lines|
      invariant out + Join(if done then lines[i..] else RewriteIn(section, v, lines[i..], here))
             == Join(RewriteIn(section, v, lines, false))
    {
      ghost var rest := lines[i..];
      assert rest[1..] == lines[i + 1..] && rest == [lines[i]] + rest[1..];
      ghost var before := out;
      var bare := DropEol(lines[i]);
      if TableName(bare).Some? {
        here := TableName(bare).value == section;
        out := out + lines[i];
        JoinCons(before, lines[i], if done then rest[1..] else RewriteIn(section, v, rest[1..], here));
        continue;
      }
      if !done && here && Key(Toml) <= Trim(bare) {
        out := out + Stamped(Toml, v, lines[i]);
        done := true;
        JoinCons(before, Stamped(Toml, v, lines[i]), rest[1..]);
        continue;
      }
      out := out + lines[i];
      JoinCons(before, lines[i], if done then rest[1..] else RewriteIn(section, v, rest[1..], here));
    }
    assert out + "" == out;
  }

  method ReadSection(text: string, section: string) returns (v: Option<string>)
    ensures v == ReadIn(section, Lines(text), false)
  {
    var lines := Lines(text);
    var here := false;
    for i := 0 to |lines|
      invariant ReadIn(section, lines[i..], here) == ReadIn(section, lines, false)
    {
      assert lines[i..][1..] == lines[i + 1..];
      var name := TableName(Line(lines[i]));
      if name.Some? {
        here := name.value == section;
        continue;
      }
      if here && Value(Toml, lines[i]).Some? {
        return Value(Toml, lines[i]);
      }
    }
    return None;
  }

  // A stamped line names no table.
  lemma StampNamesNothing(v: string, line: string)
    requires Takes(Toml, line) && IsSegment(line) && IsVersionText(v)
    ensures TableName(Stamped(Toml, v, line)) == None
  {
    StampedParts(Toml, v, line);
    StampIsSolid(Toml, v);
  }

  lemma SameName(line: string)
    ensures TableName(Line(line)) == TableName(line) && TableName(DropEol(line)) == TableName(line)
    ensures Takes(Toml, line) <==> Key(Toml) <= Trim(DropEol(line))
  {
    TrimLine(line);
    TrimDropEol(line);
  }

  lemma {:induction false} SectionLines(section: string, v: string, lines: seq<string>, here: bool)
    requires AreLines(lines) && IsVersionText(v)
    ensures |RewriteIn(section, v, lines, here)| == |lines| && AreLines(RewriteIn(section, v, lines, here))
  {
    if lines != [] {
      var line, rest := lines[0], lines[1..];
      LinesTail(lines);
      SameName(line);
      var name := TableName(DropEol(line));
      hide TableName, Takes, Stamped, IsSegment, AreLines, Ended, DropEol, Trim;
      if name.Some? {
        SectionLines(section, v, rest, name.value == section);
        LinesCons(line, RewriteIn(section, v, rest, name.value == section));
      } else if here && Takes(Toml, line) {
        StampedParts(Toml, v, line);
        LinesCons(Stamped(Toml, v, line), rest);
      } else {
        SectionLines(section, v, rest, here);
        LinesCons(line, RewriteIn(section, v, rest, here));
      }
    }
  }

  // One line of the writer and of the reader, by what the line is.
  lemma SectionSteps(section: string, v: string, line: string, rest: seq<string>, here: bool)
    ensures var name := TableName(line);
      var next := if name.Some? then name.value == section else here;
      var taken := name.None? && here && Takes(Toml, line);
      && RewriteIn(section, v, [line] + rest, here) ==
          (if taken then [Stamped(Toml, v, line)] + rest else [line] + RewriteIn(section, v, rest, next))
      && HasVersion(section, [line] + rest, here) == (taken || HasVersion(section, rest, next))
      && ReadIn(section, [line] + rest, here) ==
          if taken && Value(Toml, line).Some? then Value(Toml, line) else ReadIn(section, rest, next)
  {
    SameName(line);
    TomlReaderIsWriter(line);
    assert ([line] + rest)[1..] == rest;
    hide TableName, Takes, Value, Stamped, DropEol, Trim, Line;
  }

  // Reading the table back gives the version exactly when the table has a
  // line for one; a second version overwrites the first.
  lemma {:induction false} SectionReadsBack(section: string, v: string, w: string, lines: seq<string>, here: bool)
    requires AreLines(lines) && IsVersionText(v)
    ensures var r := RewriteIn(section, v, lines, here);
      && ReadIn(section, r, here) == (if HasVersion(section, lines, here) then Some(v) else None)
      && RewriteIn(section, w, r, here) == RewriteIn(section, w, lines, here)
  {
    if lines != [] {
      var line, rest := lines[0], lines[1..];
      LinesTail(lines);
      assert lines == [line] + rest;
      var name := TableName(line);
      var next := if name.Some? then name.value == section else here;
      SectionSteps(section, v, line, rest, here);
      SectionSteps(section, w, line, rest, here);
      hide TableName, Takes, Value, Stamped, IsSegment, AreLines, RewriteIn, ReadIn, HasVersion;
      if name.None? && here && Takes(Toml, line) {
        var put := Stamped(Toml, v, line);
        StampedLine(Toml, v, line);
        StampNamesNothing(v, line);
        SectionSteps(section, w, put, rest, here);
      } else {
        SectionReadsBack(section, v, w, rest, next);
        SectionSteps(section, w, line, RewriteIn(section, v, rest, next), here);
        TomlReaderIsWriter(line);
      }
    }
  }

  // Only lines of the named table that carry a version change, and of those
  // the first.
  lemma {:induction false} SectionKeepsOthers(section: string, v: string, lines: seq<string>, here: bool)
    ensures var r := RewriteIn(section, v, lines, here);
      && |r| == |lines|
      && (forall i, j :: 0 <= i < j < |lines| ==> r[i] == lines[i] || r[j] == lines[j])
      && (forall i :: 0 <= i < |lines| ==> r[i] == lines[i] || (Takes(Toml, lines[i]) && r[i] == Stamped(Toml, v, lines[i])))
  {
    if lines != [] {
      var line, rest := lines[0], lines[1..];
      assert lines == [line] + rest;
      var name := TableName(line);
      SectionSteps(section, v, line, rest, here);
      hide TableName, Takes, Stamped, RewriteIn;
      if !(name.None? && here && Takes(Toml, line)) {
        SectionKeepsOthers(section, v, rest, if name.Some? then name.value == section else here);
      }
    }
  }
}
