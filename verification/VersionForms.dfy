// What the lines and files that carry the version look like, written out.
module VersionForms {
  import opened Characters
  import opened Wrappers
  import opened LineText
  import opened VersionScan
  import opened VersionSurfaces
  import opened VersionFiles
  import opened VersionHeader
  import opened VersionLockstep
  import Sequences

  // ---- The lines a writer takes ----

  // The line is pad, the key and the rest.
  predicate IsKeyLine(line: string, pad: string, key: string, rest: string) {
    line == pad + key + rest
  }

  // White space and then a digit.
  predicate NumberFollows(rest: string, pad: string) {
    |pad| < |rest| && pad <= rest && AllSpace(pad) && '0' <= rest[|pad|] <= '9'
  }

  ghost predicate HasNumber(rest: string) {
    exists space :: NumberFollows(rest, space)
  }

  // meson.build: blanks and "version:"; CMakeLists.txt: blanks, "VERSION " and
  // a number; the TOML files: any white space and an opened string.
  lemma TakesExactlyWhen(line: string)
    ensures Takes(Meson, line) <==> exists pad, rest :: AllBlank(pad) && IsKeyLine(line, pad, "version:", rest)
    ensures Takes(Cmake, line) <==> exists pad, rest ::
      AllBlank(pad) && IsKeyLine(line, pad, "VERSION ", rest) && HasNumber(rest)
    ensures Takes(Toml, line) <==> exists pad, rest :: AllSpace(pad) && IsKeyLine(line, pad, "version = \"", rest)
  {
    MesonTakes(line);
    CmakeTakesWhen(line);
    TomlTakesWhen(line);
  }

  // Leading blanks and what follows them.
  lemma {:induction false} BlanksOff(s: string) returns (pad: string)
    ensures AllBlank(pad) && s == pad + TrimBlanks(s)
  {
    if s != "" && IsBlank(s[0]) {
      var rest := BlanksOff(s[1..]);
      pad := [s[0]] + rest;
      assert s == [s[0]] + s[1..];
      assert TrimBlanks(s) == TrimBlanks(s[1..]);
      hide TrimBlanks, IsBlank;
      Sequences.Assoc([s[0]], rest, TrimBlanks(s[1..]));
    } else {
      pad := "";
    }
  }

  lemma BlankKeyLine(line: string, key: string) returns (pad: string, rest: string)
    requires key != "" && !IsBlank(key[0])
    ensures key <= TrimBlanks(line) ==> AllBlank(pad) && IsKeyLine(line, pad, key, rest) && rest == TrimBlanks(line)[|key|..]
    ensures forall p, r :: AllBlank(p) && IsKeyLine(line, p, key, r) ==> key <= TrimBlanks(line) && TrimBlanks(line)[|key|..] == r
  {
    pad := BlanksOff(line);
    var t := TrimBlanks(line);
    rest := if key <= t then t[|key|..] else "";
    if key <= t {
      assert t == key + rest;
      assert pad + (key + rest) == pad + key + rest;
    }
    forall p, r | AllBlank(p) && IsKeyLine(line, p, key, r)
      ensures key <= TrimBlanks(line) && TrimBlanks(line)[|key|..] == r
    {
      SkipBlanks(p, key + r);
      assert p + (key + r) == p + key + r;
    }
  }

  lemma MesonTakes(line: string)
    ensures Takes(Meson, line) <==> exists pad, rest :: AllBlank(pad) && IsKeyLine(line, pad, "version:", rest)
  {
    var pad, rest := BlankKeyLine(line, "version:");
    hide TrimBlanks;
  }

  lemma CmakeTakesWhen(line: string)
    ensures Takes(Cmake, line) <==> exists pad, rest ::
      AllBlank(pad) && IsKeyLine(line, pad, "VERSION ", rest) && HasNumber(rest)
  {
    var pad, rest := BlankKeyLine(line, "VERSION ");
    var t := TrimBlanks(line);
    if "VERSION " <= t {
      NumberFirst(t[8..]);
    }
    hide TrimBlanks, FirstWord, HasNumber, IsKeyLine;
  }

  // The first word starts with a digit when a digit is the first thing that
  // is not white space.
  lemma NumberFirst(rest: string)
    ensures StartsWithDigit(FirstWord(rest)) <==> HasNumber(rest)
  {
    TrimStartParts(rest);
    var t := TrimStart(rest);
    if StartsWithDigit(FirstWord(rest)) {
      var space := Indent(rest);
      assert rest == space + t && rest[|space|] == t[0];
      assert NumberFollows(rest, space);
    }
    forall space | NumberFollows(rest, space)
      ensures StartsWithDigit(FirstWord(rest))
    {
      var tail := rest[|space|..];
      assert rest == space + tail && tail[0] == rest[|space|];
      SkipSpace(space, tail);
    }
  }

  // Trimming the end does not reach a key that ends in no white space.
  lemma {:induction false} EndLeavesKey(key: string, t: string)
    requires key != "" && !IsSpace(key[|key| - 1])
    ensures key <= TrimEnd(t) <==> key <= t
  {
    if t != "" && IsSpace(t[|t| - 1]) {
      var front := t[..|t| - 1];
      EndLeavesKey(key, front);
      if key <= t {
        assert |key| < |t|;
        assert key == t[..|key|] == front[..|key|];
      }
      if key <= front {
        assert key == front[..|key|] == t[..|key|];
      }
    }
  }

  // A key line with white space in front, seen from its trimmed start.
  lemma SpaceKeyLine(line: string, key: string) returns (pad: string, rest: string)
    requires key != "" && !IsSpace(key[0])
    ensures key <= TrimStart(line) ==> AllSpace(pad) && IsKeyLine(line, pad, key, rest)
    ensures forall p, r :: AllSpace(p) && IsKeyLine(line, p, key, r) ==> key <= TrimStart(line)
  {
    TrimStartParts(line);
    var t := TrimStart(line);
    pad, rest := Indent(line), if key <= t then t[|key|..] else "";
    if key <= t {
      assert t == key + rest;
      assert pad + (key + rest) == pad + key + rest;
    }
    forall p, r | AllSpace(p) && IsKeyLine(line, p, key, r)
      ensures key <= t
    {
      assert p + (key + r) == p + key + r;
      SkipSpace(p, key + r);
    }
  }

  lemma TomlTakesWhen(line: string)
    ensures Takes(Toml, line) <==> exists pad, rest :: AllSpace(pad) && IsKeyLine(line, pad, "version = \"", rest)
  {
    var pad, rest := SpaceKeyLine(line, "version = \"");
    EndLeavesKey("version = \"", TrimStart(line));
    hide TrimStart, TrimEnd, IsKeyLine;
  }

  // ---- Whole files ----

  // A file of this kind that carries v and nothing else.
  function OwnText(f: File, v: string): string {
    match f
    case MESON_BUILD => "version: '" + v + "',\n"
    case CMAKE_LISTS => "VERSION " + v + "\n"
    case TOWNCRIER => "version = \"" + v + "\"\n"
    case CARGO_TOML => "version = \"" + v + "\"\n"
    case PIXI_TOML => "[workspace]\n" + ("version = \"" + v + "\"\n")
    case PYPROJECT => "[project]\n" + ("version = \"" + v + "\"\n")
    case HEADER => "#define RGPOT_VERSION \"" + v + "\"\n"
  }

  lemma NamesOfTables()
    ensures IsTableName("workspace") && IsTableName("project")
    ensures "[" + "workspace" + "]\n" == "[workspace]\n" && "[" + "project" + "]\n" == "[project]\n"
  {
  }

  lemma TextOfSurface(v: string)
    ensures OwnForm(Meson, v) + "\n" == "version: '" + v + "',\n"
    ensures OwnForm(Cmake, v) + "\n" == "VERSION " + v + "\n"
    ensures OwnForm(Toml, v) + "\n" == "version = \"" + v + "\"\n"
  {
    assert "'," + "\n" == "',\n" && "\"" + "\n" == "\"\n";
    Sequences.Assoc("version: '" + v, "',", "\n");
    Sequences.Assoc("version = \"" + v, "\"", "\n");
  }

  lemma OneLineText(line: string)
    requires IsSegment(line)
    ensures Lines(line) == [line] && Join([line]) == line
  {
    assert [line][1..] == [] && Join([line]) == line + "" == line;
    JoinLines([line]);
  }

  lemma LineFile(u: Surface, v: string, w: string)
    requires Fits(u, v) && Fits(u, w)
    ensures Read(u, Lines(OwnForm(u, v) + "\n")) == Some(v)
    ensures Written(u, w, OwnForm(u, v) + "\n") == OwnForm(u, w) + "\n"
  {
    var line, put := OwnForm(u, v) + "\n", OwnForm(u, w) + "\n";
    OwnLine(u, v, w);
    OwnLine(u, v, v);
    OneLineText(line);
    OneLineText(put);
    StampedLine(u, v, line);
    hide Takes, Value, Stamped, OwnForm, Lines, Join, Fits, IsSegment;
    assert [line] == [line] + [] && [line][1..] == [];
    assert Rewrite(u, w, [line]) == [put] + [];
    assert [put] + [] == [put];
  }

  // ---- Tables ----

  predicate IsTableName(name: string) {
    Solid(name) && name[0] != '[' && '\n' !in name && '\r' !in name
  }

  // "[name]" and "[[name]]" name a table, also with white space around; a line
  // that does not begin with a bracket does not.
  lemma TableNames(name: string, pad: string, end: string, line: string)
    requires IsTableName(name) && AllSpace(pad) && AllSpace(end)
    ensures TableName(pad + ("[" + name + "]") + end) == Some(name)
    ensures TableName(pad + ("[[" + name + "]]") + end) == Some(name)
    ensures Trim(line) == "" || Trim(line)[0] != '[' ==> TableName(line) == None
  {
    var one, two := "[" + name + "]", "[[" + name + "]]";
    TrimPadded(pad, one, end);
    TrimPadded(pad, two, end);
    TrimSolid(name);
    assert one[1..|one| - 1] == name;
    assert two[1..|two| - 1] == "[" + name + "]";
    assert ("[" + name + "]")[1..|name| + 1] == name;
    hide Trim;
  }

  // The line is x in single or double brackets.
  predicate IsHead(line: string, x: string) {
    (Trim(line) == "[" + x + "]" && (x == "" || x[0] != '[')) || Trim(line) == "[[" + x + "]]"
  }

  // A line names a table exactly when it is such a head; white space inside
  // the brackets does not count either.
  lemma TableNameExactlyWhen(line: string, name: string)
    ensures TableName(line) == Some(name) <==> exists x :: IsHead(line, x) && Trim(x) == name
  {
    if TableName(line) == Some(name) {
      var x := HeadOfName(line);
      assert IsHead(line, x) && Trim(x) == name;
    } else if x :| IsHead(line, x) && Trim(x) == name {
      NamedByHead(line, x);
    }
  }

  lemma HeadOfName(line: string) returns (x: string)
    requires TableName(line).Some?
    ensures IsHead(line, x) && Trim(x) == TableName(line).value
  {
    var s := Trim(line);
    hide Trim;
    assert NameOf(s).Some?;
    x := s[1..|s| - 1];
    assert s == [s[0]] + x + [s[|s| - 1]];
    assert s == "[" + x + "]";
    if x != "" && x[0] == '[' {
      var inner := x[1..|x| - 1];
      assert x == [x[0]] + inner + [x[|x| - 1]];
      assert x == "[" + inner + "]";
      assert s == "[[" + inner + "]]";
      x := inner;
    }
  }

  lemma NamedByHead(line: string, x: string)
    requires IsHead(line, x)
    ensures TableName(line) == Some(Trim(x))
  {
    var s := Trim(line);
    hide Trim;
    if s == "[" + x + "]" && (x == "" || x[0] != '[') {
      assert s[1..|s| - 1] == x;
    } else {
      assert s[1..|s| - 1] == "[" + x + "]";
      assert ("[" + x + "]")[1..|x| + 1] == x;
    }
  }

  lemma TrimSolid(s: string)
    requires Solid(s)
    ensures Trim(s) == s
  {
    TrimPadded("", s, "");
    assert "" + s + "" == s;
  }

  // In a file of one table the version is the package's exactly when the table
  // is the one looked for; else it is neither read nor written.
  lemma TableFile(section: string, name: string, v: string, w: string)
    requires IsTableName(name) && Fits(Toml, v) && Fits(Toml, w)
    ensures var text := ("[" + name + "]\n") + (OwnForm(Toml, v) + "\n");
      && ReadIn(section, Lines(text), false) == (if name == section then Some(v) else None)
      && Join(RewriteIn(section, w, Lines(text), false))
         == ("[" + name + "]\n") + (OwnForm(Toml, if name == section then w else v) + "\n")
  {
    var head, line, put := "[" + name + "]\n", OwnForm(Toml, v) + "\n", OwnForm(Toml, w) + "\n";
    HeadLine(name);
    OwnLine(Toml, v, w);
    OwnLine(Toml, v, v);
    StampedLine(Toml, v, line);
    VersionLine(v);
    LinesOfTwo(head, line);
    LinesOfTwo(head, put);
    hide TableName, Takes, Value, Stamped, OwnForm, Lines, Join, Fits, IsSegment, Trim, DropEol, Line, Key;
    var both := [head, line];
    assert both[1..] == [line] && [line][1..] == [];
    assert RewriteIn(section, w, both, false) == [head] + RewriteIn(section, w, [line], name == section);
    assert RewriteIn(section, w, [line], true) == [put] + [] && RewriteIn(section, w, [line], false) == [line] + [];
    assert [head] + ([put] + []) == [head, put] && [head] + ([line] + []) == both;
    assert ReadIn(section, both, false) == ReadIn(section, [line], name == section);
    assert ReadIn(section, [line], false) == ReadIn(section, [], false) == None;
  }

  lemma WithoutFeed(s: string)
    requires s != "" && s[|s| - 1] != '\r' && s[|s| - 1] != '\n'
    ensures DropEol(s + "\n") == s && Line(s + "\n") == s
  {
    var line := s + "\n";
    assert line[..|line| - 1] == s && DropEol(s) == s;
  }

  lemma HeadIsSegment(name: string)
    requires '\n' !in name
    ensures IsSegment("[" + name + "]\n") && Ended("[" + name + "]\n")
    ensures "[" + name + "]\n" == ("[" + name + "]") + "\n"
  {
    var head := "[" + name + "]\n";
    assert forall i :: 0 <= i < |name| ==> head[i + 1] == name[i] && name[i] in name;
  }

  lemma HeadLine(name: string)
    requires IsTableName(name)
    ensures var head := "[" + name + "]\n";
      && IsSegment(head) && Ended(head)
      && TableName(Line(head)) == Some(name) && TableName(DropEol(head)) == Some(name)
  {
    var s := "[" + name + "]";
    assert '\n' !in name && AllSpace("");
    HeadIsSegment(name);
    assert s[|s| - 1] == ']';
    hide *;
    WithoutFeed(s);
    TableNames(name, "", "", "");
    assert "" + s + "" == s;
  }

  lemma VersionLine(v: string)
    requires Fits(Toml, v)
    ensures var line := OwnForm(Toml, v) + "\n";
      TableName(Line(line)) == None && TableName(DropEol(line)) == None && Key(Toml) <= Trim(DropEol(line))
  {
    var s, line := OwnForm(Toml, v), OwnForm(Toml, v) + "\n";
    OwnSolid(Toml, v);
    OwnFormIsStamp(Toml, v);
    StampIsSolid(Toml, v);
    assert line[..|line| - 1] == s;
    TrimSolid(s);
    hide Stamp, OwnForm;
    assert DropEol(line) == DropEol(s) == s && Line(line) == s;
    assert NameOf(s) == None;
  }

  // ---- The header ----

  // The four macros, written out: the text of a define, whatever it was, is
  // replaced by its part of the version.
  lemma MacroLine(v: string, m: Macro, rest: string, e: string)
    requires IsVersion(v) && !m.Other? && rest != "" && Clean(rest) && IsEol(e)
    ensures m.Major? ==> Rewritten(v, "#define RGPOT_VERSION_MAJOR " + rest + e)
                         == "#define RGPOT_VERSION_MAJOR " + Number(v, m) + e
    ensures m.Minor? ==> Rewritten(v, "#define RGPOT_VERSION_MINOR " + rest + e)
                         == "#define RGPOT_VERSION_MINOR " + Number(v, m) + e
    ensures m.Patch? ==> Rewritten(v, "#define RGPOT_VERSION_PATCH " + rest + e)
                         == "#define RGPOT_VERSION_PATCH " + Number(v, m) + e
    ensures m.Full? ==> Rewritten(v, "#define RGPOT_VERSION " + rest + e) == "#define RGPOT_VERSION " + Number(v, m) + e
  {
    var body := Define(m) + rest;
    BodyIsClean(m, rest);
    PutLine(body, e);
    DefineIsItself(m, rest);
    RewrittenIs(v, body + e, m);
    hide Rewritten, Number, MacroOf, TrimStart, Line, LineEol;
  }

  // White space in front of a macro: the writer drops it, and the reader takes
  // the quoted text behind it all the same.
  lemma IndentedMacro(v: string, m: Macro, pad: string, rest: string, e: string)
    requires !m.Other? && AllSpace(pad) && '\n' !in pad && rest != "" && Clean(rest) && IsEol(e)
    ensures Rewritten(v, pad + (Define(m) + rest) + e) == Define(m) + Number(v, m) + e
    ensures m.Full? ==> HeaderValue(pad + (Define(m) + rest) + e) == Between(rest, '"')
  {
    var body := Define(m) + rest;
    var padded := pad + body;
    BodyIsClean(m, rest);
    DefineIsItself(m, rest);
    assert body[0] == '#' && body[|Define(m)|..] == rest;
    hide Define, TrimStart, Line, LineEol, Number, MacroOf, Between;
    assert padded[|padded| - 1] == body[|body| - 1];
    PutLine(padded, e);
    SkipSpace(pad, body);
    RewrittenIs(v, padded + e, m);
  }

  lemma OneLineHeader(v: string, w: string, line: string, put: string)
    requires IsSegment(line) && IsSegment(put) && HeaderValue(line) == Some(v) && Rewritten(w, line) == put
    ensures ReadHeader(Lines(line)) == Some(v) && Join(RewriteAll(w, Lines(line))) == put
  {
    OneLineText(line);
    OneLineText(put);
    assert [line][1..] == [] && RewriteAll(w, []) == [];
    assert RewriteAll(w, [line]) == [put] + [] == [put];
    hide Rewritten, HeaderValue, Lines, Join;
  }

  lemma FullLine(v: string)
    requires IsVersion(v)
    ensures var line := "#define RGPOT_VERSION \"" + v + "\"\n";
      && line == "#define RGPOT_VERSION " + ("\"" + v + "\"") + "\n" && IsSegment(line)
      && "\"" + v + "\"" != "" && Clean("\"" + v + "\"")
  {
    var i: nat, j: nat, k: nat :| IsVersionAt(v, i, j, k);
    VersionIsText(v, i, j, k);
    VersionIsClean(v);
    CleanQuoted(v);
    var q := "\"" + v + "\"";
    assert "#define RGPOT_VERSION \"" == "#define RGPOT_VERSION " + "\"";
    assert "#define RGPOT_VERSION " + q + "\n" == "#define RGPOT_VERSION \"" + v + "\"\n";
    BodyIsClean(Full, q);
  }

  lemma FullLineWritten(v: string, w: string)
    requires IsVersion(v) && IsVersion(w)
    ensures Rewritten(w, "#define RGPOT_VERSION \"" + v + "\"\n") == "#define RGPOT_VERSION \"" + w + "\"\n"
  {
    FullLine(v);
    FullLine(w);
    MacroLine(w, Full, "\"" + v + "\"", "\n");
    assert Number(w, Full) == "\"" + w + "\"";
    hide *;
  }

  lemma FullLineRead(v: string)
    requires IsVersion(v)
    ensures HeaderValue("#define RGPOT_VERSION \"" + v + "\"\n") == Some(v)
  {
    var line := "#define RGPOT_VERSION \"" + v + "\"\n";
    FullLine(v);
    FullLineWritten(v, v);
    DefineIsItself(Full, "\"" + v + "\"");
    PutLine(Define(Full) + ("\"" + v + "\""), "\n");
    RewrittenLine(v, v, line);
    hide *;
  }

  lemma HeaderFile(v: string, w: string)
    requires IsVersion(v) && IsVersion(w)
    ensures ReadHeader(Lines("#define RGPOT_VERSION \"" + v + "\"\n")) == Some(v)
    ensures Join(RewriteAll(w, Lines("#define RGPOT_VERSION \"" + v + "\"\n"))) == "#define RGPOT_VERSION \"" + w + "\"\n"
  {
    hide *;
    FullLine(v);
    FullLine(w);
    FullLineRead(v);
    FullLineWritten(v, w);
    OneLineHeader(v, w, "#define RGPOT_VERSION \"" + v + "\"\n", "#define RGPOT_VERSION \"" + w + "\"\n");
  }

  predicate InItsForm(f: File, v: string, w: string) {
    && ReadFrom(f, OwnText(f, v)) == Some(v)
    && WrittenTo(f, w, OwnText(f, v)) == OwnText(f, w)
  }

  lemma FileOfLines(f: File, u: Surface, v: string, w: string)
    requires KindOf(f) == FirstLine(u) && Fits(u, v) && Fits(u, w)
    requires OwnText(f, v) == OwnForm(u, v) + "\n" && OwnText(f, w) == OwnForm(u, w) + "\n"
    ensures InItsForm(f, v, w)
  {
    hide OwnText, OwnForm, Read, Lines, Written, Fits;
    LineFile(u, v, w);
  }

  lemma FileOfTable(f: File, section: string, v: string, w: string)
    requires KindOf(f) == Table(section) && IsTableName(section) && Fits(Toml, v) && Fits(Toml, w)
    requires OwnText(f, v) == ("[" + section + "]\n") + (OwnForm(Toml, v) + "\n")
    requires OwnText(f, w) == ("[" + section + "]\n") + (OwnForm(Toml, w) + "\n")
    ensures InItsForm(f, v, w)
  {
    hide OwnText, OwnForm, ReadIn, RewriteIn, Lines, Join, Fits, IsTableName;
    TableFile(section, section, v, w);
  }

  lemma FileOfMacros(v: string, w: string)
    requires IsVersion(v) && IsVersion(w)
    ensures InItsForm(HEADER, v, w)
  {
    var line, put := "#define RGPOT_VERSION \"" + v + "\"\n", "#define RGPOT_VERSION \"" + w + "\"\n";
    assert OwnText(HEADER, v) == line && OwnText(HEADER, w) == put;
    hide *;
    HeaderFile(v, w);
    MacrosInForm(v, w, line, put);
  }

  lemma MacrosInForm(v: string, w: string, line: string, put: string)
    requires OwnText(HEADER, v) == line && OwnText(HEADER, w) == put
    requires ReadHeader(Lines(line)) == Some(v) && Join(RewriteAll(w, Lines(line))) == put
    ensures InItsForm(HEADER, v, w)
  {
    hide OwnText, ReadHeader, RewriteAll, Lines, Join;
  }

  // Each of the seven files is read and written in its own form.
  lemma EachInItsForm(f: File, v: string, w: string)
    requires IsVersion(v) && IsVersion(w)
    ensures ReadFrom(f, OwnText(f, v)) == Some(v)
    ensures WrittenTo(f, w, OwnText(f, v)) == OwnText(f, w)
  {
    VersionFits(v);
    VersionFits(w);
    NamesOfTables();
    TextOfSurface(v);
    TextOfSurface(w);
    hide IsVersion, IsTableName, OwnForm, Fits, ReadFrom, WrittenTo;
    match f {
      case MESON_BUILD => FileOfLines(f, Meson, v, w);
      case CMAKE_LISTS => FileOfLines(f, Cmake, v, w);
      case TOWNCRIER => FileOfLines(f, Toml, v, w);
      case CARGO_TOML => FileOfLines(f, Toml, v, w);
      case PIXI_TOML => FileOfTable(f, "workspace", v, w);
      case PYPROJECT => FileOfTable(f, "project", v, w);
      case HEADER => FileOfMacros(v, w);
    }
  }

  lemma VersionFits(v: string)
    requires IsVersion(v)
    ensures Fits(Meson, v) && Fits(Cmake, v) && Fits(Toml, v)
  {
    var i: nat, j: nat, k: nat :| IsVersionAt(v, i, j, k);
    VersionIsText(v, i, j, k);
  }

  // What the four macros get.
  lemma MacroNumbers(v: string, i: nat, j: nat, k: nat)
    requires IsVersionAt(v, i, j, k)
    ensures Number(v, Major) == v[..i] && Number(v, Minor) == v[i + 1..j] && Number(v, Patch) == v[j + 1..k]
    ensures Number(v, Full) == "\"" + v + "\""
  {
    PartsOfVersion(v, i, j, k);
  }
}
