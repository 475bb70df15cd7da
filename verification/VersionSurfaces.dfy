// The files that carry the version: for each, which line the writer takes,
// what it puts there, and what the reader finds.
module VersionSurfaces {
  import opened Characters
  import opened Wrappers
  import opened LineText
  import Sequences
  import opened VersionScan

  // meson.build, CMakeLists.txt, and the TOML files with one version line.
  datatype Surface = Meson | Cmake | Toml

  function Key(u: Surface): string {
    match u case Meson => "version:" case Cmake => "VERSION " case Toml => "version = \""
  }

  function StartsWithDigit(s: string): bool {
    s != "" && IsDigit(s[0])
  }

  // ---- One line ----

  // The line the writer replaces.
  predicate Takes(u: Surface, line: string) {
    match u
    case Meson => Key(Meson) <= TrimBlanks(line)
    case Cmake => Key(Cmake) <= TrimBlanks(line) && StartsWithDigit(FirstWord(TrimBlanks(line)[|Key(Cmake)|..]))
    case Toml => Key(Toml) <= Trim(line)
  }

  // What it puts between indent and line ending.
  function Stamp(u: Surface, version: string): string {
    match u
    case Meson => "version: " + ['\''] + version + ['\''] + ","
    case Cmake => "VERSION " + version
    case Toml => "version = " + ['"'] + version + ['"'] + ""
  }

  function Stamped(u: Surface, version: string, line: string): string {
    Indent(DropEol(line)) + Stamp(u, version) + LineEol(line)
  }

  // The version the reader finds on a line.
  function Value(u: Surface, line: string): Option<string> {
    var s := Trim(Line(line));
    match u
    case Meson => if Key(Meson) <= s then Between(s, '\'') else None
    case Cmake =>
      if Key(Cmake) <= s && StartsWithDigit(FirstWord(s[|Key(Cmake)|..])) then Some(FirstWord(s[|Key(Cmake)|..]))
      else None
    case Toml => if Key(Toml) <= s then Between(s, '"') else None
  }

  // A version as the writers are given it.
  predicate IsVersionText(v: string) {
    v != "" && forall i :: 0 <= i < |v| ==> IsTailChar(v[i])
  }

  // On the CMake surface both sides look for a number.
  predicate Fits(u: Surface, v: string) {
    IsVersionText(v) && (u.Cmake? ==> StartsWithDigit(v))
  }

  lemma TailCharIsSolid(c: char)
    requires IsTailChar(c)
    ensures !IsSpace(c) && c != '\'' && c != '"' && c != '\r' && c != '\n'
  {
  }

  lemma VersionIsSolid(v: string)
    requires IsVersionText(v)
    ensures forall i :: 0 <= i < |v| ==> !IsSpace(v[i])
    ensures '\'' !in v && '"' !in v
    ensures Solid(v) && v[|v| - 1] != '\r' && v[|v| - 1] != '\n'
  {
    forall i | 0 <= i < |v|
      ensures !IsSpace(v[i]) && v[i] != '\'' && v[i] != '"' && v[i] != '\r' && v[i] != '\n'
    {
      TailCharIsSolid(v[i]);
    }
  }

  lemma StampIsSolid(u: Surface, v: string)
    requires IsVersionText(v)
    ensures Solid(Stamp(u, v)) && Key(u) <= Stamp(u, v) && !IsSpace(Key(u)[0]) && !IsBlank(Key(u)[0])
    ensures var s := Stamp(u, v);
      s != "" && s[|s| - 1] != '\r' && s[|s| - 1] != '\n' && '\n' !in s && s[0] != '[' && !IsBlank(s[0])
  {
    VersionIsSolid(v);
    StampIsOneLine(u, v);
    hide IsVersionText;
    match u {
      case Meson => assert Stamp(u, v)[..8] == "version:";
      case Cmake => assert Stamp(u, v)[..8] == "VERSION ";
      case Toml => assert Stamp(u, v)[..11] == "version = \"";
    }
  }

  lemma StampIsOneLine(u: Surface, v: string)
    requires IsVersionText(v)
    ensures '\n' !in Stamp(u, v)
  {
    VersionIsSolid(v);
    assert '\n' !in v;
    match u {
      case Meson => NoneInEither("version: " + ['\''], v + ['\''] + ",");
      case Cmake => NoneInEither("VERSION ", v);
      case Toml => NoneInEither("version = " + ['"'], v + ['"'] + "");
    }
  }

  lemma NoneInEither(a: string, b: string)
    requires '\n' !in a && '\n' !in b
    ensures '\n' !in a + b
  {
  }

  // The reader on a stamp.
  lemma StampValue(u: Surface, v: string)
    requires Fits(u, v)
    ensures var s := Stamp(u, v);
      match u
      case Meson => Between(s, '\'') == Some(v)
      case Cmake => FirstWord(s[|Key(Cmake)|..]) == v
      case Toml => Between(s, '"') == Some(v)
  {
    VersionIsSolid(v);
    match u {
      case Meson => BetweenQuotes("version: ", v, ",", '\'');
      case Cmake => CmakeWord(v);
      case Toml => BetweenQuotes("version = ", v, "", '"');
    }
  }

  // The line endings there are.
  predicate IsEol(e: string) {
    e == "" || e == "\n" || e == "\r\n"
  }

  lemma LineEolIsEol(line: string)
    ensures IsEol(LineEol(line)) && AllSpace(LineEol(line))
    ensures Ended(line) <==> LineEol(line) != ""
  {
  }

  lemma EolOfStamped(pad: string, s: string, e: string)
    requires IsEol(e) && s != "" && s[|s| - 1] != '\r' && s[|s| - 1] != '\n'
    ensures LineEol(pad + s + e) == e && Ended(pad + s + e) == (e != "")
  {
    var t := pad + s + e;
    if e == "\r\n" {
      assert t[|t| - 2..] == e;
    } else if e == "\n" {
      assert t[|t| - 2] == s[|s| - 1] && t[|t| - 2..][0] == t[|t| - 2];
    } else {
      assert t[|t| - 1] == s[|s| - 1];
    }
  }

  // A taken line: its indent is space in front of a key.
  lemma TakenIndent(u: Surface, line: string)
    requires Takes(u, line) && IsSegment(line)
    ensures Indent(DropEol(line)) == Indent(line) && AllSpace(Indent(line)) && '\n' !in Indent(line)
    ensures !u.Toml? ==> AllBlank(Indent(line))
  {
    StampIsSolid(u, "0");
    TrimStartParts(line);
    if u.Toml? {
      assert Trim(line) != "";
    } else {
      var t := TrimBlanks(line);
      assert t[0] == Key(u)[0];
      BlanksAreIndent(line);
    }
    IndentDropEol(line);
    var pad, t := Indent(line), TrimStart(line);
    assert forall i :: 0 <= i < |pad| ==> line[i] == pad[i];
  }

  // What is known of the line put in place of a taken one.
  lemma StampedParts(u: Surface, v: string, line: string)
    requires Takes(u, line) && IsSegment(line) && IsVersionText(v)
    ensures var put := Stamped(u, v, line);
      && put == Indent(line) + Stamp(u, v) + LineEol(line)
      && Trim(put) == Stamp(u, v) && Trim(Line(put)) == Stamp(u, v) && Trim(DropEol(put)) == Stamp(u, v)
      && Indent(put) == Indent(line) && Indent(DropEol(put)) == Indent(line) && LineEol(put) == LineEol(line)
      && IsSegment(put) && Ended(put) == Ended(line)
  {
    hide *;
    var pad, s, e := Indent(line), Stamp(u, v), LineEol(line);
    var put := Stamped(u, v, line);
    TakenIndent(u, line);
    StampedIs(u, v, line);
    StampIsSolid(u, v);
    LineEolIsEol(line);
    TrimPadded(pad, s, e);
    TrimLine(put);
    TrimDropEol(put);
    EolOfStamped(pad, s, e);
    SolidNotEmpty(s, e);
    IndentDropEol(put);
    OneLine(pad, s, e);
  }

  lemma StampedIs(u: Surface, v: string, line: string)
    ensures Stamped(u, v, line) == Indent(DropEol(line)) + Stamp(u, v) + LineEol(line)
  {
  }

  lemma SolidNotEmpty(s: string, e: string)
    requires Solid(s)
    ensures s != "" && s + e != ""
  {
  }

  lemma OneLine(pad: string, s: string, e: string)
    requires '\n' !in pad && '\n' !in s && IsEol(e) && s != ""
    ensures IsSegment(pad + s + e)
  {
    var t := pad + s + e;
    forall i | 0 <= i < |t| - 1
      ensures t[i] != '\n'
    {
      if i < |pad| {
        assert t[i] == pad[i];
      } else if i < |pad| + |s| {
        assert t[i] == s[i - |pad|];
      }
    }
  }

  // The reader finds the version on the new line, and a writer takes the
  // line again and leaves the same behind as on the old one.
  lemma StampedLine(u: Surface, v: string, line: string)
    requires Takes(u, line) && IsSegment(line) && Fits(u, v)
    ensures Value(u, Stamped(u, v, line)) == Some(v)
    ensures Takes(u, Stamped(u, v, line))
    ensures forall w :: Stamped(u, w, Stamped(u, v, line)) == Stamped(u, w, line)
  {
    var put := Stamped(u, v, line);
    StampedParts(u, v, line);
    StampIsSolid(u, v);
    StampValue(u, v);
    TakenIndent(u, line);
    if !u.Toml? {
      BlankStamp(u, v, line);
    }
    hide Trim, Line, DropEol, LineEol, Indent, TrimBlanks, Between, FirstWord, Stamp;
  }

  lemma BlankStamp(u: Surface, v: string, line: string)
    requires Takes(u, line) && IsSegment(line) && Fits(u, v) && !u.Toml?
    ensures Takes(u, Stamped(u, v, line))
  {
    assert IsVersionText(v);
    hide *;
    var pad, s, e := Indent(line), Stamp(u, v), LineEol(line);
    StampedParts(u, v, line);
    StampIsSolid(u, v);
    TakenIndent(u, line);
    Sequences.Assoc(pad, s, e);
    StampStartsBlank(pad, s, e);
    LineEolIsEol(line);
    BlankTakes(u, v, Stamped(u, v, line), e);
  }

  lemma StampStartsBlank(pad: string, s: string, e: string)
    requires AllBlank(pad) && s != "" && !IsBlank(s[0])
    ensures TrimBlanks(pad + (s + e)) == s + e
  {
    SkipBlanks(pad, s + e);
  }

  lemma BlankTakes(u: Surface, v: string, line: string, e: string)
    requires !u.Toml? && Fits(u, v) && IsEol(e) && TrimBlanks(line) == Stamp(u, v) + e
    ensures Takes(u, line)
  {
    SpaceAfterStamp(u, v, line);
  }

  // White space behind a stamp does not keep a line from being taken.
  lemma SpaceAfterStamp(u: Surface, v: string, line: string)
    requires !u.Toml? && Fits(u, v)
    requires var t, n := TrimBlanks(line), |Stamp(u, v)|;
      n <= |t| && t[..n] == Stamp(u, v) && AllSpace(t[n..])
    ensures Takes(u, line)
  {
    var t, s := TrimBlanks(line), Stamp(u, v);
    var e := t[|s|..];
    StampIsSolid(u, v);
    hide TrimBlanks, Stamp;
    KeyFirst(t, s, Key(u));
    if u.Cmake? {
      StampOfCmake(v);
      assert t == s + e;
      assert t[8..] == v + e;
      VersionWord(v, e);
    }
  }

  lemma KeyFirst(t: string, s: string, key: string)
    requires |s| <= |t| && t[..|s|] == s && key <= s
    ensures key <= t
  {
    assert t[..|key|] == t[..|s|][..|key|];
  }

  lemma StampOfCmake(v: string)
    ensures Stamp(Cmake, v) == "VERSION " + v && |"VERSION "| == 8
  {
  }

  lemma VersionWord(v: string, e: string)
    requires IsVersionText(v) && AllSpace(e)
    ensures FirstWord(v + e) == v
  {
    VersionIsSolid(v);
    assert TrimStart(v + e) == v + e;
    WordBefore(v, e);
  }

  // The form the files of the repository are in.
  function OwnForm(u: Surface, v: string): string {
    match u
    case Meson => "version: '" + v + "',"
    case Cmake => "VERSION " + v
    case Toml => "version = \"" + v + "\""
  }

  // A line in that form is taken, and its own version leaves it as it is.
  lemma OwnFormStays(u: Surface, v: string, pad: string, e: string)
    requires AllBlank(pad) && IsEol(e) && Fits(u, v)
    ensures var line := pad + OwnForm(u, v) + e; Takes(u, line) && Stamped(u, v, line) == line
  {
    assert AllSpace(pad) && AllSpace(e) && IsVersionText(v);
    hide *;
    var s, line := Stamp(u, v), pad + Stamp(u, v) + e;
    OwnFormIsStamp(u, v);
    StampIsSolid(u, v);
    StampedIs(u, v, line);
    SolidNotEmpty(s, e);
    TrimPadded(pad, s, e);
    EolOfStamped(pad, s, e);
    IndentDropEol(line);
    if !u.Toml? {
      Sequences.Assoc(pad, s, e);
      StampStartsBlank(pad, s, e);
      BlankTakes(u, v, line, e);
    } else {
      TomlTakes(v, line);
    }
  }

  lemma OwnFormIsStamp(u: Surface, v: string)
    ensures OwnForm(u, v) == Stamp(u, v)
  {
  }

  lemma TomlTakes(v: string, line: string)
    requires Trim(line) == Stamp(Toml, v) && Key(Toml) <= Stamp(Toml, v)
    ensures Takes(Toml, line)
  {
  }

  // A version that still begins with a v is written to CMakeLists.txt, and
  // then neither read nor found again.
  lemma CmakeNeedsDigit(v: string, line: string)
    requires Takes(Cmake, line) && IsSegment(line) && IsVersionText(v)
    ensures Value(Cmake, Stamped(Cmake, v, line)) == if StartsWithDigit(v) then Some(v) else None
  {
    StampedParts(Cmake, v, line);
    CmakeWord(v);
    hide Stamp, Stamped, Trim, Line, FirstWord, IsSegment;
  }

  lemma CmakeWord(v: string)
    requires IsVersionText(v)
    ensures Key(Cmake) <= Stamp(Cmake, v) && FirstWord(Stamp(Cmake, v)[|Key(Cmake)|..]) == v
  {
    var s := Stamp(Cmake, v);
    VersionIsSolid(v);
    assert s[8..] == v && s[..8] == "VERSION ";
    assert TrimStart(v) == v;
    WordBefore(v, "");
    assert v + "" == v;
  }

  // The TOML reader looks at no line the writer would not take.
  lemma TomlReaderIsWriter(line: string)
    ensures Value(Toml, line).Some? ==> Takes(Toml, line)
  {
    TrimLine(line);
  }
}
