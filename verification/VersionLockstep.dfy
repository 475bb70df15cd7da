// sync_versions and assert_lockstep: one version over all files of a tree.
module VersionLockstep {
  import opened Wrappers
  import opened LineText
  import opened VersionScan
  import opened VersionSurfaces
  import opened VersionFiles
  import opened VersionHeader

  datatype File = MESON_BUILD | CMAKE_LISTS | TOWNCRIER | CARGO_TOML | PIXI_TOML | PYPROJECT | HEADER

  // How each file is written and read.
  datatype Kind = FirstLine(surface: Surface) | Table(section: string) | Macros

  function KindOf(f: File): Kind {
    match f
    case MESON_BUILD => FirstLine(Meson)
    case CMAKE_LISTS => FirstLine(Cmake)
    case TOWNCRIER => FirstLine(Toml)
    case CARGO_TOML => FirstLine(Toml)
    case PIXI_TOML => Table("workspace")
    case PYPROJECT => Table("project")
    case HEADER => Macros
  }

  function WrittenTo(f: File, v: string, text: string): string {
    match KindOf(f)
    case FirstLine(u) => Written(u, v, text)
    case Table(section) => Join(RewriteIn(section, v, Lines(text), false))
    case Macros => Join(RewriteAll(v, Lines(text)))
  }

  function ReadFrom(f: File, text: string): Option<string> {
    match KindOf(f)
    case FirstLine(u) => Read(u, Lines(text))
    case Table(section) => ReadIn(section, Lines(text), false)
    case Macros => ReadHeader(Lines(text))
  }

  // The file has a place for the version, and no line before it that only
  // the reader takes says otherwise.
  predicate Ready(f: File, v: string, text: string) {
    match KindOf(f)
    case FirstLine(u) =>
      var lines := Lines(text);
      var earlier := Read(u, lines[..TakenAt(u, lines)]);
      earlier == Some(v) || (earlier.None? && TakenAt(u, lines) < |lines|)
    case Table(section) => HasVersion(section, Lines(text), false)
    case Macros => HasFull(Lines(text))
  }

  // Each file reads back the version written to it exactly when it is ready.
  lemma FileReadsBack(f: File, v: string, text: string)
    requires IsVersion(v)
    ensures ReadFrom(f, WrittenTo(f, v, text)) == Some(v) <==> Ready(f, v, text)
  {
    var i: nat, j: nat, k: nat :| IsVersionAt(v, i, j, k);
    VersionIsText(v, i, j, k);
    LinesJoin(text);
    var lines := Lines(text);
    match KindOf(f) {
      case FirstLine(u) => ReadsBackExactlyWhen(u, v, text);
      case Table(section) =>
        SectionLines(section, v, lines, false);
        SectionReadsBack(section, v, v, lines, false);
        JoinLines(RewriteIn(section, v, lines, false));
      case Macros =>
        HeaderReadsBack(v, v, lines);
        JoinLines(RewriteAll(v, lines));
    }
  }

  // A second version overwrites the first, in every file.
  lemma FileOverwritten(f: File, v: string, w: string, text: string)
    requires IsVersion(v)
    ensures WrittenTo(f, w, WrittenTo(f, v, text)) == WrittenTo(f, w, text)
  {
    var i: nat, j: nat, k: nat :| IsVersionAt(v, i, j, k);
    VersionIsText(v, i, j, k);
    LinesJoin(text);
    var lines := Lines(text);
    match KindOf(f) {
      case FirstLine(u) => SecondWriteOverwrites(u, v, w, text);
      case Table(section) =>
        SectionLines(section, v, lines, false);
        SectionReadsBack(section, v, w, lines, false);
        JoinLines(RewriteIn(section, v, lines, false));
      case Macros =>
        HeaderReadsBack(v, w, lines);
        JoinLines(RewriteAll(v, lines));
    }
  }

  function Synced(files: map<File, string>, v: string): map<File, string> {
    map f | f in files :: WrittenTo(f, v, files[f])
  }

  // The order the files are written in.
  const ORDER := [MESON_BUILD, CMAKE_LISTS, TOWNCRIER, CARGO_TOML, PIXI_TOML, PYPROJECT, HEADER]

  // The tree when the first n files of the order have been written.
  function SyncedUpTo(files: map<File, string>, v: string, n: nat): map<File, string>
    requires n <= |ORDER|
  {
    map f | f in files :: if f in ORDER[..n] then WrittenTo(f, v, files[f]) else files[f]
  }

  lemma SyncNext(files: map<File, string>, v: string, n: nat)
    requires n < |ORDER|
    ensures var now, f := SyncedUpTo(files, v, n), ORDER[n];
      SyncedUpTo(files, v, n + 1) == if f in now then now[f := WrittenTo(f, v, now[f])] else now
  {
    hide WrittenTo;
    assert ORDER[..n + 1] == ORDER[..n] + [ORDER[n]];
    assert ORDER[n] !in ORDER[..n];
  }

  lemma SyncEnds(files: map<File, string>, v: string)
    ensures SyncedUpTo(files, v, 0) == files && SyncedUpTo(files, v, |ORDER|) == Synced(files, v)
  {
    hide WrittenTo;
    assert ORDER[..|ORDER|] == ORDER;
    forall f: File
      ensures f in ORDER
    {
      match f {
        case MESON_BUILD => assert ORDER[0] == f;
        case CMAKE_LISTS => assert ORDER[1] == f;
        case TOWNCRIER => assert ORDER[2] == f;
        case CARGO_TOML => assert ORDER[3] == f;
        case PIXI_TOML => assert ORDER[4] == f;
        case PYPROJECT => assert ORDER[5] == f;
        case HEADER => assert ORDER[6] == f;
      }
    }
  }

  // All versions that can be read agree with meson.build's, which is the
  // expected one if one is expected. The header may be missing.
  predicate InLockstep(files: map<File, string>, expected: Option<string>) {
    && (forall f :: f == HEADER || (f in files && ReadFrom(f, files[f]).Some?))
    && (HEADER in files ==> ReadFrom(HEADER, files[HEADER]).Some?)
    && (forall f :: f in files ==> ReadFrom(f, files[f]) == ReadFrom(MESON_BUILD, files[MESON_BUILD]))
    && (expected.Some? && StripV(expected.value) != "" ==>
      ReadFrom(MESON_BUILD, files[MESON_BUILD]) == Some(StripV(expected.value)))
  }

  class Root {
    var files: map<File, string>

    constructor (files: map<File, string>)
      ensures this.files == files
    {
      this.files := files;
    }

    method Rewrite(f: File, v: string)
      modifies this
      ensures files == if f in old(files) then old(files)[f := WrittenTo(f, v, old(files)[f])] else old(files)
    {
      if f !in files {
        return;
      }
      var text := files[f];
      var out;
      match KindOf(f) {
        case FirstLine(u) => out := ReplaceFirst(u, text, v);
        case Table(section) => out := ReplaceSection(text, section, v);
        case Macros => out := ReplaceHeader(text, v);
      }
      files := files[f := out];
    }

    // sync_versions
    method SyncVersions(argument: string) returns (ok: bool)
      modifies this
      ensures ok <==> IsVersion(StripV(StripV(argument)))
      ensures files == if ok then Synced(old(files), StripV(argument)) else old(files)
    {
      var v := StripV(argument);
      ok := SemverOk(v);
      if !ok {
        return;
      }
      hide WrittenTo, SyncedUpTo, Synced;
      SyncEnds(files, v);
      for i := 0 to |ORDER|
        invariant files == SyncedUpTo(old(files), v, i)
      {
        SyncNext(old(files), v, i);
        Rewrite(ORDER[i], v);
      }
    }

    method ReadVersion(f: File) returns (v: Option<string>)
      ensures v == if f in files then ReadFrom(f, files[f]) else None
    {
      if f !in files {
        return None;
      }
      match KindOf(f) {
        case FirstLine(u) => v := ReadFirst(u, files[f]);
        case Table(section) => v := ReadSection(files[f], section);
        case Macros =>
          var lines := Lines(files[f]);
          for i := 0 to |lines|
            invariant ReadHeader(lines[i..]) == ReadHeader(lines)
          {
            assert lines[i..][1..] == lines[i + 1..];
            if HeaderValue(lines[i]).Some? {
              return HeaderValue(lines[i]);
            }
          }
          return None;
      }
    }

    // assert_lockstep without a changelog.
    method AssertLockstep(expected: Option<string>) returns (ok: bool)
      ensures ok <==> InLockstep(files, expected)
    {
      hide ReadFrom;
      var meson := ReadVersion(MESON_BUILD);
      var cmake := ReadVersion(CMAKE_LISTS);
      var cargo := ReadVersion(CARGO_TOML);
      var towncrier := ReadVersion(TOWNCRIER);
      var pixi := ReadVersion(PIXI_TOML);
      var pyproject := ReadVersion(PYPROJECT);
      var header := ReadVersion(HEADER);
      if meson.None? || cmake.None? || cargo.None? || towncrier.None? || pixi.None? || pyproject.None?
         || (HEADER in files && header.None?) {
        return false;
      }
      if cmake != meson || cargo != meson || towncrier != meson || pixi != meson || pyproject != meson {
        return false;
      }
      if header.Some? && header != meson {
        return false;
      }
      var wanted := if expected.Some? then StripV(expected.value) else "";
      if wanted != "" && meson.value != wanted {
        return false;
      }
      return true;
    }

    // Syncing a version and asserting it succeeds exactly when the version
    // begins with a digit, the six files are there and every file is ready.
    method SyncThenAssert(argument: string) returns (ok: bool)
      modifies this
      ensures ok <==>
        && IsVersion(StripV(argument))
        && (forall f :: f != HEADER ==> f in old(files))
        && (forall f :: f in old(files) ==> Ready(f, StripV(argument), old(files)[f]))
    {
      var v := StripV(argument);
      ghost var before := files;
      var synced := SyncVersions(argument);
      if !synced {
        NotEvenWithV(v);
        return false;
      }
      ok := AssertLockstep(Some(argument));
      if IsVersion(v) {
        ghost var i: nat, j: nat, k: nat :| IsVersionAt(v, i, j, k);
        VersionIsText(v, i, j, k);
        SyncedReadsBack(before, v);
        hide ReadFrom, WrittenTo, Ready, Synced;
        assert forall f :: f in files <==> f in before;
        assert InLockstep(files, Some(argument)) ==> forall f :: f in files ==> ReadFrom(f, files[f]) == Some(v);
      } else {
        NeverInLockstep(files, argument);
      }
    }
  }

  // What is a version is one with a v in front of it too.
  lemma NotEvenWithV(v: string)
    ensures IsVersion(v) ==> IsVersion(StripV(v))
  {
    if IsVersion(v) {
      var i: nat, j: nat, k: nat :| IsVersionAt(v, i, j, k);
      VersionIsText(v, i, j, k);
    }
  }

  // The CMake reader finds numbers only, so a version that still begins with
  // a v is never in lockstep.
  lemma {:induction false} CmakeReadsNumbers(lines: seq<string>)
    ensures Read(Cmake, lines).Some? ==> StartsWithDigit(Read(Cmake, lines).value)
  {
    if lines != [] {
      CmakeReadsNumbers(lines[1..]);
    }
  }

  lemma NeverInLockstep(files: map<File, string>, argument: string)
    requires !IsVersion(StripV(argument)) && IsVersion(StripV(StripV(argument)))
    ensures !InLockstep(files, Some(argument))
  {
    var v := StripV(argument);
    if InLockstep(files, Some(argument)) {
      assert v != "" && !StartsWithDigit(v);
      CmakeReadsNumbers(Lines(files[CMAKE_LISTS]));
    }
  }

  lemma SyncedReadsBack(files: map<File, string>, v: string)
    requires IsVersion(v)
    ensures var after := Synced(files, v);
      && (forall f :: f in after <==> f in files)
      && forall f :: f in files ==> (ReadFrom(f, after[f]) == Some(v) <==> Ready(f, v, files[f]))
  {
    hide WrittenTo, ReadFrom, Ready;
    forall f | f in files
      ensures ReadFrom(f, Synced(files, v)[f]) == Some(v) <==> Ready(f, v, files[f])
    {
      FileReadsBack(f, v, files[f]);
    }
  }

  // Syncing twice is syncing the second version.
  lemma SyncTwice(files: map<File, string>, v: string, w: string)
    requires IsVersion(v)
    ensures Synced(Synced(files, v), w) == Synced(files, w)
  {
    hide WrittenTo;
    forall f | f in files
      ensures WrittenTo(f, w, WrittenTo(f, v, files[f])) == WrittenTo(f, w, files[f])
    {
      FileOverwritten(f, v, w, files[f]);
    }
  }
}
