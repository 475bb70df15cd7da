// Text as the lockstep tool takes it apart: trimming, quotes, lines with
// their endings. Whitespace is ASCII whitespace.
module LineText {
  import opened Characters
  import opened Sequences
  import opened Wrappers

  predicate IsBlank(c: char)
    ensures IsBlank(c) <==> c as int == 9 || c as int == 32
  {
    c == ' ' || c == '\t'
  }

  predicate AllSpace(s: string) {
    forall i :: 0 <= i < |s| ==> IsSpace(s[i])
  }

  predicate AllBlank(s: string) {
    forall i :: 0 <= i < |s| ==> IsBlank(s[i])
  }

  // Text that trimming leaves alone.
  predicate Solid(s: string) {
    s != "" && !IsSpace(s[0]) && !IsSpace(s[|s| - 1])
  }

  function TrimStart(s: string): string {
    if s != "" && IsSpace(s[0]) then TrimStart(s[1..]) else s
  }

  function TrimEnd(s: string): string {
    if s != "" && IsSpace(s[|s| - 1]) then TrimEnd(s[..|s| - 1]) else s
  }

  function Trim(s: string): string {
    TrimEnd(TrimStart(s))
  }

  // trim_start_matches([' ', '\t'])
  function TrimBlanks(s: string): string {
    if s != "" && IsBlank(s[0]) then TrimBlanks(s[1..]) else s
  }

  // trim_end_matches(['\r', '\n'])
  function DropEol(s: string): string {
    if s != "" && (s[|s| - 1] == '\r' || s[|s| - 1] == '\n') then DropEol(s[..|s| - 1]) else s
  }

  // The first word of a text; empty without one.
  function FirstWord(s: string): string {
    Word(TrimStart(s))
  }

  function Word(s: string): string {
    if s == "" || IsSpace(s[0]) then "" else [s[0]] + Word(s[1..])
  }

  function Indent(s: string): string {
    Leading(s, TrimStart(s))
  }

  // s without its tail t.
  function Leading(s: string, t: string): string {
    if |t| <= |s| then s[..|s| - |t|] else ""
  }

  function LineEol(s: string): string {
    if |s| >= 2 && s[|s| - 2..] == "\r\n" then "\r\n"
    else if s != "" && s[|s| - 1] == '\n' then "\n"
    else ""
  }

  // A line without its ending, as an iteration over lines gives it.
  function Line(s: string): string {
    if s == "" || s[|s| - 1] != '\n' then s
    else if |s| >= 2 && s[|s| - 2] == '\r' then s[..|s| - 2]
    else s[..|s| - 1]
  }

  // ---- Trimming ----

  lemma {:induction false} TrimStartParts(s: string)
    ensures |TrimStart(s)| <= |s| && s == Indent(s) + TrimStart(s) && AllSpace(Indent(s))
    ensures TrimStart(s) != "" ==> !IsSpace(TrimStart(s)[0])
  {
    if s != "" && IsSpace(s[0]) {
      var c, rest := s[0], s[1..];
      assert s == [c] + rest;
      hide *;
      TrimStartParts(rest);
      IndentStep(c, rest);
      OneMoreSpace(c, Indent(rest));
      Assoc([c], Indent(rest), TrimStart(rest));
    } else {
      assert TrimStart(s) == s && Indent(s) == "";
    }
  }

  lemma OneMoreSpace(c: char, pad: string)
    requires IsSpace(c) && AllSpace(pad)
    ensures AllSpace([c] + pad)
  {
  }

  lemma IndentStep(c: char, rest: string)
    requires IsSpace(c) && |TrimStart(rest)| <= |rest|
    ensures TrimStart([c] + rest) == TrimStart(rest) && Indent([c] + rest) == [c] + Indent(rest)
  {
    assert ([c] + rest)[1..] == rest;
    var t := TrimStart(rest);
    assert TrimStart([c] + rest) == t;
    hide TrimStart;
    var k := |rest| - |t|;
    assert ([c] + rest)[..k + 1] == [c] + rest[..k];
  }

  lemma {:induction false} SkipSpace(pad: string, s: string)
    requires AllSpace(pad) && (s == "" || !IsSpace(s[0]))
    ensures TrimStart(pad + s) == s && Indent(pad + s) == pad
  {
    if pad == "" {
      assert pad + s == s;
    } else {
      assert (pad + s)[1..] == pad[1..] + s;
      SkipSpace(pad[1..], s);
    }
  }

  lemma {:induction false} SkipBlanks(pad: string, s: string)
    requires AllBlank(pad) && s != "" && !IsBlank(s[0])
    ensures TrimBlanks(pad + s) == s
  {
    if pad == "" {
      assert pad + s == s;
    } else {
      assert (pad + s)[1..] == pad[1..] + s;
      SkipBlanks(pad[1..], s);
    }
  }

  // Where blanks are followed by something solid they are the whole indent.
  lemma {:induction false} BlanksAreIndent(s: string)
    requires TrimBlanks(s) != "" && !IsSpace(TrimBlanks(s)[0])
    ensures TrimStart(s) == TrimBlanks(s) && AllBlank(Indent(s))
  {
    if s != "" && IsBlank(s[0]) {
      BlanksAreIndent(s[1..]);
      TrimStartParts(s[1..]);
      assert Indent(s) == [s[0]] + Indent(s[1..]);
    }
  }

  lemma {:induction false} CutSpace(s: string, pad: string)
    requires AllSpace(pad) && (s == "" || !IsSpace(s[|s| - 1]))
    ensures TrimEnd(s + pad) == s
  {
    if pad == "" {
      assert s + pad == s;
    } else {
      assert (s + pad)[..|s + pad| - 1] == s + pad[..|pad| - 1];
      CutSpace(s, pad[..|pad| - 1]);
    }
  }

  lemma TrimPadded(pad: string, s: string, end: string)
    requires AllSpace(pad) && AllSpace(end) && Solid(s)
    ensures Trim(pad + s + end) == s && TrimStart(pad + s + end) == s + end && Indent(pad + s + end) == pad
  {
    assert pad + s + end == pad + (s + end);
    SkipSpace(pad, s + end);
    CutSpace(s, end);
  }

  // Space at the end of a line makes no difference to its trimmed text.
  lemma TrimIgnoresEnd(s: string, c: char)
    requires IsSpace(c)
    ensures Trim(s + [c]) == Trim(s)
  {
    hide TrimStart, Indent, IsSpace;
    var pad, t := Indent(s), TrimStart(s);
    TrimStartParts(s);
    assert s + [c] == pad + (t + [c]);
    if t == "" {
      assert s + [c] == (pad + [c]) + "";
      SkipSpace(pad + [c], "");
    } else {
      SkipSpace(pad, t + [c]);
      EndSpace(t, c);
    }
  }

  lemma EndSpace(t: string, c: char)
    requires IsSpace(c)
    ensures TrimEnd(t + [c]) == TrimEnd(t)
  {
    assert (t + [c])[..|t|] == t;
  }

  lemma {:induction false} TrimDropEol(s: string)
    ensures Trim(DropEol(s)) == Trim(s)
  {
    if s != "" && (s[|s| - 1] == '\r' || s[|s| - 1] == '\n') {
      var front := s[..|s| - 1];
      TrimDropEol(front);
      TrimIgnoresEnd(front, s[|s| - 1]);
      assert s == front + [s[|s| - 1]];
    }
  }

  lemma TrimLine(s: string)
    ensures Trim(Line(s)) == Trim(s)
  {
    if s != "" && s[|s| - 1] == '\n' {
      var front := s[..|s| - 1];
      assert s == front + ['\n'];
      TrimIgnoresEnd(front, '\n');
      if |s| >= 2 && s[|s| - 2] == '\r' {
        assert front == s[..|s| - 2] + ['\r'];
        TrimIgnoresEnd(s[..|s| - 2], '\r');
      }
    }
  }

  lemma {:induction false} IndentDropEol(s: string)
    requires TrimStart(s) != ""
    ensures Indent(DropEol(s)) == Indent(s)
  {
    if s != "" && (s[|s| - 1] == '\r' || s[|s| - 1] == '\n') {
      var front, pad, t := s[..|s| - 1], Indent(s), TrimStart(s);
      TrimStartParts(s);
      assert |t| > 1;
      assert front == pad + t[..|t| - 1];
      SkipSpace(pad, t[..|t| - 1]);
      IndentDropEol(front);
    }
  }

  // ---- Words and quotes ----

  lemma {:induction false} WordBefore(w: string, rest: string)
    requires (forall i :: 0 <= i < |w| ==> !IsSpace(w[i])) && (rest == "" || IsSpace(rest[0]))
    ensures Word(w + rest) == w
  {
    if w == "" {
      assert w + rest == rest;
    } else {
      assert (w + rest)[1..] == w[1..] + rest;
      WordBefore(w[1..], rest);
    }
  }

  // find
  function First(s: string, q: char): int {
    if s == "" then -1
    else if s[0] == q then 0
    else var k := First(s[1..], q); if k < 0 then -1 else k + 1
  }

  // rfind
  function Last(s: string, q: char): int {
    if s == "" then -1 else if s[|s| - 1] == q then |s| - 1 else Last(s[..|s| - 1], q)
  }

  // What stands between the first and the last quote.
  function Between(s: string, q: char): Option<string> {
    var a, b := First(s, q), Last(s, q);
    if 0 <= a < b < |s| then Some(s[a + 1..b]) else None
  }

  lemma {:induction false} FirstAfter(pre: string, rest: string, q: char)
    requires q !in pre
    ensures First(pre + [q] + rest, q) == |pre|
  {
    var s := pre + [q] + rest;
    if pre != "" {
      assert s[0] == pre[0] && pre[0] in pre;
      assert s[1..] == pre[1..] + [q] + rest;
      FirstAfter(pre[1..], rest, q);
    }
  }

  lemma {:induction false} LastBefore(front: string, post: string, q: char)
    requires q !in post
    ensures Last(front + [q] + post, q) == |front|
  {
    var s := front + [q] + post;
    if post != "" {
      assert s[|s| - 1] == post[|post| - 1] && post[|post| - 1] in post;
      assert s[..|s| - 1] == front + [q] + post[..|post| - 1];
      LastBefore(front, post[..|post| - 1], q);
    }
  }

  lemma BetweenQuotes(pre: string, v: string, post: string, q: char)
    requires q !in pre && q !in post
    ensures Between(pre + [q] + v + [q] + post, q) == Some(v)
  {
    var s := pre + [q] + v + [q] + post;
    assert s == pre + [q] + (v + [q] + post);
    FirstAfter(pre, v + [q] + post, q);
    assert s == (pre + [q] + v) + [q] + post;
    LastBefore(pre + [q] + v, post, q);
    assert s[|pre| + 1..|pre| + 1 + |v|] == v;
  }

  // ---- Lines with their endings ----

  predicate IsSegment(s: string) {
    s != "" && forall i :: 0 <= i < |s| - 1 ==> s[i] != '\n'
  }

  predicate Ended(s: string) {
    s != "" && s[|s| - 1] == '\n'
  }

  // Every line but the last ends in a line feed.
  predicate AreLines(lines: seq<string>) {
    forall i :: 0 <= i < |lines| ==> IsSegment(lines[i]) && (i < |lines| - 1 ==> Ended(lines[i]))
  }

  // The length of the first line with its ending.
  function Cut(text: string): (n: nat)
    requires text != ""
    ensures 0 < n <= |text|
  {
    if text[0] == '\n' || |text| == 1 then 1 else 1 + Cut(text[1..])
  }

  // split_inclusive('\n')
  function Lines(text: string): seq<string> {
    if text == "" then [] else [text[..Cut(text)]] + Lines(text[Cut(text)..])
  }

  function Join(lines: seq<string>): string {
    if lines == [] then "" else lines[0] + Join(lines[1..])
  }

  lemma {:induction false} CutIsSegment(text: string)
    requires text != ""
    ensures IsSegment(text[..Cut(text)]) && (Cut(text) < |text| ==> Ended(text[..Cut(text)]))
  {
    if !(text[0] == '\n' || |text| == 1) {
      CutIsSegment(text[1..]);
      assert text[..Cut(text)] == [text[0]] + text[1..][..Cut(text[1..])];
    }
  }

  lemma OneLineMore(line: string, rest: seq<string>)
    requires IsSegment(line) && AreLines(rest) && (rest != [] ==> Ended(line))
    ensures AreLines([line] + rest) && Join([line] + rest) == line + Join(rest)
  {
    assert ([line] + rest)[1..] == rest;
  }

  lemma {:induction false} LinesJoin(text: string)
    ensures Join(Lines(text)) == text && AreLines(Lines(text))
    decreases |text|
  {
    if text != "" {
      var n := Cut(text);
      var first, rest := text[..n], text[n..];
      CutIsSegment(text);
      assert text == first + rest && Lines(text) == [first] + Lines(rest);
      assert rest == "" ==> Lines(rest) == [];
      hide Cut, Lines, IsSegment, Ended, AreLines, Join;
      LinesJoin(rest);
      OneLineMore(first, Lines(rest));
    }
  }

  lemma {:induction false} CutOfSegment(s: string, rest: string)
    requires IsSegment(s) && (Ended(s) || rest == "")
    ensures Cut(s + rest) == |s|
  {
    if |s| == 1 {
      assert (s + rest)[0] == s[0];
    } else {
      assert (s + rest)[1..] == s[1..] + rest;
      CutOfSegment(s[1..], rest);
    }
  }

  lemma {:induction false} JoinLines(lines: seq<string>)
    requires AreLines(lines)
    ensures Lines(Join(lines)) == lines
  {
    if lines != [] {
      var s, rest := lines[0], Join(lines[1..]);
      JoinLines(lines[1..]);
      CutOfSegment(s, rest);
      assert (s + rest)[..|s|] == s && (s + rest)[|s|..] == rest;
    }
  }
}
