/** Wrapping source files in marker lines and splitting the joined text back into files. */
module FileSplit {
  import opened Common

  const BEGIN := "//BEGIN:"
  const END := "//END:"
  const FLUSH_LINES := 10000

  datatype Source = Source(path: string, content: string)

  /** What backupFile leaves behind: the content between two marker lines. */
  function Backup(f: Source): string {
    BEGIN + f.path + "\n" + f.content + "\n" + END + f.path + "\n"
  }

  function Joined(fs: seq<Source>): string {
    if fs == [] then "" else Backup(fs[0]) + Joined(fs[1..])
  }

  // ---- std::getline ----

  function FirstNewline(s: string): (d: nat)
    ensures d <= |s|
    ensures d < |s| ==> s[d] == '\n'
    ensures forall k | 0 <= k < d :: s[k] != '\n'
  {
    if s == "" || s[0] == '\n' then 0 else 1 + FirstNewline(s[1..])
  }

  /** A last line without a newline counts, an empty rest does not. */
  function GetLines(s: string): seq<string>
    decreases |s|
  {
    if s == "" then []
    else
      var d := FirstNewline(s);
      [s[..d]] + if d == |s| then [] else GetLines(s[d + 1..])
  }

  function Unlines(lines: seq<string>): string {
    if lines == [] then "" else lines[0] + "\n" + Unlines(lines[1..])
  }

  predicate StartsWith(line: string, marker: string) {
    |marker| <= |line| && line[..|marker|] == marker
  }

  predicate Marker(line: string) {
    StartsWith(line, BEGIN) || StartsWith(line, END)
  }

  /** The last component of a path. */
  function BaseName(path: string): string
    decreases |path|
  {
    if path == "" then ""
    else if Last(path) == '/' then ""
    else BaseName(Front(path)) + [Last(path)]
  }

  lemma {:induction false} BaseNameOf(dir: string, name: string)
    requires '/' !in name && (dir == "" || Last(dir) == '/')
    ensures BaseName(dir + name) == name
  {
    if name == "" {
      assert dir + name == dir;
    } else {
      assert Last(name) in name && name == Front(name) + [Last(name)];
      assert Front(dir + name) == dir + Front(name) && Last(dir + name) == Last(name);
      BaseNameOf(dir, Front(name));
    }
  }

  /** The file that a marked path is written to: itself, or its last component in the directory `dir`. */
  function Target(dir: string, path: string): string {
    if dir == "" then path else dir + "/" + BaseName(path)
  }

  /** Without an output directory a file goes where its path says, otherwise into the directory under its own name. */
  lemma TargetIs(out: string, dir: string, name: string)
    requires '/' !in name && (dir == "" || Last(dir) == '/')
    ensures Target(out, dir + name) == if out == "" then dir + name else out + "/" + name
  {
    BaseNameOf(dir, name);
  }

  // ---- the output side, one line at a time ----

  /** Files by target name, the one that is open, and whether its stream still takes output. */
  datatype Output = Output(files: map<string, string>, open: Option<string>, good: bool)

  function Write(o: Output, text: string): Output
    requires o.open.Some? ==> o.open.value in o.files
  {
    if o.open.Some? && o.good then o.(files := o.files[o.open.value := o.files[o.open.value] + text]) else o
  }

  /** Opening a stream that is open already only makes it fail. */
  function Open(o: Output, name: string): Output {
    if o.open.Some? then o.(good := false) else Output(o.files[name := ""], Some(name), true)
  }

  function Close(o: Output): Output {
    o.(open := None)
  }

  predicate Consistent(o: Output) {
    o.open.Some? ==> o.open.value in o.files
  }

  function Line(dir: string, o: Output, line: string): (r: Output)
    requires Consistent(o)
    ensures Consistent(r)
  {
    if StartsWith(line, BEGIN) then Open(o, Target(dir, line[8..]))
    else if StartsWith(line, END) then Close(o)
    else Write(o, line + "\n")
  }

  function AllLines(dir: string, o: Output, lines: seq<string>): (r: Output)
    requires Consistent(o)
    ensures Consistent(r)
    decreases |lines|
  {
    if lines == [] then o else AllLines(dir, Line(dir, o, lines[0]), lines[1..])
  }

  function Split(dir: string, text: string): map<string, string> {
    AllLines(dir, Output(map[], None, true), GetLines(text)).files
  }

  // ---- lines of the wrapped text ----

  lemma NewlineAt(s: string, d: nat)
    requires d < |s| && s[d] == '\n' && forall k | 0 <= k < d :: s[k] != '\n'
    ensures FirstNewline(s) == d
  {
  }

  lemma FirstLine(s: string, d: nat)
    requires d < |s| && s[d] == '\n' && forall k | 0 <= k < d :: s[k] != '\n'
    ensures GetLines(s) == [s[..d]] + GetLines(s[d + 1..])
  {
    hide FirstNewline;
    NewlineAt(s, d);
    if d + 1 == |s| {
      assert s[d + 1..] == "";
    }
  }

  lemma {:induction false} GetLinesConcat(a: string, b: string)
    requires a == "" || Last(a) == '\n'
    ensures GetLines(a + b) == GetLines(a) + GetLines(b)
    decreases |a|
  {
    hide GetLines, FirstNewline;
    if a == "" {
      assert a + b == b;
      assert GetLines("") == [] by { NoLines(); }
    } else {
      var d := FirstNewline(a);
      var tail := a[d + 1..];
      assert tail == "" || Last(tail) == Last(a);
      FirstLine(a, d);
      FirstLine(a + b, d);
      assert (a + b)[..d] == a[..d] && (a + b)[d + 1..] == tail + b;
      GetLinesConcat(tail, b);
    }
  }

  lemma OneLine(line: string)
    requires '\n' !in line
    ensures GetLines(line + "\n") == [line]
  {
    assert forall k | 0 <= k < |line| :: line[k] in line;
    assert (line + "\n")[..|line|] == line;
    NewlineAt(line + "\n", |line|);
    assert (line + "\n")[|line| + 1..] == "";
  }

  /** A last line that is not ended by a newline counts. */
  lemma LastLine(a: string, line: string)
    requires (a == "" || Last(a) == '\n') && line != "" && '\n' !in line
    ensures GetLines(a + line) == GetLines(a) + [line]
  {
    GetLinesConcat(a, line);
    assert forall k | 0 <= k < |line| :: line[k] in line;
    assert FirstNewline(line) == |line|;
    assert line[..|line|] == line;
  }

  lemma {:induction false} UnlinesGetLines(s: string)
    requires s == "" || Last(s) == '\n'
    ensures Unlines(GetLines(s)) == s
    decreases |s|
  {
    hide GetLines, FirstNewline;
    if s == "" {
      NoLines();
    } else {
      var d := FirstNewline(s);
      var tail := s[d + 1..];
      assert tail == "" || Last(tail) == Last(s);
      FirstLine(s, d);
      UnlinesGetLines(tail);
      assert s == s[..d] + "\n" + tail;
    }
  }

  lemma BackupLines(f: Source, rest: string)
    requires '\n' !in f.path
    ensures GetLines(Backup(f) + rest) == [BEGIN + f.path] + GetLines(f.content + "\n") + [END + f.path] + GetLines(rest)
  {
    hide GetLines;
    var head, body, tail := BEGIN + f.path + "\n", f.content + "\n", END + f.path + "\n";
    assert forall k | 0 <= k < |f.path| :: f.path[k] in f.path;
    OneLine(BEGIN + f.path);
    OneLine(END + f.path);
    GetLinesConcat(head, body + (tail + rest));
    GetLinesConcat(body, tail + rest);
    GetLinesConcat(tail, rest);
    assert Backup(f) + rest == head + (body + (tail + rest));
  }

  // ---- round trip ----

  lemma {:induction false} AllLinesConcat(dir: string, o: Output, a: seq<string>, b: seq<string>)
    requires Consistent(o)
    ensures AllLines(dir, o, a + b) == AllLines(dir, AllLines(dir, o, a), b)
    decreases |a|
  {
    hide Line;
    if a == [] {
      assert a + b == b;
    } else {
      assert (a + b)[1..] == a[1..] + b;
      AllLinesConcat(dir, Line(dir, o, a[0]), a[1..], b);
    }
  }

  ghost predicate NoMarkers(lines: seq<string>) {
    forall i | 0 <= i < |lines| :: !Marker(lines[i])
  }

  lemma {:induction false} PlainLines(dir: string, o: Output, lines: seq<string>)
    requires Consistent(o) && o.open.Some? && o.good && NoMarkers(lines)
    ensures AllLines(dir, o, lines) == Write(o, Unlines(lines))
    decreases |lines|
  {
    if lines == [] {
      assert o.files[o.open.value] + "" == o.files[o.open.value];
      assert o.files[o.open.value := o.files[o.open.value]] == o.files;
    } else {
      var line := lines[0] + "\n";
      PlainLines(dir, Write(o, line), lines[1..]);
      var had := o.files[o.open.value];
      assert (had + line) + Unlines(lines[1..]) == had + (line + Unlines(lines[1..]));
      assert o.files[o.open.value := had + line][o.open.value := had + Unlines(lines)]
          == o.files[o.open.value := had + Unlines(lines)];
    }
  }

  lemma MarkerLines(path: string)
    ensures StartsWith(BEGIN + path, BEGIN) && (BEGIN + path)[8..] == path
    ensures StartsWith(END + path, END) && !StartsWith(END + path, BEGIN)
  {
    assert (END + path)[2] == 'E';
    if |END + path| >= 8 {
      assert (END + path)[..8][2] == 'E' && BEGIN[2] == 'B';
    }
  }

  /** One wrapped file, with everything closed before and after it. */
  lemma WrappedFile(dir: string, o: Output, f: Source, rest: string)
    requires o.open.None? && '\n' !in f.path && NoMarkers(GetLines(f.content + "\n"))
    ensures
      var after := Output(o.files[Target(dir, f.path) := f.content + "\n"], None, true);
      AllLines(dir, o, GetLines(Backup(f) + rest)) == AllLines(dir, after, GetLines(rest))
  {
    hide Target, GetLines, AllLines, Line, Backup, Unlines;
    var body := GetLines(f.content + "\n");
    var begun := Open(o, Target(dir, f.path));
    BackupLines(f, rest);
    UnlinesGetLines(f.content + "\n");
    PlainLines(dir, begun, body);
    assert "" + (f.content + "\n") == f.content + "\n";
    AllLinesConcat(dir, o, [BEGIN + f.path] + body + [END + f.path], GetLines(rest));
    AllLinesConcat(dir, o, [BEGIN + f.path] + body, [END + f.path]);
    AllLinesConcat(dir, o, [BEGIN + f.path], body);
    OneStep(dir, o, BEGIN + f.path);
    OneStep(dir, AllLines(dir, begun, body), END + f.path);
    MarkerSteps(dir, o, AllLines(dir, begun, body), f.path);
    assert o.files[Target(dir, f.path) := ""][Target(dir, f.path) := f.content + "\n"] == o.files[Target(dir, f.path) := f.content + "\n"];
  }

  lemma MarkerSteps(dir: string, o: Output, written: Output, path: string)
    requires Consistent(o) && Consistent(written)
    ensures Line(dir, o, BEGIN + path) == Open(o, Target(dir, path))
    ensures Line(dir, written, END + path) == Close(written)
  {
    MarkerLines(path);
  }

  lemma OneStep(dir: string, o: Output, line: string)
    requires Consistent(o)
    ensures AllLines(dir, o, [line]) == Line(dir, o, line)
  {
    hide Line;
    assert [line][1..] == [];
  }

  predicate PlainSource(f: Source) {
    '\n' !in f.path && forall i | 0 <= i < |GetLines(f.content + "\n")| :: !Marker(GetLines(f.content + "\n")[i])
  }

  function Contents(dir: string, files: map<string, string>, fs: seq<Source>): map<string, string>
    decreases |fs|
  {
    if fs == [] then files else Contents(dir, files[Target(dir, fs[0].path) := fs[0].content + "\n"], fs[1..])
  }

  lemma {:induction false} SplitFrom(dir: string, o: Output, fs: seq<Source>)
    requires o.open.None? && forall i | 0 <= i < |fs| :: PlainSource(fs[i])
    ensures AllLines(dir, o, GetLines(Joined(fs))).files == Contents(dir, o.files, fs)
    decreases |fs|
  {
    hide AllLines, GetLines, Backup, Target;
    if fs == [] {
      assert GetLines("") == [] by { NoLines(); }
      assert AllLines(dir, o, []) == o by { NoStep(dir, o); }
    } else {
      var f := fs[0];
      assert NoMarkers(GetLines(f.content + "\n"));
      WrappedFile(dir, o, f, Joined(fs[1..]));
      SplitFrom(dir, Output(o.files[Target(dir, f.path) := f.content + "\n"], None, true), fs[1..]);
    }
  }

  lemma NoLines()
    ensures GetLines("") == []
  {
  }

  lemma NoStep(dir: string, o: Output)
    requires Consistent(o)
    ensures AllLines(dir, o, []) == o
  {
  }

  lemma {:induction false} LaterContents(dir: string, files: map<string, string>, fs: seq<Source>, name: string)
    requires forall i | 0 <= i < |fs| && Target(dir, fs[i].path) == name :: name in files && files[name] == fs[i].content + "\n"
    ensures name in Contents(dir, files, fs) <==> name in files
    ensures name in files ==> Contents(dir, files, fs)[name] == files[name]
    decreases |fs|
  {
    hide Target;
    if fs != [] {
      var files' := files[Target(dir, fs[0].path) := fs[0].content + "\n"];
      assert name in files' <==> name in files;
      LaterContents(dir, files', fs[1..], name);
    }
  }

  /** Sources that go to the same file have the same content. */
  ghost predicate Agreeing(dir: string, fs: seq<Source>) {
    forall i, j | 0 <= i < j < |fs| :: Target(dir, fs[i].path) == Target(dir, fs[j].path) ==> fs[i].content == fs[j].content
  }

  ghost predicate Restored(dir: string, files: map<string, string>, fs: seq<Source>) {
    forall k | 0 <= k < |fs| :: Target(dir, fs[k].path) in files && files[Target(dir, fs[k].path)] == fs[k].content + "\n"
  }

  lemma {:induction false} ContentsOf(dir: string, files: map<string, string>, fs: seq<Source>, k: nat)
    requires k < |fs| && Agreeing(dir, fs)
    ensures Target(dir, fs[k].path) in Contents(dir, files, fs)
    ensures Contents(dir, files, fs)[Target(dir, fs[k].path)] == fs[k].content + "\n"
    decreases |fs|
  {
    hide Target;
    var files' := files[Target(dir, fs[0].path) := fs[0].content + "\n"];
    if k == 0 {
      LaterContents(dir, files', fs[1..], Target(dir, fs[0].path));
    } else {
      ContentsOf(dir, files', fs[1..], k - 1);
    }
  }

  /**
   Splitting undoes wrapping, every file coming back with one newline added, if and only if sources that
   go to the same file agree; no other file is ever written.
   */
  lemma SplitUndoesBackupIff(dir: string, fs: seq<Source>)
    requires forall i | 0 <= i < |fs| :: PlainSource(fs[i])
    ensures Restored(dir, Split(dir, Joined(fs)), fs) <==> Agreeing(dir, fs)
    ensures forall name | name in Split(dir, Joined(fs)) :: exists k | 0 <= k < |fs| :: Target(dir, fs[k].path) == name
  {
    hide AllLines, GetLines, Contents, Target;
    SplitFrom(dir, Output(map[], None, true), fs);
    var files := Split(dir, Joined(fs));
    if Agreeing(dir, fs) {
      forall k | 0 <= k < |fs|
        ensures Target(dir, fs[k].path) in files && files[Target(dir, fs[k].path)] == fs[k].content + "\n"
      {
        ContentsOf(dir, map[], fs, k);
      }
    }
    if Restored(dir, files, fs) {
      forall i, j | 0 <= i < j < |fs| && Target(dir, fs[i].path) == Target(dir, fs[j].path)
        ensures fs[i].content == fs[j].content
      {
        assert fs[i].content == (fs[i].content + "\n")[..|fs[i].content|];
        assert fs[j].content == (fs[j].content + "\n")[..|fs[j].content|];
      }
    }
    forall name | name in files ensures exists k | 0 <= k < |fs| :: Target(dir, fs[k].path) == name {
      if forall k | 0 <= k < |fs| :: Target(dir, fs[k].path) != name {
        LaterContents(dir, map[], fs, name);
      }
    }
  }

  /** Lines outside of every file go nowhere. */
  lemma {:induction false} OutsideIsDropped(dir: string, o: Output, lines: seq<string>)
    requires o.open.None? && NoMarkers(lines)
    ensures AllLines(dir, o, lines) == o
    decreases |lines|
  {
    if lines != [] {
      OutsideIsDropped(dir, o, lines[1..]);
    }
  }

  /** A second begin without an end in between: nothing is written until the file is closed. */
  lemma {:induction false} NestedBeginIsLost(dir: string, o: Output, path: string, lines: seq<string>)
    requires Consistent(o) && o.open.Some? && NoMarkers(lines)
    ensures AllLines(dir, o, [BEGIN + path] + lines) == o.(good := false)
  {
    MarkerLines(path);
    var lost := o.(good := false);
    assert ([BEGIN + path] + lines)[1..] == lines;
    assert Line(dir, o, BEGIN + path) == lost;
    LostLines(dir, lost, lines);
  }

  lemma {:induction false} LostLines(dir: string, o: Output, lines: seq<string>)
    requires Consistent(o) && !o.good && NoMarkers(lines)
    ensures AllLines(dir, o, lines) == o
    decreases |lines|
  {
    if lines != [] {
      LostLines(dir, o, lines[1..]);
    }
  }

  // ---- markers in the content ----

  /** Bytes of the lines that are not markers. */
  function Payload(lines: seq<string>): nat {
    if lines == [] then 0 else (if Marker(lines[0]) then 0 else |lines[0]| + 1) + Payload(lines[1..])
  }

  lemma {:induction false} WrittenIsBounded(dir: string, o: Output, lines: seq<string>, name: string)
    requires Consistent(o)
    ensures
      var r := AllLines(dir, o, lines);
      name in r.files ==> |r.files[name]| <= (if name in o.files then |o.files[name]| else 0) + Payload(lines)
    decreases |lines|
  {
    hide Target;
    if lines != [] {
      WrittenIsBounded(dir, Line(dir, o, lines[0]), lines[1..], name);
    }
  }

  lemma {:induction false} PayloadConcat(a: seq<string>, b: seq<string>)
    ensures Payload(a + b) == Payload(a) + Payload(b)
  {
    hide Marker;
    if a == [] {
      assert a + b == b;
    } else {
      PayloadConcat(a[1..], b);
      assert (a + b)[1..] == a[1..] + b;
    }
  }

  lemma {:induction false} PayloadOfUnlines(lines: seq<string>)
    ensures Payload(lines) <= |Unlines(lines)|
    ensures Payload(lines) == |Unlines(lines)| <==> NoMarkers(lines)
  {
    if lines != [] {
      PayloadOfUnlines(lines[1..]);
      assert NoMarkers(lines) <==> !Marker(lines[0]) && NoMarkers(lines[1..]) by {
        assert lines == [lines[0]] + lines[1..];
      }
    }
  }

  /** A single file survives the round trip exactly when none of its lines starts with a marker. */
  lemma SurvivesIff(dir: string, f: Source)
    requires '\n' !in f.path
    ensures Split(dir, Backup(f)) == map[Target(dir, f.path) := f.content + "\n"] <==> NoMarkers(GetLines(f.content + "\n"))
  {
    var body := GetLines(f.content + "\n");
    assert Backup(f) + "" == Backup(f);
    if NoMarkers(body) {
      WrappedFile(dir, Output(map[], None, true), f, "");
      NoLines();
      NoStep(dir, Output(map[Target(dir, f.path) := f.content + "\n"], None, true));
    } else {
      hide AllLines, Target;
      BackupLines(f, "");
      NoLines();
      var lines := [BEGIN + f.path] + body + [END + f.path];
      assert GetLines(Backup(f)) == lines;
      WrittenIsBounded(dir, Output(map[], None, true), lines, Target(dir, f.path));
      MarkerLines(f.path);
      PayloadConcat([BEGIN + f.path] + body, [END + f.path]);
      PayloadConcat([BEGIN + f.path], body);
      assert [BEGIN + f.path][1..] == [] && [END + f.path][1..] == [];
      UnlinesGetLines(f.content + "\n");
      PayloadOfUnlines(body);
    }
  }

  // ---- the buffered loop ----

  class Splitter {
    var out: Output
    var buffer: seq<string>

    constructor ()
      ensures out == Output(map[], None, true) && buffer == []
    {
      out, buffer := Output(map[], None, true), [];
    }

    /** What the files will hold once the buffer is flushed. */
    ghost function Settled(): Output
      reads this
      requires Consistent(out)
    {
      Write(out, Unlines(buffer))
    }

    ghost predicate Valid()
      reads this
    {
      Consistent(out) && (buffer != [] ==> out.open.Some?)
    }

    method FlushBuffer()
      requires Valid()
      modifies this
      ensures Valid() && out == old(Settled()) && buffer == []
    {
      if buffer != [] && out.open.Some? {
        ghost var start := out;
        var i := 0;
        assert Write(start, "") == start by { WriteNothing(start); }
        while i < |buffer|
          invariant 0 <= i <= |buffer| && buffer == old(buffer) && start == old(out)
          invariant Consistent(out) && out == Write(start, Unlines(buffer[..i]))
        {
          UnlinesSnoc(buffer[..i], buffer[i]);
          assert buffer[..i + 1] == buffer[..i] + [buffer[i]];
          WriteTwice(start, Unlines(buffer[..i]), buffer[i] + "\n");
          out := Write(out, buffer[i] + "\n");
          i := i + 1;
        }
        assert buffer[..|buffer|] == buffer;
        buffer := [];
      } else {
        WriteNothing(out);
      }
    }

    lemma WriteNothing(o: Output)
      requires Consistent(o)
      ensures Write(o, "") == o
    {
      if o.open.Some? {
        assert o.files[o.open.value] + "" == o.files[o.open.value];
        assert o.files[o.open.value := o.files[o.open.value]] == o.files;
      }
    }

    lemma WriteTwice(o: Output, a: string, b: string)
      requires Consistent(o)
      ensures Consistent(Write(o, a)) && Write(Write(o, a), b) == Write(o, a + b)
    {
      if o.open.Some? && o.good {
        var name := o.open.value;
        assert (o.files[name] + a) + b == o.files[name] + (a + b);
        assert o.files[name := o.files[name] + a][name := o.files[name] + (a + b)] == o.files[name := o.files[name] + (a + b)];
      }
    }

    lemma UnlinesSnoc(lines: seq<string>, line: string)
      ensures Unlines(lines + [line]) == Unlines(lines) + (line + "\n")
      decreases |lines|
    {
      if lines == [] {
        assert [line][1..] == [] && [] + [line] == [line];
        assert line + "\n" + "" == "" + (line + "\n");
      } else {
        UnlinesSnoc(lines[1..], line);
        assert (lines + [line])[1..] == lines[1..] + [line];
      }
    }

    method TakeLine(newPath: string, line: string)
      requires Valid()
      modifies this
      ensures Valid() && Settled() == Line(newPath, old(Settled()), line)
    {
      if StartsWith(line, BEGIN) {
        FlushBuffer();
        out := Open(out, Target(newPath, line[8..]));
        WriteNothing(out);
      } else if StartsWith(line, END) {
        FlushBuffer();
        out := Close(out);
        WriteNothing(out);
      } else if out.open.Some? {
        UnlinesSnoc(buffer, line);
        WriteTwice(out, Unlines(buffer), line + "\n");
        buffer := buffer + [line];
        if |buffer| >= FLUSH_LINES {
          FlushBuffer();
          WriteNothing(out);
        }
      }
    }

    /** Where the buffer is flushed makes no difference to the files. */
    method GenerateNewFile(content: string, newPath: string)
      requires out == Output(map[], None, true) && buffer == []
      modifies this
      ensures out.files == Split(newPath, content) && out.open.None?
    {
      var lines := GetLines(content);
      ghost var start := out;
      WriteNothing(out);
      for i := 0 to |lines|
        invariant Valid()
        invariant AllLines(newPath, start, lines) == AllLines(newPath, Settled(), lines[i..])
      {
        assert lines[i..][1..] == lines[i + 1..];
        TakeLine(newPath, lines[i]);
      }
      assert lines[|lines|..] == [];
      FlushBuffer();
      if out.open.Some? {
        out := Close(out);
      }
    }
  }
}
