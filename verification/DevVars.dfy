// The .dev.vars format (scripts/setup.ts generateDevVarsFile): how a file is
// read, how lines are written, and what reading back what was written gives.
module DevVars {
  import opened Wrappers
  import opened Text

  // A Map in insertion order.
  type Vars = seq<(string, string)>

  function Put(vars: Vars, key: string, value: string): Vars {
    if vars == [] then [(key, value)]
    else if vars[0].0 == key then [(key, value)] + vars[1..]
    else [vars[0]] + Put(vars[1..], key, value)
  }

  function Lookup(vars: Vars, key: string): Option<string> {
    if vars == [] then None
    else if vars[0].0 == key then Some(vars[0].1)
    else Lookup(vars[1..], key)
  }

  lemma {:induction false} LookupPut(vars: Vars, key: string, value: string, k: string)
    ensures Lookup(Put(vars, key, value), k) == if k == key then Some(value) else Lookup(vars, k)
  {
    if vars != [] && vars[0].0 != key {
      LookupPut(vars[1..], key, value, k);
    }
  }

  // ------------------------------------------------------------------
  // The reader
  // ------------------------------------------------------------------

  predicate IsTerminator(c: char) {
    c == '\n' || c == '\r' || c == '\U{2028}' || c == '\U{2029}'
  }

  // What `.` in a pattern can cross.
  predicate OneLine(s: string) {
    forall i :: 0 <= i < |s| ==> !IsTerminator(s[i])
  }

  // Replacing the pattern ^"(.*)"$ by its group.
  function Unquote(s: string): string {
    if |s| >= 2 && s[0] == '"' && s[|s| - 1] == '"' && OneLine(s[1..|s| - 1]) then s[1..|s| - 1] else s
  }

  function ReadLine(vars: Vars, line: string): Vars {
    var trimmed := Trim(line);
    if trimmed == "" || trimmed[0] == '#' then vars
    else
      var parts := Split(trimmed, '=');
      if parts[0] != "" && |parts| > 1 then Put(vars, Trim(parts[0]), Unquote(Join(parts[1..], "="))) else vars
  }

  function ReadLines(vars: Vars, lines: seq<string>): Vars
    decreases |lines|
  {
    if lines == [] then vars else ReadLines(ReadLine(vars, lines[0]), lines[1..])
  }

  function Read(text: string): Vars {
    ReadLines([], Split(text, '\n'))
  }

  method ReadVars(text: string) returns (vars: Vars)
    ensures vars == Read(text)
  {
    vars := [];
    var lines := Split(text, '\n');
    for i := 0 to |lines|
      invariant ReadLines(vars, lines[i..]) == Read(text)
    {
      var trimmed := Trim(lines[i]);
      if trimmed != "" && trimmed[0] != '#' {
        var parts := Split(trimmed, '=');
        if parts[0] != "" && |parts| - 1 > 0 {
          var value := Unquote(Join(parts[1..], "="));
          vars := Put(vars, Trim(parts[0]), value);
        }
      }
    }
  }

  lemma {:induction false} ReadLinesAppend(vars: Vars, a: seq<string>, b: seq<string>)
    ensures ReadLines(vars, a + b) == ReadLines(ReadLines(vars, a), b)
    decreases |a|
  {
    if a == [] {
      assert a + b == b;
    } else {
      assert (a + b)[0] == a[0] && (a + b)[1..] == a[1..] + b;
      ReadLinesAppend(ReadLine(vars, a[0]), a[1..], b);
    }
  }

  lemma SplitEnded(head: string, sep: char)
    ensures Split(head + [sep], sep) == Split(head, sep) + [""]
  {
    var parts := Split(head, sep);
    SplitResume(head, [sep], sep);
    SplitParts(head, sep);
    assert Last(parts) == parts[|parts| - 1];
    SplitAt(Last(parts), "", sep);
    assert Last(parts) + [sep] + "" == Last(parts) + [sep];
    assert Split("", sep) == [""];
    hide Split;
    assert Init(parts) + ([Last(parts)] + [""]) == parts + [""];
  }

  // Text that ends its last line can be read on its own.
  lemma ReadResume(a: string, b: string)
    requires a != "" && Last(a) == '\n'
    ensures Read(a + b) == ReadLines(Read(a), Split(b, '\n'))
  {
    var parts := Split(Init(a), '\n');
    assert a == Init(a) + ['\n'];
    SplitEnded(Init(a), '\n');
    SplitResume(a, b, '\n');
    hide Split;
    assert Init(parts + [""]) == parts && Last(parts + [""]) == "";
    assert "" + b == b;
    ReadLinesAppend([], parts, Split(b, '\n'));
    ReadLinesAppend([], parts, [""]);
    ReadNothing(ReadLines([], parts));
  }

  lemma ReadNothing(vars: Vars)
    ensures ReadLines(vars, [""]) == vars
  {
    assert Trim("") == "";
  }

  // A name that the reader can produce, and that survives being written.
  predicate KeyOk(key: string) {
    && key != ""
    && !IsSpace(key[0]) && !IsSpace(key[|key| - 1])
    && key[0] != '#'
    && '=' !in key && '\n' !in key
  }

  ghost predicate DistinctNames(vars: Vars) {
    forall i, j :: 0 <= i < j < |vars| ==> vars[i].0 != vars[j].0
  }

  ghost predicate Readable(vars: Vars) {
    DistinctNames(vars) && forall i :: 0 <= i < |vars| ==> KeyOk(vars[i].0) && '\n' !in vars[i].1
  }

  // Setting a name changes its value in place, or adds it at the end.
  lemma {:induction false} PutInPlace(vars: Vars, key: string, value: string)
    ensures
      var r := Put(vars, key, value);
      && |vars| <= |r| <= |vars| + 1
      && (forall i :: 0 <= i < |vars| ==> r[i].0 == vars[i].0 && (r[i] == vars[i] || r[i] == (key, value)))
      && (|r| == |vars| + 1 ==> r[|vars|] == (key, value) && forall i :: 0 <= i < |vars| ==> vars[i].0 != key)
  {
    if vars != [] && vars[0].0 != key {
      PutInPlace(vars[1..], key, value);
    }
  }

  lemma PutReadable(vars: Vars, key: string, value: string)
    requires Readable(vars) && KeyOk(key) && '\n' !in value
    ensures Readable(Put(vars, key, value))
  {
    PutInPlace(vars, key, value);
    hide Put, KeyOk;
    var r := Put(vars, key, value);
    forall i | 0 <= i < |r| ensures KeyOk(r[i].0) && '\n' !in r[i].1 {
      assert r[i] == (key, value) || (i < |vars| && r[i] == vars[i]);
    }
  }

  // Trimming keeps the first character that is not white space.
  lemma TrimHead(s: string)
    requires s != "" && !IsSpace(s[0])
    ensures Trim(s) != "" && Trim(s)[0] == s[0] && Trim(s) <= s
  {
    TrimEndKeeps(s);
    TrimEndFacts(s);
  }

  // The name and the value of a line, before they are cleaned.
  lemma Fields(t: string)
    requires |Split(t, '=')| > 1
    ensures
      var parts := Split(t, '=');
      && parts[0] + "=" + Join(parts[1..], "=") == t
      && '=' !in parts[0]
  {
    JoinSplit(t, '=');
    SplitParts(t, '=');
    assert "=" == ['='];
  }

  lemma NameOk(t: string, name: string)
    requires name != "" && name <= t && t[0] != '#' && !IsSpace(t[0]) && '=' !in name && '\n' !in t
    ensures KeyOk(Trim(name))
  {
    TrimHead(name);
    TrimFacts(name);
    assert '\n' !in name;
  }

  lemma ValueOk(t: string, name: string, value: string)
    requires t == name + "=" + value && '\n' !in t
    ensures '\n' !in Unquote(value)
  {
    assert forall i :: 0 <= i < |value| ==> t[|name| + 1 + i] == value[i];
  }

  lemma ReadLineReadable(vars: Vars, line: string)
    requires Readable(vars) && '\n' !in line
    ensures Readable(ReadLine(vars, line))
  {
    var t := Trim(line);
    var parts := Split(t, '=');
    if t != "" && t[0] != '#' && parts[0] != "" && |parts| > 1 {
      var name, value := parts[0], Join(parts[1..], "=");
      TrimFacts(line);
      Fields(t);
      hide *;
      NameOk(t, name);
      ValueOk(t, name, value);
      PutReadable(vars, Trim(name), Unquote(value));
    }
  }

  lemma {:induction false} ReadLinesReadable(vars: Vars, lines: seq<string>)
    requires Readable(vars) && forall i :: 0 <= i < |lines| ==> '\n' !in lines[i]
    ensures Readable(ReadLines(vars, lines))
    decreases |lines|
  {
    if lines != [] {
      ReadLineReadable(vars, lines[0]);
      ReadLinesReadable(ReadLine(vars, lines[0]), lines[1..]);
    }
  }

  // Reading any text gives distinct names that can be written back.
  lemma ReadReadable(text: string)
    ensures Readable(Read(text))
  {
    SplitParts(text, '\n');
    ReadLinesReadable([], Split(text, '\n'));
  }

  // ------------------------------------------------------------------
  // The writer
  // ------------------------------------------------------------------

  datatype Line =
    | Blank
    | Note(text: string)
    | Unset(name: string)
    | Assign(key: string, value: string)

  function TextOf(line: Line): string {
    match line
    case Blank => ""
    case Note(text) => "# " + text
    case Unset(name) => "#" + name + "=\"\""
    case Assign(key, value) => key + "=" + ("\"" + value + "\"")
  }

  function Render(lines: seq<Line>): string {
    if lines == [] then "" else TextOf(lines[0]) + "\n" + Render(lines[1..])
  }

  lemma {:induction false} RenderAppend(a: seq<Line>, b: seq<Line>)
    ensures Render(a + b) == Render(a) + Render(b)
  {
    if a == [] {
      assert a + b == b;
    } else {
      assert (a + b)[0] == a[0] && (a + b)[1..] == a[1..] + b;
      RenderAppend(a[1..], b);
    }
  }

  lemma {:induction false} RenderEnds(lines: seq<Line>)
    requires lines != []
    ensures Render(lines) != "" && Last(Render(lines)) == '\n'
  {
    if |lines| > 1 {
      RenderEnds(lines[1..]);
    }
  }

  // What reading a value back gives when it was written between quotes.
  function Reread(value: string): string {
    Unquote("\"" + value + "\"")
  }

  // A value is read back unless it holds a line terminator; then it comes back
  // in quotes.
  lemma RereadExactly(value: string)
    ensures Reread(value) == if OneLine(value) then value else "\"" + value + "\""
    ensures Reread(value) == value <==>
      forall i :: 0 <= i < |value| ==>
        value[i] != '\n' && value[i] != '\r' && value[i] != '\U{2028}' && value[i] != '\U{2029}'
  {
    var s := "\"" + value + "\"";
    assert s[1..|s| - 1] == value;
  }

  // What reading skips: blank lines, comments, and lines without a name and `=`.
  lemma ReadIgnores(vars: Vars, line: string)
    requires
      var text := Trim(line);
      text == "" || text[0] == '#' || text[0] == '=' || '=' !in text
    ensures ReadLine(vars, line) == vars
  {
    var text := Trim(line);
    hide Trim;
    if '=' !in text {
      SplitAt(text, "", '=');
    }
  }

  // Quotes are taken off only in pairs, one at each end.
  lemma UnquoteOnlyPairs(s: string)
    requires |s| < 2 || s[0] != '"' || s[|s| - 1] != '"'
    ensures Unquote(s) == s
  {
  }

  // A name and a value on a line, the value not ending in white space.
  lemma ReadPlain(vars: Vars, key: string, value: string)
    requires KeyOk(key) && value != "" && !IsSpace(value[|value| - 1])
    ensures ReadLine(vars, key + "=" + value) == Put(vars, key, Unquote(value))
  {
    var line := key + "=" + value;
    assert "=" == ['='];
    assert line[0] == key[0] && line[|line| - 1] == value[|value| - 1];
    TrimFixed(line);
    TrimFixed(key);
    SplitAt(key, value, '=');
    JoinSplit(value, '=');
    hide Trim, Split, Join;
    assert ([key] + Split(value, '='))[1..] == Split(value, '=');
  }

  lemma ReadAssign(vars: Vars, key: string, value: string)
    requires KeyOk(key)
    ensures ReadLine(vars, TextOf(Assign(key, value))) == Put(vars, key, Reread(value))
  {
    ReadPlain(vars, key, "\"" + value + "\"");
  }

  lemma ReadComment(vars: Vars, line: string)
    requires line != "" && line[0] == '#'
    ensures ReadLine(vars, line) == vars
  {
    TrimHead(line);
  }

  predicate LineOk(line: Line) {
    '\n' !in TextOf(line) && (line.Assign? ==> KeyOk(line.key))
  }

  function Effect(vars: Vars, line: Line): Vars {
    if line.Assign? then Put(vars, line.key, Reread(line.value)) else vars
  }

  function Effects(vars: Vars, lines: seq<Line>): Vars
    decreases |lines|
  {
    if lines == [] then vars else Effects(Effect(vars, lines[0]), lines[1..])
  }

  lemma ReadWritten(vars: Vars, line: Line)
    requires LineOk(line)
    ensures ReadLine(vars, TextOf(line)) == Effect(vars, line)
  {
    match line
    case Blank =>
      assert Trim("") == "";
    case Note(text) =>
      ReadComment(vars, TextOf(line));
    case Unset(name) =>
      ReadComment(vars, TextOf(line));
    case Assign(key, value) =>
      ReadAssign(vars, key, value);
  }

  // Reading what was written.
  lemma {:induction false} ReadRendered(vars: Vars, lines: seq<Line>)
    requires forall i :: 0 <= i < |lines| ==> LineOk(lines[i])
    ensures ReadLines(vars, Split(Render(lines), '\n')) == Effects(vars, lines)
    decreases |lines|
  {
    if lines == [] {
      ReadNothing(vars);
      assert Split("", '\n') == [""];
    } else {
      var text, rest := TextOf(lines[0]), Render(lines[1..]);
      assert LineOk(lines[0]);
      ReadWritten(vars, lines[0]);
      ReadRendered(Effect(vars, lines[0]), lines[1..]);
      assert "\n" == ['\n'];
      SplitAt(text, rest, '\n');
      hide Split, ReadLine, TextOf;
      assert ([text] + Split(rest, '\n'))[1..] == Split(rest, '\n');
    }
  }

  lemma {:induction false} EffectsAppend(vars: Vars, a: seq<Line>, b: seq<Line>)
    ensures Effects(vars, a + b) == Effects(Effects(vars, a), b)
    decreases |a|
  {
    if a == [] {
      assert a + b == b;
    } else {
      assert (a + b)[0] == a[0] && (a + b)[1..] == a[1..] + b;
      EffectsAppend(Effect(vars, a[0]), a[1..], b);
    }
  }
}
