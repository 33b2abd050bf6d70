// buildFileTree (sdk/src/session.ts): a directory trie built path by path, then
// turned into sorted nodes.
module FileTree {
  import opened Wrappers
  import opened Text
  import opened Sorting

  datatype Node =
    | DirNode(name: string, path: string, children: seq<Node>)
    | FileNode(name: string, path: string)

  // The trie while it is built. `dirs` is the Map from names, in insertion
  // order.
  datatype Dir = Dir(name: string, path: string, dirs: seq<Dir>, files: seq<Node>)

  const ROOT := Dir("", "", [], [])

  // A path and its non-empty segments.
  datatype Entry = Entry(parts: seq<string>, path: string)

  function NonEmpty(parts: seq<string>): (r: seq<string>)
    ensures forall i :: 0 <= i < |r| ==> r[i] != ""
  {
    if parts == [] then []
    else if parts[0] == "" then NonEmpty(parts[1..])
    else [parts[0]] + NonEmpty(parts[1..])
  }

  // p.split('/').filter(Boolean)
  function Segments(p: string): (r: seq<string>)
    ensures forall i :: 0 <= i < |r| ==> r[i] != ""
  {
    NonEmpty(Split(p, '/'))
  }

  function DirNames(dirs: seq<Dir>): (r: seq<string>)
    ensures |r| == |dirs| && forall i :: 0 <= i < |dirs| ==> r[i] == dirs[i].name
  {
    seq(|dirs|, i requires 0 <= i < |dirs| => dirs[i].name)
  }

  // The Map's entry for a name.
  function FindDir(dirs: seq<Dir>, name: string): (r: Option<nat>)
    ensures r.Some? ==> r.value < |dirs| && dirs[r.value].name == name
    ensures r.None? ==> forall i :: 0 <= i < |dirs| ==> dirs[i].name != name
  {
    IndexOf(DirNames(dirs), name)
  }

  function Child(d: Dir, part: string): Dir {
    Dir(part, if d.path == "" then part else d.path + "/" + part, [], [])
  }

  // Walking down from `d`, making the directories that are missing.
  function InsertPath(d: Dir, parts: seq<string>, p: string): Dir
    decreases |parts|
  {
    if parts == [] then d
    else if |parts| == 1 then d.(files := d.files + [FileNode(parts[0], p)])
    else match FindDir(d.dirs, parts[0])
      case Some(i) => d.(dirs := d.dirs[i := InsertPath(d.dirs[i], parts[1..], p)])
      case None => d.(dirs := d.dirs + [InsertPath(Child(d, parts[0]), parts[1..], p)])
  }

  function Fold(d: Dir, entries: seq<Entry>): Dir {
    if entries == [] then d
    else InsertPath(Fold(d, Init(entries)), Last(entries).parts, Last(entries).path)
  }

  // Keep and convert.
  function Select<A, B>(s: seq<A>, f: A -> Option<B>): seq<B> {
    if s == [] then []
    else match f(Last(s))
      case None => Select(Init(s), f)
      case Some(b) => Select(Init(s), f) + [b]
  }

  function ToEntry(p: string): Option<Entry> {
    if Segments(p) == [] then None else Some(Entry(Segments(p), p))
  }

  function Entries(paths: seq<string>): seq<Entry> {
    Select(paths, ToEntry)
  }

  // The loop over the paths builds the fold over their entries.
  method BuildTrie(paths: seq<string>) returns (root: Dir)
    ensures root == Fold(ROOT, Entries(paths))
  {
    root := ROOT;
    var i := 0;
    while i < |paths|
      invariant 0 <= i <= |paths|
      invariant root == Fold(ROOT, Entries(paths[..i]))
    {
      assert Init(paths[..i + 1]) == paths[..i] && Last(paths[..i + 1]) == paths[i];
      root := InsertPath(root, Segments(paths[i]), paths[i]);
      if ToEntry(paths[i]).Some? {
        assert Init(Entries(paths[..i + 1])) == Entries(paths[..i]);
      }
      i := i + 1;
    }
    assert paths[..i] == paths;
  }

  function NameLeq(leq: (string, string) -> bool): (Node, Node) -> bool {
    (a: Node, b: Node) => leq(a.name, b.name)
  }

  // toNodes. Sorting by name before or after the conversion is the same.
  function ToNodes(d: Dir, leq: (string, string) -> bool): seq<Node> {
    Sort(DirNodes(d.dirs, leq), NameLeq(leq)) + Sort(d.files, NameLeq(leq))
  }

  function DirNodes(dirs: seq<Dir>, leq: (string, string) -> bool): seq<Node> {
    if dirs == [] then []
    else [DirNode(dirs[0].name, dirs[0].path, ToNodes(dirs[0], leq))] + DirNodes(dirs[1..], leq)
  }

  function Tree(paths: seq<string>, leq: (string, string) -> bool): seq<Node> {
    ToNodes(Fold(ROOT, Entries(paths)), leq)
  }

  method BuildFileTree(paths: seq<string>, leq: (string, string) -> bool) returns (nodes: seq<Node>)
    ensures nodes == Tree(paths, leq)
  {
    var root := BuildTrie(paths);
    nodes := ToNodes(root, leq);
  }

  // ------------------------------------------------------------------
  // The trie of a directory, by what was inserted below it
  // ------------------------------------------------------------------

  function AsFile(e: Entry): Option<Node> {
    if |e.parts| == 1 then Some(FileNode(e.parts[0], e.path)) else None
  }

  function Below(name: string): Entry -> Option<Entry> {
    (e: Entry) => if |e.parts| >= 2 && e.parts[0] == name then Some(Entry(e.parts[1..], e.path)) else None
  }

  ghost predicate Names(entries: seq<Entry>, name: string) {
    exists e :: e in entries && |e.parts| >= 2 && e.parts[0] == name
  }

  // The directory a trie below `d` must have for `name`.
  function Expected(d: Dir, entries: seq<Entry>, name: string): Dir {
    Fold(Child(d, name), Select(entries, Below(name)))
  }

  ghost predicate Distinct(dirs: seq<Dir>) {
    forall i, j :: 0 <= i < j < |dirs| ==> dirs[i].name != dirs[j].name
  }

  ghost predicate Has(dirs: seq<Dir>, name: string) {
    exists i :: 0 <= i < |dirs| && dirs[i].name == name
  }

  ghost predicate Shape(d: Dir, t: Dir, entries: seq<Entry>) {
    && t.name == d.name && t.path == d.path
    && t.files == Select(entries, AsFile)
    && Distinct(t.dirs)
    && (forall i :: 0 <= i < |t.dirs| ==> t.dirs[i] == Expected(d, entries, t.dirs[i].name))
    && (forall name :: Has(t.dirs, name) <==> Names(entries, name))
  }

  lemma {:induction false} FoldShape(d: Dir, entries: seq<Entry>)
    requires d.dirs == [] && d.files == []
    ensures Shape(d, Fold(d, entries), entries)
  {
    hide Shape;
    if entries != [] {
      FoldShape(d, Init(entries));
      assert entries == Init(entries) + [Last(entries)];
      ShapeStep(d, Fold(d, Init(entries)), Init(entries), Last(entries));
    } else {
      EmptyShape(d);
    }
  }

  lemma EmptyShape(d: Dir)
    requires d.dirs == [] && d.files == []
    ensures Shape(d, d, [])
  {
  }

  lemma SelectSnoc<A, B>(s: seq<A>, x: A, f: A -> Option<B>)
    ensures Select(s + [x], f) == if f(x).None? then Select(s, f) else Select(s, f) + [f(x).value]
  {
    assert Init(s + [x]) == s;
  }

  lemma NamesSnoc(entries: seq<Entry>, e: Entry, name: string)
    ensures Names(entries + [e], name) <==> Names(entries, name) || (|e.parts| >= 2 && e.parts[0] == name)
  {
    assert forall x :: x in entries + [e] <==> x in entries || x == e;
  }

  lemma {:induction false} FoldName(d: Dir, entries: seq<Entry>)
    ensures Fold(d, entries).name == d.name && Fold(d, entries).path == d.path
  {
    if entries != [] {
      FoldName(d, Init(entries));
    }
  }

  // One more entry for `name` inserts it into the expected directory.
  lemma ExpectedSnoc(d: Dir, entries: seq<Entry>, e: Entry, name: string)
    ensures Expected(d, entries + [e], name) ==
      if |e.parts| >= 2 && e.parts[0] == name then InsertPath(Expected(d, entries, name), e.parts[1..], e.path)
      else Expected(d, entries, name)
    ensures Expected(d, entries, name).name == name
  {
    SelectSnoc(entries, e, Below(name));
    FoldName(Child(d, name), Select(entries, Below(name)));
    if |e.parts| >= 2 && e.parts[0] == name {
      var sub := Select(entries, Below(name));
      assert Init(sub + [Entry(e.parts[1..], e.path)]) == sub;
    }
  }

  lemma ShapeStep(d: Dir, t: Dir, entries: seq<Entry>, e: Entry)
    requires Shape(d, t, entries) && d.dirs == [] && d.files == []
    ensures Shape(d, InsertPath(t, e.parts, e.path), entries + [e])
  {
    SelectSnoc(entries, e, AsFile);
    if |e.parts| < 2 {
    } else {
      ShapeDir(d, t, entries, e);
    }
  }

  lemma ShapeDir(d: Dir, t: Dir, entries: seq<Entry>, e: Entry)
    requires Shape(d, t, entries) && |e.parts| >= 2 && d.dirs == [] && d.files == []
    ensures Shape(d, InsertPath(t, e.parts, e.path), entries + [e])
  {
    hide Expected, Names, InsertPath;
    var name := e.parts[0];
    var at := FindDir(t.dirs, name);
    SelectSnoc(entries, e, AsFile);
    ExpectedSnoc(d, entries, e, name);
    InsertUnfold(t, e.parts, e.path);
    var u := InsertPath(t, e.parts, e.path);
    var dir := Expected(d, entries + [e], name);
    if at.None? {
      assert !Has(t.dirs, name);
      NewDirectory(d, t, entries, name);
      assert u.dirs == t.dirs + [dir];
    } else {
      assert t.dirs[at.value] == Expected(d, entries, name);
      assert u.dirs == t.dirs[at.value := dir];
    }
    InsertName(Expected(d, entries, name), e.parts[1..], e.path);
    forall i | 0 <= i < |u.dirs| ensures u.dirs[i] == Expected(d, entries + [e], u.dirs[i].name) {
      ExpectedSnoc(d, entries, e, u.dirs[i].name);
    }
    forall n ensures Has(u.dirs, n) <==> Names(entries + [e], n) {
      NamesSnoc(entries, e, n);
      HasAfter(t.dirs, u.dirs, at, dir, n);
    }
  }

  lemma HasAfter(before: seq<Dir>, after: seq<Dir>, at: Option<nat>, dir: Dir, n: string)
    requires at.None? ==> after == before + [dir]
    requires at.Some? ==> at.value < |before| && after == before[at.value := dir] && before[at.value].name == dir.name
    ensures Has(after, n) <==> Has(before, n) || n == dir.name
  {
    assert after[if at.None? then |before| else at.value] == dir;
    if Has(before, n) {
      var i :| 0 <= i < |before| && before[i].name == n;
      assert after[i].name == n;
    }
  }

  lemma InsertName(d: Dir, parts: seq<string>, p: string)
    ensures InsertPath(d, parts, p).name == d.name && InsertPath(d, parts, p).path == d.path
  {
  }

  lemma InsertUnfold(d: Dir, parts: seq<string>, p: string)
    requires |parts| >= 2
    ensures InsertPath(d, parts, p) == match FindDir(d.dirs, parts[0])
      case Some(i) => d.(dirs := d.dirs[i := InsertPath(d.dirs[i], parts[1..], p)])
      case None => d.(dirs := d.dirs + [InsertPath(Child(d, parts[0]), parts[1..], p)])
  {
  }

  lemma NewDirectory(d: Dir, t: Dir, entries: seq<Entry>, name: string)
    requires Shape(d, t, entries) && !Has(t.dirs, name)
    ensures Expected(d, entries, name) == Child(t, name)
  {
    assert !Names(entries, name);
    NoneBelow(entries, name);
  }

  lemma {:induction false} NoneBelow(entries: seq<Entry>, name: string)
    requires !Names(entries, name)
    ensures Select(entries, Below(name)) == []
  {
    if entries != [] {
      assert Last(entries) in entries;
      NoneBelow(Init(entries), name);
    }
  }

  // ------------------------------------------------------------------
  // The tree is exact
  // ------------------------------------------------------------------

  // The paths of all file nodes, with multiplicity.
  function Paths(nodes: seq<Node>): multiset<string> {
    if nodes == [] then multiset{}
    else Own(nodes[0]) + Paths(nodes[1..])
  }

  function Own(n: Node): multiset<string> {
    match n
    case FileNode(_, path) => multiset{path}
    case DirNode(_, _, children) => Paths(children)
  }

  lemma {:induction false} PathsAppend(a: seq<Node>, b: seq<Node>)
    ensures Paths(a + b) == Paths(a) + Paths(b)
  {
    if a == [] {
      assert a + b == b;
    } else {
      assert (a + b)[0] == a[0] && (a + b)[1..] == a[1..] + b;
      PathsAppend(a[1..], b);
    }
  }

  lemma {:induction false} PathsInsert(x: Node, s: seq<Node>, leq: (Node, Node) -> bool)
    ensures Paths(Insert(x, s, leq)) == Own(x) + Paths(s)
  {
    if s == [] || leq(x, s[0]) {
      assert ([x] + s)[1..] == s;
    } else {
      PathsInsert(x, s[1..], leq);
      assert Insert(x, s, leq)[1..] == Insert(x, s[1..], leq);
    }
  }

  lemma {:induction false} PathsSort(s: seq<Node>, leq: (Node, Node) -> bool)
    ensures Paths(Sort(s, leq)) == Paths(s)
  {
    if s != [] {
      PathsSort(s[1..], leq);
      PathsInsert(s[0], Sort(s[1..], leq), leq);
    }
  }

  // The same, on the trie.
  function Stored(d: Dir): multiset<string> {
    StoredAll(d.dirs) + Paths(d.files)
  }

  function StoredAll(dirs: seq<Dir>): multiset<string> {
    if dirs == [] then multiset{} else Stored(dirs[0]) + StoredAll(dirs[1..])
  }

  lemma {:induction false} ToNodesStored(d: Dir, leq: (string, string) -> bool)
    ensures Paths(ToNodes(d, leq)) == Stored(d)
    decreases d, 1
  {
    var dirs, files := DirNodes(d.dirs, leq), d.files;
    DirNodesStored(d.dirs, leq);
    PathsAppend(Sort(dirs, NameLeq(leq)), Sort(files, NameLeq(leq)));
    PathsSort(dirs, NameLeq(leq));
    PathsSort(files, NameLeq(leq));
  }

  lemma {:induction false} DirNodesStored(dirs: seq<Dir>, leq: (string, string) -> bool)
    ensures Paths(DirNodes(dirs, leq)) == StoredAll(dirs)
    decreases dirs, 0
  {
    if dirs != [] {
      ToNodesStored(dirs[0], leq);
      DirNodesStored(dirs[1..], leq);
      var node := DirNode(dirs[0].name, dirs[0].path, ToNodes(dirs[0], leq));
      assert ([node] + DirNodes(dirs[1..], leq))[1..] == DirNodes(dirs[1..], leq);
    }
  }

  lemma {:induction false} StoredUpdate(dirs: seq<Dir>, i: nat, d: Dir, p: string)
    requires i < |dirs| && Stored(d) == Stored(dirs[i]) + multiset{p}
    ensures StoredAll(dirs[i := d]) == StoredAll(dirs) + multiset{p}
  {
    if i > 0 {
      StoredUpdate(dirs[1..], i - 1, d, p);
      assert dirs[i := d][1..] == dirs[1..][i - 1 := d];
    } else {
      assert dirs[i := d][1..] == dirs[1..];
    }
  }

  lemma {:induction false} StoredPush(dirs: seq<Dir>, d: Dir)
    ensures StoredAll(dirs + [d]) == StoredAll(dirs) + Stored(d)
  {
    if dirs == [] {
      assert dirs + [d] == [d] && [d][1..] == [];
    } else {
      assert (dirs + [d])[0] == dirs[0] && (dirs + [d])[1..] == dirs[1..] + [d];
      StoredPush(dirs[1..], d);
    }
  }

  lemma {:induction false} InsertStored(d: Dir, parts: seq<string>, p: string)
    requires parts != []
    ensures Stored(InsertPath(d, parts, p)) == Stored(d) + multiset{p}
    decreases |parts|
  {
    hide Stored, StoredAll, Paths;
    StoredUnfold(d);
    StoredUnfold(InsertPath(d, parts, p));
    if |parts| == 1 {
      var node := FileNode(parts[0], p);
      PathsAppend(d.files, [node]);
      assert Paths([node]) == multiset{p} by { PathsOne(node); }
    } else {
      match FindDir(d.dirs, parts[0])
      case Some(i) =>
        InsertStored(d.dirs[i], parts[1..], p);
        StoredUpdate(d.dirs, i, InsertPath(d.dirs[i], parts[1..], p), p);
      case None =>
        var child := Child(d, parts[0]);
        InsertStored(child, parts[1..], p);
        assert Stored(child) == multiset{} by { StoredEmpty(child); }
        StoredPush(d.dirs, InsertPath(child, parts[1..], p));
    }
  }

  lemma StoredUnfold(d: Dir)
    ensures Stored(d) == StoredAll(d.dirs) + Paths(d.files)
  {
  }

  lemma StoredEmpty(d: Dir)
    requires d.dirs == [] && d.files == []
    ensures Stored(d) == multiset{}
  {
  }

  lemma PathsOne(n: Node)
    ensures Paths([n]) == Own(n)
  {
    assert [n][1..] == [];
  }

  // The input paths with at least one non-empty segment.
  function WithSegments(paths: seq<string>): seq<string> {
    Filter(paths, (p: string) => Segments(p) != [])
  }

  lemma {:induction false} FoldStored(paths: seq<string>)
    ensures Stored(Fold(ROOT, Entries(paths))) == multiset(WithSegments(paths))
  {
    if paths == [] {
      StoredEmpty(ROOT);
    } else {
      var before, p := Init(paths), Last(paths);
      assert paths == before + [p];
      FoldStored(before);
      SelectSnoc(before, p, ToEntry);
      FilterAppend(before, [p], (q: string) => Segments(q) != []);
      assert Filter([p], (q: string) => Segments(q) != []) == if Segments(p) == [] then [] else [p] by {
        assert [p][1..] == [];
      }
      if Segments(p) != [] {
        assert Init(Entries(before) + [Entry(Segments(p), p)]) == Entries(before);
        InsertStored(Fold(ROOT, Entries(before)), Segments(p), p);
      }
    }
  }

  // Flattening the tree gives back the input paths, each as often as it was
  // given, except those without a non-empty segment.
  lemma TreeExact(paths: seq<string>, leq: (string, string) -> bool)
    ensures Paths(Tree(paths, leq)) == multiset(WithSegments(paths))
  {
    ToNodesStored(Fold(ROOT, Entries(paths)), leq);
    FoldStored(paths);
  }

  // ------------------------------------------------------------------
  // Every node is in its place
  // ------------------------------------------------------------------

  // Siblings are sorted, directories first and each name once among them;
  // every directory is non-empty and its path is the slash-join of the names
  // above it; every file is in the directory that its path's segments name.
  ghost predicate InPlace(nodes: seq<Node>, above: seq<string>, leq: (string, string) -> bool)
    decreases nodes
  {
    && (forall i, j :: 0 <= i < j < |nodes| ==> nodes[j].DirNode? ==> nodes[i].DirNode?)
    && (forall i, j :: 0 <= i < j < |nodes| && nodes[i].DirNode? == nodes[j].DirNode? ==> leq(nodes[i].name, nodes[j].name))
    && (forall i, j :: 0 <= i < j < |nodes| && nodes[i].DirNode? && nodes[j].DirNode? ==> nodes[i].name != nodes[j].name)
    && (forall i :: 0 <= i < |nodes| ==> OneInPlace(nodes[i], above, leq))
  }

  ghost predicate OneInPlace(n: Node, above: seq<string>, leq: (string, string) -> bool)
    decreases n
  {
    match n
    case FileNode(name, path) => Segments(path) == above + [name]
    case DirNode(name, path, children) =>
      children != [] && path == Join(above + [name], "/") && InPlace(children, above + [name], leq)
  }

  // The same, on the trie.
  ghost predicate Grown(d: Dir, above: seq<string>)
    decreases d
  {
    && d.path == Join(above, "/") && (above != [] ==> d.path != "")
    && (forall i :: 0 <= i < |d.files| ==> d.files[i].FileNode? && Segments(d.files[i].path) == above + [d.files[i].name])
    && Distinct(d.dirs)
    && (forall i :: 0 <= i < |d.dirs| ==>
          Grown(d.dirs[i], above + [d.dirs[i].name]) && (d.dirs[i].dirs != [] || d.dirs[i].files != []))
  }

  lemma {:induction false} JoinSnoc(parts: seq<string>, x: string)
    ensures Join(parts + [x], "/") == if parts == [] then x else Join(parts, "/") + "/" + x
  {
    if parts == [] {
      assert parts + [x] == [x];
    } else {
      assert (parts + [x])[0] == parts[0] && (parts + [x])[1..] == parts[1..] + [x];
      JoinSnoc(parts[1..], x);
      if |parts| > 1 {
        assert parts[0] + "/" + (Join(parts[1..], "/") + "/" + x) == (parts[0] + "/" + Join(parts[1..], "/")) + "/" + x;
      }
    }
  }

  lemma ChildGrown(d: Dir, above: seq<string>, part: string)
    requires Grown(d, above) && part != ""
    ensures Grown(Child(d, part), above + [part])
  {
    JoinSnoc(above, part);
  }

  lemma {:induction false} InsertGrown(d: Dir, above: seq<string>, parts: seq<string>, p: string)
    requires Grown(d, above) && parts != [] && Segments(p) == above + parts && (forall i :: 0 <= i < |parts| ==> parts[i] != "")
    ensures Grown(InsertPath(d, parts, p), above)
    ensures InsertPath(d, parts, p).dirs != [] || InsertPath(d, parts, p).files != []
    decreases |parts|
  {
    hide Segments, Join, FindDir;
    if |parts| == 1 {
      assert parts == [parts[0]];
    } else {
      var name := parts[0];
      assert above + parts == (above + [name]) + parts[1..];
      match FindDir(d.dirs, name)
      case Some(i) =>
        InsertGrown(d.dirs[i], above + [name], parts[1..], p);
        InsertName(d.dirs[i], parts[1..], p);
      case None =>
        ChildGrown(d, above, name);
        InsertGrown(Child(d, name), above + [name], parts[1..], p);
        InsertName(Child(d, name), parts[1..], p);
    }
  }

  lemma {:induction false} FoldGrown(paths: seq<string>)
    ensures Grown(Fold(ROOT, Entries(paths)), [])
  {
    if paths != [] {
      var before, p := Init(paths), Last(paths);
      assert paths == before + [p];
      FoldGrown(before);
      SelectSnoc(before, p, ToEntry);
      if Segments(p) != [] {
        assert Init(Entries(before) + [Entry(Segments(p), p)]) == Entries(before);
        assert [] + Segments(p) == Segments(p);
        InsertGrown(Fold(ROOT, Entries(before)), [], Segments(p), p);
      }
    }
  }

  // The node of a directory, with its place among its siblings ignored.
  lemma {:induction false} DirNodesAt(dirs: seq<Dir>, leq: (string, string) -> bool)
    ensures |DirNodes(dirs, leq)| == |dirs|
    ensures forall i :: 0 <= i < |dirs| ==>
      DirNodes(dirs, leq)[i] == DirNode(dirs[i].name, dirs[i].path, ToNodes(dirs[i], leq))
  {
    if dirs != [] {
      DirNodesAt(dirs[1..], leq);
    }
  }

  lemma NameLeqTotal(leq: (string, string) -> bool)
    requires TotalPreorder(leq)
    ensures TotalPreorder(NameLeq(leq))
  {
    var order := NameLeq(leq);
    forall x: Node, y: Node ensures order(x, y) || order(y, x) {
      assert leq(x.name, y.name) || leq(y.name, x.name);
    }
    forall x: Node, y: Node, z: Node | order(x, y) && order(y, z) ensures order(x, z) {
      assert leq(x.name, y.name) && leq(y.name, z.name);
    }
  }

  // A sorted run of directories followed by one of files.
  lemma Combine(dirs: seq<Node>, files: seq<Node>, above: seq<string>, leq: (string, string) -> bool)
    requires Sorted(dirs, NameLeq(leq)) && Sorted(files, NameLeq(leq)) && DistinctNames(dirs)
    requires forall i :: 0 <= i < |dirs| ==> dirs[i].DirNode? && OneInPlace(dirs[i], above, leq)
    requires forall i :: 0 <= i < |files| ==> files[i].FileNode? && OneInPlace(files[i], above, leq)
    ensures InPlace(dirs + files, above, leq)
  {
    hide OneInPlace;
    var nodes := dirs + files;
    assert forall i :: 0 <= i < |nodes| ==> (nodes[i].DirNode? <==> i < |dirs|) && OneInPlace(nodes[i], above, leq);
    forall i, j | 0 <= i < j < |nodes| && nodes[i].DirNode? == nodes[j].DirNode?
      ensures leq(nodes[i].name, nodes[j].name)
    {
      if j < |dirs| {
        assert NameLeq(leq)(dirs[i], dirs[j]);
      } else {
        assert NameLeq(leq)(files[i - |dirs|], files[j - |dirs|]);
      }
    }
  }

  lemma {:induction false} ToNodesInPlace(d: Dir, above: seq<string>, leq: (string, string) -> bool)
    requires Grown(d, above) && TotalPreorder(leq)
    ensures InPlace(ToNodes(d, leq), above, leq)
    ensures d.dirs != [] || d.files != [] ==> ToNodes(d, leq) != []
    decreases d
  {
    hide Segments, Join, InPlace, Sort;
    var order := NameLeq(leq);
    var dirs := DirNodes(d.dirs, leq);
    NameLeqTotal(leq);
    DirNodesAt(d.dirs, leq);
    forall i | 0 <= i < |dirs| ensures dirs[i].DirNode? && OneInPlace(dirs[i], above, leq) {
      ToNodesInPlace(d.dirs[i], above + [d.dirs[i].name], leq);
    }
    SortKeeps(dirs, order, (n: Node) => n.DirNode? && OneInPlace(n, above, leq));
    SortKeeps(d.files, order, (n: Node) => n.FileNode? && OneInPlace(n, above, leq));
    SortDistinct(dirs, leq);
    Combine(Sort(dirs, order), Sort(d.files, order), above, leq);
  }

  lemma SortKeeps(s: seq<Node>, leq: (Node, Node) -> bool, p: Node -> bool)
    requires TotalPreorder(leq) && forall i :: 0 <= i < |s| ==> p(s[i])
    ensures |Sort(s, leq)| == |s| && Sorted(Sort(s, leq), leq)
    ensures forall i :: 0 <= i < |s| ==> p(Sort(s, leq)[i])
  {
    SortMultiset(s, leq);
    SortSorted(s, leq);
    forall i | 0 <= i < |s| ensures p(Sort(s, leq)[i]) {
      assert Sort(s, leq)[i] in multiset(Sort(s, leq));
      assert Sort(s, leq)[i] in s;
    }
  }

  // Different names stay different under a permutation.
  ghost predicate DistinctNames(s: seq<Node>) {
    forall i, j :: 0 <= i < j < |s| ==> s[i].name != s[j].name
  }

  lemma {:induction false} InsertDistinct(x: Node, s: seq<Node>, leq: (Node, Node) -> bool)
    requires DistinctNames(s) && forall i :: 0 <= i < |s| ==> s[i].name != x.name
    ensures DistinctNames(Insert(x, s, leq))
  {
    if !(s == [] || leq(x, s[0])) {
      InsertDistinct(x, s[1..], leq);
      InsertMultiset(x, s[1..], leq);
      var rest := Insert(x, s[1..], leq);
      forall i | 0 <= i < |rest| ensures rest[i].name != s[0].name {
        assert rest[i] in multiset(rest);
        assert rest[i] == x || rest[i] in s[1..];
      }
    }
  }

  lemma {:induction false} SortDistinct(s: seq<Node>, leq: (string, string) -> bool)
    requires DistinctNames(s)
    ensures DistinctNames(Sort(s, NameLeq(leq)))
  {
    var order := NameLeq(leq);
    if s != [] {
      var rest := Sort(s[1..], order);
      SortDistinct(s[1..], leq);
      SortMultiset(s[1..], order);
      forall i | 0 <= i < |rest| ensures rest[i].name != s[0].name {
        assert rest[i] in multiset(rest);
        assert rest[i] in s[1..];
      }
      InsertDistinct(s[0], rest, order);
    }
  }

  lemma TreeInPlace(paths: seq<string>, leq: (string, string) -> bool)
    requires TotalPreorder(leq)
    ensures InPlace(Tree(paths, leq), [], leq)
  {
    FoldGrown(paths);
    ToNodesInPlace(Fold(ROOT, Entries(paths)), [], leq);
  }
}
