// When the tree of buildFileTree (sdk/src/session.ts) does not depend on the
// order of its input.
module FileTreeOrder {
  import opened Wrappers
  import opened Text
  import opened Sorting
  import opened FileTree

  // ------------------------------------------------------------------
  // Selections of permutations
  // ------------------------------------------------------------------

  lemma {:induction false} SelectAppend<A, B>(a: seq<A>, b: seq<A>, f: A -> Option<B>)
    ensures Select(a + b, f) == Select(a, f) + Select(b, f)
  {
    if b == [] {
      assert a + b == a;
    } else {
      var c, x := Init(b), Last(b);
      assert b == c + [x] && a + b == (a + c) + [x];
      SelectAppend(a, c, f);
      SelectSnoc(a + c, x, f);
      SelectSnoc(c, x, f);
    }
  }

  lemma SelectOne<A, B>(x: A, f: A -> Option<B>)
    ensures Select([x], f) == if f(x).None? then [] else [f(x).value]
  {
    assert [] + [x] == [x];
    SelectSnoc([], x, f);
  }

  lemma {:induction false} SelectMembers<A(!new), B(!new)>(s: seq<A>, f: A -> Option<B>, y: B)
    ensures y in Select(s, f) <==> exists x :: x in s && f(x) == Some(y)
  {
    if s != [] {
      assert s == Init(s) + [Last(s)];
      SelectMembers(Init(s), f, y);
      assert forall x :: x in s <==> x in Init(s) || x == Last(s);
    }
  }

  lemma RemoveOne<A>(s: seq<A>, j: nat)
    requires j < |s|
    ensures multiset(s) == multiset(s[..j] + s[j + 1..]) + multiset{s[j]}
  {
    assert s == s[..j] + ([s[j]] + s[j + 1..]);
  }

  lemma SelectRemove<A, B>(s: seq<A>, j: nat, f: A -> Option<B>)
    requires j < |s|
    ensures multiset(Select(s, f)) == multiset(Select(s[..j] + s[j + 1..], f)) +
      (if f(s[j]).None? then multiset{} else multiset{f(s[j]).value})
  {
    hide Select;
    var x, s1, s2 := s[j], s[..j], s[j + 1..];
    assert s == s1 + ([x] + s2);
    SelectAppend(s1, [x] + s2, f);
    SelectAppend([x], s2, f);
    SelectAppend(s1, s2, f);
    SelectOne(x, f);
  }

  lemma SameRemainder<A>(a: seq<A>, b: seq<A>, ra: seq<A>, rb: seq<A>, x: A)
    requires multiset(a) == multiset(b)
    requires multiset(a) == multiset(ra) + multiset{x} && multiset(b) == multiset(rb) + multiset{x}
    ensures multiset(ra) == multiset(rb)
  {
    assert multiset(ra) == multiset(a) - multiset{x};
    assert multiset(rb) == multiset(b) - multiset{x};
  }

  // Permuting the input permutes the selection.
  lemma {:induction false} SelectMultiset<A(!new), B(!new)>(a: seq<A>, b: seq<A>, f: A -> Option<B>)
    requires multiset(a) == multiset(b)
    ensures multiset(Select(a, f)) == multiset(Select(b, f))
    decreases |a|
  {
    hide Select;
    assert |a| == |multiset(a)| == |multiset(b)| == |b|;
    if a != [] {
      assert a[0] in multiset(b);
      var j :| 0 <= j < |b| && b[j] == a[0];
      RemoveOne(a, 0);
      RemoveOne(b, j);
      var ra, rb := a[..0] + a[1..], b[..j] + b[j + 1..];
      SameRemainder(a, b, ra, rb, a[0]);
      SelectMultiset(ra, rb, f);
      SelectRemove(a, 0, f);
      SelectRemove(b, j, f);
    }
  }

  // Sequences without repeated names and with the same members are
  // permutations of each other.
  lemma {:induction false} DistinctMultiset(s: seq<Node>, x: Node)
    requires DistinctNames(s)
    ensures multiset(s)[x] == if x in s then 1 else 0
  {
    if s != [] {
      assert s == [s[0]] + s[1..];
      DistinctMultiset(s[1..], x);
      assert s[0] !in s[1..];
    }
  }

  lemma SameMembers(a: seq<Node>, b: seq<Node>)
    requires DistinctNames(a) && DistinctNames(b) && forall x :: x in a <==> x in b
    ensures multiset(a) == multiset(b)
  {
    forall x ensures multiset(a)[x] == multiset(b)[x] {
      DistinctMultiset(a, x);
      DistinctMultiset(b, x);
    }
  }

  // ------------------------------------------------------------------
  // Independence
  // ------------------------------------------------------------------

  // Two entries with the same segments are the same path.
  ghost predicate Canonical(entries: seq<Entry>) {
    forall e, f :: e in entries && f in entries && e.parts == f.parts ==> e == f
  }

  // A total order on names: names that compare equal are equal.
  ghost predicate TotalOrder(leq: (string, string) -> bool) {
    TotalPreorder(leq) && forall x, y :: leq(x, y) && leq(y, x) ==> x == y
  }

  function Weight(entries: seq<Entry>): nat {
    if entries == [] then 0 else Weight(Init(entries)) + |Last(entries).parts|
  }

  lemma {:induction false} WeightBelow(entries: seq<Entry>, name: string)
    ensures Weight(Select(entries, Below(name))) <= Weight(entries)
    ensures Names(entries, name) ==> Weight(Select(entries, Below(name))) < Weight(entries)
  {
    if entries != [] {
      var before, e := Init(entries), Last(entries);
      assert entries == before + [e];
      WeightBelow(before, name);
      SelectSnoc(before, e, Below(name));
      NamesSnoc(before, e, name);
      if |e.parts| >= 2 && e.parts[0] == name {
        assert Init(Select(before, Below(name)) + [Entry(e.parts[1..], e.path)]) == Select(before, Below(name));
      }
    }
  }

  lemma BelowOf(entries: seq<Entry>, name: string, e: Entry)
    requires e in Select(entries, Below(name))
    ensures Entry([name] + e.parts, e.path) in entries
  {
    SelectMembers(entries, Below(name), e);
    var e0 :| e0 in entries && Below(name)(e0) == Some(e);
    assert e0.parts == [name] + e.parts;
  }

  lemma CanonicalBelow(entries: seq<Entry>, name: string)
    requires Canonical(entries)
    ensures Canonical(Select(entries, Below(name)))
  {
    hide Select;
    var sub := Select(entries, Below(name));
    forall e, f | e in sub && f in sub && e.parts == f.parts ensures e == f {
      BelowOf(entries, name, e);
      BelowOf(entries, name, f);
    }
  }

  lemma NamesMultiset(a: seq<Entry>, b: seq<Entry>, name: string)
    requires multiset(a) == multiset(b)
    ensures Names(a, name) <==> Names(b, name)
  {
    assert forall e :: e in a <==> e in multiset(a);
    assert forall e :: e in b <==> e in multiset(b);
  }

  lemma SameFiles(a: seq<Entry>, b: seq<Entry>, leq: (string, string) -> bool)
    requires multiset(a) == multiset(b) && Canonical(a) && TotalOrder(leq)
    ensures Sort(Select(a, AsFile), NameLeq(leq)) == Sort(Select(b, AsFile), NameLeq(leq))
  {
    var order, s, t := NameLeq(leq), Select(a, AsFile), Select(b, AsFile);
    NameLeqTotal(leq);
    SelectMultiset(a, b, AsFile);
    SortMultiset(s, order);
    SortMultiset(t, order);
    SortSorted(s, order);
    SortSorted(t, order);
    var u := Sort(s, order);
    forall i, j | 0 <= i < |u| && 0 <= j < |u| && order(u[i], u[j]) && order(u[j], u[i]) ensures u[i] == u[j] {
      assert u[i] in multiset(u) && u[j] in multiset(u);
      FileOf(a, u[i]);
      FileOf(a, u[j]);
      assert u[i].name == u[j].name;
    }
    SortedUnique(u, Sort(t, order), order);
  }

  lemma FileOf(entries: seq<Entry>, n: Node)
    requires n in Select(entries, AsFile)
    ensures n.FileNode? && Entry([n.name], n.path) in entries
  {
    SelectMembers(entries, AsFile, n);
    var e :| e in entries && AsFile(e) == Some(n);
    assert e.parts == [n.name];
  }

  // The node that a directory trie must have for `name`.
  function ExpectedNode(d: Dir, entries: seq<Entry>, name: string, leq: (string, string) -> bool): Node {
    DirNode(name, Child(d, name).path, ToNodes(Expected(d, entries, name), leq))
  }

  lemma NodesOf(d: Dir, entries: seq<Entry>, leq: (string, string) -> bool)
    requires d.dirs == [] && d.files == []
    ensures
      var nodes := DirNodes(Fold(d, entries).dirs, leq);
      && DistinctNames(nodes)
      && (forall n: Node :: n in nodes <==> Names(entries, n.name) && n == ExpectedNode(d, entries, n.name, leq))
  {
    hide ToNodes, Fold;
    var t := Fold(d, entries);
    var nodes := DirNodes(t.dirs, leq);
    FoldShape(d, entries);
    DirNodesAt(t.dirs, leq);
    forall i | 0 <= i < |nodes| ensures Names(entries, nodes[i].name) && nodes[i] == ExpectedNode(d, entries, nodes[i].name, leq) {
      assert Has(t.dirs, t.dirs[i].name);
      FoldName(Child(d, t.dirs[i].name), Select(entries, Below(t.dirs[i].name)));
    }
    forall n: Node | Names(entries, n.name) && n == ExpectedNode(d, entries, n.name, leq) ensures n in nodes {
      assert Has(t.dirs, n.name);
      var i :| 0 <= i < |t.dirs| && t.dirs[i].name == n.name;
      assert nodes[i] == n;
    }
  }

  lemma {:induction false} SameTree(d: Dir, a: seq<Entry>, b: seq<Entry>, leq: (string, string) -> bool)
    requires d.dirs == [] && d.files == []
    requires multiset(a) == multiset(b) && Canonical(a) && TotalOrder(leq)
    ensures ToNodes(Fold(d, a), leq) == ToNodes(Fold(d, b), leq)
    decreases Weight(a)
  {
    hide Fold, Canonical, Names, Select, Sort;
    var s, t := DirNodes(Fold(d, a).dirs, leq), DirNodes(Fold(d, b).dirs, leq);
    assert Fold(d, a).files == Select(a, AsFile) by { FoldShape(d, a); }
    assert Fold(d, b).files == Select(b, AsFile) by { FoldShape(d, b); }
    SameFiles(a, b, leq);
    NodesOf(d, a, leq);
    NodesOf(d, b, leq);
    forall name | Names(a, name) ensures ExpectedNode(d, a, name, leq) == ExpectedNode(d, b, name, leq) {
      WeightBelow(a, name);
      CanonicalBelow(a, name);
      SelectMultiset(a, b, Below(name));
      SameTree(Child(d, name), Select(a, Below(name)), Select(b, Below(name)), leq);
    }
    forall n: Node ensures n in s <==> n in t {
      NamesMultiset(a, b, n.name);
    }
    SameMembers(s, t);
    SortedDirs(s, t, leq);
  }

  lemma SortedDirs(s: seq<Node>, t: seq<Node>, leq: (string, string) -> bool)
    requires multiset(s) == multiset(t) && DistinctNames(s) && TotalOrder(leq)
    ensures Sort(s, NameLeq(leq)) == Sort(t, NameLeq(leq))
  {
    hide Sort, Sorted, TotalPreorder;
    var order := NameLeq(leq);
    assert TotalPreorder(leq);
    NameLeqTotal(leq);
    SortMultiset(s, order);
    SortMultiset(t, order);
    SortSorted(s, order);
    SortSorted(t, order);
    SortDistinct(s, leq);
    SortedUnique(Sort(s, order), Sort(t, order), order);
  }

  // ------------------------------------------------------------------
  // Dependence
  // ------------------------------------------------------------------

  predicate IsDir(n: Node) { n.DirNode? }

  lemma {:induction false} DirsPrefix(dirs: seq<Node>, files: seq<Node>)
    requires forall n :: n in dirs ==> n.DirNode?
    requires forall n :: n in files ==> n.FileNode?
    ensures Filter(dirs + files, IsDir) == dirs
  {
    FilterAppend(dirs, files, IsDir);
    FilterAll(dirs, IsDir);
    FilterNone(files, IsDir);
    assert dirs + [] == dirs;
  }

  // The two halves of a directory's nodes can be read off the result.
  lemma SplitNodes(d: Dir, e: Dir, leq: (string, string) -> bool)
    requires ToNodes(d, leq) == ToNodes(e, leq)
    requires forall n :: n in d.files + e.files ==> n.FileNode?
    ensures Sort(DirNodes(d.dirs, leq), NameLeq(leq)) == Sort(DirNodes(e.dirs, leq), NameLeq(leq))
    ensures Sort(d.files, NameLeq(leq)) == Sort(e.files, NameLeq(leq))
  {
    hide Sort;
    Halves(d, leq);
    Halves(e, leq);
    DirsPrefix(Sort(DirNodes(d.dirs, leq), NameLeq(leq)), Sort(d.files, NameLeq(leq)));
    DirsPrefix(Sort(DirNodes(e.dirs, leq), NameLeq(leq)), Sort(e.files, NameLeq(leq)));
    var k := |Sort(DirNodes(d.dirs, leq), NameLeq(leq))|;
    assert ToNodes(d, leq)[k..] == Sort(d.files, NameLeq(leq));
    assert ToNodes(e, leq)[k..] == Sort(e.files, NameLeq(leq));
  }

  lemma Halves(d: Dir, leq: (string, string) -> bool)
    requires forall n :: n in d.files ==> n.FileNode?
    ensures forall n :: n in Sort(DirNodes(d.dirs, leq), NameLeq(leq)) ==> n.DirNode?
    ensures forall n :: n in Sort(d.files, NameLeq(leq)) ==> n.FileNode?
  {
    hide Sort;
    DirNodesAt(d.dirs, leq);
    SameElements(DirNodes(d.dirs, leq), leq);
    SameElements(d.files, leq);
  }

  lemma SameElements(s: seq<Node>, leq: (string, string) -> bool)
    ensures forall n :: n in Sort(s, NameLeq(leq)) <==> n in s
  {
    SortMultiset(s, NameLeq(leq));
    assert forall n :: n in s <==> n in multiset(s);
    assert forall n :: n in Sort(s, NameLeq(leq)) <==> n in multiset(Sort(s, NameLeq(leq)));
  }

  lemma AllFiles(d: Dir, entries: seq<Entry>)
    requires d.dirs == [] && d.files == []
    ensures forall n :: n in Fold(d, entries).files ==> n.FileNode?
    ensures Fold(d, entries).files == Select(entries, AsFile)
  {
    FoldShape(d, entries);
    forall n | n in Select(entries, AsFile) ensures n.FileNode? {
      FileOf(entries, n);
    }
  }

  // Two different paths with the same segments come out in input order.
  lemma {:induction false} OrderMatters(d: Dir, x: Entry, y: Entry, rest: seq<Entry>, leq: (string, string) -> bool)
    requires d.dirs == [] && d.files == [] && TotalPreorder(leq)
    requires x.parts == y.parts && x.parts != [] && x != y
    ensures ToNodes(Fold(d, [x, y] + rest), leq) != ToNodes(Fold(d, [y, x] + rest), leq)
    decreases |x.parts|
  {
    hide Fold, Select, Sort;
    var a, b := [x, y] + rest, [y, x] + rest;
    if ToNodes(Fold(d, a), leq) == ToNodes(Fold(d, b), leq) {
      AllFiles(d, a);
      AllFiles(d, b);
      SplitNodes(Fold(d, a), Fold(d, b), leq);
      if |x.parts| == 1 {
        FilesDiffer(x, y, rest, leq);
      } else {
        DirsDiffer(d, x, y, rest, leq);
        var name := x.parts[0];
        SelectPair(x, y, rest, Below(name));
        SelectPair(y, x, rest, Below(name));
        var x1, y1 := Entry(x.parts[1..], x.path), Entry(y.parts[1..], y.path);
        OrderMatters(Child(d, name), x1, y1, Select(rest, Below(name)), leq);
      }
      assert false;
    }
  }

  lemma SelectPair<A, B>(x: A, y: A, rest: seq<A>, f: A -> Option<B>)
    requires f(x).Some? && f(y).Some?
    ensures Select([x, y] + rest, f) == [f(x).value, f(y).value] + Select(rest, f)
  {
    hide Select;
    assert [x, y] + rest == [x] + ([y] + rest);
    SelectAppend([x], [y] + rest, f);
    SelectAppend([y], rest, f);
    SelectOne(x, f);
    SelectOne(y, f);
  }

  lemma FilesDiffer(x: Entry, y: Entry, rest: seq<Entry>, leq: (string, string) -> bool)
    requires x.parts == y.parts && |x.parts| == 1 && x != y && TotalPreorder(leq)
    ensures Sort(Select([x, y] + rest, AsFile), NameLeq(leq)) != Sort(Select([y, x] + rest, AsFile), NameLeq(leq))
  {
    hide Select, Sort;
    var order := NameLeq(leq);
    var fx, fy := FileNode(x.parts[0], x.path), FileNode(x.parts[0], y.path);
    assert fx != fy by {
      assert x == Entry([x.parts[0]], x.path) && y == Entry([x.parts[0]], y.path);
    }
    var s, t := [fx, fy] + Select(rest, AsFile), [fy, fx] + Select(rest, AsFile);
    SelectPair(x, y, rest, AsFile);
    SelectPair(y, x, rest, AsFile);
    NameLeqTotal(leq);
    SortStable(s, fx, order);
    SortStable(t, fx, order);
    var p := Rank(fx, order);
    assert leq(x.parts[0], x.parts[0]);
    assert p(fx) && p(fy);
    assert Filter(s, p)[0] == fx && Filter(t, p)[0] == fy;
  }

  lemma DirsDiffer(d: Dir, x: Entry, y: Entry, rest: seq<Entry>, leq: (string, string) -> bool)
    requires d.dirs == [] && d.files == [] && x.parts == y.parts && |x.parts| >= 2
    requires
      var s, t := DirNodes(Fold(d, [x, y] + rest).dirs, leq), DirNodes(Fold(d, [y, x] + rest).dirs, leq);
      Sort(s, NameLeq(leq)) == Sort(t, NameLeq(leq))
    ensures
      var name := x.parts[0];
      ToNodes(Expected(d, [x, y] + rest, name), leq) == ToNodes(Expected(d, [y, x] + rest, name), leq)
  {
    hide Fold, Sort, Select;
    var a, b, name := [x, y] + rest, [y, x] + rest, x.parts[0];
    var s, t := DirNodes(Fold(d, a).dirs, leq), DirNodes(Fold(d, b).dirs, leq);
    NodesOf(d, a, leq);
    NodesOf(d, b, leq);
    SameElements(s, leq);
    SameElements(t, leq);
    assert x in a && y in b && Names(a, name) && Names(b, name);
    var node := ExpectedNode(d, a, name, leq);
    assert node in s && node in t;
    assert node == ExpectedNode(d, b, name, leq);
  }

  // ------------------------------------------------------------------
  // Exactly when the input order does not matter
  // ------------------------------------------------------------------

  // No two different paths have the same segments, except the empty ones.
  ghost predicate Normalized(paths: seq<string>) {
    forall p, q :: p in paths && q in paths && Segments(p) == Segments(q) != [] ==> p == q
  }

  ghost predicate OrderFree(paths: seq<string>, leq: (string, string) -> bool) {
    forall other :: multiset(other) == multiset(paths) ==> Tree(other, leq) == Tree(paths, leq)
  }

  lemma NormalizedCanonical(paths: seq<string>)
    requires Normalized(paths)
    ensures Canonical(Entries(paths))
  {
    forall e, f | e in Entries(paths) && f in Entries(paths) && e.parts == f.parts ensures e == f {
      SelectMembers(paths, ToEntry, e);
      SelectMembers(paths, ToEntry, f);
    }
  }

  lemma NormalizedOrderFree(paths: seq<string>, leq: (string, string) -> bool)
    requires Normalized(paths) && TotalOrder(leq)
    ensures OrderFree(paths, leq)
  {
    NormalizedCanonical(paths);
    forall other | multiset(other) == multiset(paths) ensures Tree(other, leq) == Tree(paths, leq) {
      SelectMultiset(paths, other, ToEntry);
      SameTree(ROOT, Entries(paths), Entries(other), leq);
    }
  }

  lemma SplitPair(paths: seq<string>, p: string, q: string) returns (rest: seq<string>)
    requires p in paths && q in paths && p != q
    ensures multiset([p, q] + rest) == multiset(paths) && multiset([q, p] + rest) == multiset(paths)
  {
    var i :| 0 <= i < |paths| && paths[i] == p;
    var without := paths[..i] + paths[i + 1..];
    RemoveOne(paths, i);
    assert q in multiset(without);
    var j :| 0 <= j < |without| && without[j] == q;
    rest := without[..j] + without[j + 1..];
    RemoveOne(without, j);
  }

  lemma NotNormalized(paths: seq<string>, p: string, q: string, leq: (string, string) -> bool)
    requires p in paths && q in paths && Segments(p) == Segments(q) && Segments(p) != [] && p != q
    requires TotalOrder(leq)
    ensures !OrderFree(paths, leq)
  {
    hide Select, Segments, ToNodes, Fold;
    var rest := SplitPair(paths, p, q);
    SelectPair(p, q, rest, ToEntry);
    SelectPair(q, p, rest, ToEntry);
    OrderMatters(ROOT, Entry(Segments(p), p), Entry(Segments(q), q), Entries(rest), leq);
    assert Tree([p, q] + rest, leq) != Tree([q, p] + rest, leq);
  }

  // For a total order on names, the tree is the same for every order of the
  // input paths if and only if no two different ones have the same segments.
  lemma OrderFreeExactly(paths: seq<string>, leq: (string, string) -> bool)
    requires TotalOrder(leq)
    ensures OrderFree(paths, leq) <==> Normalized(paths)
  {
    hide OrderFree, Segments;
    if Normalized(paths) {
      NormalizedOrderFree(paths, leq);
    } else {
      var p, q :| p in paths && q in paths && Segments(p) == Segments(q) != [] && p != q;
      NotNormalized(paths, p, q, leq);
    }
  }
}
