/** The path trie, against a map from methods and path segments to handlers. */
module Routing {
  import opened Bytes
  import opened Http

  const SLASH: byte := 47

  type Handler = Request -> Response

  // ---- paths ----

  /** The non-empty parts of a path between slashes. */
  function Segments(path: bytes): seq<bytes> {
    NonEmpty(Split(path, SLASH))
  }

  function NonEmpty(parts: seq<bytes>): seq<bytes> {
    if parts == [] then []
    else if parts[0] == [] then NonEmpty(parts[1..])
    else [parts[0]] + NonEmpty(parts[1..])
  }

  /** `trim_start_matches('/')` */
  function TrimSlashes(path: bytes): (q: bytes)
    ensures |q| <= |path|
    ensures q != [] ==> q[0] != SLASH
  {
    if path != [] && path[0] == SLASH then TrimSlashes(path[1..]) else path
  }

  /** `splitn(2, '/')` of what is left. */
  function FirstSegment(q: bytes): bytes {
    q[..IndexOf(q, SLASH)]
  }

  function AfterFirst(q: bytes): (rest: bytes)
    ensures |rest| <= |q| && (q != [] ==> |rest| < |q|)
  {
    var k := IndexOf(q, SLASH);
    if k < |q| then q[k + 1..] else []
  }

  lemma {:induction false} TrimKeepsSegments(path: bytes)
    ensures Segments(path) == Segments(TrimSlashes(path))
    decreases |path|
  {
    if path != [] && path[0] == SLASH {
      assert Split(path, SLASH) == [[]] + Split(path[1..], SLASH) by { assert IndexOf(path, SLASH) == 0 && path[..0] == []; }
      TrimKeepsSegments(path[1..]);
    }
  }

  /** Trimming and splitting once takes exactly the first segment off. */
  lemma SegmentsByParts(path: bytes)
    ensures var q := TrimSlashes(path);
            if q == [] then Segments(path) == []
            else Segments(path) == [FirstSegment(q)] + Segments(AfterFirst(q)) && FirstSegment(q) != [] && SLASH !in FirstSegment(q)
  {
    var q := TrimSlashes(path);
    TrimKeepsSegments(path);
    if q != [] {
      assert IndexOf(q, SLASH) > 0;
      var parts := Split(q, SLASH);
      assert parts[0] == FirstSegment(q);
      if IndexOf(q, SLASH) == |q| {
        assert parts[1..] == [] && AfterFirst(q) == [];
        assert NonEmpty(parts) == [parts[0]] + NonEmpty(parts[1..]) == [FirstSegment(q)];
        NoSegments();
      } else {
        assert parts[1..] == Split(AfterFirst(q), SLASH);
      }
    } else {
      NoSegments();
    }
  }

  lemma NoSegments()
    ensures Segments([]) == []
  {
    var empty: bytes := [];
    var parts := [empty];
    assert Split(empty, SLASH) == parts;
    assert parts[1..] == [] && NonEmpty(parts) == NonEmpty(parts[1..]);
  }

  /** Nothing but slashes. */
  predicate Slashes(b: bytes) {
    forall i :: 0 <= i < |b| ==> b[i] == SLASH
  }

  /** `path` spells the names, each between slashes or an end, with as many slashes anywhere as it likes. */
  ghost predicate Spells(path: bytes, names: seq<bytes>)
    decreases |names|
  {
    if names == [] then Slashes(path)
    else exists pre, rest ::
      && Slashes(pre) && path == pre + names[0] + rest && names[0] != [] && SLASH !in names[0]
      && (rest == [] || rest[0] == SLASH) && Spells(rest, names[1..])
  }

  /** Paths are the same to the router exactly when they spell the same names. */
  lemma SegmentsExactly(path: bytes, names: seq<bytes>)
    ensures Segments(path) == names <==> Spells(path, names)
  {
    hide Segments, Spells;
    SpellsSegments(path);
    if Spells(path, names) { SegmentsSpelled(path, names); }
  }

  lemma {:induction false} SegmentsSpelled(path: bytes, names: seq<bytes>)
    requires Spells(path, names)
    ensures Segments(path) == names
    decreases |names|
  {
    hide Segments, IndexOf;
    SegmentsByParts(path);
    if names == [] {
      TrimsSlashes(path, []);
      assert path + [] == path;
    } else {
      var pre, rest :|
        && Slashes(pre) && path == pre + names[0] + rest && names[0] != [] && SLASH !in names[0]
        && (rest == [] || rest[0] == SLASH) && Spells(rest, names[1..]);
      SegmentsSpelled(rest, names[1..]);
      var q := names[0] + rest;
      TrimsSlashes(pre, q);
      assert path == pre + q;
      IndexOfAt(q, SLASH, |names[0]|);
      assert FirstSegment(q) == names[0];
      if rest != [] { SlashInFront(rest); assert AfterFirst(q) == rest[1..]; }
      assert names == [names[0]] + names[1..];
    }
  }

  lemma SlashInFront(rest: bytes)
    requires rest != [] && rest[0] == SLASH
    ensures Segments(rest) == Segments(rest[1..])
  {
    hide Segments;
    TrimKeepsSegments(rest);
    TrimKeepsSegments(rest[1..]);
  }

  lemma {:induction false} TrimsSlashes(pre: bytes, q: bytes)
    requires Slashes(pre) && (q == [] || q[0] != SLASH)
    ensures TrimSlashes(pre + q) == q
    decreases |pre|
  {
    if pre == [] {
      assert pre + q == q;
    } else {
      assert (pre + q)[1..] == pre[1..] + q;
      TrimsSlashes(pre[1..], q);
    }
  }

  lemma {:induction false} SpellsSegments(path: bytes)
    ensures Spells(path, Segments(path))
    decreases |path|
  {
    hide Segments, IndexOf, Spells;
    SegmentsByParts(path);
    var q := TrimSlashes(path);
    var pre := SlashesTrimmed(path);
    if q == [] {
      assert path == pre + [] == pre;
      SpellsNothing(path);
    } else {
      var rest := q[IndexOf(q, SLASH)..];
      SpellsSegments(AfterFirst(q));
      SpellsAfterSlash(rest, AfterFirst(q), Segments(AfterFirst(q)));
      assert path == pre + FirstSegment(q) + rest;
      SpellsOneMore(pre, FirstSegment(q), rest, Segments(AfterFirst(q)));
    }
  }

  lemma SpellsNothing(path: bytes)
    requires Slashes(path)
    ensures Spells(path, [])
  {
  }

  lemma SpellsOneMore(pre: bytes, name: bytes, rest: bytes, names: seq<bytes>)
    requires Slashes(pre) && name != [] && SLASH !in name && (rest == [] || rest[0] == SLASH) && Spells(rest, names)
    ensures Spells(pre + name + rest, [name] + names)
  {
    assert ([name] + names)[1..] == names;
  }

  lemma SlashesTrimmed(path: bytes) returns (pre: bytes)
    ensures Slashes(pre) && path == pre + TrimSlashes(path)
  {
    if path != [] && path[0] == SLASH {
      var others := SlashesTrimmed(path[1..]);
      pre := [SLASH] + others;
    } else {
      pre := [];
    }
  }

  /** One slash more in front spells the same. */
  lemma SpellsAfterSlash(rest: bytes, after: bytes, names: seq<bytes>)
    requires Spells(after, names) && (rest == [SLASH] + after || rest == after == [])
    ensures Spells(rest, names)
  {
    if rest != [] && names != [] {
      var pre, tail :|
        && Slashes(pre) && after == pre + names[0] + tail && names[0] != [] && SLASH !in names[0]
        && (tail == [] || tail[0] == SLASH) && Spells(tail, names[1..]);
      assert rest == ([SLASH] + pre) + names[0] + tail && Slashes([SLASH] + pre);
    }
  }

  // ---- the trie as a value ----

  datatype Trie = Trie(key: bytes, children: seq<Trie>, handler: Option<Handler>)

  /** Position of the first child with this key, or the number of children. */
  function Find(children: seq<Trie>, segment: bytes): (i: nat)
    ensures i <= |children|
    ensures i < |children| ==> children[i].key == segment
    ensures forall j :: 0 <= j < i ==> children[j].key != segment
  {
    if children == [] then 0 else if children[0].key == segment then 0 else 1 + Find(children[1..], segment)
  }

  function Bind(t: Trie, segs: seq<bytes>, h: Handler): (u: Trie)
    ensures u.key == t.key
    decreases |segs|
  {
    if segs == [] then t.(handler := Some(h))
    else
      var i := Find(t.children, segs[0]);
      if i < |t.children| then t.(children := t.children[i := Bind(t.children[i], segs[1..], h)])
      else t.(children := t.children + [Bind(Trie(segs[0], [], None), segs[1..], h)])
  }

  function Lookup(t: Trie, segs: seq<bytes>): Option<Handler>
    decreases |segs|
  {
    if segs == [] then t.handler
    else
      var i := Find(t.children, segs[0]);
      if i < |t.children| then Lookup(t.children[i], segs[1..]) else None
  }

  lemma FindIs(children: seq<Trie>, segment: bytes, i: nat)
    requires i <= |children| && (i < |children| ==> children[i].key == segment)
    requires forall j :: 0 <= j < i ==> children[j].key != segment
    ensures Find(children, segment) == i
  {
  }

  /** Binding a path changes what is found there and nowhere else. */
  lemma {:induction false} BindIsUpdate(t: Trie, segs: seq<bytes>, h: Handler, q: seq<bytes>)
    ensures Lookup(Bind(t, segs, h), q) == if q == segs then Some(h) else Lookup(t, q)
    decreases |segs|
  {
    var u := Bind(t, segs, h);
    if segs != [] && q != [] {
      var i := Find(t.children, segs[0]);
      var child := if i < |t.children| then t.children[i] else Trie(segs[0], [], None);
      BindIsUpdate(child, segs[1..], h, q[1..]);
      if q[0] == segs[0] {
        FindIs(u.children, q[0], i);
        assert q == segs <==> q[1..] == segs[1..] by { assert q == [q[0]] + q[1..] && segs == [segs[0]] + segs[1..]; }
        if i == |t.children| { NothingUnder(segs[0], q[1..]); }
      } else {
        var j := Find(t.children, q[0]);
        if j < |t.children| || i < |t.children| { FindIs(u.children, q[0], j); } else { FindIs(u.children, q[0], |u.children|); }
      }
    }
  }

  lemma NothingUnder(key: bytes, q: seq<bytes>)
    ensures Lookup(Trie(key, [], None), q) == None
  {
  }

  /** Siblings have distinct keys, none of them empty. */
  ghost predicate WellFormed(t: Trie)
    decreases t
  {
    && (forall i, j :: 0 <= i < j < |t.children| ==> t.children[i].key != t.children[j].key)
    && (forall i :: 0 <= i < |t.children| ==> t.children[i].key != [] && WellFormed(t.children[i]))
  }

  lemma {:induction false} BindKeepsWellFormed(t: Trie, segs: seq<bytes>, h: Handler)
    requires WellFormed(t) && forall k :: 0 <= k < |segs| ==> segs[k] != []
    ensures WellFormed(Bind(t, segs, h))
    decreases |segs|
  {
    if segs != [] {
      var i := Find(t.children, segs[0]);
      BindKeepsWellFormed(if i < |t.children| then t.children[i] else Trie(segs[0], [], None), segs[1..], h);
    }
  }

  lemma {:induction false} SegmentsNonEmpty(parts: seq<bytes>)
    ensures forall k :: 0 <= k < |NonEmpty(parts)| ==> NonEmpty(parts)[k] != []
  {
    if parts != [] { SegmentsNonEmpty(parts[1..]); }
  }

  lemma SegmentsFull(path: bytes)
    ensures forall k :: 0 <= k < |Segments(path)| ==> Segments(path)[k] != []
  {
    SegmentsNonEmpty(Split(path, SLASH));
  }

  // ---- the trie in memory ----

  class Node {
    const key: bytes
    var children: seq<Node>
    var handler: Option<Handler>
    ghost var Repr: set<Node>
    ghost var tree: Trie

    ghost predicate Valid()
      reads this, Repr
      decreases Repr
    {
      && this in Repr && tree.key == key && tree.handler == handler
      && |tree.children| == |children|
      && (forall i :: 0 <= i < |children| ==>
            && children[i] in Repr && Owns(children[i]) && children[i].Valid()
            && tree.children[i] == children[i].tree && tree.children[i].key == children[i].key)
      && (forall i, j :: 0 <= i < j < |children| ==> children[i].Repr !! children[j].Repr)
    }

    ghost predicate Owns(c: Node)
      reads this, c
    {
      c.Repr <= Repr && this !in c.Repr
    }

    constructor (key: bytes)
      ensures Valid() && fresh(Repr) && tree == Trie(key, [], None)
    {
      this.key := key;
      children, handler := [], None;
      tree := Trie(key, [], None);
      Repr := {this};
    }

    method Insert(path: bytes, h: Handler)
      requires Valid()
      modifies Repr
      ensures Valid() && fresh(Repr - old(Repr))
      ensures tree == Bind(old(tree), Segments(path), h)
      decreases |path|, 0
    {
      var q := TrimSlashes(path);
      SegmentsByParts(path);
      if q == [] {
        handler := Some(h);
        tree := tree.(handler := Some(h));
        return;
      }
      var segment, rest := FirstSegment(q), AfterFirst(q);
      var i := FindNode(children, segment);
      FindIs(tree.children, segment, i);
      if i < |children| {
        InsertBelow(i, rest, h);
      } else {
        InsertNew(segment, rest, h);
      }
    }

    method InsertBelow(i: nat, rest: bytes, h: Handler)
      requires Valid() && i < |children|
      modifies Repr
      ensures Valid() && fresh(Repr - old(Repr))
      ensures tree == old(tree).(children := old(tree.children)[i := Bind(old(tree.children[i]), Segments(rest), h)])
      decreases |rest|, 1
    {
      hide Bind, Segments;
      var child := children[i];
      ghost var below, others := child.Repr, children;
      assert forall j :: 0 <= j < |children| && j != i ==> children[j].Repr !! below;
      child.Insert(rest, h);
      Repr := Repr + child.Repr;
      tree := tree.(children := tree.children[i := child.tree]);
    }

    method InsertNew(segment: bytes, rest: bytes, h: Handler)
      requires Valid() && Find(tree.children, segment) == |children|
      modifies Repr
      ensures Valid() && fresh(Repr - old(Repr))
      ensures tree == old(tree).(children := old(tree.children) + [Bind(Trie(segment, [], None), Segments(rest), h)])
      decreases |rest|, 1
    {
      hide Bind, Segments, Find;
      var child := new Node(segment);
      child.Insert(rest, h);
      children := children + [child];
      Repr := Repr + child.Repr;
      tree := tree.(children := tree.children + [child.tree]);
    }

    function Get(path: bytes): (r: Option<Handler>)
      requires Valid()
      reads this, Repr
      ensures r == Lookup(tree, Segments(path))
      decreases |path|
    {
      var q := TrimSlashes(path);
      SegmentsByParts(path);
      if q == [] then handler
      else
        var i := FindNode(children, FirstSegment(q));
        FindIs(tree.children, FirstSegment(q), i);
        if i < |children| then children[i].Get(AfterFirst(q)) else None
    }
  }

  /** Position of the first node with this key, or the number of nodes. */
  function FindNode(nodes: seq<Node>, segment: bytes): (i: nat)
    ensures i <= |nodes|
    ensures i < |nodes| ==> nodes[i].key == segment
    ensures forall j :: 0 <= j < i ==> nodes[j].key != segment
  {
    if nodes == [] then 0 else if nodes[0].key == segment then 0 else 1 + FindNode(nodes[1..], segment)
  }

  /** The tries, one for each method, hold exactly the bindings of the table. */
  ghost predicate Agrees(tries: map<Method, Trie>, table: map<(Method, seq<bytes>), Handler>) {
    && (forall m :: m in tries ==> WellFormed(tries[m]))
    && forall m, segs :: Found(tries, m, segs) == if (m, segs) in table then Some(table[(m, segs)]) else None
  }

  function Found(tries: map<Method, Trie>, m: Method, segs: seq<bytes>): Option<Handler> {
    if m in tries then Lookup(tries[m], segs) else None
  }

  lemma BindingAgrees(tries: map<Method, Trie>, table: map<(Method, seq<bytes>), Handler>, m: Method, segs: seq<bytes>, h: Handler)
    requires Agrees(tries, table) && m in tries && forall k :: 0 <= k < |segs| ==> segs[k] != []
    ensures Agrees(tries[m := Bind(tries[m], segs, h)], table[(m, segs) := h])
  {
    hide Bind, Lookup, WellFormed;
    BindKeepsWellFormed(tries[m], segs, h);
    var after, entries := tries[m := Bind(tries[m], segs, h)], table[(m, segs) := h];
    forall n, q ensures Found(after, n, q) == if (n, q) in entries then Some(entries[(n, q)]) else None {
      assert Found(tries, n, q) == if (n, q) in table then Some(table[(n, q)]) else None;
      BindIsUpdate(tries[m], segs, h, q);
    }
  }

  lemma NewRootAgrees(tries: map<Method, Trie>, table: map<(Method, seq<bytes>), Handler>, m: Method)
    requires Agrees(tries, table) && m !in tries
    ensures Agrees(tries[m := Trie([], [], None)], table)
  {
    var after := tries[m := Trie([], [], None)];
    forall n, q ensures Found(after, n, q) == if (n, q) in table then Some(table[(n, q)]) else None {
      assert Found(tries, n, q) == if (n, q) in table then Some(table[(n, q)]) else None;
      NothingUnder([], q);
    }
  }

  /** Each method has a trie of its own. */
  ghost predicate Apart(routes: map<Method, Node>, repr: set<Node>)
    reads repr, routes.Values
  {
    && (forall m :: m in routes ==> routes[m] in routes[m].Repr && routes[m].Repr <= repr && routes[m].Valid())
    && (forall m, n :: m in routes && n in routes && m != n ==> routes[m].Repr !! routes[n].Repr)
  }

  ghost function Tries(routes: map<Method, Node>): map<Method, Trie>
    reads routes.Values
  {
    map m | m in routes :: routes[m].tree
  }

  lemma SameMethods(routes: map<Method, Node>, m: Method)
    ensures m in Tries(routes) <==> m in routes
  {
  }

  class Router {
    var routes: map<Method, Node>
    ghost var table: map<(Method, seq<bytes>), Handler>
    ghost var Repr: set<Node>

    ghost predicate Valid()
      reads this, Repr, routes.Values
    {
      Apart(routes, Repr) && Agrees(Tries(routes), table)
    }

    constructor ()
      ensures Valid() && fresh(Repr) && table == map[]
    {
      routes, table, Repr := map[], map[], {};
    }

    /** The table of bindings gains one entry, which replaces any earlier one for the same segments. */
    method Insert(m: Method, path: bytes, h: Handler)
      requires Valid()
      modifies this, Repr
      ensures Valid() && fresh(Repr - old(Repr))
      ensures table == old(table)[(m, Segments(path)) := h]
    {
      hide Agrees, Segments, Bind, Apart, Tries;
      if m !in routes {
        NewRootAgrees(Tries(routes), table, m) by { SameMethods(routes, m); }
        var root := new Node([]);
        assert root in root.Repr;
        AddRoot(m, root);
      }
      SameMethods(routes, m);
      BindingAgrees(Tries(routes), table, m, Segments(path), h) by { SegmentsFull(path); }
      InsertAt(m, path, h);
      table := table[(m, Segments(path)) := h];
    }

    method InsertAt(m: Method, path: bytes, h: Handler)
      requires Apart(routes, Repr) && m in routes && m in Tries(routes)
      modifies Repr, this`Repr
      ensures Apart(routes, Repr) && fresh(Repr - old(Repr))
      ensures Tries(routes) == old(Tries(routes))[m := Bind(old(Tries(routes))[m], Segments(path), h)]
    {
      hide Bind, Segments, Node.Valid, Lookup, WellFormed, Find, Node.Owns;
      var root := routes[m];
      ghost var below := root.Repr;
      assert forall n :: n in routes && n != m ==> routes[n] !in below && routes[n].Repr !! below;
      root.Insert(path, h);
      Repr := Repr + root.Repr;
    }

    method AddRoot(m: Method, root: Node)
      requires Apart(routes, Repr) && m !in routes
      requires root.Valid() && root in root.Repr && root.Repr !! Repr
      modifies this`routes, this`Repr
      ensures Apart(routes, Repr) && Repr == old(Repr) + root.Repr && m in routes
      ensures Tries(routes) == old(Tries(routes))[m := root.tree]
    {
      hide Node.Valid;
      routes := routes[m := root];
      Repr := Repr + root.Repr;
    }

    /** The handler last inserted for the same method and segments, if any was. */
    function LookupRoute(m: Method, path: bytes): (r: Option<Handler>)
      requires Valid()
      reads this, Repr, routes.Values
      ensures r == if (m, Segments(path)) in table then Some(table[(m, Segments(path))]) else None
    {
      assert Found(Tries(routes), m, Segments(path))
          == if (m, Segments(path)) in table then Some(table[(m, Segments(path))]) else None;
      if m in routes then routes[m].Get(path) else None
    }
  }

  // ---- over a whole table of routes ----

  /** The bindings made by a list of inserts. */
  function TableOf(inserts: seq<(Method, bytes, Handler)>): map<(Method, seq<bytes>), Handler> {
    if inserts == [] then map[]
    else
      var (m, path, h) := inserts[|inserts| - 1];
      TableOf(inserts[..|inserts| - 1])[(m, Segments(path)) := h]
  }

  /** The last insert with the same method and segments wins; with none there is no binding. */
  lemma {:induction false} LastInsertWins(inserts: seq<(Method, bytes, Handler)>, m: Method, path: bytes, k: nat)
    requires k <= |inserts|
    requires k < |inserts| ==> inserts[k].0 == m && Segments(inserts[k].1) == Segments(path)
    requires forall j :: 0 <= j < |inserts| && (k == |inserts| || j > k) ==>
               !(inserts[j].0 == m && Segments(inserts[j].1) == Segments(path))
    ensures var key := (m, Segments(path)); var table := TableOf(inserts);
            if k < |inserts| then key in table && table[key] == inserts[k].2 else key !in table
    decreases |inserts|
  {
    hide Segments;
    var n := |inserts| - 1;
    if inserts != [] && k != n { LastInsertWins(inserts[..n], m, path, if k < n then k else n); }
  }
}
