/** Stable dependency ordering: what an order of a graph must satisfy, and which of all
    such orders is the stable one. */
module Ordering {

  type Node = string

  datatype Edge = Edge(from: Node, to: Node, hard: bool)
  datatype Direction = After | Before
  datatype Miss = Miss(node: Node, ref: Node, dir: Direction)
  datatype Error = MissingNode(from: Node, to: Node) | Cycle(path: seq<Node>)
  datatype Outcome = Sorted(order: seq<Node>, misses: seq<Miss>) | Failed(error: Error)

  ghost function Elems<T>(s: seq<T>): set<T> { set x | x in s }

  ghost predicate Distinct<T>(s: seq<T>) {
    forall i, j :: 0 <= i < j < |s| ==> s[i] != s[j]
  }

  /** Both endpoints exist. */
  predicate Live(nodes: seq<Node>, e: Edge) { e.from in nodes && e.to in nodes }

  /** A promise about the graph that the graph does not keep. */
  predicate Broken(nodes: seq<Node>, e: Edge) { e.hard && !Live(nodes, e) }

  ghost predicate Arrow(nodes: seq<Node>, edges: seq<Edge>, a: Node, b: Node) {
    exists e :: e in edges && Live(nodes, e) && e.from == a && e.to == b
  }

  /** Every node once, and every live edge from left to right. */
  ghost predicate Topological(nodes: seq<Node>, edges: seq<Edge>, order: seq<Node>) {
    && |order| == |nodes| && Distinct(order) && Elems(order) == Elems(nodes)
    && forall i, a, b :: (0 <= i < |edges| && 0 <= a < |order| && 0 <= b < |order|
                          && edges[i].from == order[a] && edges[i].to == order[b]) ==> a < b
  }

  /** A closed walk along live edges: the starting node repeated at the end. */
  ghost predicate CyclePath(nodes: seq<Node>, edges: seq<Edge>, p: seq<Node>) {
    && |p| >= 2 && p[0] == p[|p| - 1]
    && forall i :: 0 <= i < |p| - 1 ==> Arrow(nodes, edges, p[i], p[i + 1])
  }

  /** The soft edges with exactly one missing endpoint, in declaration order. */
  function MissFor(nodes: seq<Node>, e: Edge): seq<Miss> {
    if e.from in nodes && e.to !in nodes then [Miss(e.from, e.to, Before)]
    else if e.from !in nodes && e.to in nodes then [Miss(e.to, e.from, After)]
    else []
  }

  function Misses(nodes: seq<Node>, edges: seq<Edge>): seq<Miss> {
    if edges == [] then []
    else Misses(nodes, edges[..|edges| - 1]) + MissFor(nodes, edges[|edges| - 1])
  }

  /** The edge names one node of the graph and one that is not there. */
  predicate MissedBy(nodes: seq<Node>, e: Edge, m: Miss) {
    || (e.from in nodes && e.to !in nodes && m == Miss(e.from, e.to, Before))
    || (e.from !in nodes && e.to in nodes && m == Miss(e.to, e.from, After))
  }

  /** A miss is reported for every such edge and for no other: an edge neither end of which
      is there is silent. */
  lemma {:induction false} MissesExactly(nodes: seq<Node>, edges: seq<Edge>, m: Miss)
    ensures m in Misses(nodes, edges) <==> exists e :: e in edges && MissedBy(nodes, e, m)
  {
    if edges != [] {
      var init, last := edges[..|edges| - 1], edges[|edges| - 1];
      assert edges == init + [last];
      MissesExactly(nodes, init, m);
      assert m in MissFor(nodes, last) <==> MissedBy(nodes, last, m);
    }
  }

  // ---------------------------------------------------------------------------
  // In-degrees
  // ---------------------------------------------------------------------------

  /** The live edges into v whose source is not done, counted with repetition. */
  ghost function Waits(nodes: seq<Node>, edges: seq<Edge>, done: set<Node>, v: Node): nat {
    if edges == [] then 0
    else
      var e := edges[|edges| - 1];
      Waits(nodes, edges[..|edges| - 1], done, v)
      + if Live(nodes, e) && e.to == v && e.from !in done then 1 else 0
  }

  /** The targets of u's live edges, in declaration order, with repetition. */
  ghost function Adj(nodes: seq<Node>, edges: seq<Edge>, u: Node): seq<Node> {
    if edges == [] then []
    else
      var e := edges[|edges| - 1];
      Adj(nodes, edges[..|edges| - 1], u) + if Live(nodes, e) && e.from == u then [e.to] else []
  }

  ghost predicate Ready(nodes: seq<Node>, edges: seq<Edge>, done: set<Node>, v: Node) {
    v in nodes && v !in done && Waits(nodes, edges, done, v) == 0
  }

  lemma {:induction false} AdjIsArrow(nodes: seq<Node>, edges: seq<Edge>, u: Node, v: Node)
    ensures v in Adj(nodes, edges, u) <==> Arrow(nodes, edges, u, v)
  {
    if edges != [] {
      var rest, e := edges[..|edges| - 1], edges[|edges| - 1];
      AdjIsArrow(nodes, rest, u, v);
      assert edges == rest + [e];
    }
  }

  lemma {:induction false} WaitsZero(nodes: seq<Node>, edges: seq<Edge>, done: set<Node>, v: Node)
    ensures Waits(nodes, edges, done, v) == 0 <==> forall u :: Arrow(nodes, edges, u, v) ==> u in done
  {
    if edges != [] {
      var rest, e := edges[..|edges| - 1], edges[|edges| - 1];
      WaitsZero(nodes, rest, done, v);
      assert edges == rest + [e];
      assert forall u :: Arrow(nodes, rest, u, v) ==> Arrow(nodes, edges, u, v);
      assert Live(nodes, e) && e.to == v ==> Arrow(nodes, edges, e.from, v);
    }
  }

  /** Finishing u takes exactly its own edges off every in-degree. */
  lemma {:induction false} Finish(nodes: seq<Node>, edges: seq<Edge>, done: set<Node>, u: Node, v: Node)
    requires u !in done
    ensures Waits(nodes, edges, done + {u}, v) + multiset(Adj(nodes, edges, u))[v] == Waits(nodes, edges, done, v)
  {
    if edges != [] {
      Finish(nodes, edges[..|edges| - 1], done, u, v);
    }
  }

  // ---------------------------------------------------------------------------
  // The stable order
  // ---------------------------------------------------------------------------

  ghost function Position(nodes: seq<Node>, v: Node): (i: int)
    ensures v in nodes ==> 0 <= i < |nodes| && nodes[i] == v
  {
    if v in nodes then var i :| 0 <= i < |nodes| && nodes[i] == v; i else -1
  }

  /** Each emitted node was, when emitted, the earliest inserted of the ready ones. */
  ghost predicate Greedy(nodes: seq<Node>, edges: seq<Edge>, order: seq<Node>) {
    forall k :: 0 <= k < |order| ==> Earliest(nodes, edges, Elems(order[..k]), order[k])
  }

  ghost predicate Earliest(nodes: seq<Node>, edges: seq<Edge>, done: set<Node>, v: Node) {
    && Ready(nodes, edges, done, v)
    && forall x :: Ready(nodes, edges, done, x) ==> Position(nodes, v) <= Position(nodes, x)
  }

  /** order comes first: it equals t or is smaller at the first difference. */
  ghost predicate Precedes(nodes: seq<Node>, order: seq<Node>, t: seq<Node>) {
    || order == t
    || exists k :: 0 <= k < |order| && k < |t| && order[..k] == t[..k]
                   && Position(nodes, order[k]) < Position(nodes, t[k])
  }

  lemma {:induction false} DistinctSize<T>(s: seq<T>)
    requires Distinct(s)
    ensures |Elems(s)| == |s|
  {
    if s != [] {
      var rest, x := s[..|s| - 1], s[|s| - 1];
      DistinctSize(rest);
      assert Elems(s) == Elems(rest) + {x};
    }
  }

  /** A greedy sequence that emits as many nodes as there are is an order. */
  lemma GreedyIsTopological(nodes: seq<Node>, edges: seq<Edge>, order: seq<Node>)
    requires Distinct(nodes) && Greedy(nodes, edges, order) && |order| == |nodes|
    ensures Topological(nodes, edges, order)
  {
    GreedyDistinct(nodes, edges, order);
    DistinctSize(order);
    DistinctSize(nodes);
    SameSize(Elems(order), Elems(nodes));
    forall i, a, b | 0 <= i < |edges| && 0 <= a < |order| && 0 <= b < |order|
                     && edges[i].from == order[a] && edges[i].to == order[b]
      ensures a < b
    {
      assert Earliest(nodes, edges, Elems(order[..b]), order[b]);
      assert order[a] in Elems(order) && order[b] in Elems(order);
      WaitsZero(nodes, edges, Elems(order[..b]), order[b]);
      assert Arrow(nodes, edges, order[a], order[b]);
      var c :| 0 <= c < b && order[..b][c] == order[a];
      assert order[c] == order[a];
    }
  }

  lemma GreedyDistinct(nodes: seq<Node>, edges: seq<Edge>, order: seq<Node>)
    requires Greedy(nodes, edges, order)
    ensures Distinct(order) && Elems(order) <= Elems(nodes)
  {
    forall i, j | 0 <= i < j < |order| ensures order[i] != order[j] {
      assert Earliest(nodes, edges, Elems(order[..j]), order[j]);
      assert order[..j][i] == order[i];
    }
    forall x | x in order ensures x in nodes {
      var k :| 0 <= k < |order| && order[k] == x;
      assert Earliest(nodes, edges, Elems(order[..k]), order[k]);
    }
  }

  lemma SameSize<T>(a: set<T>, b: set<T>)
    requires a <= b && |a| == |b|
    ensures a == b
  {
    if x :| x in b && x !in a {
      assert a <= b - {x};
      SubsetSize(a, b - {x});
    }
  }

  lemma {:induction false} SubsetSize<T>(a: set<T>, b: set<T>)
    requires a <= b
    ensures |a| <= |b|
  {
    if a != {} {
      var x :| x in a;
      SubsetSize(a - {x}, b - {x});
    }
  }

  /** In an order, every node is ready when its turn comes. */
  lemma TurnIsReady(nodes: seq<Node>, edges: seq<Edge>, t: seq<Node>, k: nat)
    requires Topological(nodes, edges, t) && k < |t|
    ensures Ready(nodes, edges, Elems(t[..k]), t[k])
  {
    assert t[k] in Elems(t);
    WaitsZero(nodes, edges, Elems(t[..k]), t[k]);
    forall u | Arrow(nodes, edges, u, t[k]) ensures u in Elems(t[..k]) {
      var e :| e in edges && Live(nodes, e) && e.from == u && e.to == t[k];
      var i :| 0 <= i < |edges| && edges[i] == e;
      assert u in Elems(t);
      var a :| 0 <= a < |t| && t[a] == u;
      assert t[..k][a] == u;
    }
  }

  lemma {:induction false} FirstDifference(a: seq<Node>, b: seq<Node>, k: nat) returns (d: nat)
    requires |a| == |b| && a != b && k <= |a| && a[..k] == b[..k]
    ensures d < |a| && a[..d] == b[..d] && a[d] != b[d]
    decreases |a| - k
  {
    assert a[..|a|] == a && b[..|b|] == b;
    if a[k] != b[k] {
      d := k;
    } else {
      assert a[..k + 1] == a[..k] + [a[k]] && b[..k + 1] == b[..k] + [b[k]];
      d := FirstDifference(a, b, k + 1);
    }
  }

  /** The greedy order is the lexicographically least order by insertion position. */
  lemma GreedyIsLeast(nodes: seq<Node>, edges: seq<Edge>, order: seq<Node>, t: seq<Node>)
    requires Greedy(nodes, edges, order) && |order| == |nodes|
    requires Topological(nodes, edges, t)
    ensures Precedes(nodes, order, t)
  {
    if order != t {
      var k := FirstDifference(order, t, 0);
      TurnIsReady(nodes, edges, t, k);
      assert Earliest(nodes, edges, Elems(order[..k]), order[k]);
      assert Position(nodes, order[k]) != Position(nodes, t[k]);
    }
  }

  /** A graph that has an order has no cycle. */
  lemma OrderedIsAcyclic(nodes: seq<Node>, edges: seq<Edge>, order: seq<Node>, p: seq<Node>)
    requires Topological(nodes, edges, order)
    ensures !CyclePath(nodes, edges, p)
  {
    if CyclePath(nodes, edges, p) {
      WalkForward(nodes, edges, order, p, |p| - 1);
    }
  }

  lemma {:induction false} WalkForward(nodes: seq<Node>, edges: seq<Edge>, order: seq<Node>, p: seq<Node>, k: nat)
    requires Topological(nodes, edges, order) && CyclePath(nodes, edges, p) && 1 <= k < |p|
    ensures p[0] in order && p[k] in order && Position(order, p[0]) < Position(order, p[k])
  {
    if k > 1 { WalkForward(nodes, edges, order, p, k - 1); }
    assert Arrow(nodes, edges, p[k - 1], p[k]);
    var e :| e in edges && Live(nodes, e) && e.from == p[k - 1] && e.to == p[k];
    var i :| 0 <= i < |edges| && edges[i] == e;
    assert p[k - 1] in Elems(order) && p[k] in Elems(order);
  }
}

/** Kahn's algorithm with an insertion-index heap, and the search for a witness cycle. */
module Sorter {
  import opened Ordering

  /** The ids eligible for emission; container/heap keeps the least index first. */
  class IdHeap {
    var ids: seq<Node>
    const index: map<Node, int>

    constructor (index: map<Node, int>)
      ensures ids == [] && this.index == index
    {
      this.index := index;
      ids := [];
    }

    method Push(id: Node)
      modifies this
      ensures ids == old(ids) + [id]
    {
      ids := ids + [id];
    }

    method Pop() returns (id: Node)
      requires ids != [] && forall x :: x in ids ==> x in index
      modifies this
      ensures id in old(ids) && forall x :: x in old(ids) ==> index[id] <= index[x]
      ensures multiset(old(ids)) == multiset(ids) + multiset{id}
    {
      var least := 0;
      for i := 1 to |ids|
        invariant least < |ids|
        invariant forall j :: 0 <= j < i ==> index[ids[least]] <= index[ids[j]]
      {
        if index[ids[i]] < index[ids[least]] {
          least := i;
        }
      }
      id := ids[least];
      assert ids == ids[..least] + [id] + ids[least + 1..];
      ids := ids[..least] + ids[least + 1..];
    }
  }

  function Get(adj: map<Node, seq<Node>>, u: Node): seq<Node> {
    if u in adj then adj[u] else []
  }

  ghost predicate Preceded(remaining: set<Node>, adj: map<Node, seq<Node>>, v: Node) {
    exists u :: u in remaining && v in Get(adj, u)
  }

  /** Depth-first search for a back edge among the nodes Kahn's algorithm could not emit. */
  class CycleFinder {
    const remaining: set<Node>
    const adj: map<Node, seq<Node>>
    var visited: set<Node>
    var onStack: set<Node>
    var stack: seq<Node>
    var found: seq<Node>
    ghost var finished: seq<Node>

    constructor (remaining: set<Node>, adj: map<Node, seq<Node>>)
      ensures this.remaining == remaining && this.adj == adj
      ensures Valid() && visited == {} && stack == [] && finished == []
    {
      this.remaining := remaining;
      this.adj := adj;
      visited, onStack, stack, found, finished := {}, {}, [], [], [];
    }

    /** The stack is a walk; whatever is finished has all its successors finished earlier. */
    ghost predicate Valid()
      reads this
    {
      && visited <= remaining
      && onStack == Elems(stack) && Distinct(stack) && Distinct(finished)
      && visited == onStack + Elems(finished) && onStack !! Elems(finished)
      && Walk(stack)
      && forall i :: 0 <= i < |finished| ==> Settled(finished[i], Elems(finished[..i]))
    }

    ghost predicate Walk(p: seq<Node>) {
      forall i :: 0 <= i < |p| - 1 ==> p[i + 1] in Get(adj, p[i])
    }

    ghost predicate Settled(u: Node, done: set<Node>) {
      forall next :: next in Get(adj, u) && next in remaining ==> next in done
    }

    ghost predicate IsCycle(p: seq<Node>) {
      |p| >= 2 && p[0] == p[|p| - 1] && Walk(p)
    }

    method Visit(id: Node) returns (hit: bool)
      requires Valid() && id in remaining && id !in visited
      requires stack != [] ==> id in Get(adj, stack[|stack| - 1])
      modifies this
      ensures hit ==> IsCycle(found)
      ensures !hit ==> Valid() && stack == old(stack) && visited >= old(visited) + {id}
      ensures !hit ==> old(finished) <= finished
      decreases remaining - visited
    {
      ghost var before := stack;
      Enter(id);
      var successors := Get(adj, id);
      ghost var below, earlier := visited, finished;
      for k := 0 to |successors|
        invariant Valid() && stack == before + [id] && visited >= below && earlier <= finished
        invariant forall j :: 0 <= j < k && successors[j] in remaining ==> successors[j] in finished
      {
        var next := successors[k];
        if next !in remaining {
          continue;
        }
        if next in onStack {
          CloseLoop(next);
          return true;
        }
        if next !in visited {
          assert stack[|stack| - 1] == id;
          var deeper := Visit(next);
          if deeper {
            return true;
          }
        }
      }
      Retire(id, before);
      return false;
    }

    method Enter(id: Node)
      requires Valid() && id in remaining && id !in visited
      requires stack != [] ==> id in Get(adj, stack[|stack| - 1])
      modifies this
      ensures Valid() && stack == old(stack) + [id] && visited == old(visited) + {id} && finished == old(finished)
    {
      assert Elems(stack + [id]) == Elems(stack) + {id};
      visited, onStack, stack := visited + {id}, onStack + {id}, stack + [id];
    }

    /** A successor of the top of the stack that is on the stack closes a cycle. */
    method CloseLoop(next: Node)
      requires Valid() && next in onStack && next in Get(adj, stack[|stack| - 1])
      modifies this`found
      ensures IsCycle(found)
    {
      var start := IndexOf(next);
      found := stack[start..] + [next];
      forall i | 0 <= i < |found| - 1 ensures found[i + 1] in Get(adj, found[i]) {
        assert found[i] == stack[start + i];
        assert i + 1 < |found| - 1 ==> found[i + 1] == stack[start + i + 1];
      }
    }

    /** The first position of a node on the stack. */
    method IndexOf(x: Node) returns (start: nat)
      requires x in stack
      ensures start < |stack| && stack[start] == x
    {
      start := 0;
      while stack[start] != x
        invariant start < |stack| && x in stack[start..]
        decreases |stack| - start
      {
        start := start + 1;
      }
    }

    /** The last successor is done: id leaves the stack. */
    method Retire(id: Node, ghost before: seq<Node>)
      requires Valid() && stack == before + [id]
      requires Settled(id, Elems(finished))
      modifies this
      ensures Valid() && stack == before && visited == old(visited) && finished == old(finished) + [id]
    {
      assert Elems(stack) == Elems(before) + {id};
      assert forall x :: x in before ==> x != id by {
        forall x | x in before ensures x != id {
          var i :| 0 <= i < |before| && before[i] == x;
          assert stack[i] == x && stack[|before|] == id;
        }
      }
      assert Walk(before) by {
        forall i | 0 <= i < |before| - 1 ensures before[i + 1] in Get(adj, before[i]) {
          assert stack[i] == before[i] && stack[i + 1] == before[i + 1];
        }
      }
      ghost var was := finished;
      onStack := onStack - {id};
      stack := stack[..|stack| - 1];
      finished := finished + [id];
      assert Elems(finished) == Elems(was) + {id};
      forall i | 0 <= i < |finished| ensures Settled(finished[i], Elems(finished[..i])) {
        assert finished[..i] == was[..i];
        if i == |was| { assert was[..i] == was; }
      }
    }

    /** A set in which everything has a predecessor contains a cycle, and the search finds
        one: it never comes back empty-handed. */
    method Find(insertion: seq<Node>) returns (path: seq<Node>)
      requires Valid() && visited == {} && stack == []
      requires remaining != {} && remaining <= Elems(insertion)
      requires forall v {:trigger Preceded(remaining, adj, v)} :: v in remaining ==> Preceded(remaining, adj, v)
      modifies this
      ensures IsCycle(path)
    {
      for i := 0 to |insertion|
        invariant Valid() && stack == []
        invariant forall j :: 0 <= j < i && insertion[j] in remaining ==> insertion[j] in visited
      {
        var id := insertion[i];
        if id in remaining && id !in visited {
          var hit := Visit(id);
          if hit {
            return found;
          }
        }
      }
      ghost var left := Unfinished();
      assert false;
    }

    /** With nothing on the stack, something in such a set is still unvisited: of the
        finished nodes the last would need a predecessor finished after it. */
    lemma Unfinished() returns (v: Node)
      requires Valid() && stack == [] && remaining != {}
      requires forall v {:trigger Preceded(remaining, adj, v)} :: v in remaining ==> Preceded(remaining, adj, v)
      ensures v in remaining && v !in visited
    {
      if finished == [] {
        v :| v in remaining;
      } else {
        var last := finished[|finished| - 1];
        assert last in Elems(finished);
        assert Preceded(remaining, adj, last);
        v :| v in remaining && last in Get(adj, v);
      }
    }
  }

  class Graph {
    var order: seq<Node>
    var seen: set<Node>
    var index: map<Node, int>
    var edges: seq<Edge>

    ghost predicate Valid()
      reads this
    {
      && Distinct(order)
      && seen == Elems(order) == index.Keys
      && forall i :: 0 <= i < |order| ==> index[order[i]] == i
    }

    constructor ()
      ensures Valid() && order == [] && edges == []
    {
      order, seen, index, edges := [], {}, map[], [];
    }

    /** Idempotent: the first call fixes the node's insertion index. */
    method AddNode(id: Node)
      requires Valid()
      modifies this
      ensures Valid() && edges == old(edges)
      ensures order == if id in old(order) then old(order) else old(order) + [id]
    {
      if id in seen {
        return;
      }
      seen := seen + {id};
      index := index[id := |order|];
      order := order + [id];
    }

    method AddHardEdge(from: Node, to: Node)
      requires Valid()
      modifies this
      ensures Valid() && order == old(order) && edges == old(edges) + [Edge(from, to, true)]
    {
      edges := edges + [Edge(from, to, true)];
    }

    method AddSoftEdge(from: Node, to: Node)
      requires Valid()
      modifies this
      ensures Valid() && order == old(order) && edges == old(edges) + [Edge(from, to, false)]
    {
      edges := edges + [Edge(from, to, false)];
    }

    /** The heap at the start: every node without incoming edges. */
    method Seed(indeg: map<Node, int>) returns (heap: IdHeap)
      requires Valid() && Counted(order, edges, {}, indeg)
      ensures fresh(heap) && heap.index == index && Pending(order, heap.ids, {}, indeg)
    {
      heap := new IdHeap(index);
      for i := 0 to |order|
        invariant heap.index == index && Distinct(heap.ids)
        invariant forall v :: v in heap.ids <==> v in order[..i] && indeg[v] == 0
      {
        assert order[i] in Elems(order);
        assert order[..i + 1] == order[..i] + [order[i]];
        if indeg[order[i]] == 0 {
          heap.Push(order[i]);
        }
      }
      assert order[..|order|] == order;
    }

    /** Kahn's algorithm: repeatedly emit the earliest inserted ready node. */
    method Emit(adj: map<Node, seq<Node>>, indeg0: map<Node, int>) returns (out: seq<Node>)
      requires Valid() && Counted(order, edges, {}, indeg0)
      requires forall u :: Get(adj, u) == Adj(order, edges, u)
      ensures Greedy(order, edges, out)
      ensures forall v :: v in order && v !in out ==> Waits(order, edges, Elems(out), v) > 0
    {
      var indeg := indeg0;
      var heap := Seed(indeg);
      out := [];
      assert Elems(out) == {};
      while heap.ids != []
        invariant fresh(heap) && heap.index == index
        invariant Greedy(order, edges, out) && Counted(order, edges, Elems(out), indeg)
        invariant Pending(order, heap.ids, Elems(out), indeg)
        decreases Elems(order) - Elems(out)
      {
        ghost var ids := heap.ids;
        var id := heap.Pop();
        Popped(order, edges, index, ids, heap.ids, id, out, indeg);
        ghost var emitted := Elems(out);
        assert Elems(out + [id]) == emitted + {id};
        out := out + [id];
        indeg := Relax(order, edges, heap, id, Get(adj, id), indeg, emitted);
      }
    }

    /** Searches what the emission left for a cycle. */
    method ReportCycle(out: seq<Node>, adj: map<Node, seq<Node>>) returns (path: seq<Node>)
      requires Valid() && Greedy(order, edges, out) && |out| < |order|
      requires forall u :: Get(adj, u) == Adj(order, edges, u)
      requires forall v :: v in order && v !in out ==> Waits(order, edges, Elems(out), v) > 0
      ensures CyclePath(order, edges, path)
    {
      var remaining := seen - (set v | v in out);
      Stuck(order, edges, out, remaining, adj);
      var finder := new CycleFinder(remaining, adj);
      path := finder.Find(order);
      WalkIsCyclePath(order, edges, finder, path);
    }

    /** Sorts the graph, or says exactly why it cannot be sorted. */
    method Sort() returns (result: Outcome)
      requires Valid()
      ensures result.Sorted? ==> IsAnswer(order, edges, result.order, result.misses)
      ensures result.Failed? && result.error.Cycle? ==>
                CyclePath(order, edges, result.error.path) && NoneBroken(order, edges)
      ensures result.Failed? && result.error.MissingNode? ==>
                exists i :: 0 <= i < |edges| && FirstBroken(order, edges, i)
                            && edges[i].from == result.error.from && edges[i].to == result.error.to
      ensures NoneBroken(order, edges) ==> (result.Failed? <==> exists p :: CyclePath(order, edges, p))
      ensures (result.Failed? && result.error.MissingNode?) <==>
                exists e :: e in edges && e.hard && (e.from !in order || e.to !in order)
    {
      var adj, indeg, misses, broken := ReadEdges(order, seen, edges);
      if broken >= 0 {
        assert edges[broken] in edges;
        return Failed(MissingNode(edges[broken].from, edges[broken].to));
      }
      NoneRead(order, edges, adj, indeg, misses);
      var out := Emit(adj, indeg);
      if |out| < |order| {
        var path := ReportCycle(out, adj);
        return Failed(Cycle(path));
      }
      Answered(order, edges, out, misses);
      result := Sorted(out, misses);
    }
  }

  // ---------------------------------------------------------------------------
  // What an answer is
  // ---------------------------------------------------------------------------

  ghost predicate NoneBroken(nodes: seq<Node>, edges: seq<Edge>) { forall e :: e in edges ==> !Broken(nodes, e) }

  /** out is a topological order, the first of all by insertion, with every miss reported. */
  ghost predicate IsAnswer(nodes: seq<Node>, edges: seq<Edge>, out: seq<Node>, misses: seq<Miss>) {
    && Topological(nodes, edges, out)
    && (forall t :: Topological(nodes, edges, t) ==> Precedes(nodes, out, t))
    && misses == Misses(nodes, edges) && NoneBroken(nodes, edges)
  }

  lemma NoneRead(nodes: seq<Node>, edges: seq<Edge>, adj: map<Node, seq<Node>>, indeg: map<Node, int>,
                 misses: seq<Miss>)
    requires EdgesRead(nodes, edges, adj, indeg, misses)
    ensures NoneBroken(nodes, edges)
  {}

  lemma Answered(nodes: seq<Node>, edges: seq<Edge>, out: seq<Node>, misses: seq<Miss>)
    requires Distinct(nodes) && Greedy(nodes, edges, out) && |out| >= |nodes|
    requires misses == Misses(nodes, edges) && NoneBroken(nodes, edges)
    ensures IsAnswer(nodes, edges, out, misses)
    ensures !exists p :: CyclePath(nodes, edges, p)
  {
    GreedyFits(nodes, edges, out);
    GreedyIsTopological(nodes, edges, out);
    forall t | Topological(nodes, edges, t) ensures Precedes(nodes, out, t) {
      GreedyIsLeast(nodes, edges, out, t);
    }
    forall p ensures !CyclePath(nodes, edges, p) {
      OrderedIsAcyclic(nodes, edges, out, p);
    }
  }

  // ---------------------------------------------------------------------------
  // Steps of the algorithm
  // ---------------------------------------------------------------------------

  /** Reads the edges: successor lists and in-degrees of the live ones, the misses of the
      soft dead ones, and the first hard dead one if there is any. */
  method ReadEdges(nodes: seq<Node>, seen: set<Node>, edges: seq<Edge>)
    returns (adj: map<Node, seq<Node>>, indeg: map<Node, int>, misses: seq<Miss>, broken: int)
    requires seen == Elems(nodes)
    ensures -1 <= broken < |edges|
    ensures broken >= 0 ==> FirstBroken(nodes, edges, broken)
    ensures broken < 0 ==> EdgesRead(nodes, edges, adj, indeg, misses)
  {
    adj, misses := map[], [];
    indeg := map v | v in seen :: 0;
    for i := 0 to |edges|
      invariant EdgesRead(nodes, edges[..i], adj, indeg, misses)
    {
      var e := edges[i];
      assert edges[..i + 1] == edges[..i] + [e];
      assert Live(nodes, e) <==> e.from in seen && e.to in seen;
      if e.from in seen && e.to in seen {
        ReadLive(nodes, edges[..i], e, adj, indeg, misses);
        adj := adj[e.from := Get(adj, e.from) + [e.to]];
        indeg := indeg[e.to := indeg[e.to] + 1];
      } else if e.hard {
        assert forall j :: 0 <= j < i ==> edges[j] == edges[..i][j];
        return adj, indeg, misses, i;
      } else {
        ReadDead(nodes, edges[..i], e, adj, indeg, misses);
        misses := misses + MissFor(nodes, e);
      }
    }
    assert edges[..|edges|] == edges;
    broken := -1;
  }

  /** Emitting u takes its edges off its successors, and queues those that become ready. */
  method Relax(ghost nodes: seq<Node>, ghost edges: seq<Edge>, heap: IdHeap, ghost u: Node, successors: seq<Node>,
               indeg0: map<Node, int>, ghost emitted: set<Node>)
    returns (indeg: map<Node, int>)
    requires u !in emitted && Counted(nodes, edges, emitted, indeg0)
    requires successors == Adj(nodes, edges, u) && Pending(nodes, heap.ids, emitted + {u}, indeg0)
    requires forall v :: v in emitted + {u} ==> Waits(nodes, edges, emitted, v) == 0
    modifies heap
    ensures Counted(nodes, edges, emitted + {u}, indeg) && Pending(nodes, heap.ids, emitted + {u}, indeg)
  {
    RelaxStart(nodes, edges, emitted, u, heap.ids, indeg0);
    indeg := indeg0;
    for k := 0 to |successors|
      invariant Relaxing(nodes, edges, emitted, u, k, heap.ids, indeg)
    {
      var next := successors[k];
      RelaxNext(nodes, edges, emitted, u, k, heap.ids, indeg);
      indeg := TakeOff(heap, next, indeg);
    }
    RelaxDone(nodes, edges, emitted, u, heap.ids, indeg);
  }

  /** One edge less; a node with none left is queued. */
  method TakeOff(heap: IdHeap, next: Node, indeg: map<Node, int>) returns (lower: map<Node, int>)
    requires next in indeg
    modifies heap
    ensures lower == indeg[next := indeg[next] - 1]
    ensures heap.ids == if lower[next] == 0 then old(heap.ids) + [next] else old(heap.ids)
  {
    lower := indeg[next := indeg[next] - 1];
    if lower[next] == 0 {
      heap.Push(next);
    }
  }

  /** The first k edges of u are taken off. */
  ghost predicate Relaxing(nodes: seq<Node>, edges: seq<Edge>, emitted: set<Node>, u: Node, k: nat, ids: seq<Node>,
                           indeg: map<Node, int>)
  {
    && k <= |Adj(nodes, edges, u)| && Pending(nodes, ids, emitted + {u}, indeg)
    && Relaxed(nodes, edges, emitted, Adj(nodes, edges, u)[..k], indeg)
  }

  lemma RelaxStart(nodes: seq<Node>, edges: seq<Edge>, emitted: set<Node>, u: Node, ids: seq<Node>,
                   indeg: map<Node, int>)
    requires Counted(nodes, edges, emitted, indeg) && Pending(nodes, ids, emitted + {u}, indeg)
    ensures Relaxing(nodes, edges, emitted, u, 0, ids, indeg)
  {
    assert multiset(Adj(nodes, edges, u)[..0]) == multiset{};
  }

  lemma RelaxNext(nodes: seq<Node>, edges: seq<Edge>, emitted: set<Node>, u: Node, k: nat, ids: seq<Node>,
                  indeg: map<Node, int>)
    requires u !in emitted && k < |Adj(nodes, edges, u)| && Relaxing(nodes, edges, emitted, u, k, ids, indeg)
    requires forall v :: v in emitted + {u} ==> Waits(nodes, edges, emitted, v) == 0
    ensures var next := Adj(nodes, edges, u)[k];
            && next in indeg
            && var lower := indeg[next := indeg[next] - 1];
               Relaxing(nodes, edges, emitted, u, k + 1, if lower[next] == 0 then ids + [next] else ids, lower)
  {
    RelaxOne(nodes, edges, emitted, u, k, indeg);
    Lowered(nodes, ids, emitted + {u}, Adj(nodes, edges, u)[k], indeg);
  }

  lemma RelaxDone(nodes: seq<Node>, edges: seq<Edge>, emitted: set<Node>, u: Node, ids: seq<Node>,
                  indeg: map<Node, int>)
    requires u !in emitted && Relaxing(nodes, edges, emitted, u, |Adj(nodes, edges, u)|, ids, indeg)
    ensures Counted(nodes, edges, emitted + {u}, indeg) && Pending(nodes, ids, emitted + {u}, indeg)
  {
    assert Adj(nodes, edges, u)[..|Adj(nodes, edges, u)|] == Adj(nodes, edges, u);
    AllRelaxed(nodes, edges, emitted, u, indeg);
  }

  lemma AllRelaxed(nodes: seq<Node>, edges: seq<Edge>, emitted: set<Node>, u: Node, indeg: map<Node, int>)
    requires u !in emitted
    ensures Relaxed(nodes, edges, emitted, Adj(nodes, edges, u), indeg) ==> Counted(nodes, edges, emitted + {u}, indeg)
  {
    forall v ensures Waits(nodes, edges, emitted + {u}, v) + multiset(Adj(nodes, edges, u))[v]
                     == Waits(nodes, edges, emitted, v)
    {
      Finish(nodes, edges, emitted, u, v);
    }
  }

  ghost predicate FirstBroken(nodes: seq<Node>, edges: seq<Edge>, i: nat)
    requires i < |edges|
  {
    Broken(nodes, edges[i]) && forall j :: 0 <= j < i ==> !Broken(nodes, edges[j])
  }

  ghost predicate EdgesRead(nodes: seq<Node>, edges: seq<Edge>, adj: map<Node, seq<Node>>, indeg: map<Node, int>,
                            misses: seq<Miss>)
  {
    && misses == Misses(nodes, edges)
    && Counted(nodes, edges, {}, indeg)
    && (forall u :: Get(adj, u) == Adj(nodes, edges, u))
    && forall j :: 0 <= j < |edges| ==> !Broken(nodes, edges[j])
  }

  lemma Snoc(nodes: seq<Node>, read: seq<Edge>, e: Edge, x: Node)
    ensures Misses(nodes, read + [e]) == Misses(nodes, read) + MissFor(nodes, e)
    ensures Adj(nodes, read + [e], x) == Adj(nodes, read, x) + if Live(nodes, e) && e.from == x then [e.to] else []
    ensures Waits(nodes, read + [e], {}, x) == Waits(nodes, read, {}, x) + if Live(nodes, e) && e.to == x then 1 else 0
  {
    assert (read + [e])[..|read + [e]| - 1] == read;
  }

  lemma CountLive(nodes: seq<Node>, read: seq<Edge>, e: Edge, indeg: map<Node, int>)
    requires Counted(nodes, read, {}, indeg) && Live(nodes, e)
    ensures e.to in indeg && Counted(nodes, read + [e], {}, indeg[e.to := indeg[e.to] + 1])
  {
    assert e.to in Elems(nodes);
    forall v | v in nodes ensures Waits(nodes, read + [e], {}, v) == indeg[e.to := indeg[e.to] + 1][v] {
      Snoc(nodes, read, e, v);
    }
  }

  lemma ReadLive(nodes: seq<Node>, read: seq<Edge>, e: Edge, adj: map<Node, seq<Node>>, indeg: map<Node, int>,
                 misses: seq<Miss>)
    requires EdgesRead(nodes, read, adj, indeg, misses) && Live(nodes, e)
    ensures e.to in indeg
    ensures EdgesRead(nodes, read + [e], adj[e.from := Get(adj, e.from) + [e.to]], indeg[e.to := indeg[e.to] + 1],
                      misses)
  {
    CountLive(nodes, read, e, indeg);
    var adj' := adj[e.from := Get(adj, e.from) + [e.to]];
    forall u ensures Get(adj', u) == Adj(nodes, read + [e], u) {
      Snoc(nodes, read, e, u);
      assert u != e.from ==> Get(adj', u) == Get(adj, u);
    }
    Snoc(nodes, read, e, e.to);
  }

  lemma ReadDead(nodes: seq<Node>, read: seq<Edge>, e: Edge, adj: map<Node, seq<Node>>, indeg: map<Node, int>,
                 misses: seq<Miss>)
    requires EdgesRead(nodes, read, adj, indeg, misses) && !Live(nodes, e) && !e.hard
    ensures EdgesRead(nodes, read + [e], adj, indeg, misses + MissFor(nodes, e))
  {
    forall x ensures Adj(nodes, read + [e], x) == Adj(nodes, read, x) { Snoc(nodes, read, e, x); }
    forall x ensures Waits(nodes, read + [e], {}, x) == Waits(nodes, read, {}, x) { Snoc(nodes, read, e, x); }
    Snoc(nodes, read, e, e.to);
  }

  /** In-degrees count the live edges from nodes not yet emitted. */
  ghost predicate Counted(nodes: seq<Node>, edges: seq<Edge>, emitted: set<Node>, indeg: map<Node, int>) {
    indeg.Keys == Elems(nodes) && forall v :: v in nodes ==> indeg[v] == Waits(nodes, edges, emitted, v)
  }

  /** The heap holds exactly the nodes that are ready and not yet emitted. */
  ghost predicate Pending(nodes: seq<Node>, ids: seq<Node>, emitted: set<Node>, indeg: map<Node, int>) {
    && Distinct(ids) && indeg.Keys == Elems(nodes)
    && (forall v :: v in ids <==> v in nodes && v !in emitted && indeg[v] == 0)
  }

  /** As `Counted`, with some of the next node's edges already taken off. */
  ghost predicate Relaxed(nodes: seq<Node>, edges: seq<Edge>, emitted: set<Node>, taken: seq<Node>,
                          indeg: map<Node, int>)
  {
    indeg.Keys == Elems(nodes)
    && forall v :: v in nodes ==> indeg[v] == Waits(nodes, edges, emitted, v) - multiset(taken)[v]
  }

  lemma Taken(s: seq<Node>, k: nat)
    requires k < |s|
    ensures multiset(s[..k + 1]) == multiset(s[..k]) + multiset{s[k]}
    ensures multiset(s[..k])[s[k]] < multiset(s)[s[k]]
    ensures s[k] in s
  {
    assert s[..k + 1] == s[..k] + [s[k]];
    assert s == s[..k] + [s[k]] + s[k + 1..];
  }

  /** One more edge of u is taken off the in-degree of its target, which was positive. */
  lemma RelaxOne(nodes: seq<Node>, edges: seq<Edge>, emitted: set<Node>, u: Node, k: nat, indeg: map<Node, int>)
    requires k < |Adj(nodes, edges, u)| && u !in emitted
    requires Relaxed(nodes, edges, emitted, Adj(nodes, edges, u)[..k], indeg)
    ensures var next := Adj(nodes, edges, u)[k];
            && next in indeg && indeg[next] > 0 && Waits(nodes, edges, emitted, next) > 0
            && Relaxed(nodes, edges, emitted, Adj(nodes, edges, u)[..k + 1], indeg[next := indeg[next] - 1])
  {
    var next := Adj(nodes, edges, u)[k];
    Taken(Adj(nodes, edges, u), k);
    AdjIsArrow(nodes, edges, u, next);
    Finish(nodes, edges, emitted, u, next);
    assert next in Elems(nodes);
  }

  lemma Lowered(nodes: seq<Node>, ids: seq<Node>, emitted: set<Node>, next: Node, indeg: map<Node, int>)
    requires Pending(nodes, ids, emitted, indeg) && next in indeg && indeg[next] > 0 && next !in emitted
    ensures var indeg' := indeg[next := indeg[next] - 1];
            Pending(nodes, if indeg'[next] == 0 then ids + [next] else ids, emitted, indeg')
  {
    assert next !in ids && next in Elems(nodes);
  }

  /** What leaves the heap is the earliest ready node, and the rest stays pending. */
  lemma Popped(nodes: seq<Node>, edges: seq<Edge>, index: map<Node, int>, ids: seq<Node>, rest: seq<Node>, id: Node,
               out: seq<Node>, indeg: map<Node, int>)
    requires index.Keys == Elems(nodes) && forall i :: 0 <= i < |nodes| ==> index[nodes[i]] == i
    requires Greedy(nodes, edges, out) && Counted(nodes, edges, Elems(out), indeg)
    requires Pending(nodes, ids, Elems(out), indeg)
    requires multiset(ids) == multiset(rest) + multiset{id}
    requires id in ids && id in index && forall x :: x in ids ==> x in index && index[id] <= index[x]
    ensures Greedy(nodes, edges, out + [id]) && id in nodes && id !in out
    ensures Pending(nodes, rest, Elems(out) + {id}, indeg)
    ensures forall v :: v in Elems(out) + {id} ==> Waits(nodes, edges, Elems(out), v) == 0
  {
    assert Earliest(nodes, edges, Elems(out), id) by {
      forall x | Ready(nodes, edges, Elems(out), x) ensures Position(nodes, id) <= Position(nodes, x) {
        assert x in ids;
      }
    }
    GreedyExtends(nodes, edges, out, id);
    Removed(ids, rest, id);
    forall v | v in out ensures Waits(nodes, edges, Elems(out), v) == 0 {
      StaysDone(nodes, edges, out, v);
    }
  }

  lemma GreedyExtends(nodes: seq<Node>, edges: seq<Edge>, out: seq<Node>, id: Node)
    requires Greedy(nodes, edges, out) && Earliest(nodes, edges, Elems(out), id)
    ensures Greedy(nodes, edges, out + [id])
  {
    forall k | 0 <= k < |out| + 1 ensures Earliest(nodes, edges, Elems((out + [id])[..k]), (out + [id])[k]) {
      assert (out + [id])[..k] == out[..k];
      if k == |out| { assert out[..k] == out; }
    }
  }

  lemma Removed(ids: seq<Node>, rest: seq<Node>, id: Node)
    requires Distinct(ids) && multiset(ids) == multiset(rest) + multiset{id}
    ensures Distinct(rest) && forall v :: v in rest <==> v in ids && v != id
  {
    DistinctMultiset(ids);
    forall v ensures v in rest <==> v in ids && v != id {
      assert v in rest <==> multiset(rest)[v] > 0;
      assert v in ids <==> multiset(ids)[v] > 0;
    }
    forall v ensures multiset(rest)[v] <= 1 { assert multiset(rest)[v] <= multiset(ids)[v]; }
    MultisetDistinct(rest);
  }

  lemma {:induction false} DistinctMultiset(s: seq<Node>)
    requires Distinct(s)
    ensures forall v :: multiset(s)[v] <= 1
  {
    if s != [] {
      var t, x := s[..|s| - 1], s[|s| - 1];
      DistinctMultiset(t);
      assert s == t + [x];
      assert x !in t;
    }
  }

  lemma MultisetDistinct(s: seq<Node>)
    requires forall v :: multiset(s)[v] <= 1
    ensures Distinct(s)
  {
    forall i, j | 0 <= i < j < |s| ensures s[i] != s[j] {
      assert s == s[..i] + [s[i]] + s[i + 1..j] + [s[j]] + s[j + 1..];
      assert multiset(s)
        == multiset(s[..i]) + multiset{s[i]} + multiset(s[i + 1..j]) + multiset{s[j]} + multiset(s[j + 1..]);
      assert multiset(s)[s[i]] <= 1;
    }
  }

  /** An emitted node waits for nothing, whatever else has been emitted since. */
  lemma StaysDone(nodes: seq<Node>, edges: seq<Edge>, out: seq<Node>, v: Node)
    requires Greedy(nodes, edges, out) && v in out
    ensures Waits(nodes, edges, Elems(out), v) == 0
  {
    var k :| 0 <= k < |out| && out[k] == v;
    assert Earliest(nodes, edges, Elems(out[..k]), out[k]);
    WaitsZero(nodes, edges, Elems(out[..k]), v);
    WaitsZero(nodes, edges, Elems(out), v);
  }

  lemma GreedyFits(nodes: seq<Node>, edges: seq<Edge>, out: seq<Node>)
    requires Distinct(nodes) && Greedy(nodes, edges, out)
    ensures |out| <= |nodes|
  {
    GreedyDistinct(nodes, edges, out);
    DistinctSize(out);
    DistinctSize(nodes);
    SubsetSize(Elems(out), Elems(nodes));
  }

  /** When emission stops early, what remains is not empty and everything in it has a
      predecessor in it. */
  lemma Stuck(nodes: seq<Node>, edges: seq<Edge>, out: seq<Node>, remaining: set<Node>, adj: map<Node, seq<Node>>)
    requires Distinct(nodes) && Greedy(nodes, edges, out) && |out| < |nodes|
    requires remaining == Elems(nodes) - Elems(out)
    requires forall u :: Get(adj, u) == Adj(nodes, edges, u)
    requires forall v :: v in nodes && v !in out ==> Waits(nodes, edges, Elems(out), v) > 0
    ensures remaining != {}
    ensures forall v {:trigger Preceded(remaining, adj, v)} :: v in remaining ==> Preceded(remaining, adj, v)
  {
    GreedyDistinct(nodes, edges, out);
    DistinctSize(out);
    DistinctSize(nodes);
    assert forall x :: x in Elems(nodes) ==> x in remaining || x in Elems(out);
    if remaining == {} { SubsetSize(Elems(nodes), Elems(out)); }
    forall v | v in remaining ensures Preceded(remaining, adj, v) {
      WaitsZero(nodes, edges, Elems(out), v);
      var u :| Arrow(nodes, edges, u, v) && u !in Elems(out);
      AdjIsArrow(nodes, edges, u, v);
    }
  }

  lemma WalkIsCyclePath(nodes: seq<Node>, edges: seq<Edge>, finder: CycleFinder, path: seq<Node>)
    requires forall u :: Get(finder.adj, u) == Adj(nodes, edges, u)
    requires finder.IsCycle(path)
    ensures CyclePath(nodes, edges, path)
  {
    forall i | 0 <= i < |path| - 1 ensures Arrow(nodes, edges, path[i], path[i + 1]) {
      AdjIsArrow(nodes, edges, path[i], path[i + 1]);
    }
  }
}
