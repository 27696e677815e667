/**
 * Attribute search over attributed graphs: `search_edges`, `search_nodes`
 * and `search_graphs`.  Each walks its elements in the graph library's
 * iteration order and keeps, in that order, every element whose attribute
 * dictionary holds every queried key with the queried value.
 *
 * The criteria are tested left to right with `all(data[key] == value ...)`:
 * the first criterion that fails stops the test, and looking up a key the
 * element does not have raises KeyError, which ends the whole search.
 */
module AttributeSearch {

  /** Outcome of testing one element: a truth value, or KeyError on a missing key. */
  datatype Check<K> = Pass(matched: bool) | MissingKey(key: K)

  /** Outcome of a search: the matching elements, or the KeyError that ended it. */
  datatype Result<T, K> = Found(elements: seq<T>) | KeyError(key: K)

  /** One criterion: the element has the key and its value there is the queried one. */
  ghost predicate Holds<K, V>(data: map<K, V>, criterion: (K, V))
  {
    criterion.0 in data && data[criterion.0] == criterion.1
  }

  /** The first i criteria of the query hold. */
  ghost predicate HoldsUpTo<K, V>(data: map<K, V>, query: seq<(K, V)>, i: nat)
    requires i <= |query|
  {
    forall j :: 0 <= j < i ==> Holds(data, query[j])
  }

  /** Every criterion of the query holds. */
  ghost predicate Matches<K, V>(data: map<K, V>, query: seq<(K, V)>)
  {
    HoldsUpTo(data, query, |query|)
  }

  /**
   * `all(data[key] == value for key, value in query)`: criteria are tested
   * in query order, the first mismatch answers false without looking at the
   * rest, and a missing key met before any mismatch raises KeyError.
   */
  function AllMatch<K, V(==)>(data: map<K, V>, query: seq<(K, V)>): (r: Check<K>)
    ensures |query| == 0 ==> r == Pass(true)
    ensures r.MissingKey? ==> r.key !in data
  {
    if |query| == 0 then Pass(true)
    else
      var (key, value) := query[0];
      if key !in data then MissingKey(key)
      else if data[key] != value then Pass(false)
      else AllMatch(data, query[1..])
  }

  /**
   * What the test answers: true exactly when every criterion holds; false
   * exactly when some criterion finds its key with another value and all
   * criteria before it hold; KeyError exactly when some criterion's key is
   * missing and all criteria before it hold, and then the error names the
   * key of that first such criterion.  So a missing key after a failed
   * criterion raises nothing.
   */
  lemma {:induction false} AllMatchMeaning<K, V>(data: map<K, V>, query: seq<(K, V)>)
    ensures AllMatch(data, query) == Pass(true) <==> Matches(data, query)
    ensures AllMatch(data, query) == Pass(false) <==>
      exists i :: 0 <= i < |query| && HoldsUpTo(data, query, i) &&
        query[i].0 in data && data[query[i].0] != query[i].1
    ensures AllMatch(data, query).MissingKey? <==>
      exists i :: 0 <= i < |query| && HoldsUpTo(data, query, i) && query[i].0 !in data
    ensures forall i :: 0 <= i < |query| && HoldsUpTo(data, query, i) && query[i].0 !in data ==>
      AllMatch(data, query) == MissingKey(query[i].0)
  {
    if |query| > 0 {
      var (key, value) := query[0];
      if key in data && data[key] == value {
        var tail := query[1..];
        AllMatchMeaning(data, tail);
        assert forall i :: 0 < i < |query| ==> query[i] == tail[i - 1];
        assert forall i :: 0 < i <= |query| ==>
          (HoldsUpTo(data, query, i) <==> HoldsUpTo(data, tail, i - 1));
      } else {
        assert HoldsUpTo(data, query, 0);
      }
    }
  }

  /**
   * Reference definition of a search: elements are visited in order; one
   * whose test raises KeyError ends the search with that error, otherwise
   * the matching ones are kept in order.
   */
  function Filter<T, K, V(==)>(elems: seq<T>, attrs: T -> map<K, V>, query: seq<(K, V)>): Result<T, K>
  {
    if |elems| == 0 then Found([])
    else
      match Filter(elems[..|elems| - 1], attrs, query)
      case KeyError(k) => KeyError(k)
      case Found(kept) =>
        var last := elems[|elems| - 1];
        match AllMatch(attrs(last), query)
        case MissingKey(k) => KeyError(k)
        case Pass(b) => Found(if b then kept + [last] else kept)
  }

  /** Once a search has raised KeyError on a prefix, it raises the same error on the whole. */
  lemma {:induction false} ErrorEndsSearch<T, K, V>(elems: seq<T>, attrs: T -> map<K, V>, query: seq<(K, V)>, i: nat)
    requires i <= |elems| && Filter(elems[..i], attrs, query).KeyError?
    ensures Filter(elems, attrs, query) == Filter(elems[..i], attrs, query)
    decreases |elems| - i
  {
    if i < |elems| {
      assert elems[..i + 1][..i] == elems[..i];
      ErrorEndsSearch(elems, attrs, query, i + 1);
    } else {
      assert elems[..i] == elems;
    }
  }

  /** Searching a concatenation searches the parts in turn (the order is kept). */
  lemma {:induction false} FilterAppend<T, K, V>(a: seq<T>, b: seq<T>, attrs: T -> map<K, V>, query: seq<(K, V)>)
    ensures Filter(a + b, attrs, query) ==
      match Filter(a, attrs, query)
      case KeyError(k) => KeyError(k)
      case Found(ka) =>
        match Filter(b, attrs, query)
        case KeyError(k) => KeyError(k)
        case Found(kb) => Found(ka + kb)
  {
    if |b| == 0 {
      assert a + b == a;
    } else {
      var b' := b[..|b| - 1];
      assert (a + b)[..|a + b| - 1] == a + b';
      FilterAppend(a, b', attrs, query);
      match Filter(a, attrs, query)
      case KeyError(k) =>
      case Found(ka) =>
        match Filter(b', attrs, query)
        case KeyError(k) =>
        case Found(kb) =>
          assert (ka + kb) + [b[|b| - 1]] == ka + (kb + [b[|b| - 1]]);
    }
  }

  /** A search succeeds exactly when no element's test raises KeyError. */
  lemma {:induction false} FilterSucceeds<T, K, V>(elems: seq<T>, attrs: T -> map<K, V>, query: seq<(K, V)>)
    ensures Filter(elems, attrs, query).Found? <==>
      forall i :: 0 <= i < |elems| ==> AllMatch(attrs(elems[i]), query).Pass?
  {
    if |elems| > 0 {
      var p := elems[..|elems| - 1];
      FilterSucceeds(p, attrs, query);
      assert forall i :: 0 <= i < |p| ==> p[i] == elems[i];
    }
  }

  /**
   * A successful search keeps exactly the matching elements: nothing that
   * fails a criterion is kept and no matching element is dropped.
   */
  lemma {:induction false} FilterKeepsMatches<T, K, V>(elems: seq<T>, attrs: T -> map<K, V>, query: seq<(K, V)>)
    requires Filter(elems, attrs, query).Found?
    ensures |Filter(elems, attrs, query).elements| <= |elems|
    ensures forall e :: e in Filter(elems, attrs, query).elements <==>
      e in elems && Matches(attrs(e), query)
  {
    if |elems| > 0 {
      var p := elems[..|elems| - 1];
      var last := elems[|elems| - 1];
      assert elems == p + [last];
      FilterKeepsMatches(p, attrs, query);
      AllMatchMeaning(attrs(last), query);
    }
  }

  /** When every element matches, the search returns the elements unchanged. */
  lemma {:induction false} FilterAllMatching<T, K, V>(elems: seq<T>, attrs: T -> map<K, V>, query: seq<(K, V)>)
    requires forall i :: 0 <= i < |elems| ==> Matches(attrs(elems[i]), query)
    ensures Filter(elems, attrs, query) == Found(elems)
  {
    if |elems| > 0 {
      var p := elems[..|elems| - 1];
      assert forall i :: 0 <= i < |p| ==> p[i] == elems[i];
      FilterAllMatching(p, attrs, query);
      var last := elems[|elems| - 1];
      AllMatchMeaning(attrs(last), query);
      assert p + [last] == elems;
    }
  }

  /** An empty query matches every element, so the search returns them all. */
  lemma FilterEmptyQuery<T, K, V>(elems: seq<T>, attrs: T -> map<K, V>)
    ensures Filter(elems, attrs, []) == Found(elems)
  {
    FilterAllMatching(elems, attrs, []);
  }

  /**
   * A search that raises KeyError(k) does so at the first element whose test
   * raises; every element before it was tested without error, and k is a
   * queried key that element lacks, met before any failing criterion.
   */
  lemma {:induction false} FilterRaisesAtFirst<T, K, V>(elems: seq<T>, attrs: T -> map<K, V>, query: seq<(K, V)>)
    requires Filter(elems, attrs, query).KeyError?
    ensures exists i :: (0 <= i < |elems| &&
      AllMatch(attrs(elems[i]), query) == MissingKey(Filter(elems, attrs, query).key) &&
      forall j :: 0 <= j < i ==> AllMatch(attrs(elems[j]), query).Pass?)
  {
    var p := elems[..|elems| - 1];
    var n := |elems| - 1;
    assert forall j :: 0 <= j < |p| ==> p[j] == elems[j];
    if Filter(p, attrs, query).KeyError? {
      FilterRaisesAtFirst(p, attrs, query);
    } else {
      FilterSucceeds(p, attrs, query);
      assert AllMatch(attrs(elems[n]), query) == MissingKey(Filter(elems, attrs, query).key);
    }
  }

  /**
   * The search loop: visit each element in order, test it, append it when it
   * matches; a KeyError from the test ends the search.
   */
  method Search<T, K, V(==)>(elems: seq<T>, attrs: T -> map<K, V>, query: seq<(K, V)>) returns (r: Result<T, K>)
    ensures r == Filter(elems, attrs, query)
  {
    var kept := [];
    for i := 0 to |elems|
      invariant Filter(elems[..i], attrs, query) == Found(kept)
    {
      assert elems[..i + 1][..i] == elems[..i];
      match AllMatch(attrs(elems[i]), query)
      case MissingKey(k) =>
        ErrorEndsSearch(elems, attrs, query, i + 1);
        return KeyError(k);
      case Pass(b) =>
        if b {
          kept := kept + [elems[i]];
        }
    }
    assert elems[..|elems|] == elems;
    r := Found(kept);
  }

  /** An edge as the graph library yields it: its two end nodes and its attributes. */
  datatype Edge<N, K, V> = Edge(source: N, target: N, data: map<K, V>)

  /** A node as the graph library yields it: its identifier and its attributes. */
  datatype Node<N, K, V> = Node(id: N, data: map<K, V>)

  /**
   * A directed graph as seen by the searches: its nodes and edges in the
   * library's iteration order, and its graph-level attribute dictionary.
   */
  datatype Graph<N, K, V> = Graph(nodes: seq<Node<N, K, V>>, edges: seq<Edge<N, K, V>>, attrs: map<K, V>)

  function EdgeData<N, K, V>(e: Edge<N, K, V>): map<K, V> { e.data }

  function NodeData<N, K, V>(n: Node<N, K, V>): map<K, V> { n.data }

  function GraphAttrs<N, K, V>(g: Graph<N, K, V>): map<K, V> { g.attrs }

  /** `search_edges`: the edges of the graph whose attributes match the query. */
  method SearchEdges<N, K, V(==)>(graph: Graph<N, K, V>, query: seq<(K, V)>) returns (r: Result<Edge<N, K, V>, K>)
    ensures r == Filter(graph.edges, EdgeData, query)
    ensures r.Found? ==> forall e :: e in r.elements <==> e in graph.edges && Matches(e.data, query)
  {
    r := Search(graph.edges, EdgeData, query);
    if r.Found? {
      FilterKeepsMatches(graph.edges, EdgeData, query);
    }
  }

  /** `search_nodes`: the nodes of the graph whose attributes match the query. */
  method SearchNodes<N, K, V(==)>(graph: Graph<N, K, V>, query: seq<(K, V)>) returns (r: Result<Node<N, K, V>, K>)
    ensures r == Filter(graph.nodes, NodeData, query)
    ensures r.Found? ==> forall n :: n in r.elements <==> n in graph.nodes && Matches(n.data, query)
  {
    r := Search(graph.nodes, NodeData, query);
    if r.Found? {
      FilterKeepsMatches(graph.nodes, NodeData, query);
    }
  }

  /** `search_graphs`: the graphs of the list whose graph-level attributes match the query. */
  method SearchGraphs<N, K, V(==)>(graphs: seq<Graph<N, K, V>>, query: seq<(K, V)>) returns (r: Result<Graph<N, K, V>, K>)
    ensures r == Filter(graphs, GraphAttrs, query)
    ensures r.Found? ==> forall g :: g in r.elements <==> g in graphs && Matches(g.attrs, query)
  {
    r := Search(graphs, GraphAttrs, query);
    if r.Found? {
      FilterKeepsMatches(graphs, GraphAttrs, query);
    }
  }
}
