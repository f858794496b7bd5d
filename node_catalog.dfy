/** The catalog queries of skills/n8n-mcp-server/src/tools/search.ts:
    `searchNodes` (filter, limit, summary), `getNodeDetails` (lookup by
    name), `listCategories` (a count per category, most frequent first)
    and the `getNodes` cache. `toLowerCase` is ASCII lower-casing. */
module NodeCatalog {
  import opened Wrappers
  import opened Text
  import opened N8nNodes

  // ---------------------------------------------------------------- cache

  /** The module's `nodesCache`: `null` until the first `getNodes`, then
      the loaded catalog for good (an empty array is an object, so it is
      kept too). `loadNodes` is the parameter `loaded`. */
  class NodeStore {
    var cache: Option<seq<N8nNode>>

    constructor ()
      ensures cache == None
    {
      cache := None;
    }

    method GetNodes(loaded: seq<N8nNode>) returns (nodes: seq<N8nNode>)
      modifies this
      ensures old(cache).None? ==> nodes == loaded && cache == Some(loaded)
      ensures old(cache).Some? ==> nodes == old(cache).value && cache == old(cache)
    {
      if cache.None? {
        cache := Some(loaded);
      }
      nodes := cache.value;
    }
  }

  // ---------------------------------------------------------------- search

  /** The four fields `searchNodes` reports for a node. */
  datatype Summary = Summary(name: string, displayName: string, description: string, category: string)

  datatype SearchResult = SearchResult(count: nat, nodes: seq<Summary>)

  const DefaultLimit: int := 10

  function Summarize(n: N8nNode): Summary
  {
    Summary(n.name, n.displayName, n.description, n.category)
  }

  /** The query occurs, ignoring case, in the name, the display name or
      the description. */
  predicate MatchesQuery(n: N8nNode, query: string)
  {
    || Contains(Lower(n.name), Lower(query))
    || Contains(Lower(n.displayName), Lower(query))
    || Contains(Lower(n.description), Lower(query))
  }

  /** `!category || ...`: a missing or empty category filters nothing. */
  predicate MatchesCategory(n: N8nNode, category: Option<string>)
  {
    category.None? || category.value == [] || EqualsIgnoreCase(n.category, category.value)
  }

  predicate Matches(n: N8nNode, query: string, category: Option<string>)
  {
    MatchesQuery(n, query) && MatchesCategory(n, category)
  }

  /** `nodes.filter(...)`. */
  function Matching(nodes: seq<N8nNode>, query: string, category: Option<string>): (r: seq<N8nNode>)
    ensures |r| <= |nodes|
    ensures forall i :: 0 <= i < |r| ==> r[i] in nodes && Matches(r[i], query, category)
    ensures forall n :: n in nodes && Matches(n, query, category) ==> n in r
  {
    if nodes == [] then []
    else
      var rest := Matching(nodes[1..], query, category);
      assert forall n :: n in nodes[1..] ==> n in nodes;
      if Matches(nodes[0], query, category) then [nodes[0]] + rest else rest
  }

  /** Filtering keeps catalog order: it distributes over concatenation. */
  lemma {:induction false} MatchingAppend(a: seq<N8nNode>, b: seq<N8nNode>, query: string, category: Option<string>)
    ensures Matching(a + b, query, category) == Matching(a, query, category) + Matching(b, query, category)
  {
    if a == [] {
      assert a + b == b;
    } else {
      assert (a + b)[0] == a[0];
      assert (a + b)[1..] == a[1..] + b;
      MatchingAppend(a[1..], b, query, category);
    }
  }

  /** The end index of JavaScript's `slice(0, limit)` on a list of `len`
      elements: a negative limit counts from the end. */
  function SliceEnd(len: nat, limit: int): (k: nat)
    ensures k <= len
    ensures limit >= 0 ==> k == if limit < len then limit else len
    ensures limit < 0 ==> k == if len + limit > 0 then len + limit else 0
  {
    if limit >= 0 then (if limit < len then limit else len)
    else if len + limit > 0 then len + limit else 0
  }

  /** `searchNodes`: the first `limit` matches, in catalog order, as
      summaries, with their number. */
  function SearchNodes(nodes: seq<N8nNode>, query: string, category: Option<string>, limit: Option<int>)
    : (r: SearchResult)
    ensures r.count == |r.nodes|
    ensures r.count <= |nodes|
    ensures limit.None? ==> r.count <= 10
    ensures limit.Some? && limit.value >= 0 ==> r.count <= limit.value
    ensures forall i :: 0 <= i < |r.nodes| ==>
      exists n :: n in nodes && Matches(n, query, category) && r.nodes[i] == Summarize(n)
  {
    var matches := Matching(nodes, query, category);
    var lim := if limit.Some? then limit.value else DefaultLimit;
    var kept := matches[..SliceEnd(|matches|, lim)];
    var summaries := seq(|kept|, i requires 0 <= i < |kept| => Summarize(kept[i]));
    assert forall i :: 0 <= i < |summaries| ==> kept[i] in nodes && Matches(kept[i], query, category);
    SearchResult(|summaries|, summaries)
  }

  /** The results are a prefix of the summaries of all matches, exactly as
      long as `slice(0, limit)` keeps; when the limit does not cut, every
      matching node is reported. */
  lemma SearchIsPrefixOfMatches(nodes: seq<N8nNode>, query: string, category: Option<string>, limit: Option<int>)
    ensures var lim := if limit.Some? then limit.value else DefaultLimit;
      |SearchNodes(nodes, query, category, limit).nodes| == SliceEnd(|Matching(nodes, query, category)|, lim)
    ensures var all := Matching(nodes, query, category);
      SearchNodes(nodes, query, category, limit).nodes
        <= seq(|all|, i requires 0 <= i < |all| => Summarize(all[i]))
    ensures var lim := if limit.Some? then limit.value else DefaultLimit;
      0 <= |Matching(nodes, query, category)| <= lim ==>
        forall n :: n in nodes && Matches(n, query, category) ==>
          Summarize(n) in SearchNodes(nodes, query, category, limit).nodes
  {
    var all := Matching(nodes, query, category);
    var lim := if limit.Some? then limit.value else DefaultLimit;
    var r := SearchNodes(nodes, query, category, limit).nodes;
    if 0 <= |all| <= lim {
      forall n | n in nodes && Matches(n, query, category)
        ensures Summarize(n) in r
      {
        var i :| 0 <= i < |all| && all[i] == n;
        assert r[i] == Summarize(n);
      }
    }
  }

  /** The empty query matches every node, and without a category every
      node is a candidate. */
  lemma EmptyQueryMatchesAll(n: N8nNode)
    ensures Matches(n, "", None)
  {
    assert Lower("") == "";
    EmptyOccursEverywhere(Lower(n.name));
  }

  // ---------------------------------------------------------------- lookup

  /** `getNodeDetails`: the first node named by the argument, ignoring
      case, or the not-found error. */
  function GetNodeDetails(nodes: seq<N8nNode>, nodeName: string): (r: Result<N8nNode, string>)
    ensures r.Ok? ==> r.value in nodes && NamedBy(r.value, nodeName)
    ensures r.Ok? ==> exists i ::
      0 <= i < |nodes| && nodes[i] == r.value && (forall j :: 0 <= j < i ==> !NamedBy(nodes[j], nodeName))
    ensures r.Err? <==> forall j :: 0 <= j < |nodes| ==> !NamedBy(nodes[j], nodeName)
    ensures r.Err? ==> r.error == NotFoundMessage(nodeName)
  {
    match FindNamed(nodes, nodeName)
    case Some(i) => Ok(nodes[i])
    case None => Err(NotFoundMessage(nodeName))
  }

  // ---------------------------------------------------------------- categories

  datatype CategoryCount = CategoryCount(name: string, count: nat)

  /** The number of nodes in category `c`. */
  function CountCategory(nodes: seq<N8nNode>, c: string): nat
  {
    if nodes == [] then 0
    else CountCategory(nodes[..|nodes| - 1], c) + (if nodes[|nodes| - 1].category == c then 1 else 0)
  }

  lemma {:induction false} CountedCategoryOccurs(nodes: seq<N8nNode>, c: string)
    requires CountCategory(nodes, c) > 0
    ensures exists k :: 0 <= k < |nodes| && nodes[k].category == c
  {
    var init := nodes[..|nodes| - 1];
    if nodes[|nodes| - 1].category != c {
      CountedCategoryOccurs(init, c);
      var k :| 0 <= k < |init| && init[k].category == c;
      assert nodes[k] == init[k];
    }
  }

  function IndexOfName(entries: seq<CategoryCount>, name: string): (r: Option<nat>)
    ensures r.Some? ==> r.value < |entries| && entries[r.value].name == name
    ensures r.None? ==> forall i :: 0 <= i < |entries| ==> entries[i].name != name
  {
    if entries == [] then None
    else if entries[0].name == name then Some(0)
    else
      match IndexOfName(entries[1..], name)
      case None => None
      case Some(i) => Some(i + 1)
  }

  /** `categories.set(c, (categories.get(c) || 0) + 1)` on the entries of
      a `Map`, which keeps keys in first-insertion order. */
  function Bump(entries: seq<CategoryCount>, c: string): seq<CategoryCount>
  {
    match IndexOfName(entries, c)
    case Some(i) => entries[i := CategoryCount(c, entries[i].count + 1)]
    case None => entries + [CategoryCount(c, 1)]
  }

  /** The map's entries after the loop over `nodes`. */
  function Tally(nodes: seq<N8nNode>): seq<CategoryCount>
  {
    if nodes == [] then [] else Bump(Tally(nodes[..|nodes| - 1]), nodes[|nodes| - 1].category)
  }

  predicate DistinctNames(entries: seq<CategoryCount>)
  {
    forall i, j :: 0 <= i < j < |entries| ==> entries[i].name != entries[j].name
  }

  function SumCounts(entries: seq<CategoryCount>): nat
  {
    if entries == [] then 0 else entries[0].count + SumCounts(entries[1..])
  }

  lemma {:induction false} SumCountsAppend(a: seq<CategoryCount>, b: seq<CategoryCount>)
    ensures SumCounts(a + b) == SumCounts(a) + SumCounts(b)
  {
    if a == [] {
      assert a + b == b;
    } else {
      assert (a + b)[1..] == a[1..] + b;
      SumCountsAppend(a[1..], b);
    }
  }

  lemma SumCountsUpdate(e: seq<CategoryCount>, i: nat, x: CategoryCount)
    requires i < |e|
    ensures SumCounts(e[i := x]) + e[i].count == SumCounts(e) + x.count
  {
    assert e == e[..i] + [e[i]] + e[i + 1..];
    assert e[i := x] == e[..i] + [x] + e[i + 1..];
    SumCountsAppend(e[..i] + [e[i]], e[i + 1..]);
    SumCountsAppend(e[..i], [e[i]]);
    SumCountsAppend(e[..i] + [x], e[i + 1..]);
    SumCountsAppend(e[..i], [x]);
  }

  /** One more node of category `c`: an entry named `c` gains one, or a
      new entry `c` with count one goes last; the other entries keep their
      places and counts. */
  lemma BumpFacts(t: seq<CategoryCount>, c: string)
    requires DistinctNames(t)
    ensures var b := Bump(t, c);
      && DistinctNames(b)
      && |t| <= |b| <= |t| + 1
      && (|b| == |t| + 1 <==> forall i :: 0 <= i < |t| ==> t[i].name != c)
      && (forall i :: 0 <= i < |t| ==> b[i].name == t[i].name)
      && (forall i :: 0 <= i < |t| ==> b[i].count == t[i].count + if t[i].name == c then 1 else 0)
      && (|b| == |t| + 1 ==> b[|t|] == CategoryCount(c, 1))
      && SumCounts(b) == SumCounts(t) + 1
  {
    match IndexOfName(t, c) {
      case Some(i) =>
        SumCountsUpdate(t, i, CategoryCount(c, t[i].count + 1));
      case None =>
        SumCountsAppend(t, [CategoryCount(c, 1)]);
        assert SumCounts([CategoryCount(c, 1)]) == 1;
    }
  }

  lemma {:induction false} TallyDistinct(nodes: seq<N8nNode>)
    ensures DistinctNames(Tally(nodes))
    ensures SumCounts(Tally(nodes)) == |nodes|
  {
    if nodes != [] {
      TallyDistinct(nodes[..|nodes| - 1]);
      BumpFacts(Tally(nodes[..|nodes| - 1]), nodes[|nodes| - 1].category);
    }
  }

  /** Every node's category has an entry in `r`. */
  predicate CoversCategories(r: seq<CategoryCount>, nodes: seq<N8nNode>)
  {
    forall k :: 0 <= k < |nodes| ==> exists i :: 0 <= i < |r| && r[i].name == nodes[k].category
  }

  lemma {:induction false} TallyCovers(nodes: seq<N8nNode>)
    ensures CoversCategories(Tally(nodes), nodes)
  {
    if nodes != [] {
      var init := nodes[..|nodes| - 1];
      var c := nodes[|nodes| - 1].category;
      TallyCovers(init);
      TallyDistinct(init);
      var t := Tally(init);
      var b := Tally(nodes);
      BumpFacts(t, c);
      forall k | 0 <= k < |nodes|
        ensures exists i :: 0 <= i < |b| && b[i].name == nodes[k].category
      {
        if k < |init| {
          assert nodes[k] == init[k];
          var j :| 0 <= j < |t| && t[j].name == init[k].category;
          assert b[j].name == t[j].name;
        } else if |b| == |t| + 1 {
          assert b[|t|].name == c;
        } else {
          var j :| 0 <= j < |t| && t[j].name == c;
          assert b[j].name == c;
        }
      }
      assert b == Tally(nodes);
    }
  }

  lemma {:induction false} TallyCounts(nodes: seq<N8nNode>)
    ensures forall i :: 0 <= i < |Tally(nodes)| ==>
      Tally(nodes)[i].count == CountCategory(nodes, Tally(nodes)[i].name) >= 1
  {
    if nodes != [] {
      var init := nodes[..|nodes| - 1];
      var c := nodes[|nodes| - 1].category;
      TallyCounts(init);
      TallyDistinct(init);
      var t := Tally(init);
      BumpFacts(t, c);
      if |Tally(nodes)| == |t| + 1 && CountCategory(init, c) > 0 {
        CountedCategoryOccurs(init, c);
        TallyCovers(init);
      }
    }
  }

  /** What the loop's map holds: one entry per distinct category, in
      order of first appearance, each with the number of nodes in it,
      the counts adding up to the number of nodes. */
  lemma TallyFacts(nodes: seq<N8nNode>)
    ensures DistinctNames(Tally(nodes))
    ensures forall i :: 0 <= i < |Tally(nodes)| ==>
      Tally(nodes)[i].count == CountCategory(nodes, Tally(nodes)[i].name) >= 1
    ensures CoversCategories(Tally(nodes), nodes)
    ensures SumCounts(Tally(nodes)) == |nodes|
  {
    TallyDistinct(nodes);
    TallyCovers(nodes);
    TallyCounts(nodes);
  }

  predicate SortedByCount(e: seq<CategoryCount>)
  {
    forall i, j :: 0 <= i < j < |e| ==> e[i].count >= e[j].count
  }

  /** Where a stable insertion puts `x`: after every entry whose count is
      at least `x`'s. */
  function InsertPos(x: CategoryCount, s: seq<CategoryCount>): (k: nat)
    ensures k <= |s|
    ensures forall i :: 0 <= i < k ==> s[i].count >= x.count
    ensures k < |s| ==> s[k].count < x.count
  {
    if s == [] then 0
    else if s[0].count < x.count then 0
    else 1 + InsertPos(x, s[1..])
  }

  function Insert(x: CategoryCount, s: seq<CategoryCount>): (r: seq<CategoryCount>)
    ensures |r| == |s| + 1
    ensures multiset(r) == multiset(s) + multiset{x}
  {
    var k := InsertPos(x, s);
    assert s == s[..k] + s[k..];
    s[..k] + [x] + s[k..]
  }

  lemma InsertSorted(x: CategoryCount, s: seq<CategoryCount>)
    requires SortedByCount(s)
    ensures SortedByCount(Insert(x, s))
  {
    var k := InsertPos(x, s);
    var r := Insert(x, s);
    assert forall i :: 0 <= i < k ==> r[i] == s[i];
    assert forall i :: k < i < |r| ==> r[i] == s[i - 1];
    if k < |s| {
      assert forall i :: k <= i < |s| ==> s[i].count <= s[k].count;
    }
  }

  lemma InsertSum(x: CategoryCount, s: seq<CategoryCount>)
    ensures SumCounts(Insert(x, s)) == SumCounts(s) + x.count
  {
    var k := InsertPos(x, s);
    assert s == s[..k] + s[k..];
    SumCountsAppend(s[..k] + [x], s[k..]);
    SumCountsAppend(s[..k], [x]);
    SumCountsAppend(s[..k], s[k..]);
    assert SumCounts([x]) == x.count;
  }

  lemma InsertDistinct(x: CategoryCount, s: seq<CategoryCount>)
    requires DistinctNames(s)
    requires forall i :: 0 <= i < |s| ==> s[i].name != x.name
    ensures DistinctNames(Insert(x, s))
  {
    var k := InsertPos(x, s);
    var r := Insert(x, s);
    assert forall i :: 0 <= i < k ==> r[i] == s[i];
    assert r[k] == x;
    assert forall i :: k < i < |r| ==> r[i] == s[i - 1];
  }

  /** `Array.prototype.sort((a, b) => b.count - a.count)`, which is stable:
      entries are inserted one at a time, in order, each after the
      entries with at least its count. */
  function SortByCount(s: seq<CategoryCount>): (r: seq<CategoryCount>)
    ensures |r| == |s|
    ensures multiset(r) == multiset(s)
    ensures SortedByCount(r)
    ensures SumCounts(r) == SumCounts(s)
  {
    if s == [] then []
    else
      var init := s[..|s| - 1];
      var last := s[|s| - 1];
      var sorted := SortByCount(init);
      InsertSorted(last, sorted);
      InsertSum(last, sorted);
      SnocFacts(s);
      Insert(last, sorted)
  }

  /** A non-empty list is its initial part and its last entry, as a
      multiset and in its sum. */
  lemma SnocFacts(s: seq<CategoryCount>)
    requires s != []
    ensures multiset(s) == multiset(s[..|s| - 1]) + multiset{s[|s| - 1]}
    ensures SumCounts(s) == SumCounts(s[..|s| - 1]) + s[|s| - 1].count
  {
    assert s == s[..|s| - 1] + [s[|s| - 1]];
    SumCountsAppend(s[..|s| - 1], [s[|s| - 1]]);
    assert SumCounts([s[|s| - 1]]) == s[|s| - 1].count;
  }

  lemma {:induction false} SortKeepsDistinct(s: seq<CategoryCount>)
    requires DistinctNames(s)
    ensures DistinctNames(SortByCount(s))
  {
    if s != [] {
      var init := s[..|s| - 1];
      var x := s[|s| - 1];
      assert DistinctNames(init);
      SortKeepsDistinct(init);
      var sorted := SortByCount(init);
      forall i | 0 <= i < |sorted| ensures sorted[i].name != x.name {
        assert sorted[i] in multiset(init);
        var j :| 0 <= j < |init| && init[j] == sorted[i];
        assert s[j] == init[j];
      }
      InsertDistinct(x, sorted);
    }
  }

  /** The sorted entries: one per category in the catalog, each with the
      number of its nodes, most frequent first, adding up to all nodes. */
  lemma SortedTallyFacts(nodes: seq<N8nNode>)
    ensures var r := SortByCount(Tally(nodes));
      && SortedByCount(r)
      && DistinctNames(r)
      && (forall i :: 0 <= i < |r| ==> r[i].count == CountCategory(nodes, r[i].name) >= 1)
      && CoversCategories(r, nodes)
      && SumCounts(r) == |nodes|
  {
    TallyDistinct(nodes);
    SortKeepsDistinct(Tally(nodes));
    SortedCounts(nodes);
    SortedCovers(nodes);
  }

  lemma SortedCounts(nodes: seq<N8nNode>)
    ensures var r := SortByCount(Tally(nodes));
      forall i :: 0 <= i < |r| ==> r[i].count == CountCategory(nodes, r[i].name) >= 1
  {
    var t := Tally(nodes);
    var r := SortByCount(t);
    TallyCounts(nodes);
    forall i | 0 <= i < |r|
      ensures r[i].count == CountCategory(nodes, r[i].name) >= 1
    {
      assert r[i] in multiset(t);
    }
  }

  lemma SortedCovers(nodes: seq<N8nNode>)
    ensures CoversCategories(SortByCount(Tally(nodes)), nodes)
  {
    var t := Tally(nodes);
    var r := SortByCount(t);
    TallyCovers(nodes);
    forall k | 0 <= k < |nodes|
      ensures exists i :: 0 <= i < |r| && r[i].name == nodes[k].category
    {
      var m :| 0 <= m < |t| && t[m].name == nodes[k].category;
      assert t[m] in multiset(r);
      var i :| 0 <= i < |r| && r[i] == t[m];
      assert r[i].name == nodes[k].category;
    }
  }

  /** The `for` loop of `listCategories`: the `Map` from category to
      count, as its key order and its contents. */
  method CountByCategory(nodes: seq<N8nNode>) returns (order: seq<string>, counts: map<string, nat>)
    ensures MapHolds(order, counts, Tally(nodes))
  {
    counts := map[];
    order := [];
    for i := 0 to |nodes|
      invariant MapHolds(order, counts, Tally(nodes[..i]))
    {
      assert nodes[..i + 1][..i] == nodes[..i];
      TallyDistinct(nodes[..i]);
      var c := nodes[i].category;
      BumpHolds(order, counts, Tally(nodes[..i]), c);
      if c in counts {
        counts := counts[c := counts[c] + 1];
      } else {
        order := order + [c];
        counts := counts[c := 1];
      }
    }
    assert nodes[..|nodes|] == nodes;
  }

  /** `listCategories`: count the nodes per category in a map, read its
      entries in insertion order, and sort them by count, largest first. */
  method ListCategories(nodes: seq<N8nNode>) returns (categories: seq<CategoryCount>)
    ensures categories == SortByCount(Tally(nodes))
  {
    var order, counts := CountByCategory(nodes);
    ghost var t := Tally(nodes);
    var entries: seq<CategoryCount> := [];
    for j := 0 to |order|
      invariant |entries| == j
      invariant forall m :: 0 <= m < j ==> entries[m] == t[m]
    {
      assert order[j] == t[j].name && counts[t[j].name] == t[j].count;
      entries := entries + [CategoryCount(order[j], counts[order[j]])];
    }
    assert entries == t;
    categories := SortByCount(entries);
  }

  /** The loop's `Map`, as a key order and a map, holds the entries `t`. */
  ghost predicate MapHolds(order: seq<string>, counts: map<string, nat>, t: seq<CategoryCount>)
  {
    && |order| == |t|
    && (forall i :: 0 <= i < |t| ==> order[i] == t[i].name && t[i].name in counts && counts[t[i].name] == t[i].count)
    && (forall c :: c in counts ==> c in order)
  }

  /** Counting one more node of category `c` keeps the map in step with
      `Bump`: an existing key keeps its place, a new key goes last. */
  lemma BumpHolds(order: seq<string>, counts: map<string, nat>, t: seq<CategoryCount>, c: string)
    requires MapHolds(order, counts, t) && DistinctNames(t)
    ensures c in counts ==> MapHolds(order, counts[c := counts[c] + 1], Bump(t, c))
    ensures c !in counts ==> MapHolds(order + [c], counts[c := 1], Bump(t, c))
  {
    if c in counts {
      BumpExisting(order, counts, t, c);
    } else {
      BumpNew(order, counts, t, c);
    }
  }

  lemma BumpExisting(order: seq<string>, counts: map<string, nat>, t: seq<CategoryCount>, c: string)
    requires MapHolds(order, counts, t) && DistinctNames(t) && c in counts
    ensures MapHolds(order, counts[c := counts[c] + 1], Bump(t, c))
  {
    BumpFacts(t, c);
    var b := Bump(t, c);
    var after := counts[c := counts[c] + 1];
    assert |b| == |t|;
    forall i | 0 <= i < |b|
      ensures order[i] == b[i].name && b[i].name in after && after[b[i].name] == b[i].count
    {
      var n := t[i].name;
      assert b[i].name == n && order[i] == n && counts[n] == t[i].count;
      if n == c {
        assert after[n] == t[i].count + 1 == b[i].count;
      } else {
        assert after[n] == counts[n] == b[i].count;
      }
    }
    forall d | d in after ensures d in order {
      assert d in counts;
    }
  }

  lemma BumpNew(order: seq<string>, counts: map<string, nat>, t: seq<CategoryCount>, c: string)
    requires MapHolds(order, counts, t) && DistinctNames(t) && c !in counts
    ensures MapHolds(order + [c], counts[c := 1], Bump(t, c))
  {
    BumpFacts(t, c);
    var b := Bump(t, c);
    var after := counts[c := 1];
    var o := order + [c];
    assert forall i :: 0 <= i < |t| ==> t[i].name != c;
    assert |b| == |t| + 1;
    forall i | 0 <= i < |b|
      ensures o[i] == b[i].name && b[i].name in after && after[b[i].name] == b[i].count
    {
      if i < |t| {
        assert b[i].name == t[i].name;
      }
    }
    forall d | d in after ensures d in o {
      if d != c {
        assert d in order;
      }
    }
  }
}
