/** The scope closures of the permission oracle: departments below given ones, and
    employees below one (tools/judge_scope.py:178-191 and 200-207). */
module Closure {

  type Id = int

  datatype Option<+T> = None | Some(value: T)

  /** A row: `child` lies directly below `parent`, if it has one. */
  datatype Edge = Edge(child: Id, parent: Option<Id>)

  type Edges = seq<Edge>

  // ---------- what a closure is ----------

  predicate Below(rows: Edges, child: Id, parent: Id) {
    Edge(child, Some(parent)) in rows
  }

  /** Each element lies directly below the one before. */
  predicate IsChain(rows: Edges, chain: seq<Id>) {
    |chain| <= 1 || (Below(rows, chain[1], chain[0]) && IsChain(rows, chain[1..]))
  }

  predicate Leads(rows: Edges, chain: seq<Id>, roots: set<Id>, x: Id) {
    chain != [] && chain[0] in roots && chain[|chain| - 1] == x && IsChain(rows, chain)
  }

  /** `x` is a root, or lies below one, at any depth. */
  ghost predicate Reaches(rows: Edges, roots: set<Id>, x: Id) {
    exists chain :: Leads(rows, chain, roots, x)
  }

  /** Every child of an element of `done` is in `all`. */
  predicate ChildrenIn(rows: Edges, done: set<Id>, all: set<Id>) {
    forall e :: e in rows && e.parent.Some? && e.parent.value in done ==> e.child in all
  }

  ghost predicate AllReached(rows: Edges, roots: set<Id>, s: set<Id>) {
    forall x :: x in s ==> Reaches(rows, roots, x)
  }

  lemma {:induction false} ChainStep(rows: Edges, chain: seq<Id>, x: Id)
    requires chain != [] && IsChain(rows, chain) && Below(rows, x, chain[|chain| - 1])
    ensures IsChain(rows, chain + [x])
  {
    if |chain| > 1 {
      ChainStep(rows, chain[1..], x);
      assert (chain + [x])[1..] == chain[1..] + [x];
    } else {
      assert (chain + [x])[1..] == [x];
    }
  }

  lemma {:induction false} ReachesRoot(rows: Edges, roots: set<Id>, x: Id)
    requires x in roots
    ensures Reaches(rows, roots, x)
  {
    assert Leads(rows, [x], roots, x);
  }

  lemma {:induction false} ReachesChild(rows: Edges, roots: set<Id>, p: Id, x: Id)
    requires Reaches(rows, roots, p) && Below(rows, x, p)
    ensures Reaches(rows, roots, x)
  {
    var chain :| Leads(rows, chain, roots, p);
    ChainStep(rows, chain, x);
    assert Leads(rows, chain + [x], roots, x);
  }

  /** A closed set that holds where a chain starts holds all of it. */
  lemma {:induction false} ClosedHoldsChain(rows: Edges, s: set<Id>, chain: seq<Id>)
    requires ChildrenIn(rows, s, s) && chain != [] && chain[0] in s && IsChain(rows, chain)
    ensures chain[|chain| - 1] in s
  {
    if |chain| > 1 {
      ClosedHoldsChain(rows, s, chain[1..]);
    }
  }

  /** A closed set of reachable elements that holds the roots is the closure. */
  lemma {:induction false} ClosedIsClosure(rows: Edges, roots: set<Id>, s: set<Id>)
    requires roots <= s && ChildrenIn(rows, s, s) && AllReached(rows, roots, s)
    ensures forall x :: x in s <==> Reaches(rows, roots, x)
  {
    forall x | Reaches(rows, roots, x)
      ensures x in s
    {
      var chain :| Leads(rows, chain, roots, x);
      ClosedHoldsChain(rows, s, chain);
    }
  }

  /** And it is the least closed set that holds them. */
  lemma {:induction false} ClosureIsLeast(rows: Edges, roots: set<Id>, t: set<Id>, x: Id)
    requires roots <= t && ChildrenIn(rows, t, t) && Reaches(rows, roots, x)
    ensures x in t
  {
    var chain :| Leads(rows, chain, roots, x);
    ClosedHoldsChain(rows, t, chain);
  }

  // ---------- one step of the frontier ----------

  /** `[i for i, p in allrows if p in frontier and i not in seen]`. */
  function Next(rows: Edges, frontier: seq<Id>, seen: set<Id>): seq<Id> {
    if rows == [] then []
    else
      var e := rows[0];
      if e.parent.Some? && e.parent.value in frontier && e.child !in seen
      then [e.child] + Next(rows[1..], frontier, seen) else Next(rows[1..], frontier, seen)
  }

  function Ids(xs: seq<Id>): set<Id> { set x | x in xs }

  function ChildIds(rows: Edges): set<Id> { set e | e in rows :: e.child }

  lemma {:induction false} NextMeaning(rows: Edges, frontier: seq<Id>, seen: set<Id>)
    ensures forall x :: x in Next(rows, frontier, seen) <==> x !in seen && exists p :: p in frontier && Below(rows, x, p)
  {
    if rows != [] {
      NextMeaning(rows[1..], frontier, seen);
      forall x
        ensures x in Next(rows, frontier, seen) <==> x !in seen && exists p :: p in frontier && Below(rows, x, p)
      {
        if p :| p in frontier && Below(rows, x, p) {
          assert Edge(x, Some(p)) == rows[0] || Below(rows[1..], x, p);
        }
        if p :| p in frontier && Below(rows[1..], x, p) {
          assert Below(rows, x, p);
        }
        if rows[0].parent.Some? {
          assert Below(rows, rows[0].child, rows[0].parent.value);
        }
      }
    }
  }

  /** A row given twice is found twice: only unique rows make the list free of duplicates. */
  lemma {:induction false} TwiceGivenTwiceFound(child: Id, parent: Id)
    requires child != parent
    ensures Next([Edge(child, Some(parent)), Edge(child, Some(parent))], [parent], {parent}) == [child, child]
  {
    var e := Edge(child, Some(parent));
    assert [e, e][1..] == [e] && [e][1..] == [];
    assert Next([e], [parent], {parent}) == [child] + [];
  }

  predicate Distinct(xs: seq<Id>) {
    xs == [] || (xs[0] !in xs[1..] && Distinct(xs[1..]))
  }

  /** Each child has one row. */
  predicate UniqueChildren(rows: Edges) {
    rows == [] || ((forall e :: e in rows[1..] ==> e.child != rows[0].child) && UniqueChildren(rows[1..]))
  }

  lemma {:induction false} NextDistinct(rows: Edges, frontier: seq<Id>, seen: set<Id>)
    requires UniqueChildren(rows)
    ensures Distinct(Next(rows, frontier, seen))
    ensures forall x :: x in Next(rows, frontier, seen) ==> exists e :: e in rows && e.child == x
  {
    if rows != [] {
      NextDistinct(rows[1..], frontier, seen);
      assert rows[0] in rows && forall e :: e in rows[1..] ==> e in rows;
    }
  }

  lemma {:induction false} DistinctAppend(a: seq<Id>, b: seq<Id>)
    requires Distinct(a) && Distinct(b) && forall x :: x in a ==> x !in b
    ensures Distinct(a + b)
  {
    if a == [] {
      assert a + b == b;
    } else {
      DistinctAppend(a[1..], b);
      assert (a + b)[1..] == a[1..] + b;
      var x := a[0];
      assert x in a && x !in a[1..];
      assert x !in a[1..] + b;
    }
  }

  /** Everything seen is reachable, and only the frontier's children may be missing. */
  ghost predicate Frontier(rows: Edges, roots: set<Id>, seen: set<Id>, frontier: seq<Id>) {
    Ids(frontier) <= seen && AllReached(rows, roots, seen) && ChildrenIn(rows, seen - Ids(frontier), seen)
  }

  lemma {:induction false} FrontierStep(rows: Edges, roots: set<Id>, seen: set<Id>, frontier: seq<Id>, next: seq<Id>)
    requires Frontier(rows, roots, seen, frontier)
    requires forall x :: x in next <==> x !in seen && exists p :: p in frontier && Below(rows, x, p)
    ensures Frontier(rows, roots, seen + Ids(next), next)
    ensures next != [] ==> ChildIds(rows) - (seen + Ids(next)) < ChildIds(rows) - seen
  {
    forall x | x in next
      ensures Reaches(rows, roots, x) && x in ChildIds(rows)
    {
      var p :| p in frontier && Below(rows, x, p);
      ReachesChild(rows, roots, p, x);
    }
    forall e | e in rows && e.parent.Some? && e.parent.value in seen
      ensures e.child in seen + Ids(next)
    {
      if e.parent.value in frontier {
        assert Below(rows, e.child, e.parent.value);
      }
    }
    if next != [] {
      var x := next[0];
      assert x in next;
      assert x in ChildIds(rows) && x !in seen && x in Ids(next);
    }
  }

  // ---------- the two closures ----------

  /** `dept_children`. */
  method DeptChildren(allrows: Edges, roots: seq<Id>) returns (result: seq<Id>)
    ensures forall x :: x in result <==> Reaches(allrows, Ids(roots), x)
    ensures UniqueChildren(allrows) ==> Distinct(result)
  {
    var seen: set<Id> := {};
    result := [];
    for k := 0 to |roots|
      invariant seen == Ids(result) && Ids(roots[..k]) <= seen
      invariant Frontier(allrows, Ids(roots), seen, [])
      invariant UniqueChildren(allrows) ==> Distinct(result)
    {
      var r := roots[k];
      assert roots[..k + 1] == roots[..k] + [r];
      if r in seen { continue; }
      ReachesRoot(allrows, Ids(roots), r);
      if UniqueChildren(allrows) {
        DistinctAppend(result, [r]);
      }
      seen, result := seen + {r}, result + [r];
      seen, result := Descend(allrows, Ids(roots), r, seen, result);
    }
    assert roots[..|roots|] == roots;
    ClosedIsClosure(allrows, Ids(roots), seen);
  }

  /** The inner loop: everything below one root that is not seen yet. */
  method Descend(allrows: Edges, ghost roots: set<Id>, r: Id, seen0: set<Id>, result0: seq<Id>)
    returns (seen: set<Id>, result: seq<Id>)
    requires seen0 == Ids(result0) && Frontier(allrows, roots, seen0, [r])
    requires UniqueChildren(allrows) ==> Distinct(result0)
    ensures seen == Ids(result) && seen0 <= seen && Frontier(allrows, roots, seen, [])
    ensures UniqueChildren(allrows) ==> Distinct(result)
  {
    seen, result := seen0, result0;
    var frontier := [r];
    while frontier != []
      invariant seen == Ids(result) && seen0 <= seen && Frontier(allrows, roots, seen, frontier)
      invariant UniqueChildren(allrows) ==> Distinct(result)
      decreases ChildIds(allrows) - seen, |frontier|
    {
      var nxt := Next(allrows, frontier, seen);
      NextMeaning(allrows, frontier, seen);
      FrontierStep(allrows, roots, seen, frontier, nxt);
      if UniqueChildren(allrows) {
        NextDistinct(allrows, frontier, seen);
        DistinctAppend(result, nxt);
      }
      seen := seen + Ids(nxt);
      result := result + nxt;
      frontier := nxt;
    }
  }

  /** `SELECT DISTINCT employee_id … WHERE manager_id IN (frontier)`. */
  function FoundUnder(rows: Edges, frontier: seq<Id>): seq<Id> {
    if rows == [] then []
    else
      var rest := FoundUnder(rows[1..], frontier);
      if rows[0].parent.Some? && rows[0].parent.value in frontier && rows[0].child !in rest then [rows[0].child] + rest else rest
  }

  function NotIn(xs: seq<Id>, s: set<Id>): seq<Id> {
    if xs == [] then [] else if xs[0] in s then NotIn(xs[1..], s) else [xs[0]] + NotIn(xs[1..], s)
  }

  lemma {:induction false} FoundMeaning(rows: Edges, frontier: seq<Id>)
    ensures forall x :: x in FoundUnder(rows, frontier) <==> exists p :: p in frontier && Below(rows, x, p)
  {
    if rows != [] {
      FoundMeaning(rows[1..], frontier);
      forall x
        ensures x in FoundUnder(rows, frontier) <==> exists p :: p in frontier && Below(rows, x, p)
      {
        if p :| p in frontier && Below(rows, x, p) {
          assert Edge(x, Some(p)) == rows[0] || Below(rows[1..], x, p);
        }
        if p :| p in frontier && Below(rows[1..], x, p) {
          assert Below(rows, x, p);
        }
        if rows[0].parent.Some? {
          assert Below(rows, rows[0].child, rows[0].parent.value);
        }
      }
    }
  }

  lemma {:induction false} NotInMeaning(xs: seq<Id>, s: set<Id>)
    ensures forall x :: x in NotIn(xs, s) <==> x in xs && x !in s
  {
    if xs != [] {
      NotInMeaning(xs[1..], s);
      assert forall x :: x in xs <==> x == xs[0] || x in xs[1..];
    }
  }

  /** `subordinates`: the employee and everybody below, at any depth. */
  method Subordinates(managed: Edges, eid: Id) returns (result: set<Id>)
    ensures forall x :: x in result <==> Reaches(managed, {eid}, x)
  {
    result := {eid};
    var frontier := [eid];
    ReachesRoot(managed, {eid}, eid);
    while frontier != []
      invariant eid in result && Frontier(managed, {eid}, result, frontier)
      decreases ChildIds(managed) - result, |frontier|
    {
      var found := FoundUnder(managed, frontier);
      var next := NotIn(found, result);
      FoundMeaning(managed, frontier);
      NotInMeaning(found, result);
      FrontierStep(managed, {eid}, result, frontier, next);
      frontier := next;
      result := result + Ids(frontier);
    }
    ClosedIsClosure(managed, {eid}, result);
  }
}
