/**
 * The order of specializations and the dependencies between them
 * (packages/agents/src/operaia-ceo/delegation-engine.ts, ceo-strategic-plan.ts, ceo-specialization-resolver.ts).
 */
module Specializations {
  import opened Texts

  datatype Specialization =
    | MANAGEMENT | SOFTWARE_ENGINEERING | PRODUCT_DESIGN | PRODUCT_MANAGEMENT | AUTOMATION | FINANCE | LEGAL
    | MARKETING | OPERATIONS | UX_DESIGN | PRODUCT

  const SPEC_ORDER: seq<Specialization> :=
    [SOFTWARE_ENGINEERING, PRODUCT_DESIGN, PRODUCT_MANAGEMENT, AUTOMATION, LEGAL, MARKETING, FINANCE, OPERATIONS]

  const LAUNCH_ORDER: seq<Specialization> :=
    [SOFTWARE_ENGINEERING, PRODUCT_DESIGN, PRODUCT_MANAGEMENT, LEGAL, MARKETING, FINANCE, OPERATIONS]

  /** `indexOf`: -1 when absent. */
  function IndexOf(order: seq<Specialization>, s: Specialization): int {
    if order == [] then -1
    else if order[0] == s then 0
    else if IndexOf(order[1..], s) == -1 then -1
    else IndexOf(order[1..], s) + 1
  }

  /** The rank of a file recommendation, and that of a plan, where what is not in the launch list comes last. */
  function FileRank(s: Specialization): int {
    IndexOf(SPEC_ORDER, s)
  }

  function PlanRank(s: Specialization): int {
    if IndexOf(LAUNCH_ORDER, s) == -1 then 99 else IndexOf(LAUNCH_ORDER, s)
  }

  function Ranked(): set<Specialization> {
    {SOFTWARE_ENGINEERING, PRODUCT_DESIGN, PRODUCT_MANAGEMENT, AUTOMATION, LEGAL, MARKETING, FINANCE, OPERATIONS}
  }

  lemma FirstRanks()
    ensures FileRank(SOFTWARE_ENGINEERING) == 0 && FileRank(PRODUCT_DESIGN) == 1 && FileRank(PRODUCT_MANAGEMENT) == 2
    ensures FileRank(AUTOMATION) == 3
  {
  }

  lemma LastRanks()
    ensures FileRank(LEGAL) == 4 && FileRank(MARKETING) == 5
    ensures FileRank(FINANCE) == 6 && FileRank(OPERATIONS) == 7
  {
  }

  lemma Ranks()
    ensures FileRank(SOFTWARE_ENGINEERING) == 0 && FileRank(PRODUCT_DESIGN) == 1 && FileRank(PRODUCT_MANAGEMENT) == 2
    ensures FileRank(AUTOMATION) == 3 && FileRank(LEGAL) == 4 && FileRank(MARKETING) == 5
    ensures FileRank(FINANCE) == 6 && FileRank(OPERATIONS) == 7
  {
    hide FileRank;
    FirstRanks();
    LastRanks();
  }

  lemma FirstPlanRanks()
    ensures PlanRank(SOFTWARE_ENGINEERING) == 0 && PlanRank(PRODUCT_DESIGN) == 1 && PlanRank(PRODUCT_MANAGEMENT) == 2
  {
  }

  lemma LastPlanRanks()
    ensures PlanRank(LEGAL) == 3 && PlanRank(MARKETING) == 4 && PlanRank(FINANCE) == 5 && PlanRank(OPERATIONS) == 6
    ensures PlanRank(AUTOMATION) == 99
  {
  }

  lemma PlanRanks()
    ensures PlanRank(SOFTWARE_ENGINEERING) == 0 && PlanRank(PRODUCT_DESIGN) == 1 && PlanRank(PRODUCT_MANAGEMENT) == 2
    ensures PlanRank(LEGAL) == 3 && PlanRank(MARKETING) == 4 && PlanRank(FINANCE) == 5 && PlanRank(OPERATIONS) == 6
    ensures PlanRank(AUTOMATION) == 99
  {
    hide PlanRank;
    FirstPlanRanks();
    LastPlanRanks();
  }

  // ------------------------------------------------------------ stable sort

  /** `sort` with a comparator that subtracts ranks: stable, ascending. */
  function SortBy<T>(rank: T -> int, items: seq<T>): seq<T> {
    if items == [] then [] else Insert(rank, items[0], SortBy(rank, items[1..]))
  }

  function Insert<T>(rank: T -> int, x: T, sorted: seq<T>): seq<T> {
    if sorted == [] || rank(x) <= rank(sorted[0]) then [x] + sorted else [sorted[0]] + Insert(rank, x, sorted[1..])
  }

  predicate Ascending<T>(rank: T -> int, items: seq<T>) {
    forall i, j | 0 <= i < j < |items| :: rank(items[i]) <= rank(items[j])
  }

  lemma {:induction false} InsertMembers<T(!new)>(rank: T -> int, x: T, sorted: seq<T>)
    ensures multiset(Insert(rank, x, sorted)) == multiset(sorted) + multiset{x}
    ensures forall y :: y in Insert(rank, x, sorted) <==> y == x || y in sorted
  {
    if sorted != [] && rank(x) > rank(sorted[0]) {
      InsertMembers(rank, x, sorted[1..]);
      assert sorted == [sorted[0]] + sorted[1..];
    }
  }

  lemma {:induction false} InsertSorted<T(!new)>(rank: T -> int, x: T, sorted: seq<T>)
    requires Ascending(rank, sorted)
    ensures Ascending(rank, Insert(rank, x, sorted))
  {
    if sorted != [] && rank(x) > rank(sorted[0]) {
      InsertSorted(rank, x, sorted[1..]);
      InsertMembers(rank, x, sorted[1..]);
      var rest := Insert(rank, x, sorted[1..]);
      forall i | 0 <= i < |rest| ensures rank(sorted[0]) <= rank(rest[i]) {
        var y := rest[i];
        assert y in rest;
      }
    }
  }

  /** Sorting gives ascending ranks and keeps every member as often as it was there. */
  lemma {:induction false} SortSorts<T(!new)>(rank: T -> int, items: seq<T>)
    ensures Ascending(rank, SortBy(rank, items)) && multiset(SortBy(rank, items)) == multiset(items)
  {
    if items != [] {
      SortSorts(rank, items[1..]);
      hide Insert;
      InsertSorted(rank, items[0], SortBy(rank, items[1..]));
      InsertMembers(rank, items[0], SortBy(rank, items[1..]));
      assert items == [items[0]] + items[1..];
    }
  }

  predicate StrictlyAscending<T>(rank: T -> int, items: seq<T>) {
    forall i, j | 0 <= i < j < |items| :: rank(items[i]) < rank(items[j])
  }

  predicate RanksDiffer<T>(rank: T -> int, items: seq<T>) {
    forall i, j | 0 <= i < j < |items| :: rank(items[i]) != rank(items[j])
  }

  lemma {:induction false} InsertStrict<T(!new)>(rank: T -> int, x: T, sorted: seq<T>)
    requires StrictlyAscending(rank, sorted) && forall i | 0 <= i < |sorted| :: rank(sorted[i]) != rank(x)
    ensures StrictlyAscending(rank, Insert(rank, x, sorted))
  {
    if sorted != [] && rank(x) > rank(sorted[0]) {
      InsertStrict(rank, x, sorted[1..]);
      InsertMembers(rank, x, sorted[1..]);
      assert sorted == [sorted[0]] + sorted[1..];
      var rest := Insert(rank, x, sorted[1..]);
      forall i | 0 <= i < |rest| ensures rank(sorted[0]) < rank(rest[i]) {
        var y := rest[i];
        assert y in rest;
        assert y == x || y in sorted[1..];
        if y != x {
          var k :| 0 <= k < |sorted[1..]| && sorted[1..][k] == y;
          assert sorted[k + 1] == y;
        }
      }
      assert Insert(rank, x, sorted) == [sorted[0]] + rest;
    }
  }

  /** Sorting members whose ranks differ gives strictly ascending ranks, and the same members. */
  lemma {:induction false} SortStrict<T(!new)>(rank: T -> int, items: seq<T>)
    requires RanksDiffer(rank, items)
    ensures StrictlyAscending(rank, SortBy(rank, items))
    ensures forall y :: y in SortBy(rank, items) <==> y in items
  {
    if items != [] {
      SortStrict(rank, items[1..]);
      var rest := SortBy(rank, items[1..]);
      assert items == [items[0]] + items[1..];
      forall i | 0 <= i < |rest| ensures rank(rest[i]) != rank(items[0]) {
        var y := rest[i];
        assert y in rest;
        assert y in items[1..];
        var k :| 0 <= k < |items[1..]| && items[1..][k] == y;
        assert items[k + 1] == y;
      }
      InsertStrict(rank, items[0], rest);
      InsertMembers(rank, items[0], rest);
    }
  }

  /** The members of one rank, in order. */
  function OfRank<T>(rank: T -> int, items: seq<T>, r: int): seq<T> {
    if items == [] then [] else (if rank(items[0]) == r then [items[0]] else []) + OfRank(rank, items[1..], r)
  }

  lemma OfRankFirst<T>(rank: T -> int, x: T, rest: seq<T>, r: int)
    ensures OfRank(rank, [x] + rest, r) == (if rank(x) == r then [x] else []) + OfRank(rank, rest, r)
  {
    assert ([x] + rest)[1..] == rest;
  }

  /** Members of one rank keep their order. */
  lemma {:induction false} SortStable<T(!new)>(rank: T -> int, items: seq<T>, r: int)
    ensures OfRank(rank, SortBy(rank, items), r) == OfRank(rank, items, r)
  {
    if items != [] {
      hide Insert, OfRank;
      SortStable(rank, items[1..], r);
      InsertStable(rank, items[0], SortBy(rank, items[1..]), r);
      OfRankFirst(rank, items[0], items[1..], r);
      assert items == [items[0]] + items[1..];
    }
  }

  lemma {:induction false} InsertStable<T(!new)>(rank: T -> int, x: T, sorted: seq<T>, r: int)
    ensures OfRank(rank, Insert(rank, x, sorted), r) == (if rank(x) == r then [x] else []) + OfRank(rank, sorted, r)
  {
    hide OfRank;
    OfRankFirst(rank, x, sorted, r);
    if sorted != [] && rank(x) > rank(sorted[0]) {
      var rest := sorted[1..];
      InsertStable(rank, x, rest, r);
      OfRankFirst(rank, sorted[0], Insert(rank, x, rest), r);
      OfRankFirst(rank, sorted[0], rest, r);
      assert sorted == [sorted[0]] + rest;
    }
  }

  // ------------------------------------------------------------ lists with strictly ascending ranks

  lemma SameEmpty(a: seq<Specialization>, b: seq<Specialization>)
    requires forall s :: s in a <==> s in b
    ensures a == [] <==> b == []
  {
    assert a != [] ==> a[0] in a;
    assert b != [] ==> b[0] in b;
  }

  /** A list of distinct members that is ascending for a rank that tells them apart is determined by its members. */
  lemma {:induction false} StrictUnique(rank: Specialization -> int, a: seq<Specialization>, b: seq<Specialization>)
    requires StrictlyAscending(rank, a) && StrictlyAscending(rank, b) && forall s :: s in a <==> s in b
    ensures a == b
  {
    SameEmpty(a, b);
    if a != [] {
      assert a[0] in b && b[0] in a;
      assert a[0] == b[0];
      forall s ensures s in a[1..] <==> s in b[1..] {
        Tail(rank, a, s);
        Tail(rank, b, s);
      }
      StrictUnique(rank, a[1..], b[1..]);
      assert a == [a[0]] + a[1..] && b == [b[0]] + b[1..];
    }
  }

  lemma Tail(rank: Specialization -> int, a: seq<Specialization>, s: Specialization)
    requires a != [] && StrictlyAscending(rank, a)
    ensures s in a[1..] <==> s in a && s != a[0]
  {
    if s in a[1..] {
      var k :| 0 <= k < |a[1..]| && a[1..][k] == s;
      assert a[k + 1] == s;
    }
    if s in a && s != a[0] {
      var k :| 0 <= k < |a| && a[k] == s;
      assert a[1..][k - 1] == s;
    }
  }

  predicate NoRepeats<T(==)>(items: seq<T>) {
    forall i, j | 0 <= i < j < |items| :: items[i] != items[j]
  }

  // ------------------------------------------------------------ dependencies

  datatype Edge = Edge(prior: Specialization, next: Specialization)

  function DefaultEdges(): seq<Edge> {
    [Edge(SOFTWARE_ENGINEERING, PRODUCT_DESIGN), Edge(SOFTWARE_ENGINEERING, AUTOMATION), Edge(SOFTWARE_ENGINEERING, OPERATIONS),
     Edge(PRODUCT_DESIGN, MARKETING), Edge(PRODUCT_MANAGEMENT, MARKETING), Edge(LEGAL, MARKETING)]
  }

  predicate Linked(specs: seq<Specialization>, e: Edge) {
    e.prior in specs && e.next in specs
  }

  /** The default dependencies between those present, each link tried in turn. */
  method InferDefaultEdges(specs: seq<Specialization>) returns (edges: seq<Edge>)
    ensures edges == EdgesAmong(specs)
  {
    var links := DefaultEdges();
    edges := [];
    for i := 0 to |links|
      invariant edges == EdgesFrom(specs, links[..i])
    {
      assert links[..i + 1][..i] == links[..i];
      if links[i].prior in specs && links[i].next in specs {
        edges := edges + [links[i]];
      }
    }
    assert links[..|links|] == links;
  }

  function EdgesFrom(specs: seq<Specialization>, links: seq<Edge>): seq<Edge> {
    if links == [] then []
    else
      var n := |links| - 1;
      EdgesFrom(specs, links[..n]) + if Linked(specs, links[n]) then [links[n]] else []
  }

  function EdgesAmong(specs: seq<Specialization>): seq<Edge> {
    EdgesFrom(specs, DefaultEdges())
  }

  lemma {:induction false} EdgesFromIff(specs: seq<Specialization>, links: seq<Edge>)
    ensures forall e :: e in EdgesFrom(specs, links) <==> e in links && Linked(specs, e)
  {
    if links != [] {
      EdgesFromIff(specs, links[..|links| - 1]);
      assert links == links[..|links| - 1] + [links[|links| - 1]];
    }
  }

  /** A dependency is inferred exactly between two that are present and are one of the six pairs. */
  lemma InferredIff(specs: seq<Specialization>, e: Edge)
    ensures e in EdgesAmong(specs) <==>
              && e.prior in specs && e.next in specs
              && (|| (e.prior == SOFTWARE_ENGINEERING && (e.next == PRODUCT_DESIGN || e.next == AUTOMATION || e.next == OPERATIONS))
                  || (e.next == MARKETING && (e.prior == PRODUCT_DESIGN || e.prior == PRODUCT_MANAGEMENT || e.prior == LEGAL)))
  {
    EdgesFromIff(specs, DefaultEdges());
    hide EdgesFrom;
  }

  /** Every dependency comes from an earlier place of the list. */
  predicate Topological(specs: seq<Specialization>) {
    forall i, j | 0 <= i < |specs| && 0 <= j < |specs| && Edge(specs[i], specs[j]) in EdgesAmong(specs) :: i < j
  }

  /** An order by either rank is a topological order, and stays one under any cut. */
  lemma AscendingIsTopological(rank: Specialization -> int, specs: seq<Specialization>)
    requires StrictlyAscending(rank, specs) && (rank == FileRank || rank == PlanRank)
    ensures Topological(specs)
  {
    Ranks();
    PlanRanks();
    EdgesFromIff(specs, DefaultEdges());
    hide EdgesFrom, FileRank, PlanRank;
    forall i, j | 0 <= i < |specs| && 0 <= j < |specs| && Edge(specs[i], specs[j]) in EdgesAmong(specs) ensures i < j {
      assert Edge(specs[i], specs[j]) in DefaultEdges();
      assert rank(specs[i]) < rank(specs[j]);
    }
  }

  /** Cutting a topologically ordered list keeps, of every kept member, what it depends on. */
  lemma CutKeepsPrerequisites(specs: seq<Specialization>, n: nat, e: Edge)
    requires Topological(specs) && NoRepeats(specs) && n <= |specs|
    requires e in EdgesAmong(specs) && e.next in specs[..n]
    ensures e.prior in specs[..n] && e in EdgesAmong(specs[..n])
  {
    EdgesFromIff(specs, DefaultEdges());
    EdgesFromIff(specs[..n], DefaultEdges());
    hide EdgesFrom;
    var i :| 0 <= i < |specs| && specs[i] == e.prior;
    var j :| 0 <= j < n && specs[..n][j] == e.next;
    assert Edge(specs[i], specs[j]) in EdgesAmong(specs);
    assert specs[..n][i] == e.prior;
  }

  /** `slice(0, max)`: a negative bound counts from the end. */
  function Slice<T>(items: seq<T>, max: int): (r: seq<T>)
    ensures r <= items && |r| == (if max >= |items| then |items| else if max >= 0 then max
                                  else if |items| + max >= 0 then |items| + max else 0)
  {
    if max >= |items| then items
    else if max >= 0 then items[..max]
    else if |items| + max >= 0 then items[..|items| + max]
    else []
  }
}
