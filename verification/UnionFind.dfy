/** The union-find behind the cartesian check, and the equivalence it computes. */
module UnionFind {

  // ---------------------------------------------------------------- the closure of a list of pairs

  type Edges = seq<(string, string)>

  ghost predicate Edge(edges: Edges, a: string, b: string) {
    (a, b) in edges || (b, a) in edges
  }

  ghost predicate Step(p: seq<string>, edges: Edges, i: nat)
    requires i + 1 < |p|
  {
    Edge(edges, p[i], p[i + 1])
  }

  ghost predicate IsPath(p: seq<string>, edges: Edges, x: string, y: string) {
    && p != []
    && p[0] == x
    && p[|p| - 1] == y
    && forall i {:trigger Step(p, edges, i)} :: 0 <= i < |p| - 1 ==> Step(p, edges, i)
  }

  lemma {:induction false} Cons(edges: Edges, p: seq<string>, x: string, y: string)
    requires IsPath(p, edges, x, y) && |p| > 1
    ensures Edge(edges, x, p[1]) && IsPath(p[1..], edges, p[1], y)
  {
    assert Step(p, edges, 0);
    forall i {:trigger Step(p[1..], edges, i)} | 0 <= i < |p[1..]| - 1
      ensures Step(p[1..], edges, i)
    {
      assert Step(p, edges, i + 1);
    }
  }

  /** The reflexive, symmetric and transitive closure of `edges`. */
  ghost predicate Linked(edges: Edges, x: string, y: string) {
    exists p :: IsPath(p, edges, x, y)
  }

  lemma {:induction false} LinkedRefl(edges: Edges, x: string)
    ensures Linked(edges, x, x)
  {
    assert IsPath([x], edges, x, x);
  }

  lemma {:induction false} LinkedEdge(edges: Edges, x: string, y: string)
    requires Edge(edges, x, y)
    ensures Linked(edges, x, y)
  {
    assert Step([x, y], edges, 0);
    assert IsPath([x, y], edges, x, y);
  }

  lemma {:induction false} LinkedTrans(edges: Edges, x: string, y: string, z: string)
    requires Linked(edges, x, y) && Linked(edges, y, z)
    ensures Linked(edges, x, z)
  {
    var p :| IsPath(p, edges, x, y);
    var q :| IsPath(q, edges, y, z);
    var r := p + q[1..];
    forall i {:trigger Step(r, edges, i)} | 0 <= i < |r| - 1
      ensures Step(r, edges, i)
    {
      if i < |p| - 1 {
        assert Step(p, edges, i);
      } else {
        assert Step(q, edges, i - (|p| - 1));
      }
    }
    assert IsPath(r, edges, x, z);
  }

  lemma {:induction false} LinkedSym(edges: Edges, x: string, y: string)
    requires Linked(edges, x, y)
    ensures Linked(edges, y, x)
  {
    var p :| IsPath(p, edges, x, y);
    SymPath(edges, p, x, y);
  }

  lemma {:induction false} SymPath(edges: Edges, p: seq<string>, x: string, y: string)
    requires IsPath(p, edges, x, y)
    ensures Linked(edges, y, x)
    decreases |p|
  {
    if |p| == 1 {
      LinkedRefl(edges, x);
    } else {
      Cons(edges, p, x, y);
      SymPath(edges, p[1..], p[1], y);
      LinkedEdge(edges, p[1], x);
      LinkedTrans(edges, y, p[1], x);
    }
  }

  /** `Linked` is the least equivalence that contains the edges. */
  lemma {:induction false} LinkedIsLeast(edges: Edges, related: (string, string) -> bool, p: seq<string>, x: string,
        y: string)
    requires IsPath(p, edges, x, y)
    requires forall a :: related(a, a)
    requires forall a, b :: related(a, b) ==> related(b, a)
    requires forall a, b, c :: related(a, b) && related(b, c) ==> related(a, c)
    requires forall a, b :: (a, b) in edges ==> related(a, b)
    ensures related(x, y)
    decreases |p|
  {
    if |p| > 1 {
      Cons(edges, p, x, y);
      LinkedIsLeast(edges, related, p[1..], p[1], y);
    }
  }

  /** What one more edge links. */
  ghost predicate LinkedVia(edges: Edges, a: string, b: string, x: string, y: string) {
    || Linked(edges, x, y)
    || (Linked(edges, x, a) && Linked(edges, b, y))
    || (Linked(edges, x, b) && Linked(edges, a, y))
  }

  lemma {:induction false} LinkedMonotone(edges: Edges, more: Edges, x: string, y: string)
    requires Linked(edges, x, y)
    ensures Linked(edges + more, x, y)
  {
    var p :| IsPath(p, edges, x, y);
    forall i {:trigger Step(p, edges + more, i)} | 0 <= i < |p| - 1
      ensures Step(p, edges + more, i)
    {
      assert Step(p, edges, i);
    }
    assert IsPath(p, edges + more, x, y);
  }

  lemma {:induction false} PathVia(edges: Edges, a: string, b: string, p: seq<string>, x: string, y: string)
    requires IsPath(p, edges + [(a, b)], x, y)
    ensures LinkedVia(edges, a, b, x, y)
    decreases |p|
  {
    if |p| == 1 {
      LinkedRefl(edges, x);
    } else {
      var z := p[1];
      Cons(edges + [(a, b)], p, x, y);
      PathVia(edges, a, b, p[1..], z, y);
      LinkedRefl(edges, a);
      LinkedRefl(edges, b);
      if Edge(edges, x, z) {
        LinkedEdge(edges, x, z);
        PrependLink(edges, a, b, x, z, y);
      } else if x == a && z == b {
        if Linked(edges, b, a) && Linked(edges, b, y) {
        } else if Linked(edges, b, b) && Linked(edges, a, y) {
        }
      } else {
        assert x == b && z == a;
      }
    }
  }

  lemma {:induction false} PrependLink(edges: Edges, a: string, b: string, x: string, z: string, y: string)
    requires Linked(edges, x, z) && LinkedVia(edges, a, b, z, y)
    ensures LinkedVia(edges, a, b, x, y)
  {
    if Linked(edges, z, y) {
      LinkedTrans(edges, x, z, y);
    } else if Linked(edges, z, a) && Linked(edges, b, y) {
      LinkedTrans(edges, x, z, a);
    } else {
      LinkedTrans(edges, x, z, b);
    }
  }

  lemma {:induction false} LinkedExtend(edges: Edges, a: string, b: string, x: string, y: string)
    ensures Linked(edges + [(a, b)], x, y) <==> LinkedVia(edges, a, b, x, y)
  {
    var all := edges + [(a, b)];
    if Linked(all, x, y) {
      var p :| IsPath(p, all, x, y);
      PathVia(edges, a, b, p, x, y);
    }
    if LinkedVia(edges, a, b, x, y) {
      LinkedEdge(all, a, b);
      LinkedEdge(all, b, a);
      if Linked(edges, x, y) {
        LinkedMonotone(edges, [(a, b)], x, y);
      } else if Linked(edges, x, a) && Linked(edges, b, y) {
        LinkedMonotone(edges, [(a, b)], x, a);
        LinkedMonotone(edges, [(a, b)], b, y);
        LinkedTrans(all, x, a, b);
        LinkedTrans(all, x, b, y);
      } else {
        LinkedMonotone(edges, [(a, b)], x, b);
        LinkedMonotone(edges, [(a, b)], a, y);
        LinkedTrans(all, x, b, a);
        LinkedTrans(all, x, a, y);
      }
    }
  }

  /** A node no edge mentions is linked to itself only. */
  lemma {:induction false} LinkedEnds(edges: Edges, x: string, y: string)
    requires Linked(edges, x, y) && x != y
    ensures exists e :: e in edges && (e.0 == x || e.1 == x)
    ensures exists e :: e in edges && (e.0 == y || e.1 == y)
  {
    var p :| IsPath(p, edges, x, y);
    assert Step(p, edges, 0) && Step(p, edges, |p| - 2);
  }

  // ---------------------------------------------------------------- classes

  ghost function ClassOf(edges: Edges, labels: set<string>, x: string): set<string> {
    set y | y in labels && Linked(edges, x, y)
  }

  /** The classes that meet `labels`, each cut down to `labels`. */
  ghost function Classes(edges: Edges, labels: set<string>): set<set<string>> {
    set x | x in labels :: ClassOf(edges, labels, x)
  }

  lemma {:induction false} SameClass(edges: Edges, labels: set<string>, x: string, y: string)
    requires x in labels && y in labels
    ensures ClassOf(edges, labels, x) == ClassOf(edges, labels, y) <==> Linked(edges, x, y)
  {
    LinkedRefl(edges, y);
    if Linked(edges, x, y) {
      LinkedSym(edges, x, y);
      forall z | z in labels
        ensures Linked(edges, x, z) <==> Linked(edges, y, z)
      {
        if Linked(edges, x, z) {
          LinkedTrans(edges, y, x, z);
        }
        if Linked(edges, y, z) {
          LinkedTrans(edges, x, y, z);
        }
      }
    } else {
      assert y in ClassOf(edges, labels, y) && y !in ClassOf(edges, labels, x);
    }
  }

  /** One component means: any two labels are linked. */
  lemma {:induction false} OneComponent(edges: Edges, labels: set<string>)
    ensures |Classes(edges, labels)| <= 1 <==> forall x, y :: x in labels && y in labels ==> Linked(edges, x, y)
  {
    var cs := Classes(edges, labels);
    if |cs| <= 1 {
      forall x, y | x in labels && y in labels
        ensures Linked(edges, x, y)
      {
        assert ClassOf(edges, labels, x) in cs && ClassOf(edges, labels, y) in cs;
        AtMostOne(cs, ClassOf(edges, labels, x), ClassOf(edges, labels, y));
        SameClass(edges, labels, x, y);
      }
    }
    if forall x, y :: x in labels && y in labels ==> Linked(edges, x, y) {
      if labels != {} {
        var x :| x in labels;
        forall y | y in labels
          ensures ClassOf(edges, labels, y) == ClassOf(edges, labels, x)
        {
          SameClass(edges, labels, y, x);
        }
        assert cs == {ClassOf(edges, labels, x)};
      }
    }
  }

  lemma {:induction false} AtMostOne<T>(s: set<T>, a: T, b: T)
    requires |s| <= 1 && a in s && b in s
    ensures a == b
  {
    if a != b {
      assert {a, b} <= s;
      assert |{a, b}| <= |s| by {
        assert s == {a, b} + (s - {a, b});
      }
    }
  }

  // ---------------------------------------------------------------- the structure

  type Links = map<string, string>

  /** The parent link of `x` climbs in rank towards the representative of `x`. */
  ghost predicate Climbs(parent: Links, rep: Links, rank: map<string, nat>, x: string) {
    && x in parent && x in rep && x in rank
    && parent[x] in parent && parent[x] in rep && parent[x] in rank
    && rep[x] in parent && rep[x] in rank
    && rep[parent[x]] == rep[x]
    && parent[rep[x]] == rep[x]
    && rank[x] <= rank[rep[x]]
    && (if parent[x] == x then rep[x] == x else rank[x] < rank[parent[x]])
  }

  /** The parent links form a forest whose roots are the representatives. */
  ghost predicate Forest(parent: Links, rep: Links, rank: map<string, nat>) {
    && rep.Keys == parent.Keys == rank.Keys
    && forall x {:trigger Climbs(parent, rep, rank, x)} :: x in parent ==> Climbs(parent, rep, rank, x)
  }

  ghost predicate Known(rep: Links, e: (string, string)) {
    e.0 in rep && e.1 in rep
  }

  /** Two nodes have one representative exactly when the unions made link them. */
  ghost predicate Represents(rep: Links, made: Edges) {
    && (forall e {:trigger Known(rep, e)} :: e in made ==> Known(rep, e))
    && forall x, y {:trigger Linked(made, x, y)} :: x in rep && y in rep ==> (rep[x] == rep[y] <==> Linked(made, x, y))
  }

  /** Adding an isolated node keeps the forest. */
  lemma {:induction false} AddClimbs(parent: Links, rep: Links, rank: map<string, nat>, x: string)
    requires Forest(parent, rep, rank) && x !in parent
    ensures Forest(parent[x := x], rep[x := x], rank[x := 0])
    ensures forall y :: y in rep ==> rep[y] != x
  {
    var p := parent[x := x];
    forall y {:trigger Climbs(p, rep[x := x], rank[x := 0], y)} | y in p
      ensures Climbs(p, rep[x := x], rank[x := 0], y)
    {
      if y != x {
        assert Climbs(parent, rep, rank, y);
      }
    }
    forall y | y in rep
      ensures rep[y] != x
    {
      assert Climbs(parent, rep, rank, y);
    }
  }

  /** A node no union mentions is a class of its own. */
  lemma {:induction false} AddRepresents(rep: Links, made: Edges, x: string)
    requires Represents(rep, made) && x !in rep && forall y :: y in rep ==> rep[y] != x
    ensures Represents(rep[x := x], made)
  {
    var r := rep[x := x];
    LinkedRefl(made, x);
    forall e {:trigger Known(r, e)} | e in made
      ensures Known(r, e)
    {
      assert Known(rep, e);
    }
    forall u, v {:trigger Linked(made, u, v)} | u in r && v in r
      ensures r[u] == r[v] <==> Linked(made, u, v)
    {
      if u != v && Linked(made, u, v) {
        LinkedEnds(made, u, v);
        var e :| e in made && (e.0 == u || e.1 == u);
        var f :| f in made && (f.0 == v || f.1 == v);
        assert Known(rep, e) && Known(rep, f);
      }
    }
  }

  /** Path compression: pointing a node straight at its root keeps the forest. */
  lemma {:induction false} Compress(parent: Links, rep: Links, rank: map<string, nat>, x: string)
    requires Forest(parent, rep, rank) && x in parent && parent[x] != rep[x]
    ensures Forest(parent[x := rep[x]], rep, rank)
    ensures rep[x] in rank && parent[x] in rank && x in rank && rank[x] < rank[parent[x]] <= rank[rep[x]]
    ensures rep[parent[x]] == rep[x]
  {
    assert Climbs(parent, rep, rank, x);
    assert Climbs(parent, rep, rank, parent[x]);
    var p := parent[x := rep[x]];
    assert parent[x] != x;
    forall y {:trigger Climbs(p, rep, rank, y)} | y in p
      ensures Climbs(p, rep, rank, y)
    {
      assert Climbs(parent, rep, rank, y);
      assert Climbs(parent, rep, rank, rep[y]);
      assert rep[y] != x;
    }
  }

  /** The representatives and ranks after hanging root `ra` under root `rb`. */
  ghost function HungRep(rep: Links, ra: string, rb: string): Links {
    map x | x in rep :: if rep[x] == ra then rb else rep[x]
  }

  ghost function HungRank(rep: Links, rank: map<string, nat>, ra: string, rb: string): map<string, nat>
    requires ra in rank
  {
    map x | x in rank :: if ra != rb && x in rep && rep[x] == rb then rank[x] + rank[ra] + 1 else rank[x]
  }

  lemma {:induction false} HangClimbs(parent: Links, rep: Links, rank: map<string, nat>, ra: string, rb: string,
        x: string)
    requires Climbs(parent, rep, rank, ra) && parent[ra] == ra && Climbs(parent, rep, rank, rb) && parent[rb] == rb
    requires Climbs(parent, rep, rank, x) && Climbs(parent, rep, rank, rep[x]) && Climbs(parent, rep, rank, parent[x])
    ensures Climbs(parent[ra := rb], HungRep(rep, ra, rb), HungRank(rep, rank, ra, rb), x)
  {
  }

  lemma {:induction false} HangForest(parent: Links, rep: Links, rank: map<string, nat>, ra: string, rb: string)
    requires Forest(parent, rep, rank) && ra in parent && rb in parent && parent[ra] == ra && parent[rb] == rb
    ensures ra in rank && Forest(parent[ra := rb], HungRep(rep, ra, rb), HungRank(rep, rank, ra, rb))
  {
    assert Climbs(parent, rep, rank, ra) && Climbs(parent, rep, rank, rb);
    forall x {:trigger Climbs(parent[ra := rb], HungRep(rep, ra, rb), HungRank(rep, rank, ra, rb),
        x)} | x in parent[ra := rb]
      ensures Climbs(parent[ra := rb], HungRep(rep, ra, rb), HungRank(rep, rank, ra, rb), x)
    {
      assert Climbs(parent, rep, rank, x);
      assert Climbs(parent, rep, rank, rep[x]);
      assert Climbs(parent, rep, rank, parent[x]);
      HangClimbs(parent, rep, rank, ra, rb, x);
    }
  }

  /** Merging two trees merges exactly the classes the new edge links. */
  lemma {:induction false} HangRepresents(rep: Links, made: Edges, a: string, b: string)
    requires Represents(rep, made) && a in rep && b in rep
    ensures Represents(HungRep(rep, rep[a], rep[b]), made + [(a, b)])
  {
    var r, all := HungRep(rep, rep[a], rep[b]), made + [(a, b)];
    forall e {:trigger Known(r, e)} | e in all
      ensures Known(r, e)
    {
      if e in made {
        assert Known(rep, e);
      }
    }
    forall x, y {:trigger Linked(all, x, y)} | x in r && y in r
      ensures r[x] == r[y] <==> Linked(all, x, y)
    {
      LinkedExtend(made, a, b, x, y);
      assert Linked(made, x, a) <==> rep[x] == rep[a];
      assert Linked(made, b, y) <==> rep[y] == rep[b];
      assert Linked(made, x, b) <==> rep[x] == rep[b];
      assert Linked(made, a, y) <==> rep[y] == rep[a];
    }
  }

  lemma {:induction false} Hang(parent: Links, rep: Links, rank: map<string, nat>, made: Edges, a: string, b: string)
    returns (rep': Links, rank': map<string, nat>)
    requires Forest(parent, rep, rank) && Represents(rep, made) && a in rep && b in rep
    ensures Forest(parent[rep[a] := rep[b]], rep', rank')
    ensures Represents(rep', made + [(a, b)])
    ensures rep[a] in parent
  {
    assert Climbs(parent, rep, rank, a) && Climbs(parent, rep, rank, b);
    HangForest(parent, rep, rank, rep[a], rep[b]);
    HangRepresents(rep, made, a, b);
    rep', rank' := HungRep(rep, rep[a], rep[b]), HungRank(rep, rank, rep[a], rep[b]);
  }

  /** Union-find over labels; `made` logs the unions, `rep` and `rank` witness the forest. */
  class Dsu {
    var parent: Links
    ghost var rep: Links
    ghost var rank: map<string, nat>
    ghost var made: Edges

    /** The trees of the forest are exactly the classes of the unions made. */
    ghost predicate Valid()
      reads this
    {
      Forest(parent, rep, rank) && Represents(rep, made)
    }

    constructor ()
      ensures Valid() && parent == map[] && made == []
    {
      parent := map[];
      rep, rank, made := map[], map[], [];
    }

    method Add(x: string)
      requires Valid()
      modifies this
      ensures Valid() && made == old(made)
      ensures parent == if x in old(parent) then old(parent) else old(parent)[x := x]
      ensures rep == if x in old(parent) then old(rep) else old(rep)[x := x]
    {
      if x !in parent {
        AddClimbs(parent, rep, rank, x);
        AddRepresents(rep, made, x);
        parent := parent[x := x];
        rep, rank := rep[x := x], rank[x := 0];
      }
    }

    /** The root of `x`, with path compression; no class changes. */
    method Find(x: string) returns (root: string)
      requires Valid()
      modifies this
      ensures Valid() && made == old(made)
      ensures parent.Keys == old(parent).Keys + {x}
      ensures rep == if x in old(parent) then old(rep) else old(rep)[x := x]
      ensures x in rep && root == rep[x] && root in parent && parent[root] == root && Linked(made, x, root)
    {
      Add(x);
      ghost var keys, reps := parent.Keys, rep;
      assert Climbs(parent, rep, rank, x);
      root := x;
      while parent[root] != root
        invariant root in parent && root in rank && rep[root] == rep[x]
        invariant rep[x] in rank && rank[root] <= rank[rep[x]]
        decreases rank[rep[x]] - rank[root]
      {
        assert Climbs(parent, rep, rank, root);
        assert Climbs(parent, rep, rank, parent[root]);
        root := parent[root];
      }
      assert Climbs(parent, rep, rank, root);
      var cur := x;
      while parent[cur] != root
        invariant Valid() && made == old(made) && parent.Keys == keys && rep == reps
        invariant cur in parent && cur in rank && rep[cur] == root
        invariant root in parent && root in rank && parent[root] == root && rank[cur] <= rank[root]
        decreases rank[root] - rank[cur]
      {
        Compress(parent, rep, rank, cur);
        var next := parent[cur];
        parent := parent[cur := root];
        cur := next;
      }
      LinkedRefl(made, root);
      assert Climbs(parent, rep, rank, x) && Climbs(parent, rep, rank, root);
    }

    method Union(a: string, b: string)
      requires Valid()
      modifies this
      ensures Valid() && made == old(made) + [(a, b)]
      ensures parent.Keys == old(parent).Keys + {a, b}
    {
      var rb := Find(b);
      assert b in parent && b in rep && rb == rep[b];
      var ra := Find(a);
      assert b in rep && rb == rep[b];
      Attach(ra, rb, a, b);
    }

    /** The assignment in `Union`: root `ra` of `a` gets the parent `rb`, the root of `b`. */
    method Attach(ra: string, rb: string, ghost a: string, ghost b: string)
      requires Valid() && a in rep && b in rep && ra == rep[a] && rb == rep[b]
      modifies this
      ensures Valid() && made == old(made) + [(a, b)]
      ensures parent.Keys == old(parent).Keys
    {
      ghost var rep', rank' := Hang(parent, rep, rank, made, a, b);
      parent := parent[ra := rb];
      rep, rank, made := rep', rank', made + [(a, b)];
    }

    /** The number of classes that meet `labels`. */
    method Components(labels: set<string>) returns (n: nat)
      requires Valid()
      modifies this
      ensures Valid() && made == old(made)
      ensures n == |Classes(made, labels)|
    {
      var todo := labels;
      var roots: set<string> := {};
      ghost var done: set<string> := {};
      while todo != {}
        invariant Valid() && made == old(made)
        invariant todo <= labels && done == labels - todo && done <= rep.Keys
        invariant roots == Images(done, rep)
        decreases todo
      {
        var x :| x in todo;
        ghost var before := rep;
        var r := Find(x);
        ImagesGrow(done, before, rep, x);
        todo := todo - {x};
        done := done + {x};
        roots := roots + {r};
      }
      assert done == labels;
      CountClasses(labels, rep, made);
      n := |roots|;
    }
  }

  ghost function Images(s: set<string>, f: Links): set<string>
    requires s <= f.Keys
  {
    set x | x in s :: f[x]
  }

  lemma {:induction false} ImagesGrow(s: set<string>, f: Links, g: Links, x: string)
    requires s <= f.Keys && s <= g.Keys && x in g && forall y :: y in s ==> g[y] == f[y]
    ensures Images(s + {x}, g) == Images(s, f) + {g[x]}
  {
    forall r | r in Images(s, f)
      ensures r in Images(s + {x}, g)
    {
      var y :| y in s && f[y] == r;
      assert y in s + {x} && g[y] == r;
    }
    assert x in s + {x};
  }

  ghost function ClassesOver(edges: Edges, labels: set<string>, s: set<string>): set<set<string>> {
    set x | x in s :: ClassOf(edges, labels, x)
  }

  lemma {:induction false} ClassesGrow(edges: Edges, labels: set<string>, s: set<string>, x: string)
    ensures ClassesOver(edges, labels, s + {x}) == ClassesOver(edges, labels, s) + {ClassOf(edges, labels, x)}
  {
    assert x in s + {x};
  }

  /** A representative is shared with `s` exactly when the class is. */
  lemma {:induction false} SharedAlike(s: set<string>, rep: Links, edges: Edges, labels: set<string>, x: string)
    requires s <= labels <= rep.Keys && Represents(rep, edges) && x in labels
    ensures rep[x] in Images(s, rep) <==> ClassOf(edges, labels, x) in ClassesOver(edges, labels, s)
  {
    forall y | y in s
      ensures rep[x] == rep[y] <==> ClassOf(edges, labels, x) == ClassOf(edges, labels, y)
    {
      SameClass(edges, labels, x, y);
    }
  }

  /** Representatives and classes are equally many, over any part of the labels. */
  lemma {:induction false} SameFibres(s: set<string>, rep: Links, edges: Edges, labels: set<string>)
    requires s <= labels <= rep.Keys && Represents(rep, edges)
    ensures |Images(s, rep)| == |ClassesOver(edges, labels, s)|
    decreases s
  {
    if s != {} {
      var x :| x in s;
      var rest := s - {x};
      assert rest + {x} == s;
      SameFibres(rest, rep, edges, labels);
      ImagesGrow(rest, rep, rep, x);
      ClassesGrow(edges, labels, rest, x);
      SharedAlike(rest, rep, edges, labels, x);
    }
  }

  lemma {:induction false} CountClasses(labels: set<string>, rep: Links, edges: Edges)
    requires labels <= rep.Keys && Represents(rep, edges)
    ensures |Images(labels, rep)| == |Classes(edges, labels)|
  {
    SameFibres(labels, rep, edges, labels);
    assert (set x | x in labels :: ClassOf(edges, labels, x)) == Classes(edges, labels);
  }
}
