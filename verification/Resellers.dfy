/**
 The reseller tree: parent pointers, the closure table built row by row beside them, and the
 contract of every child (src/control_plane/app.py:269-312 and the five creation paths).
 */
module Resellers {
  import opened Options
  import opened Ledger
  import opened Pricing

  datatype ClosureRow = ClosureRow(ancestor: nat, descendant: nat, depth: nat)

  datatype Contract = Contract(parent: nat, price: int, active: bool)

  /** Organizations in creation order, closure rows in insertion order, and at most one contract a child. */
  datatype Tree = Tree(orgs: seq<Organization>, closure: seq<ClosureRow>, contracts: map<nat, Contract>)

  /** MAX_TREE_DEPTH as configured. */
  const MAX_TREE_DEPTH: int

  // ---- queries ----

  /** depth_of: the largest depth among the closure rows of `d`, or zero. */
  function DepthOf(closure: seq<ClosureRow>, d: nat): nat {
    if closure == [] then 0
    else
      var rest, row := DepthOf(closure[..|closure| - 1], d), closure[|closure| - 1];
      if row.descendant == d && row.depth > rest then row.depth else rest
  }

  /** The ancestor in the deepest closure row of `d`, if it has any row. */
  function RootOf(closure: seq<ClosureRow>, d: nat): Option<nat> {
    if closure == [] then None
    else
      var early, row := closure[..|closure| - 1], closure[|closure| - 1];
      var rest := RootOf(early, d);
      if row.descendant == d && (rest == None || row.depth > DepthOf(early, d)) then Some(row.ancestor) else rest
  }

  /** effective_depth_limit */
  function DepthLimit(t: Tree, parent: nat): int
    requires parent < |t.orgs|
  {
    var root := match RootOf(t.closure, parent) case Some(r) => (if r < |t.orgs| then r else parent) case None => parent;
    if t.orgs[root].maxDepth < MAX_TREE_DEPTH then t.orgs[root].maxDepth else MAX_TREE_DEPTH
  }

  /** assert_depth_allowed */
  predicate DepthAllowed(t: Tree, parent: nat)
    requires parent < |t.orgs|
  {
    DepthOf(t.closure, parent) + 1 <= DepthLimit(t, parent)
  }

  datatype ChainError = HierarchyCycle | ContractMissing

  datatype Chain = Chain(edges: seq<Edge>) | Broken(error: ChainError)

  function Below(n: nat): (r: set<nat>)
    ensures forall i :: i in r <==> 0 <= i < n
  {
    if n == 0 then {} else Below(n - 1) + {n - 1}
  }

  /** edges: the walk from `cur` along the parent pointers, `seen` being what it has passed. */
  function EdgesFrom(t: Tree, cur: nat, seen: set<nat>): Chain
    decreases Below(|t.orgs|) - seen
  {
    if cur >= |t.orgs| || t.orgs[cur].parent == None then Chain([])
    else if cur in seen then Broken(HierarchyCycle)
    else if cur !in t.contracts || !t.contracts[cur].active then Broken(ContractMissing)
    else
      assert cur in Below(|t.orgs|) - seen;
      var parent := t.orgs[cur].parent.value;
      match EdgesFrom(t, parent, seen + {cur})
      case Broken(e) => Broken(e)
      case Chain(rest) => Chain([Edge(cur, parent, t.contracts[cur].price)] + rest)
  }

  function Edges(t: Tree, d: nat): Chain {
    EdgesFrom(t, d, {})
  }

  // ---- creation ----

  /** The closure rows a creator copies: one more step below every ancestor of the parent. */
  function CopiedRows(closure: seq<ClosureRow>, parent: nat, child: nat): seq<ClosureRow> {
    if closure == [] then []
    else
      var rest, row := CopiedRows(closure[..|closure| - 1], parent, child), closure[|closure| - 1];
      if row.descendant == parent then rest + [ClosureRow(row.ancestor, child, row.depth + 1)] else rest
  }

  /** A new top-level organization. */
  function AddRoot(t: Tree, credit: int, maxDepth: int): Tree {
    var id := |t.orgs|;
    t.(orgs := t.orgs + [Organization(None, true, credit, maxDepth)], closure := t.closure + [ClosureRow(id, id, 0)])
  }

  /** A new child: its own closure row, a row per ancestor of the parent, and its contract. */
  function AddChild(t: Tree, parent: nat, credit: int, maxDepth: int, price: int): Tree {
    var id := |t.orgs|;
    Tree(t.orgs + [Organization(Some(parent), true, credit, maxDepth)],
         t.closure + [ClosureRow(id, id, 0)] + CopiedRows(t.closure, parent, id),
         t.contracts[id := Contract(parent, price, true)])
  }

  // ---- the ancestor relation ----

  /** The k-th parent of `d`. */
  function Ancestor(orgs: seq<Organization>, d: nat, k: nat): Option<nat>
    decreases k
  {
    if d >= |orgs| then None
    else if k == 0 then Some(d)
    else match orgs[d].parent
      case None => None
      case Some(p) => Ancestor(orgs, p, k - 1)
  }

  /** The number of parents above `d`. */
  function Height(orgs: seq<Organization>, d: nat): nat {
    if d < |orgs| && orgs[d].parent.Some? && orgs[d].parent.value < d then 1 + Height(orgs, orgs[d].parent.value) else 0
  }

  predicate Distinct(rows: seq<ClosureRow>) {
    forall i, j :: 0 <= i < j < |rows| ==> rows[i] != rows[j]
  }

  predicate ParentsFirst(orgs: seq<Organization>) {
    forall d :: 0 <= d < |orgs| && orgs[d].parent.Some? ==> orgs[d].parent.value < d
  }

  /** The closure table is the ancestor relation, and exactly the children have contracts. */
  ghost predicate TreeOk(t: Tree) {
    && ParentsFirst(t.orgs)
    && (forall row :: row in t.closure <==> Ancestor(t.orgs, row.descendant, row.depth) == Some(row.ancestor))
    && Distinct(t.closure)
    && (forall d :: d in t.contracts <==> 0 <= d < |t.orgs| && t.orgs[d].parent.Some?)
    && (forall d :: d in t.contracts ==> t.contracts[d].active && t.orgs[d].parent == Some(t.contracts[d].parent))
  }

  lemma {:induction false} AncestorHeight(orgs: seq<Organization>, d: nat, k: nat)
    requires ParentsFirst(orgs) && d < |orgs|
    ensures Ancestor(orgs, d, k).Some? <==> k <= Height(orgs, d)
    ensures k <= Height(orgs, d) ==> Ancestor(orgs, d, k).value < |orgs|
  {
    if k > 0 && orgs[d].parent.Some? {
      AncestorHeight(orgs, orgs[d].parent.value, k - 1);
    }
  }

  /** New organizations leave the ancestors of the old ones alone. */
  lemma {:induction false} AncestorStable(orgs: seq<Organization>, more: seq<Organization>, d: nat, k: nat)
    requires ParentsFirst(orgs) && d < |orgs|
    ensures Ancestor(orgs + more, d, k) == Ancestor(orgs, d, k)
  {
    if k > 0 && orgs[d].parent.Some? {
      AncestorStable(orgs, more, orgs[d].parent.value, k - 1);
    }
  }

  lemma {:induction false} HeightStable(orgs: seq<Organization>, more: seq<Organization>, d: nat)
    requires ParentsFirst(orgs) && d < |orgs|
    ensures Height(orgs + more, d) == Height(orgs, d)
  {
    if orgs[d].parent.Some? { HeightStable(orgs, more, orgs[d].parent.value); }
  }

  lemma {:induction false} CopiedExactly(closure: seq<ClosureRow>, parent: nat, child: nat, row: ClosureRow)
    ensures row in CopiedRows(closure, parent, child)
       <==> row.descendant == child && row.depth > 0 && ClosureRow(row.ancestor, parent, row.depth - 1) in closure
  {
    if closure != [] {
      var n := |closure| - 1;
      CopiedExactly(closure[..n], parent, child, row);
      assert closure == closure[..n] + [closure[n]];
    }
  }

  lemma {:induction false} CopiedDistinct(closure: seq<ClosureRow>, parent: nat, child: nat)
    requires Distinct(closure)
    ensures Distinct(CopiedRows(closure, parent, child))
  {
    if closure != [] {
      var n := |closure| - 1;
      CopiedDistinct(closure[..n], parent, child);
      if closure[n].descendant == parent {
        var copy := ClosureRow(closure[n].ancestor, child, closure[n].depth + 1);
        CopiedExactly(closure[..n], parent, child, copy);
        assert copy !in CopiedRows(closure[..n], parent, child);
      }
    }
  }

  /** Every creation of a top-level organization keeps the closure table equal to the ancestor relation. */
  lemma AddRootKeeps(t: Tree, credit: int, maxDepth: int)
    requires TreeOk(t)
    ensures TreeOk(AddRoot(t, credit, maxDepth))
  {
    var id, next := |t.orgs|, AddRoot(t, credit, maxDepth);
    var org := Organization(None, true, credit, maxDepth);
    forall row ensures row in next.closure <==> Ancestor(next.orgs, row.descendant, row.depth) == Some(row.ancestor) {
      if row.descendant < id { AncestorStable(t.orgs, [org], row.descendant, row.depth); }
    }
  }

  lemma ChildClosure(t: Tree, parent: nat, credit: int, maxDepth: int, price: int, row: ClosureRow)
    requires TreeOk(t) && parent < |t.orgs|
    ensures var next := AddChild(t, parent, credit, maxDepth, price);
            row in next.closure <==> Ancestor(next.orgs, row.descendant, row.depth) == Some(row.ancestor)
  {
    var id, org := |t.orgs|, Organization(Some(parent), true, credit, maxDepth);
    CopiedExactly(t.closure, parent, id, row);
    if row.descendant < id {
      AncestorStable(t.orgs, [org], row.descendant, row.depth);
    } else if row.descendant == id && row.depth > 0 {
      AncestorStable(t.orgs, [org], parent, row.depth - 1);
      assert row in t.closure <==> Ancestor(t.orgs, id, row.depth) == Some(row.ancestor);
    }
  }

  /** Every creation of a child keeps the closure table equal to the ancestor relation. */
  lemma AddChildKeeps(t: Tree, parent: nat, credit: int, maxDepth: int, price: int)
    requires TreeOk(t) && parent < |t.orgs|
    ensures TreeOk(AddChild(t, parent, credit, maxDepth, price))
  {
    var id, next := |t.orgs|, AddChild(t, parent, credit, maxDepth, price);
    var copied := CopiedRows(t.closure, parent, id);
    forall row ensures row in next.closure <==> Ancestor(next.orgs, row.descendant, row.depth) == Some(row.ancestor) {
      ChildClosure(t, parent, credit, maxDepth, price, row);
    }
    CopiedDistinct(t.closure, parent, id);
    forall row | row in copied ensures row.descendant == id && row.depth > 0 {
      CopiedExactly(t.closure, parent, id, row);
    }
    NoDuplicates(t, copied);
  }

  lemma NoDuplicates(t: Tree, copied: seq<ClosureRow>)
    requires TreeOk(t)
    requires Distinct(copied)
    requires forall row :: row in copied ==> row.descendant == |t.orgs| && row.depth > 0
    ensures Distinct(t.closure + [ClosureRow(|t.orgs|, |t.orgs|, 0)] + copied)
  {
    forall row | row in t.closure ensures row.descendant < |t.orgs| {}
    var c := t.closure + [ClosureRow(|t.orgs|, |t.orgs|, 0)] + copied;
    forall i, j | 0 <= i < j < |c| ensures c[i] != c[j] {
      if j > |t.closure| { assert c[j] in copied; }
      if i < |t.closure| { assert c[i] in t.closure; }
    }
  }

  // ---- what the closure table answers ----

  lemma {:induction false} DepthOfIsMax(closure: seq<ClosureRow>, d: nat)
    ensures forall row :: row in closure && row.descendant == d ==> row.depth <= DepthOf(closure, d)
    ensures RootOf(closure, d).Some? ==> ClosureRow(RootOf(closure, d).value, d, DepthOf(closure, d)) in closure
    ensures RootOf(closure, d) == None ==> DepthOf(closure, d) == 0 && forall row :: row in closure ==> row.descendant != d
  {
    if closure != [] {
      var n := |closure| - 1;
      DepthOfIsMax(closure[..n], d);
      assert closure == closure[..n] + [closure[n]];
    }
  }

  /** depth_of is the number of parents, and the deepest closure row names the top of the branch. */
  lemma DepthIsHeight(t: Tree, d: nat)
    requires TreeOk(t) && d < |t.orgs|
    ensures DepthOf(t.closure, d) == Height(t.orgs, d)
    ensures RootOf(t.closure, d) == Ancestor(t.orgs, d, Height(t.orgs, d))
  {
    DepthOfIsMax(t.closure, d);
    var h := Height(t.orgs, d);
    AncestorHeight(t.orgs, d, h);
    AncestorHeight(t.orgs, d, DepthOf(t.closure, d));
    assert ClosureRow(d, d, 0) in t.closure;
    assert ClosureRow(Ancestor(t.orgs, d, h).value, d, h) in t.closure;
  }

  /** The walk with everything passed lying below: it neither cycles nor misses a contract. */
  lemma {:induction false} WalkIsChain(t: Tree, cur: nat, seen: set<nat>)
    requires TreeOk(t) && cur < |t.orgs| && forall x :: x in seen ==> x > cur
    ensures EdgesFrom(t, cur, seen).Chain?
    ensures var es := EdgesFrom(t, cur, seen).edges;
            && |es| == Height(t.orgs, cur)
            && forall i :: 0 <= i < |es| ==>
                 && Ancestor(t.orgs, cur, i) == Some(es[i].child) && Ancestor(t.orgs, cur, i + 1) == Some(es[i].parent)
                 && es[i].child in t.contracts && es[i].rate == t.contracts[es[i].child].price
    decreases cur
  {
    if t.orgs[cur].parent.Some? {
      WalkIsChain(t, t.orgs[cur].parent.value, seen + {cur});
      assert cur in t.contracts;
    }
  }

  /**
   In a well-formed tree `edges` never fails: it is the path to the top, as long as depth_of
   says, and hop i is the pair of closure rows at depths i and i + 1, in that order.
   */
  lemma EdgesAreClosurePath(t: Tree, d: nat)
    requires TreeOk(t) && d < |t.orgs|
    ensures Edges(t, d).Chain?
    ensures var es := Edges(t, d).edges;
            && |es| == DepthOf(t.closure, d)
            && forall i :: 0 <= i < |es| ==>
                 && ClosureRow(es[i].child, d, i) in t.closure && ClosureRow(es[i].parent, d, i + 1) in t.closure
                 && es[i].child in t.contracts && t.contracts[es[i].child] == Contract(es[i].parent, es[i].rate, true)
  {
    WalkIsChain(t, d, {});
    DepthIsHeight(t, d);
    var es := Edges(t, d).edges;
    forall i | 0 <= i < |es|
      ensures es[i].child in t.contracts && t.contracts[es[i].child] == Contract(es[i].parent, es[i].rate, true)
    {
      assert Ancestor(t.orgs, d, i + 1) == Some(es[i].parent);
      ParentOfAncestor(t.orgs, d, i);
    }
  }

  lemma {:induction false} ParentOfAncestor(orgs: seq<Organization>, d: nat, k: nat)
    requires Ancestor(orgs, d, k + 1).Some?
    ensures Ancestor(orgs, d, k).Some? && Ancestor(orgs, d, k).value < |orgs|
    ensures orgs[Ancestor(orgs, d, k).value].parent == Ancestor(orgs, d, k + 1)
    decreases k
  {
    if k > 0 { ParentOfAncestor(orgs, orgs[d].parent.value, k - 1); }
  }

  /** The first k organizations on the way up from `d` are different and have active contracts. */
  ghost predicate Climbs(t: Tree, d: nat, k: nat) {
    && (forall i :: 0 <= i < k ==>
          && Ancestor(t.orgs, d, i).Some? && Ancestor(t.orgs, d, i).value < |t.orgs|
          && t.orgs[Ancestor(t.orgs, d, i).value].parent.Some?
          && Ancestor(t.orgs, d, i).value in t.contracts && t.contracts[Ancestor(t.orgs, d, i).value].active)
    && forall i, j :: 0 <= i < j < k ==> Ancestor(t.orgs, d, i) != Ancestor(t.orgs, d, j)
  }

  /** The way up ends after k hops: the k-th parent does not exist, or has no parent. */
  predicate EndsAt(t: Tree, d: nat, k: nat) {
    var c := Ancestor(t.orgs, d, k);
    c == None || (c.value < |t.orgs| && t.orgs[c.value].parent == None)
  }

  lemma {:induction false} NextAncestor(orgs: seq<Organization>, d: nat, k: nat)
    requires Ancestor(orgs, d, k).Some?
    ensures Ancestor(orgs, d, k).value < |orgs|
    ensures var c := Ancestor(orgs, d, k).value;
            Ancestor(orgs, d, k + 1) == match orgs[c].parent case None => None
                                        case Some(p) => if p < |orgs| then Some(p) else None
    decreases k
  {
    if k > 0 { NextAncestor(orgs, orgs[d].parent.value, k - 1); }
  }

  /** What the walk has seen after k hops. */
  ghost predicate Climbed(t: Tree, d: nat, k: nat, cur: nat, seen: set<nat>) {
    && Climbs(t, d, k) && (forall x :: x in seen <==> exists i :: 0 <= i < k && Ancestor(t.orgs, d, i) == Some(x))
    && Ancestor(t.orgs, d, k) == if cur < |t.orgs| then Some(cur) else None
  }

  lemma ClimbOn(t: Tree, d: nat, k: nat, cur: nat, seen: set<nat>)
    requires Climbed(t, d, k, cur, seen) && cur < |t.orgs| && t.orgs[cur].parent.Some? && cur !in seen
    requires cur in t.contracts && t.contracts[cur].active
    ensures Climbed(t, d, k + 1, t.orgs[cur].parent.value, seen + {cur})
  {
    NextAncestor(t.orgs, d, k);
    forall i, j | 0 <= i < j < k + 1 ensures Ancestor(t.orgs, d, i) != Ancestor(t.orgs, d, j) {
      if j == k { assert Ancestor(t.orgs, d, i) == Some(cur) ==> cur in seen; }
    }
    forall x | x in seen + {cur} ensures exists i :: 0 <= i < k + 1 && Ancestor(t.orgs, d, i) == Some(x) {
      if x == cur { assert Ancestor(t.orgs, d, k) == Some(x); }
    }
  }

  /** How far the walk gets, and why it ends there. */
  ghost predicate WalkEnds(t: Tree, d: nat, n: nat, r: Chain) {
    && Climbs(t, d, n)
    && match r
       case Chain(es) => EndsAt(t, d, n)
       case Broken(HierarchyCycle) => exists i :: 0 <= i < n && Ancestor(t.orgs, d, i) == Ancestor(t.orgs, d, n)
       case Broken(ContractMissing) =>
         && Ancestor(t.orgs, d, n).Some? && !EndsAt(t, d, n)
         && (forall i :: 0 <= i < n ==> Ancestor(t.orgs, d, i) != Ancestor(t.orgs, d, n))
         && var c := Ancestor(t.orgs, d, n).value; c !in t.contracts || !t.contracts[c].active
  }

  lemma {:induction false} WalkFrom(t: Tree, d: nat, k: nat, cur: nat, seen: set<nat>) returns (n: nat)
    requires Climbed(t, d, k, cur, seen)
    ensures n >= k && WalkEnds(t, d, n, EdgesFrom(t, cur, seen))
    ensures EdgesFrom(t, cur, seen).Chain? ==> |EdgesFrom(t, cur, seen).edges| == n - k
    decreases Below(|t.orgs|) - seen
  {
    hide Climbed, WalkEnds;
    n := k;
    if cur < |t.orgs| && t.orgs[cur].parent.Some? && cur !in seen && cur in t.contracts && t.contracts[cur].active {
      assert cur in Below(|t.orgs|) - seen;
      ClimbOn(t, d, k, cur, seen);
      n := WalkFrom(t, d, k + 1, t.orgs[cur].parent.value, seen + {cur});
      SameEnd(t, d, n, EdgesFrom(t, t.orgs[cur].parent.value, seen + {cur}), EdgesFrom(t, cur, seen));
    } else {
      WalkStops(t, d, k, cur, seen);
    }
  }

  lemma SameEnd(t: Tree, d: nat, n: nat, r: Chain, q: Chain)
    requires WalkEnds(t, d, n, r) && (r == q || (r.Chain? && q.Chain?))
    ensures WalkEnds(t, d, n, q)
  {}

  lemma WalkStops(t: Tree, d: nat, k: nat, cur: nat, seen: set<nat>)
    requires Climbed(t, d, k, cur, seen)
    requires !(cur < |t.orgs| && t.orgs[cur].parent.Some? && cur !in seen && cur in t.contracts && t.contracts[cur].active)
    ensures WalkEnds(t, d, k, EdgesFrom(t, cur, seen))
    ensures EdgesFrom(t, cur, seen).Chain? ==> EdgesFrom(t, cur, seen).edges == []
  {
    hide Ancestor, Climbs;
    if cur < |t.orgs| && t.orgs[cur].parent.Some? && cur in seen {
      var i :| 0 <= i < k && Ancestor(t.orgs, d, i) == Some(cur);
    }
  }

  /**
   In any tree at all, well-formed or not, `edges` climbs as long as the organizations on the way are new and have
   active contracts. It delivers a chain exactly as long as the climb when that ends at an organization
   without a parent or outside the table, and otherwise names what it met: itself again, or no contract.
   */
  lemma EdgesAnswers(t: Tree, d: nat) returns (n: nat)
    ensures WalkEnds(t, d, n, Edges(t, d))
    ensures Edges(t, d).Chain? ==> |Edges(t, d).edges| == n
  {
    n := WalkFrom(t, d, 0, d, {});
  }

  /** The hops of a chain lead from child to parent without a gap, and never revisit an organization. */
  lemma ChainLinks(t: Tree, d: nat)
    requires TreeOk(t) && d < |t.orgs|
    ensures Edges(t, d).Chain?
    ensures var es := Edges(t, d).edges;
            && (forall i :: 0 <= i < |es| - 1 ==> es[i].parent == es[i + 1].child)
            && (forall i :: 0 <= i < |es| ==> es[i].parent < es[i].child < |t.orgs|)
            && (forall i, j :: 0 <= i < j < |es| ==> es[j].child < es[i].child)
            && (|es| > 0 ==> es[0].child == d)
  {
    WalkIsChain(t, d, {});
    var es := Edges(t, d).edges;
    forall i | 0 <= i < |es| ensures es[i].parent < es[i].child < |t.orgs| {
      assert Ancestor(t.orgs, d, i + 1) == Some(es[i].parent);
      ParentOfAncestor(t.orgs, d, i);
    }
    Descending(es);
  }

  lemma {:induction false} Descending(es: seq<Edge>)
    requires forall i :: 0 <= i < |es| - 1 ==> es[i].parent == es[i + 1].child
    requires forall i :: 0 <= i < |es| ==> es[i].parent < es[i].child
    ensures forall i, j :: 0 <= i < j < |es| ==> es[j].child < es[i].child
  {
    if |es| > 1 {
      var n := |es| - 1;
      Descending(es[..n]);
      forall i, j | 0 <= i < j < |es| ensures es[j].child < es[i].child {
        if j == n {
          assert es[n - 1].parent == es[n].child;
          assert i < n - 1 ==> es[..n][n - 1].child < es[..n][i].child;
        } else {
          assert es[..n][j].child < es[..n][i].child;
        }
      }
    }
  }

  // ---- the depth limit ----

  /** A depth is within the configured maximum and within that of the top of the branch of `d`. */
  predicate Fits(orgs: seq<Organization>, depth: int, d: nat) {
    var top := Ancestor(orgs, d, Height(orgs, d));
    && depth <= MAX_TREE_DEPTH
    && (top.Some? && top.value < |orgs| ==> depth <= orgs[top.value].maxDepth)
  }

  /** Nobody has more parents than the limits allow. */
  ghost predicate WithinLimits(t: Tree) {
    forall d :: 0 <= d < |t.orgs| && t.orgs[d].parent.Some? ==> Fits(t.orgs, Height(t.orgs, d), d)
  }

  /** The depth check, asked of the closure table, is the question whether one more level fits. */
  lemma DepthAllowedIff(t: Tree, parent: nat)
    requires TreeOk(t) && parent < |t.orgs|
    ensures DepthAllowed(t, parent) <==> Fits(t.orgs, Height(t.orgs, parent) + 1, parent)
  {
    DepthIsHeight(t, parent);
    AncestorHeight(t.orgs, parent, Height(t.orgs, parent));
  }

  lemma FitsStable(orgs: seq<Organization>, more: seq<Organization>, depth: int, d: nat)
    requires ParentsFirst(orgs) && d < |orgs|
    ensures Height(orgs + more, d) == Height(orgs, d) && (Fits(orgs + more, depth, d) <==> Fits(orgs, depth, d))
  {
    HeightStable(orgs, more, d);
    AncestorStable(orgs, more, d, Height(orgs, d));
    AncestorHeight(orgs, d, Height(orgs, d));
  }

  /**
   Creating a child keeps every depth within its limit exactly when the depth check passes: the
   creators that make the check keep the limit, and the one that skips it (the bot) breaks the
   limit on precisely the parents the others refuse.
   */
  lemma ChildWithinLimits(t: Tree, parent: nat, credit: int, maxDepth: int, price: int)
    requires TreeOk(t) && WithinLimits(t) && parent < |t.orgs|
    ensures WithinLimits(AddChild(t, parent, credit, maxDepth, price)) <==> DepthAllowed(t, parent)
  {
    hide Fits, TreeOk;
    var id, org, next := |t.orgs|, Organization(Some(parent), true, credit, maxDepth), AddChild(t, parent, credit, maxDepth, price);
    DepthAllowedIff(t, parent);
    ParentsComeFirst(t);
    forall d | 0 <= d < id
      ensures Height(next.orgs, d) == Height(t.orgs, d)
      ensures Fits(next.orgs, Height(t.orgs, d), d) <==> Fits(t.orgs, Height(t.orgs, d), d)
    {
      FitsStable(t.orgs, [org], Height(t.orgs, d), d);
    }
    FitsStable(t.orgs, [org], Height(t.orgs, parent) + 1, parent);
    FitsBelow(next.orgs, id, parent, Height(t.orgs, parent) + 1);
  }

  lemma ParentsComeFirst(t: Tree)
    requires TreeOk(t)
    ensures ParentsFirst(t.orgs)
  {}

  lemma FitsBelow(orgs: seq<Organization>, d: nat, parent: nat, depth: int)
    requires d < |orgs| && orgs[d].parent == Some(parent) && parent < d
    ensures Height(orgs, d) == Height(orgs, parent) + 1 && (Fits(orgs, depth, d) <==> Fits(orgs, depth, parent))
  {}

  lemma RootWithinLimits(t: Tree, credit: int, maxDepth: int)
    requires TreeOk(t) && WithinLimits(t)
    ensures WithinLimits(AddRoot(t, credit, maxDepth))
  {
    hide Fits, TreeOk;
    var org, next := Organization(None, true, credit, maxDepth), AddRoot(t, credit, maxDepth);
    ParentsComeFirst(t);
    forall d | 0 <= d < |t.orgs|
      ensures Height(next.orgs, d) == Height(t.orgs, d)
      ensures Fits(next.orgs, Height(t.orgs, d), d) <==> Fits(t.orgs, Height(t.orgs, d), d)
    {
      FitsStable(t.orgs, [org], Height(t.orgs, d), d);
    }
  }
}
