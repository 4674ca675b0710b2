/**
 Runs of the whole desk seen from one binding: whatever else is requested, its readings obey the
 laws of Epochs, alone or in batches.
 */
module Runs {
  import opened Options
  import opened Ledger
  import opened Resellers
  import opened Treasury
  import opened Desk
  import opened Worlds
  import opened Histories
  import E = Epochs
  import M = Metering
  import P = Pricing
  import S = Settlement
  import C = Catalog

  // ---- the tree only grows ----

  /** Parents, credits and contracts are for good. */
  ghost predicate TreeGrows(t: Tree, next: Tree) {
    && |t.orgs| <= |next.orgs|
    && (forall i :: 0 <= i < |t.orgs| ==> next.orgs[i].parent == t.orgs[i].parent && next.orgs[i].credit == t.orgs[i].credit)
    && (forall i :: 0 <= i < |t.orgs| ==> (i in next.contracts <==> i in t.contracts))
    && (forall i :: 0 <= i < |t.orgs| && i in t.contracts ==> next.contracts[i] == t.contracts[i])
  }

  /** What a request makes of the tree: the same, a new top-level organization, a new child, or a switched status. */
  ghost predicate TreeStep(t: Tree, next: Tree, checked: bool) {
    || next == t
    || (exists credit: nat :: next == AddRoot(t, credit, DEFAULT_DEPTH))
    || (exists parent: nat, credit: int, price: int ::
          parent < |t.orgs| && (checked ==> DepthAllowed(t, parent)) && next == AddChild(t, parent, credit, DEFAULT_DEPTH, price))
    || (next.closure == t.closure && next.contracts == t.contracts && |next.orgs| == |t.orgs|
        && forall i :: 0 <= i < |t.orgs| ==> next.orgs[i].(active := t.orgs[i].active) == t.orgs[i])
  }

  lemma TreeSteps(w: World, act: Act)
    ensures TreeStep(w.shop.tree, Step(w, act).shop.tree, act.CreateChild? ==> act.checked)
  {
    hide AddChild, AddRoot, DepthAllowed, C.Next, C.Served, C.Accepted, PlanTerms, Transfer, M.Observe;
    if act.UsageBatch? { BatchTree(w.shop, act.items, {}); }
    if act.Usage? { ObserveTree(w.shop, act.binding, act.reading); }
  }

  lemma TreeStepGrows(t: Tree, next: Tree, checked: bool)
    requires TreeStep(t, next, checked)
    ensures TreeGrows(t, next)
  {
    hide DepthAllowed, CopiedRows;
  }

  lemma StepGrowsTree(w: World, act: Act)
    ensures TreeGrows(w.shop.tree, Step(w, act).shop.tree)
  {
    hide Step, TreeStep, TreeGrows;
    TreeSteps(w, act);
    TreeStepGrows(w.shop.tree, Step(w, act).shop.tree, act.CreateChild? ==> act.checked);
  }

  lemma ObserveTree(s: M.Shop, b: nat, x: nat)
    ensures var after := M.Observe(s, b, x).0;
            after.tree == s.tree && after.bindings == s.bindings && after.coefs == s.coefs
  {
    hide S.Settle, M.PlanFor;
  }

  lemma {:induction false} BatchTree(s: M.Shop, items: seq<(nat, nat)>, unsent: set<nat>)
    ensures var after := M.BatchFrom(s, items, unsent);
            after.Some? ==> after.value.tree == s.tree && after.value.bindings == s.bindings && after.value.coefs == s.coefs
    decreases |items|
  {
    hide M.Observe, M.Unsent;
    if items != [] {
      ObserveTree(s, items[0].0, items[0].1);
      BatchTree(M.Observe(s, items[0].0, items[0].1).0, items[1..], M.Unsent(s, items[0].0, items[0].1, unsent));
    }
  }

  /** Parents, credits and contracts never change, in any run. */
  lemma {:induction false} NothingIsRenegotiated(acts: seq<Act>, more: seq<Act>)
    ensures TreeGrows(After(acts).shop.tree, After(acts + more).shop.tree)
    decreases |more|
  {
    hide Step;
    if more == [] {
      assert acts + more == acts;
    } else {
      var n := |more| - 1;
      NothingIsRenegotiated(acts, more[..n]);
      assert acts + more == (acts + more[..n]) + [more[n]];
      AfterNext(acts + more[..n], more[n]);
      StepGrowsTree(After(acts + more[..n]), more[n]);
    }
  }

  lemma {:induction false} WalkStays(t: Tree, next: Tree, cur: nat, seen: set<nat>)
    requires ParentsFirst(t.orgs) && TreeGrows(t, next) && cur < |t.orgs|
    requires forall i :: i in seen ==> i > cur
    ensures EdgesFrom(next, cur, seen) == EdgesFrom(t, cur, seen)
    decreases cur
  {
    if t.orgs[cur].parent.Some? {
      WalkStays(t, next, t.orgs[cur].parent.value, seen + {cur});
    }
  }

  // ---- what others file ----

  lemma {:induction false} SettleFiles(books: Books, orgs: seq<Organization>, c: nat, from: int, to: int, rows: seq<P.Charge>,
                                       pending: int, b: nat)
    requires c != b
    ensures var after := S.Settle(books, orgs, c, from, to, rows, pending).0;
            books.journal <= after.journal && E.Uncharged(after.journal[|books.journal|..], b)
    decreases |rows|
  {
    if rows != [] {
      var x := rows[0];
      TransferEffect(books, orgs, Org(x.child), Org(x.parent), x.amount, S.ChargeKey(c, from, to, x), true);
      var (after, outcome) := Transfer(books, orgs, Org(x.child), Org(x.parent), x.amount, S.ChargeKey(c, from, to, x), true);
      if !outcome.Refused? {
        hide Transfer;
        SettleFiles(after, orgs, c, from, to, rows[1..], pending + x.amount, b);
        UnchargedJoins(books.journal, after.journal, S.Settle(after, orgs, c, from, to, rows[1..], pending + x.amount).0.journal, b);
      }
    }
  }

  lemma UnchargedJoins(x: seq<Tx>, y: seq<Tx>, z: seq<Tx>, b: nat)
    requires x <= y <= z && E.Uncharged(y[|x|..], b) && E.Uncharged(z[|y|..], b)
    ensures x <= z && E.Uncharged(z[|x|..], b)
  {
    forall i | |x| <= i < |z| ensures !(z[i].key.UsageKey? && z[i].key.binding == b) {
      if i < |y| { assert z[i] == y[i] == y[|x|..][i - |x|]; } else { assert z[i] == z[|y|..][i - |y|]; }
    }
  }

  /** Someone else's reading: no charge and no meter of this binding. */
  ghost predicate Unconcerned(s: M.Shop, after: M.Shop, b: nat) {
    && s.books.journal <= after.books.journal && E.Uncharged(after.books.journal[|s.books.journal|..], b)
    && M.MeterOf(after, b) == M.MeterOf(s, b)
  }

  lemma OtherReading(s: M.Shop, c: nat, x: nat, b: nat)
    requires c != b
    ensures Unconcerned(s, M.Observe(s, c, x).0, b)
  {
    hide S.Settle, M.PlanFor, M.Regress, M.Accept;
    if c in s.bindings && M.MeterOf(s, c).checkpoint.Some? && x >= M.MeterOf(s, c).checkpoint.value.lifetime {
      var from := M.MeterOf(s, c).checkpoint.value.lifetime;
      var plan := M.PlanFor(s, s.bindings[c], x - from);
      if plan.Planned? { SettleFiles(s.books, s.tree.orgs, c, from, x, plan.charges, 0, b); }
    }
  }

  lemma PayUnconcerned(w: World, source: Owner, target: Owner, amount: int, key: Key, enforce: bool, b: nat)
    requires !key.UsageKey?
    ensures var paid := Pay(w, source, target, amount, key, enforce).0;
            Unconcerned(w.shop, paid.shop, b) && paid.shop.bindings == w.shop.bindings
  {
    TransferEffect(w.shop.books, w.shop.tree.orgs, source, target, amount, key, enforce);
  }

  lemma AppliedUnconcerned(w: World, id: nat, a: Approval, b: nat)
    ensures var paid := Applied(w, id, a).0;
            Unconcerned(w.shop, paid.shop, b) && paid.shop.bindings == w.shop.bindings
  {
    hide Pay;
    PayUnconcerned(w, System, Org(a.target), a.amount, ApprovalKey(id), false, b);
    PayUnconcerned(w, Org(a.target), System, -a.amount, ApprovalKey(id), true, b);
  }

  lemma ApprovalUnconcerned(w: World, org: nat, id: nat, slugFree: bool, bindAs: Option<nat>, b: nat)
    ensures var next := OrderApproved(w, org, id, slugFree, bindAs);
            Unconcerned(w.shop, next.shop, b) && BindingsKept(w, next)
  {
    hide Pay, AddChild, DepthAllowed;
    if OrderApproved(w, org, id, slugFree, bindAs) != w {
      var o, child := w.orders[id], |w.shop.tree.orgs|;
      var tree := AddChild(w.shop.tree, org, o.terms.credit, DEFAULT_DEPTH, o.terms.price);
      assert tree.orgs != [] by { ChildIsNew(w.shop.tree, org, o.terms.credit, o.terms.price); }
      var grown := Grown(w, tree);
      var bound := if bindAs.Some? then WithBinding(grown, bindAs.value, child, o.panel) else grown;
      PayUnconcerned(bound, System, Org(child), o.terms.amount, OrderKey(id), false, b);
    }
  }

  lemma ChildIsNew(t: Tree, parent: nat, credit: int, price: int)
    ensures AddChild(t, parent, credit, DEFAULT_DEPTH, price).orgs != []
  {}

  /** Bindings are never moved or removed. */
  ghost predicate BindingsKept(w: World, next: World) {
    forall b :: b in w.shop.bindings ==> b in next.shop.bindings && next.shop.bindings[b] == w.shop.bindings[b]
  }

  predicate MovesMoney(act: Act) {
    act.Usage? || act.UsageBatch? || act.Fund? || act.DecideFunding? || act.RequestAdjustment? || act.DecideApproval? || act.ApproveOrder?
  }

  lemma QuietRequest(w: World, act: Act)
    requires !MovesMoney(act)
    ensures var next := Step(w, act);
            next.shop.books.journal == w.shop.books.journal && next.shop.meters == w.shop.meters && BindingsKept(w, next)
  {
    hide AddChild, AddRoot, DepthAllowed, C.Next, C.Served, C.Accepted, PlanTerms;
  }

  /** Every request but a reading leaves the charges and the meter of a binding alone. */
  lemma OtherRequest(w: World, act: Act, b: nat)
    requires !act.Usage? && !act.UsageBatch?
    ensures Unconcerned(w.shop, Step(w, act).shop, b) && BindingsKept(w, Step(w, act))
  {
    hide Pay, Applied, OrderApproved, AddChild, AddRoot, DepthAllowed, C.Next, C.Served, C.Accepted, PlanTerms, Unconcerned;
    assert Unconcerned(w.shop, w.shop, b) by { NobodyConcerned(w.shop, w.shop, b); }
    match act {
      case Fund(org, paid, text) => PayUnconcerned(w, System, Org(org), paid, ExternalKey(text), false, b);
      case DecideFunding(_, id, _, _) =>
        if id < |w.fundings| {
          PayUnconcerned(w, System, Org(w.fundings[id].org), w.fundings[id].amount, FundingKey(id), false, b);
        }
      case RequestAdjustment(actor, _, target, amount, now) =>
        AppliedUnconcerned(w, |w.approvals|, Approval(actor, None, target, amount, now + APPROVAL_TTL, Open, None), b);
      case DecideApproval(id, _, now) =>
        if id < |w.approvals| { AppliedUnconcerned(w, id, w.approvals[id].(decidedAt := Some(now)), b); }
      case ApproveOrder(org, id, slugFree, bindAs) => ApprovalUnconcerned(w, org, id, slugFree, bindAs, b);
      case _ =>
        QuietRequest(w, act);
        NobodyConcerned(w.shop, Step(w, act).shop, b);
    }
  }

  lemma NobodyConcerned(s: M.Shop, after: M.Shop, b: nat)
    requires after.books.journal == s.books.journal && after.meters == s.meters
    ensures Unconcerned(s, after, b)
  {}

  /** The same for readings of others, and for those of a binding that does not exist. */
  lemma OthersUnconcerned(w: World, act: Act, b: nat)
    requires b in w.shop.bindings ==> !act.UsageBatch? && (act.Usage? ==> act.binding != b)
    ensures Unconcerned(w.shop, Step(w, act).shop, b) && BindingsKept(w, Step(w, act))
  {
    NobodyConcerned(w.shop, w.shop, b);
    if act.Usage? {
      if act.binding != b {
        hide M.Observe;
        OtherReading(w.shop, act.binding, act.reading, b);
        ObserveTree(w.shop, act.binding, act.reading);
      }
    } else if act.UsageBatch? {
      hide M.Observe;
      BatchTree(w.shop, act.items, {});
      StrangersBatch(w.shop, act.items, {}, b);
    } else {
      hide Step;
      OtherRequest(w, act, b);
    }
  }

  lemma {:induction false} StrangersBatch(s: M.Shop, items: seq<(nat, nat)>, unsent: set<nat>, b: nat)
    requires b !in s.bindings
    ensures M.BatchFrom(s, items, unsent).Some? ==> Unconcerned(s, M.BatchFrom(s, items, unsent).value, b)
    decreases |items|
  {
    if items != [] {
      var (c, x) := items[0];
      var after := M.Observe(s, c, x).0;
      if c != b {
        OtherReading(s, c, x, b);
        ObserveTree(s, c, x);
        hide M.Observe;
        StrangersBatch(after, items[1..], M.Unsent(s, c, x, unsent), b);
        if M.BatchFrom(s, items, unsent).Some? {
          UnchargedJoins(s.books.journal, after.books.journal, M.BatchFrom(s, items, unsent).value.books.journal, b);
        }
      }
    }
  }

  // ---- a binding's life ----

  /** Before it is bound, nothing is known and nothing is charged. */
  lemma {:induction false} BlankBeforeBound(acts: seq<Act>, b: nat)
    requires b !in After(acts).shop.bindings
    ensures M.MeterOf(After(acts).shop, b) == M.Meter(None, []) && E.Uncharged(Journal(After(acts)), b)
  {
    hide Step;
    if acts != [] {
      var w, act := After(acts[..|acts| - 1]), acts[|acts| - 1];
      if b in w.shop.bindings { BindingsStay(w, act, b); }
      BlankBeforeBound(acts[..|acts| - 1], b);
      OthersUnconcerned(w, act, b);
      UnchargedJoins([], Journal(w), Journal(After(acts)), b);
    }
  }

  lemma BindingsStay(w: World, act: Act, b: nat)
    requires b in w.shop.bindings
    ensures b in Step(w, act).shop.bindings && Step(w, act).shop.bindings[b] == w.shop.bindings[b]
  {
    if act.Usage? {
      hide M.Observe;
      ObserveTree(w.shop, act.binding, act.reading);
    } else if act.UsageBatch? {
      hide M.Observe;
      BatchTree(w.shop, act.items, {});
    } else {
      hide Step;
      OtherRequest(w, act, b);
    }
  }

  /** A walk through the shops, each step a reading of the binding that is kept or something else. */
  ghost predicate Walk(trace: seq<M.Shop>, kept: seq<Option<nat>>, b: nat, from: M.Shop, to: M.Shop) {
    && |trace| == |kept| + 1 && trace[0] == from && trace[|kept|] == to
    && forall i :: 0 <= i < |kept| ==> E.Moves(trace[i], kept[i], trace[i + 1], b)
  }

  lemma WalkJoin(t: seq<M.Shop>, k: seq<Option<nat>>, u: seq<M.Shop>, l: seq<Option<nat>>, b: nat, x: M.Shop, y: M.Shop, z: M.Shop)
    requires Walk(t, k, b, x, y) && Walk(u, l, b, y, z)
    ensures Walk(t + u[1..], k + l, b, x, z)
  {
    hide E.Moves;
    var trace, kept := t + u[1..], k + l;
    forall i | 0 <= i < |kept| ensures E.Moves(trace[i], kept[i], trace[i + 1], b) {
      if i >= |k| {
        assert kept[i] == l[i - |k|] && trace[i + 1] == u[i - |k| + 1] && trace[i] == u[i - |k|];
      } else {
        assert trace[i] == t[i] && trace[i + 1] == t[i + 1];
      }
    }
  }

  lemma ElsewhereOf(s: M.Shop, after: M.Shop, b: nat)
    requires ShopOk(s) && ShopOk(after) && b in s.bindings && TreeGrows(s.tree, after.tree)
    requires Unconcerned(s, after, b) && b in after.bindings && after.bindings[b] == s.bindings[b]
    ensures E.Elsewhere(s, after, b)
  {
    hide Consistent, Covered, M.MeterOk, AccountsOk, CreditsOk, E.Uncharged;
    WalkStays(s.tree, after.tree, s.bindings[b].org, {});
  }

  lemma TreeStays(t: Tree)
    ensures TreeGrows(t, t)
  {}

  /** A batch is a walk: readings of the binding that are kept, settled or held, and readings of others. */
  lemma {:induction false} BatchWalk(s: M.Shop, items: seq<(nat, nat)>, unsent: set<nat>, b: nat)
    returns (trace: seq<M.Shop>, kept: seq<Option<nat>>)
    requires ShopOk(s) && b in s.bindings && M.BatchFrom(s, items, unsent).Some?
    ensures Walk(trace, kept, b, s, M.BatchFrom(s, items, unsent).value)
    decreases |items|
  {
    if items == [] {
      trace, kept := [s], [];
    } else {
      hide M.Observe, M.Unsent, ShopOk, TreeGrows, E.Elsewhere, Unconcerned;
      var (c, x) := items[0];
      var after := M.Observe(s, c, x).0;
      ObserveTree(s, c, x);
      ObserveKeepsShop(s, c, x);
      var t, k := BatchWalk(after, items[1..], M.Unsent(s, c, x, unsent), b);
      if c != b {
        OtherReading(s, c, x, b);
        TreeStays(s.tree);
        ElsewhereOf(s, after, b);
      }
      var read := if c == b then Some(x) else None;
      assert Walk([s, after], [read], b, s, after);
      WalkJoin([s, after], [read], t, k, b, s, after, M.BatchFrom(s, items, unsent).value);
      trace, kept := [s, after] + t[1..], [read] + k;
    }
  }

  lemma WorldParts(w: World)
    requires WorldOk(w)
    ensures ShopOk(w.shop)
  {}

  /** So is every request; a reading that is rolled back takes no step at all. */
  lemma StepWalk(w: World, act: Act, b: nat) returns (trace: seq<M.Shop>, kept: seq<Option<nat>>)
    requires WorldOk(w) && b in w.shop.bindings
    ensures Walk(trace, kept, b, w.shop, Step(w, act).shop)
  {
    hide WorldOk, M.Observe, M.BatchFrom, E.Elsewhere, ShopOk, TreeGrows, Unconcerned;
    trace, kept := [w.shop], [];
    WorldParts(w);
    if act.Usage? && act.binding == b {
      if M.Observe(w.shop, b, act.reading).1.Settled? {
        trace, kept := [w.shop, Step(w, act).shop], [Some(act.reading)];
      }
    } else if act.UsageBatch? {
      if M.BatchFrom(w.shop, act.items, {}).Some? {
        trace, kept := BatchWalk(w.shop, act.items, {}, b);
      }
    } else {
      hide Step;
      var next := Step(w, act);
      OthersUnconcerned(w, act, b);
      StepKeeps(w, act);
      WorldParts(next);
      StepGrowsTree(w, act);
      BindingsStay(w, act, b);
      ElsewhereOf(w.shop, next.shop, b);
      trace, kept := [w.shop, next.shop], [None];
    }
  }

  lemma {:induction false} DeskWalk(acts: seq<Act>, more: seq<Act>, b: nat) returns (trace: seq<M.Shop>, kept: seq<Option<nat>>)
    requires b in After(acts).shop.bindings
    ensures Walk(trace, kept, b, After(acts).shop, After(acts + more).shop)
    decreases |more|
  {
    hide *;
    if more == [] {
      assert acts + more == acts;
      trace, kept := [After(acts).shop], [];
      StandStill(After(acts).shop, b);
    } else {
      var n := |more| - 1;
      var past := acts + more[..n];
      var t, k := DeskWalk(acts, more[..n], b);
      AlwaysOk(past);
      StaysBound(acts, more[..n], b);
      trace, kept := WalkOn(t, k, b, After(acts).shop, After(past), more[n]);
      AfterNext(past, more[n]);
      assert past + [more[n]] == acts + more;
    }
  }

  lemma StandStill(s: M.Shop, b: nat)
    ensures Walk([s], [], b, s, s)
  {}

  /** One request more on a walk. */
  lemma WalkOn(t: seq<M.Shop>, k: seq<Option<nat>>, b: nat, from: M.Shop, w: World, act: Act)
    returns (trace: seq<M.Shop>, kept: seq<Option<nat>>)
    requires WorldOk(w) && b in w.shop.bindings && Walk(t, k, b, from, w.shop)
    ensures Walk(trace, kept, b, from, Step(w, act).shop)
  {
    hide Step, WorldOk, E.Moves;
    var u, l := StepWalk(w, act, b);
    WalkJoin(t, k, u, l, b, from, w.shop, Step(w, act).shop);
    trace, kept := t + u[1..], k + l;
  }

  lemma {:induction false} StaysBound(acts: seq<Act>, more: seq<Act>, b: nat)
    requires b in After(acts).shop.bindings
    ensures b in After(acts + more).shop.bindings
    decreases |more|
  {
    hide Step;
    if more == [] {
      assert acts + more == acts;
    } else {
      var n := |more| - 1;
      StaysBound(acts, more[..n], b);
      assert acts + more == (acts + more[..n]) + [more[n]];
      AfterNext(acts + more[..n], more[n]);
      BindingsStay(After(acts + more[..n]), more[n], b);
    }
  }

  lemma FirstBound(acts: seq<Act>, first: Act, b: nat)
    requires b !in After(acts).shop.bindings && b in After(acts + [first]).shop.bindings
    ensures E.Blank(After(acts + [first]).shop, b)
  {
    hide Step, Accounted, Consistent, Covered, M.MeterOk;
    AfterNext(acts, first);
    BlankBeforeBound(acts, b);
    OthersUnconcerned(After(acts), first, b);
    UnchargedJoins([], Journal(After(acts)), Journal(After(acts + [first])), b);
    AlwaysOk(acts + [first]);
  }

  /** From the request that binds `b` on, every run of the desk is a run in the sense of Epochs, batches included. */
  lemma DeskRunIsUsageRun(acts: seq<Act>, first: Act, more: seq<Act>, b: nat) returns (trace: seq<M.Shop>, kept: seq<Option<nat>>)
    requires b !in After(acts).shop.bindings && b in After(acts + [first]).shop.bindings
    ensures E.UsageRun(trace, kept, b)
    ensures trace[0] == After(acts + [first]).shop && trace[|trace| - 1] == After(acts + [first] + more).shop
  {
    hide Step, After, E.Moves, E.Blank;
    FirstBound(acts, first, b);
    trace, kept := DeskWalk(acts + [first], more, b);
  }

  /**
   In every run of the whole system, batches that keep interrupted settlements included: for every pair
   of readings of a binding the levels charged are the first ones of its chain, all of them once the pair
   is accepted, and nobody else is ever charged for it.
   */
  lemma ChargesExplained(acts: seq<Act>, first: Act, more: seq<Act>, b: nat)
    requires b !in After(acts).shop.bindings && b in After(acts + [first]).shop.bindings
    ensures E.Prefixed(After(acts + [first] + more).shop, b)
  {
    hide Step, After, E.UsageRun, E.Prefixed;
    var trace, kept := DeskRunIsUsageRun(acts, first, more, b);
    E.LengthOfRun(trace, kept, b);
    E.RunPrefixed(trace, kept, b, |trace| - 1);
  }

  // ---- polling ----

  /** The readings of a polling round as requests of their own. */
  function Round(readings: seq<(nat, nat)>): seq<Act>
    decreases |readings|
  {
    if readings == [] then [] else [Usage(readings[0].0, readings[0].1)] + Round(readings[1..])
  }

  /** A polling round is the same readings requested one after another: each settled or rolled back on its own. */
  lemma {:induction false} PollIsRequests(acts: seq<Act>, readings: seq<(nat, nat)>)
    ensures After(acts + Round(readings)) == After(acts).(shop := M.Polled(After(acts).shop, readings))
    decreases |readings|
  {
    hide After, M.UsageOnce;
    if readings == [] {
      assert acts + [] == acts;
    } else {
      var first := Usage(readings[0].0, readings[0].1);
      AfterNext(acts, first);
      PollIsRequests(acts + [first], readings[1..]);
      assert acts + ([first] + Round(readings[1..])) == (acts + [first]) + Round(readings[1..]);
    }
  }

  // ---- the depth limit ----

  /** A switched status moves nobody. */
  predicate SameTree(orgs: seq<Organization>, others: seq<Organization>) {
    |others| == |orgs| && forall i :: 0 <= i < |orgs| ==> others[i].(active := orgs[i].active) == orgs[i]
  }

  lemma {:induction false} SameAncestors(orgs: seq<Organization>, others: seq<Organization>, d: nat, k: nat)
    requires SameTree(orgs, others)
    ensures Ancestor(others, d, k) == Ancestor(orgs, d, k)
    decreases k
  {
    if d < |orgs| && k > 0 && orgs[d].parent.Some? { SameAncestors(orgs, others, orgs[d].parent.value, k - 1); }
  }

  lemma {:induction false} SameHeight(orgs: seq<Organization>, others: seq<Organization>, d: nat)
    requires SameTree(orgs, others)
    ensures Height(others, d) == Height(orgs, d)
  {
    if d < |orgs| && orgs[d].parent.Some? && orgs[d].parent.value < d { SameHeight(orgs, others, orgs[d].parent.value); }
  }

  lemma SameLimits(t: Tree, next: Tree)
    requires WithinLimits(t) && SameTree(t.orgs, next.orgs)
    ensures WithinLimits(next)
  {
    forall d | 0 <= d < |next.orgs| && next.orgs[d].parent.Some? ensures Fits(next.orgs, Height(next.orgs, d), d) {
      SameHeight(t.orgs, next.orgs, d);
      SameAncestors(t.orgs, next.orgs, d, Height(t.orgs, d));
      assert Fits(t.orgs, Height(t.orgs, d), d);
    }
  }

  lemma StepKeepsLimits(t: Tree, next: Tree)
    requires TreeOk(t) && WithinLimits(t) && TreeStep(t, next, true)
    ensures WithinLimits(next)
  {
    hide WithinLimits, TreeOk, AddChild, AddRoot, DepthAllowed;
    if next == t {
    } else if credit: nat :| next == AddRoot(t, credit, DEFAULT_DEPTH) {
      RootWithinLimits(t, credit, DEFAULT_DEPTH);
    } else if parent: nat, credit: int, price: int :|
        parent < |t.orgs| && DepthAllowed(t, parent) && next == AddChild(t, parent, credit, DEFAULT_DEPTH, price) {
      ChildWithinLimits(t, parent, credit, DEFAULT_DEPTH, price);
    } else {
      SameLimits(t, next);
    }
  }

  /** Without the one creator that skips the check, nobody ever sits deeper than the limit of the top of its branch. */
  lemma {:induction false} CheckedRunsStayShallow(acts: seq<Act>)
    requires forall i :: 0 <= i < |acts| && acts[i].CreateChild? ==> acts[i].checked
    ensures WithinLimits(After(acts).shop.tree)
  {
    hide Step, WithinLimits, TreeStep;
    if acts == [] {
      assert WithinLimits(Tree([], [], map[])) by { NobodyIsDeep(); }
    } else {
      var n := |acts| - 1;
      assert forall i :: 0 <= i < |acts[..n]| ==> acts[..n][i] == acts[i];
      CheckedRunsStayShallow(acts[..n]);
      AlwaysOk(acts[..n]);
      TreeSteps(After(acts[..n]), acts[n]);
      StepKeepsLimits(After(acts[..n]).shop.tree, After(acts).shop.tree);
    }
  }

  lemma NobodyIsDeep()
    ensures WithinLimits(Tree([], [], map[]))
  {}
}
