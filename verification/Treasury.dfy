/**
 What every request of the desk keeps: exact and covered books, one transfer per decided funding
 request, correction and order, and the account of every rial that left SYSTEM.
 */
module Treasury {
  import opened Ledger
  import opened Pricing
  import opened Resellers
  import opened Settlement
  import opened Desk
  import M = Metering
  import E = Epochs

  // ---- the shop ----

  /** Only SYSTEM and organizations have accounts, and every organization has one. */
  ghost predicate AccountsOk(accounts: map<Owner, int>, n: nat) {
    && (forall o :: o in accounts ==> o == System || o.id < n)
    && (forall id :: 0 <= id < n ==> Org(id) in accounts)
  }

  ghost predicate CreditsOk(orgs: seq<Organization>) {
    forall id :: 0 <= id < |orgs| ==> orgs[id].credit >= 0
  }

  ghost predicate MetersOk(s: M.Shop) {
    && (forall b :: b in s.bindings ==> s.bindings[b].org < |s.tree.orgs|)
    && (forall b: nat :: M.MeterOk(M.MeterOf(s, b)))
  }

  ghost predicate ShopOk(s: M.Shop) {
    && Consistent(s.books) && Covered(s.books, s.tree.orgs) && TreeOk(s.tree)
    && AccountsOk(s.books.accounts, |s.tree.orgs|) && CreditsOk(s.tree.orgs) && MetersOk(s)
  }

  predicate Known(o: Owner, n: nat) {
    o == System || o.id < n
  }

  lemma TransferKeepsShop(s: M.Shop, source: Owner, target: Owner, amount: int, key: Key, enforce: bool)
    requires ShopOk(s) && Known(source, |s.tree.orgs|) && Known(target, |s.tree.orgs|) && (enforce || source == System)
    ensures ShopOk(s.(books := Transfer(s.books, s.tree.orgs, source, target, amount, key, enforce).0))
  {
    TransferKeepsBooks(s.books, s.tree.orgs, source, target, amount, key, enforce);
    TransferKeepsCover(s.books, s.tree.orgs, source, target, amount, key, enforce);
    var after := s.(books := Transfer(s.books, s.tree.orgs, source, target, amount, key, enforce).0);
    TransferAccounts(s.books, s.tree.orgs, source, target, amount, key, enforce);
    SameMeters(s, after);
  }

  lemma SameMeters(s: M.Shop, after: M.Shop)
    requires MetersOk(s) && after.meters == s.meters && after.bindings == s.bindings && |s.tree.orgs| <= |after.tree.orgs|
    ensures MetersOk(after)
  {
    forall b: nat ensures M.MeterOf(after, b) == M.MeterOf(s, b) {}
  }

  lemma TransferAccounts(b: Books, orgs: seq<Organization>, source: Owner, target: Owner, amount: int, key: Key, enforce: bool)
    requires AccountsOk(b.accounts, |orgs|) && Known(source, |orgs|) && Known(target, |orgs|)
    ensures AccountsOk(Transfer(b, orgs, source, target, amount, key, enforce).0.accounts, |orgs|)
  {}

  /** A chain of transfers between known organizations opens no account of a stranger. */
  lemma {:induction false} SettleAccounts(books: Books, orgs: seq<Organization>, b: nat, from: int, to: int,
                                          rows: seq<Charge>, pending: int)
    requires AccountsOk(books.accounts, |orgs|)
    requires forall i :: 0 <= i < |rows| ==> rows[i].child < |orgs| && rows[i].parent < |orgs|
    ensures AccountsOk(Settle(books, orgs, b, from, to, rows, pending).0.accounts, |orgs|)
    decreases |rows|
  {
    hide AccountsOk, Transfer;
    if rows != [] {
      var c := rows[0];
      assert c.child < |orgs| && c.parent < |orgs|;
      TransferAccounts(books, orgs, Org(c.child), Org(c.parent), c.amount, ChargeKey(b, from, to, c), true);
      var (after, outcome) := Transfer(books, orgs, Org(c.child), Org(c.parent), c.amount, ChargeKey(b, from, to, c), true);
      if !outcome.Refused? {
        SettleAccounts(after, orgs, b, from, to, rows[1..], pending + c.amount);
      }
    }
  }

  /** The charges of a plan name known organizations. */
  lemma PlanKnown(s: M.Shop, b: nat, delta: int, charges: seq<Charge>)
    requires E.Bound(s, b) && M.PlanFor(s, s.bindings[b], delta) == M.Planned(charges)
    ensures forall i :: 0 <= i < |charges| ==> charges[i].child < |s.tree.orgs| && charges[i].parent < |s.tree.orgs|
  {
    ChainLinks(s.tree, s.bindings[b].org);
    E.PlanLinks(s, b, delta, charges);
    forall i | 0 <= i < |charges| ensures charges[i].child < |s.tree.orgs| && charges[i].parent < |s.tree.orgs| {
      assert charges[i].parent < charges[i].child == E.ChainOf(s, b)[i].child;
    }
  }

  /** The next shop differs from `s` by readings only: usage charges, meters, and nothing else. */
  ghost predicate ByReadings(s: M.Shop, after: M.Shop) {
    && ShopOk(after) && OnlyUsage(s.books, after.books, s.tree.orgs)
    && after.tree == s.tree && after.bindings == s.bindings && after.coefs == s.coefs
  }

  lemma ReadingsBooks(s: M.Shop, b: nat, x: nat)
    requires ShopOk(s) && b in s.bindings && M.MeterOf(s, b).checkpoint.Some? && x >= M.MeterOf(s, b).checkpoint.value.lifetime
    ensures var after := M.Observe(s, b, x).0;
            && OnlyUsage(s.books, after.books, s.tree.orgs) && AccountsOk(after.books.accounts, |s.tree.orgs|)
            && after.tree == s.tree && after.bindings == s.bindings && after.coefs == s.coefs
  {
    hide OnlyUsage, Settle, M.PlanFor, AccountsOk, Covered, Consistent, TreeOk, M.MeterOk;
    var from := M.MeterOf(s, b).checkpoint.value.lifetime;
    var plan := M.PlanFor(s, s.bindings[b], x - from);
    NoReading(s.books, s.tree.orgs);
    if plan.Planned? {
      SettleKeepsBooks(s.books, s.tree.orgs, b, from, x, plan.charges, 0);
      PlanKnown(s, b, x - from, plan.charges);
      SettleAccounts(s.books, s.tree.orgs, b, from, x, plan.charges, 0);
    }
  }

  lemma NoReading(books: Books, orgs: seq<Organization>)
    requires Consistent(books) && Covered(books, orgs)
    ensures OnlyUsage(books, books, orgs)
  {}

  /** Whatever becomes of a reading, kept or not, it changes the shop by usage charges and meters only. */
  lemma ObserveKeepsShop(s: M.Shop, b: nat, x: nat)
    requires ShopOk(s)
    ensures ByReadings(s, M.Observe(s, b, x).0)
  {
    var after := M.Observe(s, b, x).0;
    NoReading(s.books, s.tree.orgs);
    if b in s.bindings && M.MeterOf(s, b).checkpoint.Some? && x >= M.MeterOf(s, b).checkpoint.value.lifetime {
      ReadingsBooks(s, b, x);
    }
    ReadingMeters(s, b, x);
  }

  lemma ReadingMeters(s: M.Shop, b: nat, x: nat)
    requires MetersOk(s)
    ensures MetersOk(M.Observe(s, b, x).0)
  {
    hide M.MeterOk, Settle, M.PlanFor, M.Regress, M.Accept;
    M.ObserveKeepsMeter(s, b, x);
    var after := M.Observe(s, b, x).0;
    forall c: nat | c != b ensures M.MeterOf(after, c) == M.MeterOf(s, c) {}
  }

  lemma JoinReadings(s: M.Shop, mid: M.Shop, after: M.Shop)
    requires ByReadings(s, mid) && ByReadings(mid, after)
    ensures ByReadings(s, after)
  {
    OnlyUsageJoins(s.books, mid.books, after.books, s.tree.orgs);
  }

  /** A batch too, with everything it keeps of settlements that were interrupted. */
  lemma {:induction false} BatchKeepsShop(s: M.Shop, items: seq<(nat, nat)>, unsent: set<nat>)
    requires ShopOk(s)
    ensures M.BatchFrom(s, items, unsent).Some? ==> ByReadings(s, M.BatchFrom(s, items, unsent).value)
    decreases |items|
  {
    if items == [] {
      NoReading(s.books, s.tree.orgs);
    } else {
      hide M.Observe, M.Unsent, ShopOk, OnlyUsage;
      var (after, o) := M.Observe(s, items[0].0, items[0].1);
      ObserveKeepsShop(s, items[0].0, items[0].1);
      if M.BatchFrom(s, items, unsent).Some? {
        assert ShopOk(after);
        BatchKeepsShop(after, items[1..], M.Unsent(s, items[0].0, items[0].1, unsent));
        JoinReadings(s, after, M.BatchFrom(s, items, unsent).value);
      }
    }
  }

  /** Usage moves nothing in or out of the organizations as a whole. */
  lemma UsageConserves(s: M.Shop, after: M.Shop)
    requires ShopOk(s) && ByReadings(s, after)
    ensures HeldByOrganizations(after.books) == HeldByOrganizations(s.books)
  {
    ZeroSum(s.books);
    ZeroSum(after.books);
  }

  /** A new organization starts with an account of its own at zero. */
  lemma GrownKeepsShop(w: World, tree: Tree)
    requires ShopOk(w.shop) && TreeOk(tree) && |tree.orgs| == |w.shop.tree.orgs| + 1
    requires tree.orgs[..|w.shop.tree.orgs|] == w.shop.tree.orgs && tree.orgs[|w.shop.tree.orgs|].credit >= 0
    ensures ShopOk(Grown(w, tree).shop)
    ensures forall o :: Balance(Grown(w, tree).shop.books, o) == Balance(w.shop.books, o)
    ensures Grown(w, tree).shop.books.journal == w.shop.books.journal
  {
    var n := |w.shop.tree.orgs|;
    var after := Grown(w, tree).shop;
    OpenKeeps(w.shop.books, Org(n), Org(n));
    assert after.books == OpenBoth(w.shop.books, Org(n), Org(n));
    assert Org(n) !in w.shop.books.accounts;
    SameMeters(w.shop, after);
    forall id | 0 <= id < |tree.orgs| ensures Balance(after.books, Org(id)) + tree.orgs[id].credit >= 0 {
      if id < n { assert tree.orgs[id] == w.shop.tree.orgs[id]; }
    }
    forall id | 0 <= id < |tree.orgs| ensures tree.orgs[id].credit >= 0 {
      if id < n { assert tree.orgs[id] == w.shop.tree.orgs[id]; }
    }
  }
}
