/**
 The kernel as it is written: rows of a database session updated in place, with commit and
 rollback (src/control_plane/app.py:245-352, api.py:36-102, worker.py:11-27). Every method is
 proved equal to the function that the other modules reason about.
 */
module Sessions {
  import opened Options
  import L = Ledger
  import P = Pricing
  import R = Resellers
  import S = Settlement
  import M = Metering

  function Prepend(out: seq<P.Edge>, rest: R.Chain): R.Chain {
    match rest
    case Broken(e) => R.Broken(e)
    case Chain(es) => R.Chain(out + es)
  }

  class Session {
    var accounts: map<L.Owner, int>
    var journal: seq<L.Tx>
    var orgs: seq<L.Organization>
    var closure: seq<R.ClosureRow>
    var contracts: map<nat, R.Contract>
    var bindings: map<nat, M.Binding>
    var coefs: map<nat, int>
    var meters: map<nat, M.Meter>
    /** What the database holds if this session rolls back. */
    var committed: M.Shop

    function Books(): L.Books
      reads this
    {
      L.Books(accounts, journal)
    }

    function Tree(): R.Tree
      reads this
    {
      R.Tree(orgs, closure, contracts)
    }

    function Now(): M.Shop
      reads this
    {
      M.Shop(Books(), Tree(), bindings, coefs, meters)
    }

    constructor (s: M.Shop)
      ensures Now() == committed == s
    {
      accounts, journal := s.books.accounts, s.books.journal;
      orgs, closure, contracts := s.tree.orgs, s.tree.closure, s.tree.contracts;
      bindings, coefs, meters := s.bindings, s.coefs, s.meters;
      committed := s;
    }

    method Commit()
      modifies this
      ensures Now() == committed == old(Now())
    {
      committed := Now();
    }

    method Rollback()
      modifies this
      ensures Now() == committed == old(committed)
    {
      accounts, journal := committed.books.accounts, committed.books.journal;
      orgs, closure, contracts := committed.tree.orgs, committed.tree.closure, committed.tree.contracts;
      bindings, coefs, meters := committed.bindings, committed.coefs, committed.meters;
    }

    // ---- the ledger ----

    method Account(o: L.Owner)
      modifies this`accounts
      ensures accounts == L.Open(old(accounts), o)
    {
      if o !in accounts {
        accounts := accounts[o := 0];
      }
    }

    /** Two relative updates, so that no balance is ever written from a value read before, and the journal row. */
    method Post(source: L.Owner, target: L.Owner, amount: int, key: L.Key)
      requires source in accounts && target in accounts
      modifies this`accounts, this`journal
      ensures Books() == L.Post(old(Books()), source, target, amount, key)
    {
      accounts := accounts[source := accounts[source] - amount];
      accounts := accounts[target := accounts[target] + amount];
      journal := journal + [L.TransferTx(source, target, amount, key)];
    }

    method Transfer(source: L.Owner, target: L.Owner, amount: int, key: L.Key, enforce: bool) returns (r: L.Outcome)
      modifies this`accounts, this`journal
      ensures (Books(), r) == L.Transfer(old(Books()), orgs, source, target, amount, key, enforce)
    {
      hide L.Has;
      if amount <= 0 {
        return L.Refused(L.NotPositive);
      }
      if L.Has(journal, key) {
        return L.Replayed;
      }
      Account(source);
      Account(target);
      ghost var ready := L.OpenBoth(old(Books()), source, target);
      assert Books() == ready;
      var balance := accounts[source];
      if enforce && source != L.System {
        if source.id >= |orgs| {
          return L.Refused(L.NoPayer);
        }
        var org := orgs[source.id];
        if !org.active {
          return L.Refused(L.PayerSuspended);
        }
        if balance + org.credit < amount {
          return L.Refused(L.NoCredit);
        }
      }
      Post(source, target, amount, key);
      r := L.Posted;
    }

    // ---- the tree ----

    method EdgesOf(d: nat) returns (r: R.Chain)
      ensures r == R.Edges(Tree(), d)
    {
      var out: seq<P.Edge>, cur: nat, seen: set<nat> := [], d, {};
      while cur < |orgs| && orgs[cur].parent.Some?
        invariant Prepend(out, R.EdgesFrom(Tree(), cur, seen)) == R.Edges(Tree(), d)
        decreases R.Below(|orgs|) - seen
      {
        if cur in seen {
          return R.Broken(R.HierarchyCycle);
        }
        if cur !in contracts || !contracts[cur].active {
          return R.Broken(R.ContractMissing);
        }
        var edge := P.Edge(cur, orgs[cur].parent.value, contracts[cur].price);
        ghost var rest := R.EdgesFrom(Tree(), edge.parent, seen + {cur});
        assert rest.Chain? ==> out + ([edge] + rest.edges) == (out + [edge]) + rest.edges;
        assert cur in R.Below(|orgs|) - seen;
        seen := seen + {cur};
        out := out + [edge];
        cur := edge.parent;
      }
      assert out + [] == out;
      r := R.Chain(out);
    }

    method CreateRoot(credit: int, maxDepth: int) returns (id: nat)
      modifies this`accounts, this`orgs, this`closure
      ensures id == |old(orgs)| && Tree() == R.AddRoot(old(Tree()), credit, maxDepth)
      ensures accounts == L.Open(old(accounts), L.Org(id))
    {
      id := |orgs|;
      orgs := orgs + [L.Organization(None, true, credit, maxDepth)];
      closure := closure + [R.ClosureRow(id, id, 0)];
      Account(L.Org(id));
    }

    /** The five creators share these statements; all but the bot make the depth check. */
    method CreateChild(parent: nat, credit: int, maxDepth: int, price: int, checked: bool) returns (id: Option<nat>)
      requires parent < |orgs|
      modifies this`accounts, this`orgs, this`closure, this`contracts
      ensures id == if checked && !R.DepthAllowed(old(Tree()), parent) then None else Some(|old(orgs)|)
      ensures Tree() == if id == None then old(Tree()) else R.AddChild(old(Tree()), parent, credit, maxDepth, price)
      ensures accounts == if id == None then old(accounts) else L.Open(old(accounts), L.Org(id.value))
    {
      if checked && !R.DepthAllowed(Tree(), parent) {
        return None;
      }
      var child, before := |orgs|, closure;
      orgs := orgs + [L.Organization(Some(parent), true, credit, maxDepth)];
      closure := closure + [R.ClosureRow(child, child, 0)];
      for k := 0 to |before|
        invariant closure == before + [R.ClosureRow(child, child, 0)] + R.CopiedRows(before[..k], parent, child)
        invariant orgs == old(orgs) + [L.Organization(Some(parent), true, credit, maxDepth)]
        invariant accounts == old(accounts) && contracts == old(contracts)
      {
        assert before[..k + 1][..k] == before[..k];
        if before[k].descendant == parent {
          closure := closure + [R.ClosureRow(before[k].ancestor, child, before[k].depth + 1)];
        }
      }
      assert before[..|before|] == before;
      contracts := contracts[child := R.Contract(parent, price, true)];
      Account(L.Org(child));
      id := Some(child);
    }

    // ---- metering ----

    method Note(b: nat, checkpoint: M.Checkpoint, rows: seq<M.UsageRow>)
      modifies this`meters
      ensures meters == old(meters)[b := M.Meter(Some(checkpoint), M.MeterOf(old(Now()), b).rows + rows)]
    {
      meters := meters[b := M.Meter(Some(checkpoint), M.MeterOf(Now(), b).rows + rows)];
    }

    /** The transfer loop of one reading. */
    method PayChain(b: nat, from: int, to: int, rows: seq<P.Charge>) returns (how: S.Settling)
      modifies this`accounts, this`journal
      ensures (Books(), how) == S.Settle(old(Books()), orgs, b, from, to, rows, 0)
    {
      var pending, k := 0, 0;
      while k < |rows|
        invariant 0 <= k <= |rows|
        invariant S.Settle(Books(), orgs, b, from, to, rows[k..], pending) == S.Settle(old(Books()), orgs, b, from, to, rows, 0)
      {
        var c := rows[k];
        assert rows[k..][0] == c && rows[k..][1..] == rows[k + 1..];
        var outcome := Transfer(L.Org(c.child), L.Org(c.parent), c.amount, S.ChargeKey(b, from, to, c), true);
        if outcome == L.Refused(L.NoCredit) {
          return S.Short(pending);
        }
        if outcome.Refused? {
          return S.Stopped(outcome.why);
        }
        pending := pending + c.amount;
        k := k + 1;
      }
      how := S.Paid;
    }

    method Observe(b: nat, x: nat) returns (o: M.Observation)
      modifies this`accounts, this`journal, this`meters
      ensures (Now(), o) == M.Observe(old(Now()), b, x)
    {
      if b !in bindings {
        return M.Failed(M.NoBinding);
      }
      var binding, m := bindings[b], M.MeterOf(Now(), b);
      if m.checkpoint == None {
        Note(b, M.Checkpoint(x, 0), [M.UsageRow(M.Baseline, x, 0)]);
        return M.Settled([]);
      }
      var cp := m.checkpoint.value;
      if x < cp.lifetime {
        if cp.anomalies + 1 >= M.RESET_CONFIRM_READINGS {
          Note(b, M.Checkpoint(x, 0), [M.UsageRow(M.Regression, x, 0), M.UsageRow(M.ResetBaseline, x, 0)]);
          assert m.rows + [M.UsageRow(M.Regression, x, 0), M.UsageRow(M.ResetBaseline, x, 0)]
              == m.rows + [M.UsageRow(M.Regression, x, 0)] + [M.UsageRow(M.ResetBaseline, x, 0)];
        } else {
          Note(b, M.Checkpoint(cp.lifetime, cp.anomalies + 1), [M.UsageRow(M.Regression, x, 0)]);
        }
        return M.Settled([]);
      }
      var delta := x - cp.lifetime;
      var chain := EdgesOf(binding.org);
      if chain.Broken? {
        return M.Failed(M.BrokenChain(chain.error));
      }
      var rows := P.Cascade(delta, chain.edges, M.Coefficient(coefs, binding.panel));
      if rows.Err? {
        return M.Failed(M.BadPrice(rows.error));
      }
      var how := PayChain(b, cp.lifetime, x, rows.value);
      match how {
        case Short(pending) => return M.Hold(pending);
        case Stopped(why) => return M.Failed(M.Declined(why));
        case Paid =>
      }
      Note(b, M.Checkpoint(x, 0), [M.UsageRow(M.Accepted, x, delta)]);
      o := M.Settled(rows.value);
    }

    // ---- the ways in ----

    method Usage(b: nat, x: nat) returns (o: M.Observation)
      requires Now() == committed
      modifies this
      ensures Now() == committed == M.UsageOnce(old(Now()), b, x) && o == M.Observe(old(Now()), b, x).1
    {
      o := Observe(b, x);
      if o.Settled? {
        Commit();
      } else {
        Rollback();
      }
    }

    method Poll(readings: seq<(nat, nat)>)
      requires Now() == committed
      modifies this
      ensures Now() == committed == M.Polled(old(Now()), readings)
    {
      for k := 0 to |readings|
        invariant Now() == committed && M.Polled(Now(), readings[k..]) == M.Polled(old(Now()), readings)
      {
        assert readings[k..][0] == readings[k] && readings[k..][1..] == readings[k + 1..];
        var _ := Usage(readings[k].0, readings[k].1);
      }
    }

    /** A hold is counted and the loop goes on; anything else that fails ends the request uncommitted. */
    method UsageBatch(items: seq<(nat, nat)>) returns (done: bool, results: nat, holds: nat)
      requires Now() == committed
      modifies this
      ensures done == M.Batch(old(Now()), items).Some?
      ensures Now() == committed == if done then M.Batch(old(Now()), items).value else old(Now())
      ensures done ==> results == M.SettledItems(old(Now()), items) && holds == M.HeldItems(old(Now()), items)
    {
      results, holds, done := 0, 0, true;
      var unsent: set<nat> := {};
      for k := 0 to |items|
        invariant committed == old(Now()) && Now() == M.AfterItems(committed, items[..k])
        invariant results == M.SettledItems(committed, items[..k]) && holds == M.HeldItems(committed, items[..k])
        invariant M.BatchFrom(Now(), items[k..], unsent) == M.Batch(committed, items)
      {
        assert items[k..][0] == items[k] && items[k..][1..] == items[k + 1..];
        assert items[..k + 1][..k] == items[..k];
        var inserted := items[k].0 in unsent;
        unsent := M.Unsent(Now(), items[k].0, items[k].1, unsent);
        var o := Observe(items[k].0, items[k].1);
        if inserted {
          Rollback();
          done := false;
          return;
        }
        match o {
          case Settled(_) => results := results + 1;
          case Hold(_) => holds := holds + 1;
          case Failed(_) =>
            Rollback();
            done := false;
            return;
        }
      }
      assert items[..|items|] == items;
      Commit();
    }

    method Fund(org: nat, amount: int, text: string) returns (r: Option<L.Outcome>)
      requires Now() == committed
      modifies this
      ensures r == if org >= |old(orgs)| then None
                   else Some(L.Transfer(old(Books()), old(orgs), L.System, L.Org(org), amount, L.ExternalKey(text), false).1)
      ensures Now() == committed
      ensures Now() == if r.Some? && !r.value.Refused?
                       then old(Now()).(books := L.Transfer(old(Books()), old(orgs), L.System, L.Org(org), amount,
                                                            L.ExternalKey(text), false).0)
                       else old(Now())
    {
      if org >= |orgs| {
        return None;
      }
      var outcome := Transfer(L.System, L.Org(org), amount, L.ExternalKey(text), false);
      if outcome.Refused? {
        Rollback();
      } else {
        Commit();
      }
      r := Some(outcome);
    }
  }
}
