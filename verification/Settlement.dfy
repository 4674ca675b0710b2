/**
 Settling usage up the reseller chain (src/control_plane/app.py, `observe`; the entry points in
 src/control_plane/api.py and worker.py): one reading of a panel counter, compared with the
 checkpoint of its binding, priced per level and paid by a chain of transfers.
 */
module Settlement {
  import opened Options
  import opened Ledger
  import opened Pricing

  // ---- the chain of transfers ----

  function ChargeKey(b: nat, from: int, to: int, c: Charge): Key {
    UsageKey(b, from, to, c.child)
  }

  function ChargeTx(b: nat, from: int, to: int, c: Charge): Tx {
    TransferTx(Org(c.child), Org(c.parent), c.amount, ChargeKey(b, from, to, c))
  }

  /** How a chain of transfers ended; `Short` carries what the levels before had already paid. */
  datatype Settling = Paid | Short(pending: int) | Stopped(why: Refusal)

  /** The transfer loop of observe. It leaves the levels it has finished in the books. */
  function Settle(books: Books, orgs: seq<Organization>, b: nat, from: int, to: int, rows: seq<Charge>, pending: int)
    : (Books, Settling)
    decreases |rows|
  {
    if rows == [] then (books, Paid)
    else
      var c := rows[0];
      var (after, outcome) := Transfer(books, orgs, Org(c.child), Org(c.parent), c.amount, ChargeKey(b, from, to, c), true);
      if outcome == Refused(NoCredit) then (after, Short(pending))
      else if outcome.Refused? then (after, Stopped(outcome.why))
      else Settle(after, orgs, b, from, to, rows[1..], pending + c.amount)
  }

  /** Each level pays the next one, and nobody appears twice. */
  ghost predicate Linked(rows: seq<Charge>) {
    && (forall i :: 0 <= i < |rows| - 1 ==> rows[i].parent == rows[i + 1].child)
    && (forall i :: 0 <= i < |rows| ==> rows[i].parent < rows[i].child)
    && (forall i, j :: 0 <= i < j < |rows| ==> rows[j].child < rows[i].child)
  }

  ghost predicate FreshKeys(journal: seq<Tx>, b: nat, from: int, to: int, rows: seq<Charge>) {
    forall i :: 0 <= i < |rows| ==> !Has(journal, ChargeKey(b, from, to, rows[i]))
  }

  function Received(rows: seq<Charge>, i: nat): int
    requires i < |rows|
  {
    if i == 0 then 0 else rows[i - 1].amount
  }

  /** Level i exists, is active, owes at least one rial, and can pay with what it has just been paid. */
  ghost predicate LevelPays(books: Books, orgs: seq<Organization>, rows: seq<Charge>, i: nat)
    requires i < |rows|
  {
    var c := rows[i];
    && c.amount >= 1 && c.child < |orgs| && orgs[c.child].active
    && Balance(books, Org(c.child)) + orgs[c.child].credit + Received(rows, i) >= c.amount
  }

  lemma LinkedRest(rows: seq<Charge>)
    requires Linked(rows) && rows != []
    ensures Linked(rows[1..])
  {
    forall i | 0 <= i < |rows| - 2 ensures rows[1..][i].parent == rows[1..][i + 1].child {
      assert rows[i + 1].parent == rows[i + 2].child;
    }
  }

  /** The first transfer leaves the keys of the rest fresh and pays the next level what it receives. */
  lemma FirstTransfer(books: Books, orgs: seq<Organization>, b: nat, from: int, to: int, rows: seq<Charge>, after: Books)
    requires Linked(rows) && rows != [] && FreshKeys(books.journal, b, from, to, rows)
    requires Transfer(books, orgs, Org(rows[0].child), Org(rows[0].parent), rows[0].amount,
                      ChargeKey(b, from, to, rows[0]), true) == (after, Posted)
    ensures FreshKeys(after.journal, b, from, to, rows[1..])
    ensures forall i :: 0 <= i < |rows| - 1 ==> (LevelPays(after, orgs, rows[1..], i) <==> LevelPays(books, orgs, rows, i + 1))
  {
    TransferEffect(books, orgs, Org(rows[0].child), Org(rows[0].parent), rows[0].amount, ChargeKey(b, from, to, rows[0]), true);
    forall i | 0 <= i < |rows| - 1 ensures !Has(after.journal, ChargeKey(b, from, to, rows[1..][i])) {
      var key := ChargeKey(b, from, to, rows[i + 1]);
      assert !Has(books.journal, key);
      assert key != ChargeKey(b, from, to, rows[0]);
    }
    forall i | 0 <= i < |rows| - 1 ensures LevelPays(after, orgs, rows[1..], i) <==> LevelPays(books, orgs, rows, i + 1) {
      assert rows[0].parent == rows[1].child;
      if i > 0 { assert rows[i + 1].child < rows[1].child; }
    }
  }

  lemma FirstPays(books: Books, orgs: seq<Organization>, b: nat, from: int, to: int, rows: seq<Charge>)
    requires rows != [] && FreshKeys(books.journal, b, from, to, rows)
    ensures var c := rows[0];
            var outcome := Transfer(books, orgs, Org(c.child), Org(c.parent), c.amount, ChargeKey(b, from, to, c), true).1;
            (outcome == Posted <==> LevelPays(books, orgs, rows, 0)) && outcome != Replayed
  {
    assert !Has(books.journal, ChargeKey(b, from, to, rows[0]));
  }

  /**
   With fresh keys the chain settles if and only if every level is active, owes at least one
   rial, and its balance, credit and what it has just received cover what it owes.
   */
  lemma {:induction false} SettlesIff(books: Books, orgs: seq<Organization>, b: nat, from: int, to: int,
                                      rows: seq<Charge>, pending: int)
    requires Linked(rows) && FreshKeys(books.journal, b, from, to, rows)
    ensures Settle(books, orgs, b, from, to, rows, pending).1 == Paid
       <==> forall i :: 0 <= i < |rows| ==> LevelPays(books, orgs, rows, i)
    decreases |rows|
  {
    hide Transfer, LevelPays, Linked, FreshKeys;
    if rows != [] {
      var c := rows[0];
      FirstPays(books, orgs, b, from, to, rows);
      var (after, outcome) := Transfer(books, orgs, Org(c.child), Org(c.parent), c.amount, ChargeKey(b, from, to, c), true);
      if outcome == Posted {
        LinkedRest(rows);
        FirstTransfer(books, orgs, b, from, to, rows, after);
        SettlesIff(after, orgs, b, from, to, rows[1..], pending + c.amount);
        if Settle(books, orgs, b, from, to, rows, pending).1 == Paid {
          forall i | 0 <= i < |rows| ensures LevelPays(books, orgs, rows, i) {
            if i > 0 { assert LevelPays(after, orgs, rows[1..], i - 1); }
          }
        } else {
          var i :| 0 <= i < |rows| - 1 && !LevelPays(after, orgs, rows[1..], i);
          assert !LevelPays(books, orgs, rows, i + 1);
        }
      }
    }
  }

  /** What a settled chain moves: an account gains from the level it is paid by and loses what it pays. */
  function Moved(rows: seq<Charge>, o: Owner): int {
    if rows == [] then 0
    else
      var c := rows[0];
      Moved(rows[1..], o) + (if o == Org(c.parent) then c.amount else 0) - (if o == Org(c.child) then c.amount else 0)
  }

  function ChargeTxs(b: nat, from: int, to: int, rows: seq<Charge>): seq<Tx> {
    if rows == [] then [] else [ChargeTx(b, from, to, rows[0])] + ChargeTxs(b, from, to, rows[1..])
  }

  /** The charges of `rows` that the journal does not have yet, in order. */
  function MissingTxs(journal: seq<Tx>, b: nat, from: int, to: int, rows: seq<Charge>): seq<Tx> {
    if rows == [] then []
    else
      (if Has(journal, ChargeKey(b, from, to, rows[0])) then [] else [ChargeTx(b, from, to, rows[0])])
      + MissingTxs(journal, b, from, to, rows[1..])
  }

  /** How many levels the loop finished. */
  function Finished(books: Books, orgs: seq<Organization>, b: nat, from: int, to: int, rows: seq<Charge>): (n: nat)
    ensures n <= |rows|
    decreases |rows|
  {
    if rows == [] then 0
    else
      var c := rows[0];
      var (after, outcome) := Transfer(books, orgs, Org(c.child), Org(c.parent), c.amount, ChargeKey(b, from, to, c), true);
      if outcome.Refused? then 0 else 1 + Finished(after, orgs, b, from, to, rows[1..])
  }

  lemma {:induction false} MissingAfter(journal: seq<Tx>, t: Tx, b: nat, from: int, to: int, rows: seq<Charge>)
    requires forall i :: 0 <= i < |rows| ==> ChargeKey(b, from, to, rows[i]) != t.key
    ensures MissingTxs(journal + [t], b, from, to, rows) == MissingTxs(journal, b, from, to, rows)
  {
    if rows != [] {
      var key := ChargeKey(b, from, to, rows[0]);
      assert Has(journal + [t], key) <==> Has(journal, key) by {
        assert forall i :: 0 <= i < |journal| ==> (journal + [t])[i] == journal[i];
      }
      assert forall i :: 0 <= i < |rows[1..]| ==> rows[1..][i] == rows[i + 1];
      MissingAfter(journal, t, b, from, to, rows[1..]);
    }
  }

  lemma MissingStep(journal: seq<Tx>, b: nat, from: int, to: int, rows: seq<Charge>, n: nat)
    requires n < |rows|
    ensures MissingTxs(journal, b, from, to, rows[..n + 1])
         == (if Has(journal, ChargeKey(b, from, to, rows[0])) then [] else [ChargeTx(b, from, to, rows[0])])
            + MissingTxs(journal, b, from, to, rows[1..][..n])
  {
    assert rows[..n + 1][0] == rows[0] && rows[..n + 1][1..] == rows[1..][..n];
  }

  lemma PostedStep(books: Books, after: Books, orgs: seq<Organization>, b: nat, from: int, to: int, rows: seq<Charge>, n: nat)
    requires Linked(rows) && n < |rows|
    requires var o := Transfer(books, orgs, Org(rows[0].child), Org(rows[0].parent), rows[0].amount,
                               ChargeKey(b, from, to, rows[0]), true);
             o.0 == after && !o.1.Refused?
    ensures after.journal + MissingTxs(after.journal, b, from, to, rows[1..][..n])
         == books.journal + MissingTxs(books.journal, b, from, to, rows[..n + 1])
  {
    var rest, key := rows[1..][..n], ChargeKey(b, from, to, rows[0]);
    TransferEffect(books, orgs, Org(rows[0].child), Org(rows[0].parent), rows[0].amount, key, true);
    MissingStep(books.journal, b, from, to, rows, n);
    if !Has(books.journal, key) {
      forall i | 0 <= i < n ensures ChargeKey(b, from, to, rest[i]) != key {
        assert rest[i] == rows[i + 1];
      }
      MissingAfter(books.journal, ChargeTx(b, from, to, rows[0]), b, from, to, rest);
    }
  }

  /** The loop adds exactly the charges the journal misses, for the levels it finished. */
  lemma {:induction false} SettleJournal(books: Books, orgs: seq<Organization>, b: nat, from: int, to: int,
                                         rows: seq<Charge>, pending: int)
    requires Linked(rows)
    ensures var n := Finished(books, orgs, b, from, to, rows);
            var (after, how) := Settle(books, orgs, b, from, to, rows, pending);
            && after.journal == books.journal + MissingTxs(books.journal, b, from, to, rows[..n])
            && (how == Paid <==> n == |rows|)
    decreases |rows|
  {
    if rows != [] {
      var c := rows[0];
      var key := ChargeKey(b, from, to, c);
      var (after, outcome) := Transfer(books, orgs, Org(c.child), Org(c.parent), c.amount, key, true);
      if !outcome.Refused? {
        LinkedRest(rows);
        SettleJournal(after, orgs, b, from, to, rows[1..], pending + c.amount);
        PostedStep(books, after, orgs, b, from, to, rows, Finished(after, orgs, b, from, to, rows[1..]));
      } else {
        assert rows[..0] == [];
      }
    }
  }

  lemma {:induction false} MissingOfFresh(journal: seq<Tx>, b: nat, from: int, to: int, rows: seq<Charge>)
    requires FreshKeys(journal, b, from, to, rows)
    ensures MissingTxs(journal, b, from, to, rows) == ChargeTxs(b, from, to, rows)
  {
    if rows != [] {
      assert !Has(journal, ChargeKey(b, from, to, rows[0]));
      assert forall i :: 0 <= i < |rows[1..]| ==> rows[1..][i] == rows[i + 1];
      MissingOfFresh(journal, b, from, to, rows[1..]);
    }
  }

  /** A settled chain with fresh keys moves exactly the charged amounts and files exactly its charges. */
  lemma {:induction false} SettleEffect(books: Books, orgs: seq<Organization>, b: nat, from: int, to: int,
                                        rows: seq<Charge>, pending: int)
    requires Linked(rows) && FreshKeys(books.journal, b, from, to, rows)
    requires Settle(books, orgs, b, from, to, rows, pending).1 == Paid
    ensures var after := Settle(books, orgs, b, from, to, rows, pending).0;
            && after.journal == books.journal + ChargeTxs(b, from, to, rows)
            && forall o :: Balance(after, o) == Balance(books, o) + Moved(rows, o)
    decreases |rows|
  {
    hide Transfer, Has, LevelPays, Linked, FreshKeys;
    if rows != [] {
      var c := rows[0];
      FirstPays(books, orgs, b, from, to, rows);
      var (after, outcome) := Transfer(books, orgs, Org(c.child), Org(c.parent), c.amount, ChargeKey(b, from, to, c), true);
      assert outcome == Posted;
      LinkedRest(rows);
      FirstTransfer(books, orgs, b, from, to, rows, after);
      TransferEffect(books, orgs, Org(c.child), Org(c.parent), c.amount, ChargeKey(b, from, to, c), true);
      SettleEffect(after, orgs, b, from, to, rows[1..], pending + c.amount);
    }
  }

  /** The first m charges are on file from an earlier attempt, the others are not. */
  ghost predicate Begun(journal: seq<Tx>, b: nat, from: int, to: int, rows: seq<Charge>, m: nat) {
    && m <= |rows|
    && forall i :: 0 <= i < |rows| ==> (Has(journal, ChargeKey(b, from, to, rows[i])) <==> i < m)
  }

  lemma BegunRest(journal: seq<Tx>, b: nat, from: int, to: int, rows: seq<Charge>, m: nat)
    requires Begun(journal, b, from, to, rows, m) && m > 0
    ensures Begun(journal, b, from, to, rows[1..], m - 1) && rows[1..][m - 1..] == rows[m..]
  {
    forall i | 0 <= i < |rows| - 1 ensures Has(journal, ChargeKey(b, from, to, rows[1..][i])) <==> i < m - 1 {
      assert rows[1..][i] == rows[i + 1];
    }
  }

  /** Trying again files exactly the levels that are not on file. */
  lemma {:induction false} MissingOfBegun(journal: seq<Tx>, b: nat, from: int, to: int, rows: seq<Charge>, m: nat)
    requires Begun(journal, b, from, to, rows, m)
    ensures MissingTxs(journal, b, from, to, rows) == ChargeTxs(b, from, to, rows[m..])
    decreases |rows|
  {
    if m == 0 {
      assert rows[0..] == rows;
      MissingOfFresh(journal, b, from, to, rows);
    } else {
      BegunRest(journal, b, from, to, rows, m);
      MissingOfBegun(journal, b, from, to, rows[1..], m - 1);
    }
  }

  lemma ReplayedLevel(books: Books, orgs: seq<Organization>, b: nat, from: int, to: int, c: Charge)
    requires Has(books.journal, ChargeKey(b, from, to, c))
    ensures Transfer(books, orgs, Org(c.child), Org(c.parent), c.amount, ChargeKey(b, from, to, c), true)
         == (books, if c.amount >= 1 then Replayed else Refused(NotPositive))
  {}

  /**
   A chain of which an earlier attempt has paid the first m levels settles if and only if those
   levels still owe something and the others, the first of them without a fresh receipt, can pay;
   then exactly the others are charged.
   */
  lemma {:induction false} ResumedSettlesIff(books: Books, orgs: seq<Organization>, b: nat, from: int, to: int,
                                             rows: seq<Charge>, pending: int, m: nat)
    requires Linked(rows) && Begun(books.journal, b, from, to, rows, m)
    ensures var (after, how) := Settle(books, orgs, b, from, to, rows, pending);
            && (how == Paid <==> (forall i :: 0 <= i < m ==> rows[i].amount >= 1)
                                 && forall i :: 0 <= i < |rows| - m ==> LevelPays(books, orgs, rows[m..], i))
            && (how == Paid ==> after.journal == books.journal + ChargeTxs(b, from, to, rows[m..])
                                && forall o :: Balance(after, o) == Balance(books, o) + Moved(rows[m..], o))
    decreases |rows|
  {
    hide LevelPays, Linked, Transfer, Has, Moved, ChargeTxs, Balance;
    if m == 0 {
      assert rows[0..] == rows;
      SettlesIff(books, orgs, b, from, to, rows, pending);
      if Settle(books, orgs, b, from, to, rows, pending).1 == Paid { SettleEffect(books, orgs, b, from, to, rows, pending); }
    } else {
      LinkedRest(rows);
      BegunRest(books.journal, b, from, to, rows, m);
      ReplayedLevel(books, orgs, b, from, to, rows[0]);
      ResumedSettlesIff(books, orgs, b, from, to, rows[1..], pending + rows[0].amount, m - 1);
      assert forall i :: 1 <= i < m ==> rows[i] == rows[1..][i - 1];
      assert forall i :: 0 <= i < m - 1 ==> rows[1..][i] == rows[i + 1];
    }
  }

  // ---- where a chain stops ----

  /** Why level i cannot pay with what it has and has just been paid, if anything. */
  function Hindrance(books: Books, orgs: seq<Organization>, rows: seq<Charge>, i: nat): Option<Refusal>
    requires i < |rows|
  {
    var c := rows[i];
    if c.amount < 1 then Some(NotPositive)
    else if c.child >= |orgs| then Some(NoPayer)
    else if !orgs[c.child].active then Some(PayerSuspended)
    else if Balance(books, Org(c.child)) + Received(rows, i) < c.amount - orgs[c.child].credit then Some(NoCredit)
    else None
  }

  function Total(rows: seq<Charge>): int {
    if rows == [] then 0 else rows[0].amount + Total(rows[1..])
  }

  /** How a chain ends at level n: short of credit, with what the levels before it add up to, or for another reason. */
  function StopsAt(why: Refusal, pending: int): Settling {
    if why == NoCredit then Short(pending) else Stopped(why)
  }

  lemma FirstHindrance(books: Books, orgs: seq<Organization>, b: nat, from: int, to: int, rows: seq<Charge>)
    requires rows != [] && !Has(books.journal, ChargeKey(b, from, to, rows[0]))
    ensures var c := rows[0];
            && Transfer(books, orgs, Org(c.child), Org(c.parent), c.amount, ChargeKey(b, from, to, c), true).1
                 == match Hindrance(books, orgs, rows, 0) case Some(why) => Refused(why) case None => Posted
  {
    hide Has;
  }

  lemma NextHindrances(books: Books, orgs: seq<Organization>, b: nat, from: int, to: int, rows: seq<Charge>, after: Books)
    requires Linked(rows) && rows != []
    requires Transfer(books, orgs, Org(rows[0].child), Org(rows[0].parent), rows[0].amount,
                      ChargeKey(b, from, to, rows[0]), true) == (after, Posted)
    ensures forall i :: 0 <= i < |rows| - 1 ==> Hindrance(after, orgs, rows[1..], i) == Hindrance(books, orgs, rows, i + 1)
  {
    TransferEffect(books, orgs, Org(rows[0].child), Org(rows[0].parent), rows[0].amount, ChargeKey(b, from, to, rows[0]), true);
    forall i | 0 <= i < |rows| - 1 ensures Hindrance(after, orgs, rows[1..], i) == Hindrance(books, orgs, rows, i + 1) {
      assert rows[0].parent == rows[1].child;
      if i > 0 { assert rows[i + 1].child < rows[1].child; }
    }
  }

  /** With fresh keys the chain pays up to the first level that is hindered, and ends for that reason. */
  lemma {:induction false} FreshStops(books: Books, orgs: seq<Organization>, b: nat, from: int, to: int,
                                      rows: seq<Charge>, pending: int)
    requires Linked(rows) && FreshKeys(books.journal, b, from, to, rows)
    ensures var how, n := Settle(books, orgs, b, from, to, rows, pending).1, Finished(books, orgs, b, from, to, rows);
            && (forall i :: 0 <= i < n ==> Hindrance(books, orgs, rows, i) == None)
            && (n == |rows| ==> how == Paid)
            && (n < |rows| ==>
                  && Hindrance(books, orgs, rows, n).Some?
                  && how == StopsAt(Hindrance(books, orgs, rows, n).value, pending + Total(rows[..n])))
    decreases |rows|
  {
    hide Transfer, Hindrance, Linked, FreshKeys, Total;
    if rows != [] {
      var c := rows[0];
      FreshFirst(books.journal, b, from, to, rows);
      FirstHindrance(books, orgs, b, from, to, rows);
      var (after, outcome) := Transfer(books, orgs, Org(c.child), Org(c.parent), c.amount, ChargeKey(b, from, to, c), true);
      if outcome == Posted {
        LinkedRest(rows);
        FirstTransfer(books, orgs, b, from, to, rows, after);
        NextHindrances(books, orgs, b, from, to, rows, after);
        FreshStops(after, orgs, b, from, to, rows[1..], pending + c.amount);
        var n := Finished(books, orgs, b, from, to, rows);
        TotalFirst(rows, n);
        forall i | 0 <= i < n ensures Hindrance(books, orgs, rows, i) == None {
          if i > 0 { assert Hindrance(after, orgs, rows[1..], i - 1) == None; }
        }
      } else {
        NoTotal(rows);
      }
    }
  }

  lemma FreshFirst(journal: seq<Tx>, b: nat, from: int, to: int, rows: seq<Charge>)
    requires rows != [] && FreshKeys(journal, b, from, to, rows)
    ensures !Has(journal, ChargeKey(b, from, to, rows[0]))
  {}

  lemma NoTotal(rows: seq<Charge>)
    ensures Total(rows[..0]) == 0
  {}

  lemma TotalFirst(rows: seq<Charge>, n: nat)
    requires 0 < n <= |rows|
    ensures Total(rows[..n]) == rows[0].amount + Total(rows[1..][..n - 1])
  {
    assert rows[..n][1..] == rows[1..][..n - 1];
  }

  /**
   A chain whose first m levels an earlier attempt has paid stops at the first of those that owes nothing, or
   at the first of the others that cannot pay. Short of credit is told apart from every other reason, and
   comes with the sum of all charges before it.
   */
  lemma {:induction false} SettleStops(books: Books, orgs: seq<Organization>, b: nat, from: int, to: int,
                                       rows: seq<Charge>, pending: int, m: nat)
    requires Linked(rows) && Begun(books.journal, b, from, to, rows, m)
    ensures var how, n := Settle(books, orgs, b, from, to, rows, pending).1, Finished(books, orgs, b, from, to, rows);
            && (forall i :: 0 <= i < n && i < m ==> rows[i].amount >= 1)
            && (forall i :: 0 <= i < n - m ==> Hindrance(books, orgs, rows[m..], i) == None)
            && (n == |rows| ==> how == Paid)
            && (n < m ==> rows[n].amount < 1 && how == Stopped(NotPositive))
            && (m <= n < |rows| ==>
                  var hindrance := Hindrance(books, orgs, rows[m..], n - m);
                  hindrance.Some? && how == StopsAt(hindrance.value, pending + Total(rows[..n])))
    decreases |rows|
  {
    hide Hindrance, Linked, Transfer, Has, Total;
    if m == 0 {
      assert rows[0..] == rows;
      FreshStops(books, orgs, b, from, to, rows, pending);
    } else {
      LinkedRest(rows);
      BegunRest(books.journal, b, from, to, rows, m);
      ReplayedLevel(books, orgs, b, from, to, rows[0]);
      SettleStops(books, orgs, b, from, to, rows[1..], pending + rows[0].amount, m - 1);
      assert rows[1..][m - 1..] == rows[m..];
      var n := Finished(books, orgs, b, from, to, rows);
      if n > 0 { TotalFirst(rows, n); }
      forall i | 0 <= i < n && i < m ensures rows[i].amount >= 1 {
        if i > 0 { assert rows[1..][i - 1].amount >= 1; }
      }
    }
  }

  lemma {:induction false} MovedElsewhere(rows: seq<Charge>, o: Owner)
    requires forall i :: 0 <= i < |rows| ==> o != Org(rows[i].child) && o != Org(rows[i].parent)
    ensures Moved(rows, o) == 0
  {
    if rows != [] {
      assert forall i :: 0 <= i < |rows[1..]| ==> rows[1..][i] == rows[i + 1];
      MovedElsewhere(rows[1..], o);
    }
  }

  /** The leaf loses its charge and a middle level keeps the difference. */
  lemma {:induction false} MovedAt(rows: seq<Charge>, i: nat)
    requires Linked(rows) && i < |rows|
    ensures Moved(rows, Org(rows[i].child)) == Received(rows, i) - rows[i].amount
    decreases |rows|
  {
    var rest := rows[1..];
    assert forall j :: 0 <= j < |rest| ==> rest[j] == rows[j + 1];
    if i == 0 {
      MovedElsewhere(rest, Org(rows[0].child));
    } else {
      LinkedRest(rows);
      MovedAt(rest, i - 1);
      assert rows[0].parent == rows[1].child;
    }
  }

  /** The top of the chain gains the last charge. */
  lemma {:induction false} MovedTop(rows: seq<Charge>)
    requires Linked(rows) && rows != []
    ensures Moved(rows, Org(rows[|rows| - 1].parent)) == rows[|rows| - 1].amount
    decreases |rows|
  {
    var rest := rows[1..];
    if rest != [] {
      LinkedRest(rows);
      MovedTop(rest);
      var last := rows[|rows| - 1];
      assert rest[|rest| - 1] == last;
      assert last.parent < last.child <= rows[1].child == rows[0].parent < rows[0].child;
    }
  }

  /** `after` differs from `before` by usage charges between organizations only. */
  ghost predicate OnlyUsage(before: Books, after: Books, orgs: seq<Organization>) {
    && Consistent(after) && Covered(after, orgs)
    && Balance(after, System) == Balance(before, System)
    && before.journal <= after.journal
    && forall i :: |before.journal| <= i < |after.journal| ==> after.journal[i].key.UsageKey?
  }

  lemma ChargeKeeps(books: Books, orgs: seq<Organization>, b: nat, from: int, to: int, c: Charge)
    requires Consistent(books) && Covered(books, orgs)
    ensures OnlyUsage(books, Transfer(books, orgs, Org(c.child), Org(c.parent), c.amount, ChargeKey(b, from, to, c), true).0, orgs)
  {
    var key := ChargeKey(b, from, to, c);
    TransferKeepsBooks(books, orgs, Org(c.child), Org(c.parent), c.amount, key, true);
    TransferKeepsCover(books, orgs, Org(c.child), Org(c.parent), c.amount, key, true);
    TransferEffect(books, orgs, Org(c.child), Org(c.parent), c.amount, key, true);
  }

  lemma OnlyUsageJoins(x: Books, y: Books, z: Books, orgs: seq<Organization>)
    requires OnlyUsage(x, y, orgs) && OnlyUsage(y, z, orgs)
    ensures OnlyUsage(x, z, orgs)
  {
    assert forall i :: 0 <= i < |y.journal| ==> z.journal[i] == y.journal[i];
  }

  /** However far it gets, settling keeps the books and moves no money in or out of SYSTEM. */
  lemma {:induction false} SettleKeepsBooks(books: Books, orgs: seq<Organization>, b: nat, from: int, to: int,
                                            rows: seq<Charge>, pending: int)
    requires Consistent(books) && Covered(books, orgs)
    ensures OnlyUsage(books, Settle(books, orgs, b, from, to, rows, pending).0, orgs)
    decreases |rows|
  {
    if rows != [] {
      var c := rows[0];
      var (after, outcome) := Transfer(books, orgs, Org(c.child), Org(c.parent), c.amount, ChargeKey(b, from, to, c), true);
      ChargeKeeps(books, orgs, b, from, to, c);
      if !outcome.Refused? {
        SettleKeepsBooks(after, orgs, b, from, to, rows[1..], pending + c.amount);
        OnlyUsageJoins(books, after, Settle(after, orgs, b, from, to, rows[1..], pending + c.amount).0, orgs);
      }
    }
  }
}
