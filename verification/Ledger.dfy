/**
 The double-entry ledger (src/control_plane/app.py, `account` and `transfer`) as a function on
 values: what one transfer, run alone, does to the account rows and the journal.

 Identifiers are natural numbers; nothing but equality and order of an identifier is used.
 */
module Ledger {
  import opened Options
  import opened Sums

  /** The owner key of an account: the literal SYSTEM or an organization. */
  datatype Owner = System | Org(id: nat)

  /** The idempotency keys the program builds, and the free-form ones of the funding API. */
  datatype Key =
    | UsageKey(binding: nat, from: int, to: int, child: nat)
    | FundingKey(request: nat)
    | OrderKey(order: nat)
    | ApprovalKey(approval: nat)
    | ExternalKey(text: string)

  datatype Side = Debit | Credit

  datatype Entry = Entry(owner: Owner, side: Side, amount: int)

  datatype Tx = Tx(key: Key, entries: seq<Entry>)

  /** Account rows with their cached balance, and the transactions in insertion order. */
  datatype Books = Books(accounts: map<Owner, int>, journal: seq<Tx>)

  /** An organization row; its identifier is its position in creation order. */
  datatype Organization = Organization(parent: Option<nat>, active: bool, credit: int, maxDepth: int)

  datatype Refusal = NotPositive | NoPayer | PayerSuspended | NoCredit

  datatype Outcome = Posted | Replayed | Refused(why: Refusal)

  // ---- one transfer ----

  predicate Has(journal: seq<Tx>, key: Key) {
    exists i :: 0 <= i < |journal| && journal[i].key == key
  }

  function Balance(b: Books, o: Owner): int {
    if o in b.accounts then b.accounts[o] else 0
  }

  /** account: an absent row is inserted with balance zero. */
  function Open(accounts: map<Owner, int>, o: Owner): map<Owner, int> {
    if o in accounts then accounts else accounts[o := 0]
  }

  function OpenBoth(b: Books, source: Owner, target: Owner): Books {
    b.(accounts := Open(Open(b.accounts, source), target))
  }

  function TransferTx(source: Owner, target: Owner, amount: int, key: Key): Tx {
    Tx(key, [Entry(source, Debit, amount), Entry(target, Credit, amount)])
  }

  /** The two relative updates and the journal row, on books that hold both accounts. */
  function Post(b: Books, source: Owner, target: Owner, amount: int, key: Key): Books
    requires source in b.accounts && target in b.accounts
  {
    var debited := b.accounts[source := b.accounts[source] - amount];
    Books(debited[target := debited[target] + amount], b.journal + [TransferTx(source, target, amount, key)])
  }

  /** Whether the paying organization may go down by `amount` from `balance`. */
  function Permit(orgs: seq<Organization>, source: Owner, balance: int, amount: int, enforce: bool): Outcome {
    if !enforce || source == System then Posted
    else if source.id >= |orgs| then Refused(NoPayer)
    else if !orgs[source.id].active then Refused(PayerSuspended)
    else if balance + orgs[source.id].credit < amount then Refused(NoCredit)
    else Posted
  }

  /** transfer. A refusal leaves the opened account rows behind; the caller rolls them back or not. */
  function Transfer(b: Books, orgs: seq<Organization>, source: Owner, target: Owner, amount: int, key: Key,
                    enforce: bool): (Books, Outcome)
  {
    if amount <= 0 then (b, Refused(NotPositive))
    else if Has(b.journal, key) then (b, Replayed)
    else
      var ready := OpenBoth(b, source, target);
      match Permit(orgs, source, ready.accounts[source], amount, enforce)
      case Posted => (Post(ready, source, target, amount, key), Posted)
      case other => (ready, other)
  }

  // ---- the books as entries ----

  function Signed(e: Entry, o: Owner): int {
    if e.owner != o then 0 else if e.side == Credit then e.amount else -e.amount
  }

  function SignedEntries(es: seq<Entry>, o: Owner): int {
    if es == [] then 0 else SignedEntries(es[..|es| - 1], o) + Signed(es[|es| - 1], o)
  }

  /** Credits minus debits of one account over the journal. */
  function EntriesBalance(journal: seq<Tx>, o: Owner): int {
    if journal == [] then 0
    else EntriesBalance(journal[..|journal| - 1], o) + SignedEntries(journal[|journal| - 1].entries, o)
  }

  /** The ledger_imbalance view: accounts whose cached balance drifted from their entries. */
  function Imbalance(b: Books): set<Owner> {
    set o | o in b.accounts && b.accounts[o] != EntriesBalance(b.journal, o)
  }

  /** One debit and one credit of the same positive amount. */
  predicate TwoSided(t: Tx) {
    && |t.entries| == 2
    && t.entries[0].side == Debit && t.entries[1].side == Credit
    && t.entries[0].amount == t.entries[1].amount > 0
  }

  ghost predicate Consistent(b: Books) {
    && (forall i :: 0 <= i < |b.journal| ==> TwoSided(b.journal[i]))
    && (forall i, j :: 0 <= i < j < |b.journal| ==> b.journal[i].key != b.journal[j].key)
    && (forall i, e :: 0 <= i < |b.journal| && e in b.journal[i].entries ==> e.owner in b.accounts)
    && Imbalance(b) == {}
  }

  /** No organization is below minus its credit. */
  ghost predicate Covered(b: Books, orgs: seq<Organization>) {
    forall id :: 0 <= id < |orgs| ==> Balance(b, Org(id)) + orgs[id].credit >= 0
  }

  /** What the organizations hold together. */
  ghost function HeldByOrganizations(b: Books): int {
    SumOver(b.accounts.Keys - {System}, o => Balance(b, o))
  }

  lemma {:induction false} AbsentIsZero(journal: seq<Tx>, o: Owner)
    requires forall i, e :: 0 <= i < |journal| && e in journal[i].entries ==> e.owner != o
    ensures EntriesBalance(journal, o) == 0
  {
    if journal != [] {
      var n := |journal| - 1;
      assert forall i, e :: 0 <= i < n && e in journal[..n][i].entries ==> e.owner != o;
      AbsentIsZero(journal[..n], o);
      AbsentEntries(journal[n].entries, o);
    }
  }

  lemma {:induction false} AbsentEntries(es: seq<Entry>, o: Owner)
    requires forall e :: e in es ==> e.owner != o
    ensures SignedEntries(es, o) == 0
  {
    if es != [] { AbsentEntries(es[..|es| - 1], o); }
  }

  /** The effect of one posted transfer on any account's entries. */
  lemma PostedEntries(journal: seq<Tx>, source: Owner, target: Owner, amount: int, key: Key, o: Owner)
    ensures EntriesBalance(journal + [TransferTx(source, target, amount, key)], o)
         == EntriesBalance(journal, o) - (if o == source then amount else 0) + (if o == target then amount else 0)
  {
    var t := TransferTx(source, target, amount, key);
    assert (journal + [t])[..|journal|] == journal;
    TwoEntries(t.entries, o);
  }

  lemma TwoEntries(es: seq<Entry>, o: Owner)
    requires |es| == 2
    ensures SignedEntries(es, o) == Signed(es[0], o) + Signed(es[1], o)
  {
    assert es[..1] == [es[0]];
    assert SignedEntries(es[..1], o) == SignedEntries(es[..1][..0], o) + Signed(es[0], o);
  }

  lemma OpenKeeps(b: Books, source: Owner, target: Owner)
    requires Consistent(b)
    ensures Consistent(OpenBoth(b, source, target))
    ensures forall o :: Balance(OpenBoth(b, source, target), o) == Balance(b, o)
  {
    var c := OpenBoth(b, source, target);
    forall o | o in c.accounts ensures c.accounts[o] == EntriesBalance(c.journal, o) {
      if o in b.accounts {
        assert o !in Imbalance(b);
      } else {
        AbsentIsZero(b.journal, o);
      }
    }
  }

  lemma PostKeeps(b: Books, source: Owner, target: Owner, amount: int, key: Key)
    requires Consistent(b) && source in b.accounts && target in b.accounts
    requires amount > 0 && !Has(b.journal, key)
    ensures Consistent(Post(b, source, target, amount, key))
  {
    var after := Post(b, source, target, amount, key);
    forall o | o in after.accounts ensures after.accounts[o] == EntriesBalance(after.journal, o) {
      PostedEntries(b.journal, source, target, amount, key, o);
      assert o !in Imbalance(b);
    }
    assert Imbalance(after) == {};
  }

  /** Every transfer, accepted or not, keeps the books: two-sided, unique by key, cached exactly. */
  lemma TransferKeepsBooks(b: Books, orgs: seq<Organization>, source: Owner, target: Owner, amount: int, key: Key,
                           enforce: bool)
    requires Consistent(b)
    ensures Consistent(Transfer(b, orgs, source, target, amount, key, enforce).0)
  {
    OpenKeeps(b, source, target);
    if Transfer(b, orgs, source, target, amount, key, enforce).1 == Posted {
      PostKeeps(OpenBoth(b, source, target), source, target, amount, key);
    }
  }

  /** Exactly the two balances move, by the amount; the journal only grows by this transaction. */
  lemma TransferEffect(b: Books, orgs: seq<Organization>, source: Owner, target: Owner, amount: int, key: Key,
                       enforce: bool)
    ensures var (after, outcome) := Transfer(b, orgs, source, target, amount, key, enforce);
            var moved := if outcome == Posted then amount else 0;
            && (forall o :: Balance(after, o)
                 == Balance(b, o) - (if o == source then moved else 0) + (if o == target then moved else 0))
            && after.journal == b.journal + (if outcome == Posted then [TransferTx(source, target, amount, key)] else [])
            && (outcome == Posted || outcome == Replayed <==> amount > 0 && Has(after.journal, key))
  {
    var (after, outcome) := Transfer(b, orgs, source, target, amount, key, enforce);
    if outcome == Posted {
      assert after.journal[|b.journal|].key == key;
    }
  }

  /**
   Which answer a transfer gets: a used key is replayed; a new one is posted exactly when nobody checks the
   payer, or the payer exists, is active and stays above minus its credit; else the first of these that
   fails is named. Account rows are opened exactly when the key is new.
   */
  lemma TransferAnswers(b: Books, orgs: seq<Organization>, source: Owner, target: Owner, amount: int, key: Key,
                        enforce: bool)
    ensures var (after, outcome) := Transfer(b, orgs, source, target, amount, key, enforce);
            var unused := amount >= 1 && !Has(b.journal, key);
            var checked := enforce && source.Org?;
            && (outcome == Refused(NotPositive) <==> amount < 1)
            && (outcome == Replayed <==> amount >= 1 && Has(b.journal, key))
            && (outcome == Posted <==>
                  unused && (!checked || (source.id < |orgs| && orgs[source.id].active
                                          && Balance(b, source) - amount >= -orgs[source.id].credit)))
            && (outcome == Refused(NoPayer) <==> unused && checked && source.id >= |orgs|)
            && (outcome == Refused(PayerSuspended) <==> unused && checked && source.id < |orgs| && !orgs[source.id].active)
            && (outcome == Refused(NoCredit) <==>
                  unused && checked && source.id < |orgs| && orgs[source.id].active
                  && Balance(b, source) - amount < -orgs[source.id].credit)
            && after.accounts.Keys == b.accounts.Keys + (if unused then {source, target} else {})
  {
    hide Has;
  }

  /** Only SYSTEM pays unenforced, so nobody is ever pushed below its credit. */
  lemma TransferKeepsCover(b: Books, orgs: seq<Organization>, source: Owner, target: Owner, amount: int, key: Key,
                           enforce: bool)
    requires Covered(b, orgs) && (enforce || source == System)
    ensures Covered(Transfer(b, orgs, source, target, amount, key, enforce).0, orgs)
  {
    TransferEffect(b, orgs, source, target, amount, key, enforce);
  }

  /** A key that has been used answers every later call with the old transaction, whatever its arguments. */
  lemma TransferIdempotent(b: Books, orgs: seq<Organization>, source: Owner, target: Owner, amount: int, key: Key,
                           enforce: bool, later: Books, orgs2: seq<Organization>, source2: Owner, target2: Owner,
                           amount2: int, enforce2: bool)
    requires var r := Transfer(b, orgs, source, target, amount, key, enforce);
             r.1 in {Posted, Replayed} && r.0.journal <= later.journal
    requires amount2 > 0
    ensures Transfer(later, orgs2, source2, target2, amount2, key, enforce2) == (later, Replayed)
  {
    TransferEffect(b, orgs, source, target, amount, key, enforce);
    var after := Transfer(b, orgs, source, target, amount, key, enforce).0;
    var i :| 0 <= i < |after.journal| && after.journal[i].key == key;
    assert later.journal[i].key == key;
  }

  // ---- money is neither made nor lost ----

  lemma {:induction false} EntriesSumToZero(owners: set<Owner>, journal: seq<Tx>)
    requires forall i :: 0 <= i < |journal| ==> TwoSided(journal[i])
    requires forall i, e :: 0 <= i < |journal| && e in journal[i].entries ==> e.owner in owners
    ensures SumOver(owners, o => EntriesBalance(journal, o)) == 0
  {
    var whole := o => EntriesBalance(journal, o);
    if journal == [] {
      SumOverPoint(owners, whole, System, 0);
    } else {
      var n := |journal| - 1;
      var early, t := journal[..n], journal[n];
      assert forall i, e :: 0 <= i < |early| && e in early[i].entries ==> e.owner in owners;
      EntriesSumToZero(owners, early);
      var before := o => EntriesBalance(early, o);
      var debit := o => Signed(t.entries[0], o);
      var credit := o => Signed(t.entries[1], o);
      var both := o => Signed(t.entries[0], o) + Signed(t.entries[1], o);
      assert t.entries[0] in t.entries && t.entries[1] in t.entries;
      SumOverPoint(owners, debit, t.entries[0].owner, -t.entries[0].amount);
      SumOverPoint(owners, credit, t.entries[1].owner, t.entries[1].amount);
      SumOverAdds(owners, debit, credit, both);
      forall o ensures whole(o) == before(o) + both(o) {
        TwoEntries(t.entries, o);
      }
      SumOverAdds(owners, before, both, whole);
    }
  }

  /** All balances sum to zero: what SYSTEM has paid out is what the organizations hold. */
  lemma ZeroSum(b: Books)
    requires Consistent(b)
    ensures HeldByOrganizations(b) == -Balance(b, System)
  {
    var owners := b.accounts.Keys + {System};
    var entries := o => EntriesBalance(b.journal, o);
    EntriesSumToZero(owners, b.journal);
    forall o ensures entries(o) == Balance(b, o) {
      if o in b.accounts { assert o !in Imbalance(b); } else { AbsentIsZero(b.journal, o); }
    }
    var system := o => if o == System then Balance(b, System) else 0;
    var others := o => if o == System then 0 else Balance(b, o);
    SumOverAdds(owners, system, others, entries);
    SumOverPoint(owners, system, System, Balance(b, System));
    SumOverDrop(owners, others, System);
    assert owners - {System} == b.accounts.Keys - {System};
    SumOverSame(owners - {System}, others, o => Balance(b, o));
  }
}
