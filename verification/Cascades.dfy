/**
 Sessions that run several transfers before they commit, as a usage cascade and a batch do
 (src/control_plane/app.py:342-349, api.py:93-102): the rows of all of them stay locked to the end.
 One step here is a whole locked section of `transfer`, from its locks to its journal row; Interleaving
 shows that its statements may be interleaved. Nothing is said about deadlock.
 */
module Cascades {
  import opened Ledger
  import opened Interleaving

  /**
   A session: the transfers it has posted, its versions of the account rows it has locked, its journal
   rows, and the organization rows it has locked; nobody else sees any of it.
   */
  datatype Holder = Holder(live: bool, ran: seq<Request>, rows: map<Owner, int>, txs: seq<Tx>, payers: set<nat>)

  /** A committed session: what it posted, the organizations as it saw them, and the accounts it opened or locked. */
  datatype Batch = Batch(ran: seq<Request>, orgs: seq<Organization>, owners: set<Owner>)

  datatype World = World(initial: Books, books: Books, orgs: seq<Organization>, holders: seq<Holder>, log: seq<Batch>)

  // ---- running transfers alone ----

  function TxOf(r: Request): Tx {
    TransferTx(r.source, r.target, r.amount, r.key)
  }

  function Txs(ran: seq<Request>): seq<Tx> {
    if ran == [] then [] else Txs(ran[..|ran| - 1]) + [TxOf(ran[|ran| - 1])]
  }

  function Alone(b: Books, orgs: seq<Organization>, r: Request): (Books, Outcome) {
    Transfer(b, orgs, r.source, r.target, r.amount, r.key, r.enforce)
  }

  /** Transfers run one after another, nobody else running. */
  function RunAll(b: Books, orgs: seq<Organization>, ran: seq<Request>): Books {
    if ran == [] then b else Alone(RunAll(b, orgs, ran[..|ran| - 1]), orgs, ran[|ran| - 1]).0
  }

  /** Each of them is posted. */
  predicate AllPosted(b: Books, orgs: seq<Organization>, ran: seq<Request>) {
    ran == [] || (
      var n := |ran| - 1;
      AllPosted(b, orgs, ran[..n]) && Alone(RunAll(b, orgs, ran[..n]), orgs, ran[n]).1 == Posted)
  }

  function Opening(b: Books, owners: set<Owner>): Books {
    b.(accounts := WithRows(b.accounts, owners))
  }

  predicate Touches(ran: seq<Request>, owners: set<Owner>) {
    forall i :: 0 <= i < |ran| ==> ran[i].source in owners && ran[i].target in owners
  }

  predicate PaidBy(ran: seq<Request>, payers: set<nat>) {
    forall i :: 0 <= i < |ran| && ran[i].enforce && ran[i].source.Org? ==> ran[i].source.id in payers
  }

  predicate NewKeys(journal: seq<Tx>, ran: seq<Request>) {
    forall i :: 0 <= i < |ran| ==> !Has(journal, ran[i].key)
  }

  /** The payers among these organizations have the same rows. */
  predicate SamePayers(orgs: seq<Organization>, others: seq<Organization>, payers: set<nat>) {
    forall id :: id in payers && id < |orgs| ==> id < |others| && others[id] == orgs[id]
  }

  lemma HasJoined(x: seq<Tx>, y: seq<Tx>, key: Key)
    ensures Has(x + y, key) <==> Has(x, key) || Has(y, key)
  {
    if i :| 0 <= i < |x| && x[i].key == key { assert (x + y)[i].key == key; }
    if i :| 0 <= i < |y| && y[i].key == key { assert (x + y)[|x| + i].key == key; }
  }

  /** One posted transfer between open accounts. */
  lemma PostedAlone(b: Books, orgs: seq<Organization>, r: Request)
    requires r.source in b.accounts && r.target in b.accounts
    ensures Alone(b, orgs, r).1 == Posted
       <==> r.amount > 0 && !Has(b.journal, r.key) && Permit(orgs, r.source, b.accounts[r.source], r.amount, r.enforce) == Posted
    ensures Alone(b, orgs, r).1 == Posted ==> Alone(b, orgs, r).0 == Post(b, r.source, r.target, r.amount, r.key)
  {}

  /**
   Transfers that all get posted do the same on any books that agree on the accounts they touch, hold none of
   their keys, and with the same payers: they are posted there too, change those accounts to the same
   values, leave the others alone, and add the same journal rows.
   */
  lemma {:induction false} RunFrame(b: Books, orgs: seq<Organization>, c: Books, others: seq<Organization>, ran: seq<Request>,
                                    owners: set<Owner>, payers: set<nat>)
    requires AllPosted(b, orgs, ran) && Touches(ran, owners) && PaidBy(ran, payers)
    requires owners <= b.accounts.Keys && owners <= c.accounts.Keys && forall o :: o in owners ==> c.accounts[o] == b.accounts[o]
    requires NewKeys(c.journal, ran) && SamePayers(orgs, others, payers)
    ensures AllPosted(c, others, ran)
    ensures var x, y := RunAll(b, orgs, ran), RunAll(c, others, ran);
            && x.accounts.Keys == b.accounts.Keys && y.accounts.Keys == c.accounts.Keys
            && (forall o :: o in owners ==> y.accounts[o] == x.accounts[o])
            && (forall o :: o in c.accounts && o !in owners ==> y.accounts[o] == c.accounts[o])
            && x.journal == b.journal + Txs(ran) && y.journal == c.journal + Txs(ran)
  {
    if ran != [] {
      hide Alone, Has, Permit, NewKeys, Touches, PaidBy, SamePayers, Post;
      var n := |ran| - 1;
      var r := ran[n];
      LastOf(c.journal, ran, owners, payers);
      RunFrame(b, orgs, c, others, ran[..n], owners, payers);
      var x, y := RunAll(b, orgs, ran[..n]), RunAll(c, others, ran[..n]);
      PostedAlone(x, orgs, r);
      PostedAlone(y, others, r);
      HasJoined(b.journal, Txs(ran[..n]), r.key);
      HasJoined(c.journal, Txs(ran[..n]), r.key);
      SamePermit(orgs, others, r, x.accounts[r.source], payers);
      PostFrame(x, y, r, owners);
      assert b.journal + Txs(ran) == (b.journal + Txs(ran[..n])) + [TxOf(r)];
      assert c.journal + Txs(ran) == (c.journal + Txs(ran[..n])) + [TxOf(r)];
    }
  }

  lemma LastOf(journal: seq<Tx>, ran: seq<Request>, owners: set<Owner>, payers: set<nat>)
    requires ran != [] && NewKeys(journal, ran) && Touches(ran, owners) && PaidBy(ran, payers)
    ensures var n := |ran| - 1;
            && NewKeys(journal, ran[..n]) && Touches(ran[..n], owners) && PaidBy(ran[..n], payers)
            && !Has(journal, ran[n].key) && ran[n].source in owners && ran[n].target in owners
            && (ran[n].enforce && ran[n].source.Org? ==> ran[n].source.id in payers)
  {}

  lemma PostFrame(x: Books, y: Books, r: Request, owners: set<Owner>)
    requires r.source in owners && r.target in owners && owners <= x.accounts.Keys && owners <= y.accounts.Keys
    requires forall o :: o in owners ==> y.accounts[o] == x.accounts[o]
    ensures var p, q := Post(x, r.source, r.target, r.amount, r.key), Post(y, r.source, r.target, r.amount, r.key);
            && p.accounts.Keys == x.accounts.Keys && q.accounts.Keys == y.accounts.Keys
            && (forall o :: o in owners ==> q.accounts[o] == p.accounts[o])
            && (forall o :: o in y.accounts && o !in owners ==> q.accounts[o] == y.accounts[o])
            && p.journal == x.journal + [TxOf(r)] && q.journal == y.journal + [TxOf(r)]
  {}

  lemma SamePermit(orgs: seq<Organization>, others: seq<Organization>, r: Request, balance: int, payers: set<nat>)
    requires SamePayers(orgs, others, payers) && (r.enforce && r.source.Org? ==> r.source.id in payers)
    requires Permit(orgs, r.source, balance, r.amount, r.enforce) == Posted
    ensures Permit(others, r.source, balance, r.amount, r.enforce) == Posted
  {}

  // ---- sessions ----

  /** The value of an account row as a session sees it. */
  function Value(w: World, h: Holder, o: Owner): int {
    if o in h.rows then h.rows[o] else Balance(w.books, o)
  }

  function Idle(live: bool): Holder {
    Holder(live, [], map[], [], {})
  }

  /** Nobody else holds the rows that the transfer locks or the key that it inserts. */
  ghost predicate Free(w: World, t: nat, r: Request) {
    forall u :: 0 <= u < |w.holders| && u != t ==>
      && r.source !in w.holders[u].rows && r.target !in w.holders[u].rows && !Has(w.holders[u].txs, r.key)
      && (r.enforce && r.source.Org? ==> r.source.id !in w.holders[u].payers)
  }

  /** One transfer of session t: answered from a journal row that it can see, refused, or posted into its own rows. */
  function Execute(w: World, t: nat, r: Request): World
    requires t < |w.holders|
  {
    var h := w.holders[t];
    if r.amount <= 0 || Has(w.books.journal, r.key) || Has(h.txs, r.key) then w
    else
      var rows := h.rows[r.source := Value(w, h, r.source)][r.target := Value(w, h, r.target)];
      var payers := if r.enforce && r.source.Org? then h.payers + {r.source.id} else h.payers;
      if Permit(w.orgs, r.source, rows[r.source], r.amount, r.enforce) != Posted then
        w.(holders := w.holders[t := h.(rows := rows, payers := payers)])
      else
        var debited := rows[r.source := rows[r.source] - r.amount];
        var credited := debited[r.target := debited[r.target] + r.amount];
        w.(holders := w.holders[t := Holder(h.live, h.ran + [r], credited, h.txs + [TxOf(r)], payers)])
  }

  /** The row versions of the session replace the committed ones, and its locks are gone. */
  function CommitOf(w: World, t: nat): World
    requires t < |w.holders|
  {
    var h := w.holders[t];
    w.(books := Books(w.books.accounts + h.rows, w.books.journal + h.txs), holders := w.holders[t := Idle(false)],
       log := w.log + [Batch(h.ran, w.orgs, h.rows.Keys)])
  }

  function RollBack(w: World, t: nat): World
    requires t < |w.holders|
  {
    w.(holders := w.holders[t := Idle(false)])
  }

  /** Organizations may be added and have their status changed, except a row that a session has locked. */
  ghost predicate OrgsMayTurn(w: World, orgs: seq<Organization>) {
    && |w.orgs| <= |orgs|
    && (forall i :: 0 <= i < |w.orgs| ==> orgs[i].credit == w.orgs[i].credit)
    && (forall i :: |w.orgs| <= i < |orgs| ==> Balance(w.books, Org(i)) + orgs[i].credit >= 0)
    && (forall t :: 0 <= t < |w.holders| ==> SamePayers(w.orgs, orgs, w.holders[t].payers))
  }

  ghost predicate Next(w: World, next: World) {
    || (exists t, r: Request :: 0 <= t < |w.holders| && w.holders[t].live && (r.enforce || r.source == System) && Free(w, t, r)
                       && next == Execute(w, t, r))
    || (exists t :: 0 <= t < |w.holders| && w.holders[t].live && next == CommitOf(w, t))
    || (exists t :: 0 <= t < |w.holders| && next == RollBack(w, t))
    || next == w.(holders := w.holders + [Idle(true)])
    || (exists orgs :: OrgsMayTurn(w, orgs) && next == w.(orgs := orgs))
  }

  // ---- the serial history ----

  /** The session's accounts are opened and its transfers run one after another, alone. */
  function Serially(b: Books, c: Batch): Books {
    RunAll(Opening(b, c.owners), c.orgs, c.ran)
  }

  predicate Honest(b: Books, c: Batch) {
    AllPosted(Opening(b, c.owners), c.orgs, c.ran)
  }

  function ReplayAll(b: Books, log: seq<Batch>): Books {
    if log == [] then b else Serially(ReplayAll(b, log[..|log| - 1]), log[|log| - 1])
  }

  // ---- the invariant ----

  predicate Enforced(ran: seq<Request>) {
    forall i :: 0 <= i < |ran| ==> ran[i].enforce || ran[i].source == System
  }

  /** What the session has done is what its transfers do, run alone on the committed books of this moment. */
  ghost predicate HolderOk(w: World, h: Holder) {
    && Enforced(h.ran) && Touches(h.ran, h.rows.Keys) && PaidBy(h.ran, h.payers)
    && h.txs == Txs(h.ran) && NewKeys(w.books.journal, h.ran)
    && AllPosted(Opening(w.books, h.rows.Keys), w.orgs, h.ran)
    && var view := RunAll(Opening(w.books, h.rows.Keys), w.orgs, h.ran);
       forall o :: o in h.rows ==> o in view.accounts && view.accounts[o] == h.rows[o]
  }

  ghost predicate Separate(h: Holder, k: Holder) {
    h.rows.Keys !! k.rows.Keys && forall i, j :: 0 <= i < |h.ran| && 0 <= j < |k.ran| ==> h.ran[i].key != k.ran[j].key
  }

  ghost predicate LogOk(w: World) {
    && w.books == ReplayAll(w.initial, w.log)
    && forall i :: 0 <= i < |w.log| ==> Honest(ReplayAll(w.initial, w.log[..i]), w.log[i])
  }

  ghost predicate Ok(w: World) {
    && Consistent(w.books) && Covered(w.books, w.orgs) && LogOk(w)
    && (forall t :: 0 <= t < |w.holders| ==> HolderOk(w, w.holders[t]))
    && (forall t, u :: 0 <= t < |w.holders| && 0 <= u < |w.holders| && t != u ==> Separate(w.holders[t], w.holders[u]))
  }

  /** What others commit, or turn in the organizations, does not change what a session has done. */
  lemma HolderStays(w: World, next: World, h: Holder)
    requires HolderOk(w, h)
    requires forall o :: o in h.rows ==> Balance(next.books, o) == Balance(w.books, o)
    requires NewKeys(next.books.journal, h.ran) && SamePayers(w.orgs, next.orgs, h.payers)
    ensures HolderOk(next, h)
  {
    hide AllPosted, RunAll, NewKeys, Touches, PaidBy, SamePayers;
    RunFrame(Opening(w.books, h.rows.Keys), w.orgs, Opening(next.books, h.rows.Keys), next.orgs, h.ran, h.rows.Keys, h.payers);
  }

  lemma SamePayersRefl(orgs: seq<Organization>, payers: set<nat>)
    ensures SamePayers(orgs, orgs, payers)
  {}

  lemma IdleOk(w: World, live: bool)
    ensures HolderOk(w, Idle(live))
  {}

  /** Locking more rows changes nothing. */
  lemma LockMore(w: World, h: Holder, more: map<Owner, int>, payers: set<nat>)
    requires HolderOk(w, h) && h.rows.Keys <= more.Keys && h.payers <= payers
    requires forall o :: o in more ==> more[o] == Value(w, h, o)
    ensures HolderOk(w, h.(rows := more, payers := payers))
  {
    hide AllPosted, RunAll, NewKeys, SamePayers;
    SamePayersRefl(w.orgs, h.payers);
    RunFrame(Opening(w.books, h.rows.Keys), w.orgs, Opening(w.books, more.Keys), w.orgs, h.ran, h.rows.Keys, h.payers);
  }

  lemma OneMore(journal: seq<Tx>, ran: seq<Request>, owners: set<Owner>, payers: set<nat>, r: Request)
    requires Enforced(ran) && Touches(ran, owners) && PaidBy(ran, payers) && NewKeys(journal, ran)
    requires (r.enforce || r.source == System) && r.source in owners && r.target in owners && !Has(journal, r.key)
    requires r.enforce && r.source.Org? ==> r.source.id in payers
    ensures Enforced(ran + [r]) && Touches(ran + [r], owners) && PaidBy(ran + [r], payers) && NewKeys(journal, ran + [r])
  {
    hide Has;
  }

  lemma RunMore(b: Books, orgs: seq<Organization>, ran: seq<Request>, r: Request)
    ensures Txs(ran + [r]) == Txs(ran) + [TxOf(r)]
    ensures RunAll(b, orgs, ran + [r]) == Alone(RunAll(b, orgs, ran), orgs, r).0
    ensures AllPosted(b, orgs, ran + [r]) <==> AllPosted(b, orgs, ran) && Alone(RunAll(b, orgs, ran), orgs, r).1 == Posted
  {
    hide Alone;
    assert (ran + [r])[..|ran|] == ran;
  }

  /** Posting one more transfer into the rows that are locked. */
  lemma PostMore(w: World, h: Holder, r: Request)
    requires HolderOk(w, h) && r.source in h.rows && r.target in h.rows && (r.enforce || r.source == System)
    requires r.amount > 0 && !Has(w.books.journal, r.key) && !Has(h.txs, r.key)
    requires r.enforce && r.source.Org? ==> r.source.id in h.payers
    requires Permit(w.orgs, r.source, h.rows[r.source], r.amount, r.enforce) == Posted
    ensures var debited := h.rows[r.source := h.rows[r.source] - r.amount];
            HolderOk(w, h.(ran := h.ran + [r], rows := debited[r.target := debited[r.target] + r.amount], txs := h.txs + [TxOf(r)]))
  {
    hide Has, Permit, Alone, SamePayers, Enforced, Touches, PaidBy, NewKeys, AllPosted, RunAll, Txs, TxOf;
    var debited := h.rows[r.source := h.rows[r.source] - r.amount];
    var rows := debited[r.target := debited[r.target] + r.amount];
    assert rows.Keys == h.rows.Keys;
    var b := Opening(w.books, h.rows.Keys);
    OneMore(w.books.journal, h.ran, h.rows.Keys, h.payers, r);
    SamePayersRefl(w.orgs, h.payers);
    RunFrame(b, w.orgs, b, w.orgs, h.ran, h.rows.Keys, h.payers);
    var view := RunAll(b, w.orgs, h.ran);
    PostedAlone(view, w.orgs, r);
    HasJoined(b.journal, Txs(h.ran), r.key);
    RunMore(b, w.orgs, h.ran, r);
    assert Alone(view, w.orgs, r).0 == Post(view, r.source, r.target, r.amount, r.key);
    forall o | o in rows ensures o in RunAll(b, w.orgs, h.ran + [r]).accounts && RunAll(b, w.orgs, h.ran + [r]).accounts[o] == rows[o] {
      assert o in h.rows;
    }
  }

  lemma SeparateFrom(w: World, t: nat, h: Holder)
    requires Ok(w) && t < |w.holders| && HolderOk(w, h)
    requires forall u :: 0 <= u < |w.holders| && u != t ==> Separate(h, w.holders[u]) && Separate(w.holders[u], h)
    ensures Ok(w.(holders := w.holders[t := h]))
  {
    hide Consistent, Covered, LogOk, Separate, AllPosted, RunAll, NewKeys, Touches, PaidBy;
    var next := w.(holders := w.holders[t := h]);
    assert LogOk(next) by { SameLog(w, next); }
    forall u | 0 <= u < |next.holders| ensures HolderOk(next, next.holders[u]) {
      SameWorld(w, next, next.holders[u]);
    }
  }

  lemma SameLog(w: World, next: World)
    requires LogOk(w) && next.books == w.books && next.initial == w.initial && next.log == w.log
    ensures LogOk(next)
  {}

  lemma SameWorld(w: World, next: World, h: Holder)
    requires HolderOk(w, h) && next.books == w.books && next.orgs == w.orgs
    ensures HolderOk(next, h)
  {}

  lemma HolderAt(w: World, t: nat)
    requires Ok(w) && t < |w.holders|
    ensures HolderOk(w, w.holders[t])
  {}

  /** The locked rows and the new key keep the session apart from the others. */
  lemma StillSeparate(w: World, t: nat, r: Request, h: Holder, u: nat)
    requires Ok(w) && t < |w.holders| && Free(w, t, r) && u < |w.holders| && u != t
    requires h.rows.Keys == w.holders[t].rows.Keys + {r.source, r.target}
    requires h.ran == w.holders[t].ran || h.ran == w.holders[t].ran + [r]
    ensures Separate(h, w.holders[u]) && Separate(w.holders[u], h)
  {
    var v := w.holders[u];
    assert Separate(w.holders[t], v) && HolderOk(w, v);
    forall j | 0 <= j < |v.ran| ensures v.ran[j].key != r.key { KeyInTxs(v.ran, j); }
  }

  lemma {:induction false} KeyInTxs(ran: seq<Request>, j: nat)
    requires j < |ran|
    ensures Has(Txs(ran), ran[j].key)
  {
    var n := |ran| - 1;
    var early := Txs(ran[..n]);
    if j < n { KeyInTxs(ran[..n], j); }
    HasJoined(early, [TxOf(ran[n])], ran[j].key);
    assert [TxOf(ran[n])][0].key == ran[n].key;
  }

  lemma ExecuteKeeps(w: World, t: nat, r: Request)
    requires Ok(w) && t < |w.holders| && (r.enforce || r.source == System) && Free(w, t, r)
    ensures Ok(Execute(w, t, r))
  {
    hide Ok, HolderOk, Free, Separate, Has, Permit;
    var h, next := w.holders[t], Execute(w, t, r);
    HolderAt(w, t);
    if next != w {
      var rows := h.rows[r.source := Value(w, h, r.source)][r.target := Value(w, h, r.target)];
      var payers := if r.enforce && r.source.Org? then h.payers + {r.source.id} else h.payers;
      var wide := h.(rows := rows, payers := payers);
      LockMore(w, h, rows, payers);
      assert wide.rows.Keys == h.rows.Keys + {r.source, r.target};
      var done := next.holders[t];
      if Permit(w.orgs, r.source, rows[r.source], r.amount, r.enforce) == Posted {
        PostMore(w, wide, r);
        assert done.rows.Keys == rows.Keys;
      }
      forall u | 0 <= u < |w.holders| && u != t ensures Separate(done, w.holders[u]) && Separate(w.holders[u], done) {
        StillSeparate(w, t, r, done, u);
      }
      SeparateFrom(w, t, done);
      assert next == w.(holders := w.holders[t := done]);
    }
  }

  // ---- commit ----

  /** Committing equals opening the accounts and running the session's transfers alone, at the moment of the commit. */
  lemma CommitIsAlone(w: World, t: nat)
    requires Ok(w) && t < |w.holders|
    ensures var h := w.holders[t];
            && Honest(w.books, Batch(h.ran, w.orgs, h.rows.Keys))
            && CommitOf(w, t).books == Serially(w.books, Batch(h.ran, w.orgs, h.rows.Keys))
  {
    hide Ok, AllPosted, RunAll, NewKeys, Touches, PaidBy, SamePayers, Enforced;
    var h := w.holders[t];
    HolderAt(w, t);
    var b := Opening(w.books, h.rows.Keys);
    SamePayersRefl(w.orgs, h.payers);
    RunFrame(b, w.orgs, b, w.orgs, h.ran, h.rows.Keys, h.payers);
    var view := RunAll(b, w.orgs, h.ran);
    assert view.accounts == w.books.accounts + h.rows;
  }

  /** Transfers run alone keep the books and push no organization below its credit. */
  lemma {:induction false} RunKeeps(b: Books, orgs: seq<Organization>, ran: seq<Request>)
    requires Consistent(b) && Covered(b, orgs) && Enforced(ran)
    ensures Consistent(RunAll(b, orgs, ran)) && Covered(RunAll(b, orgs, ran), orgs)
  {
    hide Consistent, Covered, Transfer;
    if ran != [] {
      var n := |ran| - 1;
      RunKeeps(b, orgs, ran[..n]);
      var r, x := ran[n], RunAll(b, orgs, ran[..n]);
      TransferKeepsBooks(x, orgs, r.source, r.target, r.amount, r.key, r.enforce);
      TransferKeepsCover(x, orgs, r.source, r.target, r.amount, r.key, r.enforce);
    }
  }

  lemma CommitTables(w: World, t: nat)
    requires Ok(w) && t < |w.holders|
    ensures var next := CommitOf(w, t);
            Consistent(next.books) && Covered(next.books, next.orgs) && LogOk(next)
  {
    hide Consistent, AllPosted, RunAll, NewKeys, Touches, PaidBy;
    var h, next := w.holders[t], CommitOf(w, t);
    var c := Batch(h.ran, w.orgs, h.rows.Keys);
    CommitIsAlone(w, t);
    RowsKeep(w.books, h.rows.Keys);
    RunKeeps(Opening(w.books, h.rows.Keys), w.orgs, h.ran);
    assert next.log[..|w.log|] == w.log;
    forall i | 0 <= i < |next.log| ensures Honest(ReplayAll(next.initial, next.log[..i]), next.log[i]) {
      if i < |w.log| { assert next.log[..i] == w.log[..i]; }
    }
  }

  lemma CommitKeeps(w: World, t: nat)
    requires Ok(w) && t < |w.holders|
    ensures Ok(CommitOf(w, t))
  {
    var next := CommitOf(w, t);
    CommitTables(w, t);
    hide Consistent, Covered, LogOk, HolderOk, RunAll, AllPosted;
    forall u | 0 <= u < |next.holders| ensures HolderOk(next, next.holders[u]) {
      if u == t { IdleOk(next, false); } else { OthersStay(w, t, u); }
    }
    forall u, v | 0 <= u < |next.holders| && 0 <= v < |next.holders| && u != v ensures Separate(next.holders[u], next.holders[v]) {
      if u != t && v != t { assert Separate(w.holders[u], w.holders[v]); }
    }
  }

  lemma OthersStay(w: World, t: nat, u: nat)
    requires Ok(w) && t < |w.holders| && u < |w.holders| && u != t
    ensures HolderOk(CommitOf(w, t), w.holders[u])
  {
    hide Consistent, Covered, LogOk, RunAll, AllPosted, Touches, PaidBy, SamePayers;
    var h, k, next := w.holders[t], w.holders[u], CommitOf(w, t);
    assert Separate(h, k) && Separate(k, h);
    HolderAt(w, u);
    HolderAt(w, t);
    forall i | 0 <= i < |k.ran| ensures !Has(next.books.journal, k.ran[i].key) {
      HasJoined(w.books.journal, h.txs, k.ran[i].key);
      NotInTxs(h.ran, k.ran[i].key);
    }
    SamePayersRefl(w.orgs, k.payers);
    HolderStays(w, next, k);
  }

  lemma {:induction false} NotInTxs(ran: seq<Request>, key: Key)
    requires forall i :: 0 <= i < |ran| ==> ran[i].key != key
    ensures !Has(Txs(ran), key)
  {
    if ran != [] {
      var n := |ran| - 1;
      NotInTxs(ran[..n], key);
      HasJoined(Txs(ran[..n]), [TxOf(ran[n])], key);
    }
  }

  // ---- runs ----

  lemma RollBackKeeps(w: World, t: nat)
    requires Ok(w) && t < |w.holders|
    ensures Ok(RollBack(w, t))
  {
    hide Consistent, Covered, LogOk, HolderOk;
    IdleOk(w, false);
    SeparateFrom(w, t, Idle(false));
  }

  lemma JoinKeeps(w: World)
    requires Ok(w)
    ensures Ok(w.(holders := w.holders + [Idle(true)]))
  {
    var next := w.(holders := w.holders + [Idle(true)]);
    assert LogOk(next) by { SameLog(w, next); }
    hide Consistent, Covered, LogOk, HolderOk;
    IdleOk(next, true);
    forall u | 0 <= u < |w.holders| ensures HolderOk(next, w.holders[u]) {
      SameWorld(w, next, w.holders[u]);
    }
  }

  lemma TurnKeeps(w: World, orgs: seq<Organization>)
    requires Ok(w) && OrgsMayTurn(w, orgs)
    ensures Ok(w.(orgs := orgs))
  {
    var next := w.(orgs := orgs);
    assert LogOk(next) by { SameLog(w, next); }
    hide Consistent, LogOk, RunAll, AllPosted, Touches, PaidBy;
    forall u | 0 <= u < |w.holders| ensures HolderOk(next, w.holders[u]) {
      HolderAt(w, u);
      HolderStays(w, next, w.holders[u]);
    }
  }

  lemma NextKeeps(w: World, next: World)
    requires Ok(w) && Next(w, next)
    ensures Ok(next) && next.initial == w.initial
  {
    hide Ok, Free, OrgsMayTurn;
    if t, r: Request :| 0 <= t < |w.holders| && w.holders[t].live && (r.enforce || r.source == System) && Free(w, t, r)
                        && next == Execute(w, t, r) {
      ExecuteKeeps(w, t, r);
    } else if t :| 0 <= t < |w.holders| && w.holders[t].live && next == CommitOf(w, t) {
      CommitKeeps(w, t);
    } else if t :| 0 <= t < |w.holders| && next == RollBack(w, t) {
      RollBackKeeps(w, t);
    } else if next == w.(holders := w.holders + [Idle(true)]) {
      JoinKeeps(w);
    } else {
      var orgs :| OrgsMayTurn(w, orgs) && next == w.(orgs := orgs);
      TurnKeeps(w, orgs);
    }
  }

  ghost predicate Run(trace: seq<World>) {
    && trace != [] && trace[0].books == trace[0].initial && trace[0].log == [] && trace[0].holders == []
    && Consistent(trace[0].books) && Covered(trace[0].books, trace[0].orgs)
    && forall i :: 0 <= i < |trace| - 1 ==> Next(trace[i], trace[i + 1])
  }

  /**
   Sessions of any number of transfers each, chosen as they go, refused ones included: in every reachable
   state the committed books are those of the committed sessions run one at a time, each alone, in commit
   order, and every transfer a session posted is posted there too.
   */
  lemma {:induction false} SessionsAreSerial(trace: seq<World>, k: nat)
    requires Run(trace) && k < |trace|
    ensures Ok(trace[k]) && trace[k].initial == trace[0].books
    ensures trace[k].books == ReplayAll(trace[0].books, trace[k].log)
    ensures forall i :: 0 <= i < |trace[k].log| ==> Honest(ReplayAll(trace[0].books, trace[k].log[..i]), trace[k].log[i])
    ensures Consistent(trace[k].books) && Covered(trace[k].books, trace[k].orgs)
  {
    hide Next, Consistent, Covered;
    if k > 0 {
      SessionsAreSerial(trace, k - 1);
      NextKeeps(trace[k - 1], trace[k]);
    }
  }

  // ---- what a session sees ----

  /** The books as session t sees them: the committed ones under its own rows. */
  function View(w: World, t: nat): Books
    requires t < |w.holders|
  {
    Books(w.books.accounts + w.holders[t].rows, w.books.journal + w.holders[t].txs)
  }

  /**
   Each transfer of a session does on what the session sees what the atomic transfer does there, posted,
   replayed or refused; nobody else sees any of it, and the session has posted one more exactly when the
   atomic transfer would have.
   */
  lemma ExecuteIsAlone(w: World, t: nat, r: Request)
    requires t < |w.holders|
    ensures var next := Execute(w, t, r);
            && |next.holders| == |w.holders|
            && View(next, t) == Alone(View(w, t), w.orgs, r).0
            && next.holders[t].ran == w.holders[t].ran + (if Alone(View(w, t), w.orgs, r).1 == Posted then [r] else [])
            && next.books == w.books && next.log == w.log && next.orgs == w.orgs
            && forall u :: 0 <= u < |w.holders| && u != t ==> next.holders[u] == w.holders[u]
  {
    hide Has, Permit;
    var h := w.holders[t];
    HasJoined(w.books.journal, h.txs, r.key);
    if r.amount > 0 && !Has(w.books.journal, r.key) && !Has(h.txs, r.key) {
      hide OpenBoth, Post, TxOf;
      var rows := h.rows[r.source := Value(w, h, r.source)][r.target := Value(w, h, r.target)];
      ViewOpened(w, t, r, rows);
      ViewPosted(w, t, r, rows);
    }
  }

  lemma ViewOpened(w: World, t: nat, r: Request, rows: map<Owner, int>)
    requires t < |w.holders|
    requires rows == w.holders[t].rows[r.source := Value(w, w.holders[t], r.source)][r.target := Value(w, w.holders[t], r.target)]
    ensures OpenBoth(View(w, t), r.source, r.target) == Books(w.books.accounts + rows, View(w, t).journal)
  {
    assert OpenBoth(View(w, t), r.source, r.target).accounts == w.books.accounts + rows;
  }

  lemma ViewPosted(w: World, t: nat, r: Request, rows: map<Owner, int>)
    requires t < |w.holders| && r.source in rows && r.target in rows
    ensures var debited := rows[r.source := rows[r.source] - r.amount];
            && Post(Books(w.books.accounts + rows, View(w, t).journal), r.source, r.target, r.amount, r.key)
                 == Books(w.books.accounts + debited[r.target := debited[r.target] + r.amount],
                          w.books.journal + (w.holders[t].txs + [TxOf(r)]))
  {
    var debited := rows[r.source := rows[r.source] - r.amount];
    var x := w.books.accounts + rows;
    assert x[r.source := x[r.source] - r.amount] == w.books.accounts + debited;
  }

  /** A commit makes what the session sees what everybody sees. */
  lemma CommitShows(w: World, t: nat)
    requires t < |w.holders|
    ensures CommitOf(w, t).books == View(w, t) && View(CommitOf(w, t), t) == View(w, t)
    ensures RollBack(w, t).books == w.books && View(RollBack(w, t), t) == w.books
  {
    assert w.books.accounts + map[] == w.books.accounts && w.books.journal + [] == w.books.journal;
  }

  /** A session works through these transfers, refused ones included, and nobody else does anything. */
  function Working(w: World, t: nat, rs: seq<Request>): World
    requires t < |w.holders|
    ensures |Working(w, t, rs).holders| == |w.holders|
  {
    if rs == [] then w else Execute(Working(w, t, rs[..|rs| - 1]), t, rs[|rs| - 1])
  }

  /** A session that nobody disturbs leaves, when it commits, the books of its transfers run alone, one after another. */
  lemma {:induction false} UndisturbedIsSerial(w: World, t: nat, rs: seq<Request>)
    requires t < |w.holders| && w.holders[t] == Idle(true)
    ensures View(Working(w, t, rs), t) == RunAll(w.books, w.orgs, rs)
    ensures CommitOf(Working(w, t, rs), t).books == RunAll(w.books, w.orgs, rs)
    ensures Working(w, t, rs).orgs == w.orgs
  {
    hide Execute, Alone;
    CommitShows(Working(w, t, rs), t);
    if rs == [] {
      assert w.books.accounts + map[] == w.books.accounts && w.books.journal + [] == w.books.journal;
    } else {
      var early := rs[..|rs| - 1];
      UndisturbedIsSerial(w, t, early);
      ExecuteIsAlone(Working(w, t, early), t, rs[|rs| - 1]);
    }
  }
}
