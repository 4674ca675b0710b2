/**
 Any number of database sessions running `transfer` at the same time, interleaved at its
 statements (src/control_plane/app.py:278-304). Row locks are held to commit, uncommitted rows
 are invisible to other sessions, and a unique index makes an insert wait for the uncommitted
 insert of the same value. A session may also be lost at any point, and organization rows that
 no session has locked may change.
 */
module Interleaving {
  import opened Options
  import opened Ledger

  datatype Request = Request(source: Owner, target: Owner, amount: int, key: Key, enforce: bool)

  /** The statement a session executes next. */
  datatype Pc =
    | KeyCheck | OpenSource | OpenTarget | LockLower | LockHigher | KeyRecheck | ReadBalance | CheckPayer
    | DebitRow | CreditRow | InsertTx | Committing(posted: bool) | Finished(ending: Ending)

  datatype Ending = Returned(outcome: Outcome) | KeyClash | Lost

  /**
   One session: its uncommitted account rows `added` with their row ids, the two row ids it will
   lock in ascending order, the locks it holds, and the values it has read or written so far.
   */
  datatype Session = Session(req: Request, pc: Pc, added: map<Owner, nat>, lower: nat, higher: nat, held: set<nat>,
                             payer: Option<nat>, read: int, debited: int, credited: int)

  /** An entry of the commit history: a posted transfer, or account rows a late replay left behind. */
  datatype Commit = Ran(req: Request, orgs: seq<Organization>) | Rows(owners: set<Owner>)

  /** The committed tables, the row id of every account, the sessions, and the history of commits. */
  datatype State = State(initial: Books, books: Books, ids: map<Owner, nat>, orgs: seq<Organization>,
                         sessions: seq<Session>, log: seq<Commit>)

  // ---- steps ----

  function IdOf(st: State, s: Session, o: Owner): nat {
    if o in s.added then s.added[o] else if o in st.ids then st.ids[o] else 0
  }

  predicate Visible(st: State, s: Session, o: Owner) {
    o in st.books.accounts || o in s.added
  }

  /** t cannot execute its next statement before u ends. */
  predicate Waits(st: State, t: nat, u: nat)
    requires t < |st.sessions| && u < |st.sessions|
  {
    var s, v := st.sessions[t], st.sessions[u];
    && t != u
    && match s.pc
       case OpenSource => !Visible(st, s, s.req.source) && s.req.source in v.added
       case OpenTarget => !Visible(st, s, s.req.target) && s.req.target in v.added
       case LockLower => s.lower in v.held
       case LockHigher => s.higher in v.held
       case CheckPayer => s.req.enforce && s.req.source.Org? && v.payer == Some(s.req.source.id)
       case InsertTx => v.pc == Committing(true) && v.req.key == s.req.key
       case _ => false
  }

  ghost predicate Enabled(st: State, t: nat) {
    && t < |st.sessions|
    && !st.sessions[t].pc.Finished?
    && forall u :: 0 <= u < |st.sessions| ==> !Waits(st, t, u)
  }

  /** A row id no account, committed or not, has. */
  ghost predicate Unused(st: State, id: nat) {
    && (forall o :: o in st.ids ==> st.ids[o] != id)
    && (forall u, o :: 0 <= u < |st.sessions| && o in st.sessions[u].added ==> st.sessions[u].added[o] != id)
  }

  function Put(st: State, t: nat, s: Session): State
    requires t < |st.sessions|
  {
    st.(sessions := st.sessions[t := s])
  }

  /** Commit, rollback or a lost connection: locks and uncommitted rows are gone. */
  function End(s: Session, ending: Ending): Session {
    s.(pc := Finished(ending), added := map[], held := {}, payer := None)
  }

  function WithAccount(st: State, s: Session, o: Owner, id: nat): Session {
    if Visible(st, s, o) then s else s.(added := s.added[o := id])
  }

  function LockOrder(st: State, s: Session): Session {
    var a, b := IdOf(st, s, s.req.source), IdOf(st, s, s.req.target);
    s.(pc := LockLower, lower := if a <= b then a else b, higher := if a <= b then b else a)
  }

  /** The account table after the fresh rows of a session are committed. */
  function WithRows(accounts: map<Owner, int>, owners: set<Owner>): map<Owner, int> {
    map o | o in accounts.Keys + owners :: if o in accounts then accounts[o] else 0
  }

  /** The commit of a session: its row versions replace the committed ones. */
  function CommitState(st: State, t: nat): State
    requires t < |st.sessions| && st.sessions[t].pc.Committing?
  {
    var s := st.sessions[t];
    var r := s.req;
    var rows := WithRows(st.books.accounts, s.added.Keys);
    var next :=
      if s.pc.posted then
        Books(rows[r.source := s.debited][r.target := s.credited],
              st.books.journal + [TransferTx(r.source, r.target, r.amount, r.key)])
      else st.books.(accounts := rows);
    var done := End(s, Returned(if s.pc.posted then Posted else Replayed));
    st.(books := next, ids := st.ids + s.added, sessions := st.sessions[t := done],
        log := st.log + [if s.pc.posted then Ran(r, st.orgs) else Rows(s.added.Keys)])
  }

  /** The next statement of session t; `id` is the row id an inserted account would get. */
  function Advance(st: State, t: nat, id: nat): State
    requires t < |st.sessions|
  {
    var s := st.sessions[t];
    var r := s.req;
    match s.pc
    case KeyCheck =>
      Put(st, t, if r.amount <= 0 then End(s, Returned(Refused(NotPositive)))
                 else if Has(st.books.journal, r.key) then End(s, Returned(Replayed))
                 else s.(pc := OpenSource))
    case OpenSource => Put(st, t, WithAccount(st, s, r.source, id).(pc := OpenTarget))
    case OpenTarget => Put(st, t, LockOrder(st, WithAccount(st, s, r.target, id)))
    case LockLower => Put(st, t, s.(pc := LockHigher, held := {s.lower}))
    case LockHigher => Put(st, t, s.(pc := KeyRecheck, held := {s.lower, s.higher}))
    case KeyRecheck => Put(st, t, s.(pc := if Has(st.books.journal, r.key) then Committing(false) else ReadBalance))
    case ReadBalance => Put(st, t, s.(pc := CheckPayer, read := Balance(st.books, r.source)))
    case CheckPayer =>
      Put(st, t, match Permit(st.orgs, r.source, s.read, r.amount, r.enforce)
                 case Posted => s.(pc := DebitRow, payer := if r.enforce && r.source.Org? then Some(r.source.id) else None)
                 case other => End(s, Returned(other)))
    case DebitRow => Put(st, t, s.(pc := CreditRow, debited := Balance(st.books, r.source) - r.amount))
    case CreditRow =>
      var row := if r.source == r.target then s.debited else Balance(st.books, r.target);
      Put(st, t, s.(pc := InsertTx, credited := row + r.amount))
    case InsertTx => Put(st, t, if Has(st.books.journal, r.key) then End(s, KeyClash) else s.(pc := Committing(true)))
    case Committing(_) => CommitState(st, t)
    case Finished(_) => st
  }

  /** Organizations may be added and have their status changed, except a row that a session has locked. */
  ghost predicate OrgsMayBecome(st: State, orgs: seq<Organization>) {
    && |st.orgs| <= |orgs|
    && (forall i :: 0 <= i < |st.orgs| ==> orgs[i].credit == st.orgs[i].credit)
    && (forall i :: |st.orgs| <= i < |orgs| ==> Balance(st.books, Org(i)) + orgs[i].credit >= 0)
    && (forall t :: 0 <= t < |st.sessions| && st.sessions[t].payer.Some? && st.sessions[t].payer.value < |st.orgs| ==>
          orgs[st.sessions[t].payer.value] == st.orgs[st.sessions[t].payer.value])
  }

  ghost predicate Step(st: State, st': State) {
    || (exists t, id :: Enabled(st, t) && Unused(st, id) && st' == Advance(st, t, id))
    || (exists t :: 0 <= t < |st.sessions| && !st.sessions[t].pc.Finished? && st' == Put(st, t, End(st.sessions[t], Lost)))
    || (exists orgs :: OrgsMayBecome(st, orgs) && st' == st.(orgs := orgs))
  }

  // ---- the serial history ----

  function Serial(b: Books, c: Commit): Books {
    match c
    case Ran(r, orgs) => Transfer(b, orgs, r.source, r.target, r.amount, r.key, r.enforce).0
    case Rows(owners) => b.(accounts := WithRows(b.accounts, owners))
  }

  /** A committed transfer is one that running alone, on the books before it, would have posted. */
  predicate Honoured(b: Books, c: Commit) {
    match c
    case Ran(r, orgs) => Transfer(b, orgs, r.source, r.target, r.amount, r.key, r.enforce).1 == Posted
    case Rows(_) => true
  }

  /** Applies commits one at a time, in order, each as a transfer that runs alone. */
  function Replay(b: Books, log: seq<Commit>): Books {
    if log == [] then b else Serial(Replay(b, log[..|log| - 1]), log[|log| - 1])
  }

  // ---- the invariant ----

  predicate Opened(pc: Pc) { !(pc.KeyCheck? || pc.OpenSource? || pc.OpenTarget? || pc.Finished?) }

  predicate Locked(pc: Pc) { Opened(pc) && !pc.LockLower? && !pc.LockHigher? }

  predicate Read(pc: Pc) { Locked(pc) && !pc.KeyRecheck? && !pc.ReadBalance? && pc != Committing(false) }

  predicate Allowed(pc: Pc) { Read(pc) && !pc.CheckPayer? }

  ghost predicate AccountsSeen(st: State, s: Session) {
    && s.added.Keys <= {s.req.source, s.req.target}
    && s.added.Keys !! st.books.accounts.Keys
    && (Opened(s.pc) ==> Visible(st, s, s.req.source) && Visible(st, s, s.req.target))
    && (s.pc.OpenTarget? ==> Visible(st, s, s.req.source) && s.added.Keys <= {s.req.source})
    && (s.pc.KeyCheck? || s.pc.OpenSource? || s.pc.Finished? ==> s.added == map[])
  }

  ghost predicate LocksHeld(st: State, s: Session) {
    && (Opened(s.pc) ==>
          var a, b := IdOf(st, s, s.req.source), IdOf(st, s, s.req.target);
          s.lower <= s.higher && {s.lower, s.higher} == {a, b})
    && s.held == (if Locked(s.pc) then {s.lower, s.higher} else if s.pc.LockHigher? then {s.lower} else {})
  }

  ghost predicate ValuesCurrent(st: State, s: Session) {
    var r := s.req;
    && (!s.pc.KeyCheck? && !s.pc.Finished? ==> r.amount > 0)
    && (Read(s.pc) ==> s.read == Balance(st.books, r.source))
    && (Allowed(s.pc) ==> Permit(st.orgs, r.source, Balance(st.books, r.source), r.amount, r.enforce) == Posted)
    && s.payer == (if Allowed(s.pc) && r.enforce && r.source.Org? then Some(r.source.id) else None)
    && (s.pc in {CreditRow, InsertTx, Committing(true)} ==> s.debited == Balance(st.books, r.source) - r.amount)
    && (s.pc in {InsertTx, Committing(true)} ==>
          s.credited == (if r.source == r.target then s.debited else Balance(st.books, r.target)) + r.amount)
    && (s.pc == Committing(true) ==> !Has(st.books.journal, r.key))
    && (s.pc in {Committing(false), Finished(Returned(Posted)), Finished(Returned(Replayed))} ==> Has(st.books.journal, r.key))
  }

  ghost predicate SessionOk(st: State, s: Session) {
    && (s.req.enforce || s.req.source == System)
    && AccountsSeen(st, s) && LocksHeld(st, s) && ValuesCurrent(st, s)
    && (forall o, p :: o in s.added && p in st.ids ==> s.added[o] != st.ids[p])
    && (forall o, p :: o in s.added && p in s.added && o != p ==> s.added[o] != s.added[p])
  }

  ghost predicate Apart(s: Session, v: Session) {
    && s.added.Keys !! v.added.Keys
    && s.held !! v.held
    && (forall o, p :: o in s.added && p in v.added ==> s.added[o] != v.added[p])
    && !(s.pc == Committing(true) && v.pc == Committing(true) && s.req.key == v.req.key)
  }

  ghost predicate TablesOk(st: State) {
    && st.ids.Keys == st.books.accounts.Keys
    && (forall o, p :: o in st.ids && p in st.ids && o != p ==> st.ids[o] != st.ids[p])
    && Consistent(st.books) && Covered(st.books, st.orgs)
    && st.books == Replay(st.initial, st.log)
    && (forall i :: 0 <= i < |st.log| ==> Honoured(Replay(st.initial, st.log[..i]), st.log[i]))
  }

  ghost predicate Inv(st: State) {
    && TablesOk(st)
    && (forall t :: 0 <= t < |st.sessions| ==> SessionOk(st, st.sessions[t]))
    && (forall t, u :: 0 <= t < u < |st.sessions| ==> Apart(st.sessions[t], st.sessions[u]))
  }

  lemma ApartSymmetric(s: Session, v: Session)
    requires Apart(s, v)
    ensures Apart(v, s)
  {}

  lemma ApartFrom(st: State, t: nat, u: nat)
    requires Inv(st) && t < |st.sessions| && u < |st.sessions| && t != u
    ensures Apart(st.sessions[t], st.sessions[u])
  {
    if u < t { ApartSymmetric(st.sessions[u], st.sessions[t]); }
  }

  /** A step that only changes session t's own data keeps the invariant if t stays well-formed and apart. */
  lemma LocalKeeps(st: State, t: nat, s: Session)
    requires Inv(st) && t < |st.sessions| && SessionOk(st, s)
    requires forall u :: 0 <= u < |st.sessions| && u != t ==> Apart(s, st.sessions[u])
    ensures Inv(Put(st, t, s))
  {
    var next := Put(st, t, s);
    forall u | 0 <= u < |next.sessions| ensures SessionOk(next, next.sessions[u]) {
      SameTables(st, next, next.sessions[u]);
    }
    forall a, b | 0 <= a < b < |next.sessions| ensures Apart(next.sessions[a], next.sessions[b]) {
      if b == t { ApartSymmetric(s, st.sessions[a]); }
    }
  }

  lemma SameTables(st: State, next: State, s: Session)
    requires next.books == st.books && next.ids == st.ids && next.orgs == st.orgs && SessionOk(st, s)
    ensures SessionOk(next, s)
  {}

  lemma EndKeeps(st: State, t: nat, e: Ending)
    requires Inv(st) && t < |st.sessions|
    requires e in {Returned(Posted), Returned(Replayed)} ==> Has(st.books.journal, st.sessions[t].req.key)
    ensures Inv(Put(st, t, End(st.sessions[t], e)))
  {
    EndedOk(st, st.sessions[t], e);
    LocalKeeps(st, t, End(st.sessions[t], e));
  }

  /** Steps that leave fresh rows and locks alone. */
  lemma QuietKeeps(st: State, t: nat, s: Session)
    requires Inv(st) && t < |st.sessions| && SessionOk(st, s)
    requires s.added == st.sessions[t].added && s.held == st.sessions[t].held && s.req == st.sessions[t].req
    requires s.pc == Committing(true) ==>
               forall u :: 0 <= u < |st.sessions| && u != t ==>
                 !(st.sessions[u].pc == Committing(true) && st.sessions[u].req.key == s.req.key)
    ensures Inv(Put(st, t, s))
  {
    forall u | 0 <= u < |st.sessions| && u != t ensures Apart(s, st.sessions[u]) {
      ApartFrom(st, t, u);
    }
    LocalKeeps(st, t, s);
  }

  lemma OpenStepKeeps(st: State, t: nat, id: nat, o: Owner, s: Session)
    requires Inv(st) && t < |st.sessions| && Unused(st, id)
    requires !Visible(st, st.sessions[t], o) ==> forall u :: 0 <= u < |st.sessions| ==> o !in st.sessions[u].added
    requires s.added == WithAccount(st, st.sessions[t], o, id).added && s.held == {} && !s.pc.Committing?
    requires SessionOk(st, s)
    ensures Inv(Put(st, t, s))
  {
    forall u | 0 <= u < |st.sessions| && u != t ensures Apart(s, st.sessions[u]) {
      ApartFrom(st, t, u);
    }
    LocalKeeps(st, t, s);
  }

  lemma OpenSourceKeeps(st: State, t: nat, id: nat)
    requires Inv(st) && Enabled(st, t) && Unused(st, id) && st.sessions[t].pc.OpenSource?
    ensures Inv(Advance(st, t, id))
  {
    var s := st.sessions[t];
    if !Visible(st, s, s.req.source) {
      forall u | 0 <= u < |st.sessions| ensures s.req.source !in st.sessions[u].added { assert !Waits(st, t, u); }
    }
    OpenStepKeeps(st, t, id, s.req.source, WithAccount(st, s, s.req.source, id).(pc := OpenTarget));
  }

  lemma OpenTargetKeeps(st: State, t: nat, id: nat)
    requires Inv(st) && Enabled(st, t) && Unused(st, id) && st.sessions[t].pc.OpenTarget?
    ensures Inv(Advance(st, t, id))
  {
    var s := st.sessions[t];
    if !Visible(st, s, s.req.target) {
      forall u | 0 <= u < |st.sessions| ensures s.req.target !in st.sessions[u].added { assert !Waits(st, t, u); }
    }
    OpenStepKeeps(st, t, id, s.req.target, LockOrder(st, WithAccount(st, s, s.req.target, id)));
  }

  lemma LockKeeps(st: State, t: nat, id: nat)
    requires Inv(st) && Enabled(st, t) && (st.sessions[t].pc.LockLower? || st.sessions[t].pc.LockHigher?)
    ensures Inv(Advance(st, t, id))
  {
    var s := Advance(st, t, id).sessions[t];
    forall u | 0 <= u < |st.sessions| && u != t ensures Apart(s, st.sessions[u]) {
      ApartFrom(st, t, u);
      assert !Waits(st, t, u);
    }
    LocalKeeps(st, t, s);
  }

  lemma InsertKeeps(st: State, t: nat, id: nat)
    requires Inv(st) && Enabled(st, t) && st.sessions[t].pc.InsertTx?
    ensures Inv(Advance(st, t, id))
  {
    hide TablesOk, Apart, Has;
    var s := st.sessions[t];
    if Has(st.books.journal, s.req.key) {
      EndKeeps(st, t, KeyClash);
    } else {
      forall u | 0 <= u < |st.sessions| && u != t
        ensures !(st.sessions[u].pc == Committing(true) && st.sessions[u].req.key == s.req.key)
      {
        assert !Waits(st, t, u);
      }
      QuietKeeps(st, t, s.(pc := Committing(true)));
    }
  }

  // ---- commit ----

  lemma OpenedRows(b: Books, owners: set<Owner>, source: Owner, target: Owner)
    requires owners <= {source, target} && owners !! b.accounts.Keys
    requires source in b.accounts.Keys + owners && target in b.accounts.Keys + owners
    ensures WithRows(b.accounts, owners) == OpenBoth(b, source, target).accounts
  {
    var x, y := WithRows(b.accounts, owners), OpenBoth(b, source, target).accounts;
    assert forall o :: o in x <==> o in y;
    assert forall o :: o in x ==> x[o] == y[o];
  }

  lemma RowVersions(b: Books, r: Request, owners: set<Owner>, debited: int, credited: int)
    requires owners <= {r.source, r.target} && owners !! b.accounts.Keys
    requires r.source in b.accounts.Keys + owners && r.target in b.accounts.Keys + owners
    requires debited == Balance(b, r.source) - r.amount
    requires credited == (if r.source == r.target then debited else Balance(b, r.target)) + r.amount
    ensures Books(WithRows(b.accounts, owners)[r.source := debited][r.target := credited],
                  b.journal + [TransferTx(r.source, r.target, r.amount, r.key)])
         == Post(OpenBoth(b, r.source, r.target), r.source, r.target, r.amount, r.key)
  {
    OpenedRows(b, owners, r.source, r.target);
    var ready := OpenBoth(b, r.source, r.target);
    assert ready.accounts[r.source] == Balance(b, r.source);
    assert ready.accounts[r.target] == Balance(b, r.target);
  }

  /** Committing equals running the transfer alone on the committed books, at the moment of the commit. */
  lemma CommitIsSerial(st: State, t: nat)
    requires Inv(st) && t < |st.sessions| && st.sessions[t].pc == Committing(true)
    ensures var r := st.sessions[t].req;
            Transfer(st.books, st.orgs, r.source, r.target, r.amount, r.key, r.enforce) == (CommitState(st, t).books, Posted)
  {
    var s := st.sessions[t];
    assert SessionOk(st, s);
    RowVersions(st.books, s.req, s.added.Keys, s.debited, s.credited);
    assert OpenBoth(st.books, s.req.source, s.req.target).accounts[s.req.source] == Balance(st.books, s.req.source);
  }

  /** A commit keeps the books and touches the balances of its own two parties only. */
  lemma CommitBooks(st: State, t: nat)
    requires Inv(st) && t < |st.sessions| && st.sessions[t].pc.Committing?
    ensures var s, next := st.sessions[t], CommitState(st, t);
            && Consistent(next.books) && Covered(next.books, st.orgs) && Has(next.books.journal, s.req.key)
            && forall o :: !s.pc.posted || o !in {s.req.source, s.req.target} ==> Balance(next.books, o) == Balance(st.books, o)
  {
    var s := st.sessions[t];
    var r := s.req;
    assert SessionOk(st, s);
    if s.pc.posted {
      CommitIsSerial(st, t);
      TransferKeepsBooks(st.books, st.orgs, r.source, r.target, r.amount, r.key, r.enforce);
      TransferKeepsCover(st.books, st.orgs, r.source, r.target, r.amount, r.key, r.enforce);
      TransferEffect(st.books, st.orgs, r.source, r.target, r.amount, r.key, r.enforce);
    } else {
      RowsKeep(st.books, s.added.Keys);
    }
  }

  lemma CommitTables(st: State, t: nat)
    requires Inv(st) && t < |st.sessions| && st.sessions[t].pc.Committing?
    ensures TablesOk(CommitState(st, t))
  {
    assert SessionOk(st, st.sessions[t]);
    CommitBooks(st, t);
    CommitHonoured(st, t);
    CommitIds(st, t);
  }

  lemma CommitIds(st: State, t: nat)
    requires Inv(st) && t < |st.sessions| && st.sessions[t].pc.Committing?
    ensures var next := CommitState(st, t);
            && next.ids.Keys == next.books.accounts.Keys
            && forall o, p :: o in next.ids && p in next.ids && o != p ==> next.ids[o] != next.ids[p]
  {
    assert SessionOk(st, st.sessions[t]);
  }

  lemma CommitHonoured(st: State, t: nat)
    requires Inv(st) && t < |st.sessions| && st.sessions[t].pc.Committing?
    ensures var next := CommitState(st, t);
            && next.books == Replay(st.initial, next.log)
            && forall i :: 0 <= i < |next.log| ==> Honoured(Replay(st.initial, next.log[..i]), next.log[i])
  {
    var next := CommitState(st, t);
    assert next.log[..|st.log|] == st.log;
    if st.sessions[t].pc.posted { CommitIsSerial(st, t); }
    forall i | 0 <= i < |next.log| ensures Honoured(Replay(st.initial, next.log[..i]), next.log[i]) {
      assert i < |st.log| ==> next.log[..i] == st.log[..i];
    }
  }

  lemma RowsKeep(b: Books, owners: set<Owner>)
    requires Consistent(b)
    ensures var c := b.(accounts := WithRows(b.accounts, owners));
            Consistent(c) && forall o :: Balance(c, o) == Balance(b, o)
  {
    var c := b.(accounts := WithRows(b.accounts, owners));
    forall o | o in c.accounts ensures c.accounts[o] == EntriesBalance(c.journal, o) {
      if o in b.accounts { assert o !in Imbalance(b); } else { AbsentIsZero(b.journal, o); }
    }
    assert Imbalance(c) == {};
  }

  /** Disjoint row locks mean different accounts. */
  lemma DifferentRows(st: State, t: nat, u: nat, o: Owner)
    requires Inv(st) && t < |st.sessions| && u < |st.sessions| && t != u
    requires Locked(st.sessions[t].pc) && Locked(st.sessions[u].pc)
    requires o in {st.sessions[t].req.source, st.sessions[t].req.target}
    ensures o !in {st.sessions[u].req.source, st.sessions[u].req.target}
  {
    var s, v := st.sessions[t], st.sessions[u];
    ApartFrom(st, t, u);
    assert SessionOk(st, s) && SessionOk(st, v);
    assert IdOf(st, s, o) in s.held;
  }

  lemma RowsUnnoticed(st: State, t: nat, u: nat)
    requires Inv(st) && t < |st.sessions| && u < |st.sessions| && t != u && st.sessions[t].pc.Committing?
    ensures AccountsSeen(CommitState(st, t), st.sessions[u])
  {
    hide TablesOk, LocksHeld, ValuesCurrent, TransferTx;
    var s, v, next := st.sessions[t], st.sessions[u], CommitState(st, t);
    ApartFrom(st, t, u);
    assert SessionOk(st, s) && SessionOk(st, v);
    assert next.books.accounts.Keys == st.books.accounts.Keys + s.added.Keys;
  }

  lemma LocksUnnoticed(st: State, t: nat, u: nat)
    requires Inv(st) && t < |st.sessions| && u < |st.sessions| && t != u && st.sessions[t].pc.Committing?
    ensures LocksHeld(CommitState(st, t), st.sessions[u])
  {
    var v, next := st.sessions[u], CommitState(st, t);
    ApartFrom(st, t, u);
    assert SessionOk(st, st.sessions[t]) && SessionOk(st, v);
    assert forall o :: Visible(st, v, o) ==> IdOf(next, v, o) == IdOf(st, v, o);
  }

  lemma ValuesUnnoticed(st: State, t: nat, u: nat)
    requires Inv(st) && t < |st.sessions| && u < |st.sessions| && t != u && st.sessions[t].pc.Committing?
    ensures ValuesCurrent(CommitState(st, t), st.sessions[u])
  {
    var s, v, next := st.sessions[t], st.sessions[u], CommitState(st, t);
    ApartFrom(st, t, u);
    assert SessionOk(st, v);
    if Locked(v.pc) {
      forall o | o in {v.req.source, v.req.target} ensures Balance(next.books, o) == Balance(st.books, o) {
        DifferentRows(st, u, t, o);
        CommitBooks(st, t);
      }
    }
    StillThere(st, t, v.req.key);
  }

  /** The journal grows by the committing key and no other. */
  lemma StillThere(st: State, t: nat, key: Key)
    requires t < |st.sessions| && st.sessions[t].pc.Committing?
    ensures Has(CommitState(st, t).books.journal, key)
       <==> Has(st.books.journal, key) || (st.sessions[t].pc.posted && st.sessions[t].req.key == key)
  {
    var before, after := st.books.journal, CommitState(st, t).books.journal;
    assert forall i :: 0 <= i < |before| ==> after[i] == before[i];
    if st.sessions[t].pc.posted { assert after[|before|].key == st.sessions[t].req.key; }
  }

  /** A session does not notice the commit of another: what it has locked, read and written still stands. */
  lemma CommitUnnoticed(st: State, t: nat, u: nat)
    requires Inv(st) && t < |st.sessions| && u < |st.sessions| && t != u && st.sessions[t].pc.Committing?
    ensures SessionOk(CommitState(st, t), st.sessions[u])
  {
    ApartFrom(st, t, u);
    RowsUnnoticed(st, t, u);
    LocksUnnoticed(st, t, u);
    ValuesUnnoticed(st, t, u);
    assert SessionOk(st, st.sessions[u]);
  }

  lemma CommitKeeps(st: State, t: nat)
    requires Inv(st) && t < |st.sessions| && st.sessions[t].pc.Committing?
    ensures Inv(CommitState(st, t))
  {
    var next := CommitState(st, t);
    CommitTables(st, t);
    forall u | 0 <= u < |next.sessions| ensures SessionOk(next, next.sessions[u]) {
      if u == t { CommittedOk(st, t); } else { CommitUnnoticed(st, t, u); }
    }
    forall a, b | 0 <= a < b < |next.sessions| ensures Apart(next.sessions[a], next.sessions[b]) {
      CommitApart(st, t, a, b);
    }
  }

  lemma CommittedOk(st: State, t: nat)
    requires Inv(st) && t < |st.sessions| && st.sessions[t].pc.Committing?
    ensures SessionOk(CommitState(st, t), CommitState(st, t).sessions[t])
  {
    assert SessionOk(st, st.sessions[t]);
    CommitBooks(st, t);
    EndedOk(CommitState(st, t), st.sessions[t], CommitState(st, t).sessions[t].pc.ending);
  }

  lemma CommitApart(st: State, t: nat, a: nat, b: nat)
    requires t < |st.sessions| && st.sessions[t].pc.Committing? && a < b < |st.sessions|
    requires Apart(st.sessions[a], st.sessions[b])
    ensures Apart(CommitState(st, t).sessions[a], CommitState(st, t).sessions[b])
  {}

  lemma EndedOk(st: State, s: Session, e: Ending)
    requires s.req.enforce || s.req.source == System
    requires e in {Returned(Posted), Returned(Replayed)} ==> Has(st.books.journal, s.req.key)
    ensures SessionOk(st, End(s, e))
  {}

  lemma OrgsKeep(st: State, orgs: seq<Organization>)
    requires Inv(st) && OrgsMayBecome(st, orgs)
    ensures Inv(st.(orgs := orgs))
  {
    var next := st.(orgs := orgs);
    forall t | 0 <= t < |next.sessions| ensures SessionOk(next, next.sessions[t]) {
      var s := st.sessions[t];
      assert SessionOk(st, s);
      if Allowed(s.pc) && s.req.enforce && s.req.source.Org? {
        assert s.payer == Some(s.req.source.id);
      }
    }
  }

  lemma KeyCheckKeeps(st: State, t: nat, id: nat)
    requires Inv(st) && Enabled(st, t) && st.sessions[t].pc.KeyCheck?
    ensures Inv(Advance(st, t, id))
  {
    var s := st.sessions[t];
    assert SessionOk(st, s);
    if s.req.amount <= 0 {
      EndKeeps(st, t, Returned(Refused(NotPositive)));
    } else if Has(st.books.journal, s.req.key) {
      EndKeeps(st, t, Returned(Replayed));
    } else {
      QuietKeeps(st, t, s.(pc := OpenSource));
    }
  }

  lemma KeyRecheckKeeps(st: State, t: nat, id: nat)
    requires Inv(st) && Enabled(st, t) && st.sessions[t].pc.KeyRecheck?
    ensures Inv(Advance(st, t, id))
  {
    var s := st.sessions[t];
    assert SessionOk(st, s);
    QuietKeeps(st, t, s.(pc := if Has(st.books.journal, s.req.key) then Committing(false) else ReadBalance));
  }

  lemma ReadBalanceKeeps(st: State, t: nat, id: nat)
    requires Inv(st) && Enabled(st, t) && st.sessions[t].pc.ReadBalance?
    ensures Inv(Advance(st, t, id))
  {
    var s := st.sessions[t];
    assert SessionOk(st, s);
    QuietKeeps(st, t, s.(pc := CheckPayer, read := Balance(st.books, s.req.source)));
  }

  lemma CheckPayerKeeps(st: State, t: nat, id: nat)
    requires Inv(st) && Enabled(st, t) && st.sessions[t].pc.CheckPayer?
    ensures Inv(Advance(st, t, id))
  {
    var s := st.sessions[t];
    assert SessionOk(st, s);
    var answer := Permit(st.orgs, s.req.source, s.read, s.req.amount, s.req.enforce);
    if answer == Posted {
      QuietKeeps(st, t, s.(pc := DebitRow,
                           payer := if s.req.enforce && s.req.source.Org? then Some(s.req.source.id) else None));
    } else {
      EndKeeps(st, t, Returned(answer));
    }
  }

  lemma WriteStepsKeep(st: State, t: nat, id: nat)
    requires Inv(st) && Enabled(st, t) && (st.sessions[t].pc.DebitRow? || st.sessions[t].pc.CreditRow?)
    ensures Inv(Advance(st, t, id))
  {
    QuietKeeps(st, t, Advance(st, t, id).sessions[t]);
  }

  lemma AdvanceKeeps(st: State, t: nat, id: nat)
    requires Inv(st) && Enabled(st, t) && Unused(st, id)
    ensures Inv(Advance(st, t, id))
  {
    match st.sessions[t].pc {
      case OpenSource => OpenSourceKeeps(st, t, id);
      case OpenTarget => OpenTargetKeeps(st, t, id);
      case LockLower => LockKeeps(st, t, id);
      case LockHigher => LockKeeps(st, t, id);
      case InsertTx => InsertKeeps(st, t, id);
      case Committing(_) => CommitKeeps(st, t);
      case KeyCheck => KeyCheckKeeps(st, t, id);
      case KeyRecheck => KeyRecheckKeeps(st, t, id);
      case ReadBalance => ReadBalanceKeeps(st, t, id);
      case CheckPayer => CheckPayerKeeps(st, t, id);
      case DebitRow => WriteStepsKeep(st, t, id);
      case CreditRow => WriteStepsKeep(st, t, id);
    }
  }

  lemma AdvanceFrame(st: State, t: nat, id: nat)
    requires t < |st.sessions|
    ensures Advance(st, t, id).initial == st.initial && Advance(st, t, id).orgs == st.orgs
  {}

  lemma StepKeeps(st: State, st': State)
    requires Inv(st) && Step(st, st')
    ensures Inv(st') && st'.initial == st.initial
  {
    if t, id :| Enabled(st, t) && Unused(st, id) && st' == Advance(st, t, id) {
      AdvanceKeeps(st, t, id);
      AdvanceFrame(st, t, id);
    } else if t :| 0 <= t < |st.sessions| && !st.sessions[t].pc.Finished? && st' == Put(st, t, End(st.sessions[t], Lost)) {
      EndKeeps(st, t, Lost);
    } else {
      var orgs :| OrgsMayBecome(st, orgs) && st' == st.(orgs := orgs);
      OrgsKeep(st, orgs);
    }
  }

  // ---- runs ----

  function Begin(r: Request): Session {
    Session(r, KeyCheck, map[], 0, 0, {}, None, 0, 0, 0)
  }

  /** Consistent tables, nothing committed yet, every session about to run; only SYSTEM pays unenforced. */
  ghost predicate Start(st: State) {
    && st.books == st.initial && st.log == []
    && st.ids.Keys == st.books.accounts.Keys
    && (forall o, p :: o in st.ids && p in st.ids && o != p ==> st.ids[o] != st.ids[p])
    && Consistent(st.books) && Covered(st.books, st.orgs)
    && (forall t :: 0 <= t < |st.sessions| ==>
          && st.sessions[t] == Begin(st.sessions[t].req)
          && (st.sessions[t].req.enforce || st.sessions[t].req.source == System))
  }

  ghost predicate Run(trace: seq<State>) {
    && trace != [] && Start(trace[0])
    && forall i :: 0 <= i < |trace| - 1 ==> Step(trace[i], trace[i + 1])
  }

  lemma {:induction false} RunKeeps(trace: seq<State>, k: nat)
    requires Run(trace) && k < |trace|
    ensures Inv(trace[k]) && trace[k].initial == trace[0].books
  {
    if k == 0 {
      StartHolds(trace[0]);
    } else {
      RunKeeps(trace, k - 1);
      StepKeeps(trace[k - 1], trace[k]);
    }
  }

  lemma StartHolds(st: State)
    requires Start(st)
    ensures Inv(st)
  {
    forall t | 0 <= t < |st.sessions| ensures SessionOk(st, st.sessions[t]) {}
  }

  /** The session returned a transaction to its caller. */
  predicate Answered(s: Session) {
    s.pc in {Finished(Returned(Posted)), Finished(Returned(Replayed))}
  }

  /**
   The interleaved program refines the atomic one: in every reachable state the committed books
   are exactly the committed transfers applied one at a time in commit order, each of which the
   atomic program would have posted. Hence no lost update, no overspending, one transaction a
   key, and a session that returned a transaction left it in the books.
   */
  lemma RunIsSerial(trace: seq<State>, k: nat)
    requires Run(trace) && k < |trace|
    ensures var st := trace[k];
            && st.books == Replay(trace[0].books, st.log)
            && (forall i :: 0 <= i < |st.log| ==> Honoured(Replay(trace[0].books, st.log[..i]), st.log[i]))
            && Consistent(st.books) && Covered(st.books, st.orgs)
            && (forall t :: 0 <= t < |st.sessions| && Answered(st.sessions[t]) ==>
                  Has(st.books.journal, st.sessions[t].req.key))
  {
    RunKeeps(trace, k);
    var st := trace[k];
    forall t | 0 <= t < |st.sessions| && Answered(st.sessions[t])
      ensures Has(st.books.journal, st.sessions[t].req.key)
    {
      assert SessionOk(st, st.sessions[t]);
    }
  }

  /** A refused payer is refused by the atomic program too, unless the key was used meanwhile. */
  lemma RefusalIsSerial(st: State, t: nat, id: nat, why: Refusal)
    requires Inv(st) && Enabled(st, t) && st.sessions[t].pc.CheckPayer?
    requires Advance(st, t, id).sessions[t].pc == Finished(Returned(Refused(why)))
    ensures var r := st.sessions[t].req;
            || Has(st.books.journal, r.key)
            || Transfer(st.books, st.orgs, r.source, r.target, r.amount, r.key, r.enforce).1 == Refused(why)
  {
    assert SessionOk(st, st.sessions[t]);
  }

  // ---- deadlock ----

  /** Each transfer finds the account of at least one of its two parties, or has only one party. */
  ghost predicate Ready(st: State) {
    forall t :: 0 <= t < |st.sessions| ==> HasParty(st.books, st.sessions[t])
  }

  predicate HasParty(b: Books, s: Session) {
    s.pc.KeyCheck? || s.pc.OpenSource? || s.pc.OpenTarget? ==>
      s.req.source in b.accounts || s.req.target in b.accounts || s.req.source == s.req.target
  }

  lemma AdvanceRows(st: State, t: nat, id: nat)
    requires t < |st.sessions|
    ensures st.books.accounts.Keys <= Advance(st, t, id).books.accounts.Keys
  {
    hide Has, Permit, TransferTx;
    match st.sessions[t].pc {
      case Committing(_) =>
      case _ => assert Advance(st, t, id).books == st.books;
    }
  }

  lemma AdvanceOne(st: State, t: nat, id: nat)
    requires t < |st.sessions|
    ensures Advance(st, t, id).sessions == st.sessions[t := Advance(st, t, id).sessions[t]]
  {
    hide Has, Permit, TransferTx, WithRows, End, LockOrder, WithAccount, Balance;
  }

  lemma AdvancePc(st: State, t: nat, id: nat)
    requires t < |st.sessions|
    ensures var s, s' := st.sessions[t], Advance(st, t, id).sessions[t];
            && s'.req == s.req && !s'.pc.KeyCheck?
            && (s.pc.KeyCheck? || !s'.pc.OpenSource?) && (s.pc.OpenSource? || !s'.pc.OpenTarget?)
  {
    hide Has, Permit, TransferTx, WithRows, Balance;
    match st.sessions[t].pc {
      case OpenTarget =>
      case _ =>
    }
  }

  lemma AdvanceKeepsReady(st: State, t: nat, id: nat)
    requires Ready(st) && t < |st.sessions|
    ensures Ready(Advance(st, t, id))
  {
    hide Advance;
    var next := Advance(st, t, id);
    AdvanceRows(st, t, id);
    AdvanceOne(st, t, id);
    AdvancePc(st, t, id);
    forall u | 0 <= u < |next.sessions| ensures HasParty(next.books, next.sessions[u]) {
      assert HasParty(st.books, st.sessions[u]);
    }
  }

  /** What deadlock freedom needs of the accounts lasts for the whole run. */
  lemma StepKeepsReady(st: State, st': State)
    requires Ready(st) && Step(st, st')
    ensures Ready(st')
  {
    if t, id :| Enabled(st, t) && Unused(st, id) && st' == Advance(st, t, id) {
      AdvanceKeepsReady(st, t, id);
    }
  }

  lemma {:induction false} MostAdvanced(ss: seq<Session>, t: nat) returns (m: nat)
    requires t < |ss| && ss[t].pc.LockHigher?
    ensures m < |ss| && ss[m].pc.LockHigher?
    ensures forall u :: 0 <= u < |ss| && ss[u].pc.LockHigher? ==> ss[u].higher <= ss[m].higher
  {
    var n := |ss| - 1;
    if exists u :: 0 <= u < n && ss[u].pc.LockHigher? {
      var u :| 0 <= u < n && ss[u].pc.LockHigher?;
      m := MostAdvanced(ss[..n], u);
      assert forall v :: 0 <= v < n && ss[v].pc.LockHigher? ==> ss[..n][v].higher <= ss[m].higher;
      if ss[n].pc.LockHigher? && ss[m].higher < ss[n].higher { m := n; }
    } else {
      m := t;
    }
  }

  /** A session that holds both row locks is never held up: nobody else can have the payer's row. */
  lemma LockedSteps(st: State, t: nat) returns (u: nat)
    requires Inv(st) && t < |st.sessions| && Locked(st.sessions[t].pc)
    ensures Enabled(st, u)
  {
    if exists v :: 0 <= v < |st.sessions| && st.sessions[v].pc.Committing? {
      u :| 0 <= u < |st.sessions| && st.sessions[u].pc.Committing?;
    } else {
      u := t;
      var s := st.sessions[t];
      if s.pc.CheckPayer? {
        forall v | 0 <= v < |st.sessions| ensures !Waits(st, t, v) {
          if v != t && Locked(st.sessions[v].pc) { DifferentRows(st, t, v, s.req.source); }
          assert SessionOk(st, st.sessions[v]);
        }
      }
    }
  }

  /** Among sessions that hold one lock and want a higher one, the one with the highest wish can go on. */
  lemma HigherSteps(st: State, t: nat) returns (u: nat)
    requires Inv(st) && t < |st.sessions| && st.sessions[t].pc.LockHigher?
    requires forall v :: 0 <= v < |st.sessions| ==> !Locked(st.sessions[v].pc)
    ensures Enabled(st, u)
  {
    u := MostAdvanced(st.sessions, t);
    if v :| 0 <= v < |st.sessions| && Waits(st, u, v) {
      assert SessionOk(st, st.sessions[v]) && SessionOk(st, st.sessions[u]);
      assert st.sessions[v].lower == st.sessions[u].higher == st.sessions[v].higher;
      forall w | 0 <= w < |st.sessions| ensures !Waits(st, v, w) {
        if w != v { ApartFrom(st, v, w); }
      }
      u := v;
    }
  }

  /** Once any session is past opening its accounts, some session can go on. */
  lemma OpenedSteps(st: State, t: nat) returns (u: nat)
    requires Inv(st) && t < |st.sessions| && Opened(st.sessions[t].pc)
    ensures Enabled(st, u)
  {
    if v :| 0 <= v < |st.sessions| && Locked(st.sessions[v].pc) {
      u := LockedSteps(st, v);
    } else if v :| 0 <= v < |st.sessions| && st.sessions[v].pc.LockHigher? {
      u := HigherSteps(st, v);
    } else {
      u := t;
      forall w | 0 <= w < |st.sessions| ensures st.sessions[w].held == {} {
        assert SessionOk(st, st.sessions[w]);
      }
    }
  }

  /** The session waits for an account row that another one has inserted. */
  ghost predicate AwaitsRow(st: State, t: nat)
    requires t < |st.sessions|
  {
    (st.sessions[t].pc.OpenSource? || st.sessions[t].pc.OpenTarget?) && exists u :: 0 <= u < |st.sessions| && Waits(st, t, u)
  }

  /** Neither of the two accounts has a committed row, and the other party's row is not this session's. */
  predicate LacksBoth(st: State, s: Session) {
    s.req.source !in st.books.accounts && s.req.target !in st.books.accounts && s.req.source != s.req.target
  }

  /**
   Nobody can go on exactly when every unfinished session awaits the account row of another one; the
   lock order rules out every other deadlock.
   */
  lemma DeadlockIff(st: State)
    requires Inv(st)
    ensures (forall t :: 0 <= t < |st.sessions| ==> !Enabled(st, t))
         == (forall t :: 0 <= t < |st.sessions| && !st.sessions[t].pc.Finished? ==> AwaitsRow(st, t))
  {
    if forall t :: 0 <= t < |st.sessions| ==> !Enabled(st, t) {
      forall t | 0 <= t < |st.sessions| && !st.sessions[t].pc.Finished? ensures AwaitsRow(st, t) {
        assert !Enabled(st, t);
        if Opened(st.sessions[t].pc) { var u := OpenedSteps(st, t); }
      }
    }
  }

  /** Whoever is awaited while waiting itself lacks both accounts. */
  lemma AwaitedLacksBoth(st: State, t: nat, u: nat)
    requires Inv(st) && t < |st.sessions| && u < |st.sessions| && AwaitsRow(st, t) && Waits(st, t, u) && AwaitsRow(st, u)
    ensures st.sessions[u].pc.OpenTarget? && LacksBoth(st, st.sessions[u])
  {
    assert SessionOk(st, st.sessions[u]);
  }

  lemma OpeningSteps(st: State, t: nat) returns (u: nat)
    requires Inv(st) && Ready(st) && t < |st.sessions| && !st.sessions[t].pc.Finished?
    requires forall v :: 0 <= v < |st.sessions| ==> !Opened(st.sessions[v].pc)
    ensures Enabled(st, u)
  {
    u := t;
    if v :| 0 <= v < |st.sessions| && Waits(st, t, v) {
      assert SessionOk(st, st.sessions[v]);
      u := v;
    }
  }

  /** While any transfer is unfinished, some transfer can execute its next statement. */
  lemma NoDeadlock(st: State, t: nat) returns (u: nat)
    requires Inv(st) && Ready(st) && t < |st.sessions| && !st.sessions[t].pc.Finished?
    ensures Enabled(st, u)
  {
    if v :| 0 <= v < |st.sessions| && Opened(st.sessions[v].pc) {
      u := OpenedSteps(st, v);
    } else {
      u := OpeningSteps(st, t);
    }
  }

  /** Two sessions each await the row the other has inserted. */
  ghost predicate Embraced(st: State, t: nat, u: nat) {
    && t < |st.sessions| && u < |st.sessions|
    && st.sessions[t].pc.OpenTarget? && st.sessions[u].pc.OpenTarget? && Waits(st, t, u) && Waits(st, u, t)
  }

  /**
   Without an account on either side the promise fails: from any state, among any other sessions, two
   opposite transfers that have not begun can come to await each other's account row.
   */
  lemma MissingAccountsDeadlock(st: State, t: nat, u: nat, i: nat, j: nat)
    requires t < |st.sessions| && u < |st.sessions| && t != u
    requires var s, v := st.sessions[t], st.sessions[u];
             && s == Begin(s.req) && v == Begin(v.req)
             && s.req.source == v.req.target && s.req.target == v.req.source && LacksBoth(st, s)
             && s.req.amount > 0 && v.req.amount > 0
             && !Has(st.books.journal, s.req.key) && !Has(st.books.journal, v.req.key)
    requires forall w :: 0 <= w < |st.sessions| ==>
               st.sessions[t].req.source !in st.sessions[w].added && st.sessions[t].req.target !in st.sessions[w].added
    requires Unused(st, i) && Unused(st, j) && i != j
    ensures var s1 := Advance(st, t, i);
            var s2 := Advance(s1, u, j);
            var s3 := Advance(s2, t, i);
            && Enabled(st, t) && Enabled(s1, u) && Enabled(s2, t) && Unused(s2, i) && Enabled(s3, u) && Unused(s3, j)
            && Embraced(Advance(s3, u, j), t, u)
  {
    hide Has;
    var s, v := st.sessions[t], st.sessions[u];
    var s1 := Put(st, t, s.(pc := OpenSource));
    var s2 := Put(s1, u, v.(pc := OpenSource));
    var s3 := Put(s2, t, s.(pc := OpenTarget, added := map[s.req.source := i]));
    var s4 := Put(s3, u, v.(pc := OpenTarget, added := map[v.req.source := j]));
    assert Advance(st, t, i) == s1 && Advance(s1, u, j) == s2;
    assert Advance(s2, t, i) == s3 && Advance(s3, u, j) == s4;
    assert Waits(s4, t, u) && Waits(s4, u, t);
  }

  lemma EmbraceRows(st: State, t: nat, u: nat)
    requires t < |st.sessions| && u < |st.sessions| && t != u
    requires SessionOk(st, st.sessions[t]) && SessionOk(st, st.sessions[u])
    requires var s, v := st.sessions[t], st.sessions[u];
             && s.pc.OpenTarget? && v.pc.OpenTarget? && s.req.target in v.added && v.req.target in s.added
             && s.req.target !in s.added && v.req.target !in v.added
    ensures Embraced(st, t, u)
  {}

  lemma EmbracedParts(st: State, t: nat, u: nat)
    requires Embraced(st, t, u)
    ensures t != u && !Enabled(st, t) && !Enabled(st, u)
    ensures var s, v := st.sessions[t], st.sessions[u];
            && s.pc.OpenTarget? && v.pc.OpenTarget? && s.req.target in v.added && v.req.target in s.added
            && s.req.target !in s.added && v.req.target !in v.added
  {}

  lemma SessionsOk(st: State, t: nat)
    requires Inv(st) && t < |st.sessions|
    ensures SessionOk(st, st.sessions[t])
  {}

  /** Then they stop for good: whatever anybody else does, they await each other until one of them is lost. */
  lemma EmbraceStays(st: State, st': State, t: nat, u: nat)
    requires Inv(st) && Embraced(st, t, u) && Step(st, st')
    ensures t < |st'.sessions| && u < |st'.sessions|
    ensures Embraced(st', t, u) || st'.sessions[t].pc == Finished(Lost) || st'.sessions[u].pc == Finished(Lost)
  {
    hide Inv, SessionOk, Step, Enabled, Embraced;
    StepKeeps(st, st');
    EmbracedParts(st, t, u);
    EmbracedIn(st, t, u);
    BlockedStays(st, st', t);
    BlockedStays(st, st', u);
    if st'.sessions[t].pc != Finished(Lost) && st'.sessions[u].pc != Finished(Lost) {
      SessionsOk(st', t);
      SessionsOk(st', u);
      EmbraceRows(st', t, u);
    }
  }

  lemma EmbracedIn(st: State, t: nat, u: nat)
    requires Embraced(st, t, u)
    ensures t < |st.sessions| && u < |st.sessions|
  {}

  /** A session that cannot go on stays as it is, or is lost. */
  lemma BlockedStays(st: State, st': State, t: nat)
    requires t < |st.sessions| && !Enabled(st, t) && Step(st, st')
    ensures |st'.sessions| == |st.sessions|
    ensures st'.sessions[t] == st.sessions[t] || st'.sessions[t].pc == Finished(Lost)
  {
    hide Advance, Unused, OrgsMayBecome, Waits;
    if v, id :| Enabled(st, v) && Unused(st, id) && st' == Advance(st, v, id) {
      AdvanceOne(st, v, id);
    }
  }

  // ---- every transfer ends ----

  function Remaining(pc: Pc): nat {
    match pc
    case KeyCheck => 12 case OpenSource => 11 case OpenTarget => 10 case LockLower => 9 case LockHigher => 8
    case KeyRecheck => 7 case ReadBalance => 6 case CheckPayer => 5 case DebitRow => 4 case CreditRow => 3
    case InsertTx => 2 case Committing(_) => 1 case Finished(_) => 0
  }

  function Work(ss: seq<Session>): nat {
    if ss == [] then 0 else Work(ss[..|ss| - 1]) + Remaining(ss[|ss| - 1].pc)
  }

  lemma {:induction false} WorkDrops(ss: seq<Session>, t: nat, s: Session)
    requires t < |ss| && Remaining(s.pc) < Remaining(ss[t].pc)
    ensures Work(ss[t := s]) < Work(ss)
  {
    var n := |ss| - 1;
    if t == n {
      assert ss[t := s][..n] == ss[..n];
    } else {
      assert ss[t := s][..n] == ss[..n][t := s];
      WorkDrops(ss[..n], t, s);
    }
  }

  lemma AdvanceWorks(st: State, t: nat, id: nat)
    requires t < |st.sessions| && !st.sessions[t].pc.Finished?
    ensures Work(Advance(st, t, id).sessions) < Work(st.sessions)
  {
    var s := Advance(st, t, id).sessions[t];
    assert Advance(st, t, id).sessions == st.sessions[t := s];
    WorkDrops(st.sessions, t, s);
  }

  ghost predicate AllFinished(st: State) {
    forall t :: 0 <= t < |st.sessions| ==> st.sessions[t].pc.Finished?
  }

  ghost function UsedIds(st: State): set<nat> {
    st.ids.Values + set u, o | 0 <= u < |st.sessions| && o in st.sessions[u].added :: st.sessions[u].added[o]
  }

  lemma UnusedExists(st: State) returns (id: nat)
    ensures Unused(st, id)
  {
    id := Beyond(UsedIds(st));
    forall o | o in st.ids ensures st.ids[o] != id {
      assert st.ids[o] in UsedIds(st);
    }
    forall u, o | 0 <= u < |st.sessions| && o in st.sessions[u].added ensures st.sessions[u].added[o] != id {
      assert st.sessions[u].added[o] in UsedIds(st);
    }
  }

  lemma {:induction false} Beyond(ids: set<nat>) returns (id: nat)
    ensures forall i :: i in ids ==> i < id
  {
    if ids == {} {
      id := 0;
    } else {
      var x :| x in ids;
      var m := Beyond(ids - {x});
      assert forall i :: i in ids ==> i == x || i in ids - {x};
      id := if x < m then m else x + 1;
    }
  }

  /** Some session executes its next statement. */
  ghost predicate Moves(st: State, next: State) {
    exists u, id :: Enabled(st, u) && Unused(st, id) && next == Advance(st, u, id)
  }

  ghost predicate Halted(st: State) {
    !exists next :: Moves(st, next)
  }

  lemma MovesKeep(st: State, next: State)
    requires Inv(st) && Ready(st) && Moves(st, next)
    ensures Inv(next) && Ready(next) && Work(next.sessions) < Work(st.sessions)
  {
    hide Inv, Ready, Work, Advance;
    var u, id :| Enabled(st, u) && Unused(st, id) && next == Advance(st, u, id);
    AdvanceKeeps(st, u, id);
    AdvanceKeepsReady(st, u, id);
    AdvanceWorks(st, u, id);
  }

  lemma SomeMove(st: State)
    requires Inv(st) && Ready(st)
    ensures AllFinished(st) <==> Halted(st)
  {
    hide Inv, Ready, Advance;
    if t :| 0 <= t < |st.sessions| && !st.sessions[t].pc.Finished? {
      var u := NoDeadlock(st, t);
      var id := UnusedExists(st);
      assert Moves(st, Advance(st, u, id));
    }
  }

  /**
   However the sessions are scheduled, they execute at most twelve statements each; and a schedule that
   cannot be continued has finished them all.
   */
  lemma {:induction false} AllTransfersEnd(trace: seq<State>)
    requires trace != [] && Inv(trace[0]) && Ready(trace[0])
    requires forall i :: 0 <= i < |trace| - 1 ==> Moves(trace[i], trace[i + 1])
    ensures |trace| - 1 <= Work(trace[0].sessions) <= 12 * |trace[0].sessions|
    ensures AllFinished(trace[|trace| - 1]) <==> Halted(trace[|trace| - 1])
    decreases |trace|
  {
    hide Inv, Ready, Moves, Work, AllFinished, Halted;
    WorkBound(trace[0].sessions);
    if |trace| == 1 {
      SomeMove(trace[0]);
    } else {
      MovesKeep(trace[0], trace[1]);
      var rest := trace[1..];
      forall i | 0 <= i < |rest| - 1 ensures Moves(rest[i], rest[i + 1]) {
        assert Moves(trace[i + 1], trace[i + 2]);
      }
      AllTransfersEnd(rest);
      assert rest[|rest| - 1] == trace[|trace| - 1];
    }
  }

  lemma {:induction false} WorkBound(ss: seq<Session>)
    ensures Work(ss) <= 12 * |ss|
  {
    if ss != [] { WorkBound(ss[..|ss| - 1]); }
  }
}
