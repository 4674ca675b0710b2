/**
 What interleaved transfers answer (src/control_plane/app.py:278-304): every session that is not lost
 is told what `transfer`, run alone at one moment of its life, would have told it; and a session that
 nobody disturbs does exactly what the atomic transfer does.
 */
module Answers {
  import opened Ledger
  import opened Interleaving

  /** `transfer`, run alone on the committed books of this state. */
  function Atomic(st: State, r: Request): (Books, Outcome) {
    Transfer(st.books, st.orgs, r.source, r.target, r.amount, r.key, r.enforce)
  }

  /** The same, had no key been used yet. */
  function Anew(st: State, r: Request): (Books, Outcome) {
    Atomic(st.(books := st.books.(journal := [])), r)
  }

  // ---- keys used by others ----

  /** The key is on file, in a transaction between other accounts than the two of the request. */
  ghost predicate UsedElsewhere(journal: seq<Tx>, r: Request) {
    exists i :: 0 <= i < |journal| && journal[i].key == r.key
                && forall e :: e in journal[i].entries ==> e.owner != r.source && e.owner != r.target
  }

  /** Past the check of the key under the locks. */
  predicate Rechecked(pc: Pc) {
    Locked(pc) && !pc.KeyRecheck? && pc != Committing(false)
  }

  /** Once its accounts are locked, only transfers between other accounts can take the key of a session. */
  ghost predicate KeysSeen(st: State) {
    forall t :: 0 <= t < |st.sessions| ==> KeySeen(st.books.journal, st.sessions[t])
  }

  ghost predicate KeySeen(journal: seq<Tx>, s: Session) {
    && (Rechecked(s.pc) && Has(journal, s.req.key) ==> UsedElsewhere(journal, s.req))
    && (s.pc == Finished(KeyClash) ==> UsedElsewhere(journal, s.req))
  }

  lemma UsedStays(journal: seq<Tx>, more: seq<Tx>, r: Request)
    requires UsedElsewhere(journal, r)
    ensures UsedElsewhere(journal + more, r)
  {
    var i :| 0 <= i < |journal| && journal[i].key == r.key
             && forall e :: e in journal[i].entries ==> e.owner != r.source && e.owner != r.target;
    assert (journal + more)[i] == journal[i];
  }

  /** A statement of session t that is no commit leaves the journal alone. */
  lemma QuietJournal(st: State, t: nat, id: nat)
    requires t < |st.sessions| && !st.sessions[t].pc.Committing?
    ensures Advance(st, t, id).books == st.books
  {
    hide Has, Permit, LockOrder, WithAccount, Balance;
  }

  /** What the next statement makes of the session's own key. */
  lemma OwnKeySeen(st: State, t: nat, id: nat)
    requires Inv(st) && Enabled(st, t) && KeySeen(st.books.journal, st.sessions[t])
    ensures KeySeen(Advance(st, t, id).books.journal, Advance(st, t, id).sessions[t])
  {
    hide Has, Inv, Permit, Balance, UsedElsewhere;
    var s := st.sessions[t];
    if !s.pc.Committing? { QuietJournal(st, t, id); }
  }

  /** A commit uses the keys of other locked sessions between other accounts only. */
  lemma OtherKeySeen(st: State, t: nat, u: nat)
    requires Inv(st) && t < |st.sessions| && u < |st.sessions| && t != u && st.sessions[t].pc.Committing?
    requires KeySeen(st.books.journal, st.sessions[u])
    ensures KeySeen(CommitState(st, t).books.journal, st.sessions[u])
  {
    hide Inv, Has, TransferTx;
    var s, v, before, after := st.sessions[t], st.sessions[u], st.books.journal, CommitState(st, t).books.journal;
    var gained := after[|before|..];
    assert after == before + gained;
    StillThere(st, t, v.req.key);
    if UsedElsewhere(before, v.req) {
      UsedStays(before, gained, v.req);
    } else if Rechecked(v.pc) && Has(after, v.req.key) {
      DifferentRows(st, u, t, v.req.source);
      DifferentRows(st, u, t, v.req.target);
      FreshUse(before, s.req, v.req);
    }
  }

  lemma FreshUse(journal: seq<Tx>, r: Request, q: Request)
    requires r.key == q.key && {r.source, r.target} !! {q.source, q.target}
    ensures UsedElsewhere(journal + [TransferTx(r.source, r.target, r.amount, r.key)], q)
  {
    var all := journal + [TransferTx(r.source, r.target, r.amount, r.key)];
    assert all[|journal|].key == q.key;
  }

  lemma AdvanceSees(st: State, t: nat, id: nat)
    requires Inv(st) && KeysSeen(st) && Enabled(st, t)
    ensures KeysSeen(Advance(st, t, id))
  {
    hide Inv, KeySeen, Advance;
    var next := Advance(st, t, id);
    AdvanceOne(st, t, id);
    forall u | 0 <= u < |next.sessions| ensures KeySeen(next.books.journal, next.sessions[u]) {
      if u == t {
        OwnKeySeen(st, t, id);
      } else {
        OtherSees(st, t, id, u);
      }
    }
  }

  lemma OtherSees(st: State, t: nat, id: nat, u: nat)
    requires Inv(st) && t < |st.sessions| && u < |st.sessions| && t != u && KeySeen(st.books.journal, st.sessions[u])
    ensures KeySeen(Advance(st, t, id).books.journal, st.sessions[u])
  {
    hide Inv, KeySeen;
    if st.sessions[t].pc.Committing? {
      OtherKeySeen(st, t, u);
    } else {
      QuietJournal(st, t, id);
    }
  }

  lemma StepSees(st: State, st': State)
    requires Inv(st) && KeysSeen(st) && Step(st, st')
    ensures KeysSeen(st')
  {
    hide Inv, Advance, Has, UsedElsewhere, Unused, OrgsMayBecome;
    if t, id :| Enabled(st, t) && Unused(st, id) && st' == Advance(st, t, id) {
      AdvanceSees(st, t, id);
    }
  }

  // ---- one statement ----

  /**
   The statement that ends a session answers it as the atomic transfer would at this moment: posted, and
   the books become the ones it leaves; replayed, and nothing has moved; or refused for the same reason. Only
   when another transfer, between other accounts, has taken the key meanwhile does it end without effect in
   a clash, or refused where the atomic transfer would by now replay.
   */
  ghost predicate Fits(st: State, next: State, r: Request, e: Ending) {
    match e
    case Lost => false
    case KeyClash => next.books == st.books && r.amount > 0 && UsedElsewhere(st.books.journal, r)
    case Returned(Posted) => Atomic(st, r) == (next.books, Posted)
    case Returned(Replayed) =>
      && Atomic(st, r) == (st.books, Replayed)
      && next.books.journal == st.books.journal && forall o :: Balance(next.books, o) == Balance(st.books, o)
    case Returned(Refused(why)) =>
      && next.books == st.books
      && Anew(st, r).1 == Refused(why)
      && (Atomic(st, r).1 == Refused(why) || UsedElsewhere(st.books.journal, r))
  }

  lemma RefusalFits(st: State, t: nat, id: nat, why: Refusal)
    requires Inv(st) && Enabled(st, t) && st.sessions[t].pc.CheckPayer? && KeySeen(st.books.journal, st.sessions[t])
    requires Advance(st, t, id).sessions[t].pc == Finished(Returned(Refused(why)))
    ensures Fits(st, Advance(st, t, id), st.sessions[t].req, Returned(Refused(why)))
  {
    assert SessionOk(st, st.sessions[t]);
    hide Inv, Has, UsedElsewhere, Transfer;
    QuietJournal(st, t, id);
    RefusalIsSerial(st, t, id, why);
    AnewRefused(st, st.sessions[t].req, why);
  }

  lemma AnewRefused(st: State, r: Request, why: Refusal)
    requires r.amount > 0 && Permit(st.orgs, r.source, Balance(st.books, r.source), r.amount, r.enforce) == Refused(why)
    ensures Anew(st, r).1 == Refused(why)
  {
    assert !Has([], r.key);
  }

  lemma PermitReason(orgs: seq<Organization>, r: Request, balance: int)
    ensures Permit(orgs, r.source, balance, r.amount, r.enforce) !in {Replayed, Refused(NotPositive)}
  {}

  lemma CommitFits(st: State, t: nat)
    requires Inv(st) && t < |st.sessions| && st.sessions[t].pc.Committing?
    ensures var s := st.sessions[t];
            Fits(st, CommitState(st, t), s.req, Returned(if s.pc.posted then Posted else Replayed))
  {
    var s := st.sessions[t];
    assert SessionOk(st, s);
    if s.pc.posted {
      CommitIsSerial(st, t);
    } else {
      hide Inv, SessionOk, Has;
      CommitBooks(st, t);
    }
  }

  /** Every ending but a loss fits, whichever statement it comes from. */
  lemma EndingFits(st: State, t: nat, id: nat)
    requires Inv(st) && Enabled(st, t) && KeySeen(st.books.journal, st.sessions[t])
    ensures var s' := Advance(st, t, id).sessions[t];
            s'.pc.Finished? ==> Fits(st, Advance(st, t, id), st.sessions[t].req, s'.pc.ending)
  {
    hide Inv, Has, UsedElsewhere, Transfer, Permit;
    var s, s' := st.sessions[t], Advance(st, t, id).sessions[t];
    if s'.pc.Finished? {
      match s.pc {
        case KeyCheck => KeyCheckFits(st, t, id);
        case CheckPayer =>
          PermitReason(st.orgs, s.req, s.read);
          RefusalFits(st, t, id, s'.pc.ending.outcome.why);
        case InsertTx => ClashFits(st, t, id);
        case Committing(_) => CommitFits(st, t);
        case _ =>
      }
    }
  }

  lemma KeyCheckFits(st: State, t: nat, id: nat)
    requires t < |st.sessions| && st.sessions[t].pc.KeyCheck? && Advance(st, t, id).sessions[t].pc.Finished?
    ensures Fits(st, Advance(st, t, id), st.sessions[t].req, Advance(st, t, id).sessions[t].pc.ending)
  {
    hide Has;
  }

  lemma ClashFits(st: State, t: nat, id: nat)
    requires Inv(st) && Enabled(st, t) && st.sessions[t].pc.InsertTx? && KeySeen(st.books.journal, st.sessions[t])
    requires Advance(st, t, id).sessions[t].pc.Finished?
    ensures Fits(st, Advance(st, t, id), st.sessions[t].req, Advance(st, t, id).sessions[t].pc.ending)
  {
    hide Has, UsedElsewhere;
    assert SessionOk(st, st.sessions[t]);
  }

  // ---- whole runs ----

  lemma {:induction false} RunSees(trace: seq<State>, k: nat)
    requires Run(trace) && k < |trace|
    ensures Inv(trace[k]) && KeysSeen(trace[k]) && |trace[k].sessions| == |trace[0].sessions|
  {
    hide Step, Inv;
    RunKeeps(trace, k);
    if k > 0 {
      RunSees(trace, k - 1);
      StepSees(trace[k - 1], trace[k]);
      SameSessions(trace[k - 1], trace[k]);
    }
  }

  lemma SameSessions(st: State, st': State)
    requires Step(st, st')
    ensures |st'.sessions| == |st.sessions|
  {
    hide Advance, Unused, OrgsMayBecome;
    if t, id :| Enabled(st, t) && Unused(st, id) && st' == Advance(st, t, id) { AdvanceOne(st, t, id); }
  }

  /** A session changes by its own statements, or is lost. */
  lemma OwnStep(st: State, st': State, t: nat) returns (id: nat)
    requires Step(st, st') && t < |st.sessions| == |st'.sessions|
    requires st'.sessions[t] != st.sessions[t] && st'.sessions[t].pc != Finished(Lost)
    ensures Enabled(st, t) && st' == Advance(st, t, id)
  {
    hide Advance, Unused, OrgsMayBecome, Waits;
    var u, i :| Enabled(st, u) && Unused(st, i) && st' == Advance(st, u, i);
    AdvanceOne(st, u, i);
    id := i;
  }

  /**
   In every run a session that has ended, and was not lost, ended at one moment m with what the atomic
   transfer gives on the books of that moment; a clash means that others had used its key.
   */
  lemma {:induction false} AnswersFit(trace: seq<State>, k: nat, t: nat) returns (m: nat)
    requires Run(trace) && k < |trace| && t < |trace[k].sessions|
    requires trace[k].sessions[t].pc.Finished? && trace[k].sessions[t].pc.ending != Lost
    ensures m < k && t < |trace[m].sessions| && !trace[m].sessions[t].pc.Finished?
    ensures Fits(trace[m], trace[m + 1], trace[k].sessions[t].req, trace[k].sessions[t].pc.ending)
    decreases k
  {
    hide Step, Inv, KeysSeen, Fits, Start;
    RunSees(trace, k);
    StartBegins(trace, t);
    var j := k - 1;
    RunSees(trace, j);
    if trace[j].sessions[t] == trace[k].sessions[t] {
      m := AnswersFit(trace, j, t);
    } else {
      m := j;
      var id := OwnStep(trace[j], trace[k], t);
      KeySeenAt(trace[j], t);
      EndingFits(trace[j], t, id);
      AdvancePc(trace[j], t, id);
    }
  }

  lemma KeySeenAt(st: State, t: nat)
    requires KeysSeen(st) && t < |st.sessions|
    ensures KeySeen(st.books.journal, st.sessions[t])
  {}

  lemma StartBegins(trace: seq<State>, t: nat)
    requires Run(trace) && t < |trace[0].sessions|
    ensures !trace[0].sessions[t].pc.Finished?
  {}

  /** A clash is final and never wrong: its key is on file, in a transfer between other accounts. */
  lemma ClashIsTaken(trace: seq<State>, k: nat, t: nat)
    requires Run(trace) && k < |trace| && t < |trace[k].sessions| && trace[k].sessions[t].pc == Finished(KeyClash)
    ensures Has(trace[k].books.journal, trace[k].sessions[t].req.key)
    ensures UsedElsewhere(trace[k].books.journal, trace[k].sessions[t].req)
  {
    RunSees(trace, k);
  }

  // ---- a session alone ----

  /** Session t has the database to itself, and is about to begin. */
  ghost predicate AloneAtFirst(st: State, t: nat, r: Request) {
    && Inv(st) && t < |st.sessions| && st.sessions[t] == Begin(r)
    && forall u :: 0 <= u < |st.sessions| && u != t ==> st.sessions[u].pc.Finished?
  }

  /** The session executes its next statement. */
  ghost predicate Goes(st: State, next: State, t: nat) {
    Enabled(st, t) && exists id :: Unused(st, id) && next == Advance(st, t, id)
  }

  /** On its way, with nothing committed and its key not found. */
  ghost predicate Solo(start: State, st: State, t: nat, r: Request) {
    && Inv(st) && t < |st.sessions| && st.sessions[t].req == r && KeySeen(st.books.journal, st.sessions[t])
    && st.books == start.books && st.orgs == start.orgs
    && (forall u :: 0 <= u < |st.sessions| && u != t ==> st.sessions[u].pc.Finished?)
    && !st.sessions[t].pc.Finished? && st.sessions[t].pc != Committing(false)
    && (!st.sessions[t].pc.KeyCheck? ==> !Has(st.books.journal, r.key))
  }

  /** What it did is what the atomic transfer does. A refusal leaves nothing behind: the caller rolls back. */
  ghost predicate DidAtomic(start: State, end: State, t: nat, r: Request) {
    && t < |end.sessions| && end.sessions[t].pc == Finished(Returned(Atomic(start, r).1))
    && end.books == if Atomic(start, r).1.Refused? then start.books else Atomic(start, r).0
  }

  lemma SoloBegins(st: State, t: nat, r: Request)
    requires AloneAtFirst(st, t, r)
    ensures Solo(st, st, t, r)
  {
    hide Inv, Has, UsedElsewhere;
  }

  /** Nobody holds it up. */
  lemma SoloGoes(start: State, st: State, t: nat, r: Request)
    requires Solo(start, st, t, r)
    ensures Enabled(st, t)
  {
    hide KeySeen, Has;
    forall u | 0 <= u < |st.sessions| ensures !Waits(st, t, u) {
      if u != t { assert SessionOk(st, st.sessions[u]); }
    }
  }

  lemma SoloPc(st: State, t: nat, id: nat)
    requires t < |st.sessions| && !st.sessions[t].pc.Finished? && st.sessions[t].pc != Committing(false)
    requires !st.sessions[t].pc.KeyCheck? ==> !Has(st.books.journal, st.sessions[t].req.key)
    ensures var s, s' := st.sessions[t], Advance(st, t, id).sessions[t];
            && s'.req == s.req && s'.pc != Committing(false) && !s'.pc.KeyCheck? && Advance(st, t, id).orgs == st.orgs
            && Remaining(s'.pc) < Remaining(s.pc)
            && (s.pc.KeyCheck? && !s'.pc.Finished? ==> !Has(st.books.journal, s.req.key))
            && (s.pc.KeyCheck? && s'.pc.Finished? ==> s'.pc.ending in {Returned(Replayed), Returned(Refused(NotPositive))})
            && (s.pc.Committing? ==> s'.pc.Finished?)
            && (s'.pc == Finished(Returned(Replayed)) ==> s.pc.KeyCheck?)
  {
    hide Has, Permit, Balance, TransferTx, WithRows;
    PermitReason(st.orgs, st.sessions[t].req, st.sessions[t].read);
  }

  lemma SoloEnds(st: State, next: State, t: nat, r: Request, e: Ending)
    requires Fits(st, next, r, e)
    requires t < |next.sessions| && next.sessions[t].pc == Finished(e)
    requires Has(st.books.journal, r.key) ==> e in {Returned(Replayed), Returned(Refused(NotPositive))}
    requires e == Returned(Replayed) ==> next.books == st.books
    ensures DidAtomic(st, next, t, r)
  {}

  lemma SoloSteps(start: State, st: State, t: nat, r: Request, id: nat)
    requires Solo(start, st, t, r) && Unused(st, id)
    ensures var next := Advance(st, t, id);
            && Remaining(next.sessions[t].pc) < Remaining(st.sessions[t].pc)
            && if next.sessions[t].pc.Finished? then DidAtomic(start, next, t, r) else Solo(start, next, t, r)
  {
    hide Inv, KeySeen, Has, Advance, Unused, Remaining;
    var next := Advance(st, t, id);
    SoloGoes(start, st, t, r);
    AdvanceKeeps(st, t, id);
    AdvanceOne(st, t, id);
    OwnKeySeen(st, t, id);
    SoloPc(st, t, id);
    if !st.sessions[t].pc.Committing? { QuietJournal(st, t, id); }
    if next.sessions[t].pc.Finished? {
      EndingFits(st, t, id);
      SoloEnds(st, next, t, r, next.sessions[t].pc.ending);
      assert Atomic(st, r) == Atomic(start, r);
    }
  }

  lemma {:induction false} AloneAt(trace: seq<State>, t: nat, r: Request, k: nat)
    requires k < |trace| && AloneAtFirst(trace[0], t, r)
    requires forall i :: 0 <= i < |trace| - 1 ==> Goes(trace[i], trace[i + 1], t)
    ensures t < |trace[k].sessions| && k + Remaining(trace[k].sessions[t].pc) <= 12
    ensures if trace[k].sessions[t].pc.Finished? then DidAtomic(trace[0], trace[k], t, r) else Solo(trace[0], trace[k], t, r)
  {
    hide DidAtomic, Solo, AloneAtFirst, Advance, Unused;
    if k == 0 {
      SoloBegins(trace[0], t, r);
      SoloParts(trace[0], trace[0], t, r);
    } else {
      AloneAt(trace, t, r, k - 1);
      assert Goes(trace[k - 1], trace[k], t);
      var id :| Unused(trace[k - 1], id) && trace[k] == Advance(trace[k - 1], t, id);
      SoloSteps(trace[0], trace[k - 1], t, r, id);
      AdvanceOne(trace[k - 1], t, id);
    }
  }

  lemma SoloParts(start: State, st: State, t: nat, r: Request)
    requires Solo(start, st, t, r)
    ensures t < |st.sessions| && !st.sessions[t].pc.Finished? && Remaining(st.sessions[t].pc) <= 12
  {
    hide Inv, KeySeen;
  }

  /**
   A transfer that nobody disturbs is atomic: it can always go on until it has ended, ends after at most
   twelve statements, and then its answer and the books are those of the atomic transfer.
   */
  lemma AloneIsAtomic(trace: seq<State>, t: nat, r: Request)
    requires trace != [] && AloneAtFirst(trace[0], t, r)
    requires forall i :: 0 <= i < |trace| - 1 ==> Goes(trace[i], trace[i + 1], t)
    ensures |trace| <= 13
    ensures var end := trace[|trace| - 1];
            if exists next :: Goes(end, next, t) then t < |end.sessions| && !end.sessions[t].pc.Finished?
            else DidAtomic(trace[0], end, t, r)
  {
    hide DidAtomic, Solo, AloneAtFirst, Advance, Unused;
    var k := |trace| - 1;
    AloneAt(trace, t, r, k);
    if !trace[k].sessions[t].pc.Finished? {
      SoloGoes(trace[0], trace[k], t, r);
      var id := UnusedExists(trace[k]);
      assert Goes(trace[k], Advance(trace[k], t, id), t);
    }
  }
}
