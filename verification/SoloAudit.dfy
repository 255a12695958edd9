/** The interleaved protocol, when nobody interferes, is the service: an audit stepped alone from a quiet
    state leaves the database that `RunAccessibilityAudit` leaves and ends the way it does. */
module SoloAudit {
  import opened Prelude
  import opened Credits
  import opened AuditProtocol

  /** The environment's choices for one audit. */
  function ChoiceOf(pc: Pc, env: AuditEnv): Choice
  {
    if pc == Created then (match env.raw case Some(w) => Reply(w) case None => Throw)
    else if (pc == Fetched && !env.parses) || (pc == IssuesWritten && !env.persists) then Throw
    else Go
  }

  function Solo(s: State, i: nat, env: AuditEnv, n: nat): State
    decreases n
  {
    if n == 0 || i >= |s.actors| then s
    else Solo(Next(s, Act(i, ChoiceOf(s.actors[i].pc, env))), i, env, n - 1)
  }

  /** Actor `i` is at `pc` with this buffer, in a database and with a lock that are as given. */
  ghost predicate Here(s: State, i: nat, db: Db, lock: Option<nat>, a: Actor)
  {
    s.db == db && s.lock == lock && i < |s.actors| && s.actors[i] == a
  }

  /** How a call ends: the database it leaves and what becomes of the caller. */
  datatype Ending = Ending(db: Db, outcome: Outcome)

  /** The audit ends this way within `n` steps. */
  ghost predicate EndsIn(s: State, i: nat, env: AuditEnv, n: nat, e: Ending)
  {
    var t := Solo(s, i, env, n);
    i < |t.actors| && t.actors[i].pc.Finished? && e == Ending(t.db, t.actors[i].pc.outcome)
  }

  /** What the service returns or raises, in the protocol's terms. Missing credits are raised by the preflight
      when there is no audit row, else by the atomic block. */
  function EndingOf(id: AuditId, d: Db, r: Result<Audit, Error>): Ending
  {
    match r
    case Ok(_) => Ending(d, Returned)
    case Err(WaveFailed) => Ending(d, WaveError)
    case Err(ParseFailed) => Ending(d, ParseError)
    case Err(_) => Ending(d, if id in d.audits then FinalizeError else Refused)
  }

  function FailedWith(db: Db, i: AuditId, outcome: Outcome): Ending
    requires i in db.audits
  {
    Ending(Apply(db, FailUnit(i)).value, outcome)
  }

  lemma OneStep(s: State, i: nat, env: AuditEnv, n: nat, e: Ending)
    requires i < |s.actors| && n > 0
    requires EndsIn(Next(s, Act(i, ChoiceOf(s.actors[i].pc, env))), i, env, n - 1, e)
    ensures EndsIn(s, i, env, n, e)
  {
  }

  lemma FinishedStays(s: State, i: nat, env: AuditEnv, n: nat)
    requires i < |s.actors| && s.actors[i].pc.Finished?
    ensures EndsIn(s, i, env, n, Ending(s.db, s.actors[i].pc.outcome))
  {
    if n > 0 {
      assert Next(s, Act(i, Go)) == s;
      FinishedStays(s, i, env, n - 1);
    }
  }

  /** After a rollback the failure is saved. */
  lemma FromRollback(s: State, i: nat, env: AuditEnv, n: nat, db: Db, a: Actor)
    requires Here(s, i, db, None, a) && a.op.AuditOp? && a.pc == RolledBack && i in db.audits && n >= 1
    ensures EndsIn(s, i, env, n, FailedWith(db, i, FinalizeError))
  {
    FinishedStays(Next(s, Act(i, Go)), i, env, n - 1);
    OneStep(s, i, env, n, FailedWith(db, i, FinalizeError));
  }

  lemma FromIssues(s: State, i: nat, env: AuditEnv, n: nat, db: Db, lock: Option<nat>, a: Actor)
    requires Here(s, i, db, lock, a) && a.op.AuditOp? && a.pc == IssuesWritten && i in db.audits
    requires (lock.None? || lock == Some(i)) && n >= 2
    ensures EndsIn(s, i, env, n,
              if env.persists then Ending(Publish(db, i, a.buf), Returned) else FailedWith(db, i, FinalizeError))
  {
    var t := Next(s, Act(i, ChoiceOf(IssuesWritten, env)));
    if env.persists {
      FinishedStays(t, i, env, n - 1);
      OneStep(s, i, env, n, Ending(Publish(db, i, a.buf), Returned));
    } else {
      FromRollback(t, i, env, n - 1, db, t.actors[i]);
      OneStep(s, i, env, n, FailedWith(db, i, FinalizeError));
    }
  }

  /** From the end of the ledger writes: audit row, issues, commit. */
  lemma FromEntry(s: State, i: nat, env: AuditEnv, n: nat, db: Db, lock: Option<nat>, a: Actor)
    requires Here(s, i, db, lock, a) && a.op.AuditOp? && a.pc == EntryWritten && i in db.audits
    requires (lock.None? || lock == Some(i)) && n >= 4
    ensures var b := a.buf.(audit := Some(CompletedRow(a.op.authenticated, a.wave)), issues := Some(a.wave.issues));
            EndsIn(s, i, env, n,
              if env.persists then Ending(Publish(db, i, b), Returned) else FailedWith(db, i, FinalizeError))
  {
    var b1 := a.buf.(audit := Some(CompletedRow(a.op.authenticated, a.wave)));
    var b2 := b1.(issues := Some(a.wave.issues));
    var e := if env.persists then Ending(Publish(db, i, b2), Returned) else FailedWith(db, i, FinalizeError);
    var s1 := Next(s, Act(i, Go));
    var s2 := Next(s1, Act(i, Go));
    FromIssues(s2, i, env, n - 2, db, lock, a.(pc := IssuesWritten, buf := b2));
    OneStep(s1, i, env, n - 1, e);
    OneStep(s, i, env, n, e);
  }

  /** How the atomic block ends, with its failure path. */
  function Closed(db: Db, i: AuditId, owned: bool, w: Wave, persists: bool): Ending
    requires i in db.audits
  {
    match Apply(db, FinalizeUnit(i, owned, w))
    case Ok(d) => if persists then Ending(d, Returned) else FailedWith(db, i, FinalizeError)
    case Err(_) => FailedWith(db, i, FinalizeError)
  }

  lemma FromRow(s: State, i: nat, env: AuditEnv, n: nat, db: Db, a: Actor)
    requires Here(s, i, db, Some(i), a) && a.op == AuditOp(true) && a.pc == RowWritten && i in db.audits && n >= 5
    requires db.account == Some(a.seen) && a.seen.balance >= AUDIT_CREDIT_COST && a.buf == CLEAN.(row := Some(NewRow(a)))
    ensures EndsIn(s, i, env, n, Closed(db, i, true, a.wave, env.persists))
  {
    var a1 := a.(pc := EntryWritten, buf := a.buf.(entry := Some(NewEntry(a, i))));
    FromEntry(Next(s, Act(i, Go)), i, env, n - 1, db, Some(i), a1);
    OneStep(s, i, env, n, Closed(db, i, true, a.wave, env.persists));
  }

  lemma FromLocked(s: State, i: nat, env: AuditEnv, n: nat, db: Db, a: Actor)
    requires Here(s, i, db, Some(i), a) && a.op == AuditOp(true) && a.pc == Locked && a.buf == CLEAN
    requires db.account == Some(a.seen) && i in db.audits && n >= 6
    ensures EndsIn(s, i, env, n, Closed(db, i, true, a.wave, env.persists))
  {
    var t := Next(s, Act(i, Go));
    if a.seen.balance < AUDIT_CREDIT_COST {
      FromRollback(t, i, env, n - 1, db, t.actors[i]);
    } else {
      FromRow(t, i, env, n - 1, db, a.(pc := RowWritten, buf := CLEAN.(row := Some(NewRow(a)))));
    }
    OneStep(s, i, env, n, Closed(db, i, true, a.wave, env.persists));
  }

  lemma FromBegin(s: State, i: nat, env: AuditEnv, n: nat, db: Db, a: Actor)
    requires Here(s, i, db, None, a) && a.op.AuditOp? && a.pc == InTx && a.buf == CLEAN && i in db.audits && n >= 7
    ensures EndsIn(s, i, env, n, Closed(db, i, a.op.authenticated, a.wave, env.persists))
  {
    var t := Next(s, Act(i, Go));
    if !a.op.authenticated {
      FromEntry(t, i, env, n - 1, db, None, a.(pc := EntryWritten));
    } else if db.account.None? {
      FromRollback(t, i, env, n - 1, db, t.actors[i]);
    } else {
      FromLocked(t, i, env, n - 1, db, a.(pc := Locked, seen := db.account.value));
    }
    OneStep(s, i, env, n, Closed(db, i, a.op.authenticated, a.wave, env.persists));
  }

  /** How the whole audit ends, once its pending row exists. */
  function FromPending(db: Db, i: AuditId, owned: bool, env: AuditEnv): Ending
    requires i in db.audits
  {
    if env.raw.None? then FailedWith(db, i, WaveError)
    else if !env.parses then Ending(db, ParseError)
    else Closed(db, i, owned, env.raw.value, env.persists)
  }

  lemma FromFetched(s: State, i: nat, env: AuditEnv, n: nat, db: Db, a: Actor)
    requires Here(s, i, db, None, a) && a.op.AuditOp? && a.pc == Fetched && a.buf == CLEAN && i in db.audits
    requires env.raw == Some(a.wave) && n >= 9
    ensures EndsIn(s, i, env, n, FromPending(db, i, a.op.authenticated, env))
  {
    var t := Next(s, Act(i, ChoiceOf(Fetched, env)));
    if !env.parses {
      FinishedStays(t, i, env, n - 1);
    } else {
      FromBegin(Next(t, Act(i, Go)), i, env, n - 2, db, a.(pc := InTx));
      OneStep(t, i, env, n - 1, FromPending(db, i, a.op.authenticated, env));
    }
    OneStep(s, i, env, n, FromPending(db, i, a.op.authenticated, env));
  }

  lemma FromCreated(s: State, i: nat, env: AuditEnv, n: nat, db: Db, a: Actor)
    requires Here(s, i, db, None, a) && a.op.AuditOp? && a.pc == Created && a.buf == CLEAN && i in db.audits && n >= 10
    ensures EndsIn(s, i, env, n, FromPending(db, i, a.op.authenticated, env))
  {
    var t := Next(s, Act(i, ChoiceOf(Created, env)));
    if env.raw.None? {
      FinishedStays(Next(t, Act(i, Go)), i, env, n - 2);
      OneStep(t, i, env, n - 1, FromPending(db, i, a.op.authenticated, env));
    } else {
      FromFetched(t, i, env, n - 1, db, a.(pc := Fetched, wave := env.raw.value));
    }
    OneStep(s, i, env, n, FromPending(db, i, a.op.authenticated, env));
  }

  lemma FromChecked(s: State, i: nat, env: AuditEnv, n: nat, db: Db, a: Actor)
    requires Here(s, i, db, None, a) && a.op.AuditOp? && a.pc == Checked && a.buf == CLEAN && n >= 11
    ensures EndsIn(s, i, env, n,
              FromPending(Apply(db, CreateUnit(i, a.op.authenticated)).value, i, a.op.authenticated, env))
  {
    var d := Apply(db, CreateUnit(i, a.op.authenticated)).value;
    FromCreated(Next(s, Act(i, Go)), i, env, n - 1, d, a.(pc := Created));
    OneStep(s, i, env, n, FromPending(d, i, a.op.authenticated, env));
  }

  lemma AlonePastPreflight(db: Db, i: AuditId, owned: bool, env: AuditEnv)
    requires i !in db.audits && (owned ==> RowOf(db).balance >= AUDIT_CREDIT_COST)
    ensures var (d, r) := AuditAlone(db, i, owned, env);
            var d0 := if owned then EnsureRow(db) else db;
            EndingOf(i, d, r) == FromPending(Apply(d0, CreateUnit(i, owned)).value, i, owned, env)
  {
  }

  /** Stepped alone for 12 steps or more, an audit ends as the service run alone: with its database, and
      returning or raising as it does. */
  lemma SoloIsAlone(s: State, i: nat, owned: bool, env: AuditEnv, n: nat)
    requires i < |s.actors| && i !in s.db.audits && s.lock.None? && n >= 12
    requires s.actors[i].op == AuditOp(owned) && s.actors[i].pc == Ready && s.actors[i].buf == CLEAN
    ensures var (d, r) := AuditAlone(s.db, i, owned, env);
            EndsIn(s, i, env, n, EndingOf(i, d, r))
  {
    var d0 := if owned then EnsureRow(s.db) else s.db;
    var (d, r) := AuditAlone(s.db, i, owned, env);
    var t := Next(s, Act(i, Go));
    if owned && d0.account.value.balance < AUDIT_CREDIT_COST {
      FinishedStays(t, i, env, n - 1);
    } else {
      FromChecked(t, i, env, n - 1, d0, s.actors[i].(pc := Checked));
      AlonePastPreflight(s.db, i, owned, env);
    }
    OneStep(s, i, env, n, EndingOf(i, d, r));
  }

  // ------------------------------------------------------------------ purchases and deductions alone

  /** How a purchase, refund or deduction run alone ends. */
  function UpdateEnding(db: Db, a: Actor, i: nat): Ending
  {
    match Apply(db, ClosingUnit(a, i))
    case Ok(d) => Ending(d, Returned)
    case Err(_) => Ending(db, Rejected)
  }

  /** With the lock and the current row in hand: check, write the row, append the entry, commit. */
  lemma UpdateFromLocked(s: State, i: nat, env: AuditEnv, n: nat, db: Db, a: Actor)
    requires Here(s, i, db, Some(i), a) && !a.op.AuditOp? && a.pc == Locked && a.buf == CLEAN
    requires db.account == Some(a.seen) && Amount(a.op) > 0 && n >= 4
    ensures EndsIn(s, i, env, n, UpdateEnding(db, a, i))
  {
    var e := UpdateEnding(db, a, i);
    var s1 := Next(s, Act(i, Go));
    if a.op.DeductOp? && a.seen.balance < a.op.amount {
      FinishedStays(s1, i, env, n - 1);
    } else {
      var a1 := a.(pc := RowWritten, buf := CLEAN.(row := Some(NewRow(a))));
      assert Here(s1, i, db, Some(i), a1);
      UpdateFromRow(s1, i, env, n - 1, db, a1);
    }
    OneStep(s, i, env, n, e);
  }

  lemma UpdateFromRow(s: State, i: nat, env: AuditEnv, n: nat, db: Db, a: Actor)
    requires Here(s, i, db, Some(i), a) && !a.op.AuditOp? && a.pc == RowWritten && a.buf == CLEAN.(row := Some(NewRow(a)))
    requires db.account == Some(a.seen) && Amount(a.op) > 0 && n >= 3
    requires a.op.DeductOp? ==> a.seen.balance >= a.op.amount
    ensures EndsIn(s, i, env, n, UpdateEnding(db, a, i))
  {
    var s1 := Next(s, Act(i, Go));
    UpdateFromEntry(s1, i, env, n - 1, db, a.(pc := EntryWritten, buf := a.buf.(entry := Some(NewEntry(a, i)))));
    OneStep(s, i, env, n, UpdateEnding(db, a, i));
  }

  lemma UpdateFromEntry(s: State, i: nat, env: AuditEnv, n: nat, db: Db, a: Actor)
    requires Here(s, i, db, Some(i), a) && !a.op.AuditOp? && a.pc == EntryWritten && n >= 2
    requires a.buf == CLEAN.(row := Some(NewRow(a)), entry := Some(NewEntry(a, i)))
    requires db.account == Some(a.seen) && Amount(a.op) > 0 && (a.op.DeductOp? ==> a.seen.balance >= a.op.amount)
    ensures EndsIn(s, i, env, n, UpdateEnding(db, a, i))
  {
    var t := Next(s, Act(i, Go));
    FinishedStays(t, i, env, n - 1);
    OneStep(s, i, env, n, UpdateEnding(db, a, i));
  }

  /** Stepped alone for 6 steps or more, a purchase, refund or deduction ends as its transaction run alone:
      committed, or raised with nothing changed. */
  lemma SoloUpdateIsAlone(s: State, i: nat, env: AuditEnv, n: nat)
    requires i < |s.actors| && s.lock.None? && n >= 6
    requires !s.actors[i].op.AuditOp? && s.actors[i].pc == Ready && s.actors[i].buf == CLEAN
    ensures EndsIn(s, i, env, n,
              match s.actors[i].op
              case AddOp(amount, kind) =>
                (match Add(s.db, amount, kind) case Ok(d) => Ending(d, Returned) case Err(_) => Ending(s.db, Rejected))
              case DeductOp(amount) =>
                (match Deduct(s.db, amount, None) case Ok(d) => Ending(d, Returned) case Err(_) => Ending(s.db, Rejected))
              case AuditOp(_) => Ending(s.db, Rejected))
  {
    var a := s.actors[i];
    var e := UpdateEnding(s.db, a, i);
    var s1 := Next(s, Act(i, Go));
    var s2 := Next(s1, Act(i, Go));
    if Amount(a.op) <= 0 || s.db.account.None? {
      FinishedStays(s2, i, env, n - 2);
    } else {
      UpdateFromLocked(s2, i, env, n - 2, s.db, a.(pc := Locked, seen := s.db.account.value));
    }
    OneStep(s1, i, env, n - 1, e);
    OneStep(s, i, env, n, e);
  }
}
