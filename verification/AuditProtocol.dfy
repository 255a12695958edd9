/** Any number of purchases, deductions and audits interleaved on one user's balance row.

    Each actor is one call of `add_credits`, `deduct_credit` or `run_accessibility_audit`, cut into the
    steps at which another process can run. Transactions write to a private buffer that is published
    at commit and dropped at rollback; the balance row is locked from the locking read until the outer
    transaction ends. Any step may raise and any process may die. */
module AuditProtocol {
  import opened Prelude
  import opened Credits

  datatype Op =
    | AddOp(amount: int, kind: Kind)
    | DeductOp(amount: int)
    | AuditOp(authenticated: bool)

  datatype Outcome =
    | Returned        // the call returned normally
    | Refused         // the preflight check raised
    | WaveError       // the HTTP call raised and the failure was saved
    | ParseError      // the parser raised, outside both try blocks
    | FinalizeError   // the atomic block raised and the failure was saved
    | Rejected        // a stand-alone transaction raised and was rolled back
    | Lost            // the process died, or a database write outside the atomic block raised

  datatype Pc =
    | Ready | Checked | Created | FetchFailed | Fetched | Parsed
    | InTx | Locked | RowWritten | EntryWritten | AuditWritten | IssuesWritten
    | RolledBack
    | Finished(outcome: Outcome)

  datatype Buffer = Buffer(row: Option<Account>, entry: Option<Entry>, audit: Option<Audit>, issues: Option<seq<(string, int)>>)

  const CLEAN := Buffer(None, None, None, None)

  /** `seen` is the row read under the lock, `wave` the report being persisted. */
  datatype Actor = Actor(op: Op, pc: Pc, seen: Account, wave: Wave, buf: Buffer)

  datatype Logged = Logged(actor: nat, unit: Unit)

  /** `log` lists the committed units in commit order (an observer of the run, never read by a step). */
  datatype State = State(db: Db, lock: Option<nat>, actors: seq<Actor>, log: seq<Logged>)

  const INIT := State(EMPTY, None, [], [])

  datatype Choice = Go | Reply(wave: Wave) | Throw | Die

  datatype Event = Spawn(op: Op) | Act(i: nat, choice: Choice)

  // -------------------------------------------------------------------------------- the steps

  function NeedsLock(op: Op): bool { !op.AuditOp? || op.authenticated }

  function Amount(op: Op): int { if op.AuditOp? then AUDIT_CREDIT_COST else op.amount }

  predicate AfterEntry(pc: Pc) { pc.EntryWritten? || pc.AuditWritten? || pc.IssuesWritten? }

  predicate InTransaction(pc: Pc)
  {
    pc.InTx? || pc.Locked? || pc.RowWritten? || AfterEntry(pc)
  }

  predicate Holds(a: Actor)
  {
    NeedsLock(a.op) && (a.pc.Locked? || a.pc.RowWritten? || AfterEntry(a.pc))
  }

  function Move(s: State, i: nat, a: Actor): State
    requires i < |s.actors|
  {
    s.(actors := s.actors[i := a])
  }

  function At(s: State, i: nat, pc: Pc): State
    requires i < |s.actors|
  {
    Move(s, i, s.actors[i].(pc := pc))
  }

  /** A write committed on its own (autocommit). */
  function Commit(s: State, i: nat, u: Unit): State
  {
    match Apply(s.db, u)
    case Ok(d) => s.(db := d, log := s.log + [Logged(i, u)])
    case Err(_) => s
  }

  function NewRow(a: Actor): Account
  {
    if a.op.AddOp? then Credited(a.seen, a.op.amount, a.op.kind) else Debited(a.seen, Amount(a.op))
  }

  function NewEntry(a: Actor, i: nat): Entry
  {
    match a.op
    case AddOp(amount, kind) => Entry(amount, kind, NewRow(a).balance, None)
    case DeductOp(amount) => Entry(-amount, Usage, NewRow(a).balance, None)
    case AuditOp(_) => Entry(-AUDIT_CREDIT_COST, Usage, NewRow(a).balance, Some(i))
  }

  /** The unit that actor `i` commits at the end of its transaction. */
  function ClosingUnit(a: Actor, i: nat): Unit
  {
    match a.op
    case AddOp(amount, kind) => AddUnit(amount, kind)
    case DeductOp(amount) => DeductUnit(amount)
    case AuditOp(authenticated) => FinalizeUnit(i, authenticated, a.wave)
  }

  /** Publishing a buffer: what COMMIT does to the shared tables. */
  function Publish(db: Db, i: nat, b: Buffer): Db
  {
    Db(if b.row.Some? then b.row else db.account,
       if b.entry.Some? then db.ledger + [b.entry.value] else db.ledger,
       if b.audit.Some? then db.audits[i := b.audit.value] else db.audits,
       if b.issues.Some? then db.issues[i := b.issues.value] else db.issues)
  }

  function Release(s: State, i: nat): State
  {
    if s.lock == Some(i) then s.(lock := None) else s
  }

  function CommitTx(s: State, i: nat): State
    requires i < |s.actors|
  {
    var a := s.actors[i];
    Move(Release(s, i), i, a.(pc := Finished(Returned), buf := CLEAN))
      .(db := Publish(s.db, i, a.buf), log := s.log + [Logged(i, ClosingUnit(a, i))])
  }

  function Rollback(s: State, i: nat): State
    requires i < |s.actors|
  {
    var a := s.actors[i];
    Move(Release(s, i), i, a.(pc := if a.op.AuditOp? then RolledBack else Finished(Rejected), buf := CLEAN))
  }

  /** The normal step of an actor with no transaction open: autocommitted writes and foreign calls. */
  function StepOutside(s: State, i: nat): State
    requires i < |s.actors|
  {
    var a := s.actors[i];
    match a.pc
    case Ready =>
      if !a.op.AuditOp? then At(s, i, InTx)
      else if !a.op.authenticated then At(s, i, Checked)
      else
        var t := Commit(s, i, RowUnit);
        At(t, i, if RowOf(t.db).balance < AUDIT_CREDIT_COST then Finished(Refused) else Checked)
    case Checked => At(Commit(s, i, CreateUnit(i, a.op.AuditOp? && a.op.authenticated)), i, Created)
    case FetchFailed => At(Commit(s, i, FailUnit(i)), i, Finished(WaveError))
    case Fetched => At(s, i, Parsed)
    case Parsed => At(s, i, InTx)
    case RolledBack => At(Commit(s, i, FailUnit(i)), i, Finished(FinalizeError))
    case _ => s
  }

  /** The normal step inside the transaction; a blocked locking read changes nothing. */
  function StepInside(s: State, i: nat): State
    requires i < |s.actors|
  {
    var a := s.actors[i];
    match a.pc
    case InTx =>
      if !NeedsLock(a.op) then At(s, i, EntryWritten)
      else if Amount(a.op) <= 0 || s.db.account.None? then Rollback(s, i)
      else if s.lock.Some? then s
      else Move(s.(lock := Some(i)), i, a.(pc := Locked, seen := s.db.account.value))
    case Locked =>
      if !a.op.AddOp? && a.seen.balance < Amount(a.op) then Rollback(s, i)
      else Move(s, i, a.(pc := RowWritten, buf := a.buf.(row := Some(NewRow(a)))))
    case RowWritten => Move(s, i, a.(pc := EntryWritten, buf := a.buf.(entry := Some(NewEntry(a, i)))))
    case EntryWritten =>
      if !a.op.AuditOp? then CommitTx(s, i)
      else Move(s, i, a.(pc := AuditWritten, buf := a.buf.(audit := Some(CompletedRow(a.op.authenticated, a.wave)))))
    case AuditWritten => Move(s, i, a.(pc := IssuesWritten, buf := a.buf.(issues := Some(a.wave.issues))))
    case IssuesWritten => CommitTx(s, i)
    case _ => s
  }

  function StepThrow(s: State, i: nat): State
    requires i < |s.actors|
  {
    var a := s.actors[i];
    if InTransaction(a.pc) then Rollback(s, i)
    else if a.pc == Created then At(s, i, FetchFailed)
    else if a.pc == Fetched then At(s, i, Finished(ParseError))
    else if a.pc.Finished? then s
    else At(s, i, Finished(Lost))
  }

  function StepDie(s: State, i: nat): State
    requires i < |s.actors|
  {
    var a := s.actors[i];
    if a.pc.Finished? then s
    else Move(Release(s, i), i, a.(pc := Finished(Lost), buf := CLEAN))
  }

  function Next(s: State, e: Event): State
  {
    match e
    case Spawn(op) => s.(actors := s.actors + [Actor(op, Ready, ZERO, Wave(NO_TOTALS, []), CLEAN)])
    case Act(i, choice) =>
      if i >= |s.actors| then s
      else
        match choice
        case Go => if InTransaction(s.actors[i].pc) then StepInside(s, i) else StepOutside(s, i)
        case Reply(w) => if s.actors[i].pc == Created then Move(s, i, s.actors[i].(pc := Fetched, wave := w)) else s
        case Throw => StepThrow(s, i)
        case Die => StepDie(s, i)
  }

  /** The state after any interleaving. */
  function Run(events: seq<Event>): State
  {
    if events == [] then INIT else Next(Run(events[..|events| - 1]), events[|events| - 1])
  }

  // ---------------------------------------------------------------------------- the invariant

  function ExpectedBuffer(a: Actor, i: nat): Buffer
  {
    var late := AfterEntry(a.pc);
    Buffer(
      if NeedsLock(a.op) && (a.pc == RowWritten || late) then Some(NewRow(a)) else None,
      if NeedsLock(a.op) && late then Some(NewEntry(a, i)) else None,
      if a.op.AuditOp? && (a.pc.AuditWritten? || a.pc.IssuesWritten?) then Some(CompletedRow(a.op.authenticated, a.wave)) else None,
      if a.op.AuditOp? && a.pc == IssuesWritten then Some(a.wave.issues) else None)
  }

  /** What an actor may still rely on: its place in the protocol, its buffer, the row it has locked. */
  ghost predicate ActorInv(db: Db, lock: Option<nat>, a: Actor, i: nat)
  {
    && (Holds(a) <==> lock == Some(i))
    && (Holds(a) ==> db.account == Some(a.seen) && Amount(a.op) > 0)
    && (Holds(a) && !a.op.AddOp? && a.pc != Locked ==> a.seen.balance >= Amount(a.op))
    && a.buf == ExpectedBuffer(a, i)
    && (!a.op.AuditOp? ==> a.pc.Ready? || a.pc.InTx? || a.pc.Locked? || a.pc.RowWritten? || a.pc.EntryWritten? || a.pc.Finished?)
    && (a.op.AuditOp? ==> a.pc != Finished(Rejected))
    && (!NeedsLock(a.op) ==> !a.pc.Locked? && !a.pc.RowWritten?)
    && RowInv(db, a, i)
  }

  /** The audit row of actor `i`, as far as its progress or outcome determines it. */
  ghost predicate RowInv(db: Db, a: Actor, i: nat)
  {
    && (a.op.AuditOp? && a.pc == Finished(Returned) ==> i in db.issues && db.issues[i] == a.wave.issues)
    && if !a.op.AuditOp? || a.pc.Ready? || a.pc.Checked? || a.pc == Finished(Refused) then i !in db.audits
    else if a.pc == Finished(Lost) then i in db.audits ==> db.audits[i] == PendingRow(a.op.authenticated)
    else i in db.audits && db.audits[i] == FinalRow(a.pc, a.op.authenticated, a.wave)
  }

  function FinalRow(pc: Pc, owned: bool, w: Wave): Audit
  {
    if pc == Finished(Returned) then CompletedRow(owned, w)
    else if pc == Finished(WaveError) || pc == Finished(FinalizeError) then PendingRow(owned).(status := Failed)
    else PendingRow(owned)
  }

  function Units(log: seq<Logged>): seq<Unit>
  {
    seq(|log|, k requires 0 <= k < |log| => log[k].unit)
  }

  predicate Closes(x: Logged, i: nat)
  {
    x.actor == i && (x.unit.AddUnit? || x.unit.DeductUnit? || x.unit.FinalizeUnit?)
  }

  function Commits(log: seq<Logged>, i: nat): nat
  {
    Count(log, x => Closes(x, i))
  }

  /** Every logged transaction is the operation of an actor that returned, and an actor commits its
      transaction exactly once if it returned and never otherwise. */
  ghost predicate LogInv(s: State)
  {
    && (forall k :: 0 <= k < |s.log| ==> OwnCommit(s.actors, s.log[k]))
    && (forall i :: 0 <= i < |s.actors| ==>
          Commits(s.log, i) == if s.actors[i].pc == Finished(Returned) then 1 else 0)
  }

  ghost predicate OwnCommit(actors: seq<Actor>, x: Logged)
  {
    && x.actor < |actors|
    && (Closes(x, x.actor) ==>
          actors[x.actor].pc == Finished(Returned) && x.unit == ClosingUnit(actors[x.actor], x.actor))
  }

  ghost predicate Inv(s: State)
  {
    && (forall i :: 0 <= i < |s.actors| ==> ActorInv(s.db, s.lock, s.actors[i], i))
    && (s.lock.Some? ==> s.lock.value < |s.actors|)
    && (forall id :: id in s.db.audits ==> id < |s.actors|)
    && Matched(s.db)
  }

  // --------------------------------------------------------------------------- one step keeps it

  /** The rest of the actors are not disturbed by a change that leaves their row and lock alone. */
  lemma OthersKept(s: State, t: State, i: nat)
    requires Inv(s) && i < |s.actors| && |t.actors| == |s.actors|
    requires forall j :: 0 <= j < |s.actors| && j != i ==> t.actors[j] == s.actors[j]
    requires t.lock == s.lock || (s.lock == Some(i) && t.lock.None?) || (s.lock.None? && t.lock == Some(i))
    requires t.db.account == s.db.account || s.lock == Some(i) || s.db.account.None?
    requires forall j :: 0 <= j < |s.actors| && j != i ==>
               && (j in t.db.audits <==> j in s.db.audits) && (j in s.db.audits ==> t.db.audits[j] == s.db.audits[j])
               && (j in s.db.issues ==> j in t.db.issues && t.db.issues[j] == s.db.issues[j])
    ensures forall j :: 0 <= j < |s.actors| && j != i ==> ActorInv(t.db, t.lock, t.actors[j], j)
  {
    forall j | 0 <= j < |s.actors| && j != i ensures ActorInv(t.db, t.lock, t.actors[j], j) {
      assert ActorInv(s.db, s.lock, s.actors[j], j);
    }
  }

  /** A buffer published under the lock has exactly the effect of the transaction run alone. */
  lemma CommitIsAtomic(s: State, i: nat)
    requires Inv(s) && i < |s.actors|
    requires s.actors[i].pc == if s.actors[i].op.AuditOp? then IssuesWritten else EntryWritten
    ensures Apply(s.db, ClosingUnit(s.actors[i], i)) == Ok(Publish(s.db, i, s.actors[i].buf))
    ensures Timely(s.db, ClosingUnit(s.actors[i], i))
  {
    assert ActorInv(s.db, s.lock, s.actors[i], i);
  }

  lemma AutocommitKept(s: State, i: nat, u: Unit, pc: Pc)
    requires Inv(s) && i < |s.actors| && !Holds(s.actors[i]) && !Holds(s.actors[i].(pc := pc))
    requires u == RowUnit || (u.CreateUnit? && u.id == i) || (u.FailUnit? && u.id == i)
    requires Timely(s.db, u) && Apply(s.db, u).Ok?
    requires ActorInv(Apply(s.db, u).value, s.lock, s.actors[i].(pc := pc), i)
    ensures Inv(At(Commit(s, i, u), i, pc))
  {
    var t := At(Commit(s, i, u), i, pc);
    ApplyKeepsMatched(s.db, u);
    OthersKept(s, t, i);
  }

  lemma CommitTxKept(s: State, i: nat)
    requires Inv(s) && i < |s.actors|
    requires s.actors[i].pc == if s.actors[i].op.AuditOp? then IssuesWritten else EntryWritten
    ensures Inv(CommitTx(s, i))
  {
    var t := CommitTx(s, i);
    assert ActorInv(s.db, s.lock, s.actors[i], i);
    CommitIsAtomic(s, i);
    ApplyKeepsMatched(s.db, ClosingUnit(s.actors[i], i));
    OthersKept(s, t, i);
  }

  /** A step of actor `i` that leaves the database alone and keeps the actor's own invariant. */
  ghost predicate LocalStep(s: State, t: State, i: nat)
    requires i < |s.actors|
  {
    && t.db == s.db && |t.actors| == |s.actors|
    && (forall j :: 0 <= j < |s.actors| && j != i ==> t.actors[j] == s.actors[j])
    && (t.lock == s.lock || (s.lock == Some(i) && t.lock.None?) || (s.lock.None? && t.lock == Some(i)))
    && ActorInv(t.db, t.lock, t.actors[i], i)
  }

  lemma LocalKept(s: State, t: State, i: nat)
    requires Inv(s) && i < |s.actors| && LocalStep(s, t, i)
    ensures Inv(t)
  {
    OthersKept(s, t, i);
  }

  lemma RollbackIsLocal(s: State, i: nat)
    requires i < |s.actors| && ActorInv(s.db, s.lock, s.actors[i], i) && InTransaction(s.actors[i].pc)
    ensures LocalStep(s, Rollback(s, i), i)
  {
  }

  /** Outside a transaction, an actor that writes commits one timely unit and moves on. */
  lemma OutsideWrites(s: State, i: nat)
    requires i < |s.actors| && ActorInv(s.db, s.lock, s.actors[i], i)
    ensures var a := s.actors[i];
            && (a.pc.Ready? && a.op.AuditOp? && a.op.authenticated ==>
                  ActorInv(EnsureRow(s.db), s.lock, a.(pc := Finished(Refused)), i)
                  && ActorInv(EnsureRow(s.db), s.lock, a.(pc := Checked), i))
            && (a.pc.Checked? ==>
                  var u := CreateUnit(i, a.op.authenticated);
                  Timely(s.db, u) && ActorInv(Apply(s.db, u).value, s.lock, a.(pc := Created), i))
  {
  }

  lemma FailureWrites(s: State, i: nat)
    requires i < |s.actors| && ActorInv(s.db, s.lock, s.actors[i], i)
    requires s.actors[i].pc.FetchFailed? || s.actors[i].pc.RolledBack?
    ensures var a := s.actors[i];
            var pc := Finished(if a.pc.FetchFailed? then WaveError else FinalizeError);
            Timely(s.db, FailUnit(i)) && ActorInv(Apply(s.db, FailUnit(i)).value, s.lock, a.(pc := pc), i)
  {
  }

  lemma StepOutsideKept(s: State, i: nat)
    requires Inv(s) && i < |s.actors| && !InTransaction(s.actors[i].pc)
    ensures Inv(StepOutside(s, i))
  {
    var a := s.actors[i];
    assert ActorInv(s.db, s.lock, a, i);
    OutsideWrites(s, i);
    if a.pc.Ready? && a.op.AuditOp? && a.op.authenticated {
      AutocommitKept(s, i, RowUnit, if RowOf(EnsureRow(s.db)).balance < AUDIT_CREDIT_COST then Finished(Refused) else Checked);
    } else if a.pc.Checked? {
      AutocommitKept(s, i, CreateUnit(i, a.op.authenticated), Created);
    } else if a.pc.FetchFailed? {
      FailureWrites(s, i);
      AutocommitKept(s, i, FailUnit(i), Finished(WaveError));
    } else if a.pc.RolledBack? {
      FailureWrites(s, i);
      AutocommitKept(s, i, FailUnit(i), Finished(FinalizeError));
    } else {
      QuietKept(s, i);
    }
  }

  lemma QuietKept(s: State, i: nat)
    requires Inv(s) && i < |s.actors|
    requires var a := s.actors[i];
             a.pc.Created? || a.pc.Fetched? || a.pc.Parsed? || a.pc.Finished?
             || (a.pc.Ready? && !(a.op.AuditOp? && a.op.authenticated))
    ensures Inv(StepOutside(s, i))
  {
    assert ActorInv(s.db, s.lock, s.actors[i], i);
    LocalKept(s, StepOutside(s, i), i);
  }

  /** Inside the transaction, before its end, only the actor's own record and the lock change. */
  lemma LockingIsLocal(s: State, i: nat)
    requires i < |s.actors| && ActorInv(s.db, s.lock, s.actors[i], i) && s.actors[i].pc.InTx?
    requires StepInside(s, i) != Rollback(s, i)
    ensures LocalStep(s, StepInside(s, i), i)
  {
  }

  lemma WritingIsLocal(s: State, i: nat)
    requires i < |s.actors| && ActorInv(s.db, s.lock, s.actors[i], i)
    requires var a := s.actors[i];
             a.pc.Locked? || a.pc.RowWritten? || a.pc.AuditWritten? || (a.pc.EntryWritten? && a.op.AuditOp?)
    requires StepInside(s, i) != Rollback(s, i)
    ensures LocalStep(s, StepInside(s, i), i)
  {
  }

  lemma StepInsideKept(s: State, i: nat)
    requires Inv(s) && i < |s.actors| && InTransaction(s.actors[i].pc)
    ensures Inv(StepInside(s, i))
  {
    var a := s.actors[i];
    assert ActorInv(s.db, s.lock, a, i);
    if StepInside(s, i) == Rollback(s, i) {
      RollbackIsLocal(s, i);
      LocalKept(s, Rollback(s, i), i);
    } else if a.pc.IssuesWritten? || (a.pc.EntryWritten? && !a.op.AuditOp?) {
      CommitTxKept(s, i);
    } else {
      if a.pc.InTx? {
        LockingIsLocal(s, i);
      } else {
        WritingIsLocal(s, i);
      }
      LocalKept(s, StepInside(s, i), i);
    }
  }

  /** Dying, and raising anywhere, end or divert one actor and free its lock. */
  lemma DyingIsLocal(s: State, i: nat)
    requires i < |s.actors| && ActorInv(s.db, s.lock, s.actors[i], i)
    ensures LocalStep(s, StepDie(s, i), i)
  {
  }

  lemma ThrowingIsLocal(s: State, i: nat)
    requires i < |s.actors| && ActorInv(s.db, s.lock, s.actors[i], i)
    ensures LocalStep(s, StepThrow(s, i), i)
  {
    if InTransaction(s.actors[i].pc) {
      RollbackIsLocal(s, i);
    }
  }

  lemma ReplyIsLocal(s: State, i: nat, w: Wave)
    requires i < |s.actors| && ActorInv(s.db, s.lock, s.actors[i], i)
    ensures LocalStep(s, Next(s, Act(i, Reply(w))), i)
  {
  }

  lemma EnvironmentKept(s: State, i: nat, choice: Choice)
    requires Inv(s) && i < |s.actors| && !choice.Go?
    ensures Inv(Next(s, Act(i, choice)))
  {
    assert ActorInv(s.db, s.lock, s.actors[i], i);
    match choice
    case Reply(w) =>
      ReplyIsLocal(s, i, w);
      LocalKept(s, Next(s, Act(i, Reply(w))), i);
    case Throw =>
      ThrowingIsLocal(s, i);
      LocalKept(s, StepThrow(s, i), i);
    case Die =>
      DyingIsLocal(s, i);
      LocalKept(s, StepDie(s, i), i);
  }

  lemma SpawnKept(s: State, op: Op)
    requires Inv(s)
    ensures Inv(Next(s, Spawn(op)))
  {
    var t := Next(s, Spawn(op));
    forall j | 0 <= j < |t.actors| ensures ActorInv(t.db, t.lock, t.actors[j], j) {
      if j < |s.actors| {
        assert ActorInv(s.db, s.lock, s.actors[j], j);
      }
    }
  }

  lemma NextKeepsInv(s: State, e: Event)
    requires Inv(s)
    ensures Inv(Next(s, e))
  {
    match e
    case Spawn(op) => SpawnKept(s, op);
    case Act(i, choice) =>
      if i < |s.actors| {
        if !choice.Go? {
          EnvironmentKept(s, i, choice);
        } else if InTransaction(s.actors[i].pc) {
          StepInsideKept(s, i);
        } else {
          StepOutsideKept(s, i);
        }
      }
  }

  lemma {:induction false} RunInv(events: seq<Event>)
    ensures Inv(Run(events))
  {
    if events != [] {
      RunInv(events[..|events| - 1]);
      NextKeepsInv(Run(events[..|events| - 1]), events[|events| - 1]);
    }
  }

  // ------------------------------------------------------------------------------- the theorems

  /** A step commits nothing, or exactly one unit with the effect that unit has when run alone. */
  ghost predicate CommitsAtMostOne(s: State, t: State)
  {
    || (t.db == s.db && t.log == s.log)
    || (|t.log| == |s.log| + 1 && t.log[..|s.log|] == s.log && Apply(s.db, t.log[|s.log|].unit) == Ok(t.db))
  }

  lemma AutocommitIsOne(s: State, i: nat, u: Unit)
    ensures CommitsAtMostOne(s, Commit(s, i, u)) && Commit(s, i, u).actors == s.actors
  {
  }

  lemma OutsideCommits(s: State, i: nat)
    requires i < |s.actors|
    ensures CommitsAtMostOne(s, StepOutside(s, i))
  {
    var a := s.actors[i];
    AutocommitIsOne(s, i, RowUnit);
    AutocommitIsOne(s, i, CreateUnit(i, a.op.AuditOp? && a.op.authenticated));
    AutocommitIsOne(s, i, FailUnit(i));
  }

  lemma InsideCommits(s: State, i: nat)
    requires Inv(s) && i < |s.actors|
    ensures CommitsAtMostOne(s, StepInside(s, i))
  {
    var a := s.actors[i];
    if a.pc.IssuesWritten? || (a.pc.EntryWritten? && !a.op.AuditOp?) {
      assert ActorInv(s.db, s.lock, a, i);
      CommitIsAtomic(s, i);
    }
  }

  lemma StepCommits(s: State, e: Event)
    requires Inv(s)
    ensures CommitsAtMostOne(s, Next(s, e))
  {
    if e.Act? && e.i < |s.actors| && e.choice.Go? {
      OutsideCommits(s, e.i);
      InsideCommits(s, e.i);
    }
  }

  /** Serializability: for every interleaving, with rollbacks and deaths anywhere, the committed
      database is the one obtained by running the committed operations one at a time in commit order. */
  lemma {:induction false} Serializable(events: seq<Event>)
    ensures Replay(EMPTY, Units(Run(events).log)) == Ok(Run(events).db)
  {
    if events != [] {
      var s, t := Run(events[..|events| - 1]), Run(events);
      Serializable(events[..|events| - 1]);
      RunInv(events[..|events| - 1]);
      StepCommits(s, events[|events| - 1]);
      if t.log != s.log {
        assert Units(t.log)[..|s.log|] == Units(s.log);
      } else {
        assert Units(t.log) == Units(s.log);
      }
    }
  }

  lemma CommitsAppend(log: seq<Logged>, x: Logged, i: nat)
    ensures Commits(log + [x], i) == Commits(log, i) + if Closes(x, i) then 1 else 0
  {
    var l := log + [x];
    assert l[..|l| - 1] == log;
  }

  lemma NoCommitYet(s: State, i: nat)
    requires LogInv(s) && i >= |s.actors|
    ensures Commits(s.log, i) == 0
  {
    forall x | x in s.log ensures !Closes(x, i) {
      assert OwnCommit(s.actors, x);
    }
    CountZero(s.log, x => Closes(x, i));
  }

  /** How one step extends the log: by nothing, by an autocommitted write, or by the actor's own
      transaction at the moment it returns. */
  ghost predicate LogsOwnUnit(s: State, t: State, i: nat)
    requires i < |s.actors|
  {
    && |t.actors| == |s.actors|
    && (forall j :: 0 <= j < |s.actors| && j != i ==> t.actors[j] == s.actors[j])
    && (s.actors[i].pc == Finished(Returned) ==> t.actors[i] == s.actors[i] && t.log == s.log)
    && (t.log == s.log || (|t.log| == |s.log| + 1 && t.log[..|s.log|] == s.log && t.log[|s.log|].actor == i))
    && (s.actors[i].pc != Finished(Returned) && t.actors[i].pc == Finished(Returned) ==>
          t.log == s.log + [Logged(i, ClosingUnit(t.actors[i], i))])
    && (t.actors[i].pc != Finished(Returned) ==> t.log == s.log || !Closes(t.log[|s.log|], i))
  }

  lemma OutsideLogs(s: State, i: nat)
    requires i < |s.actors|
    ensures LogsOwnUnit(s, StepOutside(s, i), i)
  {
  }

  lemma InsideLogs(s: State, i: nat)
    requires i < |s.actors| && !s.actors[i].pc.Finished?
    ensures LogsOwnUnit(s, StepInside(s, i), i)
  {
  }

  lemma StepLogs(s: State, i: nat, choice: Choice)
    requires i < |s.actors|
    ensures LogsOwnUnit(s, Next(s, Act(i, choice)), i)
  {
    if !choice.Go? {
    } else if InTransaction(s.actors[i].pc) {
      InsideLogs(s, i);
    } else {
      OutsideLogs(s, i);
    }
  }

  lemma NextKeepsLogInv(s: State, e: Event)
    requires Inv(s) && LogInv(s)
    ensures LogInv(Next(s, e))
  {
    var t := Next(s, e);
    if e.Spawn? {
      NoCommitYet(s, |s.actors|);
      forall k | 0 <= k < |t.log| ensures OwnCommit(t.actors, t.log[k]) {
        assert OwnCommit(s.actors, s.log[k]);
      }
    } else if e.i < |s.actors| {
      var i := e.i;
      StepLogs(s, i, e.choice);
      forall k | 0 <= k < |s.log| ensures OwnCommit(t.actors, s.log[k]) {
        assert OwnCommit(s.actors, s.log[k]);
      }
      if t.log != s.log {
        assert t.log == s.log + [t.log[|s.log|]];
        forall j | 0 <= j < |s.actors|
          ensures Commits(t.log, j) == Commits(s.log, j) + if Closes(t.log[|s.log|], j) then 1 else 0
        {
          CommitsAppend(s.log, t.log[|s.log|], j);
        }
      }
    }
  }

  /** The serial order is made of the callers' own operations: a call that returned committed its
      transaction exactly once, every other call never did. */
  lemma {:induction false} CommittedExactlyOnce(events: seq<Event>)
    ensures LogInv(Run(events))
  {
    if events != [] {
      RunInv(events[..|events| - 1]);
      CommittedExactlyOnce(events[..|events| - 1]);
      NextKeepsLogInv(Run(events[..|events| - 1]), events[|events| - 1]);
    }
  }

  /** A step of `j` under somebody else's lock leaves row, ledger, lock and the other actors alone. */
  ghost predicate LeavesLocked(s: State, t: State, j: nat)
  {
    && t.lock == s.lock && t.db.account == s.db.account && t.db.ledger == s.db.ledger && |t.actors| == |s.actors|
    && forall k :: 0 <= k < |s.actors| && k != j ==> t.actors[k] == s.actors[k]
  }

  lemma OutsiderLeavesLocked(s: State, j: nat)
    requires j < |s.actors| && s.db.account.Some?
    ensures LeavesLocked(s, StepOutside(s, j), j)
  {
  }

  lemma WaiterLeavesLocked(s: State, j: nat)
    requires j < |s.actors| && ActorInv(s.db, s.lock, s.actors[j], j)
    requires s.db.account.Some? && s.lock.Some? && s.lock != Some(j)
    ensures LeavesLocked(s, StepInside(s, j), j)
  {
  }

  /** The committed transactions are the calls as they were made. */
  lemma LoggedAsAsked(events: seq<Event>, k: nat)
    requires k < |Run(events).log| && Closes(Run(events).log[k], Run(events).log[k].actor)
    ensures var s := Run(events);
            var i := s.log[k].actor;
            && i < |s.actors| && s.actors[i].pc == Finished(Returned)
            && match s.actors[i].op
               case AddOp(amount, kind) => s.log[k].unit == AddUnit(amount, kind)
               case DeductOp(amount) => s.log[k].unit == DeductUnit(amount)
               case AuditOp(owned) => s.log[k].unit == FinalizeUnit(i, owned, s.actors[i].wave)
  {
    CommittedExactlyOnce(events);
    assert OwnCommit(Run(events).actors, Run(events).log[k]);
  }

  /** From the locking read to the end of the outer transaction, the reader is the only lock holder,
      its snapshot is the committed row, and no step of anyone else touches row, ledger or lock. */
  lemma LockHeldToTheEnd(events: seq<Event>, i: nat, e: Event)
    requires i < |Run(events).actors| && Holds(Run(events).actors[i])
    requires !(e.Act? && e.i == i)
    ensures var s := Run(events);
            var t := Next(s, e);
            && s.lock == Some(i) && s.db.account == Some(s.actors[i].seen)
            && (forall j :: 0 <= j < |s.actors| && Holds(s.actors[j]) ==> j == i)
            && t.lock == s.lock && t.db.account == s.db.account && t.db.ledger == s.db.ledger
            && t.actors[i] == s.actors[i]
  {
    RunInv(events);
    StepOfAnother(Run(events), i, e);
  }

  lemma StepOfAnother(s: State, i: nat, e: Event)
    requires Inv(s) && i < |s.actors| && Holds(s.actors[i]) && !(e.Act? && e.i == i)
    ensures var t := Next(s, e);
            && s.lock == Some(i) && s.db.account == Some(s.actors[i].seen)
            && (forall j :: 0 <= j < |s.actors| && Holds(s.actors[j]) ==> j == i)
            && t.lock == s.lock && t.db.account == s.db.account && t.db.ledger == s.db.ledger
            && t.actors[i] == s.actors[i]
  {
    assert ActorInv(s.db, s.lock, s.actors[i], i);
    forall j | 0 <= j < |s.actors| && Holds(s.actors[j]) ensures j == i {
      assert ActorInv(s.db, s.lock, s.actors[j], j);
    }
    if e.Act? && e.i < |s.actors| && e.choice.Go? {
      assert ActorInv(s.db, s.lock, s.actors[e.i], e.i);
      OutsiderLeavesLocked(s, e.i);
      WaiterLeavesLocked(s, e.i);
    }
  }

  /** Conservation in every reachable committed state. */
  lemma BooksBalance(events: seq<Event>)
    ensures Books(Run(events).db)
  {
    Serializable(events);
    assert Books(EMPTY);
    ReplayKeepsBooks(EMPTY, Units(Run(events).log));
  }

  /** In every reachable state the entries written by audits and the paid completions match
      one-to-one, and the audit row tells how its call ended. */
  lemma EntriesMatchPaidAudits(events: seq<Event>)
    ensures Matched(Run(events).db)
    ensures var s := Run(events);
            forall i :: 0 <= i < |s.actors| && s.actors[i].op.AuditOp? ==> RowInv(s.db, s.actors[i], i)
  {
    RunInv(events);
    var s := Run(events);
    forall i | 0 <= i < |s.actors| && s.actors[i].op.AuditOp? ensures RowInv(s.db, s.actors[i], i) {
      assert ActorInv(s.db, s.lock, s.actors[i], i);
    }
  }

  /** The rows of an audit that has ended, by its ending. */
  ghost predicate AuditRows(db: Db, i: nat, owned: bool, w: Wave, outcome: Outcome)
  {
    match outcome
    case Returned =>
      && i in db.audits && db.audits[i] == Audit(owned, Completed, w.totals, if owned then 1 else 0)
      && i in db.issues && db.issues[i] == w.issues
    case Refused => i !in db.audits && i !in db.issues
    case WaveError => i in db.audits && db.audits[i] == Audit(owned, Failed, Totals(0, 0, 0, 0, 0), 0) && i !in db.issues
    case FinalizeError => i in db.audits && db.audits[i] == Audit(owned, Failed, Totals(0, 0, 0, 0, 0), 0) && i !in db.issues
    case ParseError => i in db.audits && db.audits[i] == Audit(owned, Pending, Totals(0, 0, 0, 0, 0), 0) && i !in db.issues
    case Lost => i !in db.issues && (i in db.audits ==> db.audits[i] == Audit(owned, Pending, Totals(0, 0, 0, 0, 0), 0))
    case Rejected => false
  }

  /** A call keeps its operation, and the report it holds is the one that the HTTP call returned to it. */
  lemma ReportIsTheReply(s: State, e: Event, i: nat)
    requires i < |s.actors|
    ensures var t := Next(s, e);
            && i < |t.actors| && t.actors[i].op == s.actors[i].op
            && t.actors[i].wave ==
               if e.Act? && e.i == i && e.choice.Reply? && s.actors[i].pc == Created then e.choice.wave else s.actors[i].wave
  {
    if e.Act? && e.i < |s.actors| {
      if e.choice.Go? {
        OutsideKeepsCalls(s, e.i);
        InsideKeepsCalls(s, e.i);
      } else if !e.choice.Reply? {
        EndingKeepsCalls(s, e.i);
      }
    }
  }

  ghost predicate KeepsCalls(s: State, t: State)
  {
    |t.actors| == |s.actors|
    && forall j :: 0 <= j < |s.actors| ==> t.actors[j].op == s.actors[j].op && t.actors[j].wave == s.actors[j].wave
  }

  lemma OutsideKeepsCalls(s: State, i: nat)
    requires i < |s.actors|
    ensures KeepsCalls(s, StepOutside(s, i))
  {
  }

  lemma InsideKeepsCalls(s: State, i: nat)
    requires i < |s.actors|
    ensures KeepsCalls(s, StepInside(s, i))
  {
  }

  lemma EndingKeepsCalls(s: State, i: nat)
    requires i < |s.actors|
    ensures KeepsCalls(s, StepThrow(s, i)) && KeepsCalls(s, StepDie(s, i))
  {
  }

  lemma RowsWhen(s: State, i: nat)
    requires Inv(s) && i < |s.actors| && s.actors[i].op.AuditOp? && s.actors[i].pc.Finished?
    ensures var a := s.actors[i]; AuditRows(s.db, i, a.op.authenticated, a.wave, a.pc.outcome)
  {
    assert ActorInv(s.db, s.lock, s.actors[i], i) && RowInv(s.db, s.actors[i], i);
    if i in s.db.audits {
      assert AuditMatched(s.db, i);
    }
  }

  /** In every reachable state a returned audit has stored the totals and issues of its report, and every
      other ending has left no result: `wave` is the report the call received. */
  lemma ReturnedAuditIsStored(events: seq<Event>, i: nat)
    requires i < |Run(events).actors| && Run(events).actors[i].op.AuditOp? && Run(events).actors[i].pc.Finished?
    ensures var s := Run(events);
            var a := s.actors[i];
            AuditRows(s.db, i, a.op.authenticated, a.wave, a.pc.outcome)
  {
    RunInv(events);
    RowsWhen(Run(events), i);
  }

  lemma PendingWhen(s: State, i: nat)
    requires Inv(s) && i < |s.actors| && s.actors[i].op.AuditOp? && s.actors[i].pc.Finished?
    ensures var pc := s.actors[i].pc;
            i in s.db.audits && s.db.audits[i].status == Pending
            <==> pc == Finished(ParseError) || (pc == Finished(Lost) && i in s.db.audits)
  {
    var a := s.actors[i];
    assert ActorInv(s.db, s.lock, a, i) && RowInv(s.db, a, i);
    match a.pc.outcome
    case Returned => assert s.db.audits[i] == CompletedRow(a.op.authenticated, a.wave);
    case _ =>
  }

  /** A finished audit has a pending row if and only if the parser raised, or the call was lost after its row
      was created. */
  lemma PendingIff(events: seq<Event>, i: nat)
    requires i < |Run(events).actors| && Run(events).actors[i].op.AuditOp? && Run(events).actors[i].pc.Finished?
    ensures var s := Run(events);
            var pc := s.actors[i].pc;
            i in s.db.audits && s.db.audits[i].status == Pending
            <==> pc == Finished(ParseError) || (pc == Finished(Lost) && i in s.db.audits)
  {
    RunInv(events);
    PendingWhen(Run(events), i);
  }

  /** However many audits pass the unlocked preflight, paid completions never exceed the credits ever
      added. */
  lemma PaidCompletionsBounded(events: seq<Event>)
    ensures |PaidAudits(Run(events).db)| <= Added(Run(events).db.ledger)
  {
    EntriesMatchPaidAudits(events);
    BooksBalance(events);
    PaidWithinAdded(Run(events).db);
  }
}
