/** The credit ledger and the database rows an accessibility audit writes.

    `Db` is the committed state that belongs to one user: the balance row, the ledger, and the audit
    and issue tables (anonymous audits included). The functions give the effect of one transaction
    run alone; class `Store` is the imperative service, proved against them. */
module Credits {
  import opened Prelude

  datatype Kind = Purchase | Usage | Refund

  /** One row of the balance table. */
  datatype Account = Account(balance: int, totalPurchased: int, totalUsed: int)

  const ZERO := Account(0, 0, 0)

  type AuditId = nat

  /** A ledger entry. `audit` records which audit wrote it (the service itself only keeps a description). */
  datatype Entry = Entry(amount: int, kind: Kind, balanceAfter: int, audit: Option<AuditId>)

  datatype Status = Pending | Completed | Failed

  datatype Totals = Totals(errors: int, alerts: int, features: int, structural: int, contrast: int)

  /** A parsed report of the accessibility service: totals and issue rows (WAVE id, count). */
  datatype Wave = Wave(totals: Totals, issues: seq<(string, int)>)

  datatype Audit = Audit(owned: bool, status: Status, totals: Totals, creditsConsumed: int)

  const NO_TOTALS := Totals(0, 0, 0, 0, 0)
  const AUDIT_CREDIT_COST := 1

  datatype Db = Db(
    account: Option<Account>,
    ledger: seq<Entry>,
    audits: map<AuditId, Audit>,
    issues: map<AuditId, seq<(string, int)>>)

  const EMPTY := Db(None, [], map[], map[])

  datatype Error =
    | InvalidAmount
    | NoBalanceRow
    | InsufficientCredits(required: int, balance: int)
    | WaveFailed
    | ParseFailed
    | PersistFailed

  // ---------------------------------------------------------------- one transaction run alone

  /** The balance row after consuming `amount`, and after adding `amount`. */
  function Debited(a: Account, amount: int): Account
  {
    a.(totalUsed := a.totalUsed + amount, balance := a.balance - amount)
  }

  function Credited(a: Account, amount: int, kind: Kind): Account
  {
    a.(totalPurchased := a.totalPurchased + if kind == Purchase then amount else 0,
       balance := a.balance + amount)
  }

  function Deduct(db: Db, amount: int, audit: Option<AuditId>): Result<Db, Error>
  {
    if amount <= 0 then Err(InvalidAmount)
    else if db.account.None? then Err(NoBalanceRow)
    else if db.account.value.balance < amount then Err(InsufficientCredits(amount, db.account.value.balance))
    else
      var a := Debited(db.account.value, amount);
      Ok(db.(account := Some(a), ledger := db.ledger + [Entry(-amount, Usage, a.balance, audit)]))
  }

  function Add(db: Db, amount: int, kind: Kind): Result<Db, Error>
  {
    if amount <= 0 then Err(InvalidAmount)
    else if db.account.None? then Err(NoBalanceRow)
    else
      var a := Credited(db.account.value, amount, kind);
      Ok(db.(account := Some(a), ledger := db.ledger + [Entry(amount, kind, a.balance, None)]))
  }

  function EnsureRow(db: Db): Db
  {
    if db.account.None? then db.(account := Some(ZERO)) else db
  }

  function PendingRow(owned: bool): Audit
  {
    Audit(owned, Pending, NO_TOTALS, 0)
  }

  function CompletedRow(owned: bool, w: Wave): Audit
  {
    Audit(owned, Completed, w.totals, if owned then AUDIT_CREDIT_COST else 0)
  }

  /** The committed effects. `Finalize` is the outer atomic block of an audit. */
  datatype Unit =
    | AddUnit(amount: int, kind: Kind)
    | DeductUnit(amount: int)
    | RowUnit
    | CreateUnit(id: AuditId, owned: bool)
    | FailUnit(id: AuditId)
    | FinalizeUnit(id: AuditId, owned: bool, wave: Wave)

  function Complete(db: Db, id: AuditId, owned: bool, w: Wave): Db
  {
    db.(audits := db.audits[id := CompletedRow(owned, w)], issues := db.issues[id := w.issues])
  }

  function Apply(db: Db, u: Unit): Result<Db, Error>
  {
    match u
    case AddUnit(amount, kind) => Add(db, amount, kind)
    case DeductUnit(amount) => Deduct(db, amount, None)
    case RowUnit => Ok(EnsureRow(db))
    case CreateUnit(id, owned) => Ok(db.(audits := db.audits[id := PendingRow(owned)]))
    case FailUnit(id) =>
      if id in db.audits
      then Ok(db.(audits := db.audits[id := db.audits[id].(status := Failed, creditsConsumed := 0)]))
      else Err(PersistFailed)
    case FinalizeUnit(id, owned, w) =>
      if !owned then Ok(Complete(db, id, owned, w))
      else
        match Deduct(db, AUDIT_CREDIT_COST, Some(id))
        case Err(e) => Err(e)
        case Ok(d) => Ok(Complete(d, id, owned, w))
  }

  /** The committed units run one at a time, in order, from `db`. */
  function Replay(db: Db, log: seq<Unit>): Result<Db, Error>
  {
    if log == [] then Ok(db)
    else
      match Replay(db, log[..|log| - 1])
      case Err(e) => Err(e)
      case Ok(d) => Apply(d, log[|log| - 1])
  }

  // ------------------------------------------------------------------------------- the books

  function Sum(ledger: seq<Entry>): int
  {
    if ledger == [] then 0 else Sum(ledger[..|ledger| - 1]) + ledger[|ledger| - 1].amount
  }

  predicate IsGift(e: Entry) { e.amount > 0 && e.kind != Purchase }

  /** Credits that were added without being a purchase (refunds, in practice). */
  function Gifts(ledger: seq<Entry>): int
  {
    if ledger == [] then 0
    else Gifts(ledger[..|ledger| - 1]) + if IsGift(ledger[|ledger| - 1]) then ledger[|ledger| - 1].amount else 0
  }

  /** Credits ever added, of any kind. */
  function Added(ledger: seq<Entry>): nat
  {
    if ledger == [] then 0
    else Added(ledger[..|ledger| - 1]) + if ledger[|ledger| - 1].amount > 0 then ledger[|ledger| - 1].amount else 0
  }

  function RowOf(db: Db): Account
  {
    if db.account.None? then ZERO else db.account.value
  }

  /** The bookkeeping invariant: no overdraft, the ledger explains the balance, every snapshot is the
      prefix sum at its entry, and the totals explain the balance. */
  ghost predicate Books(db: Db)
  {
    var a := RowOf(db);
    && a.balance >= 0
    && a.balance == Sum(db.ledger)
    && (forall k :: 0 <= k < |db.ledger| ==> db.ledger[k].balanceAfter == Sum(db.ledger[..k + 1]) >= 0)
    && a.balance == a.totalPurchased - a.totalUsed + Gifts(db.ledger)
    && a.totalUsed == Added(db.ledger) - Sum(db.ledger)
  }

  lemma BooksAppend(db: Db, a: Account, e: Entry)
    requires Books(db) && db.account.Some?
    requires a.balance == e.balanceAfter == RowOf(db).balance + e.amount >= 0
    requires a.totalPurchased - a.totalUsed ==
             RowOf(db).totalPurchased - RowOf(db).totalUsed + if IsGift(e) then 0 else e.amount
    requires a.totalUsed == RowOf(db).totalUsed + if e.amount > 0 then 0 else -e.amount
    ensures Books(db.(account := Some(a), ledger := db.ledger + [e]))
  {
    var l := db.ledger + [e];
    assert l[..|l| - 1] == db.ledger;
    forall k | 0 <= k < |l| ensures l[k].balanceAfter == Sum(l[..k + 1]) >= 0 {
      if k < |db.ledger| {
        assert l[..k + 1] == db.ledger[..k + 1];
      } else {
        assert l[..k + 1] == l;
      }
    }
  }

  lemma BooksFrame(db: Db, d: Db)
    requires Books(db) && RowOf(d) == RowOf(db) && d.ledger == db.ledger
    ensures Books(d)
  {
  }

  lemma DeductKeepsBooks(db: Db, amount: int, audit: Option<AuditId>)
    requires Books(db) && Deduct(db, amount, audit).Ok?
    ensures Books(Deduct(db, amount, audit).value)
  {
    var a := Debited(db.account.value, amount);
    BooksAppend(db, a, Entry(-amount, Usage, a.balance, audit));
  }

  lemma AddKeepsBooks(db: Db, amount: int, kind: Kind)
    requires Books(db) && Add(db, amount, kind).Ok?
    ensures Books(Add(db, amount, kind).value)
  {
    var a := Credited(db.account.value, amount, kind);
    BooksAppend(db, a, Entry(amount, kind, a.balance, None));
  }

  lemma ApplyKeepsBooks(db: Db, u: Unit)
    requires Books(db) && Apply(db, u).Ok?
    ensures Books(Apply(db, u).value)
  {
    match u
    case AddUnit(amount, kind) => AddKeepsBooks(db, amount, kind);
    case DeductUnit(amount) => DeductKeepsBooks(db, amount, None);
    case FinalizeUnit(id, owned, w) =>
      if owned {
        DeductKeepsBooks(db, AUDIT_CREDIT_COST, Some(id));
        BooksFrame(Deduct(db, AUDIT_CREDIT_COST, Some(id)).value, Apply(db, u).value);
      } else {
        BooksFrame(db, Apply(db, u).value);
      }
    case _ => BooksFrame(db, Apply(db, u).value);
  }

  /** Conservation over every serial run of purchases, refunds, usages and audits from an empty
      database. */
  lemma {:induction false} ReplayKeepsBooks(db: Db, log: seq<Unit>)
    requires Books(db) && Replay(db, log).Ok?
    ensures Books(Replay(db, log).value)
  {
    if log != [] {
      ReplayKeepsBooks(db, log[..|log| - 1]);
      ApplyKeepsBooks(Replay(db, log[..|log| - 1]).value, log[|log| - 1]);
    }
  }

  lemma {:induction false} GiftsZero(ledger: seq<Entry>)
    ensures Gifts(ledger) >= 0
    ensures Gifts(ledger) == 0 <==> forall e :: e in ledger ==> !IsGift(e)
  {
    if ledger != [] {
      GiftsZero(ledger[..|ledger| - 1]);
      assert ledger == ledger[..|ledger| - 1] + [ledger[|ledger| - 1]];
    }
  }

  /** The identity noted beside the balance column (balance = purchased - used) holds exactly while no
      credit was added other than by purchase. */
  lemma DocumentedIdentity(db: Db)
    requires Books(db)
    ensures RowOf(db).balance == RowOf(db).totalPurchased - RowOf(db).totalUsed
            <==> forall e :: e in db.ledger ==> !IsGift(e)
  {
    GiftsZero(db.ledger);
  }

  /** The identity fails after a single refund. */
  lemma DocumentedIdentityFails()
    ensures var r := Replay(EMPTY, [RowUnit, AddUnit(5, Refund)]);
            r.Ok? && RowOf(r.value).balance == 5 && RowOf(r.value).totalPurchased - RowOf(r.value).totalUsed == 0
  {
    var log := [RowUnit, AddUnit(5, Refund)];
    assert log[..1] == [RowUnit];
    assert log[..1][..0] == [];
    assert Replay(EMPTY, log[..1]) == Ok(EnsureRow(EMPTY));
  }

  // ---------------------------------------------------------------- ledger entries and audits

  predicate WrittenBy(e: Entry, id: AuditId) { e.audit == Some(id) }

  predicate IsPaid(a: Audit) { a.owned && a.status == Completed }

  /** The ledger entries written by audit `id`. */
  function EntriesOf(ledger: seq<Entry>, id: AuditId): nat
  {
    Count(ledger, e => WrittenBy(e, id))
  }

  ghost predicate AuditMatched(db: Db, id: AuditId)
    requires id in db.audits
  {
    var a := db.audits[id];
    && a.creditsConsumed == (if IsPaid(a) then AUDIT_CREDIT_COST else 0)
    && EntriesOf(db.ledger, id) == (if IsPaid(a) then 1 else 0)
    && (id in db.issues <==> a.status == Completed)
    && (a.status != Completed ==> a.totals == NO_TOTALS)
  }

  ghost predicate EntryMatched(audits: map<AuditId, Audit>, e: Entry)
  {
    e.audit.Some? ==>
      && e.amount == -AUDIT_CREDIT_COST && e.kind == Usage
      && e.audit.value in audits && IsPaid(audits[e.audit.value])
  }

  /** Usage entries written by audits match one-to-one with completed authenticated audits; an audit
      that is not a paid completion has no entry and no credit; stored issues belong to completed
      audits only. */
  ghost predicate Matched(db: Db)
  {
    && (forall id :: id in db.audits ==> AuditMatched(db, id))
    && (forall e :: e in db.ledger ==> EntryMatched(db.audits, e))
    && db.issues.Keys <= db.audits.Keys
  }

  /** A unit respects the audit life cycle: fresh ids are created, only pending audits are closed. */
  ghost predicate Timely(db: Db, u: Unit)
  {
    match u
    case CreateUnit(id, owned) => id !in db.audits
    case FailUnit(id) => id in db.audits && db.audits[id].status == Pending
    case FinalizeUnit(id, owned, w) => id in db.audits && db.audits[id] == PendingRow(owned)
    case _ => true
  }

  lemma EntriesOfAppend(ledger: seq<Entry>, e: Entry, id: AuditId)
    ensures EntriesOf(ledger + [e], id) == EntriesOf(ledger, id) + if WrittenBy(e, id) then 1 else 0
  {
    var l := ledger + [e];
    assert l[..|l| - 1] == ledger;
  }

  lemma NoEntryForNewAudit(db: Db, id: AuditId)
    requires Matched(db) && id !in db.audits
    ensures EntriesOf(db.ledger, id) == 0
  {
    forall e | e in db.ledger ensures !WrittenBy(e, id) {
      assert EntryMatched(db.audits, e);
    }
    CountZero(db.ledger, x => WrittenBy(x, id));
  }

  /** A unit that writes one ledger entry and, when the entry belongs to an audit, completes that audit. */
  lemma EntryKeepsMatched(db: Db, d: Db, e: Entry)
    requires Matched(db) && d.ledger == db.ledger + [e]
    requires e.audit.None? ==> d.audits == db.audits && d.issues == db.issues
    requires e.audit.Some? ==>
               var id := e.audit.value;
               && id in db.audits && db.audits[id] == PendingRow(true) && e.amount == -AUDIT_CREDIT_COST && e.kind == Usage
               && id in d.audits && IsPaid(d.audits[id]) && d.audits[id].creditsConsumed == AUDIT_CREDIT_COST
               && d.audits == db.audits[id := d.audits[id]] && id in d.issues && d.issues == db.issues[id := d.issues[id]]
    ensures Matched(d)
  {
    forall id | id in d.audits ensures AuditMatched(d, id) {
      assert AuditMatched(db, id);
      EntriesOfAppend(db.ledger, e, id);
    }
    forall x | x in d.ledger ensures EntryMatched(d.audits, x) {
      if x in db.ledger {
        assert EntryMatched(db.audits, x);
      }
    }
  }

  /** A unit that leaves the ledger alone and writes at most the unpaid audit row `id`. */
  lemma RowKeepsMatched(db: Db, d: Db, id: AuditId)
    requires Matched(db) && d.ledger == db.ledger
    requires id in db.audits ==> db.audits[id].status == Pending
    requires id in d.audits && d.audits == db.audits[id := d.audits[id]]
    requires var a := d.audits[id];
             && !IsPaid(a) && a.creditsConsumed == 0
             && (a.status != Completed ==> a.totals == NO_TOTALS && d.issues == db.issues)
             && (a.status == Completed ==> id in d.issues && d.issues == db.issues[id := d.issues[id]])
    ensures Matched(d)
  {
    if id !in db.audits {
      NoEntryForNewAudit(db, id);
    } else {
      assert AuditMatched(db, id);
    }
    forall x | x in d.audits && x != id ensures AuditMatched(d, x) {
      assert AuditMatched(db, x);
    }
    forall x | x in d.ledger ensures EntryMatched(d.audits, x) {
      assert EntryMatched(db.audits, x);
      assert x.audit != Some(id);
    }
  }

  lemma ApplyKeepsMatched(db: Db, u: Unit)
    requires Matched(db) && Timely(db, u) && Apply(db, u).Ok?
    ensures Matched(Apply(db, u).value)
  {
    var d := Apply(db, u).value;
    if u.RowUnit? {
      assert forall id :: id in db.audits ==> AuditMatched(db, id) ==> AuditMatched(d, id);
    } else if d.ledger != db.ledger {
      EntryKeepsMatched(db, d, d.ledger[|db.ledger|]);
    } else {
      if u.FailUnit? {
        assert AuditMatched(db, u.id);
      }
      RowKeepsMatched(db, d, u.id);
    }
  }

  /** Distinct audits that each wrote an entry have been paid for out of the ledger. */
  lemma {:induction false} EntriesCostCredits(ledger: seq<Entry>, paid: set<AuditId>)
    requires forall id :: id in paid ==> EntriesOf(ledger, id) >= 1
    requires forall e :: e in ledger && e.audit.Some? ==> e.amount == -AUDIT_CREDIT_COST
    ensures |paid| <= Added(ledger) - Sum(ledger)
  {
    if ledger == [] {
      forall id ensures id !in paid {
      }
      assert paid == {};
    } else {
      var rest, last := ledger[..|ledger| - 1], ledger[|ledger| - 1];
      assert last in ledger;
      var others := if last.audit.Some? then paid - {last.audit.value} else paid;
      assert ledger == rest + [last];
      forall id | id in others ensures EntriesOf(rest, id) >= 1 {
        EntriesOfAppend(rest, last, id);
      }
      EntriesCostCredits(rest, others);
      if last.audit.Some? && last.audit.value in paid {
        assert paid == others + {last.audit.value};
      } else {
        assert others == paid;
      }
    }
  }

  ghost function PaidAudits(db: Db): set<AuditId>
  {
    set id | id in db.audits && IsPaid(db.audits[id])
  }

  lemma PaidWithinAdded(db: Db)
    requires Matched(db) && Books(db)
    ensures |PaidAudits(db)| <= Added(db.ledger)
  {
    forall id | id in PaidAudits(db) ensures EntriesOf(db.ledger, id) >= 1 {
      assert AuditMatched(db, id);
    }
    forall e | e in db.ledger && e.audit.Some? ensures e.amount == -AUDIT_CREDIT_COST {
      assert EntryMatched(db.audits, e);
    }
    EntriesCostCredits(db.ledger, PaidAudits(db));
  }

  // ------------------------------------------------------------ the service, run by one caller

  /** The environment of one audit: what the HTTP call, the parser and the database inserts do. */
  datatype AuditEnv = AuditEnv(raw: Option<Wave>, parses: bool, persists: bool)

  /** An audit run alone: preflight, pending row, then one closing unit. */
  function AuditAlone(db: Db, id: AuditId, owned: bool, env: AuditEnv): (Db, Result<Audit, Error>)
    requires id !in db.audits
  {
    var d0 := if owned then EnsureRow(db) else db;
    if owned && d0.account.value.balance < AUDIT_CREDIT_COST
    then (d0, Err(InsufficientCredits(AUDIT_CREDIT_COST, d0.account.value.balance)))
    else
      var d1 := Apply(d0, CreateUnit(id, owned)).value;
      if env.raw.None? then (Apply(d1, FailUnit(id)).value, Err(WaveFailed))
      else if !env.parses then (d1, Err(ParseFailed))
      else
        match Apply(d1, FinalizeUnit(id, owned, env.raw.value))
        case Err(e) => (Apply(d1, FailUnit(id)).value, Err(e))
        case Ok(d2) =>
          if env.persists then (d2, Ok(d2.audits[id])) else (Apply(d1, FailUnit(id)).value, Err(PersistFailed))
  }

  /** An audit pays if and only if it completes for an authenticated user: then the ledger gains exactly
      its one entry; in every other case ledger and totals are as before. It stays pending if and only if it
      passes the preflight, the page is fetched and the parser raises. */
  lemma AuditPaysIffCompleted(db: Db, id: AuditId, owned: bool, env: AuditEnv)
    requires id !in db.audits
    ensures var (d, r) := AuditAlone(db, id, owned, env);
            && (r.Ok? <==> id in d.audits && d.audits[id].status == Completed)
            && (if r.Ok? && owned
                then d.ledger == db.ledger + [Entry(-AUDIT_CREDIT_COST, Usage, RowOf(db).balance - AUDIT_CREDIT_COST, Some(id))]
                else d.ledger == db.ledger && RowOf(d) == RowOf(db))
            && (id !in d.audits <==> owned && RowOf(db).balance < AUDIT_CREDIT_COST)
            && (id in d.audits && d.audits[id].status == Pending
                <==> (owned ==> RowOf(db).balance >= AUDIT_CREDIT_COST) && env.raw.Some? && !env.parses)
  {
  }

  lemma AuditAloneKeepsBooks(db: Db, id: AuditId, owned: bool, env: AuditEnv)
    requires id !in db.audits && Books(db)
    ensures Books(AuditAlone(db, id, owned, env).0)
  {
    var (d, r) := AuditAlone(db, id, owned, env);
    AuditPaysIffCompleted(db, id, owned, env);
    if r.Ok? && owned {
      DeductKeepsBooks(EnsureRow(db).(audits := d.audits), AUDIT_CREDIT_COST, Some(id)) by {
        BooksFrame(db, EnsureRow(db).(audits := d.audits));
      }
      BooksFrame(Deduct(EnsureRow(db).(audits := d.audits), AUDIT_CREDIT_COST, Some(id)).value, d);
    } else {
      BooksFrame(db, d);
    }
  }

  /** What one audit does, from the balance before and the environment: whether it completes, the rows it
      writes, what it charges, and the exception it raises otherwise. */
  ghost predicate AuditResult(db: Db, id: AuditId, owned: bool, env: AuditEnv, d: Db, r: Result<Audit, Error>)
  {
    var passes := owned ==> db.account.Some? && db.account.value.balance >= 1;
    var done := passes && env.raw.Some? && env.parses && env.persists;
    && (r.Ok? <==> done)
    && (done ==>
          && r == Ok(Audit(owned, Completed, env.raw.value.totals, if owned then 1 else 0))
          && d.audits == db.audits[id := r.value] && d.issues == db.issues[id := env.raw.value.issues])
    && (if done && owned then
          var a := db.account.value;
          && d.account == Some(Account(a.balance - 1, a.totalPurchased, a.totalUsed + 1))
          && d.ledger == db.ledger + [Entry(-1, Usage, a.balance - 1, Some(id))]
        else
          && d.account == (if owned && db.account.None? then Some(Account(0, 0, 0)) else db.account)
          && d.ledger == db.ledger)
    && (!passes ==>
          && d.audits == db.audits
          && r == Err(InsufficientCredits(1, if db.account.Some? then db.account.value.balance else 0)))
    && (passes && !done ==>
          && r == Err(if env.raw.None? then WaveFailed else if !env.parses then ParseFailed else PersistFailed)
          && d.audits == db.audits[id :=
               Audit(owned, if env.raw.Some? && !env.parses then Pending else Failed, Totals(0, 0, 0, 0, 0), 0)])
    && (!done ==> d.issues == db.issues)
  }

  lemma AuditAloneResult(db: Db, id: AuditId, owned: bool, env: AuditEnv)
    requires id !in db.audits
    ensures AuditResult(db, id, owned, env, AuditAlone(db, id, owned, env).0, AuditAlone(db, id, owned, env).1)
  {
  }

  class Store {
    var account: Option<Account>
    var ledger: seq<Entry>
    var audits: map<AuditId, Audit>
    var issues: map<AuditId, seq<(string, int)>>

    function Contents(): Db
      reads this
    {
      Db(account, ledger, audits, issues)
    }

    constructor ()
      ensures Contents() == EMPTY
    {
      account, ledger, audits, issues := None, [], map[], map[];
    }

    method CheckBalance(required: int) returns (r: Result<int, Error>)
      modifies this
      ensures Contents() == EnsureRow(old(Contents()))
      ensures account == (if old(account).None? then Some(Account(0, 0, 0)) else old(account))
      ensures ledger == old(ledger) && audits == old(audits) && issues == old(issues)
      ensures var b := account.value.balance;
              r == if b < required then Err(InsufficientCredits(required, b)) else Ok(b)
    {
      if account.None? {
        account := Some(ZERO);
      }
      var balance := account.value.balance;
      if balance < required {
        return Err(InsufficientCredits(required, balance));
      }
      return Ok(balance);
    }

    method DeductCredit(amount: int, audit: Option<AuditId>) returns (r: Result<Entry, Error>)
      modifies this
      ensures match Deduct(old(Contents()), amount, audit)
              case Err(e) => r == Err(e) && Contents() == old(Contents())
              case Ok(d) => Contents() == d && r == Ok(d.ledger[|d.ledger| - 1])
      ensures r.Ok? <==> amount > 0 && old(account).Some? && old(account).value.balance >= amount
      ensures r.Ok? ==>
                var a := old(account).value;
                && account == Some(Account(a.balance - amount, a.totalPurchased, a.totalUsed + amount))
                && r.value == Entry(-amount, Usage, a.balance - amount, audit) && ledger == old(ledger) + [r.value]
      ensures r.Err? ==> account == old(account) && ledger == old(ledger)
      ensures r == Err(InvalidAmount) <==> amount <= 0
      ensures r == Err(NoBalanceRow) <==> amount > 0 && old(account).None?
      ensures audits == old(audits) && issues == old(issues)
      ensures old(Books(Contents())) ==> Books(Contents())
    {
      if amount <= 0 {
        return Err(InvalidAmount);
      }
      if account.None? {
        return Err(NoBalanceRow);
      }
      var row := account.value;
      if row.balance < amount {
        return Err(InsufficientCredits(amount, row.balance));
      }
      row := row.(totalUsed := row.totalUsed + amount);
      row := row.(balance := row.balance - amount);
      account := Some(row);
      var tx := Entry(-amount, Usage, row.balance, audit);
      ledger := ledger + [tx];
      r := Ok(tx);
      if old(Books(Contents())) {
        DeductKeepsBooks(old(Contents()), amount, audit);
      }
    }

    method AddCredits(amount: int, kind: Kind) returns (r: Result<Entry, Error>)
      modifies this
      ensures match Add(old(Contents()), amount, kind)
              case Err(e) => r == Err(e) && Contents() == old(Contents())
              case Ok(d) => Contents() == d && r == Ok(d.ledger[|d.ledger| - 1])
      ensures r.Ok? <==> amount > 0 && old(account).Some?
      ensures r.Ok? ==>
                var a := old(account).value;
                var bought := if kind == Purchase then amount else 0;
                && account == Some(Account(a.balance + amount, a.totalPurchased + bought, a.totalUsed))
                && r.value == Entry(amount, kind, a.balance + amount, None) && ledger == old(ledger) + [r.value]
      ensures r.Err? ==> account == old(account) && ledger == old(ledger)
      ensures r == Err(InvalidAmount) <==> amount <= 0
      ensures r == Err(NoBalanceRow) <==> amount > 0 && old(account).None?
      ensures audits == old(audits) && issues == old(issues)
      ensures old(Books(Contents())) ==> Books(Contents())
    {
      if amount <= 0 {
        return Err(InvalidAmount);
      }
      if account.None? {
        return Err(NoBalanceRow);
      }
      var row := account.value;
      if kind == Purchase {
        row := row.(totalPurchased := row.totalPurchased + amount);
      }
      row := row.(balance := row.balance + amount);
      account := Some(row);
      var tx := Entry(amount, kind, row.balance, None);
      ledger := ledger + [tx];
      r := Ok(tx);
      if old(Books(Contents())) {
        AddKeepsBooks(old(Contents()), amount, kind);
      }
    }

    /** The failure path that is shared by both `except` blocks: only these columns are saved. */
    method MarkFailed(id: AuditId)
      requires id in audits
      modifies this
      ensures Ok(Contents()) == Apply(old(Contents()), FailUnit(id))
    {
      audits := audits[id := audits[id].(status := Failed, creditsConsumed := 0)];
    }

    /** The atomic block: on an exception every write since the savepoint is undone. */
    method FinalizeAudit(id: AuditId, authenticated: bool, wave: Wave, persists: bool) returns (failure: Option<Error>)
      requires id in audits && audits[id] == PendingRow(authenticated)
      modifies this
      ensures match Apply(old(Contents()), FinalizeUnit(id, authenticated, wave))
              case Err(e) => failure == Some(e) && Contents() == old(Contents())
              case Ok(d) =>
                if persists then failure.None? && Contents() == d
                else failure == Some(PersistFailed) && Contents() == old(Contents())
      ensures failure.None? <==>
                (authenticated ==> old(account).Some? && old(account).value.balance >= 1) && persists
      ensures failure.Some? ==> Contents() == old(Contents())
      ensures failure.None? ==>
                && audits == old(audits)[id := Audit(authenticated, Completed, wave.totals, if authenticated then 1 else 0)]
                && issues == old(issues)[id := wave.issues]
    {
      var savedAccount, savedLedger, savedAudits, savedIssues := account, ledger, audits, issues;
      failure := None;
      var creditsConsumed := 0;
      if authenticated {
        var tx := DeductCredit(AUDIT_CREDIT_COST, Some(id));
        if tx.Err? {
          failure := Some(tx.error);
        } else {
          creditsConsumed := AUDIT_CREDIT_COST;
        }
      }
      if failure.None? {
        var audit := audits[id];
        audit := audit.(totals := wave.totals);
        audit := audit.(status := Completed);
        audit := audit.(creditsConsumed := creditsConsumed);
        audits := audits[id := audit];
        issues := issues[id := wave.issues];
        if !persists {
          failure := Some(PersistFailed);
        }
      }
      if failure.Some? {
        account, ledger, audits, issues := savedAccount, savedLedger, savedAudits, savedIssues;
      }
    }

    method RunAccessibilityAudit(id: AuditId, authenticated: bool, env: AuditEnv) returns (r: Result<Audit, Error>)
      requires id !in audits
      modifies this
      ensures (Contents(), r) == AuditAlone(old(Contents()), id, authenticated, env)
      ensures AuditResult(old(Contents()), id, authenticated, env, Contents(), r)
      ensures old(Books(Contents())) ==> Books(Contents())
    {
      AuditAloneResult(Contents(), id, authenticated, env);
      if Books(Contents()) {
        AuditAloneKeepsBooks(Contents(), id, authenticated, env);
      }
      if authenticated {
        var ok := CheckBalance(AUDIT_CREDIT_COST);
        if ok.Err? {
          return Err(ok.error);
        }
      }
      audits := audits[id := PendingRow(authenticated)];
      if env.raw.None? {
        MarkFailed(id);
        return Err(WaveFailed);
      }
      if !env.parses {
        return Err(ParseFailed);
      }
      var failure := FinalizeAudit(id, authenticated, env.raw.value, env.persists);
      if failure.Some? {
        MarkFailed(id);
        return Err(failure.value);
      }
      return Ok(audits[id]);
    }
  }
}
