/** GTmetrix reports: the test is started at most once per persisted id, failures are persisted, retries
    are bounded, and polling ends at a deadline. */
module Gtmetrix {
  import opened Prelude

  /** A test id is never empty: the client raises instead. */
  type TestId = s: string | s != "" witness "t"

  datatype Status = Pending | Completed | Failed

  datatype Exc = ClientError | ApiError | TimeoutError | NetworkError | OtherError

  type Metrics = int

  /** The committed report row. `testId` is empty until a test has been started and its id saved. */
  datatype Report = Report(testId: string, status: Status, error: Option<Exc>, metrics: Option<Metrics>)

  const NEW_REPORT := Report("", Pending, None, None)

  /** What a database save does: it commits, it raises, or the process dies first. */
  datatype Save = Saved | SaveRaises(exc: Exc) | DiesFirst

  datatype Polled = Fetched(metrics: Metrics) | PollRaises(exc: Exc) | DiesPolling

  /** The environment of one run of `process_gtmetrix`. */
  datatype Attempt = Attempt(start: Result<TestId, Exc>, idSave: Save, polled: Polled, failSave: Save, finalSave: Save)

  datatype Outcome = Returned | Raised(exc: Exc) | Died

  /** What one run does: the row it leaves, how it ends, whether `start_test` returned an id, and whether
      that id was lost before it was persisted. */
  datatype Effect = Effect(report: Report, outcome: Outcome, started: bool, lost: bool)

  function Fail(r: Report, exc: Exc, save: Save, started: bool, lost: bool): Effect
  {
    match save
    case Saved => Effect(r.(status := Failed, error := Some(exc)), Raised(exc), started, lost)
    case SaveRaises(e) => Effect(r, Raised(e), started, lost)
    case DiesFirst => Effect(r, Died, started, lost)
  }

  function Poll(r: Report, a: Attempt, started: bool): Effect
  {
    match a.polled
    case PollRaises(e) => Fail(r, e, a.failSave, started, false)
    case DiesPolling => Effect(r, Died, started, false)
    case Fetched(m) =>
      match a.finalSave
      case Saved => Effect(Report(r.testId, Completed, None, Some(m)), Returned, started, false)
      case SaveRaises(e) => Effect(r, Raised(e), started, false)
      case DiesFirst => Effect(r, Died, started, false)
  }

  function Process(r: Report, a: Attempt): Effect
  {
    if r.testId != "" then Poll(r, a, false)
    else
      match a.start
      case Err(e) => Fail(r, e, a.failSave, false, false)
      case Ok(id) =>
        match a.idSave
        case Saved => Poll(r.(testId := id), a, true)
        case SaveRaises(e) => Fail(r, e, a.failSave, true, true)
        case DiesFirst => Effect(r, Died, true, true)
  }

  /** The exception that the try block raises, if any: that of the start, of the save of the id, or of the poll. */
  function Raises(r: Report, a: Attempt): Option<Exc>
  {
    if r.testId == "" && a.start.Err? then Some(a.start.error)
    else if r.testId == "" && a.idSave.SaveRaises? then Some(a.idSave.exc)
    else if a.polled.PollRaises? then Some(a.polled.exc)
    else None
  }

  /** What one run leaves. The id is saved on its own, before polling. An exception leaves status Failed with
      that exception and the metrics as they were, and goes on to the caller; a completed run stores the
      fetched metrics and clears the error. A save that fails leaves what was there. */
  ghost predicate RunResult(r: Report, a: Attempt, e: Effect)
  {
    var unstarted := r.testId == "";
    var saved := unstarted && a.start.Ok? && a.idSave.Saved?;
    var row := if saved then r.(testId := a.start.value) else r;
    && (e.started <==> unstarted && a.start.Ok?)
    && (e.lost <==> unstarted && a.start.Ok? && !a.idSave.Saved?)
    && if unstarted && a.start.Ok? && a.idSave.DiesFirst? then e.report == row && e.outcome == Died
       else if Raises(r, a).Some? then
         match a.failSave
         case Saved =>
           && e.report == Report(row.testId, Failed, Raises(r, a), r.metrics) && e.outcome == Raised(Raises(r, a).value)
         case SaveRaises(x) => e.report == row && e.outcome == Raised(x)
         case DiesFirst => e.report == row && e.outcome == Died
       else
         match a.polled
         case DiesPolling => e.report == row && e.outcome == Died
         case PollRaises(_) => false
         case Fetched(m) =>
           match a.finalSave
           case Saved => e.report == Report(row.testId, Completed, None, Some(m)) && e.outcome == Returned
           case SaveRaises(x) => e.report == row && e.outcome == Raised(x)
           case DiesFirst => e.report == row && e.outcome == Died
  }

  lemma ProcessResult(r: Report, a: Attempt)
    ensures RunResult(r, a, Process(r, a))
  {
  }

  /** The row of one report; the in-memory object and its partial saves are in the method. */
  class Store {
    var row: Report

    constructor ()
      ensures row == NEW_REPORT
    {
      row := NEW_REPORT;
    }

    method SaveFailure(mine: Report, exc: Exc, save: Save) returns (outcome: Outcome)
      modifies this
      ensures save.Saved? ==> row == old(row).(status := mine.status, error := mine.error) && outcome == Raised(exc)
      ensures !save.Saved? ==> row == old(row) && outcome == if save.SaveRaises? then Raised(save.exc) else Died
    {
      match save {
        case Saved =>
          row := row.(status := mine.status, error := mine.error);
          outcome := Raised(exc);
        case SaveRaises(e) => outcome := Raised(e);
        case DiesFirst => outcome := Died;
      }
    }

    /** `process_gtmetrix`. */
    method Run(a: Attempt) returns (outcome: Outcome, ghost started: bool, ghost lost: bool)
      modifies this
      ensures Effect(row, outcome, started, lost) == Process(old(row), a)
      ensures old(row).testId != "" ==> row.testId == old(row).testId && !started
      ensures RunResult(old(row), a, Effect(row, outcome, started, lost))
    {
      ProcessResult(row, a);
      var mine := row;
      started, lost := false, false;
      var exc: Option<Exc> := None;
      if mine.testId == "" {
        if a.start.Err? {
          exc := Some(a.start.error);
        } else {
          started := true;
          mine := mine.(testId := a.start.value);
          match a.idSave {
            case Saved => row := row.(testId := mine.testId);
            case SaveRaises(e) =>
              exc := Some(e);
              lost := true;
            case DiesFirst =>
              lost := true;
              return Died, started, lost;
          }
        }
      }
      if exc.None? {
        match a.polled {
          case PollRaises(e) => exc := Some(e);
          case DiesPolling => return Died, started, lost;
          case Fetched(_) =>
        }
      }
      if exc.Some? {
        mine := mine.(status := Failed, error := exc);
        outcome := SaveFailure(mine, exc.value, a.failSave);
        return outcome, started, lost;
      }
      mine := mine.(metrics := Some(a.polled.metrics), status := Completed, error := None);
      match a.finalSave {
        case Saved =>
          row := mine;
          outcome := Returned;
        case SaveRaises(e) => outcome := Raised(e);
        case DiesFirst => outcome := Died;
      }
    }
  }

  // ------------------------------------------------------------------ any sequence of deliveries

  function After(r: Report, attempts: seq<Attempt>): Report
  {
    if attempts == [] then r else Process(After(r, attempts[..|attempts| - 1]), attempts[|attempts| - 1]).report
  }

  /** Successful starts, and ids lost between the start and the save. */
  function Starts(r: Report, attempts: seq<Attempt>): nat
  {
    if attempts == [] then 0
    else
      var before := attempts[..|attempts| - 1];
      Starts(r, before) + if Process(After(r, before), attempts[|attempts| - 1]).started then 1 else 0
  }

  function Losses(r: Report, attempts: seq<Attempt>): nat
  {
    if attempts == [] then 0
    else
      var before := attempts[..|attempts| - 1];
      Losses(r, before) + if Process(After(r, before), attempts[|attempts| - 1]).lost then 1 else 0
  }

  /** Starts are accounted for exactly: every start was lost before its save, but for the one whose id is
      in the row. So there is never more than one start beyond the losses. */
  lemma {:induction false} StartsAccounted(attempts: seq<Attempt>)
    ensures var r := After(NEW_REPORT, attempts);
            && Starts(NEW_REPORT, attempts) == Losses(NEW_REPORT, attempts) + (if r.testId != "" then 1 else 0)
            && (r.status == Completed ==> r.testId != "" && r.metrics.Some?)
  {
    if attempts != [] {
      StartsAccounted(attempts[..|attempts| - 1]);
    }
  }

  /** A persisted id never changes, and no test is started after it was persisted. */
  lemma {:induction false} TestIdIsWriteOnce(r: Report, attempts: seq<Attempt>, k: nat)
    requires k <= |attempts| && After(r, attempts[..k]).testId != ""
    ensures After(r, attempts).testId == After(r, attempts[..k]).testId
    ensures Starts(r, attempts) == Starts(r, attempts[..k])
  {
    if k == |attempts| {
      assert attempts[..k] == attempts;
    } else {
      assert attempts[..|attempts| - 1][..k] == attempts[..k];
      TestIdIsWriteOnce(r, attempts[..|attempts| - 1], k);
    }
  }

  predicate StartSucceeds(a: Attempt) { a.start.Ok? }

  /** A test would be started and its id saved. */
  predicate WouldSave(a: Attempt) { a.start.Ok? && a.idSave.Saved? }

  /** Position of the first attempt whose start and save both succeed, or the number of attempts. */
  function FirstSave(attempts: seq<Attempt>): (k: nat)
    ensures k <= |attempts|
    ensures k < |attempts| ==> WouldSave(attempts[k])
    ensures forall j :: 0 <= j < k ==> !WouldSave(attempts[j])
  {
    if attempts == [] then 0
    else
      var n := |attempts| - 1;
      var k := FirstSave(attempts[..n]);
      if k < n || WouldSave(attempts[n]) then k else n + 1
  }

  /** What the environment alone costs: the starts before the first one whose id is saved, and that one. */
  function Spent(attempts: seq<Attempt>): nat
  {
    var k := FirstSave(attempts);
    Count(attempts[..k], StartSucceeds) + if k < |attempts| then 1 else 0
  }

  /** The tests that are started are exactly those: none after the first saved id, whatever happens later. */
  lemma {:induction false} StartsAreSpent(attempts: seq<Attempt>)
    ensures Starts(NEW_REPORT, attempts) == Spent(attempts)
    ensures After(NEW_REPORT, attempts).testId != "" <==> FirstSave(attempts) < |attempts|
  {
    if attempts != [] {
      var n := |attempts| - 1;
      var k := FirstSave(attempts[..n]);
      StartsAreSpent(attempts[..n]);
      if k < n {
        assert attempts[..n][..k] == attempts[..k];
      } else {
        assert attempts[..n][..n] == attempts[..n] == attempts[..n + 1][..n];
        assert attempts[..n + 1] == attempts;
      }
    }
  }

  /** The promise that a submission never spends more than one test credit holds exactly when no test was
      started before the first one whose id is saved, or at most one if there is none such. */
  lemma OneCreditIff(attempts: seq<Attempt>)
    ensures Starts(NEW_REPORT, attempts) <= 1
            <==> var k := FirstSave(attempts);
                 Count(attempts[..k], StartSucceeds) <= if k < |attempts| then 0 else 1
  {
    StartsAreSpent(attempts);
  }

  /** A worker that dies between the start and the save makes the next delivery start a second test. */
  lemma SecondStartAfterDeath(id: TestId, m: Metrics)
    ensures var dies := Attempt(Ok(id), DiesFirst, Fetched(m), Saved, Saved);
            var runs := Attempt(Ok(id), Saved, Fetched(m), Saved, Saved);
            Starts(NEW_REPORT, [dies, runs]) == 2
  {
    var dies := Attempt(Ok(id), DiesFirst, Fetched(m), Saved, Saved);
    var runs := Attempt(Ok(id), Saved, Fetched(m), Saved, Saved);
    var both, one := [dies, runs], [dies];
    assert both[..1] == one && one[..0] == [];
    assert After(NEW_REPORT, one[..0]) == NEW_REPORT;
    assert After(NEW_REPORT, one) == NEW_REPORT && Starts(NEW_REPORT, one) == 1;
  }

  // ----------------------------------------------------------------------------- the retry policy

  const MAX_RETRIES := 3

  datatype Decision = Done | GiveUp | Crash | Retry(countdown: int) | Redeliver

  function Pow2(n: nat): nat { if n == 0 then 1 else 2 * Pow2(n - 1) }

  function Min(a: int, b: int): int { if a < b then a else b }

  predicate Retryable(e: Exc) { e == ApiError || e == TimeoutError || e == NetworkError }

  /** What the task does with the outcome of its attempt. An unlisted exception propagates; a dead worker
      leaves the message to be delivered again, with the same retry count. */
  function Decide(retries: nat, o: Outcome): Decision
  {
    match o
    case Returned => Done
    case Died => Redeliver
    case Raised(e) =>
      if e == ClientError then GiveUp
      else if Retryable(e) then if retries >= MAX_RETRIES then GiveUp else Retry(Min(5 * Pow2(retries), 60))
      else Crash
  }

  /** Which exceptions are retried, how often, and with which delay. */
  lemma DecideIs(retries: nat, e: Exc)
    ensures Decide(retries, Returned) == Done && Decide(retries, Died) == Redeliver
    ensures e == ClientError ==> Decide(retries, Raised(e)) == GiveUp
    ensures e == OtherError ==> Decide(retries, Raised(e)) == Crash
    ensures e in [ApiError, TimeoutError, NetworkError] ==>
              Decide(retries, Raised(e)) ==
              if retries == 0 then Retry(5) else if retries == 1 then Retry(10) else if retries == 2 then Retry(20) else GiveUp
  {
    assert Pow2(0) == 1 && Pow2(1) == 2 && Pow2(2) == 4;
  }

  /** The life of one task message: the attempts it used, the delays it asked for, how many workers died
      under it, and how it ended (`None` while the environment has not said enough). */
  datatype Life = Life(used: nat, delays: seq<int>, deaths: nat, last: Option<Decision>)

  function Live(retries: nat, outcomes: seq<Outcome>): Life
    decreases |outcomes|
  {
    if outcomes == [] then Life(0, [], 0, None)
    else
      match Decide(retries, outcomes[0])
      case Retry(c) =>
        var l := Live(retries + 1, outcomes[1..]);
        l.(used := l.used + 1, delays := [c] + l.delays)
      case Redeliver =>
        var l := Live(retries, outcomes[1..]);
        l.(used := l.used + 1, deaths := l.deaths + 1)
      case d => Life(1, [], 0, Some(d))
  }

  const DELAYS := [5, 10, 20]

  /** From retry count `retries` on: the delays are the rest of 5, 10, 20, the attempts are the retries,
      the redeliveries and the final one, and a client error is never followed by another attempt. */
  lemma {:induction false} LifeIsBounded(retries: nat, outcomes: seq<Outcome>)
    requires retries <= MAX_RETRIES
    ensures var l := Live(retries, outcomes);
            && l.delays <= DELAYS[retries..]
            && l.used <= |outcomes|
            && l.used == |l.delays| + l.deaths + (if l.last.Some? then 1 else 0)
            && l.used <= MAX_RETRIES + 1 - retries + l.deaths
            && (l.last.None? ==> l.used == |outcomes|)
            && (l.last.Some? ==> l.last.value in {Done, GiveUp, Crash})
            && (forall k :: 0 <= k < l.used && outcomes[k] == Raised(ClientError) ==>
                  k == l.used - 1 && l.last == Some(GiveUp))
    decreases |outcomes|
  {
    if outcomes != [] {
      assert Pow2(0) == 1 && Pow2(1) == 2 && Pow2(2) == 4;
      var rest := outcomes[1..];
      var l := Live(retries, outcomes);
      match Decide(retries, outcomes[0]) {
        case Retry(c) =>
          LifeIsBounded(retries + 1, rest);
          assert c == DELAYS[retries];
          assert DELAYS[retries..] == [c] + DELAYS[retries + 1..];
        case Redeliver =>
          LifeIsBounded(retries, rest);
        case _ =>
      }
      forall k | 0 <= k < l.used && outcomes[k] == Raised(ClientError)
        ensures k == l.used - 1 && l.last == Some(GiveUp)
      {
        if k > 0 {
          assert outcomes[k] == rest[k - 1];
        }
      }
    }
  }

  // ------------------------------------------------------------------------------------- polling

  datatype TestState = Finished | Errored | Running | RequestRaises(exc: Exc)

  function Ceil(x: real): int { -(-x).Floor }

  /** At most this many polls fit before the deadline when every round takes at least `d`. */
  function PollBound(budget: real, d: real): nat
    requires d > 0.0
  {
    (if Ceil(budget / d) > 0 then Ceil(budget / d) else 0) + 1
  }

  /** The hypothesis that a deadline needs: every round takes at least `d`. */
  ghost predicate Advances(clock: nat -> real, d: real)
  {
    clock(1) >= clock(0) && forall k: nat :: k > 0 ==> clock(k) + d <= clock(k + 1)
  }

  lemma {:induction false} Elapsed(clock: nat -> real, d: real, k: nat)
    requires Advances(clock, d)
    ensures clock(0) + k as real * d <= clock(k + 1)
  {
    if k > 0 {
      Elapsed(clock, d, k - 1);
      assert clock(k) + d <= clock(k + 1);
      Distribute(k, d);
    }
  }

  lemma Distribute(k: nat, d: real)
    requires k > 0
    ensures k as real * d == (k - 1) as real * d + d
  {
    assert k as real == (k - 1) as real + 1.0;
  }

  lemma RoundsFit(clock: nat -> real, budget: real, d: real, k: nat)
    requires d > 0.0 && Advances(clock, d) && clock(k + 1) < clock(0) + budget
    ensures k + 1 < PollBound(budget, d)
  {
    Elapsed(clock, d, k);
    Quotient(k as real, budget, d);
    BelowCeil(k, budget / d);
  }

  lemma Quotient(a: real, b: real, d: real)
    requires d > 0.0 && a * d < b
    ensures a < b / d
  {
    var q := b / d;
    assert q * d == b;
    if q <= a {
      Scale(q, a, d);
    }
  }

  lemma Scale(a: real, b: real, d: real)
    requires a <= b && d > 0.0
    ensures a * d <= b * d
  {
    assert (b - a) * d >= 0.0;
    assert b * d == a * d + (b - a) * d;
  }

  lemma BelowCeil(k: nat, q: real)
    requires k as real < q
    ensures k < Ceil(q)
  {
    var down := (-q).Floor;
    assert down as real <= -q;
    assert down as real < -(k as real);
    assert down + k < 0;
  }

  /** The bound is exact: `n` polls are within it if and only if `n - 2` rounds of length `d` end before the
      budget does. */
  lemma PollBoundIs(budget: real, d: real, n: nat)
    requires d > 0.0 && n >= 2
    ensures n <= PollBound(budget, d) <==> (n - 2) as real * d < budget
  {
    var q := budget / d;
    assert q * d == budget;
    if (n - 2) as real * d < budget {
      Quotient((n - 2) as real, budget, d);
      BelowCeil(n - 2, q);
    } else {
      Scale(0.0, 1.0, d);
      AtLeastQuotient((n - 2) as real, q, d);
      CeilAtMost(n - 2, q);
    }
  }

  lemma AtLeastQuotient(a: real, q: real, d: real)
    requires d > 0.0 && a * d >= q * d
    ensures a >= q
  {
    if a < q {
      ScaleStrict(a, q, d);
    }
  }

  lemma ScaleStrict(a: real, b: real, d: real)
    requires a < b && d > 0.0
    ensures a * d < b * d
  {
    assert (b - a) * d > 0.0;
    assert b * d == a * d + (b - a) * d;
  }

  lemma CeilAtMost(k: nat, q: real)
    requires k as real >= q
    ensures Ceil(q) <= k
  {
    var down := (-q).Floor;
    assert down as real > -q - 1.0;
    assert -(k as real) <= -q;
  }

  /** `poll_and_fetch`. `clock(0)` is read before the loop and `clock(k + 1)` in round `k`; `state(k)` is
      the answer of poll `k`. */
  method PollAndFetch(state: nat -> TestState, clock: nat -> real, budget: real, fetch: Result<Metrics, Exc>, ghost d: real)
    returns (r: Result<Metrics, Exc>, polls: nat, fetched: bool)
    requires d > 0.0 && Advances(clock, d)
    ensures 1 <= polls <= PollBound(budget, d)
    ensures forall k :: 0 <= k < polls - 1 ==> state(k) == Running
    ensures forall k :: 0 < k < polls ==> clock(k) < clock(0) + budget
    ensures fetched <==> state(polls - 1) == Finished
    ensures match state(polls - 1)
            case Finished => r == fetch
            case Errored => r == Err(ApiError)
            case RequestRaises(e) => r == Err(e)
            case Running => r == Err(TimeoutError) && clock(polls) >= clock(0) + budget
  {
    var deadline := clock(0) + budget;
    polls, fetched := 0, false;
    while true
      invariant polls < PollBound(budget, d) && !fetched
      invariant forall k :: 0 <= k < polls ==> state(k) == Running
      invariant forall k :: 0 < k <= polls ==> clock(k) < deadline
      decreases PollBound(budget, d) - polls
    {
      var s := state(polls);
      polls := polls + 1;
      if s == Finished {
        break;
      }
      if s == Errored {
        return Err(ApiError), polls, fetched;
      }
      if s.RequestRaises? {
        return Err(s.exc), polls, fetched;
      }
      if clock(polls) >= deadline {
        return Err(TimeoutError), polls, fetched;
      }
      RoundsFit(clock, budget, d, polls - 1);
    }
    fetched := true;
    r := fetch;
  }
}
