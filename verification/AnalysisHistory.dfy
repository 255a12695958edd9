/** The per-user history roll-up and the cache in front of it. */
module AnalysisHistory {
  import opened Prelude

  type UserId = nat

  datatype Row = Row(user: UserId, url: string, count: nat, last: int)

  type Cache = map<UserId, seq<Row>>

  datatype State = State(rows: seq<Row>, cache: Cache)

  const EMPTY := State([], map[])

  // ------------------------------------------------------------------------------- the listing

  /** Newest first; rows of equal age keep their table order. */
  function Insert(sorted: seq<Row>, r: Row): seq<Row>
  {
    if sorted == [] then [r]
    else if sorted[|sorted| - 1].last < r.last then Insert(sorted[..|sorted| - 1], r) + [sorted[|sorted| - 1]]
    else sorted + [r]
  }

  function SortNewest(rows: seq<Row>): seq<Row>
  {
    if rows == [] then [] else Insert(SortNewest(rows[..|rows| - 1]), rows[|rows| - 1])
  }

  function OwnedBy(user: UserId): Row -> bool { (r: Row) => r.user == user }

  /** The query: the user's rows, ordered by age. */
  function Listing(rows: seq<Row>, user: UserId): seq<Row>
  {
    SortNewest(Filter(rows, OwnedBy(user)))
  }

  ghost predicate NewestFirst(s: seq<Row>)
  {
    forall i, j :: 0 <= i < j < |s| ==> s[i].last >= s[j].last
  }

  lemma {:induction false} InsertMembers(sorted: seq<Row>, r: Row)
    ensures multiset(Insert(sorted, r)) == multiset(sorted) + multiset{r}
  {
    if sorted != [] && sorted[|sorted| - 1].last < r.last {
      var rest, last := sorted[..|sorted| - 1], sorted[|sorted| - 1];
      InsertMembers(rest, r);
      SplitLast(sorted);
      assert multiset(Insert(rest, r) + [last]) == multiset(Insert(rest, r)) + multiset{last};
    }
  }

  lemma {:induction false} InsertSorts(sorted: seq<Row>, r: Row)
    requires NewestFirst(sorted)
    ensures NewestFirst(Insert(sorted, r))
  {
    if sorted != [] && sorted[|sorted| - 1].last < r.last {
      var rest, last := sorted[..|sorted| - 1], sorted[|sorted| - 1];
      InsertSorts(rest, r);
      InsertMembers(rest, r);
      var inner := Insert(rest, r);
      forall i | 0 <= i < |inner| ensures inner[i].last >= last.last {
        assert inner[i] in multiset(inner);
        assert inner[i] in rest || inner[i] == r;
      }
    }
  }

  lemma {:induction false} SortNewestMembers(rows: seq<Row>)
    ensures multiset(SortNewest(rows)) == multiset(rows)
  {
    if rows != [] {
      var rest, last := rows[..|rows| - 1], rows[|rows| - 1];
      SortNewestMembers(rest);
      InsertMembers(SortNewest(rest), last);
      SplitLast(rows);
    }
  }

  lemma {:induction false} SortNewestOrders(rows: seq<Row>)
    ensures NewestFirst(SortNewest(rows))
  {
    if rows != [] {
      SortNewestOrders(rows[..|rows| - 1]);
      InsertSorts(SortNewest(rows[..|rows| - 1]), rows[|rows| - 1]);
    }
  }

  /** The listing is the user's rows, all of them and each once, newest first. */
  lemma ListingIsComplete(rows: seq<Row>, user: UserId)
    ensures NewestFirst(Listing(rows, user))
    ensures forall r :: multiset(Listing(rows, user))[r] == if r.user == user then multiset(rows)[r] else 0
  {
    forall r ensures multiset(Filter(rows, OwnedBy(user)))[r] == if r.user == user then multiset(rows)[r] else 0 {
      FilterOccurrences(rows, OwnedBy(user), r);
    }
    SortNewestMembers(Filter(rows, OwnedBy(user)));
    SortNewestOrders(Filter(rows, OwnedBy(user)));
  }

  // -------------------------------------------------------------------------------- the calls

  /** Position of the row of (user, url), or the table length. */
  function Find(rows: seq<Row>, user: UserId, url: string): (k: nat)
    ensures k <= |rows|
    ensures k < |rows| ==> rows[k].user == user && rows[k].url == url
    ensures k == |rows| ==> forall i :: 0 <= i < |rows| ==> rows[i].user != user || rows[i].url != url
  {
    if rows == [] then 0
    else
      var k := Find(rows[..|rows| - 1], user, url);
      if k < |rows| - 1 then k
      else if rows[|rows| - 1].user == user && rows[|rows| - 1].url == url then |rows| - 1
      else |rows|
  }

  function Upserted(rows: seq<Row>, user: UserId, url: string, now: int): seq<Row>
  {
    var k := Find(rows, user, url);
    if k == |rows| then rows + [Row(user, url, 1, now)]
    else rows[k := rows[k].(count := rows[k].count + 1, last := now)]
  }

  /** One call of a service or selector, or the expiry of a cache entry. */
  datatype Op =
    | Process(account: Option<UserId>, url: string, fetched: bool, now: int)
    | Read(user: UserId)
    | Expire(user: UserId)

  function Step(s: State, op: Op): State
  {
    match op
    case Process(user, url, fetched, now) =>
      if fetched && user.Some? then State(Upserted(s.rows, user.value, url, now), s.cache - {user.value}) else s
    case Read(user) => if user in s.cache then s else s.(cache := s.cache[user := Listing(s.rows, user)])
    case Expire(user) => s.(cache := s.cache - {user})
  }

  function Run(ops: seq<Op>): State
  {
    if ops == [] then EMPTY else Step(Run(ops[..|ops| - 1]), ops[|ops| - 1])
  }

  /** The row of a key, and its count. */
  function RowFor(rows: seq<Row>, user: UserId, url: string): Option<Row>
  {
    var k := Find(rows, user, url);
    if k < |rows| then Some(rows[k]) else None
  }

  function CountOf(r: Option<Row>): int { if r.Some? then r.value.count else 0 }

  class History {
    var rows: seq<Row>
    var cache: Cache

    function Contents(): State
      reads this
    {
      State(rows, cache)
    }

    constructor ()
      ensures Contents() == EMPTY
    {
      rows, cache := [], map[];
    }

    method InvalidateHistoryCache(user: UserId)
      modifies this
      ensures rows == old(rows) && cache == old(cache) - {user}
    {
      cache := cache - {user};
    }

    /** `_upsert_history`: get or create, then increment in place. */
    method UpsertHistory(user: UserId, url: string, now: int)
      modifies this
      ensures Contents() == State(Upserted(old(rows), user, url, now), old(cache) - {user})
      ensures old(UniqueKeys(rows)) ==>
                && UniqueKeys(rows)
                && RowFor(rows, user, url) == Some(Row(user, url, CountOf(RowFor(old(rows), user, url)) + 1, now))
                && forall u, w :: u != user || w != url ==> RowFor(rows, u, w) == RowFor(old(rows), u, w)
    {
      if UniqueKeys(rows) {
        UpsertKeepsKeys(rows, user, url, now);
        UpsertMoves(rows, user, url, now, user, url);
        forall u, w | u != user || w != url ensures RowFor(Upserted(rows, user, url, now), u, w) == RowFor(rows, u, w) {
          UpsertMoves(rows, user, url, now, u, w);
        }
      }
      var k := Find(rows, user, url);
      if k == |rows| {
        rows := rows + [Row(user, url, 1, now)];
      } else {
        rows := rows[k := rows[k].(count := rows[k].count + 1, last := now)];
      }
      InvalidateHistoryCache(user);
    }

    /** `process_analysis`, as far as the history is concerned. */
    method ProcessAnalysis(user: Option<UserId>, url: string, fetched: bool, now: int)
      modifies this
      ensures Contents() == Step(old(Contents()), Process(user, url, fetched, now))
    {
      if !fetched {
        return;
      }
      if user.Some? {
        UpsertHistory(user.value, url, now);
      }
    }

    /** `get_analysis_history`. With a coherent cache the answer is the current listing. */
    method GetAnalysisHistory(user: UserId) returns (history: seq<Row>)
      modifies this
      ensures Contents() == Step(old(Contents()), Read(user))
      ensures history == cache[user]
      ensures Coherent(old(Contents())) ==> history == Listing(rows, user)
    {
      if user in cache {
        return cache[user];
      }
      history := Listing(rows, user);
      cache := cache[user := history];
    }
  }

  // ------------------------------------------------------------------------------- every run

  /** A cached listing is the current one. */
  ghost predicate Coherent(s: State)
  {
    forall u :: u in s.cache ==> s.cache[u] == Listing(s.rows, u)
  }

  ghost predicate UniqueKeys(rows: seq<Row>)
  {
    forall i, j :: 0 <= i < j < |rows| ==> rows[i].user != rows[j].user || rows[i].url != rows[j].url
  }

  predicate Reached(op: Op, user: UserId, url: string)
  {
    op.Process? && op.fetched && op.account == Some(user) && op.url == url
  }

  /** How many runs reached the upsert for (user, url), and when the last one did. */
  function Upserts(ops: seq<Op>, user: UserId, url: string): nat
  {
    Count(ops, op => Reached(op, user, url))
  }

  function LastUpsert(ops: seq<Op>, user: UserId, url: string): Option<int>
  {
    if ops == [] then None
    else if Reached(ops[|ops| - 1], user, url) then Some(ops[|ops| - 1].now)
    else LastUpsert(ops[..|ops| - 1], user, url)
  }

  lemma {:induction false} FilterUpdate(rows: seq<Row>, k: nat, r: Row, p: Row -> bool)
    requires k < |rows| && !p(rows[k]) && !p(r)
    ensures Filter(rows[k := r], p) == Filter(rows, p)
  {
    var n := |rows| - 1;
    if k < n {
      assert rows[k := r][..n] == rows[..n][k := r];
      FilterUpdate(rows[..n], k, r, p);
    } else {
      assert rows[k := r][..n] == rows[..n];
    }
  }

  /** An upsert changes nobody else's listing. */
  lemma OthersUnaffected(rows: seq<Row>, user: UserId, url: string, now: int, other: UserId)
    requires other != user
    ensures Listing(Upserted(rows, user, url, now), other) == Listing(rows, other)
  {
    var k := Find(rows, user, url);
    if k == |rows| {
      var r := Row(user, url, 1, now);
      assert (rows + [r])[..|rows|] == rows && !OwnedBy(other)(r);
      assert Filter(rows + [r], OwnedBy(other)) == Filter(rows, OwnedBy(other));
    } else {
      FilterUpdate(rows, k, rows[k].(count := rows[k].count + 1, last := now), OwnedBy(other));
    }
  }

  /** In every run: reads always give the current listing, although they may come from the cache and
      entries may expire at any time. */
  lemma {:induction false} CacheIsCoherent(ops: seq<Op>)
    ensures Coherent(Run(ops))
  {
    if ops != [] {
      var s, op := Run(ops[..|ops| - 1]), ops[|ops| - 1];
      CacheIsCoherent(ops[..|ops| - 1]);
      if op.Process? && op.fetched && op.account.Some? {
        forall u | u in Run(ops).cache ensures Run(ops).cache[u] == Listing(Run(ops).rows, u) {
          OthersUnaffected(s.rows, op.account.value, op.url, op.now, u);
        }
      }
    }
  }

  lemma UpsertKeepsKeys(rows: seq<Row>, user: UserId, url: string, now: int)
    requires UniqueKeys(rows)
    ensures UniqueKeys(Upserted(rows, user, url, now))
  {
  }

  /** The table holds the row of a key upserted `n` times, the last time at `last`; none when `n` is 0. */
  ghost predicate Tells(rows: seq<Row>, user: UserId, url: string, n: nat, last: Option<int>)
  {
    var k := Find(rows, user, url);
    (k == |rows| <==> n == 0) && (k < |rows| ==> rows[k].count == n && Some(rows[k].last) == last)
  }

  lemma StepTells(s: State, op: Op, user: UserId, url: string, n: nat, last: Option<int>)
    requires UniqueKeys(s.rows) && Tells(s.rows, user, url, n, last)
    ensures UniqueKeys(Step(s, op).rows)
    ensures if Reached(op, user, url) then Tells(Step(s, op).rows, user, url, n + 1, Some(op.now))
            else Tells(Step(s, op).rows, user, url, n, last)
  {
    if op.Process? && op.fetched && op.account.Some? {
      UpsertKeepsKeys(s.rows, op.account.value, op.url, op.now);
      UpsertMoves(s.rows, op.account.value, op.url, op.now, user, url);
    }
  }

  /** In every run there is one row per (user, url) that was ever upserted, its count is the number of
      runs that reached the upsert, and its timestamp is that of the last of them. */
  lemma {:induction false} OneRowPerUrl(ops: seq<Op>, user: UserId, url: string)
    ensures UniqueKeys(Run(ops).rows)
    ensures Tells(Run(ops).rows, user, url, Upserts(ops, user, url), LastUpsert(ops, user, url))
  {
    if ops != [] {
      var before, op := ops[..|ops| - 1], ops[|ops| - 1];
      OneRowPerUrl(before, user, url);
      StepTells(Run(before), op, user, url, Upserts(before, user, url), LastUpsert(before, user, url));
    }
  }

  /** What an upsert does to the row found for a key. */
  lemma UpsertMoves(rows: seq<Row>, u: UserId, w: string, now: int, user: UserId, url: string)
    requires UniqueKeys(rows)
    ensures var k, next := Find(rows, user, url), Upserted(rows, u, w, now);
            var k' := Find(next, user, url);
            if u == user && w == url then
              k' < |next| && next[k'] == Row(user, url, (if k < |rows| then rows[k].count else 0) + 1, now)
            else
              (k == |rows| <==> k' == |next|) && (k < |rows| ==> next[k'] == rows[k])
  {
    var k, next := Find(rows, user, url), Upserted(rows, u, w, now);
    UpsertKeepsKeys(rows, u, w, now);
    if u == user && w == url {
      assert next[k].user == user && next[k].url == url;
      FoundOnce(next, user, url, k);
    } else if k < |rows| {
      assert next[k] == rows[k];
      FoundOnce(next, user, url, k);
    } else {
      UpsertsNoOther(rows, u, w, now, user, url);
    }
  }

  lemma UpsertsNoOther(rows: seq<Row>, u: UserId, w: string, now: int, user: UserId, url: string)
    requires Find(rows, user, url) == |rows| && (u != user || w != url)
    ensures Find(Upserted(rows, u, w, now), user, url) == |Upserted(rows, u, w, now)|
  {
    var next := Upserted(rows, u, w, now);
    forall j | 0 <= j < |next| ensures next[j].user != user || next[j].url != url {
      if j < |rows| {
        assert next[j].user == rows[j].user && next[j].url == rows[j].url;
      }
    }
  }

  lemma FoundOnce(rows: seq<Row>, user: UserId, url: string, k: nat)
    requires UniqueKeys(rows) && k < |rows| && rows[k].user == user && rows[k].url == url
    ensures Find(rows, user, url) == k
  {
    var j := Find(rows, user, url);
    assert rows[j].user == rows[k].user && rows[j].url == rows[k].url;
  }
}
