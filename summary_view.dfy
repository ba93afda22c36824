/** The summary that `summarize` builds once the fold is done: both totals,
    the pending entries sorted by `(time, id)` descending, and the three
    settled records greatest by `(end_time, id)`. */
module SummaryView {
  import opened StringOrder
  import opened Sorting
  import opened Ledger

  /** The decoded `card_activity` record that `summarize` reads. */
  datatype CardActivity = CardActivity(creditLimit: Money, events: seq<Event>)

  /** An element of `pendingTransactions` in the summary. */
  datatype PendingRow = PendingRow(id: string, amount: Money, time: string)

  /** The summary dictionary. Its settled elements carry the same four values
      as the internal records (`end_time` is shown as `finalTime`). */
  datatype CardSummary = CardSummary(
    availableCredit: Money,
    payableBalance: Money,
    pendingTransactions: seq<PendingRow>,
    settledTransactions: seq<SettledRecord>)

  /** How many settled records the summary shows. */
  const SettledShown: nat := 3

  function PendingKey(r: PendingRow): SortKey
  {
    SortKey(r.time, r.id)
  }

  function SettledKey(r: SettledRecord): SortKey
  {
    SortKey(r.endTime, r.id)
  }

  /** The row shown for the pending entry under `id`. */
  function RowOf(m: map<string, PendingEntry>, id: string): PendingRow
    requires id in m
  {
    PendingRow(id, m[id].amount, m[id].time)
  }

  /** `rows` lists the entries of `m`, every entry, in strictly decreasing
      `(time, id)` order: what sorting `m.items()` in reverse yields, the
      keys being distinct because the ids are. */
  ghost predicate IsPendingView(m: map<string, PendingEntry>, rows: seq<PendingRow>)
  {
    && (forall i :: 0 <= i < |rows| ==> rows[i].id in m && rows[i] == RowOf(m, rows[i].id))
    && (forall k :: k in m ==> exists i :: 0 <= i < |rows| && rows[i].id == k)
    && (forall i, j :: 0 <= i < j < |rows| ==> KeyLess(PendingKey(rows[j]), PendingKey(rows[i])))
  }

  /** A pending view has exactly one row per pending id. */
  lemma PendingViewOnePerId(m: map<string, PendingEntry>, rows: seq<PendingRow>)
    requires IsPendingView(m, rows)
    ensures forall i, j :: 0 <= i < j < |rows| ==> rows[i].id != rows[j].id
    ensures |rows| == |m|
  {
    forall i, j | 0 <= i < j < |rows| ensures rows[i].id != rows[j].id {
      KeyTrichotomy(PendingKey(rows[j]), PendingKey(rows[i]));
    }
    var ids := set i | 0 <= i < |rows| :: rows[i].id;
    assert ids == m.Keys;
    DistinctIdsCount(rows);
  }

  lemma {:induction false} DistinctIdsCount(rows: seq<PendingRow>)
    requires forall i, j :: 0 <= i < j < |rows| ==> rows[i].id != rows[j].id
    ensures |set i | 0 <= i < |rows| :: rows[i].id| == |rows|
  {
    if rows != [] {
      var n := |rows| - 1;
      DistinctIdsCount(rows[..n]);
      var front := set i | 0 <= i < n :: rows[..n][i].id;
      assert (set i | 0 <= i < |rows| :: rows[i].id) == front + {rows[n].id};
      assert rows[n].id !in front;
    }
  }

  /** The pending view of a map is unique: the summary's pending list is
      fully determined by the pending entries. */
  lemma {:induction false} PendingViewUnique(m: map<string, PendingEntry>, a: seq<PendingRow>, b: seq<PendingRow>)
    requires IsPendingView(m, a) && IsPendingView(m, b)
    ensures a == b
    decreases |a|
  {
    if a == [] || b == [] {
      PendingViewOnePerId(m, a);
      PendingViewOnePerId(m, b);
    } else {
      SameFirstRow(m, a, b);
      TailIsPendingView(m, a);
      TailIsPendingView(m, b);
      PendingViewUnique(m - {a[0].id}, a[1..], b[1..]);
      assert a == [a[0]] + a[1..] && b == [b[0]] + b[1..];
    }
  }

  /** Two pending views of one map start with the same row, the greatest. */
  lemma SameFirstRow(m: map<string, PendingEntry>, a: seq<PendingRow>, b: seq<PendingRow>)
    requires IsPendingView(m, a) && IsPendingView(m, b) && a != [] && b != []
    ensures a[0] == b[0]
  {
    var j :| 0 <= j < |b| && b[j].id == a[0].id;
    var i :| 0 <= i < |a| && a[i].id == b[0].id;
    assert b[j] == a[0] && a[i] == b[0];
    var ka, kb := PendingKey(a[0]), PendingKey(b[0]);
    KeyTrichotomy(ka, kb);
    KeyLessIrreflexive(ka);
    if j > 0 {
      // b puts a[0] after b[0], so a[0] must also come after b[0] in a
      assert false;
    }
  }

  /** Dropping the first row of a pending view gives the view of the map
      without that row's id. */
  lemma TailIsPendingView(m: map<string, PendingEntry>, rows: seq<PendingRow>)
    requires IsPendingView(m, rows) && rows != []
    ensures IsPendingView(m - {rows[0].id}, rows[1..])
  {
    PendingViewOnePerId(m, rows);
    var rest := m - {rows[0].id};
    forall k | k in rest ensures exists i :: 0 <= i < |rows[1..]| && rows[1..][i].id == k {
      var i :| 0 <= i < |rows| && rows[i].id == k;
      assert rows[1..][i - 1].id == k;
    }
  }

  /** The settled part of the summary: the records sorted by `(end_time, id)`
      descending (stably) and cut to the first three. */
  function SettledView(settled: seq<SettledRecord>): (r: seq<SettledRecord>)
    ensures |r| == if |settled| < SettledShown then |settled| else SettledShown
    ensures NonIncreasing(r, SettledKey)
    ensures multiset(r) <= multiset(settled)
  {
    var sorted := SortDescending(settled, SettledKey);
    var n := if |settled| < SettledShown then |settled| else SettledShown;
    assert sorted == sorted[..n] + sorted[n..];
    sorted[..n]
  }

  /** The settled view keeps the greatest records: each record left out is
      at most each record shown, and records with equal keys are shown in
      the order they were settled. */
  lemma SettledViewKeepsGreatest(settled: seq<SettledRecord>)
    ensures forall x, y :: multiset(SettledView(settled))[x] < multiset(settled)[x] && y in SettledView(settled)
              ==> KeyAtMost(SettledKey(x), SettledKey(y))
    ensures forall k :: WithKey(SettledView(settled), SettledKey, k) <= WithKey(settled, SettledKey, k)
  {
    var n := if |settled| < SettledShown then |settled| else SettledShown;
    assert SettledView(settled) == SortDescending(settled, SettledKey)[..n];
    DroppedAtMostShown(settled, n);
    forall k ensures WithKey(SettledView(settled), SettledKey, k) <= WithKey(settled, SettledKey, k) {
      ShownInSettlementOrder(settled, n, k);
    }
  }

  /** The records cut off the sorted list are at most the ones kept. */
  lemma DroppedAtMostShown(settled: seq<SettledRecord>, n: nat)
    requires n <= |settled|
    ensures var r := SortDescending(settled, SettledKey)[..n];
      forall x, y ::
           multiset(r)[x] < multiset(settled)[x] && y in r ==> KeyAtMost(SettledKey(x), SettledKey(y))
  {
    var sorted := SortDescending(settled, SettledKey);
    var r, dropped := sorted[..n], sorted[n..];
    assert sorted == r + dropped;
    assert multiset(sorted) == multiset(r) + multiset(dropped);
    TopOfSortedIsGreatest(sorted, n);
    forall x, y | multiset(r)[x] < multiset(settled)[x] && y in r
      ensures KeyAtMost(SettledKey(x), SettledKey(y))
    {
      assert x in multiset(dropped);
    }
  }

  /** Cutting the sorted list keeps, for each key, a prefix of the records
      with that key in settlement order. */
  lemma ShownInSettlementOrder(settled: seq<SettledRecord>, n: nat, k: SortKey)
    requires n <= |settled|
    ensures WithKey(SortDescending(settled, SettledKey)[..n], SettledKey, k) <= WithKey(settled, SettledKey, k)
  {
    var sorted := SortDescending(settled, SettledKey);
    assert sorted == sorted[..n] + sorted[n..];
    WithKeyAppend(sorted[..n], sorted[n..], SettledKey, k);
    SortDescendingStable(settled, SettledKey, k);
  }

  lemma TopOfSortedIsGreatest(sorted: seq<SettledRecord>, n: nat)
    requires NonIncreasing(sorted, SettledKey) && n <= |sorted|
    ensures forall x, y ::
              x in sorted[n..] && y in sorted[..n] ==> KeyAtMost(SettledKey(x), SettledKey(y))
  {
    forall x, y | x in sorted[n..] && y in sorted[..n]
      ensures KeyAtMost(SettledKey(x), SettledKey(y))
    {
      var j :| 0 <= j < |sorted[n..]| && sorted[n..][j] == x;
      var i :| 0 <= i < n && sorted[..n][i] == y;
      assert sorted[n + j] == x && sorted[i] == y;
    }
  }

  /** `out` is the summary of `activity`: what `summarize` returns. */
  ghost predicate IsSummaryOf(activity: CardActivity, out: CardSummary)
  {
    var s := Replay(activity.creditLimit, activity.events);
    && out.availableCredit == s.available
    && out.payableBalance == s.payable
    && IsPendingView(s.pending, out.pendingTransactions)
    && out.settledTransactions == SettledView(s.settled)
  }

  /** The summary is a function of the activity record. */
  lemma SummaryUnique(activity: CardActivity, x: CardSummary, y: CardSummary)
    requires IsSummaryOf(activity, x) && IsSummaryOf(activity, y)
    ensures x == y
  {
    var s := Replay(activity.creditLimit, activity.events);
    PendingViewUnique(s.pending, x.pendingTransactions, y.pendingTransactions);
  }

  /** An empty event list summarises to the full credit limit, nothing
      payable and two empty lists. */
  lemma EmptyLogSummary(creditLimit: Money, out: CardSummary)
    ensures IsSummaryOf(CardActivity(creditLimit, []), out)
        <==> out == CardSummary(creditLimit, 0.0, [], [])
  {
    if IsSummaryOf(CardActivity(creditLimit, []), out) {
      PendingViewOnePerId(map[], out.pendingTransactions);
    }
  }
}
