/** `summarize` as the source runs it: a loop over the events that updates
    two totals, a dictionary and a list in place, then the sorts and the cut. */
module Summarizer {
  import opened StringOrder
  import opened Sorting
  import opened Ledger
  import opened SummaryView

  /** `sorted(pending_transactions.items(), key=..., reverse=True)` turned
      into rows: collect one row per entry, then sort. */
  method PendingRows(m: map<string, PendingEntry>) returns (rows: seq<PendingRow>)
    ensures IsPendingView(m, rows)
  {
    var items: seq<PendingRow> := [];
    var rest := m.Keys;
    while rest != {}
      invariant ListsAllExcept(m, items, rest)
      decreases rest
    {
      var k :| k in rest;
      ListOneMore(m, items, rest, k);
      items := items + [RowOf(m, k)];
      rest := rest - {k};
    }
    rows := SortDescending(items, PendingKey);
    SortedItemsArePendingView(m, items);
  }

  /** `items` holds one row for each entry of `m` whose id is not in `rest`,
      and nothing else. */
  ghost predicate ListsAllExcept(m: map<string, PendingEntry>, items: seq<PendingRow>, rest: set<string>)
  {
    && rest <= m.Keys
    && (forall i :: 0 <= i < |items| ==>
          items[i].id in m && items[i] == RowOf(m, items[i].id) && items[i].id !in rest)
    && (forall k :: k in m && k !in rest ==> exists i :: 0 <= i < |items| && items[i].id == k)
    && (forall x :: multiset(items)[x] <= 1)
  }

  lemma ListOneMore(m: map<string, PendingEntry>, items: seq<PendingRow>, rest: set<string>, k: string)
    requires ListsAllExcept(m, items, rest) && k in rest
    ensures ListsAllExcept(m, items + [RowOf(m, k)], rest - {k})
  {
    var row := RowOf(m, k);
    var items', rest' := items + [row], rest - {k};
    assert row !in items;
    forall k' | k' in m && k' !in rest' ensures exists i :: 0 <= i < |items'| && items'[i].id == k' {
      if k' == k {
        assert items'[|items|].id == k';
      } else {
        var i :| 0 <= i < |items| && items[i].id == k';
        assert items'[i].id == k';
      }
    }
  }

  /** Sorting a duplicate-free listing of the entries of `m` yields the
      pending view of `m`. */
  lemma SortedItemsArePendingView(m: map<string, PendingEntry>, items: seq<PendingRow>)
    requires forall i :: 0 <= i < |items| ==> items[i].id in m && items[i] == RowOf(m, items[i].id)
    requires forall k :: k in m ==> exists i :: 0 <= i < |items| && items[i].id == k
    requires forall x :: multiset(items)[x] <= 1
    ensures IsPendingView(m, SortDescending(items, PendingKey))
  {
    var rows := SortDescending(items, PendingKey);
    assert multiset(rows) == multiset(items);
    forall i | 0 <= i < |rows| ensures rows[i].id in m && rows[i] == RowOf(m, rows[i].id) {
      assert multiset(rows)[rows[i]] > 0;
      assert rows[i] in items;
    }
    forall i, j | 0 <= i < j < |rows| ensures KeyLess(PendingKey(rows[j]), PendingKey(rows[i])) {
      KeyTrichotomy(PendingKey(rows[j]), PendingKey(rows[i]));
      if PendingKey(rows[j]) == PendingKey(rows[i]) {
        RepeatCounted(rows, i, j);
        assert false;
      }
    }
    forall k | k in m ensures exists i :: 0 <= i < |rows| && rows[i].id == k {
      var i :| 0 <= i < |items| && items[i].id == k;
      assert multiset(items)[items[i]] > 0;
      assert items[i] in rows;
    }
  }

  /** An element found at two positions occurs at least twice. */
  lemma RepeatCounted<T>(s: seq<T>, i: nat, j: nat)
    requires i < j < |s| && s[i] == s[j]
    ensures multiset(s)[s[i]] >= 2
  {
    assert s == s[..j] + [s[j]] + s[j + 1..];
    assert s[i] in s[..j];
  }

  /** `summarize(input_json)` on the decoded activity record. */
  method Summarize(activity: CardActivity) returns (summary: CardSummary)
    ensures IsSummaryOf(activity, summary)
  {
    var events := activity.events;
    var available := activity.creditLimit;
    var payable: Money := 0.0;
    var pending: map<string, PendingEntry> := map[];
    var settled: seq<SettledRecord> := [];
    for n := 0 to |events|
      invariant State(available, payable, pending, settled) == Replay(activity.creditLimit, events[..n])
    {
      ghost var before := State(available, payable, pending, settled);
      var event := events[n];
      var amount := AmountOf(event);
      if event.eventType == TxnAuthed {
        available := available - amount;
        pending := pending[event.txnId := PendingEntry(amount, event.eventTime)];
        AuthorisationEffect(before, event);
      } else if event.eventType == TxnSettled {
        var initialTime;
        if event.txnId in pending {
          available := available + pending[event.txnId].amount;
          available := available - amount;
          initialTime := pending[event.txnId].time;
          pending := pending - {event.txnId};
        } else {
          initialTime := event.eventTime;
        }
        payable := payable + amount;
        settled := settled + [SettledRecord(event.txnId, amount, initialTime, event.eventTime)];
        SettlementEffect(before, event);
      } else if event.eventType == PaymentInitiated {
        pending := pending[event.txnId := PendingEntry(amount, event.eventTime)];
        PaymentInitiatedEffect(before, event);
      } else if event.eventType == PaymentPosted {
        if event.txnId in pending {
          var paymentAmount := pending[event.txnId].amount;
          var initialTime := pending[event.txnId].time;
          pending := pending - {event.txnId};
          available := available + Abs(paymentAmount);
          payable := payable - Abs(paymentAmount);
          settled := settled + [SettledRecord(event.txnId, -Abs(paymentAmount), initialTime, event.eventTime)];
          PaymentPostedEffect(before, event);
        } else {
          IgnoredEventEffect(before, event);
        }
      } else {
        IgnoredEventEffect(before, event);
      }
      assert State(available, payable, pending, settled) == Step(before, event);
      assert events[..n + 1] == events[..n] + [event];
      ReplaySnoc(activity.creditLimit, events[..n], event);
    }
    assert events[..|events|] == events;
    var pendingRows := PendingRows(pending);
    summary := CardSummary(available, payable, pendingRows, SettledView(settled));
  }
}
