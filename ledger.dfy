/** The event fold at the heart of `summarize` in main.py: the state it keeps
    while walking the event list, the effect of one event on that state, and
    the replay of a whole list from the initial state. */
module Ledger {

  /** Monetary amounts; the source uses Python floats. */
  type Money = real

  /** `INITIAL_CREDIT_LIMIT`. */
  const InitialCreditLimit: Money := 1000.0

  const TxnAuthed: string := "TXN_AUTHED"
  const TxnSettled: string := "TXN_SETTLED"
  const PaymentInitiated: string := "PAYMENT_INITIATED"
  const PaymentPosted: string := "PAYMENT_POSTED"

  datatype Option<T> = None | Some(value: T)

  /** One decoded event record. `amount == None` is an amount that was not
      given: a record without an `amount` key, which `summarize` reads as 0,
      or a stored `null` on an event whose amount `summarize` never reads. */
  datatype Event = Event(eventType: string, eventTime: string, txnId: string, amount: Option<Money>)

  /** `event.get('amount', 0)`. */
  function AmountOf(e: Event): Money
  {
    match e.amount
    case Some(v) => v
    case None => 0.0
  }

  /** Python's `abs`. */
  function Abs(x: Money): (r: Money)
    ensures 0.0 <= r && (r == x || r == -x)
  {
    if x < 0.0 then -x else x
  }

  /** A value of `pending_transactions`. */
  datatype PendingEntry = PendingEntry(amount: Money, time: string)

  /** An element of `settled_transactions`. */
  datatype SettledRecord = SettledRecord(id: string, amount: Money, initialTime: string, endTime: string)

  /** The four variables the loop of `summarize` updates. */
  datatype State = State(
    available: Money,
    payable: Money,
    pending: map<string, PendingEntry>,
    settled: seq<SettledRecord>)

  predicate IsRecognised(eventType: string)
  {
    eventType == TxnAuthed || eventType == TxnSettled
    || eventType == PaymentInitiated || eventType == PaymentPosted
  }

  /** The state before the first event. */
  function Initial(creditLimit: Money): State
  {
    State(creditLimit, 0.0, map[], [])
  }

  /** The record a `TXN_SETTLED` event appends: its start time is that of the
      pending entry it closes, or its own time when there is none. */
  function SettledBy(s: State, e: Event): SettledRecord
  {
    SettledRecord(
      e.txnId, AmountOf(e),
      if e.txnId in s.pending then s.pending[e.txnId].time else e.eventTime,
      e.eventTime)
  }

  /** The record a `PAYMENT_POSTED` event for a pending id appends. */
  function PostedBy(s: State, e: Event): SettledRecord
    requires e.txnId in s.pending
  {
    SettledRecord(e.txnId, -Abs(s.pending[e.txnId].amount), s.pending[e.txnId].time, e.eventTime)
  }

  /** One iteration of the `for event in events` loop. */
  function Step(s: State, e: Event): State
  {
    var amount := AmountOf(e);
    if e.eventType == TxnAuthed then
      s.(available := s.available - amount,
         pending := s.pending[e.txnId := PendingEntry(amount, e.eventTime)])
    else if e.eventType == TxnSettled then
      var available :=
        if e.txnId in s.pending then s.available + s.pending[e.txnId].amount - amount
        else s.available;
      State(available, s.payable + amount, s.pending - {e.txnId}, s.settled + [SettledBy(s, e)])
    else if e.eventType == PaymentInitiated then
      s.(pending := s.pending[e.txnId := PendingEntry(amount, e.eventTime)])
    else if e.eventType == PaymentPosted && e.txnId in s.pending then
      var paid := Abs(s.pending[e.txnId].amount);
      State(s.available + paid, s.payable - paid, s.pending - {e.txnId}, s.settled + [PostedBy(s, e)])
    else
      s
  }

  /** The state after the whole event list, folded left to right. */
  function Replay(creditLimit: Money, events: seq<Event>): (r: State)
    ensures |r.settled| <= |events|
  {
    if events == [] then Initial(creditLimit)
    else
      var n := |events| - 1;
      var before := Replay(creditLimit, events[..n]);
      StepFrame(before, events[n]);
      Step(before, events[n])
  }

  /** Every pending entry after a replay is keyed by the id of some event. */
  lemma {:induction false} PendingIdsFromEvents(creditLimit: Money, events: seq<Event>, k: string)
    requires k in Replay(creditLimit, events).pending
    ensures exists i :: 0 <= i < |events| && events[i].txnId == k
  {
    var n := |events| - 1;
    var before := Replay(creditLimit, events[..n]);
    StepFrame(before, events[n]);
    if k != events[n].txnId {
      PendingIdsFromEvents(creditLimit, events[..n], k);
      var i :| 0 <= i < n && events[..n][i].txnId == k;
      assert events[i].txnId == k;
    }
  }

  // ----- Properties of single steps -----

  /** Only the pending entry of the event's own id can change, and the
      settled list only grows, by at most one record. */
  lemma StepFrame(s: State, e: Event)
    ensures forall k :: k != e.txnId ==> (k in Step(s, e).pending <==> k in s.pending)
    ensures forall k :: k != e.txnId && k in s.pending ==> Step(s, e).pending[k] == s.pending[k]
    ensures s.settled <= Step(s, e).settled && |Step(s, e).settled| <= |s.settled| + 1
  {
  }

  /** `TXN_AUTHED` debits the amount and (over)writes the pending entry of its
      id, even one that is already there; nothing else changes. */
  lemma AuthorisationEffect(s: State, e: Event)
    requires e.eventType == TxnAuthed
    ensures s.available - Step(s, e).available == AmountOf(e)
    ensures Step(s, e).payable == s.payable && Step(s, e).settled == s.settled
    ensures Step(s, e).pending == s.pending[e.txnId := PendingEntry(AmountOf(e), e.eventTime)]
  {
  }

  /** `TXN_SETTLED` closes the pending entry of its id when there is one
      (giving back its amount and taking the settled amount instead), always
      adds the amount to the payable balance and appends one record. */
  lemma SettlementEffect(s: State, e: Event)
    requires e.eventType == TxnSettled
    ensures Step(s, e).available - s.available
            == (if e.txnId in s.pending then s.pending[e.txnId].amount - AmountOf(e) else 0.0)
    ensures Step(s, e).payable - s.payable == AmountOf(e)
    ensures Step(s, e).pending == s.pending - {e.txnId}
    ensures Step(s, e).settled == s.settled + [SettledBy(s, e)]
    ensures e.txnId !in s.pending ==> SettledBy(s, e).initialTime == SettledBy(s, e).endTime == e.eventTime
  {
  }

  /** `PAYMENT_INITIATED` only (over)writes the pending entry of its id. */
  lemma PaymentInitiatedEffect(s: State, e: Event)
    requires e.eventType == PaymentInitiated
    ensures Step(s, e).available == s.available && Step(s, e).payable == s.payable
    ensures Step(s, e).settled == s.settled
    ensures Step(s, e).pending == s.pending[e.txnId := PendingEntry(AmountOf(e), e.eventTime)]
  {
  }

  /** `PAYMENT_POSTED` for a pending id moves the absolute value of that
      entry's amount from the payable balance to available credit, removes the
      entry and appends a record of the negated absolute amount. */
  lemma PaymentPostedEffect(s: State, e: Event)
    requires e.eventType == PaymentPosted && e.txnId in s.pending
    ensures Step(s, e).available - s.available == Abs(s.pending[e.txnId].amount)
    ensures s.payable - Step(s, e).payable == Abs(s.pending[e.txnId].amount)
    ensures Step(s, e).pending == s.pending - {e.txnId}
    ensures Step(s, e).settled == s.settled + [PostedBy(s, e)]
    ensures PostedBy(s, e).amount <= 0.0
  {
  }

  /** `PAYMENT_POSTED` never reads the amount of its own event: what it moves
      is the amount of the pending entry it closes. */
  lemma PostedAmountIgnored(s: State, e: Event, amount: Option<Money>)
    requires e.eventType == PaymentPosted
    ensures Step(s, e) == Step(s, e.(amount := amount))
  {
  }

  /** `PAYMENT_POSTED` for an id that is not pending, and every event of an
      unrecognised type, leave the state as it was. */
  lemma IgnoredEventEffect(s: State, e: Event)
    requires (e.eventType == PaymentPosted && e.txnId !in s.pending) || !IsRecognised(e.eventType)
    ensures Step(s, e) == s
  {
  }

  /** Settling at exactly the authorised amount leaves available credit as it was. */
  lemma SettleAtAuthorisedAmount(s: State, e: Event)
    requires e.eventType == TxnSettled && e.txnId in s.pending
    requires AmountOf(e) == s.pending[e.txnId].amount
    ensures Step(s, e).available == s.available
    ensures Step(s, e).payable == s.payable + s.pending[e.txnId].amount
  {
  }

  /** Posting a payment never changes available credit plus payable balance. */
  lemma PostingKeepsCreditPlusPayable(s: State, e: Event)
    requires e.eventType == PaymentPosted
    ensures Step(s, e).available + Step(s, e).payable == s.available + s.payable
  {
  }

  // ----- Replay -----

  /** Replaying a longer list continues from the state of the shorter one. */
  lemma ReplaySnoc(creditLimit: Money, events: seq<Event>, e: Event)
    ensures Replay(creditLimit, events + [e]) == Step(Replay(creditLimit, events), e)
  {
    assert (events + [e])[..|events|] == events;
  }

  /** Settled records are never changed or removed by later events. */
  lemma {:induction false} ReplaySettledOnlyGrows(creditLimit: Money, events: seq<Event>, n: nat)
    requires n <= |events|
    ensures Replay(creditLimit, events[..n]).settled <= Replay(creditLimit, events).settled
    decreases |events| - n
  {
    if n < |events| {
      var m := |events| - 1;
      assert events[..m][..n] == events[..n];
      ReplaySettledOnlyGrows(creditLimit, events[..m], n);
      StepFrame(Replay(creditLimit, events[..m]), events[m]);
    } else {
      assert events[..n] == events;
    }
  }

  /** Events of an unrecognised type are skipped: appending any number of
      them to a list does not change its replay. */
  lemma {:induction false} UnrecognisedEventsIgnored(creditLimit: Money, events: seq<Event>, extra: seq<Event>)
    requires forall i :: 0 <= i < |extra| ==> !IsRecognised(extra[i].eventType)
    ensures Replay(creditLimit, events + extra) == Replay(creditLimit, events)
  {
    if extra == [] {
      assert events + extra == events;
    } else {
      var n := |extra| - 1;
      assert events + extra == (events + extra[..n]) + [extra[n]];
      ReplaySnoc(creditLimit, events + extra[..n], extra[n]);
      UnrecognisedEventsIgnored(creditLimit, events, extra[..n]);
    }
  }

  /** A purchase authorised, settled at the same amount, then paid off by a
      payment initiated and posted under its own id: the credit is whole
      again, nothing is payable, and both closings are recorded. */
  lemma PurchaseAndPaymentCycle()
    ensures Replay(InitialCreditLimit, [
        Event(TxnAuthed, "t1", "a", Some(200.0)),
        Event(TxnSettled, "t2", "a", Some(200.0)),
        Event(PaymentInitiated, "t3", "p", Some(200.0)),
        Event(PaymentPosted, "t4", "p", None)])
      == State(1000.0, 0.0, map[], [SettledRecord("a", 200.0, "t1", "t2"), SettledRecord("p", -200.0, "t3", "t4")])
  {
    var e1 := Event(TxnAuthed, "t1", "a", Some(200.0));
    var e2 := Event(TxnSettled, "t2", "a", Some(200.0));
    var e3 := Event(PaymentInitiated, "t3", "p", Some(200.0));
    var e4 := Event(PaymentPosted, "t4", "p", None);
    ReplaySnoc(InitialCreditLimit, [], e1);
    ReplaySnoc(InitialCreditLimit, [e1], e2);
    ReplaySnoc(InitialCreditLimit, [e1, e2], e3);
    ReplaySnoc(InitialCreditLimit, [e1, e2, e3], e4);
    assert [e1] == [] + [e1] && [e1, e2] == [e1] + [e2];
    assert [e1, e2, e3] == [e1, e2] + [e3] && [e1, e2, e3, e4] == [e1, e2, e3] + [e4];
  }

  // ----- Conservation of credit -----

  /** Sum of the amounts of the pending entries. */
  ghost function PendingTotal(m: map<string, PendingEntry>): Money
    decreases |m|
  {
    if m == map[] then 0.0
    else
      var k :| k in m;
      m[k].amount + PendingTotal(m - {k})
  }

  lemma {:induction false} PendingTotalRemove(m: map<string, PendingEntry>, k: string)
    requires k in m
    ensures PendingTotal(m) == m[k].amount + PendingTotal(m - {k})
    decreases |m|
  {
    var j :| j in m && PendingTotal(m) == m[j].amount + PendingTotal(m - {j});
    if j != k {
      PendingTotalRemove(m - {j}, k);
      PendingTotalRemove(m - {k}, j);
      assert (m - {j}) - {k} == (m - {k}) - {j};
    }
  }

  /** `creditLimit - available` is exactly what the pending entries and the
      payable balance account for. */
  ghost predicate Balanced(creditLimit: Money, s: State)
  {
    creditLimit - s.available == PendingTotal(s.pending) + s.payable
  }

  /** The events that keep the books balanced: authorising a new id, settling
      a pending one, posting for an id that is not pending, and anything of
      an unrecognised type. */
  predicate Orderly(s: State, e: Event)
  {
    || (e.eventType == TxnAuthed && e.txnId !in s.pending)
    || (e.eventType == TxnSettled && e.txnId in s.pending)
    || (e.eventType == PaymentPosted && e.txnId !in s.pending)
    || !IsRecognised(e.eventType)
  }

  lemma OrderlyStepBalanced(creditLimit: Money, s: State, e: Event)
    requires Balanced(creditLimit, s) && Orderly(s, e)
    ensures Balanced(creditLimit, Step(s, e))
  {
    var r := Step(s, e);
    if e.eventType == TxnAuthed {
      assert r.pending - {e.txnId} == s.pending;
      PendingTotalRemove(r.pending, e.txnId);
    } else if e.eventType == TxnSettled {
      PendingTotalRemove(s.pending, e.txnId);
    }
  }

  /** Authorising an id that is still pending debits the credit again while
      replacing the old entry, so the books no longer balance unless the old
      entry's amount was zero. */
  lemma ReauthorisationUnbalances(creditLimit: Money, s: State, e: Event)
    requires Balanced(creditLimit, s)
    requires e.eventType == TxnAuthed && e.txnId in s.pending
    ensures Balanced(creditLimit, Step(s, e)) <==> s.pending[e.txnId].amount == 0.0
  {
    var r := Step(s, e);
    assert r.pending - {e.txnId} == s.pending - {e.txnId};
    PendingTotalRemove(r.pending, e.txnId);
    PendingTotalRemove(s.pending, e.txnId);
  }

  /** Every event of the list was orderly in the state it met. */
  ghost predicate OrderlyLog(creditLimit: Money, events: seq<Event>)
  {
    forall i :: 0 <= i < |events| ==> Orderly(Replay(creditLimit, events[..i]), events[i])
  }

  /** A log of orderly events keeps the books balanced throughout. */
  lemma {:induction false} OrderlyLogBalanced(creditLimit: Money, events: seq<Event>)
    requires OrderlyLog(creditLimit, events)
    ensures Balanced(creditLimit, Replay(creditLimit, events))
  {
    if events != [] {
      var n := |events| - 1;
      forall i | 0 <= i < n
        ensures Orderly(Replay(creditLimit, events[..n][..i]), events[..n][i])
      {
        assert events[..n][..i] == events[..i];
      }
      OrderlyLogBalanced(creditLimit, events[..n]);
      OrderlyStepBalanced(creditLimit, Replay(creditLimit, events[..n]), events[n]);
    }
  }
}
