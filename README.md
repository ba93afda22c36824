# Card activity engine — Dafny model

The backend in `main.py` keeps one in-memory record, `card_activity`. It holds
a credit limit (1000 initially) and the list of card events posted to it. Three
operations act on that record: append an event, reset the record, and
summarise it. `summarize` replays the whole event list from the start, left to
right. It keeps two running totals: available credit, which starts at the
limit, and the payable balance, which starts at 0. It also keeps a dictionary
of pending entries keyed by `txnId` and a list of settled records. Each event
type moves entries between these:

- `TXN_AUTHED` debits available credit and (over)writes the pending entry.
- `TXN_SETTLED` closes the pending entry if there is one, adds to payable and
  appends a settled record.
- `PAYMENT_INITIATED` only (over)writes a pending entry.
- `PAYMENT_POSTED` for a pending id moves the absolute value of that entry's
  amount from payable to available and appends a negative settled record.
- Anything else is skipped.

The summary shows both totals, the pending entries sorted by `(time, id)`
descending, and the three settled records that are greatest by
`(end_time, id)`.

Modules:

- `StringOrder` (`string_order.dfy`): Python's `<` on strings and on
  `(time, id)` tuples, with its order laws.
- `Sorting` (`sorting.dfy`): `sorted(..., reverse=True)` as a stable insertion
  sort. The output is a permutation of the input in non-increasing key order,
  and records with equal keys keep their input order.
- `Ledger` (`ledger.dfy`): the loop state, the effect of one event (`Step`),
  the left fold over the list (`Replay`), and what they guarantee.
- `SummaryView` (`summary_view.dfy`): the summary. The pending list is
  specified as a relation, and a lemma proves it is unique. The settled
  top-3 is a function.
- `Summarizer` (`summarize.dfy`): `summarize` as the source runs it. A loop
  updates the totals, the map and the list in place, and is proved against
  `Replay`. The rows are then collected and sorted.
- `CardActivityStore` (`store.dfy`): the global record as a class with
  `AddEvent`, `GetSummary` and `Reset`.

The code validates and rejects nothing. It accepts duplicate ids, authorisations
beyond the credit limit, settlements whose amount differs from the
authorisation, and payments larger than the balance. Re-authorising a pending
id debits the credit again and overwrites the entry. Payments share the
pending dictionary with transactions. `PAYMENT_POSTED` ignores its own amount
and moves the absolute value of the pending entry's amount. Both lists are
sorted by `(time, id)` in descending order. The credit identity
`limit − available = pending total + payable` is preserved by "orderly" events
(`Ledger.OrderlyLogBalanced`). Re-authorising a pending id breaks it exactly
when the replaced entry's amount is non-zero
(`Ledger.ReauthorisationUnbalances`).

## Model

| member | source | states |
|---|---|---|
| `CardActivityStore.Store.constructor` | main.py:26-33 | the record starts with limit 1000 and no events |
| `CardActivityStore.Store.AddEvent` | main.py:48-51 | the event is appended at the end of the log; the limit and earlier events are unchanged; an event without an amount is accepted when it is a `PAYMENT_POSTED` or of an unrecognised type |
| `CardActivityStore.Store.GetSummary` | main.py:54-57 | returns the summary of the current record and changes nothing |
| `CardActivityStore.Store.Reset` | main.py:60-67 | the record becomes limit 1000 with an empty log whatever it held, so a second reset changes nothing; the returned summary is (1000, 0, [], []) |
| `Ledger.Initial` | main.py:75-78 | the loop starts with available = limit, payable 0, no pending entries and no settled records |
| `Ledger.Step` | main.py:82-129 | one iteration of the loop; what it does per event type is stated by the `*Effect` lemmas below, and `StepFrame` bounds what it can touch |
| `Ledger.Replay` | main.py:75-81 | the fold gives at most one settled record per event |
| `Ledger.PendingIdsFromEvents` | main.py:90-115 | every key left in the pending map is the `txnId` of some event of the log |
| `Ledger.ReplaySnoc` | main.py:81-129 | one more event at the end of the list is one more step on the previous state (strict left-to-right order) |
| `Ledger.StepFrame` | main.py:81-129 | an event can only change the pending entry of its own id; earlier settled records are kept and at most one is appended |
| `Ledger.AuthorisationEffect` | main.py:87-93 | `TXN_AUTHED` lowers available credit by the amount and (over)writes the entry (amount, time) of its id, even an existing one; payable and settled are untouched |
| `Ledger.SettlementEffect` | main.py:94-109 | `TXN_SETTLED`: available changes by pending amount − settled amount for a pending id and not at all otherwise; the id leaves pending; payable rises by the amount; exactly one record is appended; for an id that is not pending, its start and end times are both the event time |
| `Ledger.SettleAtAuthorisedAmount` | main.py:96-103 | settling a pending id at its pending amount leaves available credit unchanged and moves that amount to payable |
| `Ledger.PaymentInitiatedEffect` | main.py:110-115 | `PAYMENT_INITIATED` only (over)writes the pending entry of its id; totals and settled list are unchanged |
| `Ledger.PaymentPostedEffect` | main.py:116-129 | `PAYMENT_POSTED` for a pending id removes it, adds abs(amount) to available, subtracts it from payable and appends a record of −abs(amount) |
| `Ledger.PostedAmountIgnored` | main.py:116-126 | the result of `PAYMENT_POSTED` does not depend on the event's own amount |
| `Ledger.PostingKeepsCreditPlusPayable` | main.py:116-129 | `PAYMENT_POSTED` never changes available + payable |
| `Ledger.IgnoredEventEffect` | main.py:87-129 | `PAYMENT_POSTED` for an id that is not pending, and any unrecognised type, leave the state unchanged |
| `Ledger.UnrecognisedEventsIgnored` | main.py:87-116 | appending events of unrecognised types to a log does not change its replay |
| `Ledger.ReplaySettledOnlyGrows` | main.py:104-109 | settled records of a prefix of the log are a prefix of those of the whole log; records are never changed or removed |
| `Ledger.PurchaseAndPaymentCycle` | main.py:81-129 | authorise 200, settle 200, initiate and post a 200 payment: available is back to 1000, payable 0, pending empty, two settled records |
| `Ledger.OrderlyStepBalanced` | main.py:87-109 | authorising a new id, settling a pending id, posting for an id that is not pending and unrecognised events keep limit − available = pending total + payable |
| `Ledger.OrderlyLogBalanced` | main.py:75-129 | a log of such events keeps that identity after every prefix of the replay |
| `Ledger.ReauthorisationUnbalances` | main.py:89-93 | re-authorising a pending id breaks the identity exactly when the replaced entry's amount is non-zero |
| `StringOrder.Less` | main.py:141 | Python's `<` on `str`: lexicographic by code point, with a proper prefix first; its laws are the three lemmas below |
| `StringOrder.LessIrreflexive` | main.py:141 | no string is less than itself |
| `StringOrder.LessTransitive` | main.py:141 | `a < b` and `b < c` give `a < c` |
| `StringOrder.LessTotal` | main.py:141 | of two distinct strings one is less than the other |
| `StringOrder.KeyTrichotomy` | main.py:141 | `(time, id)` keys compared as Python tuples of strings form a strict total order |
| `Sorting.SortDescending` | main.py:141 | the output is a permutation of the input in non-increasing key order |
| `Sorting.SortDescendingStable` | main.py:150 | for each key, the records with that key keep their input order (Python's sort is stable under `reverse=True`) |
| `SummaryView.IsPendingView` | main.py:135-142 | the pending list shows each entry of the map as (id, amount, time), every entry, and nothing else, in strictly decreasing `(time, id)` order |
| `SummaryView.PendingViewOnePerId` | main.py:135-142 | the pending list has exactly one row per key left in the pending map |
| `SummaryView.PendingViewUnique` | main.py:141 | the pending list is fully determined by the pending map: rows in strictly decreasing (time, id) order |
| `SummaryView.SettledView` | main.py:143-151 | exactly min(3, n) records, in non-increasing (end_time, id) order, taken from the settled list (a sub-multiset) |
| `SummaryView.SettledViewKeepsGreatest` | main.py:150 | every settled record left out is at most every record shown, and records with equal keys are shown in settlement order |
| `SummaryView.IsSummaryOf` | main.py:132-152 | the summary holds the replay's available credit and payable balance, the pending view of its map and the settled view of its list |
| `SummaryView.SummaryUnique` | main.py:132-152 | the summary is a function of the activity record |
| `SummaryView.EmptyLogSummary` | main.py:75-78 | an empty log summarises to available = limit, payable = 0 and two empty lists, and only to that |
| `Summarizer.PendingRows` | main.py:135-142 | collecting the pending items and sorting them gives the pending view |
| `Summarizer.Summarize` | main.py:70-155 | the loop's totals, map and list equal the replay of the log, and the result is its summary |

## Left out

- HTTP routing, CORS, uvicorn start-up and logging are transport and I/O. They carry no logic.
- Pydantic parsing and the `json.dumps`/`json.loads` round trip only copy data. `summarize` takes the decoded record.
- Python float arithmetic and `round(..., 2)`: amounts are exact `real`s. Rounding and float accumulation error are not modelled.
- CardActivityStore.Store.AddEvent: requires an amount on `TXN_AUTHED`, `TXN_SETTLED` and `PAYMENT_INITIATED` events. The endpoint stores a `null` amount when none is given (main.py:40). `summarize` then raises a `TypeError`: at once for an authorisation or settlement, and for an initiated payment only when its entry is later settled or posted. That failure path is not modelled. Amount-less `PAYMENT_POSTED` events, which the frontend sends, and amount-less unrecognised events are accepted; `summarize` never reads their amount (`Ledger.PostedAmountIgnored`, `Ledger.IgnoredEventEffect`), so the model reads the missing amount as 0.
- The insertion order of the pending dictionary is not modelled, because the ids in it are distinct and the sort makes the order irrelevant.
- Timestamps are opaque strings compared as strings, as the code compares them. Their chronological meaning is not modelled.
- Concurrent requests against the global record are not modelled: each operation is taken as atomic.
- `frontend/src/App.js` is presentation: fetching, rendering and currency formatting.
