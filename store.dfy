/** The in-memory `card_activity` record of main.py and the three operations
    on it: append an event, summarise, and reset. */
module CardActivityStore {
  import opened Ledger
  import opened SummaryView
  import opened Summarizer

  class Store {
    var creditLimit: Money
    var events: seq<Event>

    /** The record as the module initialises it. */
    constructor ()
      ensures creditLimit == InitialCreditLimit && events == []
    {
      creditLimit := InitialCreditLimit;
      events := [];
    }

    /** The activity record `summarize` is handed. */
    function Activity(): CardActivity
      reads this
    {
      CardActivity(creditLimit, events)
    }

    /** `add_event`: appends the submitted event at the end of the log. An
        event without an amount is accepted where `summarize` never reads
        the amount: a `PAYMENT_POSTED` or an unrecognised type. */
    method AddEvent(e: Event)
      requires e.amount.Some? || e.eventType == PaymentPosted || !IsRecognised(e.eventType)
      modifies this
      ensures creditLimit == old(creditLimit)
      ensures events == old(events) + [e]
    {
      events := events + [e];
    }

    /** `get_summary`: the summary of the current record; nothing changes. */
    method GetSummary() returns (summary: CardSummary)
      ensures IsSummaryOf(Activity(), summary)
    {
      summary := Summarize(Activity());
    }

    /** `reset_card_activity`: back to the initial limit and an empty log,
        whatever the record held before, so resetting twice is resetting
        once; returns the summary of the empty log. */
    method Reset() returns (summary: CardSummary)
      modifies this
      ensures creditLimit == InitialCreditLimit && events == []
      ensures summary == CardSummary(InitialCreditLimit, 0.0, [], [])
    {
      creditLimit := InitialCreditLimit;
      events := [];
      summary := Summarize(Activity());
      EmptyLogSummary(InitialCreditLimit, summary);
    }
  }
}
