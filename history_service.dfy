/** The summary history kept in local storage (services/historyService.ts). */
module HistoryService {
  import opened Storage
  import opened Types

  class HistoryStore {
    var slot: Slot<seq<SummaryEntry>>

    /** The store over whatever the key holds when the page loads. */
    constructor(initial: Slot<seq<SummaryEntry>>)
      ensures slot == initial
    {
      slot := initial;
    }

    /** `getHistory`: a missing or unreadable history reads as empty. */
    function History(): (r: seq<SummaryEntry>)
      reads this
      ensures slot.Stored? ==> r == slot.value
      ensures !slot.Stored? ==> r == []
    {
      slot.ReadOr([])
    }

    /** `saveSummary`: appends the entry after everything already read; an
        unreadable history is replaced by the one entry. */
    method SaveSummary(entry: SummaryEntry)
      modifies this
      ensures History() == old(History()) + [entry]
      ensures slot.Stored?
    {
      var history := History();
      history := history + [entry];
      slot := Stored(history);
    }

    /** `clearHistory`: removes the key. */
    method ClearHistory()
      modifies this
      ensures slot == Absent && History() == []
    {
      slot := Absent;
    }
  }
}
