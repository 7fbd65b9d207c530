/** The export history: the record kept for every export or share of a
    monthly sheet, the browser store that holds the list, and the history
    page that shows it newest first and deletes from it. */
module DownloadHistory {
  import opened Types
  import opened Seqs
  import opened Sorting
  import opened Summaries

  /** One export or share: who, which month, when (in milliseconds), the
      month's entries and summary, and the overtime choice at that moment. */
  datatype HistoryRecord = HistoryRecord(
    id: string,
    userName: string,
    monthName: string,
    downloadDate: int,
    entries: seq<TimeEntry>,
    monthlySummary: MonthlySummary,
    overtimeOption: OvertimeOption,
    job: string)

  function DownloadKey(r: HistoryRecord): int
  {
    r.downloadDate
  }

  /** The test `deleteHistoryEntry` filters with. */
  function OtherRecord(id: string): HistoryRecord -> bool
  {
    (r: HistoryRecord) => r.id != id
  }

  /** The records without the given id, in their original order. */
  function WithoutRecord(h: seq<HistoryRecord>, id: string): seq<HistoryRecord>
  {
    Filter(h, OtherRecord(id))
  }

  /** Deleting removes exactly the records with that id, keeps the list
      newest first, changes nothing for an unknown id and is idempotent. */
  lemma DeletedRecords(h: seq<HistoryRecord>, id: string)
    ensures forall r :: r in WithoutRecord(h, id) <==> r in h && r.id != id
    ensures SortedDesc(h, DownloadKey) ==> SortedDesc(WithoutRecord(h, id), DownloadKey)
    ensures (forall r :: r in h ==> r.id != id) ==> WithoutRecord(h, id) == h
    ensures WithoutRecord(WithoutRecord(h, id), id) == WithoutRecord(h, id)
  {
    if SortedDesc(h, DownloadKey) {
      FilterSorted(h, OtherRecord(id), DownloadKey);
    }
    if forall r :: r in h ==> r.id != id {
      FilterKeepsAll(h, OtherRecord(id));
    }
    FilterIdempotent(h, OtherRecord(id));
  }

  /** The browser's store under the history key: the saved list, or nothing
      when the key is absent. */
  class HistoryStorage {
    var saved: Option<seq<HistoryRecord>>

    constructor ()
      ensures saved == None
    {
      saved := None;
    }

    /** The saved list, read with an absent key standing for the empty list. */
    function Stored(): seq<HistoryRecord>
      reads this
    {
      if saved.Some? then saved.value else []
    }
  }

  /** The history page's state. */
  class HistoryPage {
    var history: seq<HistoryRecord>
    const storage: HistoryStorage

    /** What the page keeps true: the list is shown newest first. */
    ghost predicate Valid()
      reads this
    {
      SortedDesc(history, DownloadKey)
    }

    constructor (storage: HistoryStorage)
      ensures Valid()
      ensures history == [] && this.storage == storage
    {
      history := [];
      this.storage := storage;
    }

    /** The load on first render: a saved list is shown sorted by download
        date, newest first; with no saved list the page stays empty. */
    method Load()
      requires Valid()
      modifies this
      ensures Valid()
      ensures storage.saved.None? ==> history == old(history)
      ensures storage.saved.Some? ==>
                history == SortDesc(storage.saved.value, DownloadKey)
                && multiset(history) == multiset(storage.saved.value)
    {
      if storage.saved.Some? {
        history := SortDesc(storage.saved.value, DownloadKey);
      }
    }

    /** Deletes the records with the given id and saves the remaining list. */
    method DeleteHistoryEntry(id: string)
      requires Valid()
      modifies this, storage
      ensures Valid()
      ensures history == WithoutRecord(old(history), id)
      ensures storage.saved == Some(history)
    {
      DeletedRecords(history, id);
      var updated := WithoutRecord(history, id);
      history := updated;
      storage.saved := Some(updated);
    }

    /** Empties the page and removes the saved list. */
    method ClearHistory()
      requires Valid()
      modifies this, storage
      ensures Valid()
      ensures history == [] && storage.saved == None
    {
      history := [];
      storage.saved := None;
    }
  }

  /** Loading a list that is already newest first shows it as saved. */
  lemma LoadKeepsSortedList(h: seq<HistoryRecord>)
    requires SortedDesc(h, DownloadKey)
    ensures SortDesc(h, DownloadKey) == h
  {
    SortedFixpoint(h, DownloadKey);
  }
}
