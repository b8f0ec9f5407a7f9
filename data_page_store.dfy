/**
 * The record store behind the data page: the list of results, the raw and the
 * applied (debounced) filter text, the page cursor and the selected row id.
 * Its signals are plain fields; the filter pipeline's timer is the field
 * `debounce`, and `Tick` lets time pass.
 */
module DataPageState {
  import opened Wrappers
  import opened Records
  import RecordView
  import opened Debounce

  const DefaultPageSize: nat := 10

  /** The argument of `hydrateFromUrl`: an absent field leaves its state alone. */
  datatype UrlPatch = UrlPatch(filterText: Option<string>, pageIndex: Option<int>)

  class DataPageStore {
    var results: seq<TestResult>
    var filterText: string
    var debouncedFilterText: string
    var pageIndex: int
    const pageSize: nat
    var selectedRowId: Option<string>
    var debounce: Debouncer

    /**
     * A fresh store: no rows, empty filters, first page of ten, nothing
     * selected; `startWith` has already put the current (empty) text into the
     * pipeline.
     */
    constructor ()
      ensures results == [] && filterText == "" && debouncedFilterText == ""
      ensures pageIndex == 0 && pageSize == DefaultPageSize && selectedRowId == None
      ensures debounce == Feed(Idle, "")
    {
      results := [];
      filterText := "";
      debouncedFilterText := "";
      pageIndex := 0;
      pageSize := DefaultPageSize;
      selectedRowId := None;
      debounce := Feed(Idle, "");
    }

    /** The rows the applied filter keeps. */
    function Filtered(): (f: seq<TestResult>)
      reads this
      ensures forall x :: x in f ==> x in results && RecordView.Matches(x, debouncedFilterText)
    {
      RecordView.Filtered(results, debouncedFilterText)
    }

    /** The rows on the current page. */
    function Page(): (p: seq<TestResult>)
      reads this
      ensures |p| <= pageSize
      ensures forall x :: x in p ==> x in Filtered()
    {
      RecordView.PageLength(Filtered(), pageIndex, pageSize);
      RecordView.Page(Filtered(), pageIndex, pageSize)
    }

    /** The first row whose id is selected, if there is one. */
    function SelectedRow(): (r: Option<TestResult>)
      reads this
      ensures r.Some? ==> r.value in results && selectedRowId == Some(r.value.id)
      ensures r.Some? ==> exists k :: 0 <= k < |results| && results[k] == r.value
                                      && forall j :: 0 <= j < k ==> results[j].id != r.value.id
      ensures r.None? <==> (selectedRowId.None? || selectedRowId.value == ""
                            || forall i :: 0 <= i < |results| ==> results[i].id != selectedRowId.value)
    {
      RecordView.SelectedRow(results, selectedRowId)
    }

    /**
     * The raw text changes now and the page returns to the first; the applied
     * filter waits for the pipeline. Setting a signal to its current value
     * notifies no one, so only a changed text enters the pipeline.
     */
    method SetFilter(text: string)
      modifies this
      ensures filterText == text && pageIndex == 0
      ensures debouncedFilterText == old(debouncedFilterText)
      ensures debounce == if text == old(filterText) then old(debounce) else Feed(old(debounce), text)
      ensures results == old(results) && selectedRowId == old(selectedRowId)
    {
      if text != filterText {
        debounce := Feed(debounce, text);
      }
      filterText := text;
      pageIndex := 0;
    }

    /** `dt` units pass; a value leaving the pipeline becomes the applied filter. */
    method Tick(dt: nat)
      modifies this
      ensures debounce == Advance(old(debounce), dt).next
      ensures debouncedFilterText == Advance(old(debounce), dt).emitted.GetOr(old(debouncedFilterText))
      ensures results == old(results) && filterText == old(filterText)
      ensures pageIndex == old(pageIndex) && selectedRowId == old(selectedRowId)
    {
      var step := Advance(debounce, dt);
      debounce := step.next;
      if step.emitted.Some? {
        debouncedFilterText := step.emitted.value;
      }
    }

    /** The index is stored as given, without clamping. */
    method SetPage(index: int)
      modifies this
      ensures pageIndex == index
      ensures results == old(results) && filterText == old(filterText) && debouncedFilterText == old(debouncedFilterText)
      ensures selectedRowId == old(selectedRowId) && debounce == old(debounce)
    {
      pageIndex := index;
    }

    /** The list is replaced wholesale; filters, page and selection stay. */
    method SetResults(rows: seq<TestResult>)
      modifies this
      ensures results == rows
      ensures filterText == old(filterText) && debouncedFilterText == old(debouncedFilterText)
      ensures pageIndex == old(pageIndex) && selectedRowId == old(selectedRowId) && debounce == old(debounce)
    {
      results := rows;
    }

    method SelectRow(id: string)
      modifies this
      ensures selectedRowId == Some(id)
      ensures results == old(results) && filterText == old(filterText) && debouncedFilterText == old(debouncedFilterText)
      ensures pageIndex == old(pageIndex) && debounce == old(debounce)
    {
      selectedRowId := Some(id);
    }

    method ClearSelection()
      modifies this
      ensures selectedRowId == None
      ensures results == old(results) && filterText == old(filterText) && debouncedFilterText == old(debouncedFilterText)
      ensures pageIndex == old(pageIndex) && debounce == old(debounce)
    {
      selectedRowId := None;
    }

    /** Every row with the edited id is replaced by the edit, which becomes the selection. */
    method Save(updated: TestResult)
      modifies this
      ensures results == RecordView.ReplaceById(old(results), updated)
      ensures selectedRowId == Some(updated.id)
      ensures updated.id != "" && (exists i :: 0 <= i < |old(results)| && old(results)[i].id == updated.id)
              ==> SelectedRow() == Some(updated)
      ensures filterText == old(filterText) && debouncedFilterText == old(debouncedFilterText)
      ensures pageIndex == old(pageIndex) && debounce == old(debounce)
    {
      results := RecordView.ReplaceById(results, updated);
      selectedRowId := Some(updated.id);
      if updated.id != "" && exists i :: 0 <= i < |old(results)| && old(results)[i].id == updated.id {
        RecordView.SaveReadsBack(old(results), updated);
      }
    }

    /** Every row with the id is dropped, and the selection is cleared whatever it was. */
    method Remove(id: string)
      modifies this
      ensures results == RecordView.RemoveById(old(results), id)
      ensures selectedRowId == None
      ensures filterText == old(filterText) && debouncedFilterText == old(debouncedFilterText)
      ensures pageIndex == old(pageIndex) && debounce == old(debounce)
    {
      results := RecordView.RemoveById(results, id);
      ClearSelection();
    }

    /**
     * A blank row (empty trainee and subject, grade 0, dated `today`) with the
     * fresh id `newId` goes to the top of the list and is selected.
     */
    method AddBlank(newId: string, today: string) returns (row: TestResult)
      modifies this
      ensures row == TestResult(newId, "", "", "", 0, today)
      ensures results == [row] + old(results) && |results| == |old(results)| + 1
      ensures selectedRowId == Some(newId)
      ensures filterText == old(filterText) && debouncedFilterText == old(debouncedFilterText)
      ensures pageIndex == old(pageIndex) && debounce == old(debounce)
    {
      row := TestResult(newId, "", "", "", 0, today);
      results := [row] + results;
      selectedRowId := Some(newId);
    }

    /**
     * The fields present in the patch are applied at once: a filter text sets
     * both the raw and the applied filter (no wait), a page index sets the page.
     * The raw text still passes through the pipeline when it changed.
     */
    method HydrateFromUrl(patch: UrlPatch)
      modifies this
      ensures filterText == patch.filterText.GetOr(old(filterText))
      ensures debouncedFilterText == patch.filterText.GetOr(old(debouncedFilterText))
      ensures pageIndex == patch.pageIndex.GetOr(old(pageIndex))
      ensures debounce == if patch.filterText.Some? && patch.filterText.value != old(filterText)
                          then Feed(old(debounce), patch.filterText.value) else old(debounce)
      ensures results == old(results) && selectedRowId == old(selectedRowId)
    {
      if patch.filterText.Some? {
        if patch.filterText.value != filterText {
          debounce := Feed(debounce, patch.filterText.value);
        }
        filterText := patch.filterText.value;
        debouncedFilterText := patch.filterText.value;
      }
      if patch.pageIndex.Some? {
        pageIndex := patch.pageIndex.value;
      }
    }
  }

  /**
   * The store's own debounce scenario: "J", then "Jo" after 100 units; the
   * applied filter is still empty until 300 quiet units have passed, and then
   * it is "Jo".
   */
  method LatestFilterWins() returns (before: string, after: string)
    ensures before == "" && after == "Jo"
  {
    var store := new DataPageStore();
    store.SetFilter("J");
    store.Tick(100);
    store.SetFilter("Jo");
    before := store.debouncedFilterText;
    store.Tick(300);
    after := store.debouncedFilterText;
  }
}
