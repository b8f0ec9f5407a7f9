/**
 * The older record store under `services/`: the same list, filter, debounce
 * and paging, without selection or editing, and without `startWith` in front
 * of the filter pipeline.
 */
module LegacyDataPage {
  import opened Wrappers
  import opened Records
  import RecordView
  import opened Debounce

  const DefaultPageSize: nat := 10

  class DataPageStore {
    var results: seq<TestResult>
    var filterText: string
    var debouncedFilterText: string
    var pageIndex: int
    const pageSize: nat
    var debounce: Debouncer

    /** Empty list and filters, first page of ten, nothing in the pipeline. */
    constructor ()
      ensures results == [] && filterText == "" && debouncedFilterText == ""
      ensures pageIndex == 0 && pageSize == DefaultPageSize && debounce == Idle
    {
      results := [];
      filterText := "";
      debouncedFilterText := "";
      pageIndex := 0;
      pageSize := DefaultPageSize;
      debounce := Idle;
    }

    /** The rows the applied filter keeps. */
    function Filtered(): (f: seq<TestResult>)
      reads this
      ensures forall x :: x in f ==> x in results && RecordView.Matches(x, debouncedFilterText)
    {
      RecordView.Filtered(results, debouncedFilterText)
    }

    /** The rows on the current page: at most ten, none past the end. */
    function Page(): (p: seq<TestResult>)
      reads this
      ensures |p| <= pageSize
      ensures pageIndex >= 0 && pageIndex * pageSize >= |Filtered()| ==> p == []
    {
      RecordView.PageLength(Filtered(), pageIndex, pageSize);
      if pageIndex >= 0 then RecordView.PageIsWindow(Filtered(), pageIndex, pageSize); RecordView.Page(Filtered(), pageIndex, pageSize)
      else RecordView.Page(Filtered(), pageIndex, pageSize)
    }

    /** The raw text changes now and the page returns to the first. */
    method SetFilter(text: string)
      modifies this
      ensures filterText == text && pageIndex == 0
      ensures debouncedFilterText == old(debouncedFilterText)
      ensures debounce == if text == old(filterText) then old(debounce) else Feed(old(debounce), text)
      ensures results == old(results)
    {
      if text != filterText {
        debounce := Feed(debounce, text);
      }
      filterText := text;
      pageIndex := 0;
    }

    /** `dt` units pass; a value leaving the pipeline becomes the applied filter. */
    method Tick(dt: nat)
      modifies this
      ensures debounce == Advance(old(debounce), dt).next
      ensures debouncedFilterText == Advance(old(debounce), dt).emitted.GetOr(old(debouncedFilterText))
      ensures results == old(results) && filterText == old(filterText) && pageIndex == old(pageIndex)
    {
      var step := Advance(debounce, dt);
      debounce := step.next;
      if step.emitted.Some? {
        debouncedFilterText := step.emitted.value;
      }
    }

    /** The index is stored unclamped; past the end the page is empty. */
    method SetPage(index: int)
      modifies this
      ensures pageIndex == index
      ensures results == old(results) && filterText == old(filterText)
      ensures debouncedFilterText == old(debouncedFilterText) && debounce == old(debounce)
    {
      pageIndex := index;
    }

    /** The list is replaced wholesale; filters and page stay. */
    method SetResults(rows: seq<TestResult>)
      modifies this
      ensures results == rows
      ensures filterText == old(filterText) && debouncedFilterText == old(debouncedFilterText)
      ensures pageIndex == old(pageIndex) && debounce == old(debounce)
    {
      results := rows;
    }
  }
}
