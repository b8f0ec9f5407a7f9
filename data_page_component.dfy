/**
 * The data page's half of the URL round trip: the query parameters `q`
 * (raw filter text), `p` (page index) and `sel` (selected row id) are read
 * once when the page is built and again on every navigation, and the store's
 * state is written back to them. The router is the pair of `QueryParams`
 * values going in and out; its navigation call is not modelled.
 */
module DataPage {
  import opened Wrappers
  import opened Records
  import Text
  import RecordView
  import Debounce
  import DataPageState

  /** The three parameters the page uses; an absent parameter is `None`. */
  datatype QueryParams = QueryParams(q: Option<string>, p: Option<string>, sel: Option<string>)

  /** `parsePageParam`: `parseInt(value || '', 10)`, and 0 where that is NaN. */
  function ParsePageParam(value: Option<string>): int {
    match Text.ParseInt(value.GetOr(""))
    case Some(n) => n
    case None => 0
  }

  /** A page index written to the URL reads back as itself. */
  lemma PageParamRoundTrip(index: int)
    ensures ParsePageParam(Some(Text.IntToString(index))) == index
  {
    Text.ParseIntOfIntToString(index);
  }

  /** An absent parameter, or one with no digits after the optional sign, is page 0. */
  lemma PageParamDefaultsToZero(value: Option<string>)
    requires value.Some? ==> Text.DigitPrefix(Text.SignedBody(Text.TrimStart(value.value))) == []
    ensures ParsePageParam(value) == 0
  {
    if value.None? {
      assert Text.TrimStart("") == "";
    }
  }

  /** Leading spaces and a sign are read: `"  -3"` is page -3. */
  lemma PageParamSignedExample()
    ensures ParsePageParam(Some("  -3")) == -3
  {
    assert Text.LeadingWhite("  -3") == 2;
    assert Text.TrimStart("  -3") == "-3";
    assert Text.SignedBody("-3") == "3";
    assert Text.DigitPrefix("3") == "3";
    assert Text.DigitsValue("3") == 3;
  }

  /** Text after the digits is ignored: `"12abc"` is page 12. */
  lemma PageParamTrailingExample()
    ensures ParsePageParam(Some("12abc")) == 12
  {
    assert Text.LeadingWhite("12abc") == 0;
    assert Text.SignedBody("12abc") == "12abc";
    assert Text.DigitPrefix("abc") == [];
    assert Text.DigitPrefix("2abc") == "2" by {
      assert "2abc"[1..] == "abc";
    }
    assert Text.DigitPrefix("12abc") == "12" by {
      assert "12abc"[1..] == "2abc";
    }
    assert Text.DigitsValue("1") == 1;
    assert Text.DigitsValue("12") == 12 by {
      assert "12"[..1] == "1";
    }
  }

  /** A value without digits is page 0. */
  lemma PageParamNoDigitsExample()
    ensures ParsePageParam(Some("abc")) == 0
  {
    var s := "abc";
    assert !Text.IsWhite(s[0]) && !Text.IsDigit(s[0]) && s[0] != '-' && s[0] != '+';
    assert Text.TrimStart(s) == s;
    assert Text.DigitPrefix(Text.SignedBody(s)) == [];
    PageParamDefaultsToZero(Some(s));
  }

  /**
   * What the constructor hands to `hydrateFromUrl`: the filter text when `q`
   * is present, the page when `p` is present (its parse never fails).
   */
  function InitialPatch(snapshot: QueryParams): (patch: DataPageState.UrlPatch)
    ensures patch.filterText == snapshot.q
    ensures patch.pageIndex.Some? <==> snapshot.p.Some?
    ensures snapshot.p.Some? ==> patch.pageIndex.value == ParsePageParam(snapshot.p)
  {
    DataPageState.UrlPatch(snapshot.q, if snapshot.p.Some? then Some(ParsePageParam(snapshot.p)) else None)
  }

  /**
   * What the navigation callback hands to `hydrateFromUrl`: only the
   * parameters that are present and differ from the store's current value.
   */
  function ChangePatch(params: QueryParams, filterText: string, pageIndex: int): (patch: DataPageState.UrlPatch)
    ensures patch.filterText.Some? <==> params.q.Some? && params.q.value != filterText
    ensures patch.filterText.Some? ==> patch.filterText == params.q
    ensures patch.pageIndex.Some? <==> params.p.Some? && ParsePageParam(params.p) != pageIndex
    ensures patch.pageIndex.Some? ==> patch.pageIndex.value == ParsePageParam(params.p)
  {
    var pageIndex' := ParsePageParam(params.p);
    DataPageState.UrlPatch(
      if params.q.Some? && params.q.value != filterText then params.q else None,
      if params.p.Some? && pageIndex' != pageIndex then Some(pageIndex') else None)
  }

  predicate IsEmptyPatch(patch: DataPageState.UrlPatch) {
    patch.filterText.None? && patch.pageIndex.None?
  }

  /**
   * The URL the state is written to: `q` is the raw filter text, `p` the page
   * index (the router renders the number in decimal), `sel` the selection,
   * left out when nothing is selected.
   */
  function QueryParamsOf(filterText: string, pageIndex: int, selected: Option<string>): (params: QueryParams)
    ensures params.q == Some(filterText) && params.sel == selected
    ensures params.p.Some? && ParsePageParam(params.p) == pageIndex
  {
    PageParamRoundTrip(pageIndex);
    QueryParams(Some(filterText), Some(Text.IntToString(pageIndex)), selected)
  }

  /** The URL written from a state, read back in that state, asks for no change. */
  lemma EchoAsksNothing(filterText: string, pageIndex: int, selected: Option<string>)
    ensures IsEmptyPatch(ChangePatch(QueryParamsOf(filterText, pageIndex, selected), filterText, pageIndex))
    ensures QueryParamsOf(filterText, pageIndex, selected).sel == selected
  {
  }

  /**
   * A changed URL always asks for a change: a present `q` that differs from
   * the filter text, or a present `p` that reads as another page.
   */
  lemma ChangeIsNoticed(params: QueryParams, filterText: string, pageIndex: int)
    requires (params.q.Some? && params.q.value != filterText) || (params.p.Some? && ParsePageParam(params.p) != pageIndex)
    ensures !IsEmptyPatch(ChangePatch(params, filterText, pageIndex))
  {
  }

  /** The data page: the record store it drives. */
  class DataPageComponent {
    const store: DataPageState.DataPageStore

    /**
     * The constructor's hydration from the URL snapshot: the present `q`
     * and `p` are applied together when either is present, then a present
     * `sel` that differs from the selection is selected. The `queryParamMap`
     * subscription then delivers the same parameters at once; by then `q` and
     * `p` agree with the store, so that first delivery only makes the
     * selection follow `sel` (clearing it when `sel` is absent). Loading from
     * local storage, between the two, is not modelled.
     */
    constructor (store: DataPageState.DataPageStore, snapshot: QueryParams)
      modifies store
      ensures this.store == store
      ensures store.filterText == snapshot.q.GetOr(old(store.filterText))
      ensures store.debouncedFilterText == snapshot.q.GetOr(old(store.debouncedFilterText))
      ensures store.pageIndex == if snapshot.p.Some? then ParsePageParam(snapshot.p) else old(store.pageIndex)
      ensures store.selectedRowId == snapshot.sel
      ensures store.results == old(store.results)
      ensures store.debounce ==
              if snapshot.q.Some? && snapshot.q.value != old(store.filterText) then Debounce.Feed(old(store.debounce), snapshot.q.value)
              else old(store.debounce)
    {
      this.store := store;
      new;
      var patch := InitialPatch(snapshot);
      if !IsEmptyPatch(patch) {
        store.HydrateFromUrl(patch);
      }
      if snapshot.sel.Some? && snapshot.sel != store.selectedRowId {
        store.SelectRow(snapshot.sel.value);
      }
      OnQueryParams(snapshot);
    }

    /**
     * The `queryParamMap` callback: the selection follows `sel` (cleared when
     * it is absent), and the parameters that differ from the store are
     * applied in one `hydrateFromUrl`. So afterwards the raw filter text is
     * `q` and the page is `p` whenever they are present; the applied filter
     * jumps to `q` only when `q` differed from the raw text.
     */
    method OnQueryParams(params: QueryParams)
      modifies store
      ensures store.selectedRowId == params.sel
      ensures store.filterText == params.q.GetOr(old(store.filterText))
      ensures store.debouncedFilterText ==
              if params.q.Some? && params.q.value != old(store.filterText) then params.q.value
              else old(store.debouncedFilterText)
      ensures store.pageIndex == if params.p.Some? then ParsePageParam(params.p) else old(store.pageIndex)
      ensures store.results == old(store.results)
      ensures store.debounce ==
              if params.q.Some? && params.q.value != old(store.filterText) then Debounce.Feed(old(store.debounce), params.q.value)
              else old(store.debounce)
    {
      var patch := ChangePatch(params, store.filterText, store.pageIndex);
      if params.sel != store.selectedRowId {
        if params.sel.None? {
          store.ClearSelection();
        } else {
          store.SelectRow(params.sel.value);
        }
      }
      if !IsEmptyPatch(patch) {
        store.HydrateFromUrl(patch);
      }
    }

    /** The URL the effect writes for the current state; it reads back as that state. */
    function CurrentParams(): (params: QueryParams)
      reads this, store
      ensures params.q == Some(store.filterText) && params.sel == store.selectedRowId
      ensures params.p.Some? && ParsePageParam(params.p) == store.pageIndex
    {
      QueryParamsOf(store.filterText, store.pageIndex, store.selectedRowId)
    }

    /** Navigating to the URL the effect just wrote changes nothing in the store. */
    method EchoIsNoOp()
      modifies store
      ensures store.filterText == old(store.filterText) && store.debouncedFilterText == old(store.debouncedFilterText)
      ensures store.pageIndex == old(store.pageIndex) && store.selectedRowId == old(store.selectedRowId)
      ensures store.results == old(store.results) && store.debounce == old(store.debounce)
    {
      OnQueryParams(CurrentParams());
    }

    /** `onPageChange`: the store's `setPage`. */
    method OnPageChange(index: int)
      modifies store
      ensures store.pageIndex == index
      ensures store.results == old(store.results) && store.selectedRowId == old(store.selectedRowId)
      ensures store.filterText == old(store.filterText)
      ensures store.debouncedFilterText == old(store.debouncedFilterText) && store.debounce == old(store.debounce)
    {
      store.SetPage(index);
    }

    /** `onCancel`: the store's `clearSelection`. */
    method OnCancel()
      modifies store
      ensures store.selectedRowId == None
      ensures store.results == old(store.results) && store.pageIndex == old(store.pageIndex)
      ensures store.filterText == old(store.filterText)
      ensures store.debouncedFilterText == old(store.debouncedFilterText) && store.debounce == old(store.debounce)
    {
      store.ClearSelection();
    }

    /** `onAdd`: the store's `addBlank`, with the new row's id and today's date supplied. */
    method OnAdd(newId: string, today: string)
      modifies store
      ensures store.results == [TestResult(newId, "", "", "", 0, today)] + old(store.results)
      ensures store.selectedRowId == Some(newId)
      ensures store.pageIndex == old(store.pageIndex) && store.filterText == old(store.filterText)
      ensures store.debouncedFilterText == old(store.debouncedFilterText) && store.debounce == old(store.debounce)
    {
      var _ := store.AddBlank(newId, today);
    }

    /** `onSave`: the store's `save`. */
    method OnSave(updated: TestResult)
      modifies store
      ensures store.results == RecordView.ReplaceById(old(store.results), updated)
      ensures store.selectedRowId == Some(updated.id)
      ensures store.pageIndex == old(store.pageIndex) && store.filterText == old(store.filterText)
      ensures store.debouncedFilterText == old(store.debouncedFilterText) && store.debounce == old(store.debounce)
    {
      store.Save(updated);
    }

    /** `onRemove`: the store's `remove`. */
    method OnRemove(id: string)
      modifies store
      ensures store.results == RecordView.RemoveById(old(store.results), id)
      ensures store.selectedRowId == None
      ensures store.pageIndex == old(store.pageIndex) && store.filterText == old(store.filterText)
      ensures store.debouncedFilterText == old(store.debouncedFilterText) && store.debounce == old(store.debounce)
    {
      store.Remove(id);
    }
  }
}
