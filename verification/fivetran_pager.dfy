/**
  The cursor pager of the Fivetran connector (the loop of `queryApiCursors_`).

  The loop is written over an abstract fetch oracle and an abstract status
  classifier. `PagesVisited` is the sequence of pages the loop walks through
  when no early exit happens; `Selected` is what it collects from their items.
  With the connector's real classifier every continuation call is muted and
  therefore throws, so only the first page is ever visited.
*/
module FivetranPager {
  import opened Wrappers
  import opened FivetranFilters
  import opened FivetranHttp

  /**
    The outcomes of the fetches one query makes: the first fetch, then the
    continuation fetches in order. A query that asks for more continuations
    than the oracle holds sees the extra fetches fail.
  */
  datatype Oracle = Oracle(first: Fetch, continuations: seq<Fetch>)

  /** The loop condition of line 137 as written: `apiCursor !== null || apiCursor !== undefined`. */
  predicate LoopGuard(apiCursor: Cursor) {
    apiCursor != Null || apiCursor != Undefined
  }

  /** The loop condition never ends the loop: no cursor is both null and undefined. */
  lemma LoopGuardAlwaysTrue(apiCursor: Cursor)
    ensures LoopGuard(apiCursor)
  {
  }

  /**
    The page a continuation request yields: the muted `makeCallToApi_` of line
    157 followed by decoding; None when the call throws or the body has no
    `data` listing.
  */
  function ContinuationPage(fetched: Fetch, accept: Classifier): (r: Option<Page>)
    ensures r.Some? <==> fetched.Received? && accept(fetched.response.code, true)
                         && fetched.response.parsed.Value? && fetched.response.body.Listing?
    ensures r.Some? ==> fetched.response.body == Listing(r.value)
  {
    match MakeCallToApi(fetched, true, accept)
    case Err(_) => None
    case Ok(response) => if response.body.Listing? then Some(response.body.page) else None
  }

  /**
    The pages the loop visits from `page` on, when it does not exit early:
    each continuation either yields the next page or ends the walk.
  */
  function PagesVisited(page: Page, continuations: seq<Fetch>, from: nat, accept: Classifier): (r: seq<Page>)
    requires from <= |continuations|
    ensures 1 <= |r| <= |continuations| - from + 1
    ensures r[0] == page
    decreases |continuations| - from
  {
    [page] + (
      if from == |continuations| then []
      else match ContinuationPage(continuations[from], accept)
        case None => []
        case Some(next) => PagesVisited(next, continuations, from + 1, accept))
  }

  /** The cursor each page hands on, page after page. */
  function NextCursors(pages: seq<Page>): (r: seq<Cursor>)
    ensures |r| == |pages|
    ensures forall i :: 0 <= i < |pages| ==> r[i] == pages[i].nextCursor
  {
    if pages == [] then [] else [pages[0].nextCursor] + NextCursors(pages[1..])
  }

  /** The items of the pages, page after page. */
  function AllItems(pages: seq<Page>): seq<Item> {
    if pages == [] then [] else pages[0].items + AllItems(pages[1..])
  }

  /** The items the compiled condition accepts, in their order. */
  function Matching(c: Condition, items: seq<Item>): (r: seq<Item>)
    ensures |r| <= |items|
  {
    if items == [] then []
    else (if Holds(c, items[0]) then [items[0]] else []) + Matching(c, items[1..])
  }

  /** The first accepted item, if any. */
  function FirstMatch(c: Condition, items: seq<Item>): (r: seq<Item>)
    ensures |r| <= 1 && |r| <= |items|
  {
    var m := Matching(c, items);
    if m == [] then [] else [m[0]]
  }

  /**
    What the loop collects from `items`: all of them when no filter is
    required, otherwise the accepted ones, only the first when `exitOnTrue`.
  */
  function Selected(items: seq<Item>, filterRequired: bool, c: Condition, exitOnTrue: bool): (r: seq<Item>)
    ensures |r| <= |items|
    ensures filterRequired && exitOnTrue ==> |r| <= 1
  {
    if !filterRequired then items
    else if exitOnTrue then FirstMatch(c, items)
    else Matching(c, items)
  }

  /** Filtering distributes over concatenation, so it keeps the items' order. */
  lemma {:induction false} MatchingAppend(c: Condition, a: seq<Item>, b: seq<Item>)
    ensures Matching(c, a + b) == Matching(c, a) + Matching(c, b)
  {
    if a == [] {
      assert a + b == b;
    } else {
      var head := if Holds(c, a[0]) then [a[0]] else [];
      assert (a + b)[0] == a[0] && (a + b)[1..] == a[1..] + b;
      MatchingAppend(c, a[1..], b);
      assert Matching(c, a + b) == head + (Matching(c, a[1..]) + Matching(c, b));
      assert head + (Matching(c, a[1..]) + Matching(c, b)) == (head + Matching(c, a[1..])) + Matching(c, b);
    }
  }

  /** An item is kept iff it occurs in the input and the condition accepts it. */
  lemma {:induction false} MatchingMembers(c: Condition, items: seq<Item>)
    ensures forall x :: x in Matching(c, items) <==> x in items && Holds(c, x)
  {
    if items != [] {
      MatchingMembers(c, items[1..]);
      assert items == [items[0]] + items[1..];
    }
  }

  /**
    With `exitOnTrue` the result has at most one item, and it is the first
    accepted item of the input; it is empty iff no item is accepted.
  */
  lemma {:induction false} FirstMatchIsFirst(c: Condition, items: seq<Item>)
    ensures |FirstMatch(c, items)| <= 1
    ensures FirstMatch(c, items) == [] <==> forall j :: 0 <= j < |items| ==> !Holds(c, items[j])
    ensures FirstMatch(c, items) != [] ==>
              exists i :: 0 <= i < |items| && items[i] == FirstMatch(c, items)[0] && Holds(c, items[i])
                          && forall j :: 0 <= j < i ==> !Holds(c, items[j])
  {
    if items != [] {
      FirstMatchIsFirst(c, items[1..]);
      if !Holds(c, items[0]) {
        assert FirstMatch(c, items) == FirstMatch(c, items[1..]);
        if FirstMatch(c, items) != [] {
          var i :| 0 <= i < |items[1..]| && items[1..][i] == FirstMatch(c, items)[0] && Holds(c, items[1..][i])
                   && forall j :: 0 <= j < i ==> !Holds(c, items[1..][j]);
          assert items[i + 1] == FirstMatch(c, items)[0];
          assert forall j :: 0 <= j < i + 1 ==> !Holds(c, items[j]) by {
            forall j | 0 <= j < i + 1 ensures !Holds(c, items[j]) {
              if j > 0 { assert items[j] == items[1..][j - 1]; }
            }
          }
        } else {
          forall j | 0 <= j < |items| ensures !Holds(c, items[j]) {
            if j > 0 { assert items[j] == items[1..][j - 1]; }
          }
        }
      } else {
        assert FirstMatch(c, items) == [items[0]];
      }
    }
  }

  /**
    The `itemLoop` of lines 139-154 over one page's items: all of them when no
    filter is required, otherwise the accepted ones in order; with `exitOnTrue`
    it stops at the first accepted item and reports that the paging loop must
    end (the `break cursorPaging` of line 148).
  */
  method ScanPage(items: seq<Item>, isFilterRequired: bool, filterConditions: Condition, exitOnTrue: bool)
    returns (picked: seq<Item>, exitPaging: bool)
    ensures picked == Selected(items, isFilterRequired, filterConditions, exitOnTrue)
    ensures exitPaging <==> isFilterRequired && exitOnTrue && Matching(filterConditions, items) != []
  {
    picked := [];
    exitPaging := false;
    if !isFilterRequired {
      picked := items;
    } else {
      for i := 0 to |items|
        invariant picked == Matching(filterConditions, items[..i])
        invariant exitOnTrue ==> picked == []
      {
        var item := items[i];
        assert items[..i + 1] == items[..i] + [item];
        assert items[..i + 1] + items[i + 1..] == items;
        MatchingAppend(filterConditions, items[..i], [item]);
        if Holds(filterConditions, item) {
          picked := picked + [item];
          if exitOnTrue {
            MatchingAppend(filterConditions, items[..i + 1], items[i + 1..]);
            exitPaging := true;
            return;
          }
        }
      }
      assert items[..|items|] == items;
    }
  }

  /**
    What one page contributes when it is followed by later items: no item
    past the first accepted one changes the selection when `exitOnTrue`
    applies, and otherwise the selections concatenate.
  */
  lemma SelectedCons(items: seq<Item>, later: seq<Item>, isFilterRequired: bool, c: Condition, exitOnTrue: bool)
    ensures !(isFilterRequired && exitOnTrue && Matching(c, items) != []) ==>
              Selected(items + later, isFilterRequired, c, exitOnTrue)
              == Selected(items, isFilterRequired, c, exitOnTrue) + Selected(later, isFilterRequired, c, exitOnTrue)
    ensures isFilterRequired && exitOnTrue && Matching(c, items) != [] ==>
              Selected(items + later, isFilterRequired, c, exitOnTrue) == Selected(items, isFilterRequired, c, exitOnTrue)
  {
    MatchingAppend(c, items, later);
  }

  /**
    One run of the paging loop: the items collected, the loop bodies run, and
    the cursors of the continuation requests made, in order (the request for
    cursor `c` goes to `CursorUrl(url, c)`).
  */
  datatype Walk = Walk(items: seq<Item>, turns: nat, requested: seq<Cursor>)

  /**
    The run of the paging loop from `page` on, step by step as the loop takes
    it: scan the page; stop on an accepted item when `exitOnTrue` applies;
    otherwise request the continuation and go on with the next page unless
    that request fails.
  */
  function WalkFrom(page: Page, continuations: seq<Fetch>, from: nat, isFilterRequired: bool,
                    c: Condition, exitOnTrue: bool, accept: Classifier): Walk
    requires from <= |continuations|
    decreases |continuations| - from
  {
    var picked := Selected(page.items, isFilterRequired, c, exitOnTrue);
    if isFilterRequired && exitOnTrue && Matching(c, page.items) != [] then Walk(picked, 1, [])
    else
      var request := page.nextCursor;
      if from == |continuations| then Walk(picked, 1, [request])
      else match ContinuationPage(continuations[from], accept)
        case None => Walk(picked, 1, [request])
        case Some(next) =>
          var rest := WalkFrom(next, continuations, from + 1, isFilterRequired, c, exitOnTrue, accept);
          Walk(picked + rest.items, 1 + rest.turns, [request] + rest.requested)
  }

  /** The run collects exactly what `Selected` picks from the items of the visited pages. */
  lemma {:induction false} WalkFromItems(page: Page, continuations: seq<Fetch>, from: nat,
                                         isFilterRequired: bool, c: Condition, exitOnTrue: bool, accept: Classifier)
    requires from <= |continuations|
    ensures WalkFrom(page, continuations, from, isFilterRequired, c, exitOnTrue, accept).items
            == Selected(AllItems(PagesVisited(page, continuations, from, accept)), isFilterRequired, c, exitOnTrue)
    decreases |continuations| - from
  {
    var pages := PagesVisited(page, continuations, from, accept);
    SelectedCons(page.items, AllItems(pages[1..]), isFilterRequired, c, exitOnTrue);
    assert AllItems(pages) == page.items + AllItems(pages[1..]);
    if isFilterRequired && exitOnTrue && Matching(c, page.items) != [] {
    } else if from == |continuations| || ContinuationPage(continuations[from], accept).None? {
      assert pages[1..] == [];
      assert AllItems(pages[1..]) == [];
    } else {
      var next := ContinuationPage(continuations[from], accept).value;
      WalkFromItems(next, continuations, from + 1, isFilterRequired, c, exitOnTrue, accept);
      assert pages[1..] == PagesVisited(next, continuations, from + 1, accept);
    }
  }

  /**
    The run makes one loop turn per visited page, unless an early exit on an
    accepted item ends it before the later pages; such an exit is exactly
    the case of a non-empty result under `exitOnTrue`.
  */
  lemma {:induction false} WalkFromTurns(page: Page, continuations: seq<Fetch>, from: nat,
                                         isFilterRequired: bool, c: Condition, exitOnTrue: bool, accept: Classifier)
    requires from <= |continuations|
    ensures var w := WalkFrom(page, continuations, from, isFilterRequired, c, exitOnTrue, accept);
            var pages := PagesVisited(page, continuations, from, accept);
            && 1 <= w.turns <= |pages|
            && (!(isFilterRequired && exitOnTrue && w.items != []) ==> w.turns == |pages|)
            && |w.requested| == (if isFilterRequired && exitOnTrue && w.items != [] then w.turns - 1 else w.turns)
    decreases |continuations| - from
  {
    var w := WalkFrom(page, continuations, from, isFilterRequired, c, exitOnTrue, accept);
    var pages := PagesVisited(page, continuations, from, accept);
    var picked := Selected(page.items, isFilterRequired, c, exitOnTrue);
    if isFilterRequired && exitOnTrue && Matching(c, page.items) != [] {
      assert w == Walk(picked, 1, []);
      assert picked != [];
    } else if from == |continuations| || ContinuationPage(continuations[from], accept).None? {
      assert w == Walk(picked, 1, [page.nextCursor]);
      assert pages == [page];
    } else {
      var next := ContinuationPage(continuations[from], accept).value;
      var rest := WalkFrom(next, continuations, from + 1, isFilterRequired, c, exitOnTrue, accept);
      var restPages := PagesVisited(next, continuations, from + 1, accept);
      WalkFromTurns(next, continuations, from + 1, isFilterRequired, c, exitOnTrue, accept);
      assert w == Walk(picked + rest.items, 1 + rest.turns, [page.nextCursor] + rest.requested);
      assert pages == [page] + restPages;
      assert isFilterRequired && exitOnTrue ==> picked == [];
    }
  }

  lemma PrefixCons<T>(x: T, prefix: seq<T>, a: seq<T>)
    requires |prefix| <= |a| && prefix == a[..|prefix|]
    ensures |[x] + prefix| <= |[x] + a| && [x] + prefix == ([x] + a)[..|prefix| + 1]
  {
  }

  lemma NextCursorsCons(page: Page, pages: seq<Page>)
    ensures NextCursors([page] + pages) == [page.nextCursor] + NextCursors(pages)
  {
    assert ([page] + pages)[1..] == pages;
  }

  /** The run requests the continuation of each page it leaves, with that page's cursor, in order. */
  lemma {:induction false} WalkFromRequests(page: Page, continuations: seq<Fetch>, from: nat,
                                            isFilterRequired: bool, c: Condition, exitOnTrue: bool, accept: Classifier)
    requires from <= |continuations|
    ensures var w := WalkFrom(page, continuations, from, isFilterRequired, c, exitOnTrue, accept);
            var pages := PagesVisited(page, continuations, from, accept);
            |w.requested| <= |pages| && w.requested == NextCursors(pages)[..|w.requested|]
    decreases |continuations| - from
  {
    var w := WalkFrom(page, continuations, from, isFilterRequired, c, exitOnTrue, accept);
    var pages := PagesVisited(page, continuations, from, accept);
    if isFilterRequired && exitOnTrue && Matching(c, page.items) != [] {
      assert w.requested == [];
    } else if from == |continuations| || ContinuationPage(continuations[from], accept).None? {
      assert w.requested == [page.nextCursor];
      assert pages == [page];
      assert NextCursors(pages)[0] == page.nextCursor;
    } else {
      var next := ContinuationPage(continuations[from], accept).value;
      var rest := WalkFrom(next, continuations, from + 1, isFilterRequired, c, exitOnTrue, accept);
      var restPages := PagesVisited(next, continuations, from + 1, accept);
      WalkFromRequests(next, continuations, from + 1, isFilterRequired, c, exitOnTrue, accept);
      assert w.requested == [page.nextCursor] + rest.requested;
      assert pages == [page] + restPages;
      NextCursorsCons(page, restPages);
      PrefixCons(page.nextCursor, rest.requested, NextCursors(restPages));
    }
  }

  /**
    Everything a run of the loop does, stated on the visited pages: what it
    collects, how many turns it takes and which continuations it requests.
  */
  lemma WalkFromMeaning(page: Page, continuations: seq<Fetch>, from: nat,
                        isFilterRequired: bool, c: Condition, exitOnTrue: bool, accept: Classifier)
    requires from <= |continuations|
    ensures var w := WalkFrom(page, continuations, from, isFilterRequired, c, exitOnTrue, accept);
            var pages := PagesVisited(page, continuations, from, accept);
            && w.items == Selected(AllItems(pages), isFilterRequired, c, exitOnTrue)
            && 1 <= w.turns <= |pages|
            && (!(isFilterRequired && exitOnTrue && w.items != []) ==> w.turns == |pages|)
            && |w.requested| == (if isFilterRequired && exitOnTrue && w.items != [] then w.turns - 1 else w.turns)
            && w.requested == NextCursors(pages)[..|w.requested|]
  {
    WalkFromItems(page, continuations, from, isFilterRequired, c, exitOnTrue, accept);
    WalkFromTurns(page, continuations, from, isFilterRequired, c, exitOnTrue, accept);
    WalkFromRequests(page, continuations, from, isFilterRequired, c, exitOnTrue, accept);
  }

  /** The run from a page with an accepted item under `exitOnTrue` stops at that page. */
  lemma WalkFromExit(page: Page, continuations: seq<Fetch>, from: nat, isFilterRequired: bool,
                     c: Condition, exitOnTrue: bool, accept: Classifier)
    requires from <= |continuations|
    requires isFilterRequired && exitOnTrue && Matching(c, page.items) != []
    ensures WalkFrom(page, continuations, from, isFilterRequired, c, exitOnTrue, accept)
            == Walk(Selected(page.items, isFilterRequired, c, exitOnTrue), 1, [])
  {
  }

  /** The run from a page whose continuation request fails ends after that request. */
  lemma WalkFromLast(page: Page, continuations: seq<Fetch>, from: nat, isFilterRequired: bool,
                     c: Condition, exitOnTrue: bool, accept: Classifier)
    requires from <= |continuations|
    requires !(isFilterRequired && exitOnTrue && Matching(c, page.items) != [])
    requires from == |continuations| || ContinuationPage(continuations[from], accept).None?
    ensures WalkFrom(page, continuations, from, isFilterRequired, c, exitOnTrue, accept)
            == Walk(Selected(page.items, isFilterRequired, c, exitOnTrue), 1, [page.nextCursor])
  {
  }

  /** The run from a page whose continuation yields `next` goes on with the run from `next`. */
  lemma WalkFromNext(page: Page, continuations: seq<Fetch>, from: nat, isFilterRequired: bool,
                     c: Condition, exitOnTrue: bool, accept: Classifier, next: Page)
    requires from < |continuations|
    requires !(isFilterRequired && exitOnTrue && Matching(c, page.items) != [])
    requires ContinuationPage(continuations[from], accept) == Some(next)
    ensures var rest := WalkFrom(next, continuations, from + 1, isFilterRequired, c, exitOnTrue, accept);
            WalkFrom(page, continuations, from, isFilterRequired, c, exitOnTrue, accept)
            == Walk(Selected(page.items, isFilterRequired, c, exitOnTrue) + rest.items, 1 + rest.turns,
                    [page.nextCursor] + rest.requested)
  {
  }

  /** The bookkeeping of one loop turn: what is done grows by exactly what the turn collects. */
  lemma WalkRegroup(run: Walk, doneItems: seq<Item>, doneRequests: seq<Cursor>, k: nat, previous: Walk,
                    picked: seq<Item>, request: Cursor, rest: Walk)
    requires run == Walk(doneItems + previous.items, k + previous.turns, doneRequests + previous.requested)
    requires previous == Walk(picked + rest.items, 1 + rest.turns, [request] + rest.requested)
    ensures run == Walk((doneItems + picked) + rest.items, (k + 1) + rest.turns,
                        (doneRequests + [request]) + rest.requested)
  {
    assert doneItems + previous.items == (doneItems + picked) + rest.items;
    assert doneRequests + previous.requested == (doneRequests + [request]) + rest.requested;
  }

  /**
    The loop of `queryApiCursors_` from the first decoded page on (lines
    133-166), with the filter already compiled.

    `pageTurns` counts the loop bodies run; `requested` lists the
    continuation URLs requested, in order.
  */
  method CursorLoop(first: Page, continuations: seq<Fetch>, isFilterRequired: bool,
                    filterConditions: Condition, exitOnTrue: bool, accept: Classifier)
    returns (apiItems: seq<Item>, ghost pageTurns: nat, ghost requested: seq<Cursor>)
    ensures Walk(apiItems, pageTurns, requested)
            == WalkFrom(first, continuations, 0, isFilterRequired, filterConditions, exitOnTrue, accept)
    ensures apiItems == Selected(AllItems(PagesVisited(first, continuations, 0, accept)),
                                 isFilterRequired, filterConditions, exitOnTrue)
    ensures 1 <= pageTurns <= |PagesVisited(first, continuations, 0, accept)|
    ensures |requested| <= |PagesVisited(first, continuations, 0, accept)|
    ensures requested == NextCursors(PagesVisited(first, continuations, 0, accept))[..|requested|]
  {
    ghost var run := WalkFrom(first, continuations, 0, isFilterRequired, filterConditions, exitOnTrue, accept);
    var responsePage := first;
    var apiCursor := first.nextCursor;
    var k := 0;
    apiItems := [];
    pageTurns := 1;
    requested := [];
    ghost var rest := run;

    while LoopGuard(apiCursor)
      invariant 0 <= k <= |continuations| && pageTurns == k + 1
      invariant apiCursor == responsePage.nextCursor
      invariant rest == WalkFrom(responsePage, continuations, k, isFilterRequired,
                                 filterConditions, exitOnTrue, accept)
      invariant run == Walk(apiItems + rest.items, k + rest.turns, requested + rest.requested)
      decreases |continuations| - k
    {
      ghost var doneItems, doneRequests := apiItems, requested;
      var picked, exitPaging := ScanPage(responsePage.items, isFilterRequired, filterConditions, exitOnTrue);
      apiItems := apiItems + picked;
      if exitPaging {
        WalkFromExit(responsePage, continuations, k, isFilterRequired, filterConditions, exitOnTrue, accept);
        break;
      }
      requested := requested + [apiCursor];
      if k == |continuations| {
        // no answer left in the oracle: the fetch fails and the catch of line 161 ends the loop
        WalkFromLast(responsePage, continuations, k, isFilterRequired, filterConditions, exitOnTrue, accept);
        break;
      }
      var next := ContinuationPage(continuations[k], accept);
      if next.None? {
        WalkFromLast(responsePage, continuations, k, isFilterRequired, filterConditions, exitOnTrue, accept);
        break;
      }
      WalkFromNext(responsePage, continuations, k, isFilterRequired, filterConditions, exitOnTrue, accept, next.value);
      ghost var previous := rest;
      rest := WalkFrom(next.value, continuations, k + 1, isFilterRequired, filterConditions, exitOnTrue, accept);
      WalkRegroup(run, doneItems, doneRequests, k, previous, picked, apiCursor, rest);
      k := k + 1;
      responsePage := next.value;
      apiCursor := responsePage.nextCursor;
      pageTurns := pageTurns + 1;
    }
    WalkFromMeaning(first, continuations, 0, isFilterRequired, filterConditions, exitOnTrue, accept);
  }

  /**
    The first page of a query: the unmuted `makeCallToApi_` of line 126, then
    the reads of `data.next_cursor` (line 129) and of `data.items` (line 138).
  */
  function FirstPage(fetched: Fetch, accept: Classifier): (r: Result<Page, ApiError>)
    ensures r.Ok? <==> fetched.Received? && accept(fetched.response.code, false)
                        && fetched.response.parsed.Value? && fetched.response.body.Listing?
    ensures r.Ok? ==> fetched.response.body == Listing(r.value)
    ensures r == Err(NotAListing) <==> MakeCallToApi(fetched, false, accept).Ok? && fetched.response.body.NoData?
    ensures r == Err(ItemsMissing) <==> MakeCallToApi(fetched, false, accept).Ok? && fetched.response.body.NoItems?
    ensures MakeCallToApi(fetched, false, accept).Err? ==> r == Err(MakeCallToApi(fetched, false, accept).error)
  {
    match MakeCallToApi(fetched, false, accept)
    case Err(e) => Err(e)
    case Ok(response) =>
      match response.body
      case NoData => Err(NotAListing)
      case NoItems => Err(ItemsMissing)
      case Listing(page) => Ok(page)
  }

  /**
    The query gets past line 129 to `buildFilterConditions_`, which empties
    the filter list: the first call returned and its body has `data`.
  */
  predicate FiltersConsumed(fetched: Fetch, accept: Classifier) {
    MakeCallToApi(fetched, false, accept).Ok? && !fetched.response.body.NoData?
  }

  /**
    The filter list is consumed exactly when the first page is read, or when
    its `data` has no `items`: that error comes after the list was emptied.
  */
  lemma FiltersConsumedIff(fetched: Fetch, accept: Classifier)
    ensures FiltersConsumed(fetched, accept) <==> FirstPage(fetched, accept).Ok? || FirstPage(fetched, accept) == Err(ItemsMissing)
  {
  }

  /**
    What `queryApiCursors_` returns for the filter specs, `exitOnTrue` and the
    fetch oracle: the error of the first fetch, or what the loop collects.
  */
  function Query(specs: seq<Spec>, exitOnTrue: bool, oracle: Oracle, accept: Classifier): (r: Result<seq<Item>, ApiError>)
    ensures r.Ok? <==> FirstPage(oracle.first, accept).Ok?
    ensures r.Err? ==> r.error == FirstPage(oracle.first, accept).error
    ensures r.Ok? ==> |r.value| <= |AllItems(PagesVisited(FirstPage(oracle.first, accept).value, oracle.continuations, 0, accept))|
    ensures r.Ok? && HasNonEmpty(specs) && exitOnTrue ==> |r.value| <= 1
  {
    match FirstPage(oracle.first, accept)
    case Err(e) => Err(e)
    case Ok(page) =>
      var compiled := Compile(specs);
      Ok(Selected(AllItems(PagesVisited(page, oracle.continuations, 0, accept)),
                  compiled.filterRequired, compiled.condition, exitOnTrue))
  }

  /** With the real classifier the loop never leaves the first page. */
  lemma RealClassifierOnePage(page: Page, continuations: seq<Fetch>, from: nat)
    requires from <= |continuations|
    ensures PagesVisited(page, continuations, from, Accepted) == [page]
  {
    if from < |continuations| {
      MutedCallAlwaysThrows(continuations[from]);
    }
  }

  /**
    With the real classifier, `queryApiCursors_` propagates the first fetch's
    error, and otherwise returns what it selects from the first page's items
    alone: the continuations play no part.
  */
  lemma RealQueryFirstPageOnly(specs: seq<Spec>, exitOnTrue: bool, oracle: Oracle)
    ensures FirstPage(oracle.first, Accepted).Err? ==>
              Query(specs, exitOnTrue, oracle, Accepted) == Err(FirstPage(oracle.first, Accepted).error)
    ensures FirstPage(oracle.first, Accepted).Ok? ==>
              Query(specs, exitOnTrue, oracle, Accepted)
              == Ok(Selected(FirstPage(oracle.first, Accepted).value.items, Compile(specs).filterRequired,
                             Compile(specs).condition, exitOnTrue))
  {
    if FirstPage(oracle.first, Accepted).Ok? {
      var page := FirstPage(oracle.first, Accepted).value;
      RealClassifierOnePage(page, oracle.continuations, 0);
      assert [page][1..] == [];
      assert AllItems([page]) == page.items + AllItems([]) == page.items;
      assert Query(specs, exitOnTrue, oracle, Accepted)
          == Ok(Selected(AllItems(PagesVisited(page, oracle.continuations, 0, Accepted)),
                         Compile(specs).filterRequired, Compile(specs).condition, exitOnTrue));
    }
  }

  /**
    With no filter required `exitOnTrue` has no effect and every item of the
    visited pages comes back in order; with a filter required, the result
    holds exactly the accepted items, and at most one when `exitOnTrue`.
  */
  lemma SelectedSpec(items: seq<Item>, filterRequired: bool, c: Condition, exitOnTrue: bool)
    ensures !filterRequired ==> Selected(items, filterRequired, c, exitOnTrue) == items
    ensures filterRequired && !exitOnTrue ==>
              forall x :: x in Selected(items, filterRequired, c, exitOnTrue) <==> x in items && Holds(c, x)
    ensures filterRequired && exitOnTrue ==> |Selected(items, filterRequired, c, exitOnTrue)| <= 1
  {
    MatchingMembers(c, items);
    FirstMatchIsFirst(c, items);
  }
}
