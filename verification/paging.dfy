/** The paging loop of `fetch_all_announcements_paginated`, run over a
    finite list of responses instead of a live HTTP session.

    Each element of the list answers one request, in order. The loop stops
    at the first parsed page whose `pageHelp.data` is empty or missing; a
    page that is not JSON is skipped (the page number still advances); a
    request failure retries the same page number. When the list runs out
    before an empty page, the run is reported as not finished: the program
    itself would keep requesting. */
module Paging {
  import opened Dates
  import opened Listing

  const PageSize: int := 100
  const CacheSize: int := 1

  /** The query parameters of one request. `title` is `None` when the
      variable holding the filter is `None`; the HTTP client then leaves
      the `TITLE` parameter out. */
  datatype Query = Query(
    securityCode: string,
    startDate: Date,
    endDate: Date,
    pageSize: int,
    cacheSize: int,
    beginPage: int,
    pageNo: int,
    title: Option<string>)

  /** The requests sent, the announcements collected, the responses not
      consumed, and whether an empty page ended the loop. */
  datatype Run = Run(sent: seq<Query>, records: seq<Announcement>, rest: seq<Response>, finished: bool)

  /** A parsed page with no data: the loop's only exit. */
  predicate IsEndPage(r: Response) {
    r.Parsed? && PageData(r.payload) == []
  }

  /** The announcements one response contributes. */
  function PageRecords(r: Response): seq<Announcement> {
    if r.Parsed? then ExtractPage(PageData(r.payload)) else []
  }

  /** The source's `for item in ...: title = item.get("TITLE")`: the
      filter variable is overwritten by every item, kept or not. */
  function RebindTitle(filter: Option<string>, items: seq<Item>): (t: Option<string>)
    ensures items == [] ==> t == filter
    ensures items != [] ==> t == items[|items| - 1].title
    decreases |items|
  {
    if items == [] then filter else RebindTitle(items[0].title, items[1..])
  }

  function Prepend(q: Query, records: seq<Announcement>, run: Run): Run {
    run.(sent := [q] + run.sent, records := records + run.records)
  }

  /** The page number after a response that is not an end page: a request
      failure retries the same page; a body that is not JSON is skipped and
      a page with data is consumed, both moving on to the next page. */
  function NextPage(page: int, r: Response): (p: int)
    ensures p == page || p == page + 1
    ensures p == page <==> r.NetworkError?
  {
    if r.NetworkError? then page else page + 1
  }

  /** The filter after a response that is not an end page: only the item
      loop of a page with data rebinds it. */
  function NextFilter(filter: Option<string>, r: Response): Option<string> {
    if r.Parsed? then RebindTitle(filter, Flatten(PageData(r.payload))) else filter
  }

  /** The loop body, from page number `page` with filter `filter`. Each
      response is answered by one request for page `page` with the current
      filter. An end page stops the loop; any other response contributes
      its records and moves the page number and filter on (see `NextPage`
      and `NextFilter`), and the loop goes on with the next response. */
  function Fetch(code: string, range: DateRange, page: int, filter: Option<string>,
                 responses: seq<Response>): (run: Run)
    ensures |run.sent| + |run.rest| == |responses|
    ensures run.rest == responses[|run.sent|..]
    ensures run.finished ==> 0 < |run.sent| && IsEndPage(responses[|run.sent| - 1])
    ensures !run.finished ==> run.rest == []
    decreases |responses|
  {
    if responses == [] then Run([], [], [], false)
    else
      var r := responses[0];
      var q := Query(code, range.lo, range.hi, PageSize, CacheSize, page, page, filter);
      if IsEndPage(r) then Run([q], [], responses[1..], true)
      else Prepend(q, PageRecords(r), Fetch(code, range, NextPage(page, r), NextFilter(filter, r), responses[1..]))
  }

  // ---------------------------------------------------------------------
  // Reference definitions, each a function of the first `n` responses,
  // read from the most recent one backwards.
  // ---------------------------------------------------------------------

  /** Every announcement of every parsed page among the first `n`
      responses, in page order. */
  function RecordsOf(s: seq<Response>, n: nat): seq<Announcement>
    requires n <= |s|
  {
    Gather(PageRecords, s, n)
  }

  /** `f` of each of the first `n` responses, concatenated in order. */
  function Gather<T>(f: Response -> seq<T>, s: seq<Response>, n: nat): seq<T>
    requires n <= |s|
  {
    if n == 0 then [] else Gather(f, s, n - 1) + f(s[n - 1])
  }

  /** How many of the first `n` responses moved the page counter on: all
      but request failures. */
  function Advances(s: seq<Response>, n: nat): nat
    requires n <= |s|
  {
    if n == 0 then 0 else Advances(s, n - 1) + (if s[n - 1].NetworkError? then 0 else 1)
  }

  /** How many of the first `n` responses are end pages. */
  function EndPages(s: seq<Response>, n: nat): nat
    requires n <= |s|
  {
    if n == 0 then 0 else EndPages(s, n - 1) + (if IsEndPage(s[n - 1]) then 1 else 0)
  }

  /** Whether a response is a parsed page holding at least one item. */
  predicate HasItems(r: Response) {
    r.Parsed? && Flatten(PageData(r.payload)) != []
  }

  /** The TITLE of a page's last item. */
  function LastItemTitle(r: Response): Option<string>
    requires HasItems(r)
  {
    var items := Flatten(PageData(r.payload));
    items[|items| - 1].title
  }

  /** The TITLE filter in force after the first `n` responses: the TITLE
      of the last item of the most recent page that had items, or
      `initial` if none had. */
  function LastFilter(initial: Option<string>, s: seq<Response>, n: nat): Option<string>
    requires n <= |s|
  {
    if n == 0 then initial
    else if HasItems(s[n - 1]) then LastItemTitle(s[n - 1])
    else LastFilter(initial, s, n - 1)
  }

  // ---------------------------------------------------------------------
  // Splitting laws: the first k1 + k2 responses are the first k1 followed
  // by the first k2 of what remains.
  // ---------------------------------------------------------------------

  /** Appending to a concatenation; stated once, over any element type, so
      that proofs about records lists need not rediscover it. */
  lemma AppendStep<T>(x: seq<T>, a: seq<T>, b: seq<T>, last: seq<T>)
    requires x == a + b
    ensures x + last == a + (b + last)
  {
  }

  lemma {:induction false} GatherSplit<T>(f: Response -> seq<T>, s: seq<Response>, k1: nat, k2: nat)
    requires k1 + k2 <= |s|
    ensures Gather(f, s, k1 + k2) == Gather(f, s, k1) + Gather(f, s[k1..], k2)
    decreases k2
  {
    if k2 > 0 {
      assert s[k1..][k2 - 1] == s[k1 + k2 - 1];
      GatherSplit(f, s, k1, k2 - 1);
      AppendStep(Gather(f, s, k1 + k2 - 1), Gather(f, s, k1), Gather(f, s[k1..], k2 - 1), f(s[k1 + k2 - 1]));
    }
  }

  lemma GatherOne<T>(f: Response -> seq<T>, s: seq<Response>)
    requires s != []
    ensures Gather(f, s, 1) == f(s[0])
  {
    assert Gather(f, s, 1) == Gather(f, s, 0) + f(s[0]);
  }

  lemma RecordsOfSplit(s: seq<Response>, k1: nat, k2: nat)
    requires k1 + k2 <= |s|
    ensures RecordsOf(s, k1 + k2) == RecordsOf(s, k1) + RecordsOf(s[k1..], k2)
  {
    GatherSplit(PageRecords, s, k1, k2);
  }

  /** Records of two consecutive stretches of responses, joined. */
  lemma RecordsOfJoin(s: seq<Response>, k1: nat, k2: nat, total: nat, rest: seq<Response>,
                      x: seq<Announcement>, y: seq<Announcement>, xy: seq<Announcement>)
    requires total == k1 + k2 <= |s| && rest == s[k1..]
    requires x == RecordsOf(s, k1) && y == RecordsOf(rest, k2) && xy == x + y
    ensures xy == RecordsOf(s, total)
  {
    RecordsOfSplit(s, k1, k2);
  }

  lemma {:induction false} AdvancesSplit(s: seq<Response>, k1: nat, k2: nat)
    requires k1 + k2 <= |s|
    ensures Advances(s, k1 + k2) == Advances(s, k1) + Advances(s[k1..], k2)
    decreases k2
  {
    if k2 > 0 {
      AdvancesSplit(s, k1, k2 - 1);
      assert s[k1..][k2 - 1] == s[k1 + k2 - 1];
    }
  }

  lemma {:induction false} EndPagesSplit(s: seq<Response>, k1: nat, k2: nat)
    requires k1 + k2 <= |s|
    ensures EndPages(s, k1 + k2) == EndPages(s, k1) + EndPages(s[k1..], k2)
    decreases k2
  {
    if k2 > 0 {
      EndPagesSplit(s, k1, k2 - 1);
      assert s[k1..][k2 - 1] == s[k1 + k2 - 1];
    }
  }

  lemma {:induction false} LastFilterSplit(initial: Option<string>, s: seq<Response>, k1: nat, k2: nat)
    requires k1 + k2 <= |s|
    ensures LastFilter(initial, s, k1 + k2) == LastFilter(LastFilter(initial, s, k1), s[k1..], k2)
    decreases k2
  {
    if k2 > 0 {
      LastFilterSplit(initial, s, k1, k2 - 1);
      assert s[k1..][k2 - 1] == s[k1 + k2 - 1];
    }
  }

  // ---------------------------------------------------------------------
  // Properties of the loop.
  // ---------------------------------------------------------------------

  /** The page number, filter and records after the first response, when
      it is not an end page, agree with the reference definitions. */
  lemma FirstStep(page: int, filter: Option<string>, s: seq<Response>)
    requires s != [] && !IsEndPage(s[0])
    ensures NextPage(page, s[0]) == page + Advances(s, 1)
    ensures NextFilter(filter, s[0]) == LastFilter(filter, s, 1)
    ensures PageRecords(s[0]) == RecordsOf(s, 1)
  {
    GatherOne(PageRecords, s);
  }

  /** One step of the loop, uniformly for every response but an end page:
      one request, the page's records, then the loop from the next page
      number and filter on the remaining responses. */
  lemma FetchStep(code: string, range: DateRange, page: int, filter: Option<string>,
                  responses: seq<Response>)
    requires responses != [] && !IsEndPage(responses[0])
    ensures var run := Fetch(code, range, page, filter, responses);
      var sub := Fetch(code, range, NextPage(page, responses[0]), NextFilter(filter, responses[0]),
                       responses[1..]);
      && run.sent == [Query(code, range.lo, range.hi, PageSize, CacheSize, page, page, filter)] + sub.sent
      && run.records == PageRecords(responses[0]) + sub.records
      && run.finished == sub.finished
  {
  }

  /** The end-page facts carried over one step that is not an end page. */
  lemma StopsStep(s: seq<Response>, rest: seq<Response>, n: nat, m: nat, finished: bool)
    requires s != [] && rest == s[1..] && !IsEndPage(s[0]) && n == m + 1 && m <= |rest|
    requires forall j :: 0 <= j < m - 1 ==> !IsEndPage(rest[j])
    requires finished <==> exists j :: 0 <= j < |rest| && IsEndPage(rest[j])
    ensures forall j :: 0 <= j < n - 1 ==> !IsEndPage(s[j])
    ensures finished <==> exists j :: 0 <= j < |s| && IsEndPage(s[j])
  {
    forall j | 0 <= j < n - 1
      ensures !IsEndPage(s[j])
    {
      if j > 0 {
        assert s[j] == rest[j - 1];
      }
    }
    if exists j :: 0 <= j < |s| && IsEndPage(s[j]) {
      var j :| 0 <= j < |s| && IsEndPage(s[j]);
      assert rest[j - 1] == s[j];
    }
    if finished {
      var j :| 0 <= j < |rest| && IsEndPage(rest[j]);
      assert s[j + 1] == rest[j];
    }
  }

  /** Termination: the loop stops at the FIRST end page. It finishes exactly
      when the responses hold an end page, and no response answered before
      the last one sent is an end page. */
  lemma {:induction false} FetchStopsAtFirstEndPage(code: string, range: DateRange, page: int,
                                                    filter: Option<string>, responses: seq<Response>)
    ensures var run := Fetch(code, range, page, filter, responses);
      && (forall j :: 0 <= j < |run.sent| - 1 ==> !IsEndPage(responses[j]))
      && (run.finished <==> exists j :: 0 <= j < |responses| && IsEndPage(responses[j]))
    decreases |responses|
  {
    var run := Fetch(code, range, page, filter, responses);
    if responses == [] {
      assert !run.finished && run.sent == [];
    } else if IsEndPage(responses[0]) {
      assert run.finished && |run.sent| == 1;
    } else {
      var rs := responses[1..];
      var page' := NextPage(page, responses[0]);
      var filter' := NextFilter(filter, responses[0]);
      FetchStep(code, range, page, filter, responses);
      FetchStopsAtFirstEndPage(code, range, page', filter', rs);
      var sub := Fetch(code, range, page', filter', rs);
      StopsStep(responses, rs, |run.sent|, |sub.sent|, run.finished);
    }
  }

  /** Result: the announcements collected are those of every page answered,
      in page order, concatenated. */
  lemma {:induction false} FetchCollectsRecords(code: string, range: DateRange, page: int,
                                                filter: Option<string>, responses: seq<Response>)
    ensures var run := Fetch(code, range, page, filter, responses);
      run.records == RecordsOf(responses, |run.sent|)
    decreases |responses|
  {
    var run := Fetch(code, range, page, filter, responses);
    if responses == [] {
      assert run.records == [] && run.sent == [];
    } else if IsEndPage(responses[0]) {
      assert run.records == [] && |run.sent| == 1;
      GatherOne(PageRecords, responses);
    } else {
      var r := responses[0];
      var page' := NextPage(page, r);
      var filter' := NextFilter(filter, r);
      FetchStep(code, range, page, filter, responses);
      FetchCollectsRecords(code, range, page', filter', responses[1..]);
      var sub := Fetch(code, range, page', filter', responses[1..]);
      FirstStep(page, filter, responses);
      RecordsOfJoin(responses, 1, |sub.sent|, |run.sent|, responses[1..],
                    PageRecords(r), sub.records, run.records);
    }
  }

  /** The request the reference definitions predict for the response at
      index `i`, for a loop started at page `page` with filter `filter`:
      fixed code, dates, page size and cache size; `beginPage` and `pageNo`
      both equal the page counter, which has moved on once for every
      earlier response that was not a request failure; and the TITLE filter
      is the one in force after the earlier responses. */
  function Expected(code: string, range: DateRange, page: int, filter: Option<string>,
                    s: seq<Response>, i: nat): Query
    requires i <= |s|
  {
    Query(code, range.lo, range.hi, PageSize, CacheSize,
          page + Advances(s, i), page + Advances(s, i), LastFilter(filter, s, i))
  }

  /** The prediction for index `i`, seen from the loop's state after the
      first response, is the prediction for index `i + 1` of the whole. */
  lemma ShiftQuery(code: string, range: DateRange, page: int, filter: Option<string>,
                   s: seq<Response>, i: nat)
    requires 0 < i <= |s| && !IsEndPage(s[0])
    ensures Expected(code, range, NextPage(page, s[0]), NextFilter(filter, s[0]), s[1..], i - 1)
         == Expected(code, range, page, filter, s, i)
  {
    FirstStep(page, filter, s);
    AdvancesSplit(s, 1, i - 1);
    LastFilterSplit(filter, s, 1, i - 1);
  }

  /** The request facts carried over one step that is not an end page. */
  lemma QueriesStep(code: string, range: DateRange, page: int, filter: Option<string>,
                    page': int, filter': Option<string>, s: seq<Response>, rest: seq<Response>,
                    sent: seq<Query>, subSent: seq<Query>)
    requires s != [] && rest == s[1..] && !IsEndPage(s[0]) && |subSent| <= |rest|
    requires page' == NextPage(page, s[0]) && filter' == NextFilter(filter, s[0])
    requires sent == [Query(code, range.lo, range.hi, PageSize, CacheSize, page, page, filter)] + subSent
    requires forall i :: 0 <= i < |subSent| ==> subSent[i] == Expected(code, range, page', filter', rest, i)
    ensures forall i :: 0 <= i < |sent| ==> sent[i] == Expected(code, range, page, filter, s, i)
  {
    forall i | 0 <= i < |sent|
      ensures sent[i] == Expected(code, range, page, filter, s, i)
    {
      if i > 0 {
        assert sent[i] == subSent[i - 1];
        ShiftQuery(code, range, page, filter, s, i);
      }
    }
  }

  /** The requests the loop sends are exactly the predicted ones. */
  lemma {:induction false} FetchQueries(code: string, range: DateRange, page: int,
                                        filter: Option<string>, responses: seq<Response>)
    ensures var run := Fetch(code, range, page, filter, responses);
      forall i :: 0 <= i < |run.sent| ==> run.sent[i] == Expected(code, range, page, filter, responses, i)
    decreases |responses|
  {
    var run := Fetch(code, range, page, filter, responses);
    if responses != [] && !IsEndPage(responses[0]) {
      var rs := responses[1..];
      var page' := NextPage(page, responses[0]);
      var filter' := NextFilter(filter, responses[0]);
      FetchStep(code, range, page, filter, responses);
      FetchQueries(code, range, page', filter', rs);
      var sub := Fetch(code, range, page', filter', rs);
      QueriesStep(code, range, page, filter, page', filter', responses, rs, run.sent, sub.sent);
    }
  }

  /** `fetch_all_announcements_paginated`: the page counter starts at 1 and
      the first filter is the caller's title. */
  function FetchAll(code: string, range: DateRange, title: string, responses: seq<Response>): (run: Run)
    ensures |run.sent| + |run.rest| == |responses|
    ensures run.rest == responses[|run.sent|..]
    ensures run.finished ==> 0 < |run.sent| && IsEndPage(responses[|run.sent| - 1])
    ensures !run.finished ==> run.rest == []
  {
    Fetch(code, range, 1, Some(title), responses)
  }

  /** What one call of `fetch_all_announcements_paginated` does with a
      response stream: it stops at the first end page and only there; it
      returns the announcements of every page answered, in page order; and
      its i-th request carries the security code and range, page size 100
      and cache size 1, `beginPage == pageNo == 1 + ` the number of earlier
      responses that were not request failures, and the TITLE filter left
      by the earlier responses (initially the caller's title). */
  lemma FetchAllContract(code: string, range: DateRange, title: string, responses: seq<Response>)
    ensures var run := FetchAll(code, range, title, responses);
      && (run.finished <==> exists j :: 0 <= j < |responses| && IsEndPage(responses[j]))
      && (forall j :: 0 <= j < |run.sent| - 1 ==> !IsEndPage(responses[j]))
      && run.records == RecordsOf(responses, |run.sent|)
      && forall i :: 0 <= i < |run.sent| ==>
        && run.sent[i].securityCode == code
        && run.sent[i].startDate == range.lo && run.sent[i].endDate == range.hi
        && run.sent[i].pageSize == PageSize && run.sent[i].cacheSize == CacheSize
        && run.sent[i].beginPage == run.sent[i].pageNo == 1 + Advances(responses, i)
        && run.sent[i].title == LastFilter(Some(title), responses, i)
  {
    FetchStopsAtFirstEndPage(code, range, 1, Some(title), responses);
    FetchCollectsRecords(code, range, 1, Some(title), responses);
    FetchQueries(code, range, 1, Some(title), responses);
  }

  /** Page counter, step by step: the first request asks for page 1 with
      the caller's filter; each later request asks for the previous page
      number plus one, unless the previous request failed, in which case it
      asks for the same page again. */
  lemma FetchAllPageSteps(code: string, range: DateRange, title: string, responses: seq<Response>)
    ensures var run := FetchAll(code, range, title, responses);
      && (0 < |run.sent| ==> run.sent[0].pageNo == 1 && run.sent[0].title == Some(title))
      && forall i, j :: 0 <= i && j == i + 1 && j < |run.sent| ==>
           run.sent[j].pageNo == run.sent[i].pageNo + (if responses[i].NetworkError? then 0 else 1)
  {
    var run := FetchAll(code, range, title, responses);
    FetchQueries(code, range, 1, Some(title), responses);
    forall i, j | 0 <= i && j == i + 1 && j < |run.sent|
      ensures run.sent[j].pageNo == run.sent[i].pageNo + (if responses[i].NetworkError? then 0 else 1)
    {
      assert Advances(responses, j) == Advances(responses, i) + (if responses[i].NetworkError? then 0 else 1);
    }
  }

  /** Title-filter shadowing, step by step: after a page with items the
      next request's TITLE is that of the page's last item (whether or not
      that item was kept); after any other response it is unchanged. */
  lemma FetchAllTitleSteps(code: string, range: DateRange, title: string, responses: seq<Response>)
    ensures var run := FetchAll(code, range, title, responses);
      forall i, j :: 0 <= i && j == i + 1 && j < |run.sent| ==>
        run.sent[j].title ==
          if HasItems(responses[i]) then LastItemTitle(responses[i]) else run.sent[i].title
  {
    var run := FetchAll(code, range, title, responses);
    FetchQueries(code, range, 1, Some(title), responses);
    forall i, j | 0 <= i && j == i + 1 && j < |run.sent|
      ensures run.sent[j].title ==
        if HasItems(responses[i]) then LastItemTitle(responses[i]) else run.sent[i].title
    {
      assert LastFilter(Some(title), responses, j) ==
        if HasItems(responses[i]) then LastItemTitle(responses[i]) else LastFilter(Some(title), responses, i);
    }
  }

  /** The records gathered by one fetch are those of the responses it consumed. */
  lemma FetchAllRecords(code: string, range: DateRange, title: string, responses: seq<Response>)
    ensures var run := FetchAll(code, range, title, responses);
      run.records == RecordsOf(responses, |run.sent|)
  {
    FetchCollectsRecords(code, range, 1, Some(title), responses);
  }

  /** Every request of one fetch asks about that fetch's date range. */
  lemma FetchAllRange(code: string, range: DateRange, title: string, responses: seq<Response>)
    ensures var run := FetchAll(code, range, title, responses);
      forall i :: 0 <= i < |run.sent| ==>
        run.sent[i].startDate == range.lo && run.sent[i].endDate == range.hi
  {
    var run := Fetch(code, range, 1, Some(title), responses);
    FetchQueries(code, range, 1, Some(title), responses);
    forall i | 0 <= i < |run.sent|
      ensures run.sent[i].startDate == range.lo && run.sent[i].endDate == range.hi
    {
      assert run.sent[i] == Expected(code, range, 1, Some(title), responses, i);
    }
  }
}
