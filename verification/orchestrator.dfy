/** The script's main sequence: split the requested dates into calendar
    years, fetch every year's announcements over one shared session, then
    plan one download per announcement, in list order. */
module Orchestrator {
  import opened Dates
  import opened Listing
  import opened Paging
  import opened Splitter
  import opened Filenames

  /** One planned download: fetch `url` and write it to `path`. */
  datatype Download = Download(url: string, path: string)

  /** How a run ends: an exception reached the top-level handler (the
      splitter overflowed) and the run stopped before any listing request, the
      responses ran out while the program was still paging, or every range
      was fetched and the downloads were planned. */
  datatype Outcome =
    | Aborted
    | StillPaging(sent: seq<Query>)
    | Completed(sent: seq<Query>, announcements: seq<Announcement>, downloads: seq<Download>)

  /** Responses without end pages count none. */
  lemma {:induction false} NoEndPages(s: seq<Response>, n: nat)
    requires n <= |s|
    requires forall j :: 0 <= j < n ==> !IsEndPage(s[j])
    ensures EndPages(s, n) == 0
    decreases n
  {
    if n > 0 {
      NoEndPages(s, n - 1);
    }
  }

  /** The responses one fetch consumed hold exactly one end page if it
      finished, and none otherwise. */
  lemma FetchAllEndPages(code: string, range: DateRange, title: string, responses: seq<Response>)
    ensures var run := FetchAll(code, range, title, responses);
      EndPages(responses, |run.sent|) == if run.finished then 1 else 0
  {
    var run := FetchAll(code, range, title, responses);
    var k := |run.sent|;
    FetchStopsAtFirstEndPage(code, range, 1, Some(title), responses);
    if run.finished {
      NoEndPages(responses, k - 1);
    } else {
      NoEndPages(responses, k);
    }
  }

  /** The date range a query asks about. */
  function QueryRange(q: Query): DateRange {
    DateRange(q.startDate, q.endDate)
  }

  /** Queries about the first range followed by queries about the remaining
      ranges all ask about one of the ranges. */
  lemma JoinQueryRanges(ranges: seq<DateRange>, a: seq<Query>, b: seq<Query>)
    requires 0 < |ranges|
    requires forall i :: 0 <= i < |a| ==> QueryRange(a[i]) == ranges[0]
    requires forall i :: 0 <= i < |b| ==> QueryRange(b[i]) in ranges[1..]
    ensures forall i :: 0 <= i < |a + b| ==> QueryRange((a + b)[i]) in ranges
  {
    forall i | 0 <= i < |a + b|
      ensures QueryRange((a + b)[i]) in ranges
    {
      if i < |a| {
        assert (a + b)[i] == a[i];
      } else {
        assert (a + b)[i] == b[i - |a|];
        var j :| 0 <= j < |ranges[1..]| && ranges[1..][j] == QueryRange(b[i - |a|]);
        assert ranges[1..][j] == ranges[j + 1];
      }
    }
  }

  /** The loop over the yearly ranges: each range is fetched from page 1
      with the caller's title, the response stream is shared, and the
      results are concatenated in range order. Each response answers one
      request; a range whose fetch runs out of responses ends the run. */
  function CollectAll(code: string, ranges: seq<DateRange>, title: string,
                      responses: seq<Response>): (run: Run)
    ensures |run.sent| + |run.rest| == |responses|
    ensures run.rest == responses[|run.sent|..]
    ensures !run.finished ==> run.rest == []
    decreases |ranges|
  {
    if ranges == [] then Run([], [], responses, true)
    else
      var first := FetchAll(code, ranges[0], title, responses);
      if !first.finished then first
      else
        var more := CollectAll(code, ranges[1..], title, first.rest);
        Run(first.sent + more.sent, first.records + more.records, more.rest, more.finished)
  }

  /** One step of the loop over the ranges, spelled out for a first range
      whose fetch met its end page. */
  lemma CollectAllStep(code: string, ranges: seq<DateRange>, title: string, responses: seq<Response>)
    requires ranges != [] && FetchAll(code, ranges[0], title, responses).finished
    ensures var first := FetchAll(code, ranges[0], title, responses);
      var more := CollectAll(code, ranges[1..], title, first.rest);
      var run := CollectAll(code, ranges, title, responses);
      && run.sent == first.sent + more.sent
      && run.records == first.records + more.records
      && run.finished == more.finished
  {
  }

  /** End pages of two consecutive stretches of responses, added: one end
      page in the first and `n` in the second make `n + 1`. */
  lemma EndPagesJoin(s: seq<Response>, k1: nat, k2: nat, total: nat, rest: seq<Response>, n: nat)
    requires total == k1 + k2 <= |s| && rest == s[k1..]
    requires EndPages(s, k1) == 1 && EndPages(rest, k2) == n
    ensures EndPages(s, total) == n + 1
  {
    EndPagesSplit(s, k1, k2);
  }

  /** The announcements collected over all ranges are those of every
      parsed page answered, in order: nothing is dropped at a range
      boundary and nothing is deduplicated. */
  lemma {:induction false} CollectAllRecords(code: string, ranges: seq<DateRange>, title: string,
                                             responses: seq<Response>)
    ensures var run := CollectAll(code, ranges, title, responses);
      run.records == RecordsOf(responses, |run.sent|)
    decreases |ranges|
  {
    var run := CollectAll(code, ranges, title, responses);
    if ranges == [] {
      assert run.records == [] && run.sent == [];
    } else {
      var first := FetchAll(code, ranges[0], title, responses);
      FetchAllRecords(code, ranges[0], title, responses);
      if first.finished {
        var more := CollectAll(code, ranges[1..], title, first.rest);
        CollectAllRecords(code, ranges[1..], title, first.rest);
        CollectAllStep(code, ranges, title, responses);
        RecordsOfJoin(responses, |first.sent|, |more.sent|, |run.sent|, first.rest,
                      first.records, more.records, run.records);
      } else {
        assert run == first;
      }
    }
  }

  /** The run finishes exactly when every range has met its end page: a
      finished run consumed one end page per range, and an unfinished one
      ran out with fewer end pages than ranges. */
  lemma {:induction false} CollectAllEndPages(code: string, ranges: seq<DateRange>, title: string,
                                              responses: seq<Response>)
    ensures var run := CollectAll(code, ranges, title, responses);
      && (run.finished ==> EndPages(responses, |run.sent|) == |ranges|)
      && (!run.finished ==> EndPages(responses, |responses|) < |ranges|)
    decreases |ranges|
  {
    if ranges != [] {
      var first := FetchAll(code, ranges[0], title, responses);
      FetchAllEndPages(code, ranges[0], title, responses);
      if first.finished {
        var more := CollectAll(code, ranges[1..], title, first.rest);
        CollectAllEndPages(code, ranges[1..], title, first.rest);
        CollectAllStep(code, ranges, title, responses);
        if more.finished {
          EndPagesJoin(responses, |first.sent|, |more.sent|,
                       |CollectAll(code, ranges, title, responses).sent|, first.rest, |ranges| - 1);
        } else {
          EndPagesJoin(responses, |first.sent|, |first.rest|, |responses|, first.rest,
                       EndPages(first.rest, |first.rest|));
        }
      } else {
        assert CollectAll(code, ranges, title, responses) == first;
        assert |first.sent| == |responses|;
      }
    } else {
      assert CollectAll(code, ranges, title, responses).sent == [];
      assert EndPages(responses, 0) == 0;
    }
  }

  /** Every query asks about one of the ranges. */
  lemma {:induction false} CollectAllQueryRanges(code: string, ranges: seq<DateRange>, title: string,
                                                 responses: seq<Response>)
    ensures var run := CollectAll(code, ranges, title, responses);
      forall i :: 0 <= i < |run.sent| ==> QueryRange(run.sent[i]) in ranges
    decreases |ranges|
  {
    if ranges != [] {
      var first := FetchAll(code, ranges[0], title, responses);
      FetchAllRange(code, ranges[0], title, responses);
      if first.finished {
        var more := CollectAll(code, ranges[1..], title, first.rest);
        CollectAllQueryRanges(code, ranges[1..], title, first.rest);
        CollectAllStep(code, ranges, title, responses);
        JoinQueryRanges(ranges, first.sent, more.sent);
      } else {
        forall i | 0 <= i < |first.sent|
          ensures QueryRange(first.sent[i]) in ranges
        {
          assert QueryRange(first.sent[i]) == ranges[0];
        }
      }
    }
  }

  /** The requests `sent`, no more than the responses `s` that answer them, go through
      `ranges` in order: the request answered by response `i` asks about
      range number "end pages among the first `i` responses", and every
      request that opens a range (the first one, or the one after an end
      page) asks for page 1 with the caller's title. */
  predicate InRangeOrder(ranges: seq<DateRange>, title: string, s: seq<Response>, sent: seq<Query>) {
    && |sent| <= |s|
    && forall i :: 0 <= i < |sent| ==>
      && EndPages(s, i) < |ranges|
      && QueryRange(sent[i]) == ranges[EndPages(s, i)]
      && ((i == 0 || IsEndPage(s[i - 1])) ==> sent[i].pageNo == 1 && sent[i].title == Some(title))
  }

  /** One fetch of the first range asks only about that range, starting
      at page 1 with the caller's title. */
  lemma FirstRangeInOrder(code: string, ranges: seq<DateRange>, title: string, responses: seq<Response>)
    requires ranges != []
    ensures var first := FetchAll(code, ranges[0], title, responses);
      InRangeOrder(ranges, title, responses, first.sent)
  {
    var first := FetchAll(code, ranges[0], title, responses);
    FetchAllRange(code, ranges[0], title, responses);
    FetchAllPageSteps(code, ranges[0], title, responses);
    FetchAllContract(code, ranges[0], title, responses);
    forall i | 0 <= i < |first.sent|
      ensures EndPages(responses, i) == 0
    {
      NoEndPages(responses, i);
    }
  }

  /** A first range followed by the remaining ranges, each in order, are
      in order together. */
  lemma InRangeOrderJoin(ranges: seq<DateRange>, title: string, s: seq<Response>, rest: seq<Response>,
                         firstSent: seq<Query>, moreSent: seq<Query>, sent: seq<Query>)
    requires ranges != [] && 0 < |firstSent| && |firstSent| + |moreSent| <= |s|
    requires rest == s[|firstSent|..] && sent == firstSent + moreSent
    requires IsEndPage(s[|firstSent| - 1]) && EndPages(s, |firstSent|) == 1
    requires InRangeOrder(ranges, title, s, firstSent)
    requires InRangeOrder(ranges[1..], title, rest, moreSent)
    ensures InRangeOrder(ranges, title, s, sent)
  {
    var k1 := |firstSent|;
    forall i | 0 <= i < |sent|
      ensures EndPages(s, i) < |ranges|
      ensures QueryRange(sent[i]) == ranges[EndPages(s, i)]
      ensures (i == 0 || IsEndPage(s[i - 1])) ==> sent[i].pageNo == 1 && sent[i].title == Some(title)
    {
      if i < k1 {
        assert sent[i] == firstSent[i];
      } else {
        var j := i - k1;
        assert sent[i] == moreSent[j];
        EndPagesSplit(s, k1, j);
        assert EndPages(s, i) == 1 + EndPages(rest, j);
        assert ranges[1..][EndPages(rest, j)] == ranges[EndPages(s, i)];
        if j > 0 {
          assert s[i - 1] == rest[j - 1];
        }
      }
    }
  }

  /** Range order: the requests go through the ranges in the splitter's
      order, one range after each end page, and every range restarts at
      page 1 with the caller's title, whatever page number and TITLE the
      previous range ended with. */
  lemma {:induction false} CollectAllInOrder(code: string, ranges: seq<DateRange>, title: string,
                                             responses: seq<Response>)
    ensures var run := CollectAll(code, ranges, title, responses);
      InRangeOrder(ranges, title, responses, run.sent)
    decreases |ranges|
  {
    var run := CollectAll(code, ranges, title, responses);
    if ranges == [] {
      assert run.sent == [];
    } else {
      var first := FetchAll(code, ranges[0], title, responses);
      FirstRangeInOrder(code, ranges, title, responses);
      if first.finished {
        var more := CollectAll(code, ranges[1..], title, first.rest);
        CollectAllInOrder(code, ranges[1..], title, first.rest);
        CollectAllStep(code, ranges, title, responses);
        FetchAllEndPages(code, ranges[0], title, responses);
        InRangeOrderJoin(ranges, title, responses, first.rest, first.sent, more.sent, run.sent);
      } else {
        assert run == first;
      }
    }
  }

  /** `batch_download_sequential`: one download per announcement, in list
      order, each written to the sanitised title inside `targetDir`. */
  function DownloadPlan(targetDir: string, announcements: seq<Announcement>): (plan: seq<Download>)
    ensures |plan| == |announcements|
    ensures forall i :: 0 <= i < |plan| ==>
      && plan[i].url == announcements[i].url
      && plan[i].path == DownloadPath(targetDir, announcements[i].title)
    decreases |announcements|
  {
    if announcements == [] then []
    else [Download(announcements[0].url, DownloadPath(targetDir, announcements[0].title))]
         + DownloadPlan(targetDir, announcements[1..])
  }

  /** The loop of lines 240-244: every range in turn over one shared
      response stream, the announcement lists concatenated. */
  method FetchRanges(code: string, ranges: seq<DateRange>, title: string, responses: seq<Response>)
    returns (run: Run)
    ensures run == CollectAll(code, ranges, title, responses)
    ensures |run.sent| <= |responses| && run.rest == responses[|run.sent|..]
    ensures run.records == RecordsOf(responses, |run.sent|)
    ensures run.finished ==> EndPages(responses, |run.sent|) == |ranges|
    ensures !run.finished ==> |run.sent| == |responses| && EndPages(responses, |responses|) < |ranges|
    ensures InRangeOrder(ranges, title, responses, run.sent)
  {
    run := CollectAll(code, ranges, title, responses);
    CollectAllRecords(code, ranges, title, responses);
    CollectAllEndPages(code, ranges, title, responses);
    CollectAllInOrder(code, ranges, title, responses);
  }

  /** The main sequence over a finite response stream. */
  method Scrape(code: string, start: Date, end: Date, title: string, targetDir: string,
                responses: seq<Response>) returns (o: Outcome)
    requires Valid(start) && Valid(end)
    ensures o.Aborted? <==> NotAfter(start, end) && end.year == MaxYear
    ensures Before(end, start) ==> o == Completed([], [], [])
    ensures !o.Aborted? ==> o.sent == CollectAll(code, YearlyRanges(start, end), title, responses).sent
    ensures o.StillPaging? ==>
      EndPages(responses, |responses|) < |YearlyRanges(start, end)| && |o.sent| == |responses|
    ensures o.Completed? ==>
      && |o.sent| <= |responses|
      && EndPages(responses, |o.sent|) == |YearlyRanges(start, end)|
      && o.announcements == RecordsOf(responses, |o.sent|)
      && |o.downloads| == |o.announcements|
      && forall i :: 0 <= i < |o.downloads| ==>
           && o.downloads[i].url == o.announcements[i].url
           && |targetDir| <= |o.downloads[i].path|
           && o.downloads[i].path[..|targetDir|] == targetDir
           && o.downloads[i].path == DownloadPath(targetDir, o.announcements[i].title)
  {
    var split := GenerateYearlyDateRanges(start, end);
    if split.YearOverflow? {
      return Aborted;
    }
    var ranges := split.ranges;
    var run := FetchRanges(code, ranges, title, responses);
    if !run.finished {
      return StillPaging(run.sent);
    }
    var downloads := DownloadPlan(targetDir, run.records);
    o := Completed(run.sent, run.records, downloads);
  }
}
