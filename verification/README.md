# SSE announcement scraper — verified model of its core

`ann.py` is a command-line scraper for the Shanghai Stock Exchange
disclosure site. It splits a requested date interval into calendar years,
pages through the exchange's announcement-listing API for each year, turns
every page item that has a title and a document path into an announcement,
and downloads one PDF per announcement. The file name is the sanitised title.

This project models the sequential logic of that script in Dafny and proves
properties of it. Browser automation, HTTP and the file system are not
modelled.

- `dates.dfy` (`Dates`): dates as `(year, month, day)` triples that a
  Python `datetime` can represent (years 1 to 9999). They are ordered
  lexicographically. The module also has `min` on dates and the 1 January
  and 31 December boundary dates.
- `splitter.dfy` (`Splitter`): `generate_yearly_date_ranges` as a loop
  (`GenerateYearlyDateRanges`), proved equal to a closed-form definition
  (`YearlyRanges`): one range per year, namely the part of the interval that
  falls in that year. Count, end points, shape, disjointness and coverage are
  proved about the closed form.
- `filenames.dfy` (`Filenames`): `clean_filename` deletes each of the nine
  characters `\ / * ? : " < > |` and keeps the rest. The download path is
  `os.path.join(target_dir, clean_filename(title) + ".pdf")`, with POSIX
  `os.path.join`.
- `listing.dfy` (`Listing`): the decoded listing response (`pageHelp.data`
  is a list of lists of items with optional `TITLE` and `URL`). It also
  holds the item filter and the URL prefix `https://static.sse.com.cn`.
- `paging.dfy` (`Paging`): the loop of `fetch_all_announcements_paginated`
  over a finite list of responses. Each response answers one request and is
  one of three things:
  - a decoded body;
  - a body that is not JSON;
  - a request failure (any `RequestException`, including an HTTP error
    status).

  The model records every request's query parameters. Each loop property is
  proved against a reference definition indexed by response count:
  `RecordsOf`, `Advances`, `EndPages`, `LastFilter` and the predicted request
  `Expected`.
- `orchestrator.dfy` (`Orchestrator`): the main sequence. It splits the
  dates, fetches the ranges in order over one shared response stream,
  concatenates the results, and plans one download per announcement.

Behaviours of the code that the model keeps on purpose:

- **Reversed interval.** When the start date is after the end date, the
  splitter returns no ranges and raises no error.
- **Year 9999.** When `start <= end` and the end date lies in year 9999, the
  splitter computes `31 Dec 9999 + 1 day`, and Python raises
  `OverflowError`. The top-level handler catches this error, and the run
  stops before any listing request is made (the browser has already loaded
  the site). The model returns `YearOverflow` from
  the splitter and `Aborted` from `Scrape`.
- **TITLE filter rebinding.** The loop variable `title` on line 98 is the
  same name as the function parameter that line 75 sends as the `TITLE`
  filter. After the first page with items, each request therefore sends the
  TITLE of the last item of the most recent page that had items. That item
  may have been skipped. Its TITLE may also be missing (`None`), and
  `requests` then drops the parameter.
- **A page of empty lists.** A page whose data is `[[]]` is truthy. It is
  not an end page: it contributes nothing and the loop moves to the next
  page.

## Model

| member | source | states |
|---|---|---|
| Dates.MinDate | ann.py:43 | the result is one of the two dates and is not after either of them, so it is their minimum |
| Splitter.GenerateYearlyDateRanges | ann.py:31-52 | a start after the end gives no ranges and no error; for start <= end the walk fails exactly when the end date is in year 9999; otherwise its ranges are exactly the per-year slices of the interval |
| Splitter.YearlyRangesEnds | ann.py:39-50 | for start <= end there are end.year - start.year + 1 ranges (so at least one), the first begins at start and the last ends at end |
| Splitter.YearlyRangesShape | ann.py:42-50 | range i lies within calendar year start.year + i, has valid dates and lo <= hi; every range but the last ends on 31 December and every range but the first begins on 1 January, so consecutive ranges meet at a year boundary |
| Splitter.YearlyRangesDisjoint | ann.py:41-50 | every date of an earlier range is strictly before every date of a later range, so the ranges are ordered and do not overlap |
| Splitter.YearlyRangesCover | ann.py:41-50 | a valid date lies in some range if and only if it lies between start and end |
| Splitter.SplitExample | ann.py:31-52 | 2022-06-15 to 2024-02-10 splits into [2022-06-15, 2022-12-31], [2023-01-01, 2023-12-31] and [2024-01-01, 2024-02-10] |
| Filenames.CleanFilename | ann.py:29 | the result contains none of the nine deleted characters and is no longer than the input |
| Filenames.CleanFilenameAppend | ann.py:29 | sanitising a concatenation is the concatenation of the sanitised parts |
| Filenames.CleanFilenameChar | ann.py:29 | a single character is kept exactly when it is not one of the nine, and deleted otherwise |
| Filenames.CleanFilenameCounts | ann.py:29 | every other character occurs in the result exactly as often as in the input, and the nine occur zero times |
| Filenames.CleanFilenameKeepsClean | ann.py:29 | a name without any of the nine characters is returned unchanged |
| Filenames.CleanFilenameIdempotent | ann.py:29 | sanitising twice gives the same name as sanitising once |
| Filenames.CleanFilenameSkipsIllegal | ann.py:29 | inserting one of the nine characters anywhere in the input does not change the result |
| Filenames.PdfNameHasNoSeparator | ann.py:168 | the file name built from a title contains no '/' |
| Filenames.Join | ann.py:168 | POSIX `os.path.join` of two parts: an absolute second part replaces the first; otherwise the result is the first part, then one '/' exactly when the first part is non-empty and does not end in '/', then the second part |
| Filenames.DownloadPath | ann.py:168 | the path is the target directory followed by the sanitised title plus ".pdf", with a '/' inserted exactly when the directory is non-empty and does not end in '/'; no '/' occurs after the directory, so the file lands directly inside it |
| Filenames.DownloadPathIgnoresIllegal | ann.py:168 | two titles that differ only by one of the nine characters map to the same path, so the later download overwrites the earlier |
| Listing.PageData | ann.py:89 | the data is the `data` list of `pageHelp` when both keys are present, and an empty list otherwise: non-empty data always came from the body |
| Listing.ExtractItems | ann.py:97-102 | the inner item loop yields at most one record per item |
| Listing.ExtractPage | ann.py:96-102 | the nested loops over a page yield at most one record per item of the flattened page |
| Listing.ExtractItemsShape | ann.py:97-102 | there are no more records than items; every record has a non-empty title and a URL that is the static host followed by a non-empty path |
| Listing.ExtractItemsAppend | ann.py:96-102 | the records of a concatenation of item lists are the records of the parts, in order: a skipped item does not stop processing of the items after it |
| Listing.ExtractItemsSingle | ann.py:98-102 | one item yields its announcement (title, static host + URL) when TITLE and URL are both present and non-empty, and nothing otherwise |
| Listing.ExtractItemsMembers | ann.py:97-102 | an announcement is produced if and only if some item with truthy TITLE and URL announces it |
| Listing.ExtractPageFlat | ann.py:95-102 | the nested loops over a page yield the records of the flattened item list, outer list first and then inner |
| Listing.ExtractPageExample | ann.py:95-102 | a page with one item titled "Q1 Report" at "/a.pdf" and one item with an empty TITLE yields exactly one announcement, with URL https://static.sse.com.cn/a.pdf |
| Paging.RebindTitle | ann.py:96-98 | after the item loop the `title` variable holds the TITLE of the last item in flattened order, or its previous value if the page had no items |
| Paging.NextPage | ann.py:86-111 | after a response that is not an end page the page number either stays or goes up by one, and it stays exactly when the request failed |
| Paging.Fetch | ann.py:54-113 | each request consumes one response and the rest are left for later; a finished loop stopped on an end page; an unfinished loop used every response |
| Paging.FetchStopsAtFirstEndPage | ann.py:89-93 | the loop finishes if and only if the responses contain an end page (a parsed body whose data is empty or missing), and none of the responses before the last one it consumed is an end page |
| Paging.FetchCollectsRecords | ann.py:95-104 | the announcements returned are the records of every parsed page answered, concatenated in page order |
| Paging.FetchQueries | ann.py:59-111 | every request sent is the predicted one: fixed code, dates, page size 100 and cache size 1; beginPage and pageNo equal to the start page plus the number of earlier responses that were not request failures; and the filter left by the earlier pages |
| Paging.FetchAll | ann.py:54-59 | a fetch from page 1 with the caller's title consumes one response per request and finishes only on an end page |
| Paging.FetchAllContract | ann.py:54-113 | for one call: it finishes if and only if an end page arrives; it stops at the first one; its records are those of the pages answered; and every request carries the code, range, sizes 100 and 1, beginPage == pageNo == 1 + the earlier non-failures, and the current filter |
| Paging.FetchAllPageSteps | ann.py:59-111 | the first request asks for page 1 with the caller's title; each later request asks for the previous page number plus one, or for the same page again after a request failure |
| Paging.FetchAllTitleSteps | ann.py:75-98 | after a page with items the next request's TITLE is the last item's TITLE, kept or not; after any other response it is unchanged |
| Paging.FetchAllRange | ann.py:70-71 | every request of one fetch carries that fetch's start and end date |
| Orchestrator.CollectAll | ann.py:240-244 | the ranges share one response stream: the responses consumed plus those left make up the whole stream, and an unfinished run used all of them |
| Orchestrator.CollectAllRecords | ann.py:240-244 | the full announcement list is the records of every parsed page answered across all ranges, in response order (which is range order and then page order, by Orchestrator.CollectAllInOrder), with nothing dropped at range boundaries and no deduplication |
| Orchestrator.CollectAllEndPages | ann.py:240-244 | a finished run consumed exactly one end page per range; an unfinished run met fewer end pages than there are ranges |
| Orchestrator.CollectAllQueryRanges | ann.py:240-244 | every request sent asks about one of the split ranges |
| Orchestrator.FirstRangeInOrder | ann.py:54-111 | every request of the fetch for the first range asks about that range, after no end page, and the first one asks for page 1 with the caller's title |
| Orchestrator.CollectAllInOrder | ann.py:240-244 | range order: the request answered by response i asks about range number "end pages among the first i responses", so the ranges are fetched one after another in the splitter's order; and every request that opens a range (the first one, or the one after an end page) asks for page 1 with the caller's title, whatever page and TITLE the previous range ended with |
| Orchestrator.FetchRanges | ann.py:240-244 | the loop over the ranges, with the result of `CollectAll`: the announcements are the records of every parsed page answered, in response order; a finished run met one end page per range, an unfinished one used every response and met fewer; and the requests go through the ranges in order, each range restarting at page 1 with the caller's title |
| Orchestrator.DownloadPlan | ann.py:154-171 | one download per announcement, in list order, each taking that announcement's URL and writing to the sanitised path of its title |
| Orchestrator.Scrape | ann.py:236-256 | the run aborts exactly when start <= end and the end date is in year 9999; a reversed interval completes with nothing sent or downloaded; unless aborted, the requests sent are those of the range loop over the yearly ranges, which Orchestrator.CollectAllInOrder shows go through the ranges in order, each restarting at page 1 with the caller's title; a completed run met one end page per yearly range, and its announcements and downloads are those of the pages answered, each path inside the target directory; a run still paging has used every response and met fewer end pages than ranges |

## Left out

- HTTP and browser automation (`session.get`, `raise_for_status`, `driver.get`, cookie harvesting, lines 121-141 and 214-233). These are foreign I/O. The responses to listing requests are an input list, and downloads are a plan of (URL, path) pairs.
- Streaming file writes, `os.makedirs` and the result string of `download_pdf_hybrid` (lines 119-152 and 162). These are file-system I/O; a failed download does not affect the plan.
- `time.sleep` pauses. These are timing only.
- Retrying forever on request failures. The finite response list bounds the retries. When the list runs out before an end page, the model reports the run as still paging. The program itself would keep sending requests.
- `datetime.now()` defaults, argparse, the timestamped output directory name and `DOWNLOAD_DIR` (lines 17-23 and 174-193). These depend on the clock and the environment. The target directory is a parameter.
- `strptime`/`strftime` parsing and formatting of `YYYY-MM-DD`. Dates are triples, and the API receives them as dates, not strings.
- Console printing and Chrome options. They have no behaviour to state.
- Response bodies that are JSON but not an object, and a `pageHelp` that is `null` or not an object. The source then raises `AttributeError`, which escapes the loop. The model's decoded body has optional `pageHelp` and `data` keys only.
- `data` that is not a list of lists of objects. A list holding `null` (`[null]`) makes line 97 raise `TypeError`, and `[[null]]` makes line 98 raise `AttributeError`. Either error escapes the loop to the top-level handler at line 255, and the run ends with no downloads. The model's data is always a list of lists of items.
- TITLE or URL values that are JSON values other than strings (numbers, lists). The model treats both fields as optional strings.
- `os.path.join` on Windows. The model uses POSIX joining.
