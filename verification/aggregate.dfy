/** The event and multi-event aggregators: every kata round of an event, and
    every event of a list, concatenated in order. Fetching a page is a
    parameter: `index` gives the category links of an event's draws index
    and `pages` the parsed category page behind a round URL. */
module Aggregate {
  import opened Outcomes
  import opened Dom
  import opened Performances
  import opened RoundLinks

  type IndexFetcher = string -> seq<Link>
  type PageFetcher = string -> DrawsPage

  /** The records of one round URL. */
  function Round(url: string, pages: PageFetcher, parse: NumberParser): Result<seq<Performance>>
  {
    RoundPerformances(pages(url), parse)
  }

  /** `get_performances`: the records of every kata round of the event, round
      after round; `pd.concat` of no rounds at all raises. */
  function EventPerformances(drawsUrl: string, index: IndexFetcher, pages: PageFetcher, parse: NumberParser)
    : (r: Result<seq<Performance>>)
    ensures RoundUrls(index(drawsUrl)) == [] ==> r == Err(NothingToConcatenate)
    ensures r.Ok? <==> RoundUrls(index(drawsUrl)) != [] &&
                       forall i :: 0 <= i < |RoundUrls(index(drawsUrl))| ==>
                         Round(RoundUrls(index(drawsUrl))[i], pages, parse).Ok?
    ensures r.Ok? ==> forall p :: p in r.value ==>
                        exists i :: 0 <= i < |RoundUrls(index(drawsUrl))| &&
                          p in Round(RoundUrls(index(drawsUrl))[i], pages, parse).value
    ensures r.Ok? ==> forall i, p :: (0 <= i < |RoundUrls(index(drawsUrl))| &&
                                      p in Round(RoundUrls(index(drawsUrl))[i], pages, parse).value) ==> p in r.value
    ensures RoundUrls(index(drawsUrl)) != [] && r.Err? ==>
              exists i :: 0 <= i < |RoundUrls(index(drawsUrl))| &&
                Round(RoundUrls(index(drawsUrl))[i], pages, parse) == Err(r.error) &&
                forall j :: 0 <= j < i ==> Round(RoundUrls(index(drawsUrl))[j], pages, parse).Ok?
  {
    var urls := RoundUrls(index(drawsUrl));
    if |urls| == 0 then Err(NothingToConcatenate)
    else Concat(urls, url => Round(url, pages, parse))
  }

  /** `concat_tournaments` after reading the list of draws URLs: the records
      of every event, event after event; an empty list raises. */
  function AllPerformances(drawsUrls: seq<string>, index: IndexFetcher, pages: PageFetcher, parse: NumberParser)
    : (r: Result<seq<Performance>>)
    ensures drawsUrls == [] ==> r == Err(NothingToConcatenate)
    ensures r.Ok? <==> drawsUrls != [] &&
                       forall i :: 0 <= i < |drawsUrls| ==> EventPerformances(drawsUrls[i], index, pages, parse).Ok?
    ensures r.Ok? ==> forall p :: p in r.value ==>
                        exists i :: 0 <= i < |drawsUrls| && p in EventPerformances(drawsUrls[i], index, pages, parse).value
    ensures r.Ok? ==> forall i, p :: (0 <= i < |drawsUrls| &&
                                      p in EventPerformances(drawsUrls[i], index, pages, parse).value) ==> p in r.value
    ensures drawsUrls != [] && r.Err? ==>
              exists i :: 0 <= i < |drawsUrls| && EventPerformances(drawsUrls[i], index, pages, parse) == Err(r.error) &&
                          forall j :: 0 <= j < i ==> EventPerformances(drawsUrls[j], index, pages, parse).Ok?
  {
    if |drawsUrls| == 0 then Err(NothingToConcatenate)
    else Concat(drawsUrls, url => EventPerformances(url, index, pages, parse))
  }

  /** An event's records are its rounds' records, one round after the other. */
  lemma EventIsRoundsInOrder(drawsUrl: string, index: IndexFetcher, pages: PageFetcher, parse: NumberParser)
    requires EventPerformances(drawsUrl, index, pages, parse).Ok?
    ensures var urls := RoundUrls(index(drawsUrl));
            EventPerformances(drawsUrl, index, pages, parse).value ==
            Flatten(seq(|urls|, i requires 0 <= i < |urls| => Round(urls[i], pages, parse).value))
  {
    var urls := RoundUrls(index(drawsUrl));
    var f := url => Round(url, pages, parse);
    var outs := seq(|urls|, i requires 0 <= i < |urls| => Round(urls[i], pages, parse).value);
    assert EventPerformances(drawsUrl, index, pages, parse) == Concat(urls, f);
    assert forall i :: 0 <= i < |urls| ==> f(urls[i]).Ok? && outs[i] == f(urls[i]).value;
    ConcatIsFlattenOf(urls, f, outs);
  }

  /** Aggregating events A then B gives all of A's records, then all of B's. */
  lemma TwoEventsInOrder(a: string, b: string, index: IndexFetcher, pages: PageFetcher, parse: NumberParser)
    requires EventPerformances(a, index, pages, parse).Ok?
    requires EventPerformances(b, index, pages, parse).Ok?
    ensures AllPerformances([a, b], index, pages, parse) ==
            Ok(EventPerformances(a, index, pages, parse).value + EventPerformances(b, index, pages, parse).value)
  {
    var f := url => EventPerformances(url, index, pages, parse);
    ConcatAppend([a], [b], f);
    assert [a] + [b] == [a, b];
    ConcatSingle(a, f);
    ConcatSingle(b, f);
  }

  /** Events contribute in list order: the records of a longer list extend
      those of its prefix. */
  lemma EventsInOrder(first: seq<string>, rest: seq<string>, index: IndexFetcher, pages: PageFetcher,
                      parse: NumberParser)
    requires first != [] && rest != []
    ensures AllPerformances(first + rest, index, pages, parse) ==
            Append(AllPerformances(first, index, pages, parse), AllPerformances(rest, index, pages, parse))
  {
    ConcatAppend(first, rest, url => EventPerformances(url, index, pages, parse));
  }
}
