/** The round URL collector: which category links of an event's draws index
    lead to individual kata rounds. */
module RoundLinks {
  import opened PyStrings
  import opened Dom

  /** The site path every category link is relative to. */
  const SiteBase: string := "https://www.sportdata.org/wkf/set-online/"

  /** The navigation entries at the end of the index that are never rounds. */
  const TrailingLinks: nat := 3

  /** Individual kata categories; kumite and team categories are excluded. */
  predicate IsKataTitle(title: string)
  {
    Contains(title, "Male Kata") || Contains(title, "Female Kata")
  }

  /** Every accepted title names a kata category. */
  lemma KataTitleNamesKata(title: string)
    requires IsKataTitle(title)
    ensures Contains(title, " Kata")
  {
    if Contains(title, "Male Kata") {
      var i :| 0 <= i <= |title| - 9 && OccursAt(title, "Male Kata", i);
      assert title[i + 4..i + 9] == title[i..i + 9][4..];
      assert OccursAt(title, " Kata", i + 4);
    } else {
      var i :| 0 <= i <= |title| - 11 && OccursAt(title, "Female Kata", i);
      assert title[i + 6..i + 11] == title[i..i + 11][6..];
      assert OccursAt(title, " Kata", i + 6);
    }
  }

  /** The search is case sensitive, so "Female Kata" does not contain
      "Male Kata": female categories are selected by their own test. */
  lemma FemaleKataNeedsItsOwnTest()
    ensures !Contains("Female Kata", "Male Kata")
    ensures IsKataTitle("Female Kata")
  {
    var f := "Female Kata";
    forall i | 0 <= i <= |f| - 9
      ensures !OccursAt(f, "Male Kata", i)
    {
      assert f[i..i + 9][0] == f[i];
    }
    assert OccursAt(f, "Female Kata", 0);
  }

  /** The absolute URL of every kata link, in link order, duplicates kept. */
  function KataUrls(links: seq<Link>): (urls: seq<string>)
    ensures |urls| <= |links|
    ensures forall u :: u in urls ==>
              exists i :: 0 <= i < |links| && IsKataTitle(links[i].title) && u == SiteBase + links[i].href
    ensures forall i :: 0 <= i < |links| && IsKataTitle(links[i].title) ==> SiteBase + links[i].href in urls
  {
    if |links| == 0 then []
    else
      var tail := KataUrls(links[1..]);
      assert forall i :: 1 <= i < |links| ==> links[i] == links[1..][i - 1];
      if IsKataTitle(links[0].title) then [SiteBase + links[0].href] + tail else tail
  }

  /** `get_rounds_urls` after fetching: the last three links are dropped,
      then the kata links among the rest are resolved against the site. */
  function RoundUrls(links: seq<Link>): (urls: seq<string>)
    ensures |urls| <= if |links| >= TrailingLinks then |links| - TrailingLinks else 0
    ensures forall u :: u in urls ==>
              exists i :: 0 <= i < |links| - TrailingLinks && IsKataTitle(links[i].title) &&
                          u == SiteBase + links[i].href
    ensures forall i :: 0 <= i < |links| - TrailingLinks && IsKataTitle(links[i].title) ==>
              SiteBase + links[i].href in urls
  {
    DropLastSlice(links, TrailingLinks);
    KataUrls(Slice(links, 0, -(TrailingLinks as int)))
  }

  /** Selection keeps link order: the URLs of two runs of links follow each
      other. */
  lemma {:induction false} KataUrlsAppend(a: seq<Link>, b: seq<Link>)
    ensures KataUrls(a + b) == KataUrls(a) + KataUrls(b)
    decreases |a|
  {
    if |a| == 0 {
      assert a + b == b;
    } else {
      assert (a + b)[1..] == a[1..] + b;
      assert (a + b)[0] == a[0];
      KataUrlsAppend(a[1..], b);
    }
  }

  /** When every link is a kata link, each one yields its own URL at its own
      position: nothing is dropped or merged, duplicates included. */
  lemma {:induction false} KataUrlsKeepsEveryKataLink(links: seq<Link>)
    requires forall i :: 0 <= i < |links| ==> IsKataTitle(links[i].title)
    ensures |KataUrls(links)| == |links|
    ensures forall i :: 0 <= i < |links| ==> KataUrls(links)[i] == SiteBase + links[i].href
    decreases |links|
  {
    if |links| > 0 {
      assert forall i :: 1 <= i < |links| ==> links[i] == links[1..][i - 1];
      KataUrlsKeepsEveryKataLink(links[1..]);
    }
  }

  /** The last three links are never consulted, whatever they are. */
  lemma TrailingLinksIgnored(links: seq<Link>, trailing: seq<Link>)
    requires |trailing| == TrailingLinks
    ensures RoundUrls(links + trailing) == KataUrls(links)
  {
    DropLastSlice(links + trailing, TrailingLinks);
    assert (links + trailing)[..|links|] == links;
  }

  /** One more link adds its URL at the end exactly when it is a kata link. */
  lemma KataUrlsSnoc(prefix: seq<Link>, link: Link)
    ensures KataUrls(prefix + [link]) ==
            KataUrls(prefix) + if IsKataTitle(link.title) then [SiteBase + link.href] else []
  {
    KataUrlsAppend(prefix, [link]);
    assert [link][1..] == [];
  }

  /** The number of links the loop of `get_rounds_urls` walks over. */
  function Considered(links: seq<Link>): (n: nat)
    ensures n <= |links|
    ensures RoundUrls(links) == KataUrls(links[..n])
  {
    DropLastSlice(links, TrailingLinks);
    if |links| >= TrailingLinks then |links| - TrailingLinks else 0
  }

  /** The loop of `get_rounds_urls`. */
  method CollectRoundUrls(links: seq<Link>) returns (urls: seq<string>)
    ensures urls == RoundUrls(links)
  {
    var n := Considered(links);
    urls := [];
    var i := 0;
    while i < n
      invariant i <= n
      invariant urls == KataUrls(links[..i])
    {
      assert links[..i + 1] == links[..i] + [links[i]];
      KataUrlsSnoc(links[..i], links[i]);
      if IsKataTitle(links[i].title) {
        urls := urls + [SiteBase + links[i].href];
      }
      i := i + 1;
    }
  }
}
