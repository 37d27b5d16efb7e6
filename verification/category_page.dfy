/** The category page parser: the tournament and category named in the page
    header, and the pool tables of the page. */
module CategoryPage {
  import opened PyStrings
  import opened Outcomes
  import opened Dom

  /** The separator between tournament and category in the header. */
  const Separator: string := " - "

  /** A parsed category page. */
  datatype Category = Category(tournament: string, category: string, tables: seq<PoolTable>)

  /** The header text without its last two characters (`text[:-2]`). */
  function TrimHeader(text: string): (h: string)
    ensures |text| >= 2 ==> text == h + text[|text| - 2..]
    ensures |text| < 2 ==> h == []
  {
    DropLastSlice(text, 2);
    Slice(text, 0, -2)
  }

  /** `TrimHeader(text).rsplit(" - ", 1)` unpacked into two names: the
      category is what follows the last separator, the tournament everything
      before it, and a header without a separator fails to unpack. */
  function SplitHeader(text: string): (r: Result<(string, string)>)
    ensures r.Ok? <==> Contains(TrimHeader(text), Separator)
    ensures r.Err? ==> r.error == HeaderWithoutSeparator
    ensures r.Ok? ==> r.value.0 + Separator + r.value.1 == TrimHeader(text)
    ensures r.Ok? ==> LastOccurrence(TrimHeader(text), Separator, |r.value.0|)
    ensures r.Ok? ==> !Contains(r.value.1, Separator)
  {
    var parts := RSplitOnce(TrimHeader(text), Separator);
    if |parts| == 2 then Ok((parts[0], parts[1])) else Err(HeaderWithoutSeparator)
  }

  /** `category_data` after fetching and parsing: the first header block
      names tournament and category, and every pool table is kept in order. */
  function ParseCategoryPage(page: DrawsPage): (r: Result<Category>)
    ensures |page.headers| == 0 ==> r == Err(MissingHeader)
    ensures |page.headers| > 0 ==> (r.Ok? <==> Contains(TrimHeader(page.headers[0]), Separator))
    ensures |page.headers| > 0 && r.Err? ==> r.error == HeaderWithoutSeparator
    ensures r.Ok? ==> r.value.tournament + Separator + r.value.category == TrimHeader(page.headers[0])
    ensures r.Ok? ==> LastOccurrence(TrimHeader(page.headers[0]), Separator, |r.value.tournament|)
    ensures r.Ok? ==> !Contains(r.value.category, Separator)
    ensures r.Ok? ==> r.value.tables == page.tables
  {
    if |page.headers| == 0 then Err(MissingHeader)
    else
      var names :- SplitHeader(page.headers[0]);
      Ok(Category(names.0, names.1, page.tables))
  }

  /** A header made of a tournament, the separator, a category and two
      trailing characters splits back into that tournament and that category,
      even when the tournament itself contains the separator. The category
      must not contain the separator and must not start with "- " (either
      would put a later separator into the header). */
  lemma HeaderSplitsAtLastSeparator(t: string, c: string, z: string)
    requires |z| == 2
    requires !Contains(c, Separator)
    requires !(|c| >= 2 && c[..2] == "- ")
    ensures SplitHeader(t + Separator + c + z) == Ok((t, c))
  {
    var s := t + Separator + c;
    assert TrimHeader(s + z) == s by {
      assert (s + z)[..|s|] == s;
    }
    NoSeparatorAfterTournament(t, c);
    RSplitOnceAt(t, Separator, c);
  }

  /** Under the same conditions, no separator starts after the one that
      follows the tournament. */
  lemma NoSeparatorAfterTournament(t: string, c: string)
    requires !Contains(c, Separator)
    requires !(|c| >= 2 && c[..2] == "- ")
    ensures forall j :: |t| < j ==> !OccursAt(t + Separator + c, Separator, j)
  {
    var s := t + Separator + c;
    forall j | |t| < j
      ensures !OccursAt(s, Separator, j)
    {
      if j + 3 <= |s| {
        if j == |t| + 1 {
          assert s[j..j + 3][0] == s[j] == '-';
        } else if j == |t| + 2 {
          assert s[j..j + 3][1] == s[j + 1] == c[0];
          assert s[j..j + 3][2] == s[j + 2] == c[1];
          assert c[..2] == [c[0], c[1]];
        } else {
          var i := j - |t| - 3;
          assert s[j..j + 3] == c[i..i + 3];
          assert !OccursAt(c, Separator, i);
        }
      }
    }
  }

  /** The converse: when such a header splits back into `t` and `c`, the
      category meets both conditions, so they are exactly the headers that
      split there. */
  lemma SplitAtSeparatorNeedsCleanCategory(t: string, c: string, z: string)
    requires |z| == 2
    requires SplitHeader(t + Separator + c + z) == Ok((t, c))
    ensures !Contains(c, Separator)
    ensures !(|c| >= 2 && c[..2] == "- ")
  {
    var s := t + Separator + c;
    assert TrimHeader(s + z) == s by {
      assert (s + z)[..|s|] == s;
    }
    NoDashAfterLastSeparator(t, c);
  }

  /** A separator followed by "- " would create a later separator. */
  lemma NoDashAfterLastSeparator(t: string, c: string)
    requires LastOccurrence(t + Separator + c, Separator, |t|)
    ensures !(|c| >= 2 && c[..2] == "- ")
  {
    var s := t + Separator + c;
    if |c| >= 2 {
      assert !OccursAt(s, Separator, |t| + 2);
      assert s[|t| + 2..|t| + 5] == [' '] + c[..2];
    }
  }

  /** A category without any dash meets both conditions above. */
  lemma DashFreeCategory(c: string)
    requires '-' !in c
    ensures !Contains(c, Separator)
    ensures !(|c| >= 2 && c[..2] == "- ")
  {
    forall i | 0 <= i <= |c| - 3
      ensures !OccursAt(c, Separator, i)
    {
      assert c[i..i + 3][1] == c[i + 1];
    }
    if |c| >= 2 {
      assert c[..2][0] == c[0];
    }
  }

  /** The expectation of the repository's test for the Salzburg 2020
      Premier League female kata page. */
  lemma SalzburgHeader(z: string, tables: seq<PoolTable>)
    requires |z| == 2
    ensures ParseCategoryPage(DrawsPage(["Karate1 Premier League - Salzburg 2020 - Female Kata" + z], tables))
         == Ok(Category("Karate1 Premier League - Salzburg 2020", "Female Kata", tables))
  {
    var t := "Karate1 Premier League - Salzburg 2020";
    assert "Karate1 Premier League - Salzburg 2020 - Female Kata" == t + Separator + "Female Kata";
    DashFreeCategory("Female Kata");
    HeaderSplitsAtLastSeparator(t, "Female Kata", z);
  }
}
