/** The performance extractor: one record per result row that carries a kata
    and judge rows, taken pool table by pool table. */
module Performances {
  import opened PyStrings
  import opened Outcomes
  import opened Dom
  import opened CategoryPage

  /** Python's `float`: the number a text denotes, or `None` when `float`
      raises. */
  type NumberParser = string -> Option<real>

  /** The tournament, category and pool every record of one pool shares. */
  datatype Context = Context(tournament: string, category: string, pool: string)

  /** One competitor's judged performance. `tec` and `ath` are the technical
      and athletic grades in judge order; `score` is the published total. */
  datatype Performance = Performance(
    tournament: string,
    category: string,
    pool: string,
    name: string,
    nationality: string,
    kata: string,
    tec: seq<real>,
    ath: seq<real>,
    score: real)

  // ---------------------------------------------------------------------------
  // Pool label

  /** `firstRow.split(":")[1]`: the text between the first and the second
      colon, or to the end when there is only one, and an error without any. */
  function PoolLabel(firstRow: string): (r: Result<string>)
    ensures r.Ok? <==> ':' in firstRow
    ensures r.Err? ==> r.error == PoolWithoutColon
    ensures r.Ok? ==> ':' !in r.value
    ensures r.Ok? ==>
      var rest := firstRow[IndexOf(firstRow, ':') + 1..];
      r.value == rest[..IndexOf(rest, ':')]
  {
    var parts := Split(firstRow, ':');
    SplitFirst(firstRow, ':');
    if |parts| > 1 then
      var rest := firstRow[IndexOf(firstRow, ':') + 1..];
      SplitFirst(rest, ':');
      assert parts[1] == Split(rest, ':')[0];
      Ok(parts[1])
    else Err(PoolWithoutColon)
  }

  // ---------------------------------------------------------------------------
  // Competitor identity

  /** `text.rsplit(" (", 1)[0]`: the text before the last " (", or all of it. */
  function CompetitorName(text: string): (r: string)
    ensures !Contains(text, " (") ==> r == text
    ensures Contains(text, " (") ==> |r| <= |text| && r == text[..|r|] && LastOccurrence(text, " (", |r|)
  {
    var parts := RSplitOnce(text, " (");
    assert |parts| == 2 ==> parts[0] == (parts[0] + " (" + parts[1])[..|parts[0]|];
    parts[0]
  }

  /** `text.rsplit(",", 1)[-1][:-1]`: what follows the last comma (or the
      whole text when there is none), without its final character. */
  function Nationality(text: string): (r: string)
    ensures ',' !in text ==> r == Slice(text, 0, -1)
    ensures ',' in text ==> exists i :: LastOccurrence(text, ",", i) && r == Slice(text[i + 1..], 0, -1)
  {
    var parts := RSplitOnce(text, ",");
    ContainsSingle(text, ',');
    var last := parts[|parts| - 1];
    assert |parts| == 2 ==> last == text[|parts[0]| + 1..] by {
      if |parts| == 2 {
        assert text == parts[0] + "," + parts[1];
        assert text[|parts[0]| + 1..] == parts[1];
      }
    }
    Slice(last, 0, -1)
  }

  /** Bold text shaped "<name> (<city>, <country>)" yields the name and the
      country code; the city may contain commas, and the code keeps the blank
      that follows the last one. */
  lemma IdentityOfNameCityCountry(name: string, city: string, country: string)
    requires '(' !in city
    requires '(' !in country && ',' !in country
    ensures CompetitorName(name + " (" + city + ", " + country + ")") == name
    ensures Nationality(name + " (" + city + ", " + country + ")") == " " + country
  {
    NameFromNameCityCountry(name, city, country);
    NationalityFromNameCityCountry(name, city, country);
  }

  /** The name half of the lemma above. */
  lemma NameFromNameCityCountry(name: string, city: string, country: string)
    requires '(' !in city && '(' !in country
    ensures CompetitorName(name + " (" + city + ", " + country + ")") == name
  {
    var y := city + ", " + country + ")";
    assert name + " (" + city + ", " + country + ")" == name + " (" + y;
    NameBeforeLastParenthesis(name, y);
  }

  /** The nationality half of the lemma above. */
  lemma NationalityFromNameCityCountry(name: string, city: string, country: string)
    requires ',' !in country
    ensures Nationality(name + " (" + city + ", " + country + ")") == " " + country
  {
    var x := name + " (" + city;
    var z := " " + country + ")";
    assert name + " (" + city + ", " + country + ")" == x + "," + z;
    NationalityAfterLastComma(x, z);
    assert z[..|z| - 1] == " " + country;
  }

  /** The name is everything before " (" when no parenthesis follows it. */
  lemma NameBeforeLastParenthesis(name: string, y: string)
    requires '(' !in y
    ensures CompetitorName(name + " (" + y) == name
  {
    var text := name + " (" + y;
    forall j | |name| < j
      ensures !OccursAt(text, " (", j)
    {
      if j + 2 <= |text| {
        assert text[j + 1] == text[j..j + 2][1];
        assert text[j + 1] == y[j + 1 - |name| - 2];
      }
    }
    RSplitOnceAt(name, " (", y);
  }

  /** The nationality is the text after a comma that no comma follows, less
      its last character. */
  lemma NationalityAfterLastComma(x: string, z: string)
    requires ',' !in z && |z| > 0
    ensures Nationality(x + "," + z) == z[..|z| - 1]
  {
    var text := x + "," + z;
    forall j | |x| < j
      ensures !OccursAt(text, ",", j)
    {
      if j + 1 <= |text| {
        assert text[j] == text[j..j + 1][0];
        assert text[j] == z[j - |x| - 1];
      }
    }
    RSplitOnceAt(x, ",", z);
    DropLastSlice(z, 1);
  }

  // ---------------------------------------------------------------------------
  // Grades

  /** `cells[1:8]`: the grade cells of a judge row, between its label cell
      and the cells after the seventh judge. */
  function GradeCells(cells: seq<string>): (r: seq<string>)
    ensures |r| <= 7
    ensures |cells| >= 8 ==> |r| == 7
    ensures 1 <= |cells| < 8 ==> |r| == |cells| - 1
    ensures |cells| <= 1 ==> r == []
    ensures forall k :: 0 <= k < |r| ==> r[k] == cells[k + 1]
  {
    Slice(cells, 1, 8)
  }

  /** A grade in decimal-comma notation rewritten with a decimal point
      (`text.replace(',', '.')`). */
  function Normalise(text: string): (r: string)
    ensures |r| == |text|
    ensures ',' !in r
    ensures forall k :: 0 <= k < |text| && text[k] != ',' ==> r[k] == text[k]
    ensures forall k :: 0 <= k < |text| && text[k] == ',' ==> r[k] == '.'
  {
    ReplaceAll(text, ',', '.')
  }

  lemma NormaliseExample()
    ensures Normalise("8,5") == "8.5"
  {
  }

  /** `float(text)`. */
  function Float(text: string, parse: NumberParser): Result<real>
  {
    match parse(text)
    case Some(x) => Ok(x)
    case None => Err(NotANumber(text))
  }

  /** `k` is the first grade that `float` rejects after normalisation. */
  ghost predicate FirstBadGrade(grades: seq<string>, parse: NumberParser, k: int) {
    && 0 <= k < |grades|
    && parse(Normalise(grades[k])).None?
    && forall j :: 0 <= j < k ==> parse(Normalise(grades[j])).Some?
  }

  /** `[float(g.replace(',', '.')) for g in grades]`: every grade normalised
      and read, failing at the first grade that is not a number. */
  function ParseGrades(grades: seq<string>, parse: NumberParser): (r: Result<seq<real>>)
    ensures r.Ok? <==> forall k :: 0 <= k < |grades| ==> parse(Normalise(grades[k])).Some?
    ensures r.Ok? ==> |r.value| == |grades|
    ensures r.Ok? ==> forall k :: 0 <= k < |grades| ==> parse(Normalise(grades[k])) == Some(r.value[k])
    ensures r.Err? ==> exists k :: FirstBadGrade(grades, parse, k) && r.error == NotANumber(Normalise(grades[k]))
  {
    if |grades| == 0 then Ok([])
    else
      var head :- Float(Normalise(grades[0]), parse);
      var tail := ParseGrades(grades[1..], parse);
      ParseGradesTail(grades, parse, tail);
      if tail.Err? then Err(tail.error)
      else Ok([head] + tail.value)
  }

  /** How the result for the grades after the first carries over. */
  lemma ParseGradesTail(grades: seq<string>, parse: NumberParser, tail: Result<seq<real>>)
    requires |grades| > 0 && parse(Normalise(grades[0])).Some?
    requires tail.Ok? <==> forall k :: 0 <= k < |grades| - 1 ==> parse(Normalise(grades[1..][k])).Some?
    requires tail.Ok? ==> |tail.value| == |grades| - 1
    requires tail.Ok? ==> forall k :: 0 <= k < |grades| - 1 ==> parse(Normalise(grades[1..][k])) == Some(tail.value[k])
    requires tail.Err? ==> exists k :: FirstBadGrade(grades[1..], parse, k) && tail.error == NotANumber(Normalise(grades[1..][k]))
    ensures tail.Ok? <==> forall k :: 1 <= k < |grades| ==> parse(Normalise(grades[k])).Some?
    ensures tail.Ok? ==> forall k :: 1 <= k < |grades| ==> parse(Normalise(grades[k])) == Some(tail.value[k - 1])
    ensures tail.Err? ==> exists k :: FirstBadGrade(grades, parse, k) && tail.error == NotANumber(Normalise(grades[k]))
  {
    assert forall k :: 1 <= k < |grades| ==> grades[k] == grades[1..][k - 1];
    if tail.Err? {
      var k :| FirstBadGrade(grades[1..], parse, k) && tail.error == NotANumber(Normalise(grades[1..][k]));
      assert grades[k + 1] == grades[1..][k];
      assert FirstBadGrade(grades, parse, k + 1);
    }
  }

  // ---------------------------------------------------------------------------
  // One result row

  /** The guard of the source: a kata was announced and the row has at least
      one nested row. */
  predicate Performed(row: ResultRow)
    requires |row.cells| >= 3
  {
    |row.cells[2]| > 0 && |row.nested| > 0
  }

  /** `p` is the record the source builds from `row`: the context, the
      identity read from the first bold text, the kata of the third cell, the
      normalised grade cells of the two judge rows, and the raw last cell as
      score. */
  ghost predicate RecordOf(ctx: Context, row: ResultRow, parse: NumberParser, p: Performance) {
    && |row.bold| > 0 && |row.cells| >= 3 && |row.nested| >= 2
    && p.tournament == ctx.tournament && p.category == ctx.category && p.pool == ctx.pool
    && p.name == CompetitorName(row.bold[0])
    && p.nationality == Nationality(row.bold[0])
    && p.kata == row.cells[2]
    && parse(row.cells[|row.cells| - 1]) == Some(p.score)
    && |p.tec| == |GradeCells(row.nested[0])| && |p.ath| == |GradeCells(row.nested[1])|
    && (forall k :: 0 <= k < |p.tec| ==> parse(Normalise(row.nested[0][k + 1])) == Some(p.tec[k]))
    && (forall k :: 0 <= k < |p.ath| ==> parse(Normalise(row.nested[1][k + 1])) == Some(p.ath[k]))
  }

  /** Every grade text reads as a number once its commas became points. */
  predicate GradesRead(grades: seq<string>, parse: NumberParser) {
    forall k :: 0 <= k < |grades| ==> parse(Normalise(grades[k])).Some?
  }

  /** Every number a performed row is read for is a number: both subtotals
      as they stand, the score as it stands, and the normalised grades of
      both judge rows. */
  predicate NumbersRead(row: ResultRow, parse: NumberParser) {
    && |row.cells| > 0 && |row.nested| >= 2
    && |row.nested[0]| > 0 && parse(row.nested[0][|row.nested[0]| - 1]).Some?
    && |row.nested[1]| > 0 && parse(row.nested[1][|row.nested[1]| - 1]).Some?
    && parse(row.cells[|row.cells| - 1]).Some?
    && GradesRead(GradeCells(row.nested[0]), parse)
    && GradesRead(GradeCells(row.nested[1]), parse)
  }

  /** At most one record is the record of a row: the row and the parser
      determine every field. */
  lemma RecordOfUnique(ctx: Context, row: ResultRow, parse: NumberParser, p: Performance, q: Performance)
    requires RecordOf(ctx, row, parse, p) && RecordOf(ctx, row, parse, q)
    ensures p == q
  {
    assert p.tec == q.tec by {
      forall k | 0 <= k < |p.tec|
        ensures p.tec[k] == q.tec[k]
      {
        assert Some(p.tec[k]) == parse(Normalise(row.nested[0][k + 1])) == Some(q.tec[k]);
      }
    }
    assert p.ath == q.ath by {
      forall k | 0 <= k < |p.ath|
        ensures p.ath[k] == q.ath[k]
      {
        assert Some(p.ath[k]) == parse(Normalise(row.nested[1][k + 1])) == Some(q.ath[k]);
      }
    }
  }

  /** `float(judgeRow[-1])`: the subtotal closing a judge row, read as it
      stands. */
  function Subtotal(judgeRow: seq<string>, parse: NumberParser): Result<real>
  {
    if |judgeRow| == 0 then Err(EmptyJudgeRow)
    else Float(judgeRow[|judgeRow| - 1], parse)
  }

  /** The part of a row read once the guard has let it through: both
      subtotals must be numbers (they are read and then discarded), then the
      score, then the technical and then the athletic grades. A record is
      produced exactly when all of them are numbers. */
  function ScoredPerformance(ctx: Context, row: ResultRow, parse: NumberParser): (r: Result<Performance>)
    requires |row.bold| > 0 && |row.cells| >= 3 && |row.nested| >= 2
    ensures r.Ok? <==> NumbersRead(row, parse)
    ensures r.Ok? ==> RecordOf(ctx, row, parse, r.value)
  {
    var _ :- Subtotal(row.nested[0], parse);
    var _ :- Subtotal(row.nested[1], parse);
    var score :- Float(row.cells[|row.cells| - 1], parse);
    var r := GradedPerformance(ctx, row, parse, score);
    assert r.Ok? ==> NumbersRead(row, parse);
    r
  }

  /** The grades of a row whose subtotals and score were read, and the record
      built from them. */
  function GradedPerformance(ctx: Context, row: ResultRow, parse: NumberParser, score: real): (r: Result<Performance>)
    requires |row.bold| > 0 && |row.cells| >= 3 && |row.nested| >= 2
    requires parse(row.cells[|row.cells| - 1]) == Some(score)
    ensures r.Ok? <==> GradesRead(GradeCells(row.nested[0]), parse) && GradesRead(GradeCells(row.nested[1]), parse)
    ensures r.Ok? ==> RecordOf(ctx, row, parse, r.value)
    ensures ParseGrades(GradeCells(row.nested[0]), parse).Err? ==>
              r == Err(ParseGrades(GradeCells(row.nested[0]), parse).error)
    ensures ParseGrades(GradeCells(row.nested[0]), parse).Ok? && ParseGrades(GradeCells(row.nested[1]), parse).Err? ==>
              r == Err(ParseGrades(GradeCells(row.nested[1]), parse).error)
  {
    var tec :- ParseGrades(GradeCells(row.nested[0]), parse);
    var ath :- ParseGrades(GradeCells(row.nested[1]), parse);
    var p := Performance(ctx.tournament, ctx.category, ctx.pool,
                         CompetitorName(row.bold[0]), Nationality(row.bold[0]), row.cells[2], tec, ath, score);
    assert RecordOf(ctx, row, parse, p);
    Ok(p)
  }

  /** The subtotals and the score are read first, in that order: the first
      of them that is not a number decides the error. */
  lemma ScoredPerformanceNumbersFirst(ctx: Context, row: ResultRow, parse: NumberParser)
    requires |row.bold| > 0 && |row.cells| >= 3 && |row.nested| >= 2
    ensures Subtotal(row.nested[0], parse).Err? ==>
              ScoredPerformance(ctx, row, parse) == Err(Subtotal(row.nested[0], parse).error)
    ensures Subtotal(row.nested[0], parse).Ok? && Subtotal(row.nested[1], parse).Err? ==>
              ScoredPerformance(ctx, row, parse) == Err(Subtotal(row.nested[1], parse).error)
    ensures Subtotal(row.nested[0], parse).Ok? && Subtotal(row.nested[1], parse).Ok? &&
            parse(row.cells[|row.cells| - 1]).None? ==>
              ScoredPerformance(ctx, row, parse) == Err(NotANumber(row.cells[|row.cells| - 1]))
  {
  }

  /** Once the subtotals and the score are numbers, the grades decide: a
      failure reading the technical grades comes before one reading the
      athletic grades (and by the contract of `ParseGrades` it names the first
      grade that is not a number). */
  lemma ScoredPerformanceGradesNext(ctx: Context, row: ResultRow, parse: NumberParser)
    requires |row.bold| > 0 && |row.cells| >= 3 && |row.nested| >= 2
    requires Subtotal(row.nested[0], parse).Ok? && Subtotal(row.nested[1], parse).Ok?
    requires parse(row.cells[|row.cells| - 1]).Some?
    ensures ParseGrades(GradeCells(row.nested[0]), parse).Err? ==>
              ScoredPerformance(ctx, row, parse) == Err(ParseGrades(GradeCells(row.nested[0]), parse).error)
    ensures ParseGrades(GradeCells(row.nested[0]), parse).Ok? && ParseGrades(GradeCells(row.nested[1]), parse).Err? ==>
              ScoredPerformance(ctx, row, parse) == Err(ParseGrades(GradeCells(row.nested[1]), parse).error)
  {
    ScoredIsGraded(ctx, row, parse);
  }

  /** With both subtotals and the score read, what remains is the grades. */
  lemma ScoredIsGraded(ctx: Context, row: ResultRow, parse: NumberParser)
    requires |row.bold| > 0 && |row.cells| >= 3 && |row.nested| >= 2
    requires Subtotal(row.nested[0], parse).Ok? && Subtotal(row.nested[1], parse).Ok?
    requires parse(row.cells[|row.cells| - 1]).Some?
    ensures ScoredPerformance(ctx, row, parse) == GradedPerformance(ctx, row, parse, parse(row.cells[|row.cells| - 1]).value)
  {
  }

  /** The record of one result row, `None` for a competitor who did not
      perform, or the error the row raises. The competitor and the kata are
      read before the guard, so a row without them fails even when it would
      be skipped. */
  function RowPerformance(ctx: Context, row: ResultRow, parse: NumberParser): (r: Result<Option<Performance>>)
    ensures |row.bold| == 0 ==> r == Err(MissingCompetitor)
    ensures |row.bold| > 0 && |row.cells| < 3 ==> r == Err(MissingKataCell)
    ensures r == Ok(None) <==> |row.bold| > 0 && |row.cells| >= 3 && !Performed(row)
    ensures |row.bold| > 0 && |row.cells| >= 3 && Performed(row) && |row.nested| == 1 ==>
              r == Err(MissingAthleticRow)
    ensures r.Ok? && r.value.Some? ==> |row.cells| >= 3 && Performed(row)
    ensures r.Ok? && r.value.Some? ==> RecordOf(ctx, row, parse, r.value.value)
    ensures |row.bold| > 0 && |row.cells| >= 3 && Performed(row) && |row.nested| >= 2 ==>
              (r.Ok? <==> NumbersRead(row, parse))
    ensures |row.bold| > 0 && |row.cells| >= 3 && Performed(row) && |row.nested| >= 2 && r.Err? ==>
              r.error == ScoredPerformance(ctx, row, parse).error
  {
    if |row.bold| == 0 then Err(MissingCompetitor)
    else if |row.cells| < 3 then Err(MissingKataCell)
    else if !Performed(row) then Ok(None)
    else if |row.nested| < 2 then Err(MissingAthleticRow)
    else
      var p :- ScoredPerformance(ctx, row, parse);
      Ok(Some(p))
  }

  /** A performed row whose technical subtotal is written with a decimal
      comma aborts the scrape: the subtotal reaches `float` without comma
      normalisation. */
  lemma SubtotalWithCommaAborts(ctx: Context, row: ResultRow, parse: NumberParser)
    requires forall text :: ',' in text ==> parse(text).None?
    requires |row.bold| > 0 && |row.cells| >= 3 && Performed(row) && |row.nested| >= 2
    requires |row.nested[0]| > 0 && ',' in row.nested[0][|row.nested[0]| - 1]
    ensures RowPerformance(ctx, row, parse) == Err(NotANumber(row.nested[0][|row.nested[0]| - 1]))
  {
    assert Subtotal(row.nested[0], parse).Err?;
  }

  /** The same text is read as a grade but not as a subtotal: a grade with a
      decimal comma is normalised before `float`, a subtotal is not. */
  lemma CommaReadAsGradeNotAsSubtotal(g: string, parse: NumberParser)
    requires forall text :: ',' in text ==> parse(text).None?
    requires ',' in g && parse(Normalise(g)).Some?
    ensures ParseGrades([g], parse) == Ok([parse(Normalise(g)).value])
    ensures Subtotal([g], parse) == Err(NotANumber(g))
  {
    var r := ParseGrades([g], parse);
    assert [g][0] == g;
    assert r.Ok? && parse(Normalise(g)) == Some(r.value[0]);
    assert r.value == [r.value[0]];
  }

  /** The records of one row as a list: empty when the row is skipped. */
  function RowOutput(ctx: Context, row: ResultRow, parse: NumberParser): (r: Result<seq<Performance>>)
    ensures r.Ok? <==> RowPerformance(ctx, row, parse).Ok?
    ensures r.Ok? ==> |r.value| <= 1
    ensures r.Ok? && |r.value| == 1 ==> RowPerformance(ctx, row, parse) == Ok(Some(r.value[0]))
    ensures r == Ok([]) <==> RowPerformance(ctx, row, parse) == Ok(None)
    ensures r.Err? ==> RowPerformance(ctx, row, parse) == Err(r.error)
  {
    match RowPerformance(ctx, row, parse)
    case Err(e) => Err(e)
    case Ok(None) => Ok([])
    case Ok(Some(p)) => Ok([p])
  }

  // ---------------------------------------------------------------------------
  // Pools and rounds

  /** The records of the result rows of one pool, in row order. */
  function RowsPerformances(ctx: Context, rows: seq<ResultRow>, parse: NumberParser): (r: Result<seq<Performance>>)
    ensures r.Ok? <==> forall i :: 0 <= i < |rows| ==> RowPerformance(ctx, rows[i], parse).Ok?
    ensures r.Ok? ==> forall p :: p in r.value ==>
                        exists i :: 0 <= i < |rows| && RowPerformance(ctx, rows[i], parse) == Ok(Some(p))
    ensures r.Ok? ==> forall i, p :: 0 <= i < |rows| && RowPerformance(ctx, rows[i], parse) == Ok(Some(p)) ==>
                        p in r.value
    ensures r.Err? ==> exists i :: 0 <= i < |rows| && RowPerformance(ctx, rows[i], parse) == Err(r.error) &&
                                   forall j :: 0 <= j < i ==> RowPerformance(ctx, rows[j], parse).Ok?
  {
    var f := row => RowOutput(ctx, row, parse);
    var r := Concat(rows, f);
    assert r.Err? ==> exists i :: 0 <= i < |rows| && RowOutput(ctx, rows[i], parse) == Err(r.error) &&
                                  forall j :: 0 <= j < i ==> RowOutput(ctx, rows[j], parse).Ok?;
    FirstFailingRow(ctx, rows, parse, r);
    assert r.Ok? ==> forall u :: u in r.value ==> exists i :: 0 <= i < |rows| && RowOutput(ctx, rows[i], parse).Ok? && u in RowOutput(ctx, rows[i], parse).value;
    assert r.Ok? ==> forall i, u :: 0 <= i < |rows| && RowOutput(ctx, rows[i], parse).Ok? && u in RowOutput(ctx, rows[i], parse).value ==>
                         u in r.value;
    RowsRecordsAreRowRecords(ctx, rows, parse, r);
    r
  }

  /** The first failing row output is the first failing row. */
  lemma FirstFailingRow(ctx: Context, rows: seq<ResultRow>, parse: NumberParser, r: Result<seq<Performance>>)
    requires r.Err? ==> exists i :: 0 <= i < |rows| && RowOutput(ctx, rows[i], parse) == Err(r.error) &&
                                    forall j :: 0 <= j < i ==> RowOutput(ctx, rows[j], parse).Ok?
    ensures r.Err? ==> exists i :: 0 <= i < |rows| && RowPerformance(ctx, rows[i], parse) == Err(r.error) &&
                                   forall j :: 0 <= j < i ==> RowPerformance(ctx, rows[j], parse).Ok?
  {
    if r.Err? {
      var i :| 0 <= i < |rows| && RowOutput(ctx, rows[i], parse) == Err(r.error) &&
               forall j :: 0 <= j < i ==> RowOutput(ctx, rows[j], parse).Ok?;
      assert RowPerformance(ctx, rows[i], parse) == Err(r.error);
    }
  }

  /** Records collected from the row outputs are exactly the rows' records. */
  lemma RowsRecordsAreRowRecords(ctx: Context, rows: seq<ResultRow>, parse: NumberParser, r: Result<seq<Performance>>)
    requires r.Ok? ==> forall u :: u in r.value ==>
                         exists i :: 0 <= i < |rows| && RowOutput(ctx, rows[i], parse).Ok? && u in RowOutput(ctx, rows[i], parse).value
    requires r.Ok? ==> forall i, u :: 0 <= i < |rows| && RowOutput(ctx, rows[i], parse).Ok? && u in RowOutput(ctx, rows[i], parse).value ==>
                         u in r.value
    ensures r.Ok? ==> forall p :: p in r.value ==>
                        exists i :: 0 <= i < |rows| && RowPerformance(ctx, rows[i], parse) == Ok(Some(p))
    ensures r.Ok? ==> forall i, p :: 0 <= i < |rows| && RowPerformance(ctx, rows[i], parse) == Ok(Some(p)) ==>
                        p in r.value
  {
    if r.Ok? {
      CollectedAreRowRecords(ctx, rows, parse, r.value);
      RowRecordsAreCollected(ctx, rows, parse, r.value);
    }
  }

  /** Soundness half of the lemma above. */
  lemma CollectedAreRowRecords(ctx: Context, rows: seq<ResultRow>, parse: NumberParser, ps: seq<Performance>)
    requires forall u :: u in ps ==>
               exists i :: 0 <= i < |rows| && RowOutput(ctx, rows[i], parse).Ok? && u in RowOutput(ctx, rows[i], parse).value
    ensures forall p :: p in ps ==> exists i :: 0 <= i < |rows| && RowPerformance(ctx, rows[i], parse) == Ok(Some(p))
  {
    forall p | p in ps
      ensures exists i :: 0 <= i < |rows| && RowPerformance(ctx, rows[i], parse) == Ok(Some(p))
    {
      var i :| 0 <= i < |rows| && RowOutput(ctx, rows[i], parse).Ok? && p in RowOutput(ctx, rows[i], parse).value;
      assert RowOutput(ctx, rows[i], parse).value == [p];
    }
  }

  /** Completeness half of the lemma above. */
  lemma RowRecordsAreCollected(ctx: Context, rows: seq<ResultRow>, parse: NumberParser, ps: seq<Performance>)
    requires forall i, u :: 0 <= i < |rows| && RowOutput(ctx, rows[i], parse).Ok? && u in RowOutput(ctx, rows[i], parse).value ==>
               u in ps
    ensures forall i, p :: 0 <= i < |rows| && RowPerformance(ctx, rows[i], parse) == Ok(Some(p)) ==> p in ps
  {
    forall i, p | 0 <= i < |rows| && RowPerformance(ctx, rows[i], parse) == Ok(Some(p))
      ensures p in ps
    {
      assert RowOutput(ctx, rows[i], parse).value == [p];
    }
  }

  /** The records of one pool table: its label comes from the first row,
      then each result row in order. */
  function TablePerformances(tournament: string, category: string, table: PoolTable, parse: NumberParser)
    : (r: Result<seq<Performance>>)
    ensures table.firstRow.None? ==> r == Err(MissingPoolRow)
    ensures table.firstRow.Some? && ':' !in table.firstRow.value ==> r == Err(PoolWithoutColon)
    ensures r.Ok? ==> table.firstRow.Some? && PoolLabel(table.firstRow.value).Ok?
    ensures r.Ok? ==> forall p :: p in r.value ==>
                        p.tournament == tournament && p.category == category &&
                        p.pool == PoolLabel(table.firstRow.value).value
    ensures r.Ok? ==> forall p :: p in r.value ==>
                        exists i :: 0 <= i < |table.rows| &&
                          RowPerformance(Context(tournament, category, p.pool), table.rows[i], parse) == Ok(Some(p))
    ensures table.firstRow.Some? && ':' in table.firstRow.value ==>
              r == RowsPerformances(Context(tournament, category, PoolLabel(table.firstRow.value).value),
                                    table.rows, parse)
  {
    if table.firstRow.None? then Err(MissingPoolRow)
    else
      var pool :- PoolLabel(table.firstRow.value);
      RowsPerformances(Context(tournament, category, pool), table.rows, parse)
  }

  /** `get_round_performances` after fetching: the header of the page, then
      the records of every pool table in table order. */
  function RoundPerformances(page: DrawsPage, parse: NumberParser): (r: Result<seq<Performance>>)
    ensures ParseCategoryPage(page).Err? ==> r == Err(ParseCategoryPage(page).error)
    ensures r.Ok? ==> ParseCategoryPage(page).Ok?
    ensures r.Ok? ==> forall p :: p in r.value ==>
                        p.tournament == ParseCategoryPage(page).value.tournament &&
                        p.category == ParseCategoryPage(page).value.category
    ensures ParseCategoryPage(page).Ok? ==>
              var cat := ParseCategoryPage(page).value;
              (r.Ok? <==> forall t :: 0 <= t < |cat.tables| ==>
                            TablePerformances(cat.tournament, cat.category, cat.tables[t], parse).Ok?)
    ensures ParseCategoryPage(page).Ok? && r.Err? ==>
              var cat := ParseCategoryPage(page).value;
              exists t :: 0 <= t < |cat.tables| &&
                TablePerformances(cat.tournament, cat.category, cat.tables[t], parse) == Err(r.error) &&
                forall u :: 0 <= u < t ==> TablePerformances(cat.tournament, cat.category, cat.tables[u], parse).Ok?
    ensures r.Ok? ==>
              var cat := ParseCategoryPage(page).value;
              forall t, p ::
                (0 <= t < |cat.tables| && p in TablePerformances(cat.tournament, cat.category, cat.tables[t], parse).value)
                ==> p in r.value
  {
    var cat :- ParseCategoryPage(page);
    Concat(cat.tables, table => TablePerformances(cat.tournament, cat.category, table, parse))
  }

  // ---------------------------------------------------------------------------
  // Properties of the extraction

  /** Every record has a kata and at most seven grades of each kind. */
  predicate WellFormed(p: Performance) {
    |p.kata| > 0 && |p.tec| <= 7 && |p.ath| <= 7
  }

  lemma RowRecordWellFormed(ctx: Context, row: ResultRow, parse: NumberParser)
    ensures RowPerformance(ctx, row, parse).Ok? && RowPerformance(ctx, row, parse).value.Some? ==>
              WellFormed(RowPerformance(ctx, row, parse).value.value)
  {
  }

  /** Every record a round yields is well formed. */
  lemma RoundRecordsWellFormed(page: DrawsPage, parse: NumberParser)
    ensures RoundPerformances(page, parse).Ok? ==>
              forall p :: p in RoundPerformances(page, parse).value ==> WellFormed(p)
  {
    var r := RoundPerformances(page, parse);
    if r.Ok? {
      var cat := ParseCategoryPage(page).value;
      var f := table => TablePerformances(cat.tournament, cat.category, table, parse);
      assert r == Concat(cat.tables, f);
      forall p | p in r.value
        ensures WellFormed(p)
      {
        var t :| 0 <= t < |cat.tables| && p in f(cat.tables[t]).value;
        var table := cat.tables[t];
        var i :| 0 <= i < |table.rows| &&
                 RowPerformance(Context(cat.tournament, cat.category, p.pool), table.rows[i], parse) == Ok(Some(p));
        RowRecordWellFormed(Context(cat.tournament, cat.category, p.pool), table.rows[i], parse);
      }
    }
  }

  /** A row that is skipped adds nothing and leaves the records of the other
      rows of its pool as they were. */
  lemma SkippedRowChangesNothing(ctx: Context, before: seq<ResultRow>, row: ResultRow, after: seq<ResultRow>,
                                 parse: NumberParser)
    requires |row.bold| > 0 && |row.cells| >= 3 && !Performed(row)
    ensures RowsPerformances(ctx, before + [row] + after, parse) == RowsPerformances(ctx, before + after, parse)
  {
    ConcatSkip(before, row, after, row => RowOutput(ctx, row, parse));
  }

  /** A pool of one row yields that row's records. */
  lemma RowsSingle(ctx: Context, row: ResultRow, parse: NumberParser)
    ensures RowsPerformances(ctx, [row], parse) == RowOutput(ctx, row, parse)
  {
    ConcatSingle(row, row => RowOutput(ctx, row, parse));
  }

  /** The rows of a pool contribute their records in row order. */
  lemma RowsInOrder(ctx: Context, a: seq<ResultRow>, b: seq<ResultRow>, parse: NumberParser)
    ensures RowsPerformances(ctx, a + b, parse) ==
            Append(RowsPerformances(ctx, a, parse), RowsPerformances(ctx, b, parse))
  {
    ConcatAppend(a, b, row => RowOutput(ctx, row, parse));
  }

  /** When every table of a round succeeds, the round's records are the
      records of its tables, one table after the other. */
  lemma RoundIsTablesInOrder(page: DrawsPage, parse: NumberParser)
    requires ParseCategoryPage(page).Ok?
    requires var cat := ParseCategoryPage(page).value;
             forall t :: 0 <= t < |cat.tables| ==> TablePerformances(cat.tournament, cat.category, cat.tables[t], parse).Ok?
    ensures var cat := ParseCategoryPage(page).value;
            RoundPerformances(page, parse) ==
            Ok(Flatten(seq(|cat.tables|, t requires 0 <= t < |cat.tables| =>
                         TablePerformances(cat.tournament, cat.category, cat.tables[t], parse).value)))
  {
    var cat := ParseCategoryPage(page).value;
    var f := table => TablePerformances(cat.tournament, cat.category, table, parse);
    var outs := seq(|cat.tables|, t requires 0 <= t < |cat.tables| =>
                      TablePerformances(cat.tournament, cat.category, cat.tables[t], parse).value);
    assert Concat(cat.tables, f) == Ok(Flatten(outs)) by {
      ConcatIsFlatten(cat.tables, f);
      assert Outputs(cat.tables, f) == outs;
    }
    assert RoundPerformances(page, parse) == Concat(cat.tables, f);
  }
}
