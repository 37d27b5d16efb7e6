/** The ways a scrape can fail, the optional and result types that carry
    absent values and failures, and the in-order concatenation every level of
    the aggregation uses. Python raises and stops at the first failure; here
    the first failure is the result. */
module Outcomes {

  /** A value that may be absent: Python's `None`, or a failed lookup. */
  datatype Option<+T> = None | Some(value: T)

  /** One constructor per exception the scraper can raise on malformed input. */
  datatype Error =
    | MissingHeader            // no "newsheader" block: `find_all(...)[0]` fails
    | HeaderWithoutSeparator   // `rsplit(" - ", 1)` gave one piece: unpacking fails
    | MissingPoolRow           // a pool table without any row
    | PoolWithoutColon         // `split(":")[1]` out of range
    | MissingCompetitor        // a result row without bold text
    | MissingKataCell          // a result row with fewer than three cells
    | MissingAthleticRow       // one nested row where two are read
    | EmptyJudgeRow            // a nested row without cells: `[-1]` fails
    | NotANumber(text: string) // `float(text)` rejects the text
    | NothingToConcatenate     // `pd.concat([])`

  datatype Result<+T> = Ok(value: T) | Err(error: Error) {

    predicate IsFailure() {
      Err?
    }

    function PropagateFailure<U>(): Result<U>
      requires Err?
    {
      Err(error)
    }

    function Extract(): T
      requires Ok?
    {
      value
    }
  }

  /** Two record lists side by side: the first failure wins, otherwise the
      records of the first followed by those of the second. */
  function Append<U>(x: Result<seq<U>>, y: Result<seq<U>>): (r: Result<seq<U>>)
    ensures r.Ok? <==> x.Ok? && y.Ok?
    ensures x.Err? ==> r == x
    ensures x.Ok? && y.Err? ==> r == y
    ensures r.Ok? ==> |r.value| == |x.value| + |y.value|
    ensures r.Ok? ==> r.value[..|x.value|] == x.value && r.value[|x.value|..] == y.value
  {
    if x.Err? then x
    else if y.Err? then y
    else Ok(x.value + y.value)
  }

  lemma AppendAssociative<U>(x: Result<seq<U>>, y: Result<seq<U>>, z: Result<seq<U>>)
    ensures Append(Append(x, y), z) == Append(x, Append(y, z))
  {
    if x.Ok? && y.Ok? && z.Ok? {
      assert (x.value + y.value) + z.value == x.value + (y.value + z.value);
    }
  }

  /** Apply `f` to each element in order and concatenate the record lists;
      the first element whose result is a failure decides the failure. */
  function Concat<T, U>(xs: seq<T>, f: T -> Result<seq<U>>): (r: Result<seq<U>>)
    ensures r.Ok? <==> forall i :: 0 <= i < |xs| ==> f(xs[i]).Ok?
    ensures r.Err? ==> exists i :: 0 <= i < |xs| && f(xs[i]) == Err(r.error) &&
                                   forall j :: 0 <= j < i ==> f(xs[j]).Ok?
    ensures r.Ok? ==> forall u :: u in r.value ==>
                        exists i :: 0 <= i < |xs| && u in f(xs[i]).value
    ensures r.Ok? ==> forall i, u :: 0 <= i < |xs| && u in f(xs[i]).value ==> u in r.value
  {
    if |xs| == 0 then Ok([])
    else
      var tail := Concat(xs[1..], f);
      assert forall i :: 1 <= i < |xs| ==> xs[i] == xs[1..][i - 1];
      var r := Append(f(xs[0]), tail);
      assert r.Err? && f(xs[0]).Ok? ==> exists i :: 1 <= i < |xs| && f(xs[i]) == Err(r.error) &&
                                                  forall j :: 0 <= j < i ==> f(xs[j]).Ok? by {
        if r.Err? && f(xs[0]).Ok? {
          var i :| 0 <= i < |xs| - 1 && f(xs[1..][i]) == Err(r.error) &&
                   forall j :: 0 <= j < i ==> f(xs[1..][j]).Ok?;
          assert forall j :: 1 <= j < i + 1 ==> f(xs[j]) == f(xs[1..][j - 1]);
          assert f(xs[i + 1]) == Err(r.error);
        }
      }
      assert r.Ok? ==> forall i, u :: 0 <= i < |xs| && u in f(xs[i]).value ==> u in r.value by {
        if r.Ok? {
          forall i, u | 0 <= i < |xs| && u in f(xs[i]).value
            ensures u in r.value
          {
            if i == 0 {
              assert u in r.value[..|f(xs[0]).value|];
            } else {
              assert u in f(xs[1..][i - 1]).value;
              assert u in r.value[|f(xs[0]).value|..];
            }
          }
        }
      }
      r
  }

  /** The plain concatenation of a list of lists. */
  function Flatten<U>(xss: seq<seq<U>>): (r: seq<U>)
  {
    if |xss| == 0 then [] else xss[0] + Flatten(xss[1..])
  }

  /** The outputs of `f`, all of which are records. */
  function Outputs<T, U>(xs: seq<T>, f: T -> Result<seq<U>>): (outs: seq<seq<U>>)
    requires forall i :: 0 <= i < |xs| ==> f(xs[i]).Ok?
    ensures |outs| == |xs|
    ensures forall i :: 0 <= i < |xs| ==> outs[i] == f(xs[i]).value
  {
    seq(|xs|, i requires 0 <= i < |xs| => f(xs[i]).value)
  }

  /** When nothing fails, the records are exactly the outputs of the elements,
      one after the other, in element order. */
  lemma {:induction false} ConcatIsFlatten<T, U>(xs: seq<T>, f: T -> Result<seq<U>>)
    requires forall i :: 0 <= i < |xs| ==> f(xs[i]).Ok?
    ensures Concat(xs, f) == Ok(Flatten(Outputs(xs, f)))
    decreases |xs|
  {
    if |xs| > 0 {
      assert forall i :: 0 <= i < |xs| - 1 ==> xs[1..][i] == xs[i + 1];
      ConcatIsFlatten(xs[1..], f);
      assert Outputs(xs, f)[1..] == Outputs(xs[1..], f);
    }
  }

  /** The same, for any list that holds the outputs element by element. */
  lemma ConcatIsFlattenOf<T, U>(xs: seq<T>, f: T -> Result<seq<U>>, outs: seq<seq<U>>)
    requires forall i :: 0 <= i < |xs| ==> f(xs[i]).Ok?
    requires |outs| == |xs| && forall i :: 0 <= i < |xs| ==> outs[i] == f(xs[i]).value
    ensures Concat(xs, f) == Ok(Flatten(outs))
  {
    ConcatIsFlatten(xs, f);
    assert Outputs(xs, f) == outs;
  }

  /** Concatenating over two lists is concatenating their concatenations. */
  lemma {:induction false} ConcatAppend<T, U>(a: seq<T>, b: seq<T>, f: T -> Result<seq<U>>)
    ensures Concat(a + b, f) == Append(Concat(a, f), Concat(b, f))
    decreases |a|
  {
    if |a| == 0 {
      assert a + b == b;
      var y := Concat(b, f);
      if y.Ok? {
        assert [] + y.value == y.value;
      }
    } else {
      assert (a + b)[1..] == a[1..] + b;
      assert (a + b)[0] == a[0];
      ConcatAppend(a[1..], b, f);
      AppendAssociative(f(a[0]), Concat(a[1..], f), Concat(b, f));
    }
  }

  /** A one-element list yields that element's result. */
  lemma ConcatSingle<T, U>(x: T, f: T -> Result<seq<U>>)
    ensures Concat([x], f) == f(x)
  {
    assert Concat([x], f) == Append(f(x), Concat([x][1..], f));
    if f(x).Ok? {
      assert f(x).value + [] == f(x).value;
    }
  }

  /** An element whose output is empty can be dropped without changing the
      records of any other element. */
  lemma ConcatSkip<T, U>(a: seq<T>, x: T, b: seq<T>, f: T -> Result<seq<U>>)
    requires f(x) == Ok([])
    ensures Concat(a + [x] + b, f) == Concat(a + b, f)
  {
    ConcatAppend(a + [x], b, f);
    ConcatAppend(a, [x], f);
    ConcatAppend(a, b, f);
    assert Concat([x], f) == Append(f(x), Concat([], f));
    var ca := Concat(a, f);
    if ca.Ok? {
      assert ca.value + [] == ca.value;
    }
  }
}
