/** The record as the dictionary the source builds for it: fixed identity
    fields, then one field per technical grade ("TEC1", "TEC2", ...), one per
    athletic grade ("ATH1", ...), then the score. */
module Columns {
  import opened PyStrings
  import opened Performances

  datatype Value = Text(text: string) | Number(x: real)

  /** No key occurs twice. */
  predicate Distinct(keys: seq<string>) {
    forall i, j :: 0 <= i < j < |keys| ==> keys[i] != keys[j]
  }

  /** `[prefix + str(i + 1) for i in range(0, n)]`. */
  function GradeKeys(prefix: string, n: nat): (keys: seq<string>)
    ensures |keys| == n
    ensures forall i :: 0 <= i < n ==> keys[i] == prefix + DecimalString(i + 1)
    ensures Distinct(keys)
  {
    if n == 0 then []
    else
      var keys := GradeKeys(prefix, n - 1) + [prefix + DecimalString(n)];
      forall i, j | 0 <= i < j < n
        ensures keys[i] != keys[j]
      {
        if keys[i] == keys[j] {
          assert keys[i][|prefix|..] == DecimalString(i + 1);
          assert keys[j][|prefix|..] == DecimalString(j + 1);
          DecimalStringInjective(i + 1, j + 1);
        }
      }
      keys
  }

  /** `dict(zip(keys, grades))` for the grades of one kind, in judge order. */
  function GradeFields(prefix: string, grades: seq<real>): (fields: seq<(string, Value)>)
    ensures |fields| == |grades|
    ensures forall k :: 0 <= k < |grades| ==>
              fields[k] == (prefix + DecimalString(k + 1), Number(grades[k]))
  {
    var keys := GradeKeys(prefix, |grades|);
    seq(|grades|, k requires 0 <= k < |grades| => (keys[k], Number(grades[k])))
  }

  /** The fields of a record in the order they are inserted. */
  function Fields(p: Performance): (fields: seq<(string, Value)>)
    ensures |fields| == 7 + |p.tec| + |p.ath|
    ensures fields[..6] == [("Tournament", Text(p.tournament)), ("Category", Text(p.category)),
                            ("Pool", Text(p.pool)), ("Name", Text(p.name)),
                            ("Nationality", Text(p.nationality)), ("Kata", Text(p.kata))]
    ensures forall k :: 0 <= k < |p.tec| ==> fields[6 + k] == ("TEC" + DecimalString(k + 1), Number(p.tec[k]))
    ensures forall k :: 0 <= k < |p.ath| ==>
              fields[6 + |p.tec| + k] == ("ATH" + DecimalString(k + 1), Number(p.ath[k]))
    ensures fields[|fields| - 1] == ("Score", Number(p.score))
  {
    var fixed := [("Tournament", Text(p.tournament)), ("Category", Text(p.category)),
                  ("Pool", Text(p.pool)), ("Name", Text(p.name)),
                  ("Nationality", Text(p.nationality)), ("Kata", Text(p.kata))];
    var fields := fixed + GradeFields("TEC", p.tec) + GradeFields("ATH", p.ath) + [("Score", Number(p.score))];
    assert fields[..6] == fixed;
    fields
  }

  /** The keys of the fields, in order. */
  function Keys(fields: seq<(string, Value)>): (keys: seq<string>)
    ensures |keys| == |fields|
    ensures forall i :: 0 <= i < |fields| ==> keys[i] == fields[i].0
  {
    seq(|fields|, i requires 0 <= i < |fields| => fields[i].0)
  }

  lemma KeysAppend(a: seq<(string, Value)>, b: seq<(string, Value)>)
    ensures Keys(a + b) == Keys(a) + Keys(b)
  {
  }

  /** The keys of the identity fields. */
  const IdentityKeys: seq<string> := ["Tournament", "Category", "Pool", "Name", "Nationality", "Kata"]

  lemma KeysOfGradeFields(prefix: string, grades: seq<real>)
    ensures Keys(GradeFields(prefix, grades)) == GradeKeys(prefix, |grades|)
  {
  }

  /** The keys of a record: identity keys, `TEC1..TECn`, `ATH1..ATHm` and
      "Score". */
  lemma KeysOfFields(p: Performance)
    ensures Keys(Fields(p)) == IdentityKeys + GradeKeys("TEC", |p.tec|) + GradeKeys("ATH", |p.ath|) + ["Score"]
  {
    var id := [("Tournament", Text(p.tournament)), ("Category", Text(p.category)),
               ("Pool", Text(p.pool)), ("Name", Text(p.name)),
               ("Nationality", Text(p.nationality)), ("Kata", Text(p.kata))];
    var t, a, sc := GradeFields("TEC", p.tec), GradeFields("ATH", p.ath), [("Score", Number(p.score))];
    assert Fields(p) == id + t + a + sc;
    KeysAppend(id + t + a, sc);
    KeysAppend(id + t, a);
    KeysAppend(id, t);
    assert Keys(id) == IdentityKeys;
    KeysOfGradeFields("TEC", p.tec);
    KeysOfGradeFields("ATH", p.ath);
    assert Keys(sc) == ["Score"];
  }

  // ---------------------------------------------------------------------------
  // The keys of a record are pairwise different. Each group of keys is told
  // apart from the others by its second character: 'o' or 'a' for the
  // identity keys, 'E' for "TEC", 'T' for "ATH" and 'c' for "Score".

  /** All keys have a second character, and it is in `marks`. */
  predicate SecondCharIn(keys: seq<string>, marks: set<char>) {
    forall i :: 0 <= i < |keys| ==> |keys[i]| >= 2 && keys[i][1] in marks
  }

  lemma DistinctAppend(a: seq<string>, b: seq<string>)
    requires Distinct(a) && Distinct(b)
    requires forall x, y :: x in a && y in b ==> x != y
    ensures Distinct(a + b)
  {
    forall i, j | 0 <= i < j < |a + b|
      ensures (a + b)[i] != (a + b)[j]
    {
      if j >= |a| && i < |a| {
        assert (a + b)[i] in a && (a + b)[j] in b;
      }
    }
  }

  lemma DistinctByMark(a: seq<string>, ma: set<char>, b: seq<string>, mb: set<char>)
    requires Distinct(a) && Distinct(b)
    requires SecondCharIn(a, ma) && SecondCharIn(b, mb) && ma !! mb
    ensures Distinct(a + b)
    ensures SecondCharIn(a + b, ma + mb)
  {
    DistinctAppend(a, b);
  }

  lemma GradeKeysSecondChar(prefix: string, n: nat)
    requires |prefix| >= 2
    ensures SecondCharIn(GradeKeys(prefix, n), {prefix[1]})
  {
  }

  lemma IdentityKeysShape()
    ensures Distinct(IdentityKeys)
    ensures SecondCharIn(IdentityKeys, {'o', 'a'})
  {
  }

  lemma IdentityWithGrades(tec: seq<string>, ath: seq<string>) returns (front: seq<string>)
    requires Distinct(tec) && Distinct(ath)
    requires SecondCharIn(tec, {'E'}) && SecondCharIn(ath, {'T'})
    ensures front == IdentityKeys + tec + ath
    ensures Distinct(front) && SecondCharIn(front, {'o', 'a', 'E', 'T'})
  {
    IdentityKeysShape();
    DistinctByMark(IdentityKeys, {'o', 'a'}, tec, {'E'});
    assert {'o', 'a'} + {'E'} == {'o', 'a', 'E'};
    DistinctByMark(IdentityKeys + tec, {'o', 'a', 'E'}, ath, {'T'});
    assert {'o', 'a', 'E'} + {'T'} == {'o', 'a', 'E', 'T'};
    front := IdentityKeys + tec + ath;
  }

  lemma GroupsDistinct(tec: seq<string>, ath: seq<string>)
    requires Distinct(tec) && Distinct(ath)
    requires SecondCharIn(tec, {'E'}) && SecondCharIn(ath, {'T'})
    ensures Distinct(IdentityKeys + tec + ath + ["Score"])
  {
    var front := IdentityWithGrades(tec, ath);
    DistinctByMark(front, {'o', 'a', 'E', 'T'}, ["Score"], {'c'});
  }

  /** No two fields of a record share a key: every `update` of the source
      adds new keys, so the dictionary keeps every field. */
  lemma FieldKeysDistinct(p: Performance)
    ensures Distinct(Keys(Fields(p)))
  {
    KeysOfFields(p);
    GradeKeysSecondChar("TEC", |p.tec|);
    GradeKeysSecondChar("ATH", |p.ath|);
    GroupsDistinct(GradeKeys("TEC", |p.tec|), GradeKeys("ATH", |p.ath|));
  }
}
