/**
  The deep-merge and normalisation results the repository's tests assert,
  stated as lemmas about the model.
 */
module DictExamples {
  import opened Wrappers
  import opened Values
  import opened Dicts

  /** Merging zero mappings, and merging with `{}` on either side. */
  lemma MergeEmptyCases()
    ensures MergeAll([]) == Empty
    ensures Merge(Empty, Empty) == Empty
    ensures Merge(Empty, map["a" := Int(1)]) == map["a" := Int(1)]
    ensures Merge(map["a" := Int(1)], Empty) == map["a" := Int(1)]
  {
    MergeEmptyLeft(map["a" := Int(1)]);
  }

  /** Flat mappings: a disjoint union, and a scalar conflict won by the right. */
  lemma MergeSimpleCases()
    ensures Merge(map["a" := Int(1), "b" := Int(2)], map["c" := Int(3), "d" := Int(4)])
         == map["a" := Int(1), "b" := Int(2), "c" := Int(3), "d" := Int(4)]
    ensures Merge(map["a" := Int(1), "b" := Int(2)], map["b" := Int(3), "c" := Int(4)])
         == map["a" := Int(1), "b" := Int(3), "c" := Int(4)]
  {
    MergePointwise(map["a" := Int(1), "b" := Int(2)], map["c" := Int(3), "d" := Int(4)],
                   map["a" := Int(1), "b" := Int(2), "c" := Int(3), "d" := Int(4)]);
    MergePointwise(map["a" := Int(1), "b" := Int(2)], map["b" := Int(3), "c" := Int(4)],
                   map["a" := Int(1), "b" := Int(3), "c" := Int(4)]);
  }

  /** Nested mappings merge and keep keys from both sides. */
  lemma MergeNestedCase()
    ensures Merge(map["a" := Map(map["x" := Int(1), "z" := Int(5)]), "b" := Int(2)],
                  map["a" := Map(map["y" := Int(3), "z" := Int(6)]), "c" := Int(4)])
         == map["a" := Map(map["x" := Int(1), "y" := Int(3), "z" := Int(6)]), "b" := Int(2), "c" := Int(4)]
  {
    MergeNestedInner();
    MergePointwise(map["a" := Map(map["x" := Int(1), "z" := Int(5)]), "b" := Int(2)],
                   map["a" := Map(map["y" := Int(3), "z" := Int(6)]), "c" := Int(4)],
                   map["a" := Map(map["x" := Int(1), "y" := Int(3), "z" := Int(6)]), "b" := Int(2), "c" := Int(4)]);
  }

  lemma MergeNestedInner()
    ensures Merge(map["x" := Int(1), "z" := Int(5)], map["y" := Int(3), "z" := Int(6)])
         == map["x" := Int(1), "y" := Int(3), "z" := Int(6)]
  {
    MergePointwise(map["x" := Int(1), "z" := Int(5)], map["y" := Int(3), "z" := Int(6)],
                   map["x" := Int(1), "y" := Int(3), "z" := Int(6)]);
  }

  /** The merge recurses at every depth. */
  lemma MergeDeepCase()
    ensures Merge(map["a" := Map(map["b" := Map(map["c" := Int(1)])])],
                  map["a" := Map(map["b" := Map(map["d" := Int(2)])])])
         == map["a" := Map(map["b" := Map(map["c" := Int(1), "d" := Int(2)])])]
  {
    var b1, b2 := map["c" := Int(1)], map["d" := Int(2)];
    var b12 := map["c" := Int(1), "d" := Int(2)];
    MergePointwise(b1, b2, b12);
    MergePointwise(map["b" := Map(b1)], map["b" := Map(b2)], map["b" := Map(b12)]);
    MergePointwise(map["a" := Map(map["b" := Map(b1)])], map["a" := Map(map["b" := Map(b2)])],
                   map["a" := Map(map["b" := Map(b12)])]);
  }

  /** Three mappings merged left to right. */
  lemma MergeThreeCase()
    ensures MergeAll([map["a" := Int(1), "b" := Map(map["x" := Int(10)])],
                      map["c" := Int(3), "b" := Map(map["y" := Int(20)])],
                      map["a" := Int(5), "d" := Int(4), "b" := Map(map["z" := Int(30)])]])
         == map["a" := Int(5), "b" := Map(map["x" := Int(10), "y" := Int(20), "z" := Int(30)]),
                "c" := Int(3), "d" := Int(4)]
  {
    var d1 := map["a" := Int(1), "b" := Map(map["x" := Int(10)])];
    var d2 := map["c" := Int(3), "b" := Map(map["y" := Int(20)])];
    var d3 := map["a" := Int(5), "d" := Int(4), "b" := Map(map["z" := Int(30)])];
    MergeAllSnoc([d1, d2], d3);
    MergeAllSnoc([d1], d2);
    MergeAllCons(d1, []);
    assert [d1, d2, d3] == [d1, d2] + [d3];
    assert [d1, d2] == [d1] + [d2];
    MergeFirstTwo();
    MergeThird();
  }

  lemma MergeFirstTwo()
    ensures Merge(map["a" := Int(1), "b" := Map(map["x" := Int(10)])],
                  map["c" := Int(3), "b" := Map(map["y" := Int(20)])])
         == map["a" := Int(1), "b" := Map(map["x" := Int(10), "y" := Int(20)]), "c" := Int(3)]
  {
    MergePointwise(map["x" := Int(10)], map["y" := Int(20)], map["x" := Int(10), "y" := Int(20)]);
    MergePointwise(map["a" := Int(1), "b" := Map(map["x" := Int(10)])],
                   map["c" := Int(3), "b" := Map(map["y" := Int(20)])],
                   map["a" := Int(1), "b" := Map(map["x" := Int(10), "y" := Int(20)]), "c" := Int(3)]);
  }

  lemma MergeThird()
    ensures Merge(map["a" := Int(1), "b" := Map(map["x" := Int(10), "y" := Int(20)]), "c" := Int(3)],
                  map["a" := Int(5), "d" := Int(4), "b" := Map(map["z" := Int(30)])])
         == map["a" := Int(5), "b" := Map(map["x" := Int(10), "y" := Int(20), "z" := Int(30)]),
                "c" := Int(3), "d" := Int(4)]
  {
    var inner := map["x" := Int(10), "y" := Int(20)];
    var m12 := map["a" := Int(1), "b" := Map(inner), "c" := Int(3)];
    var d3 := map["a" := Int(5), "d" := Int(4), "b" := Map(map["z" := Int(30)])];
    MergeThirdInner();
    MergePointwise(m12, d3, map["a" := Int(5), "b" := Map(map["x" := Int(10), "y" := Int(20), "z" := Int(30)]),
                                "c" := Int(3), "d" := Int(4)]);
  }

  lemma MergeThirdInner()
    ensures Merge(map["x" := Int(10), "y" := Int(20)], map["z" := Int(30)]) == map["x" := Int(10), "y" := Int(20), "z" := Int(30)]
  {
    MergeDisjoint(map["x" := Int(10), "y" := Int(20)], map["z" := Int(30)]);
  }

  /** Type-changing conflicts are won wholesale by the right, in both directions. */
  lemma MergeTypeChangeCases()
    ensures Merge(map["a" := Map(map["x" := Int(1)]), "b" := Int(2)],
                  map["a" := Int(10), "b" := Map(map["y" := Int(20)])])
         == map["a" := Int(10), "b" := Map(map["y" := Int(20)])]
    ensures Merge(map["a" := Int(10), "b" := Map(map["y" := Int(20)])],
                  map["a" := Map(map["x" := Int(1)]), "b" := Int(2)])
         == map["a" := Map(map["x" := Int(1)]), "b" := Int(2)]
  {
    var p := map["a" := Map(map["x" := Int(1)]), "b" := Int(2)];
    var q := map["a" := Int(10), "b" := Map(map["y" := Int(20)])];
    MergePointwise(p, q, q);
    MergePointwise(q, p, p);
  }

  /** Lists from a later mapping replace earlier ones wholesale. */
  lemma ListsReplacedCase()
    ensures Merge(map["strategies" := List([Str("first")])], map["strategies" := List([Str("second")])])
         == map["strategies" := List([Str("second")])]
  {
  }

  /** Absent mappings become `{}`; present ones, arity and order are kept. */
  lemma InitDictsCases()
    ensures InitDicts([None, None, None]) == [Empty, Empty, Empty]
    ensures InitDicts([Some(map["a" := Int(1)]), None, Some(map["b" := Int(2)])])
         == [map["a" := Int(1)], Empty, map["b" := Int(2)]]
    ensures InitDicts([Some(map["a" := Int(1)]), Some(map["b" := Int(2)]), Some(map["c" := Int(3)])])
         == [map["a" := Int(1)], map["b" := Int(2)], map["c" := Int(3)]]
    ensures InitDicts([]) == []
    ensures InitDicts([Some(Empty), None]) == [Empty, Empty]
  {
  }
}
