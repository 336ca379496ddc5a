/**
  The deep merge of configuration mappings (`dict_deep_merge`) and the
  normalisation of optional mappings (`dict_init_dicts_from_list`).

  Merging is a structural match on the two values under a key: two nested
  mappings merge recursively, and every other pair is settled by taking the
  right-hand value wholesale, whatever the types involved. No key is ever
  dropped.
 */
module Dicts {
  import opened Wrappers
  import opened Values

  /** The value under a key present in both operands. */
  function MergeValue(x: Value, y: Value): (r: Value)
    ensures !(x.Map? && y.Map?) ==> r == y
    ensures r.Map? <==> y.Map?
    ensures x.Map? && y.Map? ==> r.m.Keys == x.m.Keys + y.m.Keys
    ensures x.Map? && y.Map? ==> r == Map(Merge(x.m, y.m))
    decreases x, 1
  {
    match (x, y)
    case (Map(mx), Map(my)) => Map(Merge(mx, my))
    case _ => y
  }

  /** `dict_deep_merge(a, b)`: `b` laid over `a`. */
  function Merge(a: Config, b: Config): (r: Config)
    ensures r.Keys == a.Keys + b.Keys
    ensures forall k :: k in a && k !in b ==> r[k] == a[k]
    ensures forall k :: k in b && k !in a ==> r[k] == b[k]
    ensures forall k :: k in a && k in b ==> r[k] == MergeValue(a[k], b[k])
    decreases Map(a), 0
  {
    map k | k in a.Keys + b.Keys ::
      if k in a && k in b then MergeValue(a[k], b[k])
      else if k in b then b[k]
      else a[k]
  }

  /** `dict_deep_merge(*dicts)`: the mappings merged left to right, starting from `{}`. */
  function MergeAll(dicts: seq<Config>): (r: Config)
    ensures dicts == [] ==> r == Empty
  {
    MergeFrom(Empty, dicts)
  }

  /** The left fold behind `MergeAll`, with its accumulator. */
  function MergeFrom(acc: Config, dicts: seq<Config>): Config
    decreases |dicts|
  {
    if dicts == [] then acc else MergeFrom(Merge(acc, dicts[0]), dicts[1..])
  }

  /** An absent mapping read as `{}`. */
  function OrEmpty(d: Option<Config>): Config {
    match d
    case Some(m) => m
    case None => Empty
  }

  /** `dict_init_dicts_from_list(*args)`: every absent mapping becomes `{}`,
      present ones pass through, arity and order are kept. */
  function InitDicts(args: seq<Option<Config>>): (r: seq<Config>)
    ensures |r| == |args|
    ensures forall i :: 0 <= i < |args| && args[i].Some? ==> r[i] == args[i].value
    ensures forall i :: 0 <= i < |args| && args[i].None? ==> r[i] == Empty
    decreases |args|
  {
    if args == [] then []
    else
      [OrEmpty(args[0])] + InitDicts(args[1..])
  }

  // ---------------------------------------------------------------------
  // Algebraic properties of the binary merge
  // ---------------------------------------------------------------------

  /** `{}` on the left changes nothing. */
  lemma MergeEmptyLeft(a: Config)
    ensures Merge(Empty, a) == a
  {
    assert forall k :: k in a ==> Merge(Empty, a)[k] == a[k];
  }

  /** `{}` on the right changes nothing. */
  lemma MergeEmptyRight(a: Config)
    ensures Merge(a, Empty) == a
  {
  }

  /** With no key in common, the merge is the plain union. */
  lemma MergeDisjoint(a: Config, b: Config)
    requires a.Keys !! b.Keys
    ensures Merge(a, b) == a + b
  {
  }

  /** The merge is fixed by its keys and the value under each key: a
      candidate that agrees on both is the merge. */
  lemma MergePointwise(a: Config, b: Config, r: Config)
    requires r.Keys == a.Keys + b.Keys
    requires forall k :: k in a && k in b ==> r[k] == MergeValue(a[k], b[k])
    requires forall k :: k in a && k !in b ==> r[k] == a[k]
    requires forall k :: k in b && k !in a ==> r[k] == b[k]
    ensures Merge(a, b) == r
  {
  }

  /** Merging a mapping with itself gives it back, at every depth. */
  lemma {:induction false} MergeIdempotent(a: Config)
    ensures Merge(a, a) == a
    decreases Map(a)
  {
    forall k | k in a
      ensures Merge(a, a)[k] == a[k]
    {
      if a[k].Map? {
        MergeIdempotent(a[k].m);
      }
    }
  }

  /** Laying the same mapping over twice is the same as laying it over once. */
  lemma {:induction false} MergeAbsorbs(a: Config, b: Config)
    ensures Merge(Merge(a, b), b) == Merge(a, b)
    decreases Map(a), 1
  {
    var ab := Merge(a, b);
    var abb := Merge(ab, b);
    assert abb.Keys == ab.Keys;
    forall k | k in ab
      ensures abb[k] == ab[k]
    {
      if k in b {
        AbsorbsAt(a, b, k);
      }
    }
  }

  /** One key of `MergeAbsorbs`. */
  lemma {:induction false} AbsorbsAt(a: Config, b: Config, k: string)
    requires k in b
    ensures Merge(Merge(a, b), b)[k] == Merge(a, b)[k]
    decreases Map(a), 0
  {
    var ab := Merge(a, b);
    if b[k].Map? {
      var mb := b[k].m;
      if k in a && a[k].Map? {
        assert ab[k] == MergeValue(a[k], b[k]);
        MergeAbsorbs(a[k].m, mb);
        assert ab[k] == Map(Merge(a[k].m, mb));
      } else {
        MergeIdempotent(mb);
        assert ab[k] == if k in a then MergeValue(a[k], b[k]) else b[k];
      }
      assert Merge(ab, b)[k] == MergeValue(ab[k], b[k]);
    }
  }

  /** Deep merge is not associative: regrouping a chain of layers can change
      the result, so the order in which layers are folded is part of the contract. */
  lemma MergeNotAssociative()
    ensures
      var a := map["x" := Map(map["y" := Int(1)])];
      var b := map["x" := Int(0)];
      var c := map["x" := Map(map["z" := Int(2)])];
      Merge(Merge(a, b), c) != Merge(a, Merge(b, c))
  {
    var a := map["x" := Map(map["y" := Int(1)])];
    var b := map["x" := Int(0)];
    var c := map["x" := Map(map["z" := Int(2)])];
    assert Merge(Merge(a, b), c)["x"] == Map(map["z" := Int(2)]);
    assert "y" in Merge(a, Merge(b, c))["x"].m;
  }

  // ---------------------------------------------------------------------
  // The path view: which leaf ends up where
  // ---------------------------------------------------------------------

  /**
    The leaf of `Merge(a, b)` at any path: `b`'s leaf if it has one there;
    otherwise `a`'s leaf when `b` says nothing at or above the path; and no
    leaf when `b` puts a nested mapping at the path or a leaf above it.
   */
  lemma {:induction false} MergeLeaf(a: Config, b: Config, p: Path)
    ensures LeafOf(Merge(a, b), p) ==
      if LeafOf(b, p).Some? then LeafOf(b, p)
      else if Untouched(b, p) then LeafOf(a, p)
      else None
    decreases |p|
  {
    if p != [] {
      var k, q := p[0], p[1..];
      if k in a && k in b && a[k].Map? && b[k].Map? && q != [] {
        MergeLeaf(a[k].m, b[k].m, q);
      }
    }
  }

  /** Every leaf of the right operand survives the merge unchanged. */
  lemma MergeKeepsRightLeaves(a: Config, b: Config, p: Path)
    requires LeafOf(b, p).Some?
    ensures LeafOf(Merge(a, b), p) == LeafOf(b, p)
  {
    MergeLeaf(a, b, p);
  }

  // ---------------------------------------------------------------------
  // The variadic merge
  // ---------------------------------------------------------------------

  /** `MergeFrom` merges an accumulator then the rest, so appending one more
      mapping merges it last. */
  lemma {:induction false} MergeFromSnoc(acc: Config, dicts: seq<Config>, d: Config)
    ensures MergeFrom(acc, dicts + [d]) == Merge(MergeFrom(acc, dicts), d)
    decreases |dicts|
  {
    if dicts == [] {
      assert dicts + [d] == [d];
    } else {
      assert (dicts + [d])[1..] == dicts[1..] + [d];
      MergeFromSnoc(Merge(acc, dicts[0]), dicts[1..], d);
    }
  }

  /** The variadic merge is the left fold of the binary one:
      `merge(d1, ..., dn, d) == merge(merge(d1, ..., dn), d)`. */
  lemma MergeAllSnoc(dicts: seq<Config>, d: Config)
    ensures MergeAll(dicts + [d]) == Merge(MergeAll(dicts), d)
  {
    MergeFromSnoc(Empty, dicts, d);
  }

  /** Starting the fold from a first mapping is the same as merging it first. */
  lemma MergeAllCons(d: Config, dicts: seq<Config>)
    ensures MergeAll([d] + dicts) == MergeFrom(d, dicts)
  {
    assert ([d] + dicts)[1..] == dicts;
    MergeEmptyLeft(d);
  }

  /** A key is in the variadic merge exactly when some operand has it. */
  lemma {:induction false} MergeAllKeys(dicts: seq<Config>, k: string)
    ensures k in MergeAll(dicts) <==> exists i :: 0 <= i < |dicts| && k in dicts[i]
    decreases |dicts|
  {
    if dicts != [] {
      var init, last := dicts[..|dicts| - 1], dicts[|dicts| - 1];
      assert dicts == init + [last];
      MergeAllSnoc(init, last);
      MergeAllKeys(init, k);
      if k in MergeAll(init) {
        var i :| 0 <= i < |init| && k in init[i];
        assert dicts[i] == init[i];
      }
      if exists i :: 0 <= i < |dicts| && k in dicts[i] {
        var i :| 0 <= i < |dicts| && k in dicts[i];
        if i < |init| {
          assert init[i] == dicts[i];
        }
      }
    }
  }

  /**
    The precedence chain as an independent reference: the leaf at path `p`
    of a stack of layers is the topmost layer's leaf there, looking further
    down only past layers that say nothing at or above `p`.
   */
  function LeafAt(layers: seq<Config>, p: Path): Option<Value>
    decreases |layers|
  {
    if layers == [] then None
    else
      var top := layers[|layers| - 1];
      if LeafOf(top, p).Some? then LeafOf(top, p)
      else if Untouched(top, p) then LeafAt(layers[..|layers| - 1], p)
      else None
  }

  /** Folding the layers with the deep merge resolves every leaf by the precedence chain. */
  lemma {:induction false} MergeAllLeaf(layers: seq<Config>, p: Path)
    ensures LeafOf(MergeAll(layers), p) == LeafAt(layers, p)
    decreases |layers|
  {
    if layers == [] {
      if p != [] {
        assert p[0] !in Empty;
      }
    } else {
      var init, top := layers[..|layers| - 1], layers[|layers| - 1];
      assert layers == init + [top];
      MergeAllSnoc(init, top);
      MergeLeaf(MergeAll(init), top, p);
      MergeAllLeaf(init, p);
    }
  }
}
