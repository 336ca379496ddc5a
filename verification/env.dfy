/**
  The environment decoder (`get_config_from_env`, `_parse_env_var_value`).

  The process environment is an explicit snapshot: a sequence of
  (name, value) pairs in enumeration order. Every variable named
  `{PREFIX}__{PATH}` is decoded into a leaf of a nested mapping at the
  lower-cased, `__`-separated PATH, and the variables are laid over each
  other in snapshot order with the deep merge, so a later variable wins a
  collision at a leaf and a type collision on the way replaces wholesale.
 */
module Env {
  import opened Wrappers
  import opened Values
  import opened Dicts
  import opened Strings

  /** A snapshot of the process environment, in enumeration order. */
  type Environ = seq<(string, string)>

  /** Is `s` fully wrapped in a matching pair of single or double quotes? */
  predicate IsQuoted(s: string) {
    |s| >= 2 && (s[0] == '\'' || s[0] == '"') && s[|s| - 1] == s[0]
  }

  /** Facts about the first character of numeric literals that keep them off the earlier rungs. */
  lemma NumericHead(s: string)
    requires IsIntLiteral(s) || IsFloatLiteral(s)
    ensures s != [] && (s[0] == '-' || IsDigit(s[0]))
    ensures !IsQuoted(s) && s != "true" && s != "false"
  {
    var d := Unsigned(s);
    if IsFloatLiteral(s) {
      var i :| 0 < i < |d| - 1 && d[i] == '.' && AllDigits(d[..i]) && AllDigits(d[i + 1..]);
      assert IsDigit(d[..i][0]);
    }
    assert IsDigit(d[0]);
    if s[0] == '-' {
      assert s[1] == d[0];
    }
  }

  /**
    `_parse_env_var_value`: the coercion ladder, first match wins: empty to
    null, quoted to the inner text, exactly `true`/`false` (case-sensitive) to
    booleans, an integer literal to an integer, a decimal literal to a float,
    and anything else to the text unchanged.
   */
  function ParseEnvValue(s: string): (v: Value)
    ensures IsScalar(v)
  {
    if s == [] then Null
    else if IsQuoted(s) then Str(s[1..|s| - 1])
    else if s == "true" then Bool(true)
    else if s == "false" then Bool(false)
    else if IsIntLiteral(s) then Int(IntValue(s))
    else if IsFloatLiteral(s) then Float(s)
    else Str(s)
  }

  /**
    What each rung of the ladder yields, stated as conditions on the input
    alone: no earlier rung shadows a later one, so every kind of result
    comes from exactly the inputs of its own shape.
   */
  lemma ParseEnvValueLadder(s: string)
    ensures ParseEnvValue(s) == Null <==> s == []
    ensures ParseEnvValue(s).Bool? <==> s == "true" || s == "false"
    ensures ParseEnvValue(s).Bool? ==> ParseEnvValue(s).b == (s == "true")
    ensures ParseEnvValue(s).Int? <==> IsIntLiteral(s)
    ensures ParseEnvValue(s).Int? ==> ParseEnvValue(s).i == IntValue(s)
    ensures ParseEnvValue(s).Float? <==> IsFloatLiteral(s)
    ensures ParseEnvValue(s).Float? ==> ParseEnvValue(s).literal == s
    ensures ParseEnvValue(s).Str? <==>
      s != [] && (IsQuoted(s) || (s != "true" && s != "false" && !IsIntLiteral(s) && !IsFloatLiteral(s)))
    ensures ParseEnvValue(s).Str? ==> ParseEnvValue(s).s == if IsQuoted(s) then s[1..|s| - 1] else s
  {
    if IsIntLiteral(s) || IsFloatLiteral(s) {
      NumericHead(s);
    }
    if IsFloatLiteral(s) {
      FloatIsNotInt(s);
    }
  }

  /** The scalars an environment variable can carry. */
  predicate Encodable(v: Value) {
    match v
    case Float(lit) => IsFloatLiteral(lit)
    case _ => IsScalar(v)
  }

  /** Text for an environment variable that decodes to `v`; strings are always
      quoted, the ladder's escape hatch. */
  function EncodeEnvValue(v: Value): string
    requires Encodable(v)
  {
    match v
    case Null => ""
    case Bool(b) => if b then "true" else "false"
    case Int(n) => ShowInt(n)
    case Float(lit) => lit
    case Str(s) => "'" + s + "'"
  }

  /** Every encodable scalar decodes back from its encoding. */
  lemma ParseEncode(v: Value)
    requires Encodable(v)
    ensures ParseEnvValue(EncodeEnvValue(v)) == v
  {
    ParseEnvValueLadder(EncodeEnvValue(v));
    match v
    case Int(n) =>
      IntShowInt(n);
    case Str(s) =>
      var e := "'" + s + "'";
      assert IsQuoted(e) && e[1..|e| - 1] == s;
    case _ =>
  }

  /** Whatever the decoder produces can be written back as a variable. */
  lemma ParsedEncodable(s: string)
    ensures Encodable(ParseEnvValue(s))
  {
    ParseEnvValueLadder(s);
  }

  // ---------------------------------------------------------------------
  // From variable names to nested mappings
  // ---------------------------------------------------------------------

  /** The key path a variable named `name` decodes to, if it carries `{prefix}__`. */
  function VarPath(prefix: string, name: string): (r: Option<Path>)
    ensures r.Some? <==> StartsWith(name, prefix + Sep)
  {
    var head := prefix + Sep;
    if StartsWith(name, head) then Some(Split(Lower(name[|head|..]))) else None
  }

  /**
    A decoded path is the lower-cased rest of the name cut at every `__`:
    joined back with `__` it gives that rest, its segments have the shape
    `split` produces, and none of them holds an upper-case letter.
   */
  lemma VarPathShape(prefix: string, name: string)
    requires VarPath(prefix, name).Some?
    ensures SplitShaped(VarPath(prefix, name).value)
    ensures Join(VarPath(prefix, name).value) == Lower(name[|prefix| + 2..])
    ensures forall i :: 0 <= i < |VarPath(prefix, name).value| ==> NoUpper(VarPath(prefix, name).value[i])
  {
    var rest := Lower(name[|prefix| + 2..]);
    SplitShapedResult(rest);
    JoinSplit(rest);
    SplitNoUpper(rest);
  }

  lemma {:induction false} SplitFromNoUpper(s: string, cur: string)
    requires NoUpper(s) && NoUpper(cur)
    ensures forall i :: 0 <= i < |SplitFrom(s, cur)| ==> NoUpper(SplitFrom(s, cur)[i])
    decreases |s|
  {
    if s == [] {
    } else if |s| >= 2 && s[0] == '_' && s[1] == '_' {
      SplitFromNoUpper(s[2..], "");
    } else {
      SplitFromNoUpper(s[1..], cur + [s[0]]);
    }
  }

  lemma SplitNoUpper(s: string)
    requires NoUpper(s)
    ensures forall i :: 0 <= i < |Split(s)| ==> NoUpper(Split(s)[i])
  {
    SplitFromNoUpper(s, "");
  }

  /** The mapping holding `v` at path `p` and nothing else. */
  function Nest(p: Path, v: Value): (r: Config)
    requires p != []
    ensures r.Keys == {p[0]}
    ensures Lookup(r, p) == Some(v)
    decreases |p|
  {
    if |p| == 1 then map[p[0] := v] else map[p[0] := Map(Nest(p[1..], v))]
  }

  /** Two paths diverge when they differ at some position both have. */
  predicate Diverge(p: Path, q: Path)
    decreases |p|
  {
    p != [] && q != [] && (p[0] != q[0] || Diverge(p[1..], q[1..]))
  }

  /** A single nested leaf says nothing at or above `p` exactly when its path diverges from `p`. */
  lemma {:induction false} UntouchedNest(q: Path, v: Value, p: Path)
    requires q != [] && IsLeaf(v)
    ensures Untouched(Nest(q, v), p) <==> Diverge(q, p)
    decreases |q|
  {
    if p != [] && |q| > 1 && p[0] == q[0] {
      UntouchedNest(q[1..], v, p[1..]);
    }
  }

  /** The decoded variables laid over each other in snapshot order. */
  function DecodeVars(prefix: string, env: Environ): Config
    decreases |env|
  {
    if env == [] then Empty
    else
      var acc := DecodeVars(prefix, env[..|env| - 1]);
      var (name, value) := env[|env| - 1];
      match VarPath(prefix, name)
      case None => acc
      case Some(p) => Merge(acc, Nest(p, ParseEnvValue(value)))
  }

  /** `get_config_from_env(prefix)`: decoding is opt-in; no prefix, or an empty one, decodes nothing. */
  function GetConfigFromEnv(prefix: Option<string>, env: Environ): (r: Config)
    ensures prefix.None? || prefix == Some("") ==> r == Empty
    ensures prefix.Some? && prefix.value != "" ==> r == DecodeVars(prefix.value, env)
  {
    match prefix
    case None => Empty
    case Some(pre) => if pre == "" then Empty else DecodeVars(pre, env)
  }

  // ---------------------------------------------------------------------
  // Properties of the decoder
  // ---------------------------------------------------------------------

  /** Variables without `{prefix}__` contribute nothing. */
  lemma UnrelatedIgnored(prefix: string, env: Environ, name: string, value: string)
    requires !StartsWith(name, prefix + Sep)
    ensures DecodeVars(prefix, env + [(name, value)]) == DecodeVars(prefix, env)
  {
    assert (env + [(name, value)])[..|env|] == env;
  }

  /** When no variable carries the prefix, the decoded mapping is `{}`. */
  lemma {:induction false} NoMatchDecodesEmpty(prefix: string, env: Environ)
    requires forall i :: 0 <= i < |env| ==> !StartsWith(env[i].0, prefix + Sep)
    ensures DecodeVars(prefix, env) == Empty
    decreases |env|
  {
    if env != [] {
      NoMatchDecodesEmpty(prefix, env[..|env| - 1]);
    }
  }

  /** The top-level keys are exactly the first path segments of the matching variables. */
  lemma {:induction false} DecodeKeys(prefix: string, env: Environ, k: string)
    ensures k in DecodeVars(prefix, env) <==>
      exists i :: 0 <= i < |env| && VarPath(prefix, env[i].0).Some? && VarPath(prefix, env[i].0).value[0] == k
    decreases |env|
  {
    if env != [] {
      var init := env[..|env| - 1];
      DecodeKeys(prefix, init, k);
      if exists i :: 0 <= i < |init| && VarPath(prefix, init[i].0).Some? && VarPath(prefix, init[i].0).value[0] == k {
        var i :| 0 <= i < |init| && VarPath(prefix, init[i].0).Some? && VarPath(prefix, init[i].0).value[0] == k;
        assert env[i] == init[i];
      }
      if exists i :: 0 <= i < |env| && VarPath(prefix, env[i].0).Some? && VarPath(prefix, env[i].0).value[0] == k {
        var i :| 0 <= i < |env| && VarPath(prefix, env[i].0).Some? && VarPath(prefix, env[i].0).value[0] == k;
        if i < |init| {
          assert init[i] == env[i];
        }
      }
    }
  }

  /**
    A matching variable's decoded value sits at its path unless a later
    matching variable's path runs into it (the same path, a path above it,
    or a path below it).
   */
  lemma {:induction false} DecodeLands(prefix: string, env: Environ, i: nat)
    requires i < |env| && VarPath(prefix, env[i].0).Some?
    requires forall j :: i < j < |env| && VarPath(prefix, env[j].0).Some? ==>
      Diverge(VarPath(prefix, env[j].0).value, VarPath(prefix, env[i].0).value)
    ensures LeafOf(DecodeVars(prefix, env), VarPath(prefix, env[i].0).value) == Some(ParseEnvValue(env[i].1))
    decreases |env|
  {
    var p := VarPath(prefix, env[i].0).value;
    var init := env[..|env| - 1];
    var acc := DecodeVars(prefix, init);
    var (name, value) := env[|env| - 1];
    if i == |env| - 1 {
      var x := ParseEnvValue(value);
      MergeKeepsRightLeaves(acc, Nest(p, x), p);
    } else {
      assert env[i] == init[i];
      forall j | i < j < |init| && VarPath(prefix, init[j].0).Some?
        ensures Diverge(VarPath(prefix, init[j].0).value, p)
      {
        assert init[j] == env[j];
      }
      DecodeLands(prefix, init, i);
      match VarPath(prefix, name)
      case None =>
      case Some(q) =>
        var x := ParseEnvValue(value);
        UntouchedNest(q, x, p);
        NestLeaves(q, x, p);
        MergeLeaf(acc, Nest(q, x), p);
    }
  }

  /** The one-leaf mapping each matching variable contributes, in snapshot order. */
  function EnvLayers(prefix: string, env: Environ): (r: seq<Config>)
    ensures |r| <= |env|
    decreases |env|
  {
    if env == [] then []
    else
      var init := EnvLayers(prefix, env[..|env| - 1]);
      var (name, value) := env[|env| - 1];
      match VarPath(prefix, name)
      case None => init
      case Some(p) => init + [Nest(p, ParseEnvValue(value))]
  }

  /** The decoded mapping is the deep merge of the variables' one-leaf
      mappings and of nothing else: no key or value comes from anywhere but
      a matching variable. */
  lemma {:induction false} DecodeIsLayered(prefix: string, env: Environ)
    ensures DecodeVars(prefix, env) == MergeAll(EnvLayers(prefix, env))
    decreases |env|
  {
    if env != [] {
      var init := env[..|env| - 1];
      DecodeIsLayered(prefix, init);
      var (name, value) := env[|env| - 1];
      match VarPath(prefix, name)
      case None =>
      case Some(p) =>
        MergeAllSnoc(EnvLayers(prefix, init), Nest(p, ParseEnvValue(value)));
    }
  }

  /** Leaf by leaf, the decoded mapping resolves the variables by the
      precedence chain: a later variable beats an earlier one. */
  lemma DecodeLeaf(prefix: string, env: Environ, p: Path)
    ensures LeafOf(DecodeVars(prefix, env), p) == LeafAt(EnvLayers(prefix, env), p)
  {
    DecodeIsLayered(prefix, env);
    MergeAllLeaf(EnvLayers(prefix, env), p);
  }

  /** A single nested leaf has no leaf on a diverging path. */
  lemma {:induction false} NestLeaves(q: Path, v: Value, p: Path)
    requires q != [] && Diverge(q, p)
    ensures LeafOf(Nest(q, v), p) == None
    decreases |q|
  {
    if |q| > 1 && p[0] == q[0] {
      NestLeaves(q[1..], v, p[1..]);
    }
  }

  /** Every key, at every depth, of a mapping: free of upper-case ASCII letters. */
  predicate LowerKeys(v: Value)
    decreases v
  {
    v.Map? ==> forall k :: k in v.m ==> NoUpper(k) && LowerKeys(v.m[k])
  }

  lemma {:induction false} MergeLowerKeys(a: Config, b: Config)
    requires LowerKeys(Map(a)) && LowerKeys(Map(b))
    ensures LowerKeys(Map(Merge(a, b)))
    decreases Map(a)
  {
    var r := Merge(a, b);
    forall k | k in r
      ensures NoUpper(k) && LowerKeys(r[k])
    {
      if k in a && k in b {
        assert r[k] == MergeValue(a[k], b[k]);
        if a[k].Map? && b[k].Map? {
          MergeLowerKeys(a[k].m, b[k].m);
        }
      } else if k in b {
        assert r[k] == b[k];
      }
    }
  }

  lemma {:induction false} NestLowerKeys(p: Path, v: Value)
    requires p != [] && IsScalar(v)
    requires forall i :: 0 <= i < |p| ==> NoUpper(p[i])
    ensures LowerKeys(Map(Nest(p, v)))
    decreases |p|
  {
    if |p| > 1 {
      NestLowerKeys(p[1..], v);
    }
  }

  /** Only keys are lower-cased: every key of the decoded mapping, at every depth, is lower-case. */
  lemma {:induction false} DecodeLowerKeys(prefix: string, env: Environ)
    ensures LowerKeys(Map(DecodeVars(prefix, env)))
    decreases |env|
  {
    if env != [] {
      var init := env[..|env| - 1];
      DecodeLowerKeys(prefix, init);
      var (name, value) := env[|env| - 1];
      match VarPath(prefix, name)
      case None =>
      case Some(p) =>
        VarPathShape(prefix, name);
        NestLowerKeys(p, ParseEnvValue(value));
        MergeLowerKeys(DecodeVars(prefix, init), Nest(p, ParseEnvValue(value)));
    }
  }
}
