/**
  The text operations the environment decoder relies on, written out the way
  Python's `str` methods behave on them: prefix test, ASCII lower-casing,
  `split("__")` and decimal literals.
 */
module Strings {

  predicate IsUpper(c: char) {
    'A' <= c <= 'Z'
  }

  predicate IsDigit(c: char) {
    '0' <= c <= '9'
  }

  /** Does `s` hold no upper-case ASCII letter? */
  predicate NoUpper(s: string) {
    forall i :: 0 <= i < |s| ==> !IsUpper(s[i])
  }

  /** `s.startswith(prefix)`. */
  predicate StartsWith(s: string, prefix: string) {
    |prefix| <= |s| && s[..|prefix|] == prefix
  }

  function LowerChar(c: char): (r: char)
    ensures !IsUpper(r)
    ensures !IsUpper(c) ==> r == c
    ensures IsUpper(c) ==> r != c
  {
    if IsUpper(c) then (c as int + 32) as char else c
  }

  /** `s.lower()` restricted to ASCII letters. */
  function Lower(s: string): (r: string)
    ensures |r| == |s|
    ensures NoUpper(r)
    ensures forall i :: 0 <= i < |s| && !IsUpper(s[i]) ==> r[i] == s[i]
    ensures forall i :: 0 <= i < |s| && IsUpper(s[i]) ==> r[i] == (s[i] as int + 32) as char
  {
    seq(|s|, i requires 0 <= i < |s| => LowerChar(s[i]))
  }

  // ---------------------------------------------------------------------
  // split("__") and its inverse
  // ---------------------------------------------------------------------

  const Sep: string := "__"

  /** Does `s` contain the separator `__` anywhere? */
  predicate HasSep(s: string) {
    exists i :: 0 <= i < |s| - 1 && s[i] == '_' && s[i + 1] == '_'
  }

  /** `s.split("__")`: scanning left to right, each leftmost `__` ends a segment. */
  function Split(s: string): (r: seq<string>)
    ensures |r| > 0
  {
    SplitFrom(s, "")
  }

  /** The scan behind `Split`; `cur` is the segment read so far. */
  function SplitFrom(s: string, cur: string): (r: seq<string>)
    ensures |r| > 0
    decreases |s|
  {
    if s == [] then [cur]
    else if |s| >= 2 && s[0] == '_' && s[1] == '_' then [cur] + SplitFrom(s[2..], "")
    else SplitFrom(s[1..], cur + [s[0]])
  }

  /** `"__".join(parts)`. */
  function Join(parts: seq<string>): string
    requires |parts| > 0
    decreases |parts|
  {
    if |parts| == 1 then parts[0] else parts[0] + Sep + Join(parts[1..])
  }

  /**
    The lists of segments `split("__")` can return: no segment contains `__`,
    and no segment but the last ends in `_` (a trailing `_` followed by the
    separator would have been read as the start of the separator).
   */
  predicate SplitShaped(parts: seq<string>) {
    && |parts| > 0
    && (forall i :: 0 <= i < |parts| ==> !HasSep(parts[i]))
    && (forall i :: 0 <= i < |parts| - 1 ==> parts[i] == [] || parts[i][|parts[i]| - 1] != '_')
  }

  lemma {:induction false} JoinSplitFrom(s: string, cur: string)
    ensures Join(SplitFrom(s, cur)) == cur + s
    decreases |s|
  {
    if s == [] {
    } else if |s| >= 2 && s[0] == '_' && s[1] == '_' {
      JoinSplitFrom(s[2..], "");
      assert s == Sep + s[2..];
    } else {
      JoinSplitFrom(s[1..], cur + [s[0]]);
      assert cur + [s[0]] + s[1..] == cur + s;
    }
  }

  /** Joining the segments with `__` gives back the split string. */
  lemma JoinSplit(s: string)
    ensures Join(Split(s)) == s
  {
    JoinSplitFrom(s, "");
  }

  lemma {:induction false} SplitFromShaped(s: string, cur: string)
    requires !HasSep(cur)
    requires s != [] && s[0] == '_' ==> cur == [] || cur[|cur| - 1] != '_'
    ensures SplitShaped(SplitFrom(s, cur))
    decreases |s|
  {
    if s == [] {
    } else if |s| >= 2 && s[0] == '_' && s[1] == '_' {
      SplitFromShaped(s[2..], "");
      var rest := SplitFrom(s[2..], "");
      var r := [cur] + rest;
      forall i | 0 <= i < |r|
        ensures !HasSep(r[i])
      {
        if i > 0 {
          assert r[i] == rest[i - 1];
        }
      }
      forall i | 0 <= i < |r| - 1
        ensures r[i] == [] || r[i][|r[i]| - 1] != '_'
      {
        if i > 0 {
          assert r[i] == rest[i - 1];
        }
      }
    } else {
      var next := cur + [s[0]];
      forall i | 0 <= i < |next| - 1
        ensures !(next[i] == '_' && next[i + 1] == '_')
      {
        if i < |cur| - 1 {
          assert next[i] == cur[i] && next[i + 1] == cur[i + 1];
        }
      }
      SplitFromShaped(s[1..], next);
    }
  }

  /** Every list `Split` returns is split-shaped. */
  lemma SplitShapedResult(s: string)
    ensures SplitShaped(Split(s))
  {
    SplitFromShaped(s, "");
  }

  /** Reading a segment free of `__` just extends the current segment. */
  lemma {:induction false} SplitFromSegment(seg: string, t: string, cur: string)
    requires !HasSep(seg)
    requires seg != [] && t != [] && t[0] == '_' ==> seg[|seg| - 1] != '_'
    ensures SplitFrom(seg + t, cur) == SplitFrom(t, cur + seg)
    decreases |seg|
  {
    if seg != [] {
      var s := seg + t;
      assert s[0] == seg[0];
      if |seg| >= 2 {
        assert !(seg[0] == '_' && seg[1] == '_');
      }
      assert !(|s| >= 2 && s[0] == '_' && s[1] == '_');
      assert s[1..] == seg[1..] + t;
      assert cur + [s[0]] + seg[1..] == cur + seg;
      assert SplitFrom(s, cur) == SplitFrom(s[1..], cur + [s[0]]);
      if |seg| > 1 {
        assert !(seg[0] == '_' && seg[1] == '_');
        forall i | 0 <= i < |seg[1..]| - 1
          ensures !(seg[1..][i] == '_' && seg[1..][i + 1] == '_')
        {
          assert seg[1..][i] == seg[i + 1] && seg[1..][i + 1] == seg[i + 2];
        }
      }
      SplitFromSegment(seg[1..], t, cur + [s[0]]);
    } else {
      assert seg + t == t && cur + seg == cur;
    }
  }

  /** Splitting a `__`-join of split-shaped segments gives the segments back. */
  lemma {:induction false} SplitJoin(parts: seq<string>)
    requires SplitShaped(parts)
    ensures Split(Join(parts)) == parts
  {
    SplitJoinFrom(parts);
  }

  lemma {:induction false} SplitJoinFrom(parts: seq<string>)
    requires SplitShaped(parts)
    ensures SplitFrom(Join(parts), "") == parts
    decreases |parts|
  {
    var seg := parts[0];
    if |parts| == 1 {
      SplitFromSegment(seg, [], "");
      assert seg + [] == seg;
      assert [] + seg == seg;
    } else {
      var rest := parts[1..];
      assert SplitShaped(rest) by {
        forall i | 0 <= i < |rest| - 1
          ensures rest[i] == [] || rest[i][|rest[i]| - 1] != '_'
        {
          assert rest[i] == parts[i + 1];
        }
      }
      var t := Sep + Join(rest);
      assert Join(parts) == seg + t;
      SplitFromSegment(seg, t, "");
      assert [] + seg == seg;
      assert t[2..] == Join(rest);
      assert SplitFrom(t, seg) == [seg] + SplitFrom(Join(rest), "");
      SplitJoinFrom(rest);
    }
  }

  // ---------------------------------------------------------------------
  // Decimal literals
  // ---------------------------------------------------------------------

  predicate AllDigits(s: string) {
    forall i :: 0 <= i < |s| ==> IsDigit(s[i])
  }

  /** The digits after an optional leading `-`. */
  function Unsigned(s: string): (r: string)
    ensures |r| <= |s|
  {
    if s != [] && s[0] == '-' then s[1..] else s
  }

  /** An optionally negative base-10 integer: `-?[0-9]+`. */
  predicate IsIntLiteral(s: string) {
    var d := Unsigned(s);
    d != [] && AllDigits(d)
  }

  /** An optionally negative decimal with a point: `-?[0-9]+\.[0-9]+`. */
  predicate IsFloatLiteral(s: string) {
    var d := Unsigned(s);
    exists i :: 0 < i < |d| - 1 && d[i] == '.' && AllDigits(d[..i]) && AllDigits(d[i + 1..])
  }

  /** A float literal is never an integer literal. */
  lemma FloatIsNotInt(s: string)
    requires IsFloatLiteral(s)
    ensures !IsIntLiteral(s)
  {
    var d := Unsigned(s);
    var i :| 0 < i < |d| - 1 && d[i] == '.' && AllDigits(d[..i]) && AllDigits(d[i + 1..]);
    assert !IsDigit(d[i]);
  }

  /** The value of a string of decimal digits (`int(ds)`). */
  function DigitsValue(ds: string): (n: nat)
    requires AllDigits(ds)
    decreases |ds|
  {
    if ds == [] then 0
    else DigitsValue(ds[..|ds| - 1]) * 10 + (ds[|ds| - 1] as int - '0' as int)
  }

  /** `int(s)` for an integer literal. */
  function IntValue(s: string): int
    requires IsIntLiteral(s)
  {
    var n: int := DigitsValue(Unsigned(s));
    if s[0] == '-' then -n else n
  }

  /** `str(n)` for a natural number: no leading zeros, at least one digit. */
  function ShowNat(n: nat): (r: string)
    ensures r != [] && AllDigits(r)
    ensures r[0] == '0' ==> n == 0
    decreases n
  {
    var d := ['0' + (n % 10) as char];
    if n < 10 then d else ShowNat(n / 10) + d
  }

  /** `str(n)`. */
  function ShowInt(n: int): (r: string)
    ensures IsIntLiteral(r)
  {
    if n < 0 then "-" + ShowNat(-n) else ShowNat(n)
  }

  lemma {:induction false} DigitsShowNat(n: nat)
    ensures DigitsValue(ShowNat(n)) == n
    decreases n
  {
    var r := ShowNat(n);
    if n >= 10 {
      DigitsShowNat(n / 10);
      assert r[..|r| - 1] == ShowNat(n / 10);
    }
  }

  /** Printing an integer and reading it back gives the integer. */
  lemma IntShowInt(n: int)
    ensures IntValue(ShowInt(n)) == n
  {
    if n < 0 {
      assert Unsigned(ShowInt(n)) == ShowNat(-n);
      DigitsShowNat(-n);
    } else {
      DigitsShowNat(n);
    }
  }
}
