/**
 * The two name converters of viiva/beziers.py:28-35, `snake_to_camel` and
 * `camel_to_snake`, over strings of characters. Letter case is ASCII case:
 * the regular expression `[A-Z]` is ASCII, and `lower`, `upper` and
 * `capitalize` are modelled on the ASCII letters.
 */
module NameCase {

  predicate IsUpper(c: char) {
    'A' <= c <= 'Z'
  }

  predicate IsLower(c: char) {
    'a' <= c <= 'z'
  }

  function Lower(c: char): (r: char)
    ensures !IsUpper(r)
    ensures !IsUpper(c) ==> r == c
    ensures IsUpper(c) ==> IsLower(r)
  {
    if IsUpper(c) then (c as int + 32) as char else c
  }

  function Upper(c: char): (r: char)
    ensures !IsLower(r)
    ensures !IsLower(c) ==> r == c
    ensures IsLower(c) ==> IsUpper(r)
  {
    if IsLower(c) then (c as int - 32) as char else c
  }

  /** Lowering and raising an ASCII letter are inverse. */
  lemma UpperOfLower(c: char)
    requires IsUpper(c)
    ensures Upper(Lower(c)) == c
  {
  }

  predicate NoUpper(s: string) {
    forall i :: 0 <= i < |s| ==> !IsUpper(s[i])
  }

  /** Every character is ASCII, where Python's case mapping is the one modelled here. */
  predicate IsAscii(s: string) {
    forall i :: 0 <= i < |s| ==> s[i] as int < 128
  }

  predicate NoUnderscore(s: string) {
    forall i :: 0 <= i < |s| ==> s[i] != '_'
  }

  /** `str.lower()`, character by character. */
  function LowerAll(s: string): (r: string)
    ensures |r| == |s| && NoUpper(r)
    ensures forall i :: 0 <= i < |s| ==> r[i] == Lower(s[i])
  {
    seq(|s|, i requires 0 <= i < |s| => Lower(s[i]))
  }

  lemma LowerAllAppend(a: string, b: string)
    ensures LowerAll(a + b) == LowerAll(a) + LowerAll(b)
  {
  }

  lemma LowerAllNoUpper(s: string)
    requires NoUpper(s)
    ensures LowerAll(s) == s
  {
  }

  /** The number of uppercase letters. */
  function UpperCount(s: string): nat {
    if |s| == 0 then 0 else (if IsUpper(s[0]) then 1 else 0) + UpperCount(s[1..])
  }

  /** `'_'` before each uppercase letter of s, which lies after the string's first position. */
  function MarkUpper(s: string): (r: string)
    ensures |r| == |s| + UpperCount(s)
    ensures NoUpper(s) ==> r == s
  {
    if |s| == 0 then ""
    else (if IsUpper(s[0]) then "_" + [s[0]] else [s[0]]) + MarkUpper(s[1..])
  }

  /** `re.sub(r'(?<!^)(?=[A-Z])', '_', s)`: an underscore before every uppercase letter but one at index 0. */
  function Underscored(s: string): (r: string)
    ensures |r| == |s| + (if |s| == 0 then 0 else UpperCount(s[1..]))
  {
    if |s| == 0 then "" else [s[0]] + MarkUpper(s[1..])
  }

  /** `camel_to_snake(s)`. */
  function CamelToSnake(s: string): string {
    LowerAll(Underscored(s))
  }

  /** No uppercase letter survives, and one '_' is added per uppercase letter past index 0. */
  lemma CamelToSnakeShape(s: string)
    ensures NoUpper(CamelToSnake(s))
    ensures |CamelToSnake(s)| == |s| + (if |s| == 0 then 0 else UpperCount(s[1..]))
  {
  }

  /** Converting a converted name again changes nothing. */
  lemma CamelToSnakeIdempotent(s: string)
    ensures CamelToSnake(CamelToSnake(s)) == CamelToSnake(s)
  {
    var t := CamelToSnake(s);
    if |t| > 0 {
      assert NoUpper(t[1..]);
      assert Underscored(t) == t by {
        assert [t[0]] + t[1..] == t;
      }
      LowerAllNoUpper(t);
    }
  }

  /** `s.split('_')`: the pieces between underscores, "" giving [""]. */
  function Components(s: string): (parts: seq<string>)
    ensures |parts| >= 1
    ensures forall k :: 0 <= k < |parts| ==> NoUnderscore(parts[k])
  {
    if |s| == 0 then [""]
    else
      var rest := Components(s[1..]);
      if s[0] == '_' then [""] + rest else [[s[0]] + rest[0]] + rest[1..]
  }

  /** The pieces joined with '_'. */
  function JoinUnderscore(parts: seq<string>): string
    requires |parts| >= 1
  {
    if |parts| == 1 then parts[0] else parts[0] + "_" + JoinUnderscore(parts[1..])
  }

  /** Splitting loses nothing: the pieces joined back with '_' are the string. */
  lemma {:induction false} SplitJoin(s: string)
    ensures JoinUnderscore(Components(s)) == s
  {
    if |s| > 0 {
      SplitJoin(s[1..]);
      var rest := Components(s[1..]);
      if s[0] == '_' {
        assert [""] + rest == [""] + rest;
        assert ([""] + rest)[1..] == rest;
      } else {
        var parts := [[s[0]] + rest[0]] + rest[1..];
        if |rest| > 1 {
          assert parts[1..] == rest[1..];
          assert JoinUnderscore(rest) == rest[0] + "_" + JoinUnderscore(rest[1..]);
        }
      }
    }
  }

  /** A string with no '_' is its only piece. */
  lemma {:induction false} ComponentsOfWord(s: string)
    requires NoUnderscore(s)
    ensures Components(s) == [s]
  {
    if |s| > 0 {
      ComponentsOfWord(s[1..]);
      assert [s[0]] + s[1..] == s;
    }
  }

  /** Pieces of a string behind a word: the word joins the first piece. */
  lemma {:induction false} ComponentsAfterWord(h: string, r: string)
    requires NoUnderscore(h)
    ensures Components(h + r) == [h + Components(r)[0]] + Components(r)[1..]
  {
    if |h| > 0 {
      assert (h + r)[1..] == h[1..] + r;
      ComponentsAfterWord(h[1..], r);
      assert [h[0]] + (h[1..] + Components(r)[0]) == h + Components(r)[0];
    } else {
      var c := Components(r);
      assert h + r == r && h + c[0] == c[0];
      assert [c[0]] + c[1..] == c;
    }
  }

  /** A word, an underscore, then the rest: the word is the first piece. */
  lemma ComponentsAfterSeparator(h: string, x: string)
    requires NoUnderscore(h)
    ensures Components(h + ("_" + x)) == [h] + Components(x)
  {
    ComponentsAfterWord(h, "_" + x);
    assert ("_" + x)[1..] == x;
    assert h + "" == h;
  }

  /** `x.capitalize()`: the first character upper, the rest lower. */
  function Capitalize(x: string): (r: string)
    ensures |r| == |x|
    ensures |x| > 0 ==> r[0] == Upper(x[0]) && !IsLower(r[0])
    ensures forall i :: 1 <= i < |x| ==> r[i] == Lower(x[i]) && !IsUpper(r[i])
    ensures forall i :: 0 <= i < |x| && !IsUpper(x[i]) && !IsLower(x[i]) ==> r[i] == x[i]
  {
    if |x| == 0 then "" else [Upper(x[0])] + LowerAll(x[1..])
  }

  /** `''.join(x.capitalize() for x in parts)`. */
  function CapitalizedJoin(parts: seq<string>): string {
    if |parts| == 0 then "" else Capitalize(parts[0]) + CapitalizedJoin(parts[1..])
  }

  /** `snake_to_camel(s)`: the first piece as it is, then every later piece capitalized, with no separator. */
  function SnakeToCamel(s: string): string {
    var parts := Components(s);
    parts[0] + CapitalizedJoin(parts[1..])
  }

  lemma {:induction false} CapitalizedJoinNoUnderscore(parts: seq<string>)
    requires forall k :: 0 <= k < |parts| ==> NoUnderscore(parts[k])
    ensures NoUnderscore(CapitalizedJoin(parts))
  {
    if |parts| > 0 {
      CapitalizedJoinNoUnderscore(parts[1..]);
      var c := Capitalize(parts[0]);
      assert NoUnderscore(c) by {
        if |parts[0]| > 0 {
          assert parts[0][0] != '_';
        }
      }
    }
  }

  /** The result has no '_', and it begins with the first piece unchanged. */
  lemma SnakeToCamelShape(s: string)
    ensures NoUnderscore(SnakeToCamel(s))
    ensures var first := Components(s)[0]; |first| <= |SnakeToCamel(s)| && SnakeToCamel(s)[..|first|] == first
  {
    CapitalizedJoinNoUnderscore(Components(s)[1..]);
  }

  /** A name without '_' comes back unchanged. */
  lemma SnakeToCamelOfWord(s: string)
    requires NoUnderscore(s)
    ensures SnakeToCamel(s) == s
  {
    ComponentsOfWord(s);
  }

  /** camel_to_snake's work after the first character: an underscore and the lowered letter for each uppercase letter. */
  function Snaked(t: string): string {
    if |t| == 0 then ""
    else (if IsUpper(t[0]) then "_" + [Lower(t[0])] else [t[0]]) + Snaked(t[1..])
  }

  /** Snaked is the marking followed by the lowering. */
  lemma {:induction false} SnakedIsLoweredMarks(t: string)
    ensures Snaked(t) == LowerAll(MarkUpper(t))
  {
    if |t| > 0 {
      SnakedIsLoweredMarks(t[1..]);
      LowerAllAppend(if IsUpper(t[0]) then "_" + [t[0]] else [t[0]], MarkUpper(t[1..]));
    }
  }

  lemma SnakedStep(c: char, t: string)
    ensures Snaked([c] + t) == (if IsUpper(c) then "_" + [Lower(c)] else [c]) + Snaked(t)
  {
    assert ([c] + t)[1..] == t;
  }

  lemma CapitalizeAppend(h: string, c: char)
    requires |h| >= 1 && !IsUpper(c)
    ensures Capitalize(h + [c]) == Capitalize(h) + [c]
  {
    assert (h + [c])[1..] == h[1..] + [c];
    LowerAllAppend(h[1..], [c]);
  }

  lemma CapitalizedJoinCons(p: string, parts: seq<string>)
    ensures CapitalizedJoin([p] + parts) == Capitalize(p) + CapitalizedJoin(parts)
  {
    assert ([p] + parts)[1..] == parts;
  }

  /** Behind a word, a snaked uppercase letter starts a new piece. */
  lemma SnakedUpper(h: string, c: char, rest: string)
    requires NoUnderscore(h) && IsUpper(c)
    ensures Components(h + Snaked([c] + rest)) == [h] + Components([Lower(c)] + Snaked(rest))
  {
    var x := [Lower(c)] + Snaked(rest);
    SnakedStep(c, rest);
    assert h + Snaked([c] + rest) == h + ("_" + x);
    ComponentsAfterSeparator(h, x);
  }

  /** Behind a word, any other snaked character extends the word. */
  lemma SnakedOther(h: string, c: char, rest: string)
    requires !IsUpper(c)
    ensures h + Snaked([c] + rest) == (h + [c]) + Snaked(rest)
  {
    SnakedStep(c, rest);
  }

  /** Behind a word h, the capitalized pieces of the snaked t give h capitalized, then t. */
  lemma {:induction false} CapitalizedSnaked(h: string, t: string)
    requires |h| >= 1 && NoUnderscore(h) && NoUnderscore(t)
    ensures CapitalizedJoin(Components(h + Snaked(t))) == Capitalize(h) + t
    decreases |t|, 1
  {
    if |t| == 0 {
      assert h + Snaked(t) == h;
      ComponentsOfWord(h);
      assert Components(h)[1..] == [];
    } else {
      assert [t[0]] + t[1..] == t;
      if IsUpper(t[0]) {
        CapitalizedSnakedUpper(h, t[0], t[1..]);
      } else {
        CapitalizedSnakedOther(h, t[0], t[1..]);
      }
    }
  }

  lemma {:induction false} CapitalizedSnakedUpper(h: string, c: char, rest: string)
    requires |h| >= 1 && NoUnderscore(h) && NoUnderscore(rest) && IsUpper(c)
    ensures CapitalizedJoin(Components(h + Snaked([c] + rest))) == Capitalize(h) + ([c] + rest)
    decreases |rest| + 1, 0
  {
    var lc := [Lower(c)];
    var x := Components(lc + Snaked(rest));
    assert Components(h + Snaked([c] + rest)) == [h] + x by {
      SnakedUpper(h, c, rest);
    }
    assert CapitalizedJoin([h] + x) == Capitalize(h) + CapitalizedJoin(x) by {
      CapitalizedJoinCons(h, x);
    }
    assert CapitalizedJoin(x) == [c] + rest by {
      CapitalizedSnaked(lc, rest);
      UpperOfLower(c);
      assert Capitalize(lc) == [c];
    }
  }

  lemma {:induction false} CapitalizedSnakedOther(h: string, c: char, rest: string)
    requires |h| >= 1 && NoUnderscore(h + [c]) && NoUnderscore(rest) && !IsUpper(c)
    ensures CapitalizedJoin(Components(h + Snaked([c] + rest))) == Capitalize(h) + ([c] + rest)
    decreases |rest| + 1, 0
  {
    SnakedOther(h, c, rest);
    CapitalizedSnaked(h + [c], rest);
    CapitalizeAppend(h, c);
  }

  /** Behind a word h, snake_to_camel of the snaked t gives back h, then t. */
  lemma {:induction false} CamelOfSnaked(h: string, t: string)
    requires NoUnderscore(h) && NoUnderscore(t)
    ensures SnakeToCamel(h + Snaked(t)) == h + t
    decreases |t|, 1
  {
    if |t| == 0 {
      assert h + Snaked(t) == h;
      ComponentsOfWord(h);
      assert Components(h)[1..] == [];
    } else {
      assert [t[0]] + t[1..] == t;
      if IsUpper(t[0]) {
        CamelOfSnakedUpper(h, t[0], t[1..]);
      } else {
        SnakedOther(h, t[0], t[1..]);
        CamelOfSnaked(h + [t[0]], t[1..]);
      }
    }
  }

  lemma {:induction false} CamelOfSnakedUpper(h: string, c: char, rest: string)
    requires NoUnderscore(h) && NoUnderscore(rest) && IsUpper(c)
    ensures SnakeToCamel(h + Snaked([c] + rest)) == h + ([c] + rest)
  {
    var lc := [Lower(c)];
    var x := Components(lc + Snaked(rest));
    assert Components(h + Snaked([c] + rest)) == [h] + x by {
      SnakedUpper(h, c, rest);
    }
    assert ([h] + x)[1..] == x;
    assert CapitalizedJoin(x) == [c] + rest by {
      CapitalizedSnaked(lc, rest);
      UpperOfLower(c);
      assert Capitalize(lc) == [c];
    }
  }

  /**
   * An ASCII camelCase name with no '_' and no uppercase first letter
   * survives the round trip: snake_to_camel(camel_to_snake(s)) == s.
   */
  lemma CamelRoundTrip(s: string)
    requires IsAscii(s) && NoUnderscore(s) && (|s| == 0 || !IsUpper(s[0]))
    ensures SnakeToCamel(CamelToSnake(s)) == s
  {
    if |s| == 0 {
      assert CamelToSnake(s) == "";
    } else {
      assert CamelToSnake(s) == [s[0]] + Snaked(s[1..]) by {
        LowerAllAppend([s[0]], MarkUpper(s[1..]));
        SnakedIsLoweredMarks(s[1..]);
      }
      CamelOfSnaked([s[0]], s[1..]);
      assert [s[0]] + s[1..] == s;
    }
  }
}
