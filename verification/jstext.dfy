/**
 * The JavaScript string built-ins the application relies on, modelled on
 * `seq<char>`: `toLowerCase`, `includes`, `split` on a one-character
 * separator, `join`, `trim` and the decimal rendering of a number inside a
 * template literal.
 */
module JsText {

  /** Upper-case letters that `toLowerCase` folds: ASCII A-Z and the
      accented Spanish capitals used by the application's data. */
  function LowerChar(c: char): char
  {
    if 'A' <= c <= 'Z' then (c as int + 32) as char
    else if c == 'Á' then 'á'
    else if c == 'É' then 'é'
    else if c == 'Í' then 'í'
    else if c == 'Ó' then 'ó'
    else if c == 'Ú' then 'ú'
    else if c == 'Ñ' then 'ñ'
    else if c == 'Ü' then 'ü'
    else c
  }

  /** `s.toLowerCase()` restricted to the letters of `LowerChar`. */
  function ToLower(s: string): string
  {
    seq(|s|, i requires 0 <= i < |s| => LowerChar(s[i]))
  }

  /** `t` occurs in `s` starting at position `i`. */
  ghost predicate OccursAt(s: string, t: string, i: int)
  {
    0 <= i && i + |t| <= |s| && s[i..i + |t|] == t
  }

  /** `s.includes(t)`: computed by trying every start position in turn. */
  predicate Contains(s: string, t: string)
  {
    (|t| <= |s| && s[..|t|] == t) || (s != [] && Contains(s[1..], t))
  }

  /** Some token of `tokens` occurs in `s` (a chain of `includes` joined by `||`). */
  predicate ContainsAny(s: string, tokens: seq<string>)
  {
    tokens != [] && (Contains(s, tokens[0]) || ContainsAny(s, tokens[1..]))
  }

  /** Number of occurrences of `c` in `s`. */
  function CountChar(s: string, c: char): nat
  {
    if s == [] then 0 else (if s[0] == c then 1 else 0) + CountChar(s[1..], c)
  }

  /** `s.split(sep)` for a one-character separator: every piece between two
      separators is kept, including empty ones, so the result is never empty. */
  function Split(s: string, sep: char): (r: seq<string>)
    ensures |r| >= 1
  {
    if s == [] then [""]
    else if s[0] == sep then [""] + Split(s[1..], sep)
    else
      var rest := Split(s[1..], sep);
      [[s[0]] + rest[0]] + rest[1..]
  }

  /** `xs.join(sep)`. */
  function Join(xs: seq<string>, sep: string): string
  {
    if xs == [] then ""
    else if |xs| == 1 then xs[0]
    else xs[0] + sep + Join(xs[1..], sep)
  }

  /** The characters JavaScript's `trim` removes (WhiteSpace and LineTerminator). */
  predicate IsWhitespace(c: char)
  {
    c == ' ' || c == '\t' || c == '\n' || c == '\r' || c == '\U{000B}' || c == '\U{000C}'
    || c == '\U{00A0}' || c == '\U{1680}' || ('\U{2000}' <= c <= '\U{200A}')
    || c == '\U{2028}' || c == '\U{2029}' || c == '\U{202F}' || c == '\U{205F}'
    || c == '\U{3000}' || c == '\U{FEFF}'
  }

  function TrimStart(s: string): (r: string)
    ensures |r| <= |s| && r == s[|s| - |r|..]
    ensures r != [] ==> !IsWhitespace(r[0])
    ensures forall i :: 0 <= i < |s| - |r| ==> IsWhitespace(s[i])
  {
    if s != [] && IsWhitespace(s[0]) then TrimStart(s[1..]) else s
  }

  function TrimEnd(s: string): (r: string)
    ensures |r| <= |s| && r == s[..|r|]
    ensures r != [] ==> !IsWhitespace(r[|r| - 1])
    ensures forall i :: |r| <= i < |s| ==> IsWhitespace(s[i])
  {
    if s != [] && IsWhitespace(s[|s| - 1]) then TrimEnd(s[..|s| - 1]) else s
  }

  /** `s.trim()`. */
  function Trim(s: string): string
  {
    TrimEnd(TrimStart(s))
  }

  /** Decimal digits of `n`, as a number renders inside a template literal. */
  function Decimal(n: nat): (r: string)
    ensures r != []
    ensures forall i :: 0 <= i < |r| ==> '0' <= r[i] <= '9'
  {
    if n < 10 then [DigitChar(n)] else Decimal(n / 10) + [DigitChar(n % 10)]
  }

  function DigitChar(d: nat): (c: char)
    requires d < 10
    ensures '0' <= c <= '9' && c as int - '0' as int == d
  {
    (d + '0' as int) as char
  }

  /** Reads back the number a string of decimal digits denotes. */
  function DecimalValue(s: string): nat
    requires forall i :: 0 <= i < |s| ==> '0' <= s[i] <= '9'
  {
    if s == [] then 0
    else DecimalValue(s[..|s| - 1]) * 10 + (s[|s| - 1] as int - '0' as int)
  }

  // ---------------------------------------------------------------------
  // includes

  lemma {:induction false} ContainsAt(s: string, t: string, i: int)
    requires OccursAt(s, t, i)
    ensures Contains(s, t)
    decreases i
  {
    if i > 0 {
      assert s[1..][i - 1..i - 1 + |t|] == s[i..i + |t|];
      ContainsAt(s[1..], t, i - 1);
    } else {
      assert s[..|t|] == s[0..|t|];
    }
  }

  lemma {:induction false} ContainsWitness(s: string, t: string) returns (i: int)
    requires Contains(s, t)
    ensures OccursAt(s, t, i)
  {
    if |t| <= |s| && s[..|t|] == t {
      i := 0;
      assert s[0..|t|] == s[..|t|];
    } else {
      var j := ContainsWitness(s[1..], t);
      assert s[1..][j..j + |t|] == s[j + 1..j + 1 + |t|];
      i := j + 1;
    }
  }

  /** `includes` holds exactly when the needle occurs at some position. */
  lemma ContainsIff(s: string, t: string)
    ensures Contains(s, t) <==> exists i :: OccursAt(s, t, i)
  {
    if Contains(s, t) {
      var i := ContainsWitness(s, t);
    }
    if exists i :: OccursAt(s, t, i) {
      var i :| OccursAt(s, t, i);
      ContainsAt(s, t, i);
    }
  }

  /** A needle holding a character the haystack lacks is not included. */
  lemma NotContainsChar(s: string, t: string, j: int)
    requires 0 <= j < |t| && t[j] !in s
    ensures !Contains(s, t)
  {
    if Contains(s, t) {
      var i := ContainsWitness(s, t);
    }
  }

  /** A needle holding two adjacent characters that are never adjacent in the
      haystack is not included. */
  lemma NotContainsPair(s: string, t: string, j: int)
    requires 0 <= j && j + 1 < |t|
    requires forall k :: 0 <= k < |s| - 1 ==> !(s[k] == t[j] && s[k + 1] == t[j + 1])
    ensures !Contains(s, t)
  {
    if Contains(s, t) {
      var i := ContainsWitness(s, t);
    }
  }

  /** None of `tokens` is included when each holds, at the position `at`
      gives for it, a character the haystack lacks. */
  lemma {:induction false} ContainsNone(s: string, tokens: seq<string>, at: seq<nat>)
    requires |at| == |tokens|
    requires forall k :: 0 <= k < |tokens| ==> at[k] < |tokens[k]| && tokens[k][at[k]] !in s
    ensures !ContainsAny(s, tokens)
  {
    if tokens != [] {
      NotContainsChar(s, tokens[0], at[0]);
      ContainsNone(s, tokens[1..], at[1..]);
    }
  }

  /** The empty string is included in every string. */
  lemma ContainsEmpty(s: string)
    ensures Contains(s, "")
  {
    assert s[..0] == "";
  }

  lemma {:induction false} ContainsAnyIff(s: string, tokens: seq<string>)
    ensures ContainsAny(s, tokens) <==> exists k :: 0 <= k < |tokens| && Contains(s, tokens[k])
  {
    if tokens != [] {
      ContainsAnyIff(s, tokens[1..]);
      if exists k :: 0 <= k < |tokens| && Contains(s, tokens[k]) {
        var k :| 0 <= k < |tokens| && Contains(s, tokens[k]);
        if k > 0 {
          assert tokens[1..][k - 1] == tokens[k];
        }
      }
    }
  }

  /** Testing two token lists is testing their concatenation. */
  lemma ContainsAnyConcat(s: string, a: seq<string>, b: seq<string>)
    ensures ContainsAny(s, a + b) <==> ContainsAny(s, a) || ContainsAny(s, b)
  {
    ContainsAnyIff(s, a);
    ContainsAnyIff(s, b);
    ContainsAnyIff(s, a + b);
    if ContainsAny(s, a + b) {
      var k :| 0 <= k < |a + b| && Contains(s, (a + b)[k]);
      if k < |a| {
        assert (a + b)[k] == a[k];
      } else {
        assert (a + b)[k] == b[k - |a|];
      }
    }
    if ContainsAny(s, a) {
      var k :| 0 <= k < |a| && Contains(s, a[k]);
      assert (a + b)[k] == a[k];
    }
    if ContainsAny(s, b) {
      var k :| 0 <= k < |b| && Contains(s, b[k]);
      assert (a + b)[|a| + k] == b[k];
    }
  }

  // ---------------------------------------------------------------------
  // split and join

  /** Splitting yields one piece more than there are separators. */
  lemma {:induction false} SplitCount(s: string, sep: char)
    ensures |Split(s, sep)| == CountChar(s, sep) + 1
  {
    if s != [] {
      SplitCount(s[1..], sep);
    }
  }

  /** No piece holds the separator. */
  lemma {:induction false} SplitPiecesFree(s: string, sep: char)
    ensures forall k :: 0 <= k < |Split(s, sep)| ==> sep !in Split(s, sep)[k]
  {
    if s != [] {
      SplitPiecesFree(s[1..], sep);
      var rest := Split(s[1..], sep);
      if s[0] != sep {
        assert sep !in rest[0];
      }
    }
  }

  /** Joining the pieces with the separator gives the string back. */
  lemma {:induction false} JoinSplit(s: string, sep: char)
    ensures Join(Split(s, sep), [sep]) == s
  {
    if s != [] {
      JoinSplit(s[1..], sep);
      var rest := Split(s[1..], sep);
      if s[0] == sep {
        assert Split(s, sep) == [""] + rest;
        assert ([""] + rest)[1..] == rest;
        assert s == [sep] + s[1..];
      } else {
        JoinPrependChar(s[0], rest, [sep]);
        assert s == [s[0]] + s[1..];
      }
    }
  }

  /** Gluing a character to the first piece glues it to the joined text. */
  lemma JoinPrependChar(c: char, rest: seq<string>, sep: string)
    requires |rest| >= 1
    ensures Join([[c] + rest[0]] + rest[1..], sep) == [c] + Join(rest, sep)
  {
    var r := [[c] + rest[0]] + rest[1..];
    if |rest| > 1 {
      assert r[1..] == rest[1..];
    }
  }

  lemma {:induction false} SplitNoSeparator(s: string, sep: char)
    requires sep !in s
    ensures Split(s, sep) == [s]
  {
    if s != [] {
      SplitNoSeparator(s[1..], sep);
      assert [s[0]] + s[1..] == s;
    }
  }

  lemma {:induction false} SplitAtSeparator(a: string, sep: char, b: string)
    requires sep !in a
    ensures Split(a + [sep] + b, sep) == [a] + Split(b, sep)
  {
    var s := a + [sep] + b;
    if a == [] {
      assert s == [sep] + b;
      assert s[1..] == b;
    } else {
      assert s[1..] == a[1..] + [sep] + b;
      SplitAtSeparator(a[1..], sep, b);
      assert [a[0]] + a[1..] == a;
    }
  }

  /** Splitting a join of separator-free pieces gives the pieces back. */
  lemma {:induction false} SplitJoin(xs: seq<string>, sep: char)
    requires |xs| >= 1
    requires forall k :: 0 <= k < |xs| ==> sep !in xs[k]
    ensures Split(Join(xs, [sep]), sep) == xs
  {
    if |xs| == 1 {
      SplitNoSeparator(xs[0], sep);
    } else {
      SplitJoin(xs[1..], sep);
      SplitAtSeparator(xs[0], sep, Join(xs[1..], [sep]));
      assert xs[0] + [sep] + Join(xs[1..], [sep]) == Join(xs, [sep]);
      assert [xs[0]] + xs[1..] == xs;
    }
  }

  // ---------------------------------------------------------------------
  // trim

  /** No whitespace at either end. */
  predicate IsTrimmed(s: string)
  {
    s == [] || (!IsWhitespace(s[0]) && !IsWhitespace(s[|s| - 1]))
  }

  /** `trim` removes exactly a whitespace prefix and a whitespace suffix and
      leaves a string with no whitespace at either end. */
  lemma TrimShape(s: string)
    ensures IsTrimmed(Trim(s))
    ensures exists i, j ::
      && 0 <= i <= j <= |s|
      && Trim(s) == s[i..j]
      && (forall k :: 0 <= k < i ==> IsWhitespace(s[k]))
      && (forall k :: j <= k < |s| ==> IsWhitespace(s[k]))
  {
    TrimEndsVisible(s);
    var i, j := TrimBounds(s);
  }

  /** The result of `trim` starts and ends with a visible character. */
  lemma TrimEndsVisible(s: string)
    ensures IsTrimmed(Trim(s))
  {
    var u := TrimStart(s);
    var r := TrimEnd(u);
    if r != [] {
      assert r[0] == u[0];
    }
  }

  /** Where the result of `trim` sits in its input. */
  lemma TrimBounds(s: string) returns (i: nat, j: nat)
    ensures i <= j <= |s| && Trim(s) == s[i..j]
    ensures forall k :: 0 <= k < i ==> IsWhitespace(s[k])
    ensures forall k :: j <= k < |s| ==> IsWhitespace(s[k])
  {
    var u := TrimStart(s);
    var r := TrimEnd(u);
    i := |s| - |u|;
    j := i + |r|;
    assert u == s[i..];
    assert r == u[..|r|];
    assert u[..|r|] == s[i..j];
    forall k | j <= k < |s|
      ensures IsWhitespace(s[k])
    {
      assert s[k] == u[k - i];
    }
  }

  /** A string without whitespace at its ends is left alone by `trim`. */
  lemma TrimTrimmed(s: string)
    requires IsTrimmed(s)
    ensures Trim(s) == s
  {
  }

  /** A single leading space before a trimmed string is removed. */
  lemma TrimLeadingSpace(s: string)
    requires IsTrimmed(s)
    ensures Trim(" " + s) == s
  {
    assert (" " + s)[1..] == s;
    assert TrimStart(" " + s) == TrimStart(s);
  }

  /** `trim` gives the empty string exactly when every character is whitespace. */
  lemma TrimBlank(s: string)
    ensures Trim(s) == [] <==> forall k :: 0 <= k < |s| ==> IsWhitespace(s[k])
  {
    TrimShape(s);
    if forall k :: 0 <= k < |s| ==> IsWhitespace(s[k]) {
      assert TrimStart(s) == [];
    }
  }

  // ---------------------------------------------------------------------
  // decimal rendering

  /** Reading back the rendering of a number gives the number. */
  lemma {:induction false} DecimalRoundTrip(n: nat)
    ensures DecimalValue(Decimal(n)) == n
  {
    if n >= 10 {
      DecimalRoundTrip(n / 10);
      var s := Decimal(n);
      assert s[..|s| - 1] == Decimal(n / 10);
    }
  }

  /** Different numbers render differently. */
  lemma DecimalInjective(m: nat, n: nat)
    requires Decimal(m) == Decimal(n)
    ensures m == n
  {
    DecimalRoundTrip(m);
    DecimalRoundTrip(n);
  }
}
