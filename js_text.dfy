/**
  The JavaScript string and number primitives that the program's logic is built on:
  the white-space set shared by `String.prototype.trim` and the regular-expression
  class `\s`, `trim`, `includes`/`indexOf`, `Number.prototype.toString` on integers
  and the global `parseInt` with no radix argument.
*/
module JsText {
  import opened Wrappers

  // ---------------------------------------------------------------------------
  // Character classes
  // ---------------------------------------------------------------------------

  /** ECMAScript WhiteSpace or LineTerminator: what `trim` strips and `\s` matches. */
  predicate IsWhiteSpace(c: char)
  {
    || c == '\t' || c == '\n' || c == '\U{B}' || c == '\U{C}' || c == '\r' || c == ' '
    || c == '\U{A0}' || c == '\U{1680}' || ('\U{2000}' <= c <= '\U{200A}')
    || c == '\U{2028}' || c == '\U{2029}' || c == '\U{202F}' || c == '\U{205F}'
    || c == '\U{3000}' || c == '\U{FEFF}'
  }

  /** ECMAScript LineTerminator: the characters a regular-expression `.` does not match. */
  predicate IsLineTerminator(c: char)
  {
    c == '\n' || c == '\r' || c == '\U{2028}' || c == '\U{2029}'
  }

  predicate AllWhiteSpace(s: string)
  {
    forall i :: 0 <= i < |s| ==> IsWhiteSpace(s[i])
  }

  predicate NoLineTerminator(s: string)
  {
    forall i :: 0 <= i < |s| ==> !IsLineTerminator(s[i])
  }

  // ---------------------------------------------------------------------------
  // trim
  // ---------------------------------------------------------------------------

  /** Drops the leading white space: the rest starts with a non-white-space character. */
  function TrimStart(s: string): (r: string)
    ensures |r| <= |s| && r == s[|s| - |r|..]
    ensures AllWhiteSpace(s[..|s| - |r|])
    ensures r == [] || !IsWhiteSpace(r[0])
  {
    if s != [] && IsWhiteSpace(s[0]) then TrimStart(s[1..]) else s
  }

  /** A text that does not start with white space is kept by `TrimStart`. */
  lemma TrimStartOfText(s: string)
    requires s == [] || !IsWhiteSpace(s[0])
    ensures TrimStart(s) == s
  {
  }

  /** The index of the first character at or after `i` that is not white space, or `|s|`. */
  function SkipWhiteSpace(s: string, i: nat): (j: nat)
    requires i <= |s|
    ensures i <= j <= |s| && (j < |s| ==> !IsWhiteSpace(s[j]))
    ensures forall m :: i <= m < j ==> IsWhiteSpace(s[m])
    decreases |s| - i
  {
    if i < |s| && IsWhiteSpace(s[i]) then SkipWhiteSpace(s, i + 1) else i
  }

  /** The index just after the last character of `s[lo..j]` that is not white space, or `lo`. */
  function SkipWhiteSpaceBack(s: string, lo: nat, j: nat): (i: nat)
    requires lo <= j <= |s|
    ensures lo <= i <= j && (i > lo ==> !IsWhiteSpace(s[i - 1]))
    ensures forall m :: i <= m < j ==> IsWhiteSpace(s[m])
    decreases j
  {
    if j > lo && IsWhiteSpace(s[j - 1]) then SkipWhiteSpaceBack(s, lo, j - 1) else j
  }

  lemma WhiteSpaceSlice(s: string, a: nat, b: nat)
    requires a <= b <= |s| && forall m :: a <= m < b ==> IsWhiteSpace(s[m])
    ensures AllWhiteSpace(s[a..b]) && (a == 0 ==> AllWhiteSpace(s[..b])) && (b == |s| ==> AllWhiteSpace(s[a..]))
  {
    assert forall m :: 0 <= m < b - a ==> s[a..b][m] == s[a + m];
    assert a == 0 ==> s[..b] == s[a..b];
    assert b == |s| ==> s[a..] == s[a..b];
  }

  /**
    `String.prototype.trim`: the part of `s` between its leading and its trailing
    run of white space, which starts and ends with a character that is not white space.
  */
  function Trim(s: string): (r: string)
    ensures var i := SkipWhiteSpace(s, 0);
      var j := SkipWhiteSpaceBack(s, i, |s|);
      && r == s[i..j] && AllWhiteSpace(s[..i]) && AllWhiteSpace(s[j..])
    ensures r == [] || (!IsWhiteSpace(r[0]) && !IsWhiteSpace(r[|r| - 1]))
  {
    var i := SkipWhiteSpace(s, 0);
    var j := SkipWhiteSpaceBack(s, i, |s|);
    WhiteSpaceSlice(s, 0, i);
    WhiteSpaceSlice(s, j, |s|);
    s[i..j]
  }

  // ---------------------------------------------------------------------------
  // replace(/\s+/g, " ")
  // ---------------------------------------------------------------------------

  /** `s.replace(/\s+/g, " ")`: every maximal run of white space becomes one space. */
  function CollapseWhiteSpace(s: string): (r: string)
    ensures |r| <= |s| && (r == [] <==> s == [])
    decreases |s|
  {
    if s == [] then []
    else if IsWhiteSpace(s[0]) then " " + CollapseWhiteSpace(TrimStart(s))
    else [s[0]] + CollapseWhiteSpace(s[1..])
  }

  /** The characters of `s` that are not white space, in order. */
  function Visible(s: string): string
  {
    if s == [] then [] else (if IsWhiteSpace(s[0]) then [] else [s[0]]) + Visible(s[1..])
  }

  /** The only white space left is the plain space, and never two in a row. */
  predicate SingleSpaced(s: string)
  {
    && (forall i :: 0 <= i < |s| && IsWhiteSpace(s[i]) ==> s[i] == ' ')
    && (forall i :: 0 <= i < |s| - 1 ==> !(s[i] == ' ' && s[i + 1] == ' '))
  }

  lemma {:induction false} VisibleAppend(a: string, b: string)
    ensures Visible(a + b) == Visible(a) + Visible(b)
  {
    if a != [] {
      assert (a + b)[1..] == a[1..] + b;
      VisibleAppend(a[1..], b);
    } else {
      assert a + b == b;
    }
  }

  lemma {:induction false} VisibleOfWhiteSpace(s: string)
    requires AllWhiteSpace(s)
    ensures Visible(s) == []
  {
    if s != [] {
      VisibleOfWhiteSpace(s[1..]);
    }
  }

  /** Trimming drops white space only. */
  lemma TrimKeepsVisible(s: string)
    ensures Visible(Trim(s)) == Visible(s)
  {
    var i := SkipWhiteSpace(s, 0);
    var j := SkipWhiteSpaceBack(s, i, |s|);
    var u := s[..j];
    assert s == u + s[j..];
    assert u == s[..i] + Trim(s) by {
      assert u[..i] == s[..i] && u[i..] == s[i..j];
      assert u == u[..i] + u[i..];
    }
    VisibleAppend(u, s[j..]);
    VisibleAppend(s[..i], Trim(s));
    VisibleOfWhiteSpace(s[..i]);
    VisibleOfWhiteSpace(s[j..]);
  }

  /** Collapsing keeps every non-white-space character, in order. */
  lemma {:induction false} CollapseKeepsVisible(s: string)
    ensures Visible(CollapseWhiteSpace(s)) == Visible(s)
    decreases |s|
  {
    if s == [] {
    } else if IsWhiteSpace(s[0]) {
      var t := TrimStart(s);
      CollapseKeepsVisible(t);
      assert s == s[..|s| - |t|] + t;
      VisibleAppend(s[..|s| - |t|], t);
      VisibleOfWhiteSpace(s[..|s| - |t|]);
      VisibleAppend(" ", CollapseWhiteSpace(t));
    } else {
      CollapseKeepsVisible(s[1..]);
      assert s == [s[0]] + s[1..];
      VisibleAppend([s[0]], s[1..]);
      VisibleAppend([s[0]], CollapseWhiteSpace(s[1..]));
    }
  }

  /**
    Collapsing turns a leading or trailing run of white space into one plain
    space and keeps a first or last character that is not white space.
  */
  lemma {:induction false} CollapseEnds(s: string)
    ensures var r := CollapseWhiteSpace(s);
      && (r == [] <==> s == [])
      && (r != [] ==> r[0] == (if IsWhiteSpace(s[0]) then ' ' else s[0]))
      && (r != [] ==> r[|r| - 1] == (if IsWhiteSpace(s[|s| - 1]) then ' ' else s[|s| - 1]))
    decreases |s|
  {
    if s == [] {
    } else if IsWhiteSpace(s[0]) {
      var t := TrimStart(s);
      CollapseEnds(t);
      if t == [] {
        assert IsWhiteSpace(s[|s| - 1]) by { assert s[|s| - 1] == s[..|s| - |t|][|s| - 1]; }
      } else {
        assert s[|s| - 1] == t[|t| - 1];
      }
    } else {
      CollapseEnds(s[1..]);
    }
  }

  /** Collapsing leaves only single plain spaces. */
  lemma {:induction false} CollapseSingleSpaced(s: string)
    ensures SingleSpaced(CollapseWhiteSpace(s))
    decreases |s|
  {
    var r := CollapseWhiteSpace(s);
    if s == [] {
    } else {
      var t := if IsWhiteSpace(s[0]) then TrimStart(s) else s[1..];
      var rest := CollapseWhiteSpace(t);
      CollapseSingleSpaced(t);
      CollapseEnds(t);
      assert r == [r[0]] + rest;
      forall i | 0 <= i < |r| - 1
        ensures !(r[i] == ' ' && r[i + 1] == ' ')
      {
        if i > 0 {
          assert r[i] == rest[i - 1] && r[i + 1] == rest[i];
        }
      }
    }
  }

  /** A run of white space in front of a text that does not start with white space is all that `TrimStart` drops. */
  lemma {:induction false} TrimStartOfRun(w: string, s: string)
    requires AllWhiteSpace(w)
    requires s == [] || !IsWhiteSpace(s[0])
    ensures TrimStart(w + s) == s
    decreases |w|
  {
    if w == [] {
      assert w + s == s;
      TrimStartOfText(s);
    } else {
      assert (w + s)[0] == w[0] && (w + s)[1..] == w[1..] + s;
      TrimStartOfRun(w[1..], s);
    }
  }

  /** A whole run of white space, however long, collapses to one plain space. */
  lemma CollapseOfWhiteSpaceRun(w: string)
    requires w != [] && AllWhiteSpace(w)
    ensures CollapseWhiteSpace(w) == " "
  {
  }

  /** One character on its own: a white-space character becomes a plain space, any other is kept. */
  lemma CollapseOfOne(c: char)
    ensures CollapseWhiteSpace([c]) == if IsWhiteSpace(c) then " " else [c]
  {
    if IsWhiteSpace(c) {
      CollapseOfWhiteSpaceRun([c]);
    }
  }

  /** A run of white space in front of a text that does not start with white space becomes one space. */
  lemma CollapseOfRunThenText(w: string, s: string)
    requires w != [] && AllWhiteSpace(w)
    requires s == [] || !IsWhiteSpace(s[0])
    ensures CollapseWhiteSpace(w + s) == " " + CollapseWhiteSpace(s)
  {
    TrimStartOfRun(w, s);
    assert (w + s)[0] == w[0];
  }

  /** A character that is not white space in front of a text is kept. */
  lemma CollapseOfCharThenText(c: char, s: string)
    requires !IsWhiteSpace(c)
    ensures CollapseWhiteSpace([c] + s) == [c] + CollapseWhiteSpace(s)
  {
    assert ([c] + s)[0] == c && ([c] + s)[1..] == s;
  }

  lemma AppendAssociates(x: string, y: string, z: string)
    ensures x + (y + z) == (x + y) + z
  {
  }

  /** The step of `CollapseOfAppend` past a first character that is not white space. */
  lemma CollapseOfCharThenMore(c: char, u: string, b: string)
    requires !IsWhiteSpace(c)
    requires CollapseWhiteSpace(u + b) == CollapseWhiteSpace(u) + CollapseWhiteSpace(b)
    ensures CollapseWhiteSpace([c] + (u + b)) == CollapseWhiteSpace([c] + u) + CollapseWhiteSpace(b)
  {
    CollapseOfCharThenText(c, u + b);
    CollapseOfCharThenText(c, u);
    AppendAssociates([c], CollapseWhiteSpace(u), CollapseWhiteSpace(b));
  }

  /** The step of `CollapseOfAppend` past a leading run of white space that is followed by more text. */
  lemma CollapseOfRunThenMore(w: string, t: string, b: string)
    requires w != [] && AllWhiteSpace(w)
    requires t != [] && !IsWhiteSpace(t[0])
    requires CollapseWhiteSpace(t + b) == CollapseWhiteSpace(t) + CollapseWhiteSpace(b)
    ensures CollapseWhiteSpace(w + (t + b)) == CollapseWhiteSpace(w + t) + CollapseWhiteSpace(b)
  {
    assert (t + b)[0] == t[0];
    CollapseOfRunThenText(w, t + b);
    CollapseOfRunThenText(w, t);
    AppendAssociates(" ", CollapseWhiteSpace(t), CollapseWhiteSpace(b));
  }

  /** A text that starts with white space is its leading run followed by what `TrimStart` keeps. */
  lemma LeadingRunSplit(a: string, b: string)
    requires a != [] && IsWhiteSpace(a[0])
    ensures var t := TrimStart(a);
      var w := a[..|a| - |t|];
      && w != [] && AllWhiteSpace(w) && a == w + t && a + b == w + (t + b)
      && (t == [] ==> AllWhiteSpace(a))
      && (t != [] ==> !IsWhiteSpace(t[0]) && t[|t| - 1] == a[|a| - 1])
  {
    var t := TrimStart(a);
    var w := a[..|a| - |t|];
    assert a == w + t;
    AppendAssociates(w, t, b);
    if t == [] {
      assert w == a;
    } else {
      assert a[0] != t[0];
    }
  }

  /**
    Collapsing works piece by piece wherever the cut does not split a run of
    white space: with `CollapseOfOne` this fixes every run's single space in the
    run's own place and every other character in its own.
  */
  lemma {:induction false} CollapseOfAppend(a: string, b: string)
    requires a == [] || b == [] || !IsWhiteSpace(a[|a| - 1]) || !IsWhiteSpace(b[0])
    ensures CollapseWhiteSpace(a + b) == CollapseWhiteSpace(a) + CollapseWhiteSpace(b)
    decreases |a|
  {
    if a == [] {
      assert a + b == b;
    } else if !IsWhiteSpace(a[0]) {
      var c, u := a[0], a[1..];
      assert a == [c] + u && a + b == [c] + (u + b);
      CollapseOfAppend(u, b);
      CollapseOfCharThenMore(c, u, b);
    } else {
      LeadingRunSplit(a, b);
      var t := TrimStart(a);
      if t == [] {
        assert IsWhiteSpace(a[|a| - 1]);
        CollapseOfRunThenText(a, b);
        CollapseOfWhiteSpaceRun(a);
      } else {
        var w := a[..|a| - |t|];
        CollapseOfAppend(t, b);
        CollapseOfRunThenMore(w, t, b);
      }
    }
  }

  // ---------------------------------------------------------------------------
  // indexOf / includes
  // ---------------------------------------------------------------------------

  predicate OccursAt(s: string, sub: string, k: int)
  {
    0 <= k && k + |sub| <= |s| && s[k..k + |sub|] == sub
  }

  /** `s.indexOf(sub, from)`: the first occurrence of `sub` at or after `from`. */
  function IndexOf(s: string, sub: string, from: nat): (r: Option<nat>)
    decreases |s| - from
    ensures r.Some? ==>
      && from <= r.value && OccursAt(s, sub, r.value)
      && forall k :: from <= k < r.value ==> !OccursAt(s, sub, k)
    ensures r.None? ==> forall k :: from <= k ==> !OccursAt(s, sub, k)
  {
    if from + |sub| > |s| then None
    else if s[from..from + |sub|] == sub then Some(from)
    else IndexOf(s, sub, from + 1)
  }

  /** `s.includes(sub)`. */
  function Includes(s: string, sub: string): (r: bool)
    ensures r <==> exists k :: OccursAt(s, sub, k)
  {
    IndexOf(s, sub, 0).Some?
  }

  /** The first position at or after `from` that holds `c`. */
  function FindChar(s: string, c: char, from: nat): (r: Option<nat>)
    decreases |s| - from
    ensures r.Some? ==> from <= r.value < |s| && s[r.value] == c && forall k :: from <= k < r.value ==> s[k] != c
    ensures r.None? ==> forall k :: from <= k < |s| ==> s[k] != c
  {
    if from >= |s| then None
    else if s[from] == c then Some(from)
    else FindChar(s, c, from + 1)
  }

  /** The first occurrence of `c` at or after `from` is the one `FindChar` finds. */
  lemma FindCharFirst(s: string, c: char, from: nat, e: nat)
    requires from <= e < |s| && s[e] == c
    requires forall k :: from <= k < e ==> s[k] != c
    ensures FindChar(s, c, from) == Some(e)
  {
  }

  /** The length of the first line of `s`: the position of its first line terminator, or `|s|`. */
  function LineLength(s: string): (n: nat)
    ensures n <= |s| && NoLineTerminator(s[..n])
    ensures n < |s| ==> IsLineTerminator(s[n])
  {
    if s == [] then 0
    else if IsLineTerminator(s[0]) then 0
    else
      var m := LineLength(s[1..]);
      assert s[..m + 1] == [s[0]] + s[1..][..m];
      m + 1
  }

  // ---------------------------------------------------------------------------
  // Number -> string
  // ---------------------------------------------------------------------------

  predicate IsDecimalDigit(c: char)
  {
    '0' <= c <= '9'
  }

  function DigitChar(d: nat): (c: char)
    requires d < 10
    ensures IsDecimalDigit(c) && (c as int) - ('0' as int) == d
  {
    (('0' as int) + d) as char
  }

  /** The decimal numeral of `n`, without leading zeros. */
  function NatToString(n: nat): (s: string)
    ensures s != [] && forall i :: 0 <= i < |s| ==> IsDecimalDigit(s[i])
    ensures s[0] == '0' ==> n == 0 && s == "0"
  {
    if n < 10 then [DigitChar(n)] else NatToString(n / 10) + [DigitChar(n % 10)]
  }

  /** `String(n)` (`n.toString()`, `${n}`) for an integer `n`. */
  function IntToString(n: int): (s: string)
    ensures s != [] && (s[0] == '-' <==> n < 0)
  {
    if n < 0 then "-" + NatToString(-n) else NatToString(n)
  }

  // ---------------------------------------------------------------------------
  // parseInt
  // ---------------------------------------------------------------------------

  /** The value of `c` as a digit in base `radix` (2..36), when it is one. */
  function DigitIn(c: char, radix: nat): (r: Option<nat>)
    ensures r.Some? ==> r.value < radix
  {
    var v :=
      if '0' <= c <= '9' then (c as int) - ('0' as int)
      else if 'a' <= c <= 'z' then (c as int) - ('a' as int) + 10
      else if 'A' <= c <= 'Z' then (c as int) - ('A' as int) + 10
      else 36;
    if v < radix then Some(v) else None
  }

  predicate AllDigitsIn(s: string, radix: nat)
  {
    forall i :: 0 <= i < |s| ==> DigitIn(s[i], radix).Some?
  }

  /** The longest prefix of `s` made of base-`radix` digits. */
  function DigitPrefix(s: string, radix: nat): (r: string)
    ensures r <= s && AllDigitsIn(r, radix)
    ensures |r| < |s| ==> DigitIn(s[|r|], radix).None?
  {
    if s != [] && DigitIn(s[0], radix).Some? then [s[0]] + DigitPrefix(s[1..], radix) else []
  }

  /** The value of a numeral in base `radix`, most significant digit first. */
  function DigitsValue(s: string, radix: nat): nat
    requires AllDigitsIn(s, radix)
  {
    if s == [] then 0 else DigitsValue(s[..|s| - 1], radix) * radix + DigitIn(s[|s| - 1], radix).value
  }

  /**
    The global `parseInt(s)` with no radix: leading white space is skipped, one sign
    is read, and the rest is read by `ParseUnsigned`. `None` stands for `NaN`.
  */
  function ParseInt(s: string): (r: Option<int>)
    ensures r.Some? ==> exists k :: 0 <= k < |s| && IsDecimalDigit(s[k])
    ensures s != [] && !IsWhiteSpace(s[0]) && !IsDecimalDigit(s[0]) && s[0] != '-' && s[0] != '+' ==> r.None?
  {
    var t := TrimStart(s);
    var signed := t != [] && (t[0] == '-' || t[0] == '+');
    var negative := t != [] && t[0] == '-';
    var u := if signed then t[1..] else t;
    assert u == s[|s| - |u|..];
    match ParseUnsigned(u)
    case Some(v) => Some(if negative then -v else v)
    case None => None
  }

  /**
    The unsigned part of `parseInt`: a `0x`/`0X` prefix selects base 16, and the
    longest run of digits that follows is the value; no digit at all is `NaN`.
  */
  function ParseUnsigned(u: string): (r: Option<int>)
    ensures r.Some? ==> r.value >= 0
    ensures r.Some? ==> u != [] && IsDecimalDigit(u[0])
  {
    var hex := |u| >= 2 && u[0] == '0' && (u[1] == 'x' || u[1] == 'X');
    var radix := if hex then 16 else 10;
    var digits := DigitPrefix(if hex then u[2..] else u, radix);
    if digits == [] then None else Some(DigitsValue(digits, radix))
  }

  lemma {:induction false} DigitsValueOfNatToString(n: nat)
    ensures AllDigitsIn(NatToString(n), 10) && DigitsValue(NatToString(n), 10) == n
  {
    var s := NatToString(n);
    if n >= 10 {
      DigitsValueOfNatToString(n / 10);
      assert s[..|s| - 1] == NatToString(n / 10);
    }
  }

  lemma {:induction false} DigitPrefixOfDigits(s: string, radix: nat)
    requires AllDigitsIn(s, radix)
    ensures DigitPrefix(s, radix) == s
  {
    if s != [] {
      DigitPrefixOfDigits(s[1..], radix);
    }
  }

  lemma ParseUnsignedOfNatToString(m: nat)
    ensures ParseUnsigned(NatToString(m)) == Some(m)
  {
    var digits := NatToString(m);
    assert !(|digits| >= 2 && digits[0] == '0') by {
      if digits[0] == '0' { assert digits == "0"; }
    }
    DigitsValueOfNatToString(m);
    DigitPrefixOfDigits(digits, 10);
  }

  /** `parseInt` of a text that starts with `-` negates the unsigned part. */
  lemma ParseIntOfMinus(s: string, v: int)
    requires s != [] && s[0] == '-' && ParseUnsigned(s[1..]) == Some(v)
    ensures ParseInt(s) == Some(-v)
  {
    assert !IsWhiteSpace(s[0]);
    TrimStartOfText(s);
    assert TrimStart(s)[1..] == s[1..];
  }

  /** `parseInt` of a text that starts with a decimal digit reads its unsigned part. */
  lemma ParseIntOfDigit(s: string, v: int)
    requires s != [] && IsDecimalDigit(s[0]) && ParseUnsigned(s) == Some(v)
    ensures ParseInt(s) == Some(v)
  {
    DigitIsNotWhiteSpace(s[0]);
    TrimStartOfText(s);
  }

  lemma DigitIsNotWhiteSpace(c: char)
    requires IsDecimalDigit(c)
    ensures !IsWhiteSpace(c) && c != '-' && c != '+'
  {
  }

  lemma ParseIntOfNegative(n: int)
    requires n < 0
    ensures ParseInt(IntToString(n)) == Some(n)
  {
    var s := IntToString(n);
    var m: nat := -n;
    assert s == "-" + NatToString(m);
    assert s[1..] == NatToString(m);
    ParseUnsignedOfNatToString(m);
    ParseIntOfMinus(s, m);
  }

  lemma ParseIntOfNonNegative(n: nat)
    ensures ParseInt(IntToString(n)) == Some(n)
  {
    var s := NatToString(n);
    assert IntToString(n) == s;
    ParseUnsignedOfNatToString(n);
    ParseIntOfDigit(s, n);
  }

  /** Printing an integer and reading it back with `parseInt` gives the integer again. */
  lemma ParseIntOfIntToString(n: int)
    ensures ParseInt(IntToString(n)) == Some(n)
  {
    if n < 0 {
      ParseIntOfNegative(n);
    } else {
      ParseIntOfNonNegative(n);
    }
  }
}
