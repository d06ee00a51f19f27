/** Shared vocabulary: failure-carrying results, splitting and joining on one
    separator character (JavaScript's `split` and Python's `str.split` agree
    for a one-character separator), the two languages' whitespace classes,
    stripping, prefixes and decimal rendering of naturals. */
module Text {

  datatype Option<+T> = None | Some(value: T)

  datatype Result<+T, +E> = Ok(value: T) | Err(error: E)

  // ---------------------------------------------------------------------
  // Split and join on a single separator character
  // ---------------------------------------------------------------------

  /** `s.split(sep)`: the maximal pieces between separators, always at least one. */
  function Split(s: string, sep: char): (parts: seq<string>)
    ensures |parts| >= 1
    ensures forall k :: 0 <= k < |parts| ==> sep !in parts[k]
    ensures Join(parts, sep) == s
  {
    if s == [] then [[]]
    else
      var rest := Split(s[1..], sep);
      if s[0] == sep then [[]] + rest
      else
        assert Join(rest, sep) == s[1..];
        JoinConsFirst(s[0], rest, sep);
        [[s[0]] + rest[0]] + rest[1..]
  }

  /** `sep.join(parts)` / `parts.join(sep)`. */
  function Join(parts: seq<string>, sep: char): string
  {
    if |parts| == 0 then []
    else if |parts| == 1 then parts[0]
    else parts[0] + [sep] + Join(parts[1..], sep)
  }

  lemma JoinConsFirst(c: char, parts: seq<string>, sep: char)
    requires |parts| >= 1
    ensures Join([[c] + parts[0]] + parts[1..], sep) == [c] + Join(parts, sep)
  {
    var q := [[c] + parts[0]] + parts[1..];
    assert q[1..] == parts[1..];
  }

  /** Splitting a piece free of the separator followed by the separator peels that piece off. */
  lemma {:induction false} SplitAfterPiece(a: string, b: string, sep: char)
    requires sep !in a
    ensures Split(a + [sep] + b, sep) == [a] + Split(b, sep)
  {
    if a == [] {
      assert a + [sep] + b == [sep] + b;
      assert ([sep] + b)[1..] == b;
    } else {
      var s := a + [sep] + b;
      assert s[0] == a[0] && s[1..] == a[1..] + [sep] + b;
      SplitAfterPiece(a[1..], b, sep);
      assert [a[0]] + a[1..] == a;
    }
  }

  /** Joining one more piece appends the separator and that piece. */
  lemma {:induction false} JoinSnoc(parts: seq<string>, last: string, sep: char)
    requires |parts| >= 1
    ensures Join(parts + [last], sep) == Join(parts, sep) + [sep] + last
  {
    if |parts| == 1 {
      assert (parts + [last])[1..] == [last];
    } else {
      assert (parts + [last])[1..] == parts[1..] + [last];
      JoinSnoc(parts[1..], last, sep);
    }
  }

  /** A string free of the separator splits into itself alone. */
  lemma {:induction false} SplitNoSeparator(s: string, sep: char)
    requires sep !in s
    ensures Split(s, sep) == [s]
  {
    if s != [] {
      SplitNoSeparator(s[1..], sep);
      assert [s[0]] + s[1..] == s;
    }
  }

  /** Split and Join are inverse on non-empty lists of separator-free pieces. */
  lemma {:induction false} SplitJoin(parts: seq<string>, sep: char)
    requires |parts| >= 1
    requires forall k :: 0 <= k < |parts| ==> sep !in parts[k]
    ensures Split(Join(parts, sep), sep) == parts
  {
    if |parts| == 1 {
      SplitNoSeparator(parts[0], sep);
    } else {
      SplitJoin(parts[1..], sep);
      SplitAfterPiece(parts[0], Join(parts[1..], sep), sep);
      assert [parts[0]] + parts[1..] == parts;
    }
  }

  /** Splitting a concatenation: the pieces of `x` up to its last, then the pieces
      of that last piece followed by `y`. */
  lemma {:induction false} SplitConcat(x: string, y: string, sep: char)
    ensures var p := Split(x, sep);
      Split(x + y, sep) == p[..|p| - 1] + Split(p[|p| - 1] + y, sep)
  {
    if x == [] {
      assert x + y == [] + y;
    } else {
      SplitConcat(x[1..], y, sep);
      assert (x + y)[0] == x[0] && (x + y)[1..] == x[1..] + y;
      var q := Split(x[1..], sep);
      if x[0] == sep {
        SplitConcatAtSep(x, y, sep, q);
      } else if |q| > 1 {
        SplitConcatInPiece(x, y, sep, q);
      } else {
        SplitConcatLastPiece(x, y, sep, q);
      }
    }
  }

  /** The step of `SplitConcat` when `x` starts with the separator. */
  lemma SplitConcatAtSep(x: string, y: string, sep: char, q: seq<string>)
    requires x != [] && x[0] == sep && q == Split(x[1..], sep)
    requires (x + y)[0] == x[0] && (x + y)[1..] == x[1..] + y
    requires Split(x[1..] + y, sep) == q[..|q| - 1] + Split(q[|q| - 1] + y, sep)
    ensures var p := Split(x, sep);
      Split(x + y, sep) == p[..|p| - 1] + Split(p[|p| - 1] + y, sep)
  {
    var p := Split(x, sep);
    assert p == [[]] + q;
    assert p[..|p| - 1] == [[]] + q[..|q| - 1];
    Associative([[]], q[..|q| - 1], Split(q[|q| - 1] + y, sep));
  }

  /** The step when the first piece of `x` ends inside `x`. */
  lemma SplitConcatInPiece(x: string, y: string, sep: char, q: seq<string>)
    requires x != [] && x[0] != sep && q == Split(x[1..], sep) && |q| > 1
    requires (x + y)[0] == x[0] && (x + y)[1..] == x[1..] + y
    requires Split(x[1..] + y, sep) == q[..|q| - 1] + Split(q[|q| - 1] + y, sep)
    ensures var p := Split(x, sep);
      Split(x + y, sep) == p[..|p| - 1] + Split(p[|p| - 1] + y, sep)
  {
    var p := Split(x, sep);
    var r := Split(x[1..] + y, sep);
    assert p == [[x[0]] + q[0]] + q[1..];
    assert Split(x + y, sep) == [[x[0]] + r[0]] + r[1..];
    FirstPieceJoined(x[0], q, Split(q[|q| - 1] + y, sep), r, p, Split(x + y, sep));
  }

  /** The list algebra of `SplitConcatInPiece`. */
  lemma FirstPieceJoined(c: char, q: seq<string>, t: seq<string>, r: seq<string>, p: seq<string>, z: seq<string>)
    requires |q| > 1 && r == q[..|q| - 1] + t
    requires p == [[c] + q[0]] + q[1..] && z == [[c] + r[0]] + r[1..]
    ensures z == p[..|p| - 1] + t && p[|p| - 1] == q[|q| - 1]
  {
    assert r[0] == q[0];
    assert r[1..] == q[1..|q| - 1] + t;
    assert p[..|p| - 1] == [[c] + q[0]] + q[1..|q| - 1];
  }

  /** The step when `x` is a single piece: it joins the first piece of `y`. */
  lemma SplitConcatLastPiece(x: string, y: string, sep: char, q: seq<string>)
    requires x != [] && x[0] != sep && q == Split(x[1..], sep) && |q| == 1
    requires (x + y)[0] == x[0] && (x + y)[1..] == x[1..] + y
    requires Split(x[1..] + y, sep) == q[..|q| - 1] + Split(q[|q| - 1] + y, sep)
    ensures var p := Split(x, sep);
      Split(x + y, sep) == p[..|p| - 1] + Split(p[|p| - 1] + y, sep)
  {
    var p := Split(x, sep);
    assert p == [[x[0]] + q[0]];
    var t := [x[0]] + q[0] + y;
    assert t[0] == x[0] && t[1..] == q[0] + y;
  }

  // ---------------------------------------------------------------------
  // Whitespace classes and stripping
  // ---------------------------------------------------------------------

  /** WhiteSpace and LineTerminator of ECMAScript, as `String.prototype.trim` uses them. */
  predicate JsIsSpace(c: char)
  {
    c == '\t' || c == '\n' || c == '\U{000B}' || c == '\U{000C}' || c == '\r' || c == ' '
    || c == '\U{00A0}' || c == '\U{1680}' || ('\U{2000}' <= c <= '\U{200A}')
    || c == '\U{2028}' || c == '\U{2029}' || c == '\U{202F}' || c == '\U{205F}'
    || c == '\U{3000}' || c == '\U{FEFF}'
  }

  /** Python's `str.isspace`, as `str.strip()` and the `\s` class of `re` use it. */
  predicate PyIsSpace(c: char)
  {
    ('\t' <= c <= '\r') || ('\U{001C}' <= c <= '\U{001F}') || c == ' '
    || c == '\U{0085}' || c == '\U{00A0}' || c == '\U{1680}' || ('\U{2000}' <= c <= '\U{200A}')
    || c == '\U{2028}' || c == '\U{2029}' || c == '\U{202F}' || c == '\U{205F}' || c == '\U{3000}'
  }

  function TrimStart(s: string, isSpace: char -> bool): (r: string)
    ensures |r| <= |s| && r == s[|s| - |r|..]
    ensures r == [] || !isSpace(r[0])
    ensures forall k :: 0 <= k < |s| - |r| ==> isSpace(s[k])
  {
    if s != [] && isSpace(s[0]) then TrimStart(s[1..], isSpace) else s
  }

  function TrimEnd(s: string, isSpace: char -> bool): (r: string)
    ensures |r| <= |s| && r == s[..|r|]
    ensures r == [] || !isSpace(r[|r| - 1])
    ensures forall k :: |r| <= k < |s| ==> isSpace(s[k])
  {
    if s != [] && isSpace(s[|s| - 1]) then TrimEnd(s[..|s| - 1], isSpace) else s
  }

  /** Index of the first character `Strip` keeps. */
  function StripOffset(s: string, isSpace: char -> bool): nat
  {
    |s| - |TrimStart(s, isSpace)|
  }

  /** Both ends stripped: the result is a slice of `s` that neither begins nor ends
      with whitespace, and it is empty exactly when `s` is blank (`StripEnds`
      adds that everything cut away is whitespace). */
  function Strip(s: string, isSpace: char -> bool): (r: string)
    ensures StripOffset(s, isSpace) + |r| <= |s|
    ensures r == s[StripOffset(s, isSpace)..StripOffset(s, isSpace) + |r|]
    ensures r == [] || (!isSpace(r[0]) && !isSpace(r[|r| - 1]))
    ensures r == [] <==> IsBlank(s, isSpace)
  {
    var t := TrimStart(s, isSpace);
    var r := TrimEnd(t, isSpace);
    StripSlice(s, t, r, |s| - |t|, isSpace);
    assert r == [] || r[0] == t[0];
    r
  }

  /** The facts `Strip` states, from the two trims as slices: `t` is the suffix of
      `s` from `i` with whitespace before it, and `r` the prefix of `t` with
      whitespace after it. */
  lemma StripSlice(s: string, t: string, r: string, i: nat, isSpace: char -> bool)
    requires i <= |s| && t == s[i..] && |r| <= |t| && r == t[..|r|]
    requires forall k :: 0 <= k < i ==> isSpace(s[k])
    requires forall k :: |r| <= k < |t| ==> isSpace(t[k])
    requires t == [] || !isSpace(t[0])
    ensures i + |r| <= |s| && r == s[i..i + |r|]
    ensures forall k :: i + |r| <= k < |s| ==> isSpace(s[k])
    ensures r == [] <==> IsBlank(s, isSpace)
  {
    forall k | i <= k < |s|
      ensures s[k] == t[k - i]
    {
    }
    if r == [] {
      assert IsBlank(s, isSpace);
    } else if IsBlank(s, isSpace) {
      assert false;
    }
  }

  /** `Strip` removes only whitespace: everything before and after the kept
      slice is whitespace. */
  lemma StripEnds(s: string, isSpace: char -> bool)
    ensures forall k :: 0 <= k < StripOffset(s, isSpace) ==> isSpace(s[k])
    ensures forall k :: StripOffset(s, isSpace) + |Strip(s, isSpace)| <= k < |s| ==> isSpace(s[k])
  {
    var t := TrimStart(s, isSpace);
    StripSlice(s, t, TrimEnd(t, isSpace), |s| - |t|, isSpace);
  }

  lemma TrimStartKeeps(x: string, isSpace: char -> bool)
    requires x != [] && !isSpace(x[0])
    ensures TrimStart(x, isSpace) == x
  {
  }

  lemma TrimEndKeeps(x: string, isSpace: char -> bool)
    requires x != [] && !isSpace(x[|x| - 1])
    ensures TrimEnd(x, isSpace) == x
  {
  }

  /** A text with no whitespace at either end strips to itself. */
  lemma StripKeeps(s: string, isSpace: char -> bool)
    requires s != [] && !isSpace(s[0]) && !isSpace(s[|s| - 1])
    ensures Strip(s, isSpace) == s
  {
    TrimStartKeeps(s, isSpace);
    TrimEndKeeps(s, isSpace);
  }

  // ---------------------------------------------------------------------
  // Slices of slices
  // ---------------------------------------------------------------------

  lemma TakeTake<T>(s: seq<T>, i: nat, j: nat)
    requires j <= i <= |s|
    ensures s[..i][..j] == s[..j]
  {
  }

  lemma DropDrop<T>(s: seq<T>, i: nat, j: nat)
    requires i + j <= |s|
    ensures s[i..][j..] == s[i + j..]
  {
  }

  lemma DropSplit<T>(s: seq<T>, i: nat, j: nat)
    requires i <= j <= |s|
    ensures s[i..] == s[i..j] + s[j..]
  {
  }

  lemma Associative<T>(a: seq<T>, b: seq<T>, c: seq<T>)
    ensures a + b + c == a + (b + c)
  {
  }

  /** A character missing from a string is missing from each of its slices. */
  lemma SliceKeepsOut(s: string, a: nat, b: nat, c: char)
    requires a <= b <= |s| && c !in s
    ensures c !in s[a..b]
  {
    assert forall k :: 0 <= k < b - a ==> s[a..b][k] == s[a + k];
  }

  /** The end of the longest run of `cls` characters starting at `i`. */
  function SkipWhile(s: string, i: nat, cls: char -> bool): (j: nat)
    requires i <= |s|
    ensures i <= j <= |s|
    ensures forall k :: i <= k < j ==> cls(s[k])
    ensures j == |s| || !cls(s[j])
    decreases |s| - i
  {
    if i < |s| && cls(s[i]) then SkipWhile(s, i + 1, cls) else i
  }

  /** True when the string holds only whitespace (Python `not s.strip()`, JS `!s.trim()`). */
  predicate IsBlank(s: string, isSpace: char -> bool)
  {
    forall k :: 0 <= k < |s| ==> isSpace(s[k])
  }

  // ---------------------------------------------------------------------
  // Prefixes, suffixes, containment
  // ---------------------------------------------------------------------

  predicate StartsWith(s: string, prefix: string)
  {
    |prefix| <= |s| && s[..|prefix|] == prefix
  }

  predicate EndsWith(s: string, suffix: string)
  {
    |suffix| <= |s| && s[|s| - |suffix|..] == suffix
  }

  /** `needle in s` for strings, `s.includes(needle)` in JavaScript. */
  predicate Contains(s: string, needle: string)
  {
    StartsWith(s, needle) || (s != [] && Contains(s[1..], needle))
  }

  // ---------------------------------------------------------------------
  // Decimal rendering of naturals (`str(n)`, template-literal `${n}`)
  // ---------------------------------------------------------------------

  predicate IsDigit(c: char)
  {
    '0' <= c <= '9'
  }

  function DigitChar(d: nat): char
    requires d < 10
  {
    ['0', '1', '2', '3', '4', '5', '6', '7', '8', '9'][d]
  }

  function DigitValue(c: char): nat
    requires IsDigit(c)
  {
    (c as int) - ('0' as int)
  }

  /** `str(n)`: the decimal numeral of `n`. */
  function NatToString(n: nat): (s: string)
    ensures |s| >= 1
  {
    if n < 10 then [DigitChar(n)] else NatToString(n / 10) + [DigitChar(n % 10)]
  }

  /** The numeral is all digits, has no leading zero and parses back to `n`. */
  lemma {:induction false} NatToStringParses(n: nat)
    ensures forall k :: 0 <= k < |NatToString(n)| ==> IsDigit(NatToString(n)[k])
    ensures n > 0 ==> NatToString(n)[0] != '0'
    ensures ParseDecimal(NatToString(n)) == n
  {
    if n >= 10 {
      var prefix := NatToString(n / 10);
      NatToStringParses(n / 10);
      var s := prefix + [DigitChar(n % 10)];
      assert s[..|s| - 1] == prefix;
    }
  }

  /** The value of a string of decimal digits (the inverse of NatToString). */
  function ParseDecimal(s: string): nat
    requires forall k :: 0 <= k < |s| ==> IsDigit(s[k])
  {
    if s == [] then 0 else 10 * ParseDecimal(s[..|s| - 1]) + DigitValue(s[|s| - 1])
  }

  /** Distinct naturals render differently. */
  lemma NatToStringInjective(m: nat, n: nat)
    requires NatToString(m) == NatToString(n)
    ensures m == n
  {
    NatToStringParses(m);
    NatToStringParses(n);
    assert ParseDecimal(NatToString(m)) == ParseDecimal(NatToString(n));
  }
}
