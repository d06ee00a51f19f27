/** The document text cleaner (`clean_service.py`, `clean_text`): three passes
    that delete page markers, one that deletes control characters, two that
    collapse runs of newlines and of blanks, a per-line strip and a final strip.
    Each regular-expression substitution is modelled by the left-to-right scan
    `re.sub` performs, with the greedy match of that expression at each position. */
module TextCleaning {
  import opened Text

  // ---------------------------------------------------------------------
  // Character classes
  // ---------------------------------------------------------------------

  predicate IsNewline(c: char)
  {
    c == '\n'
  }

  /** `[ \t]` */
  predicate IsBlankChar(c: char)
  {
    c == ' ' || c == '\t'
  }

  /** `[\x00-\x08\x0b\x0c\x0e-\x1f\x7f]`: the control characters deleted, which
      spare tab, newline and carriage return. */
  predicate IsControl(c: char)
  {
    c <= '\U{0008}' || c == '\U{000B}' || c == '\U{000C}'
    || ('\U{000E}' <= c <= '\U{001F}') || c == '\U{007F}'
  }

  predicate NoControl(s: string)
  {
    forall k :: 0 <= k < |s| ==> !IsControl(s[k])
  }

  /** No two neighbouring characters are both spaces or tabs. */
  predicate NoDoubleBlank(s: string)
  {
    forall k :: 0 <= k < |s| - 1 ==> !(IsBlankChar(s[k]) && IsBlankChar(s[k + 1]))
  }

  /** A line as stripping leaves it: no whitespace at either end. */
  predicate Trimmed(line: string, isSpace: char -> bool)
  {
    line == [] || (!isSpace(line[0]) && !isSpace(line[|line| - 1]))
  }

  // ---------------------------------------------------------------------
  // The substituted regular expressions
  // ---------------------------------------------------------------------

  /** The five expressions `clean_text` substitutes, in the order it applies them:
      `第\s*\d+\s*页`, `[Pp]age\s*\d+`, `-\s*\d+\s*-` (all deleted), `\n{3,}`
      (replaced by two newlines) and `[ \t]{2,}` (replaced by one space). */
  datatype Pattern = CnPageMark | EnPageMark | DashPageMark | NewlineRun | BlankRun

  function Replacement(p: Pattern): string
  {
    match p
    case NewlineRun => "\n\n"
    case BlankRun => " "
    case _ => ""
  }

  /** Where the match of `p` that starts at `i` ends, if there is one. The classes
      next to each other in an expression are disjoint, so the greedy match takes
      every run in full and never needs to backtrack. The result is longer than the
      replacement, so every substitution shortens the text. */
  function Match(p: Pattern, s: string, i: nat): (m: Option<nat>)
    requires i < |s|
    ensures m.Some? ==> i + |Replacement(p)| < m.value <= |s|
  {
    match p
    case CnPageMark =>
      if s[i] != '第' then None
      else
        var a := SkipWhile(s, i + 1, PyIsSpace);
        var b := SkipWhile(s, a, IsDigit);
        var c := SkipWhile(s, b, PyIsSpace);
        if a < b && c < |s| && s[c] == '页' then Some(c + 1) else None
    case EnPageMark =>
      if (s[i] == 'P' || s[i] == 'p') && i + 4 <= |s| && s[i + 1..i + 4] == "age" then
        var a := SkipWhile(s, i + 4, PyIsSpace);
        var b := SkipWhile(s, a, IsDigit);
        if a < b then Some(b) else None
      else None
    case DashPageMark =>
      if s[i] != '-' then None
      else
        var a := SkipWhile(s, i + 1, PyIsSpace);
        var b := SkipWhile(s, a, IsDigit);
        var c := SkipWhile(s, b, PyIsSpace);
        if a < b && c < |s| && s[c] == '-' then Some(c + 1) else None
    case NewlineRun =>
      var j := SkipWhile(s, i, IsNewline);
      if j - i >= 3 then Some(j) else None
    case BlankRun =>
      var j := SkipWhile(s, i, IsBlankChar);
      if j - i >= 2 then Some(j) else None
  }

  /** `re.sub` from position `i` on: a match is replaced and the scan resumes after
      it; otherwise the character is kept and the scan moves one on. The result is
      no longer than what it scans, and introduces no control character. */
  function SubFrom(p: Pattern, s: string, i: nat): (r: string)
    requires i <= |s|
    ensures |r| <= |s| - i
    ensures NoControl(s) ==> NoControl(r)
    decreases |s| - i
  {
    if i == |s| then []
    else
      match Match(p, s, i)
      case Some(j) => Replacement(p) + SubFrom(p, s, j)
      case None => [s[i]] + SubFrom(p, s, i + 1)
  }

  function Sub(p: Pattern, s: string): (r: string)
    ensures |r| <= |s|
    ensures NoControl(s) ==> NoControl(r)
  {
    SubFrom(p, s, 0)
  }

  /** The control-character pass: every other character kept, in order. */
  function RemoveControl(s: string): (r: string)
    ensures |r| <= |s| && NoControl(r)
  {
    if s == [] then []
    else (if IsControl(s[0]) then [] else [s[0]]) + RemoveControl(s[1..])
  }

  /** Every line stripped of surrounding whitespace. */
  function StripEach(lines: seq<string>, isSpace: char -> bool): (r: seq<string>)
    ensures |r| == |lines|
    ensures forall k :: 0 <= k < |r| ==> r[k] == Strip(lines[k], isSpace)
  {
    seq(|lines|, k requires 0 <= k < |lines| => Strip(lines[k], isSpace))
  }

  /** `"\n".join(line.strip() for line in text.split("\n"))` followed by the final
      `strip()`, for a whitespace class `isSpace` (`str.isspace` in `clean_text`). */
  function StripBoth(spaced: string, isSpace: char -> bool): (r: string)
    ensures r == [] || (!isSpace(r[0]) && !isSpace(r[|r| - 1]))
  {
    var t := TrimStart(Join(StripEach(Split(spaced, '\n'), isSpace), '\n'), isSpace);
    assert TrimEnd(t, isSpace) == [] || TrimEnd(t, isSpace)[0] == t[0];
    TrimEnd(t, isSpace)
  }

  /** `clean_text`. */
  function CleanText(text: string): (r: string)
    ensures r == [] || (!PyIsSpace(r[0]) && !PyIsSpace(r[|r| - 1]))
  {
    StripBoth(Spaced(text), PyIsSpace)
  }

  /** The text after the five substitutions and the control pass, before any
      stripping. */
  function Spaced(text: string): (r: string)
    ensures |r| <= |text| && NoControl(r) && NoDoubleBlank(r)
  {
    var noPages := Sub(DashPageMark, Sub(EnPageMark, Sub(CnPageMark, text)));
    var printable := RemoveControl(noPages);
    var paragraphs := Sub(NewlineRun, printable);
    BlankRunsCollapsed(paragraphs, 0);
    Sub(BlankRun, paragraphs)
  }

  // ---------------------------------------------------------------------
  // The blank-run pass leaves no two blanks side by side
  // ---------------------------------------------------------------------

  lemma {:induction false} BlankRunsCollapsed(s: string, i: nat)
    requires i <= |s|
    ensures var r := SubFrom(BlankRun, s, i);
      NoDoubleBlank(r) && (r != [] && IsBlankChar(r[0]) ==> IsBlankChar(s[i]))
    decreases |s| - i
  {
    if i < |s| {
      var r := SubFrom(BlankRun, s, i);
      var j := SkipWhile(s, i, IsBlankChar);
      if j - i >= 2 {
        var rest := SubFrom(BlankRun, s, j);
        BlankRunsCollapsed(s, j);
        assert r == " " + rest;
        assert rest != [] ==> !IsBlankChar(rest[0]);
      } else {
        var rest := SubFrom(BlankRun, s, i + 1);
        BlankRunsCollapsed(s, i + 1);
        assert r == [s[i]] + rest;
        assert IsBlankChar(s[i]) && rest != [] ==> !IsBlankChar(rest[0]);
      }
    }
  }

  // ---------------------------------------------------------------------
  // Joining lines and taking them apart
  // ---------------------------------------------------------------------

  lemma {:induction false} JoinNoControl(lines: seq<string>)
    requires forall k :: 0 <= k < |lines| ==> NoControl(lines[k])
    ensures NoControl(Join(lines, '\n'))
  {
    if |lines| > 1 {
      JoinNoControl(lines[1..]);
    }
  }

  lemma {:induction false} JoinNoDoubleBlank(lines: seq<string>)
    requires forall k :: 0 <= k < |lines| ==> NoDoubleBlank(lines[k])
    ensures NoDoubleBlank(Join(lines, '\n'))
  {
    if |lines| > 1 {
      JoinNoDoubleBlank(lines[1..]);
      var x, y := lines[0], Join(lines[1..], '\n');
      var s := Join(lines, '\n');
      assert s == x + ['\n'] + y;
      forall k | 0 <= k < |s| - 1
        ensures !(IsBlankChar(s[k]) && IsBlankChar(s[k + 1]))
      {
        if k < |x| - 1 {
          assert s[k] == x[k] && s[k + 1] == x[k + 1];
        } else if k > |x| {
          assert s[k] == y[k - |x| - 1] && s[k + 1] == y[k - |x|];
        }
      }
    }
  }

  /** The pieces of a joined text inherit its property. */
  lemma {:induction false} PiecesNoControl(lines: seq<string>)
    requires NoControl(Join(lines, '\n'))
    ensures forall k :: 0 <= k < |lines| ==> NoControl(lines[k])
  {
    if |lines| > 1 {
      var s := Join(lines, '\n');
      assert s == lines[0] + ['\n'] + Join(lines[1..], '\n');
      assert s[..|lines[0]|] == lines[0];
      assert s[|lines[0]| + 1..] == Join(lines[1..], '\n');
      PiecesNoControl(lines[1..]);
      assert forall k :: 1 <= k < |lines| ==> lines[k] == lines[1..][k - 1];
    }
  }

  lemma {:induction false} PiecesNoDoubleBlank(lines: seq<string>)
    requires NoDoubleBlank(Join(lines, '\n'))
    ensures forall k :: 0 <= k < |lines| ==> NoDoubleBlank(lines[k])
  {
    if |lines| > 1 {
      var s := Join(lines, '\n');
      var x, y := lines[0], Join(lines[1..], '\n');
      assert s == x + ['\n'] + y;
      assert s[..|x|] == x;
      assert s[|x| + 1..] == y;
      SliceNoDoubleBlank(s, 0, |x|);
      SliceNoDoubleBlank(s, |x| + 1, |s|);
      PiecesNoDoubleBlank(lines[1..]);
      assert forall k :: 1 <= k < |lines| ==> lines[k] == lines[1..][k - 1];
    }
  }

  lemma SliceNoDoubleBlank(s: string, a: nat, b: nat)
    requires a <= b <= |s| && NoDoubleBlank(s)
    ensures NoDoubleBlank(s[a..b])
  {
    var t := s[a..b];
    forall k | 0 <= k < |t| - 1
      ensures !(IsBlankChar(t[k]) && IsBlankChar(t[k + 1]))
    {
      assert t[k] == s[a + k] && t[k + 1] == s[a + k + 1];
    }
  }

  /** Stripping each line never lengthens the joined text. */
  lemma {:induction false} StripEachShrinks(lines: seq<string>, isSpace: char -> bool)
    ensures |Join(StripEach(lines, isSpace), '\n')| <= |Join(lines, '\n')|
  {
    if |lines| > 1 {
      StripEachShrinks(lines[1..], isSpace);
      assert StripEach(lines, isSpace)[1..] == StripEach(lines[1..], isSpace);
    }
  }

  // ---------------------------------------------------------------------
  // Stripping a text made of trimmed lines drops whole blank lines
  // ---------------------------------------------------------------------
  // These lemmas take the whitespace class as a parameter that counts the
  // newline as whitespace; `clean_text` instantiates it with `str.isspace`.

  /** Lines that are trimmed and free of newlines, as the per-line strip leaves them. */
  predicate TrimmedLines(lines: seq<string>, isSpace: char -> bool)
  {
    forall k :: 0 <= k < |lines| ==> Trimmed(lines[k], isSpace) && '\n' !in lines[k]
  }

  /** How many leading empty lines precede the first non-empty one (the last line
      is never counted). */
  function HeadBlanks(lines: seq<string>): (n: nat)
    requires |lines| >= 1
    ensures n < |lines|
  {
    if |lines| > 1 && lines[0] == [] then 1 + HeadBlanks(lines[1..]) else 0
  }

  function TailBlanks(lines: seq<string>): (n: nat)
    requires |lines| >= 1
    ensures n < |lines|
  {
    if |lines| > 1 && lines[|lines| - 1] == [] then 1 + TailBlanks(lines[..|lines| - 1]) else 0
  }

  lemma {:induction false} TrimStartJoin(lines: seq<string>, isSpace: char -> bool)
    requires isSpace('\n') && |lines| >= 1 && TrimmedLines(lines, isSpace)
    ensures TrimStart(Join(lines, '\n'), isSpace) == Join(lines[HeadBlanks(lines)..], '\n')
  {
    var s := Join(lines, '\n');
    if |lines| > 1 && lines[0] == [] {
      assert s == [] + ['\n'] + Join(lines[1..], '\n');
      assert s[1..] == Join(lines[1..], '\n');
      TrimmedSlice(lines, 1, |lines|, isSpace);
      TrimStartJoin(lines[1..], isSpace);
      DropDrop(lines, 1, HeadBlanks(lines[1..]));
    } else if lines[0] != [] {
      assert s[0] == lines[0][0];
      assert lines[0..] == lines;
    } else {
      assert lines[0..] == lines;
    }
  }

  lemma {:induction false} TrimEndJoin(lines: seq<string>, isSpace: char -> bool)
    requires isSpace('\n') && |lines| >= 1 && TrimmedLines(lines, isSpace)
    ensures TrimEnd(Join(lines, '\n'), isSpace)
      == Join(lines[..|lines| - TailBlanks(lines)], '\n')
  {
    var n := |lines|;
    if n > 1 && lines[n - 1] == [] {
      TrimmedSlice(lines, 0, n - 1, isSpace);
      TrimEndJoin(lines[..n - 1], isSpace);
      TrimEndBlankLast(lines, isSpace);
    } else if n > 1 {
      TrimEndFullLast(lines, isSpace);
    } else {
      assert lines[..n] == lines;
    }
  }

  /** A last line that is empty is only a trailing newline, which the strip drops
      along with the blank lines before it. */
  lemma TrimEndBlankLast(lines: seq<string>, isSpace: char -> bool)
    requires isSpace('\n') && |lines| > 1 && lines[|lines| - 1] == []
    requires var init := lines[..|lines| - 1];
      TrimEnd(Join(init, '\n'), isSpace) == Join(init[..|init| - TailBlanks(init)], '\n')
    ensures TrimEnd(Join(lines, '\n'), isSpace) == Join(lines[..|lines| - TailBlanks(lines)], '\n')
  {
    var n := |lines|;
    var init := lines[..n - 1];
    assert init + [lines[n - 1]] == lines;
    JoinSnoc(init, lines[n - 1], '\n');
    assert Join(lines, '\n') == Join(init, '\n') + ['\n'];
    TrimEndNewline(Join(init, '\n'), isSpace);
    assert TailBlanks(lines) == 1 + TailBlanks(init);
    TakeTake(lines, n - 1, |init| - TailBlanks(init));
  }

  /** A last line that is not empty ends in a character the strip keeps. */
  lemma TrimEndFullLast(lines: seq<string>, isSpace: char -> bool)
    requires |lines| > 1 && lines[|lines| - 1] != [] && TrimmedLines(lines, isSpace)
    ensures TrimEnd(Join(lines, '\n'), isSpace) == Join(lines[..|lines| - TailBlanks(lines)], '\n')
  {
    var n := |lines|;
    assert Trimmed(lines[n - 1], isSpace);
    TrimEndKeepsJoin(lines, isSpace);
    assert lines[..n] == lines;
  }

  /** Joined lines whose last line ends in a non-space are not trimmed at all. */
  lemma TrimEndKeepsJoin(lines: seq<string>, isSpace: char -> bool)
    requires |lines| > 1 && lines[|lines| - 1] != []
    requires !isSpace(lines[|lines| - 1][|lines[|lines| - 1]| - 1])
    ensures TrimEnd(Join(lines, '\n'), isSpace) == Join(lines, '\n')
  {
    var n := |lines|;
    var init, last := lines[..n - 1], lines[n - 1];
    assert init + [last] == lines;
    JoinSnoc(init, last, '\n');
    TrimEndKeepsLast(Join(init, '\n') + ['\n'], last, isSpace);
  }

  lemma TrimEndKeepsLast(a: string, b: string, isSpace: char -> bool)
    requires b != [] && !isSpace(b[|b| - 1])
    ensures TrimEnd(a + b, isSpace) == a + b
  {
    assert (a + b)[|a + b| - 1] == b[|b| - 1];
    TrimEndKeeps(a + b, isSpace);
  }

  lemma TrimEndNewline(x: string, isSpace: char -> bool)
    requires isSpace('\n')
    ensures TrimEnd(x + ['\n'], isSpace) == TrimEnd(x, isSpace)
  {
    assert (x + ['\n'])[..|x|] == x;
  }

  lemma TrimmedSlice(lines: seq<string>, a: nat, b: nat, isSpace: char -> bool)
    requires a <= b <= |lines| && TrimmedLines(lines, isSpace)
    ensures TrimmedLines(lines[a..b], isSpace)
  {
    assert forall k :: 0 <= k < b - a ==> lines[a..b][k] == lines[a + k];
  }

  /** A stripped line keeps out every character its source line lacked. */
  lemma StripKeepsOut(line: string, c: char, isSpace: char -> bool)
    requires c !in line
    ensures c !in Strip(line, isSpace)
  {
    var o := StripOffset(line, isSpace);
    SliceKeepsOut(line, o, o + |Strip(line, isSpace)|, c);
  }

  /** The lines from the first non-empty one to the last non-empty one (a single
      empty line when all are empty). */
  function InnerLines(lines: seq<string>): (inner: seq<string>)
    requires |lines| >= 1
    ensures |inner| >= 1
  {
    var rest := lines[HeadBlanks(lines)..];
    rest[..|rest| - TailBlanks(rest)]
  }

  lemma InnerLinesTrimmed(lines: seq<string>, isSpace: char -> bool)
    requires |lines| >= 1 && TrimmedLines(lines, isSpace)
    ensures TrimmedLines(InnerLines(lines), isSpace)
  {
    var rest := lines[HeadBlanks(lines)..];
    TrimmedSlice(lines, HeadBlanks(lines), |lines|, isSpace);
    TrimmedSlice(rest, 0, |rest| - TailBlanks(rest), isSpace);
  }

  /** Stripping a text of trimmed lines drops its leading and trailing empty lines
      and nothing else. */
  lemma StripJoined(lines: seq<string>, isSpace: char -> bool)
    requires isSpace('\n') && |lines| >= 1 && TrimmedLines(lines, isSpace)
    ensures TrimEnd(TrimStart(Join(lines, '\n'), isSpace), isSpace) == Join(InnerLines(lines), '\n')
  {
    var rest := lines[HeadBlanks(lines)..];
    TrimStartJoin(lines, isSpace);
    TrimmedFromFirst(lines, isSpace);
    TrimEndOfRest(lines, rest, isSpace);
  }

  lemma TrimmedFromFirst(lines: seq<string>, isSpace: char -> bool)
    requires |lines| >= 1 && TrimmedLines(lines, isSpace)
    ensures TrimmedLines(lines[HeadBlanks(lines)..], isSpace)
  {
    TrimmedSlice(lines, HeadBlanks(lines), |lines|, isSpace);
  }

  /** The second half: stripping the end of the lines from the first non-empty one. */
  lemma TrimEndOfRest(lines: seq<string>, rest: seq<string>, isSpace: char -> bool)
    requires isSpace('\n') && |lines| >= 1 && rest == lines[HeadBlanks(lines)..] && TrimmedLines(rest, isSpace)
    ensures TrimEnd(Join(rest, '\n'), isSpace) == Join(InnerLines(lines), '\n')
  {
    TrimEndJoin(rest, isSpace);
  }

  lemma TrimBoth(s: string, t: string, r: string, isSpace: char -> bool)
    requires TrimStart(s, isSpace) == t && TrimEnd(t, isSpace) == r
    ensures TrimEnd(TrimStart(s, isSpace), isSpace) == r
  {
  }

  /** So what remains splits into lines that are all trimmed. */
  lemma StripJoinedTrimmed(lines: seq<string>, isSpace: char -> bool)
    requires isSpace('\n') && |lines| >= 1 && TrimmedLines(lines, isSpace)
    ensures TrimmedLines(Split(TrimEnd(TrimStart(Join(lines, '\n'), isSpace), isSpace), '\n'), isSpace)
  {
    StripJoined(lines, isSpace);
    InnerLinesTrimmed(lines, isSpace);
    SplitTrimmedLines(InnerLines(lines), TrimEnd(TrimStart(Join(lines, '\n'), isSpace), isSpace), isSpace);
  }

  lemma SplitTrimmedLines(lines: seq<string>, text: string, isSpace: char -> bool)
    requires |lines| >= 1 && TrimmedLines(lines, isSpace) && text == Join(lines, '\n')
    ensures TrimmedLines(Split(text, '\n'), isSpace)
  {
    SplitJoin(lines, '\n');
  }

  /** The per-line strip leaves trimmed lines without newlines. */
  lemma StripEachTrimmed(pieces: seq<string>, isSpace: char -> bool)
    requires forall k :: 0 <= k < |pieces| ==> '\n' !in pieces[k]
    ensures TrimmedLines(StripEach(pieces, isSpace), isSpace)
  {
    var lines := StripEach(pieces, isSpace);
    forall k | 0 <= k < |lines|
      ensures Trimmed(lines[k], isSpace) && '\n' !in lines[k]
    {
      StripLineTrimmed(pieces[k], isSpace);
    }
  }

  lemma StripLineTrimmed(piece: string, isSpace: char -> bool)
    requires '\n' !in piece
    ensures Trimmed(Strip(piece, isSpace), isSpace) && '\n' !in Strip(piece, isSpace)
  {
    StripKeepsOut(piece, '\n', isSpace);
  }

  // ---------------------------------------------------------------------
  // The two stripping passes
  // ---------------------------------------------------------------------

  lemma StrippedLinesTrimmed(spaced: string, isSpace: char -> bool)
    requires isSpace('\n')
    ensures TrimmedLines(Split(StripBoth(spaced, isSpace), '\n'), isSpace)
  {
    var pieces := Split(spaced, '\n');
    StripEachTrimmed(pieces, isSpace);
    StripJoinedTrimmed(StripEach(pieces, isSpace), isSpace);
  }

  lemma StrippedNoControl(spaced: string, isSpace: char -> bool)
    requires NoControl(spaced)
    ensures NoControl(StripBoth(spaced, isSpace))
  {
    var pieces := Split(spaced, '\n');
    PiecesNoControl(pieces);
    var lines := StripEach(pieces, isSpace);
    forall k | 0 <= k < |lines|
      ensures NoControl(lines[k])
    {
      SliceNoControl(pieces[k], StripOffset(pieces[k], isSpace), StripOffset(pieces[k], isSpace) + |lines[k]|);
    }
    JoinNoControl(lines);
    TrimmedNoControl(Join(lines, '\n'), isSpace);
  }

  /** A slice of text without control characters has none either. */
  lemma SliceNoControl(s: string, a: nat, b: nat)
    requires NoControl(s) && a <= b <= |s|
    ensures NoControl(s[a..b])
  {
    forall m | 0 <= m < b - a
      ensures !IsControl(s[a..b][m])
    {
      assert s[a..b][m] == s[a + m];
    }
  }

  lemma TrimmedNoControl(u: string, isSpace: char -> bool)
    requires NoControl(u)
    ensures NoControl(TrimEnd(TrimStart(u, isSpace), isSpace))
  {
    var t := TrimStart(u, isSpace);
    SliceNoControl(u, |u| - |t|, |u|);
    SliceNoControl(t, 0, |TrimEnd(t, isSpace)|);
  }

  lemma StrippedNoDoubleBlank(spaced: string, isSpace: char -> bool)
    requires NoDoubleBlank(spaced)
    ensures NoDoubleBlank(StripBoth(spaced, isSpace))
  {
    var pieces := Split(spaced, '\n');
    PiecesNoDoubleBlank(pieces);
    var lines := StripEach(pieces, isSpace);
    forall k | 0 <= k < |lines|
      ensures NoDoubleBlank(lines[k])
    {
      var o := StripOffset(pieces[k], isSpace);
      SliceNoDoubleBlank(pieces[k], o, o + |lines[k]|);
    }
    JoinNoDoubleBlank(lines);
    TrimmedNoDoubleBlank(Join(lines, '\n'), isSpace);
  }

  lemma TrimmedNoDoubleBlank(u: string, isSpace: char -> bool)
    requires NoDoubleBlank(u)
    ensures NoDoubleBlank(TrimEnd(TrimStart(u, isSpace), isSpace))
  {
    var t := TrimStart(u, isSpace);
    SliceNoDoubleBlank(u, |u| - |t|, |u|);
    SliceNoDoubleBlank(t, 0, |TrimEnd(t, isSpace)|);
  }

  // ---------------------------------------------------------------------
  // What `clean_text` guarantees
  // ---------------------------------------------------------------------

  /** Every `'\n'`-separated line of the output has no whitespace at either end. */
  lemma CleanLinesTrimmed(text: string)
    ensures forall line <- Split(CleanText(text), '\n') :: Trimmed(line, PyIsSpace)
  {
    StrippedLinesTrimmed(Spaced(text), PyIsSpace);
  }

  /** No control character survives. */
  lemma CleanNoControl(text: string)
    ensures NoControl(CleanText(text))
  {
    StrippedNoControl(Spaced(text), PyIsSpace);
  }

  /** No space or tab sits next to another space or tab. */
  lemma CleanNoDoubleBlank(text: string)
    ensures NoDoubleBlank(CleanText(text))
  {
    StrippedNoDoubleBlank(Spaced(text), PyIsSpace);
  }

  /** Cleaning never lengthens the text. */
  lemma CleanShrinks(text: string)
    ensures |CleanText(text)| <= |text|
  {
    StripEachShrinks(Split(Spaced(text), '\n'), PyIsSpace);
  }

  // ---------------------------------------------------------------------
  // Cleaning is not idempotent
  // ---------------------------------------------------------------------

  /** A pass that matches nowhere leaves the text as it is. */
  lemma {:induction false} SubNoMatch(p: Pattern, s: string, i: nat)
    requires i <= |s|
    requires forall k :: i <= k < |s| ==> Match(p, s, k).None?
    ensures SubFrom(p, s, i) == s[i..]
    decreases |s| - i
  {
    if i < |s| {
      SubNoMatch(p, s, i + 1);
      assert s[i..] == [s[i]] + s[i + 1..];
    }
  }

  lemma {:induction false} RemoveControlKeeps(s: string)
    requires NoControl(s)
    ensures RemoveControl(s) == s
  {
    if s != [] {
      RemoveControlKeeps(s[1..]);
      assert s == [s[0]] + s[1..];
    }
  }

  /** The four passes other than the newline pass leave alone a text with no page
      marker letters, no control characters and no two blanks side by side. */
  lemma QuietPasses(s: string)
    requires '第' !in s && 'P' !in s && 'p' !in s && '-' !in s
    requires NoControl(s)
    ensures Sub(DashPageMark, Sub(EnPageMark, Sub(CnPageMark, s))) == s
    ensures RemoveControl(s) == s
  {
    MarkFree(CnPageMark, s);
    MarkFree(EnPageMark, s);
    MarkFree(DashPageMark, s);
    RemoveControlKeeps(s);
  }

  /** A page-marker pass finds nothing in a text without the markers' first letters. */
  lemma MarkFree(p: Pattern, s: string)
    requires p == CnPageMark || p == EnPageMark || p == DashPageMark
    requires '第' !in s && 'P' !in s && 'p' !in s && '-' !in s
    ensures Sub(p, s) == s
  {
    forall k | 0 <= k < |s|
      ensures Match(p, s, k).None?
    {
      assert s[k] in s;
    }
    SubNoMatch(p, s, 0);
    assert s[0..] == s;
  }

  /** A run stops at the first character outside its class. */
  lemma {:induction false} RunStops(s: string, i: nat, cls: char -> bool, m: nat)
    requires i <= m <= |s| && (m == |s| || !cls(s[m]))
    ensures SkipWhile(s, i, cls) <= m
    decreases m - i
  {
    if i < m && cls(s[i]) {
      RunStops(s, i + 1, cls, m);
    }
  }

  /** The newline pass leaves alone a text with no three newlines in a row. */
  lemma NewlinePassQuiet(s: string)
    requires forall k :: 0 <= k < |s| - 2 ==>
      !(IsNewline(s[k]) && IsNewline(s[k + 1]) && IsNewline(s[k + 2]))
    ensures Sub(NewlineRun, s) == s
  {
    forall k | 0 <= k < |s|
      ensures Match(NewlineRun, s, k).None?
    {
      if k + 2 >= |s| {
        RunStops(s, k, IsNewline, |s|);
      } else if !IsNewline(s[k]) {
        RunStops(s, k, IsNewline, k);
      } else if !IsNewline(s[k + 1]) {
        RunStops(s, k, IsNewline, k + 1);
      } else {
        RunStops(s, k, IsNewline, k + 2);
      }
    }
    SubNoMatch(NewlineRun, s, 0);
  }

  /** The blank pass leaves alone a text with no two blanks side by side. */
  lemma BlankPassQuiet(s: string)
    requires NoDoubleBlank(s)
    ensures Sub(BlankRun, s) == s
  {
    forall k | 0 <= k < |s|
      ensures Match(BlankRun, s, k).None?
    {
      if k + 1 >= |s| {
        RunStops(s, k, IsBlankChar, |s|);
      } else if !IsBlankChar(s[k]) {
        RunStops(s, k, IsBlankChar, k);
      } else {
        RunStops(s, k, IsBlankChar, k + 1);
      }
    }
    SubNoMatch(BlankRun, s, 0);
  }

  /** The stripping passes on `x \n sp \n sp \n y`, where `sp` is whitespace and
      `x`, `y` are not: the middle lines are emptied, and their newlines stay. */
  lemma FirstStrip(x: char, sp: char, y: char, isSpace: char -> bool)
    requires isSpace(sp) && isSpace('\n') && !isSpace(x) && !isSpace(y)
    requires x != '\n' && sp != '\n' && y != '\n'
    ensures StripBoth([x, '\n', sp, '\n', sp, '\n', y], isSpace) == [x, '\n', '\n', '\n', y]
  {
    FirstPieces(x, sp, y);
    FirstLines(x, sp, y, isSpace);
    FirstJoined(x, y);
    var joined := [x, '\n', '\n', '\n', y];
    TrimStartKeeps(joined, isSpace);
    TrimEndKeeps(joined, isSpace);
  }

  lemma FirstPieces(x: char, sp: char, y: char)
    requires x != '\n' && sp != '\n' && y != '\n'
    ensures Split([x, '\n', sp, '\n', sp, '\n', y], '\n') == [[x], [sp], [sp], [y]]
  {
    var pieces := [[x], [sp], [sp], [y]];
    assert pieces[1..] == [[sp], [sp], [y]] && pieces[2..] == [[sp], [y]] && pieces[3..] == [[y]];
    assert Join(pieces[2..], '\n') == [sp, '\n', y];
    assert Join(pieces[1..], '\n') == [sp, '\n', sp, '\n', y];
    assert Join(pieces, '\n') == [x, '\n', sp, '\n', sp, '\n', y];
    SplitJoin(pieces, '\n');
  }

  lemma FirstLines(x: char, sp: char, y: char, isSpace: char -> bool)
    requires isSpace(sp) && !isSpace(x) && !isSpace(y)
    ensures StripEach([[x], [sp], [sp], [y]], isSpace) == [[x], [], [], [y]]
  {
    var lines := [[x], [sp], [sp], [y]];
    var out := [[x], [], [], [y]];
    forall k | 0 <= k < |lines|
      ensures Strip(lines[k], isSpace) == out[k]
    {
      if k == 0 {
        StripOneChar(x, isSpace);
      } else if k == 3 {
        StripOneChar(y, isSpace);
      } else {
        assert lines[k] == [sp];
        StripOneChar(sp, isSpace);
      }
    }
    StripEachTo(lines, out, isSpace);
  }

  lemma StripEachTo(lines: seq<string>, out: seq<string>, isSpace: char -> bool)
    requires |out| == |lines| && forall k :: 0 <= k < |lines| ==> Strip(lines[k], isSpace) == out[k]
    ensures StripEach(lines, isSpace) == out
  {
  }

  /** A one-character line strips to nothing when the character is whitespace,
      and to itself otherwise. */
  lemma StripOneChar(c: char, isSpace: char -> bool)
    ensures Strip([c], isSpace) == if isSpace(c) then [] else [c]
  {
    if isSpace(c) {
      assert IsBlank([c], isSpace);
    } else {
      StripKeeps([c], isSpace);
    }
  }

  lemma FirstJoined(x: char, y: char)
    ensures Join([[x], [], [], [y]], '\n') == [x, '\n', '\n', '\n', y]
  {
    var lines: seq<string> := [[x], [], [], [y]];
    assert lines[1..] == [[], [], [y]] && lines[2..] == [[], [y]] && lines[3..] == [[y]];
    assert Join(lines[2..], '\n') == ['\n', y];
    assert Join(lines[1..], '\n') == ['\n', '\n', y];
  }

  /** The stripping passes on `x \n \n y`: nothing to strip. */
  lemma SecondStrip(x: char, y: char, isSpace: char -> bool)
    requires !isSpace(x) && !isSpace(y) && x != '\n' && y != '\n'
    ensures StripBoth([x, '\n', '\n', y], isSpace) == [x, '\n', '\n', y]
  {
    SecondPieces(x, y);
    SecondLines(x, y, isSpace);
    TrimStartKeeps([x, '\n', '\n', y], isSpace);
    TrimEndKeeps([x, '\n', '\n', y], isSpace);
  }

  lemma SecondPieces(x: char, y: char)
    requires x != '\n' && y != '\n'
    ensures Split([x, '\n', '\n', y], '\n') == [[x], [], [y]]
    ensures Join([[x], [], [y]], '\n') == [x, '\n', '\n', y]
  {
    var pieces := [[x], [], [y]];
    assert pieces[1..] == [[], [y]] && pieces[2..] == [[y]];
    assert Join(pieces[1..], '\n') == ['\n', y];
    SplitJoin(pieces, '\n');
  }

  lemma SecondLines(x: char, y: char, isSpace: char -> bool)
    requires !isSpace(x) && !isSpace(y)
    ensures StripEach([[x], [], [y]], isSpace) == [[x], [], [y]]
  {
    var lines := [[x], [], [y]];
    forall k | 0 <= k < |lines|
      ensures Trimmed(lines[k], isSpace)
    {
      assert k == 0 || k == 1 || k == 2;
    }
    StripEachKeeps(lines, isSpace);
  }

  /** Lines that are already trimmed are left as they are. */
  lemma StripEachKeeps(lines: seq<string>, isSpace: char -> bool)
    requires forall k :: 0 <= k < |lines| ==> Trimmed(lines[k], isSpace)
    ensures StripEach(lines, isSpace) == lines
  {
    forall k | 0 <= k < |lines|
      ensures Strip(lines[k], isSpace) == lines[k]
    {
      StripLineKeeps(lines[k], isSpace);
    }
    StripEachTo(lines, lines, isSpace);
  }

  lemma StripLineKeeps(line: string, isSpace: char -> bool)
    requires Trimmed(line, isSpace)
    ensures Strip(line, isSpace) == line
  {
    if line != [] {
      StripKeeps(line, isSpace);
    }
  }

  /** A character none of the passes before the strips touches on its own. */
  predicate Plain(c: char)
  {
    c != '第' && c != 'P' && c != 'p' && c != '-' && !IsControl(c) && c != '\n'
  }

  lemma FirstSpaced(x: char, sp: char, y: char)
    requires Plain(x) && Plain(sp) && Plain(y) && !IsBlankChar(x) && !IsBlankChar(y)
    ensures Spaced([x, '\n', sp, '\n', sp, '\n', y]) == [x, '\n', sp, '\n', sp, '\n', y]
  {
    var s := [x, '\n', sp, '\n', sp, '\n', y];
    forall k | 0 <= k < |s| - 2
      ensures !(IsNewline(s[k]) && IsNewline(s[k + 1]) && IsNewline(s[k + 2]))
    {
      assert k == 0 || k == 1 || k == 2 || k == 3 || k == 4;
    }
    forall k | 0 <= k < |s| - 1
      ensures !(IsBlankChar(s[k]) && IsBlankChar(s[k + 1]))
    {
      assert k == 0 || k == 1 || k == 2 || k == 3 || k == 4 || k == 5;
    }
    QuietPasses(s);
    NewlinePassQuiet(s);
    BlankPassQuiet(s);
  }

  lemma FirstClean()
    ensures CleanText("a\n \n \nb") == "a\n\n\nb"
  {
    FirstSpaced('a', ' ', 'b');
    FirstStrip('a', ' ', 'b', PyIsSpace);
  }

  /** The newline pass on `x \n \n \n y`: the run of three becomes two. */
  lemma SecondNewlinePass(x: char, y: char)
    requires x != '\n' && y != '\n'
    ensures Sub(NewlineRun, [x, '\n', '\n', '\n', y]) == [x, '\n', '\n', y]
  {
    var s := [x, '\n', '\n', '\n', y];
    assert SkipWhile(s, 4, IsNewline) == 4;
    assert SkipWhile(s, 1, IsNewline) == 4;
    assert Match(NewlineRun, s, 0) == None;
    assert Match(NewlineRun, s, 1) == Some(4);
    assert Match(NewlineRun, s, 4) == None;
    assert SubFrom(NewlineRun, s, 4) == [y];
    assert SubFrom(NewlineRun, s, 1) == ['\n', '\n', y];
    assert SubFrom(NewlineRun, s, 0) == [x] + SubFrom(NewlineRun, s, 1);
  }

  lemma SecondSpaced(x: char, y: char)
    requires Plain(x) && Plain(y) && !IsBlankChar(x) && !IsBlankChar(y)
    ensures Spaced([x, '\n', '\n', '\n', y]) == [x, '\n', '\n', y]
  {
    var s := [x, '\n', '\n', '\n', y];
    QuietPasses(s);
    SecondNewlinePass(x, y);
    BlankPassQuiet([x, '\n', '\n', y]);
  }

  lemma SecondClean()
    ensures CleanText("a\n\n\nb") == "a\n\nb"
  {
    SecondSpaced('a', 'b');
    SecondStrip('a', 'b', PyIsSpace);
  }

  /** Newline runs are collapsed before whitespace-only lines are emptied, so a
      second cleaning can still change the text. */
  lemma CleanNotIdempotent()
    ensures CleanText("a\n \n \nb") == "a\n\n\nb"
    ensures CleanText("a\n\n\nb") == "a\n\nb"
  {
    FirstClean();
    SecondClean();
  }
}
