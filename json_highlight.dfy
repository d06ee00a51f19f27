/** The JSON syntax highlighter of the document list page (`syntaxHighlight`): one
    global regular-expression replace over pretty-printed JSON that wraps every
    string, key, keyword and number in a `<span>` whose class names its kind,
    and copies everything between matches unchanged. The result is inserted as
    HTML.

    The regular expression is modelled as a scanner (`MatchEnd`), the replace as
    a split of the text into gaps and matches (`Tokenize`), and the browser's
    reading of the HTML as `TextContent`: tags are dropped and the three
    character references `&amp;`, `&lt;` and `&gt;` are decoded. */
module JsonHighlight {
  import opened Text

  // ---------------------------------------------------------------------
  // The regular expression
  // ---------------------------------------------------------------------

  predicate IsHex(c: char)
  {
    IsDigit(c) || ('a' <= c <= 'f') || ('A' <= c <= 'F')
  }

  /** `\w`: the characters on the inside of a `\b` word boundary. */
  predicate IsWordChar(c: char)
  {
    IsDigit(c) || ('a' <= c <= 'z') || ('A' <= c <= 'Z') || c == '_'
  }

  /** Where `(\\u[\da-fA-F]{4}|\\[^u]|[^\\"])*"` ends when it starts at `i`, just
      after an opening quote. A backslash always takes the next character with
      it, so the items are read one way only and the first quote at an item
      boundary closes the string; `\u` without four hex digits stops the match. */
  function StringEnd(s: string, i: nat): (r: Option<nat>)
    requires i <= |s|
    ensures r.Some? ==> i < r.value <= |s| && s[r.value - 1] == '"'
    decreases |s| - i
  {
    if i == |s| then None
    else if s[i] == '"' then Some(i + 1)
    else if s[i] != '\\' then StringEnd(s, i + 1)
    else if i + 1 == |s| then None
    else if s[i + 1] != 'u' then StringEnd(s, i + 2)
    else if i + 6 <= |s| && IsHex(s[i + 2]) && IsHex(s[i + 3]) && IsHex(s[i + 4]) && IsHex(s[i + 5])
    then StringEnd(s, i + 6)
    else None
  }

  /** The string alternative with its optional `(\s*:)?`: the colon and the
      whitespace before it join the match when a colon follows. */
  function StringTokenEnd(s: string, i: nat): (r: Option<nat>)
    requires i < |s| && s[i] == '"'
    ensures r.Some? ==> i < r.value <= |s|
  {
    match StringEnd(s, i + 1)
    case None => None
    case Some(q) =>
      var j := SkipWhile(s, q, JsIsSpace);
      Some(if j < |s| && s[j] == ':' then j + 1 else q)
  }

  /** `\b` at position `i`. */
  predicate Boundary(s: string, i: nat)
    requires i <= |s|
  {
    (i > 0 && IsWordChar(s[i - 1])) != (i < |s| && IsWordChar(s[i]))
  }

  /** `\b(true|false|null)\b` at `i`, for one of the three words. */
  function KeywordEnd(s: string, i: nat, word: string): (r: Option<nat>)
    requires i <= |s| && word != [] && IsWordChar(word[0]) && IsWordChar(word[|word| - 1])
    ensures r.Some? ==> r.value == i + |word| <= |s| && s[i..r.value] == word
  {
    if Boundary(s, i) && StartsWith(s[i..], word) && Boundary(s, i + |word|) then Some(i + |word|)
    else None
  }

  /** `-?\d+(?:\.\d*)?(?:[eE][+-]?\d+)?` at `i`: everything after the integer part
      is optional, so each part is taken greedily and dropped when incomplete. */
  function NumberEnd(s: string, i: nat): (r: Option<nat>)
    requires i < |s|
    ensures r.Some? ==> i < r.value <= |s|
  {
    var j := if s[i] == '-' then i + 1 else i;
    var k := SkipWhile(s, j, IsDigit);
    if k == j then None
    else
      var f := if k < |s| && s[k] == '.' then SkipWhile(s, k + 1, IsDigit) else k;
      if f < |s| && (s[f] == 'e' || s[f] == 'E') then
        var d0 := if f + 1 < |s| && (s[f + 1] == '+' || s[f + 1] == '-') then f + 2 else f + 1;
        var d := SkipWhile(s, d0, IsDigit);
        Some(if d > d0 then d else f)
      else Some(f)
  }

  /** Where the regular expression's match at `i` ends, if it matches there. The
      alternatives begin with different characters (a quote; `t`, `f` or `n`; a
      minus sign or a digit), so the first character picks the one to try. */
  function MatchEnd(s: string, i: nat): (r: Option<nat>)
    requires i < |s|
    ensures r.Some? ==> i < r.value <= |s|
  {
    if s[i] == '"' then StringTokenEnd(s, i)
    else if s[i] == 't' then KeywordEnd(s, i, "true")
    else if s[i] == 'f' then KeywordEnd(s, i, "false")
    else if s[i] == 'n' then KeywordEnd(s, i, "null")
    else if s[i] == '-' || IsDigit(s[i]) then NumberEnd(s, i)
    else None
  }

  // ---------------------------------------------------------------------
  // The global replace
  // ---------------------------------------------------------------------

  /** A character the expression does not match at, or a match. */
  datatype Segment = Gap(c: char) | Token(m: string)

  function SegmentText(seg: Segment): string
  {
    match seg
    case Gap(c) => [c]
    case Token(m) => m
  }

  function Flatten(segs: seq<Segment>): string
  {
    if segs == [] then [] else SegmentText(segs[0]) + Flatten(segs[1..])
  }

  /** The global scan from `i`: a match is taken whole and the scan resumes after
      it; where nothing matches one character is passed over. */
  function Tokenize(s: string, i: nat): (segs: seq<Segment>)
    requires i <= |s|
    ensures forall seg <- segs :: seg.Token? ==> seg.m != []
    decreases |s| - i
  {
    if i == |s| then []
    else match MatchEnd(s, i)
      case Some(e) => [Token(s[i..e])] + Tokenize(s, e)
      case None => [Gap(s[i])] + Tokenize(s, i + 1)
  }

  // ---------------------------------------------------------------------
  // Classification and markup
  // ---------------------------------------------------------------------

  datatype Kind = Key | StringValue | Boolean | Null | Number

  /** The callback's choice of class: a quoted match ending in a colon is a key,
      any other quoted match a string; a match containing `true` or `false` is a
      boolean, `null` is null, and the rest are numbers. */
  function Classify(m: string): (k: Kind)
    ensures k == Key ==> |m| >= 1 && m[|m| - 1] == ':'
  {
    if StartsWith(m, "\"") then (if EndsWith(m, ":") then Key else StringValue)
    else if Contains(m, "true") || Contains(m, "false") then Boolean
    else if m == "null" then Null
    else Number
  }

  function ClassName(k: Kind): string
  {
    match k
    case Key => "text-blue-600 font-medium"
    case StringValue => "text-amber-700"
    case Boolean => "text-purple-600"
    case Null => "text-gray-400"
    case Number => "text-emerald-600"
  }

  function OpenTag(k: Kind): string
  {
    "<span class=\"" + ClassName(k) + "\">"
  }

  const CloseTag: string := "</span>"

  /** The callback's replacement for match `m`, with `esc` applied to the text it
      puts inside the span: a key's colon is moved outside the span. */
  function Markup(m: string, esc: string -> string): string
  {
    var k := Classify(m);
    if k == Key then OpenTag(k) + esc(m[..|m| - 1]) + CloseTag + ":"
    else OpenTag(k) + esc(m) + CloseTag
  }

  /** What one segment becomes: a gap is copied, a match marked up. */
  function Piece(seg: Segment, esc: string -> string): string
  {
    match seg
    case Gap(c) => esc([c])
    case Token(m) => Markup(m, esc)
  }

  function Render(segs: seq<Segment>, esc: string -> string): string
  {
    if segs == [] then [] else Piece(segs[0], esc) + Render(segs[1..], esc)
  }

  /** `syntaxHighlight` as written: matches and gaps go into the HTML unescaped. */
  function Highlight(json: string): string
  {
    Render(Tokenize(json, 0), x => x)
  }

  function EscapeChar(c: char): string
  {
    if c == '&' then "&amp;" else if c == '<' then "&lt;" else if c == '>' then "&gt;" else [c]
  }

  /** HTML escaping of text. */
  function Escape(x: string): string
  {
    if x == [] then [] else EscapeChar(x[0]) + Escape(x[1..])
  }

  /** The highlighter with the text escaped before it is put into the HTML. */
  function HighlightEscaped(json: string): string
  {
    Render(Tokenize(json, 0), Escape)
  }

  // ---------------------------------------------------------------------
  // What the browser shows
  // ---------------------------------------------------------------------

  predicate IsAsciiLetter(c: char)
  {
    ('a' <= c <= 'z') || ('A' <= c <= 'Z')
  }

  /** The index just past the first `>` at or after `i`, or the end. */
  function TagEnd(html: string, i: nat): (j: nat)
    requires i <= |html|
    ensures i <= j <= |html|
    decreases |html| - i
  {
    if i == |html| then i else if html[i] == '>' then i + 1 else TagEnd(html, i + 1)
  }

  /** The text a reader sees: a `<` followed by a letter or `/` opens a tag that
      runs to the next `>` and is not shown; `&amp;`, `&lt;` and `&gt;` are shown
      as the characters they stand for; every other character is shown as is. */
  function TextContent(html: string): string
    decreases |html|
  {
    if html == [] then []
    else if html[0] == '<' && |html| > 1 && (IsAsciiLetter(html[1]) || html[1] == '/') then
      TextContent(html[TagEnd(html, 1)..])
    else if html[0] == '&' && |html| >= 5 && html[1] == 'a' && html[2] == 'm' && html[3] == 'p' && html[4] == ';'
    then "&" + TextContent(html[5..])
    else if html[0] == '&' && |html| >= 4 && html[1] == 'l' && html[2] == 't' && html[3] == ';'
    then "<" + TextContent(html[4..])
    else if html[0] == '&' && |html| >= 4 && html[1] == 'g' && html[2] == 't' && html[3] == ';'
    then ">" + TextContent(html[4..])
    else [html[0]] + TextContent(html[1..])
  }

  // ---------------------------------------------------------------------
  // The replace keeps the text
  // ---------------------------------------------------------------------

  /** The gaps and matches, put back together, are the input. */
  lemma {:induction false} TokenizeFlatten(s: string, i: nat)
    requires i <= |s|
    ensures Flatten(Tokenize(s, i)) == s[i..]
    decreases |s| - i
  {
    if i < |s| {
      match MatchEnd(s, i)
      case Some(e) =>
        TokenizeFlatten(s, e);
        FlattenCons(Token(s[i..e]), Tokenize(s, e));
        DropSplit(s, i, e);
      case None =>
        TokenizeFlatten(s, i + 1);
        FlattenCons(Gap(s[i]), Tokenize(s, i + 1));
        DropSplit(s, i, i + 1);
        assert s[i..i + 1] == [s[i]];
    }
  }

  lemma FlattenCons(seg: Segment, rest: seq<Segment>)
    ensures Flatten([seg] + rest) == SegmentText(seg) + Flatten(rest)
  {
    assert ([seg] + rest)[1..] == rest;
  }

  // ---------------------------------------------------------------------
  // Classification
  // ---------------------------------------------------------------------

  /** A quoted match is a key exactly when a colon follows the closing quote
      after optional whitespace; otherwise it is a string value. */
  lemma QuotedClass(s: string, i: nat)
    requires i < |s| && s[i] == '"' && MatchEnd(s, i).Some?
    ensures var e := MatchEnd(s, i).value;
      var q := StringEnd(s, i + 1).value;
      var j := SkipWhile(s, q, JsIsSpace);
      Classify(s[i..e]) == (if j < |s| && s[j] == ':' then Key else StringValue)
  {
    var e := MatchEnd(s, i).value;
    assert s[i..e][..1] == "\"";
  }

  /** `true` and `false` are booleans and `null` is null. */
  lemma KeywordClass(s: string, i: nat)
    requires i < |s| && (s[i] == 't' || s[i] == 'f' || s[i] == 'n') && MatchEnd(s, i).Some?
    ensures var e := MatchEnd(s, i).value;
      Classify(s[i..e]) == (if s[i] == 'n' then Null else Boolean)
  {
    var e := MatchEnd(s, i).value;
    var m := s[i..e];
    var word := if s[i] == 't' then "true" else if s[i] == 'f' then "false" else "null";
    assert m == word;
    assert m[0] != '"';
    if s[i] == 'n' {
      NoLetters(m);
    } else {
      assert m[..|word|] == word;
      assert StartsWith(m, word);
    }
  }

  predicate NumberChar(c: char)
  {
    IsDigit(c) || c == '-' || c == '+' || c == '.' || c == 'e' || c == 'E'
  }

  /** A numeric match is built from digits, signs, a point and an exponent
      marker. */
  lemma NumberChars(s: string, i: nat)
    requires i < |s| && (s[i] == '-' || IsDigit(s[i])) && MatchEnd(s, i).Some?
    ensures forall k :: i <= k < MatchEnd(s, i).value ==> NumberChar(s[k])
  {
  }

  /** Text without a `t` or an `f` contains neither `true` nor `false`. */
  lemma {:induction false} NoLetters(x: string)
    requires forall k :: 0 <= k < |x| ==> x[k] != 't' && x[k] != 'f'
    ensures !Contains(x, "true") && !Contains(x, "false")
  {
    if x != [] {
      NoLetters(x[1..]);
      if |x| >= 4 {
        assert x[..4][0] == x[0];
      }
      if |x| >= 5 {
        assert x[..5][0] == x[0];
      }
    }
  }

  /** Numbers are given the number class. */
  lemma NumberClass(s: string, i: nat)
    requires i < |s| && (s[i] == '-' || IsDigit(s[i])) && MatchEnd(s, i).Some?
    ensures Classify(s[i..MatchEnd(s, i).value]) == Number
  {
    var m := s[i..MatchEnd(s, i).value];
    NumberChars(s, i);
    NoLetters(m);
    assert m[0] != '"' && m[0] != 'n';
  }

  // ---------------------------------------------------------------------
  // What the browser shows
  // ---------------------------------------------------------------------

  lemma {:induction false} TagEndAt(html: string, i: nat, t: nat)
    requires i <= t < |html| && html[t] == '>'
    requires forall k :: i <= k < t ==> html[k] != '>'
    ensures TagEnd(html, i) == t + 1
    decreases t - i
  {
    if i < t {
      TagEndAt(html, i + 1, t);
    }
  }

  /** A tag is not shown. */
  lemma {:induction false} TagHidden(tag: string, rest: string)
    requires |tag| >= 2 && tag[0] == '<' && (IsAsciiLetter(tag[1]) || tag[1] == '/')
    requires tag[|tag| - 1] == '>' && forall k :: 0 <= k < |tag| - 1 ==> tag[k] != '>'
    ensures TextContent(tag + rest) == TextContent(rest)
  {
    var html := tag + rest;
    TagEndAt(html, 1, |tag| - 1);
    assert html[|tag|..] == rest;
  }

  lemma {:induction false} OpenTagHidden(k: Kind, rest: string)
    ensures TextContent(OpenTag(k) + rest) == TextContent(rest)
  {
    ClassNameSafe(k);
    SpanOpenHidden(ClassName(k), rest);
  }

  lemma ClassNameSafe(k: Kind)
    ensures forall i :: 0 <= i < |ClassName(k)| ==> ClassName(k)[i] != '>'
  {
  }

  lemma {:induction false} SpanOpenHidden(cls: string, rest: string)
    requires forall i :: 0 <= i < |cls| ==> cls[i] != '>'
    ensures TextContent("<span class=\"" + cls + "\">" + rest) == TextContent(rest)
  {
    var prefix := "<span class=\"";
    var tag := prefix + cls + "\">";
    forall i | 0 <= i < |tag| - 1
      ensures tag[i] != '>'
    {
      if i < |prefix| {
        assert tag[i] == prefix[i];
      } else if i < |prefix| + |cls| {
        assert tag[i] == cls[i - |prefix|];
      } else {
        assert tag[i] == '"';
      }
    }
    TagHidden(tag, rest);
  }

  lemma {:induction false} CloseTagHidden(rest: string)
    ensures TextContent(CloseTag + rest) == TextContent(rest)
  {
    TagHidden(CloseTag, rest);
  }

  lemma {:induction false} EscapeCharShown(c: char, rest: string)
    ensures TextContent(EscapeChar(c) + rest) == [c] + TextContent(rest)
  {
    var html := EscapeChar(c) + rest;
    if c == '&' {
      assert html[5..] == rest;
    } else if c == '<' {
      assert html[4..] == rest;
    } else if c == '>' {
      assert html[4..] == rest;
    } else {
      assert html[1..] == rest;
    }
  }

  // The proofs below read HTML as a piece followed by the rest, so they use
  // these forms of `Escape` and `Render` that take the rest as an argument.

  function EscapeOnto(x: string, rest: string): string
  {
    if x == [] then rest else EscapeChar(x[0]) + EscapeOnto(x[1..], rest)
  }

  function RenderOnto(segs: seq<Segment>, rest: string): string
  {
    if segs == [] then rest else Piece(segs[0], Escape) + RenderOnto(segs[1..], rest)
  }

  lemma {:induction false} EscapeOntoAppend(x: string, rest: string)
    ensures EscapeOnto(x, rest) == Escape(x) + rest
  {
    if x != [] {
      EscapeOntoAppend(x[1..], rest);
    }
  }

  lemma {:induction false} RenderOntoAppend(segs: seq<Segment>, rest: string)
    ensures RenderOnto(segs, rest) == Render(segs, Escape) + rest
  {
    if segs != [] {
      RenderOntoAppend(segs[1..], rest);
    }
  }

  /** Escaped text is shown as itself. */
  lemma {:induction false} EscapeShown(x: string, rest: string)
    ensures TextContent(EscapeOnto(x, rest)) == x + TextContent(rest)
  {
    if x != [] {
      EscapeShown(x[1..], rest);
      EscapeCharShown(x[0], EscapeOnto(x[1..], rest));
      assert x == [x[0]] + x[1..];
    }
  }

  /** The layout of a key's markup: the colon follows the closing tag. */
  lemma KeyLayout(m: string, rest: string)
    requires Classify(m) == Key
    ensures Markup(m, Escape) + rest
      == OpenTag(Key) + EscapeOnto(m[..|m| - 1], CloseTag + (":" + rest))
  {
    EscapeOntoAppend(m[..|m| - 1], CloseTag + (":" + rest));
  }

  lemma ValueLayout(m: string, rest: string)
    requires Classify(m) != Key
    ensures Markup(m, Escape) + rest == OpenTag(Classify(m)) + EscapeOnto(m, CloseTag + rest)
  {
    EscapeOntoAppend(m, CloseTag + rest);
  }

  lemma {:induction false} KeyShown(m: string, rest: string)
    requires Classify(m) == Key
    ensures TextContent(Markup(m, Escape) + rest) == m + TextContent(rest)
  {
    var body := m[..|m| - 1];
    var afterBody := CloseTag + (":" + rest);
    KeyLayout(m, rest);
    OpenTagHidden(Key, EscapeOnto(body, afterBody));
    EscapeShown(body, afterBody);
    CloseTagHidden(":" + rest);
    PlainShown(':', rest);
    KeyBody(m);
    KeyChain(Markup(m, Escape) + rest, EscapeOnto(body, afterBody), afterBody, ":" + rest, body, m, rest);
  }

  lemma {:induction false} KeyChain(html: string, inner: string, afterBody: string, colonRest: string,
                                    body: string, m: string, rest: string)
    requires TextContent(html) == TextContent(inner)
    requires TextContent(inner) == body + TextContent(afterBody)
    requires TextContent(afterBody) == TextContent(colonRest)
    requires TextContent(colonRest) == ":" + TextContent(rest)
    requires body + ":" == m
    ensures TextContent(html) == m + TextContent(rest)
  {
    assert body + (":" + TextContent(rest)) == (body + ":") + TextContent(rest);
  }

  lemma KeyBody(m: string)
    requires Classify(m) == Key
    ensures m[..|m| - 1] + ":" == m
  {
  }

  /** A character other than `<` and `&` is shown as itself. */
  lemma {:induction false} PlainShown(c: char, rest: string)
    requires c != '<' && c != '&'
    ensures TextContent([c] + rest) == [c] + TextContent(rest)
  {
    assert ([c] + rest)[1..] == rest;
  }

  lemma {:induction false} ValueShown(m: string, rest: string)
    requires Classify(m) != Key
    ensures TextContent(Markup(m, Escape) + rest) == m + TextContent(rest)
  {
    ValueLayout(m, rest);
    OpenTagHidden(Classify(m), EscapeOnto(m, CloseTag + rest));
    EscapeShown(m, CloseTag + rest);
    CloseTagHidden(rest);
  }

  lemma {:induction false} PieceShown(seg: Segment, rest: string)
    ensures TextContent(Piece(seg, Escape) + rest) == SegmentText(seg) + TextContent(rest)
  {
    match seg
    case Gap(c) =>
      EscapeOntoAppend([c], rest);
      EscapeShown([c], rest);
    case Token(m) =>
      if Classify(m) == Key {
        KeyShown(m, rest);
      } else {
        ValueShown(m, rest);
      }
  }

  lemma {:induction false} RenderShown(segs: seq<Segment>, rest: string)
    ensures TextContent(RenderOnto(segs, rest)) == Flatten(segs) + TextContent(rest)
  {
    if segs != [] {
      RenderShown(segs[1..], rest);
      PieceShown(segs[0], RenderOnto(segs[1..], rest));
    }
  }

  /** With escaping, the page shows exactly the JSON text it was given. */
  lemma {:induction false} EscapedShowsJson(json: string)
    ensures TextContent(HighlightEscaped(json)) == json
  {
    var segs := Tokenize(json, 0);
    RenderShown(segs, []);
    RenderOntoAppend(segs, []);
    TokenizeFlatten(json, 0);
    assert Render(segs, Escape) + [] == Render(segs, Escape);
    assert json[0..] == json;
  }

  // ---------------------------------------------------------------------
  // The highlighter as written
  // ---------------------------------------------------------------------

  predicate NoMarkupChars(x: string)
  {
    forall k :: 0 <= k < |x| ==> x[k] != '<' && x[k] != '>' && x[k] != '&'
  }

  lemma {:induction false} EscapeNoop(x: string)
    requires NoMarkupChars(x)
    ensures Escape(x) == x
  {
    if x != [] {
      EscapeNoop(x[1..]);
    }
  }

  lemma NoMarkupSplit(a: string, b: string)
    requires NoMarkupChars(a + b)
    ensures NoMarkupChars(a) && NoMarkupChars(b)
  {
    forall k | 0 <= k < |b|
      ensures b[k] != '<' && b[k] != '>' && b[k] != '&'
    {
      assert b[k] == (a + b)[|a| + k];
    }
    forall k | 0 <= k < |a|
      ensures a[k] != '<' && a[k] != '>' && a[k] != '&'
    {
      assert a[k] == (a + b)[k];
    }
  }

  lemma {:induction false} RenderAgrees(segs: seq<Segment>)
    requires NoMarkupChars(Flatten(segs))
    ensures Render(segs, x => x) == Render(segs, Escape)
  {
    if segs != [] {
      NoMarkupSplit(SegmentText(segs[0]), Flatten(segs[1..]));
      RenderAgrees(segs[1..]);
      PieceAgrees(segs[0]);
    }
  }

  /** One segment without markup characters is rendered alike with or without
      escaping. */
  lemma PieceAgrees(seg: Segment)
    requires NoMarkupChars(SegmentText(seg))
    ensures Piece(seg, x => x) == Piece(seg, Escape)
  {
    match seg
    case Gap(c) =>
      EscapeNoop([c]);
    case Token(m) =>
      MarkupAgrees(m);
  }

  lemma MarkupAgrees(m: string)
    requires NoMarkupChars(m)
    ensures Markup(m, x => x) == Markup(m, Escape)
  {
    EscapeNoop(m);
    if Classify(m) == Key {
      assert NoMarkupChars(m[..|m| - 1]);
      EscapeNoop(m[..|m| - 1]);
    }
  }

  /** As written the page shows the JSON text whenever the text holds no `<`, `>`
      or `&`. */
  lemma {:induction false} PlainJsonShown(json: string)
    requires NoMarkupChars(json)
    ensures TextContent(Highlight(json)) == json
  {
    TokenizeFlatten(json, 0);
    assert json[0..] == json;
    RenderAgrees(Tokenize(json, 0));
    EscapedShowsJson(json);
  }

  /** As written, a string value holding a tag loses it: the JSON text `"<b>"` is
      shown as `""`, the tag being read as markup. */
  lemma {:induction false} TagInStringHidden()
    ensures TextContent(Highlight("\"<b>\"")) == "\"\""
  {
    var json := "\"<b>\"";
    HighlightOneString(json);
    StringWithTagText(Highlight(json));
  }

  /** The text shown for the markup of the string value `"<b>"`. */
  lemma StringWithTagText(html: string)
    requires html == OpenTag(StringValue) + ("\"" + ("<b>" + ("\"" + CloseTag)))
    ensures TextContent(html) == "\"\""
  {
    var close := "\"" + CloseTag;
    var inner := "<b>" + close;
    var mid := "\"" + inner;
    CloseTagHidden([]);
    assert CloseTag + [] == CloseTag;
    PlainShown('"', CloseTag);
    TagHidden("<b>", close);
    PlainShown('"', inner);
    OpenTagHidden(StringValue, mid);
    ExampleChain(html, mid, inner, close);
  }

  lemma {:induction false} ExampleChain(html: string, mid: string, inner: string, close: string)
    requires TextContent(html) == TextContent(mid)
    requires TextContent(mid) == "\"" + TextContent(inner)
    requires TextContent(inner) == TextContent(close)
    requires TextContent(close) == "\"" + TextContent(CloseTag)
    requires TextContent(CloseTag) == []
    ensures TextContent(html) == "\"\""
  {
  }

  lemma {:induction false} HighlightOneString(json: string)
    requires json == "\"<b>\""
    ensures Highlight(json) == OpenTag(StringValue) + ("\"" + ("<b>" + ("\"" + CloseTag)))
  {
    OneStringToken(json);
    var segs := Tokenize(json, 0);
    assert segs[1..] == [];
    assert Render(segs, x => x) == Piece(Token(json), x => x) + [];
    assert Piece(Token(json), x => x) == OpenTag(StringValue) + json + CloseTag;
  }

  /** The JSON text `"<b>"` is one match, a string value. */
  lemma OneStringToken(json: string)
    requires json == "\"<b>\""
    ensures Tokenize(json, 0) == [Token(json)] && Classify(json) == StringValue
  {
    assert StringEnd(json, 4) == Some(5);
    assert StringEnd(json, 3) == Some(5);
    assert StringEnd(json, 2) == Some(5);
    assert StringEnd(json, 1) == Some(5);
    assert MatchEnd(json, 0) == Some(5);
    assert json[0..5] == json;
    assert Tokenize(json, 5) == [];
  }
}
