/** The assistant-text renderer: a message written in a small markdown
    dialect becomes a sequence of HTML tokens. Three whole-text rewrites run
    first (headings, bold, links); the text is then cut at line feeds, each
    line is trimmed, and a machine with one flag ("a list is open") turns the
    lines into paragraphs, line breaks and list items. The page receives the
    concatenation of the tokens' HTML. */
module Renderer {
  import opened Wrappers
  import opened Text

  /** One pushed piece of output. Ordered lists are opened with `OpenOl`,
      but there is no matching closer: every list is closed by `CloseUl`. */
  datatype Token =
    | Br                  // <br>
    | OpenUl              // <ul>
    | OpenOl              // <ol>
    | CloseUl             // </ul>
    | Li(text: string)    // <li>text</li>
    | P(text: string)     // <p>text</p>
    | Raw(text: string)   // a heading line, passed through as it is

  function Html(t: Token): string {
    match t
    case Br => "<br>"
    case OpenUl => "<ul>"
    case OpenOl => "<ol>"
    case CloseUl => "</ul>"
    case Li(s) => "<li>" + s + "</li>"
    case P(s) => "<p>" + s + "</p>"
    case Raw(s) => s
  }

  /** The pushed pieces joined with the empty separator. */
  function ToHtml(ts: seq<Token>): string {
    if ts == [] then [] else Html(ts[0]) + ToHtml(ts[1..])
  }

  /** Joining is compatible with concatenating token sequences. */
  lemma {:induction false} ToHtmlConcat(a: seq<Token>, b: seq<Token>)
    ensures ToHtml(a + b) == ToHtml(a) + ToHtml(b)
    decreases |a|
  {
    if a == [] {
      assert a + b == b;
    } else {
      assert (a + b)[0] == a[0] && (a + b)[1..] == a[1..] + b;
      ToHtmlConcat(a[1..], b);
    }
  }

  // ---------------------------------------------------------------------
  // Heading passes

  const H2Open := "<h2 class=\"main-heading\">"
  const H2Close := "</h2>"
  const H3Open := "<h3 class=\"sub-heading\">"
  const H3Close := "</h3>"

  /** Text containing no line terminator. */
  predicate OneLine(s: string) {
    forall k :: 0 <= k < |s| ==> !IsLineTerminator(s[k])
  }

  /** The length of the first line: the position of the first line
      terminator, or the whole text when there is none. */
  function LineEnd(s: string): (i: nat)
    ensures i <= |s| && OneLine(s[..i])
    ensures i < |s| ==> IsLineTerminator(s[i])
  {
    if s == [] || IsLineTerminator(s[0]) then 0
    else
      var i := 1 + LineEnd(s[1..]);
      assert s[..i] == [s[0]] + s[1..][..i - 1];
      i
  }

  /** One line of a multi-line `^prefix(.+)$` rewrite: a line that starts
      with `prefix` and has at least one character after it is wrapped in
      `open` and `close`, with the prefix dropped. */
  function Rewrite(line: string, prefix: string, open: string, close: string): string {
    if |line| > |prefix| && line[..|prefix|] == prefix then open + line[|prefix|..] + close
    else line
  }

  /** A multi-line rewrite over the whole text: `^` and `$` match at every
      line terminator, and `.` matches anything else, so each line between
      terminators is rewritten on its own and the terminators are kept. */
  function Pass(s: string, prefix: string, open: string, close: string): string
    decreases |s|
  {
    var i := LineEnd(s);
    if i == |s| then Rewrite(s, prefix, open, close)
    else Rewrite(s[..i], prefix, open, close) + [s[i]] + Pass(s[i + 1..], prefix, open, close)
  }

  /** Main headings first, then sub-headings, on the untrimmed text. */
  function Headings(content: string): string {
    Pass(Pass(content, "# ", H2Open, H2Close), "## ", H3Open, H3Close)
  }

  /** A rewrite whose tags hold no line feed adds none to a line. */
  lemma RewriteNewlines(line: string, prefix: string, open: string, close: string)
    requires LineFeeds(line) == 0
    requires '\n' !in open && '\n' !in close
    ensures LineFeeds(Rewrite(line, prefix, open, close)) == 0
  {
    if |line| > |prefix| && line[..|prefix|] == prefix {
      NoNewline(open);
      NoNewline(close);
      assert line == line[..|prefix|] + line[|prefix|..];
      LineFeedsConcat(line[..|prefix|], line[|prefix|..]);
      LineFeedsConcat(open, line[|prefix|..]);
      LineFeedsConcat(open + line[|prefix|..], close);
    }
  }

  /** A rewrite pass neither adds nor removes a line feed, so the later cut
      into lines sees as many lines as the text had. */
  lemma {:induction false} PassNewlines(s: string, prefix: string, open: string, close: string)
    requires '\n' !in open && '\n' !in close
    ensures LineFeeds(Pass(s, prefix, open, close)) == LineFeeds(s)
    decreases |s|
  {
    var i := LineEnd(s);
    var head := s[..i];
    var line := Rewrite(head, prefix, open, close);
    assert LineFeeds(head) == 0 && LineFeeds(line) == 0 by {
      OneLineNoNewline(head);
      RewriteNewlines(head, prefix, open, close);
    }
    if i < |s| {
      var tail := s[i + 1..];
      assert LineFeeds(Pass(tail, prefix, open, close)) == LineFeeds(tail) by {
        PassNewlines(tail, prefix, open, close);
      }
      assert LineFeeds(s) == LineFeeds(head) + LineFeeds([s[i]]) + LineFeeds(tail) by {
        assert s == head + [s[i]] + tail;
        LineFeeds3(head, [s[i]], tail);
      }
      LineFeeds3(line, [s[i]], Pass(tail, prefix, open, close));
    } else {
      assert head == s;
    }
  }

  lemma OneLineNoNewline(s: string)
    requires OneLine(s)
    ensures LineFeeds(s) == 0
  {
    LineFeedsNone(s);
  }

  lemma NoNewline(s: string)
    requires '\n' !in s
    ensures LineFeeds(s) == 0
  {
    assert forall k :: 0 <= k < |s| ==> s[k] in s;
    LineFeedsNone(s);
  }

  /** The heading passes keep the line feeds of the message. */
  lemma HeadingsNewlines(content: string)
    ensures LineFeeds(Headings(content)) == LineFeeds(content)
  {
    PassNewlines(content, "# ", H2Open, H2Close);
    PassNewlines(Pass(content, "# ", H2Open, H2Close), "## ", H3Open, H3Close);
  }

  /** A line that is a main heading, as typed, becomes an `<h2>` element. */
  lemma MainHeading(x: string)
    requires x != [] && OneLine(x)
    ensures Headings("# " + x) == H2Open + x + H2Close
  {
    var line := "# " + x;
    assert OneLine(line) by {
      assert forall k :: 2 <= k < |line| ==> line[k] == x[k - 2];
    }
    assert line[..2] == "# " && line[2..] == x;
    var h := H2Open + x + H2Close;
    assert OneLine(h) by {
      assert forall k :: |H2Open| <= k < |H2Open| + |x| ==> h[k] == x[k - |H2Open|];
      assert forall k :: |H2Open| + |x| <= k < |h| ==> h[k] == H2Close[k - |H2Open| - |x|];
    }
    assert h[0] == '<';
  }

  /** A sub-heading is left alone by the first pass and becomes an `<h3>`
      element in the second. */
  lemma SubHeading(x: string)
    requires x != [] && OneLine(x)
    ensures Headings("## " + x) == H3Open + x + H3Close
  {
    var line := "## " + x;
    assert OneLine(line) by {
      assert forall k :: 3 <= k < |line| ==> line[k] == x[k - 3];
    }
    assert line[..2] != "# " by {
      assert line[1] == '#';
    }
    assert line[..3] == "## " && line[3..] == x;
  }

  /** A line whose first character is not `#`, an indented heading among
      them, is not a heading. */
  lemma NotHeading(line: string)
    requires OneLine(line) && (line == [] || line[0] != '#')
    ensures Headings(line) == line
  {
    assert LineEnd(line) == |line|;
    if |line| > 2 {
      assert line[..2][0] == line[0];
    }
    if |line| > 3 {
      assert line[..3][0] == line[0];
    }
    assert Pass(line, "# ", H2Open, H2Close) == line;
  }

  // ---------------------------------------------------------------------
  // Bold and links

  const StrongOpen := "<strong>"
  const StrongClose := "</strong>"

  function Strong(t: string): string {
    StrongOpen + t + StrongClose
  }

  /** The character classes the patterns repeat: `\d`, `[^*]`, `[^\]]` and
      `[^\s)]`. */
  datatype CharClass = Digits | NoStar | NoCloseBracket | AddressChars

  predicate InClass(c: char, cls: CharClass) {
    match cls
    case Digits => IsDigit(c)
    case NoStar => c != '*'
    case NoCloseBracket => c != ']'
    case AddressChars => UrlChar(c)
  }

  /** How many characters of `s` from position `i` on are in `cls`: a
      greedy character class repetition. */
  function RunFrom(s: string, i: nat, cls: CharClass): (n: nat)
    requires i <= |s|
    ensures i + n <= |s|
    decreases |s| - i
  {
    if i == |s| || !InClass(s[i], cls) then 0 else 1 + RunFrom(s, i + 1, cls)
  }

  /** Every character of the run is in the class, and the run stops at the
      first character that is not. */
  lemma {:induction false} RunFromAll(s: string, i: nat, cls: CharClass)
    requires i <= |s|
    ensures forall k :: i <= k < i + RunFrom(s, i, cls) ==> InClass(s[k], cls)
    ensures i + RunFrom(s, i, cls) < |s| ==> !InClass(s[i + RunFrom(s, i, cls)], cls)
    decreases |s| - i
  {
    if i < |s| && InClass(s[i], cls) {
      RunFromAll(s, i + 1, cls);
    }
  }

  /** Conversely, a run of class characters followed by a character outside
      the class, or by the end of the text, is what the repetition takes. */
  lemma {:induction false} RunFromStops(s: string, i: nat, j: nat, cls: CharClass)
    requires i <= j <= |s|
    requires forall k :: i <= k < j ==> InClass(s[k], cls)
    requires j < |s| ==> !InClass(s[j], cls)
    ensures RunFrom(s, i, cls) == j - i
    decreases j - i
  {
    if i < j {
      RunFromStops(s, i + 1, j, cls);
    }
  }

  /** Where `\*\*([^*]+?)\*\*` matches at the head of `s`: two stars, a
      non-empty star-free run, two stars. The lazy run can only end where a
      star follows, that is at the end of the longest star-free run, so the
      match is unique. The result is the length of the run. */
  function BoldAt(s: string): (r: Option<nat>)
    ensures r.Some? ==> 4 + r.value <= |s| && r.value >= 1
    ensures r.Some? ==> s[..2] == "**" && s[2 + r.value..4 + r.value] == "**"
    ensures r.Some? ==> forall k :: 2 <= k < 2 + r.value ==> s[k] != '*'
  {
    if |s| >= 2 && s[..2] == "**" then
      var n := RunFrom(s, 2, NoStar);
      RunFromAll(s, 2, NoStar);
      if n >= 1 && 4 + n <= |s| && s[2 + n..4 + n] == "**" then Some(n) else None
    else None
  }

  /** The global bold rewrite, scanning left to right: each match becomes a
      `<strong>` element and the scan resumes after it; elsewhere the scan
      keeps one character and moves on. */
  function Bold(s: string): string
    decreases |s|
  {
    if s == [] then []
    else match BoldAt(s)
      case Some(n) => Strong(s[2..2 + n]) + Bold(s[4 + n..])
      case None => [s[0]] + Bold(s[1..])
  }

  /** A bold span at the head of the text becomes a `<strong>` element and
      the rewrite carries on after its closing stars. */
  lemma BoldHead(x: string, rest: string)
    requires x != [] && '*' !in x
    ensures Bold("**" + x + "**" + rest) == Strong(x) + Bold(rest)
  {
    var s := "**" + x + "**" + rest;
    assert forall k :: 2 <= k < 2 + |x| ==> s[k] == x[k - 2];
    RunFromStops(s, 2, 2 + |x|, NoStar);
    assert s[2 + |x|..4 + |x|] == "**";
    assert BoldAt(s) == Some(|x|);
    assert s[2..2 + |x|] == x && s[4 + |x|..] == rest;
  }

  /** Text without a star is left as it is. */
  lemma {:induction false} BoldNoStar(s: string)
    requires '*' !in s
    ensures Bold(s) == s
    decreases |s|
  {
    if s != [] {
      assert s[0] != '*' && s[0] in s;
      assert BoldAt(s).None? by {
        if |s| >= 2 {
          assert s[..2][0] == s[0];
        }
      }
      assert forall c :: c in s[1..] ==> c in s;
      BoldNoStar(s[1..]);
    }
  }

  /** Line feeds add up over a concatenation of three. */
  lemma LineFeeds3(a: string, b: string, c: string)
    ensures LineFeeds(a + b + c) == LineFeeds(a) + LineFeeds(b) + LineFeeds(c)
  {
    LineFeedsConcat(a + b, c);
    LineFeedsConcat(a, b);
  }

  /** Replacing the tags around `x` by others free of line feeds keeps the
      line feeds of the whole. */
  lemma WrapNewlines(open: string, x: string, close: string, open': string, close': string)
    requires '\n' !in open && '\n' !in close && '\n' !in open' && '\n' !in close'
    ensures LineFeeds(open' + x + close') == LineFeeds(open + x + close)
  {
    NoNewline(open);
    NoNewline(close);
    NoNewline(open');
    NoNewline(close');
    LineFeeds3(open, x, close);
    LineFeeds3(open', x, close');
  }

  /** One bold match keeps the line feeds of the text it replaces. */
  lemma StrongNewlines(mid: string)
    ensures LineFeeds(Strong(mid)) == LineFeeds("**" + mid + "**")
  {
    WrapNewlines("**", mid, "**", StrongOpen, StrongClose);
  }

  /** The bold rewrite keeps the line feeds of the text: the star-free run
      it keeps may span lines, and the tags it adds hold none. */
  lemma {:induction false} BoldNewlines(s: string)
    ensures LineFeeds(Bold(s)) == LineFeeds(s)
    decreases |s|
  {
    if s != [] {
      match BoldAt(s)
      case Some(n) =>
        BoldNewlines(s[4 + n..]);
        assert s[..4 + n] == s[..2] + s[2..2 + n] + s[2 + n..4 + n];
        BoldMatchStep(s, n, Bold(s[4 + n..]));
      case None =>
        BoldNewlines(s[1..]);
        BoldKeepStep(s);
    }
  }

  lemma BoldMatchStep(s: string, n: nat, tail: string)
    requires 4 + n <= |s| && s[..4 + n] == "**" + s[2..2 + n] + "**"
    requires LineFeeds(tail) == LineFeeds(s[4 + n..])
    ensures LineFeeds(Strong(s[2..2 + n]) + tail) == LineFeeds(s)
  {
    var rest := s[4 + n..];
    StrongNewlines(s[2..2 + n]);
    assert s == s[..4 + n] + rest;
    LineFeedsConcat(s[..4 + n], rest);
    LineFeedsConcat(Strong(s[2..2 + n]), tail);
  }

  lemma BoldKeepStep(s: string)
    requires s != [] && BoldAt(s).None?
    requires LineFeeds(Bold(s[1..])) == LineFeeds(s[1..])
    ensures LineFeeds(Bold(s)) == LineFeeds(s)
  {
    assert s == [s[0]] + s[1..];
    LineFeedsConcat([s[0]], s[1..]);
    LineFeedsConcat([s[0]], Bold(s[1..]));
  }

  /** A markdown link found at the head of the text: its text, its address
      and the number of characters it spans. */
  datatype LinkMatch = LinkMatch(text: string, url: string, len: nat)

  /** `[^\s)]`: a character an address may hold. */
  predicate UrlChar(c: char) {
    !IsSpace(c) && c != ')'
  }

  /** The scheme at position `i`: `https?:\/\/`. A missing `s` is the
      only alternative, and it cannot succeed where `https://` failed, so
      the scheme is decided by two occurrence tests. */
  function SchemeAt(s: string, i: nat): (n: nat)
    ensures n == 0 || i + n <= |s|
  {
    if OccursAt(s, "https://", i) then 8 else if OccursAt(s, "http://", i) then 7 else 0
  }

  /** The address part of a link, from position `i` just after `](`: a
      scheme, a non-empty run of address characters, and a closing
      parenthesis. The result is the length of the address. */
  function AddressAt(s: string, i: nat): (m: Option<nat>)
    requires i <= |s|
    ensures m.Some? ==> i + m.value < |s| && s[i + m.value] == ')'
  {
    var sl := SchemeAt(s, i);
    if sl == 0 then None
    else
      var u := RunFrom(s, i + sl, AddressChars);
      if u == 0 || i + sl + u >= |s| || s[i + sl + u] != ')' then None
      else Some(sl + u)
  }

  /** What the address scan accepts: a scheme, then address characters
      only. */
  lemma AddressSound(s: string, i: nat, m: nat)
    requires i <= |s| && AddressAt(s, i) == Some(m)
    ensures StartsWith(s[i..i + m], "http://") || StartsWith(s[i..i + m], "https://")
    ensures var url := s[i..i + m]; forall k :: 0 <= k < |url| ==> UrlChar(url[k])
  {
    var sl := SchemeAt(s, i);
    var url := s[i..i + m];
    assert forall k :: sl <= k < m ==> UrlChar(url[k]) by {
      RunFromAll(s, i + sl, AddressChars);
      assert forall k :: sl <= k < m ==> url[k] == s[i + k];
    }
    if sl == 8 {
      assert url[..8] == s[i..i + 8] == "https://";
    } else {
      assert url[..7] == s[i..i + 7] == "http://";
    }
    assert forall k :: 0 <= k < sl ==> url[k] == url[..sl][k];
  }

  /** The bracketed text at the head of a link, up to the `(` after it:
      the result is the length of the text. */
  function LabelAt(s: string): (n: Option<nat>)
    ensures n.Some? ==> 3 + n.value <= |s| && n.value >= 1
    ensures n.Some? ==> s[0] == '[' && s[1 + n.value] == ']' && s[2 + n.value] == '('
  {
    if s == [] || s[0] != '[' then None
    else
      var n := RunFrom(s, 1, NoCloseBracket);
      if n == 0 || 3 + n > |s| || s[1 + n] != ']' || s[2 + n] != '(' then None
      else Some(n)
  }

  /** What the text scan accepts: no closing bracket before the one that
      ends it. */
  lemma LabelSound(s: string, n: nat)
    requires LabelAt(s) == Some(n)
    ensures var text := s[1..1 + n]; forall k :: 0 <= k < |text| ==> text[k] != ']'
  {
    RunFromAll(s, 1, NoCloseBracket);
    var text := s[1..1 + n];
    assert forall k :: 0 <= k < n ==> text[k] == s[1 + k];
  }

  /** Where `\[([^\]]+)\]\((https?:\/\/[^\s)]+)\)` matches at the head of
      `s`. Both repetitions are greedy over a class that excludes the
      character that must follow them, so backtracking never finds another
      match: the longest runs decide. */
  function LinkAt(s: string): (r: Option<LinkMatch>)
    ensures r.Some? ==> r.value.len == 4 + |r.value.text| + |r.value.url| <= |s|
  {
    var bracketed := LabelAt(s);
    if bracketed.None? then None
    else
      var n := bracketed.value;
      var address := AddressAt(s, 3 + n);
      if address.None? then None
      else
        var m := address.value;
        Some(LinkMatch(s[1..1 + n], s[3 + n..3 + n + m], 4 + n + m))
  }

  lemma LinkSplit(s: string, n: nat, m: nat)
    requires 4 + n + m <= |s| && s[0] == '[' && s[1 + n] == ']' && s[2 + n] == '(' && s[3 + n + m] == ')'
    ensures s[..4 + n + m] == "[" + s[1..1 + n] + "](" + s[3 + n..3 + n + m] + ")"
  {
  }

  /** What the link scan accepts is a link as the pattern describes it: a
      non-empty text without `]`, and an address with a scheme and no blank
      or `)`. */
  lemma LinkSound(s: string)
    requires LinkAt(s).Some?
    ensures var m := LinkAt(s).value;
      m.text != [] && forall k :: 0 <= k < |m.text| ==> m.text[k] != ']'
    ensures var m := LinkAt(s).value;
      StartsWith(m.url, "http://") || StartsWith(m.url, "https://")
    ensures var m := LinkAt(s).value;
      forall k :: 0 <= k < |m.url| ==> UrlChar(m.url[k])
    ensures var m := LinkAt(s).value;
      s[..m.len] == "[" + m.text + "](" + m.url + ")"
  {
    var n := LabelAt(s).value;
    var m := AddressAt(s, 3 + n).value;
    LinkAtParts(s, n, m);
    PartsSound(s, n, m);
  }

  /** The text and the address the two scans delimit. */
  lemma PartsSound(s: string, n: nat, m: nat)
    requires LabelAt(s) == Some(n) && AddressAt(s, 3 + n) == Some(m)
    ensures var text := s[1..1 + n]; text != [] && forall k :: 0 <= k < |text| ==> text[k] != ']'
    ensures var url := s[3 + n..3 + n + m]; StartsWith(url, "http://") || StartsWith(url, "https://")
    ensures var url := s[3 + n..3 + n + m]; forall k :: 0 <= k < |url| ==> UrlChar(url[k])
    ensures s[..4 + n + m] == "[" + s[1..1 + n] + "](" + s[3 + n..3 + n + m] + ")"
  {
    LabelSound(s, n);
    AddressSound(s, 3 + n, m);
    LinkSplit(s, n, m);
  }

  const AnchorOpen := "<a href=\""
  const AnchorMid := "\" target=\"_blank\">"
  const AnchorClose := "</a>"

  /** The element a link becomes: it opens in a new window. */
  function Anchor(url: string, text: string): string {
    AnchorOpen + url + AnchorMid + text + AnchorClose
  }

  /** The global link rewrite, scanning left to right as the bold rewrite
      does. */
  function Link(s: string): string
    decreases |s|
  {
    if s == [] then []
    else match LinkAt(s)
      case Some(m) => Anchor(m.url, m.text) + Link(s[m.len..])
      case None => [s[0]] + Link(s[1..])
  }

  /** A markdown link at the head of the text becomes an anchor and the
      rewrite carries on after its closing parenthesis. The address needs a
      scheme and at least one character after it. */
  lemma LinkHead(t: string, url: string, rest: string)
    requires t != [] && ']' !in t
    requires 0 < SchemeAt(url, 0) < |url| && forall k :: 0 <= k < |url| ==> UrlChar(url[k])
    ensures Link("[" + t + "](" + url + ")" + rest) == Anchor(url, t) + Link(rest)
  {
    var s := "[" + t + "](" + url + ")" + rest;
    LinkOf(t, url, rest);
    assert s[4 + |t| + |url|..] == rest;
  }

  lemma LinkOf(t: string, url: string, rest: string)
    requires t != [] && ']' !in t
    requires 0 < SchemeAt(url, 0) < |url| && forall k :: 0 <= k < |url| ==> UrlChar(url[k])
    ensures LinkAt("[" + t + "](" + url + ")" + rest) == Some(LinkMatch(t, url, 4 + |t| + |url|))
  {
    var s := "[" + t + "](" + url + ")" + rest;
    LinkPieces(t, url, rest);
    LabelOf(s, t);
    AddressOf(s, 3 + |t|, url);
    LinkAtParts(s, |t|, |url|);
  }

  /** Where the pieces of a written link sit. */
  lemma LinkPieces(t: string, url: string, rest: string)
    ensures var s := "[" + t + "](" + url + ")" + rest;
      && 4 + |t| + |url| <= |s|
      && s[0] == '[' && s[1 + |t|] == ']' && s[2 + |t|] == '(' && s[3 + |t| + |url|] == ')'
      && s[1..1 + |t|] == t
      && s[3 + |t|..3 + |t| + |url|] == url
      && s[4 + |t| + |url|..] == rest
  {
  }

  /** The link scan, read off its two parts. */
  lemma LinkAtParts(s: string, n: nat, m: nat)
    requires LabelAt(s) == Some(n) && AddressAt(s, 3 + n) == Some(m)
    ensures 3 + n + m <= |s|
    ensures LinkAt(s) == Some(LinkMatch(s[1..1 + n], s[3 + n..3 + n + m], 4 + n + m))
  {
  }

  /** The text scan finds a text without `]` that is followed by `](`. */
  lemma LabelOf(s: string, t: string)
    requires t != [] && ']' !in t
    requires 3 + |t| <= |s| && s[0] == '[' && s[1..1 + |t|] == t && s[1 + |t|] == ']' && s[2 + |t|] == '('
    ensures LabelAt(s) == Some(|t|)
  {
    assert forall k :: 1 <= k < 1 + |t| ==> s[k] == t[k - 1];
    RunFromStops(s, 1, 1 + |t|, NoCloseBracket);
  }

  /** The address scan finds an address with a scheme and address
      characters only that is followed by `)`. */
  lemma AddressOf(s: string, i: nat, url: string)
    requires 0 < SchemeAt(url, 0) < |url| && forall k :: 0 <= k < |url| ==> UrlChar(url[k])
    requires i + |url| < |s| && s[i..i + |url|] == url && s[i + |url|] == ')'
    ensures AddressAt(s, i) == Some(|url|)
  {
    var sl := SchemeAt(url, 0);
    assert |url| >= 8;
    assert s[i..i + 8] == url[..8] && s[i..i + 7] == url[..7];
    assert SchemeAt(s, i) == sl;
    assert forall k :: i + sl <= k < i + |url| ==> s[k] == url[k - i];
    RunFromStops(s, i + sl, i + |url|, AddressChars);
  }

  /** Text without an opening bracket is left as it is. */
  lemma {:induction false} LinkNoBracket(s: string)
    requires '[' !in s
    ensures Link(s) == s
    decreases |s|
  {
    if s != [] {
      assert s[0] in s;
      assert forall c :: c in s[1..] ==> c in s;
      LinkNoBracket(s[1..]);
    }
  }

  /** Line feeds add up over a concatenation of five. */
  lemma LineFeeds5(a: string, b: string, c: string, d: string, e: string)
    ensures LineFeeds(a + b + c + d + e) == LineFeeds(a) + LineFeeds(b) + LineFeeds(c) + LineFeeds(d) + LineFeeds(e)
  {
    LineFeeds3(a + b, c, d + e);
    LineFeedsConcat(a, b);
    LineFeedsConcat(d, e);
    assert a + b + c + d + e == (a + b) + c + (d + e);
  }

  /** Swapping the order of text and address, and replacing the punctuation
      around them by other punctuation free of line feeds, keeps the line
      feeds of the whole when the address holds none. */
  lemma SwapNewlines(o: string, text: string, m: string, url: string, c: string,
                     o': string, m': string, c': string)
    requires '\n' !in o && '\n' !in m && '\n' !in c
    requires '\n' !in o' && '\n' !in m' && '\n' !in c'
    requires LineFeeds(url) == 0
    ensures LineFeeds(o' + url + m' + text + c') == LineFeeds(o + text + m + url + c)
  {
    NoNewline(o);
    NoNewline(m);
    NoNewline(c);
    NoNewline(o');
    NoNewline(m');
    NoNewline(c');
    LineFeeds5(o, text, m, url, c);
    LineFeeds5(o', url, m', text, c');
  }

  /** A link's element keeps the line feeds of the link as typed: those of
      its text, since an address holds no blank. */
  lemma AnchorNewlines(text: string, url: string)
    requires forall k :: 0 <= k < |url| ==> UrlChar(url[k])
    ensures LineFeeds(Anchor(url, text)) == LineFeeds("[" + text + "](" + url + ")")
  {
    assert LineFeeds(url) == 0 by {
      assert forall k :: 0 <= k < |url| ==> url[k] != '\n';
      LineFeedsNone(url);
    }
    SwapNewlines("[", text, "](", url, ")", AnchorOpen, AnchorMid, AnchorClose);
  }

  lemma LinkMatchStep(s: string, m: LinkMatch, tail: string)
    requires 0 < m.len <= |s| && s[..m.len] == "[" + m.text + "](" + m.url + ")"
    requires forall k :: 0 <= k < |m.url| ==> UrlChar(m.url[k])
    requires LineFeeds(tail) == LineFeeds(s[m.len..])
    ensures LineFeeds(Anchor(m.url, m.text) + tail) == LineFeeds(s)
  {
    var rest := s[m.len..];
    assert LineFeeds(s) == LineFeeds(s[..m.len]) + LineFeeds(rest) by {
      assert s == s[..m.len] + rest;
      LineFeedsConcat(s[..m.len], rest);
    }
    assert LineFeeds(Anchor(m.url, m.text)) == LineFeeds(s[..m.len]) by {
      AnchorNewlines(m.text, m.url);
    }
    LineFeedsConcat(Anchor(m.url, m.text), tail);
  }

  lemma LinkKeepStep(s: string)
    requires s != [] && LinkAt(s).None?
    requires LineFeeds(Link(s[1..])) == LineFeeds(s[1..])
    ensures LineFeeds(Link(s)) == LineFeeds(s)
  {
    assert s == [s[0]] + s[1..];
    LineFeedsConcat([s[0]], s[1..]);
    LineFeedsConcat([s[0]], Link(s[1..]));
  }

  /** The link rewrite keeps the line feeds of the text. */
  lemma {:induction false} LinkNewlines(s: string)
    ensures LineFeeds(Link(s)) == LineFeeds(s)
    decreases |s|
  {
    if s != [] {
      match LinkAt(s)
      case Some(m) =>
        LinkNewlines(s[m.len..]);
        LinkSound(s);
        LinkMatchStep(s, m, Link(s[m.len..]));
      case None =>
        LinkNewlines(s[1..]);
        LinkKeepStep(s);
    }
  }

  // ---------------------------------------------------------------------
  // Lines

  /** `split('\n')`: the pieces between line feeds, always at least one. */
  function SplitLines(s: string): (ls: seq<string>)
    ensures |ls| >= 1
    ensures forall i :: 0 <= i < |ls| ==> '\n' !in ls[i]
    decreases |s|
  {
    if s == [] then [[]]
    else
      var rest := SplitLines(s[1..]);
      if s[0] == '\n' then [[]] + rest
      else [[s[0]] + rest[0]] + rest[1..]
  }

  /** The pieces put back together with a line feed between neighbours. */
  function JoinLines(ls: seq<string>): string
    requires |ls| >= 1
    decreases |ls|
  {
    if |ls| == 1 then ls[0] else ls[0] + "\n" + JoinLines(ls[1..])
  }

  /** Splitting loses nothing: joining the pieces gives the text back. */
  lemma {:induction false} SplitJoin(s: string)
    ensures JoinLines(SplitLines(s)) == s
    decreases |s|
  {
    if s != [] {
      SplitJoin(s[1..]);
      var rest := SplitLines(s[1..]);
      if s[0] != '\n' && |rest| > 1 {
        assert ([[s[0]] + rest[0]] + rest[1..])[1..] == rest[1..];
      }
    }
  }

  /** Joining line-feed-free pieces and splitting again gives the pieces. */
  lemma {:induction false} JoinSplit(ls: seq<string>)
    requires |ls| >= 1 && forall i :: 0 <= i < |ls| ==> '\n' !in ls[i]
    ensures SplitLines(JoinLines(ls)) == ls
    decreases |ls|
  {
    if |ls| == 1 {
      SplitNoNewline(ls[0]);
    } else {
      JoinSplit(ls[1..]);
      SplitPrefix(ls[0], JoinLines(ls[1..]));
      assert ls == [ls[0]] + ls[1..];
    }
  }

  /** Text without a line feed is one piece. */
  lemma {:induction false} SplitNoNewline(s: string)
    requires '\n' !in s
    ensures SplitLines(s) == [s]
    decreases |s|
  {
    if s != [] {
      assert s[0] in s;
      assert forall c :: c in s[1..] ==> c in s;
      SplitNoNewline(s[1..]);
      assert [s[0]] + s[1..] == s;
    }
  }

  /** A line-feed-free head followed by a line feed is a piece of its own. */
  lemma {:induction false} SplitPrefix(a: string, b: string)
    requires '\n' !in a
    ensures SplitLines(a + "\n" + b) == [a] + SplitLines(b)
    decreases |a|
  {
    if a == [] {
      assert a + "\n" + b == ['\n'] + b;
      assert (['\n'] + b)[1..] == b;
    } else {
      assert a[0] in a;
      assert forall c :: c in a[1..] ==> c in a;
      SplitPrefix(a[1..], b);
      assert (a + "\n" + b)[1..] == a[1..] + "\n" + b;
      assert (a + "\n" + b)[0] == a[0];
      assert [a[0]] + a[1..] == a;
    }
  }

  /** There is one piece more than there are line feeds. */
  lemma {:induction false} SplitCount(s: string)
    ensures |SplitLines(s)| == LineFeeds(s) + 1
    decreases |s|
  {
    if s != [] {
      SplitCount(s[1..]);
    }
  }

  // ---------------------------------------------------------------------
  // The line machine

  /** What a trimmed line is, in the order the machine tests it. */
  datatype LineKind =
    | Blank                    // nothing left after trimming
    | Bullet(item: string)     // `^[•\-\*]\s+` matches
    | Numbered(item: string)   // `^\d+\.\s+` matches
    | Text(heading: bool)      // anything else; whether it holds a heading tag

  predicate IsMarker(c: char) {
    c == '•' || c == '-' || c == '*'
  }

  predicate IsDigit(c: char) {
    '0' <= c <= '9'
  }

  /** `[•\-\*]\s+` as a whole: a marker and the blanks after it. */
  predicate BulletHead(h: string) {
    |h| >= 2 && IsMarker(h[0]) && forall k :: 1 <= k < |h| ==> IsSpace(h[k])
  }

  /** `\d+\.\s+` as a whole: digits, a full stop and the blanks after it. */
  predicate NumberHead(h: string) {
    var d := RunFrom(h, 0, Digits);
    1 <= d && d + 2 <= |h| && h[d] == '.' && forall k :: d < k < |h| ==> IsSpace(h[k])
  }

  /** The head the replace removes: the greedy blank run after it ends at
      the first non-blank, which is where the item starts. */
  predicate Headed(line: string, item: string, numbered: bool) {
    |item| <= |line|
    && (var head := line[..|line| - |item|]; if numbered then NumberHead(head) else BulletHead(head))
    && line[|line| - |item|..] == item
    && (item == [] || !IsSpace(item[0]))
  }

  /** A line that contains an `<h2` or `<h3` tag is passed through. */
  predicate IsHeadingLine(line: string) {
    Contains(line, "<h2") || Contains(line, "<h3")
  }

  function KindOf(line: string): (k: LineKind)
    ensures k.Text? ==> k.heading == IsHeadingLine(line)
    ensures k.Blank? <==> line == []
    ensures k.Bullet? <==> |line| >= 2 && IsMarker(line[0]) && IsSpace(line[1])
    ensures k.Numbered? <==>
      line != [] && !(|line| >= 2 && IsMarker(line[0]) && IsSpace(line[1])) && NumberedItem(line).Some?
    ensures k.Text? <==>
      line != [] && !(|line| >= 2 && IsMarker(line[0]) && IsSpace(line[1])) && NumberedItem(line).None?
    ensures k.Bullet? ==> Headed(line, k.item, false)
    ensures k.Numbered? ==> Headed(line, k.item, true)
    ensures Trimmed(line) && (k.Bullet? || k.Numbered?) ==> k.item != [] && Trimmed(k.item)
  {
    if line == [] then Blank
    else if |line| >= 2 && IsMarker(line[0]) && IsSpace(line[1]) then Bullet(BulletItem(line))
    else match NumberedItem(line)
      case Some(item) => Numbered(item)
      case None => Text(IsHeadingLine(line))
  }

  /** The item of a bulleted line. */
  function BulletItem(line: string): (item: string)
    requires |line| >= 2 && IsMarker(line[0]) && IsSpace(line[1])
    ensures Headed(line, item, false)
    ensures Trimmed(line) ==> item != [] && Trimmed(item)
  {
    var item := TrimStart(line[1..]);
    assert line[..|line| - |item|] == [line[0]] + line[1..][..|line[1..]| - |item|];
    item
  }

  /** The item of a numbered line, if the line is one. */
  function NumberedItem(line: string): (r: Option<string>)
    ensures r.Some? <==> var d := RunFrom(line, 0, Digits);
      1 <= d && d + 2 <= |line| && line[d] == '.' && IsSpace(line[d + 1])
    ensures r.Some? ==> Headed(line, r.value, true)
    ensures r.Some? && Trimmed(line) ==> r.value != [] && Trimmed(r.value)
  {
    var d := RunFrom(line, 0, Digits);
    if 1 <= d && d + 2 <= |line| && line[d] == '.' && IsSpace(line[d + 1]) then
      NumberedHeaded(line, d);
      TrimStartTrimmed(line[d + 1..], line);
      Some(TrimStart(line[d + 1..]))
    else None
  }

  /** The blanks the numbered head ends with run up to the item. */
  lemma NumberedHeaded(line: string, d: nat)
    requires d == RunFrom(line, 0, Digits) && 1 <= d && d + 2 <= |line|
    requires line[d] == '.' && IsSpace(line[d + 1])
    ensures var item := TrimStart(line[d + 1..]); Headed(line, item, true)
  {
    var item := TrimStart(line[d + 1..]);
    NumberHeadOf(line, d, item);
    assert line[|line| - |item|..] == item;
  }

  /** What the item leaves of a numbered line is a numbered head. */
  lemma NumberHeadOf(line: string, d: nat, item: string)
    requires d == RunFrom(line, 0, Digits) && 1 <= d && d + 2 <= |line|
    requires line[d] == '.' && IsSpace(line[d + 1])
    requires item == TrimStart(line[d + 1..])
    ensures NumberHead(line[..|line| - |item|])
  {
    var rest := line[d + 1..];
    var h := line[..|line| - |item|];
    assert RunFrom(h, 0, Digits) == d by {
      RunFromPrefix(line, |h|, Digits);
    }
    assert forall k :: d < k < |h| ==> IsSpace(h[k]) by {
      assert forall k :: d < k < |h| ==> h[k] == rest[k - d - 1];
    }
    assert h[d] == '.';
  }

  /** Leading blanks cut from a suffix of a trimmed line leave a trimmed,
      non-empty rest, provided the suffix is not empty. */
  lemma TrimStartTrimmed(rest: string, line: string)
    requires rest != [] && |rest| <= |line|
    requires rest == line[|line| - |rest|..]
    ensures Trimmed(line) ==> TrimStart(rest) != [] && Trimmed(TrimStart(rest))
  {
    assert rest[|rest| - 1] == line[|line| - 1];
  }

  /** A run that ends inside a prefix is the prefix's run too. */
  lemma RunFromPrefix(s: string, j: nat, cls: CharClass)
    requires RunFrom(s, 0, cls) < j <= |s|
    ensures RunFrom(s[..j], 0, cls) == RunFrom(s, 0, cls)
  {
    var n := RunFrom(s, 0, cls);
    RunFromAll(s, 0, cls);
    assert s[..j][n] == s[n];
    RunFromStops(s[..j], 0, n, cls);
  }

  predicate IsList(k: LineKind) {
    k.Bullet? || k.Numbered?
  }

  /** A line with its kind, as the loop body sees it. */
  datatype Line = Line(kind: LineKind, text: string)

  /** Classifies each trimmed line. */
  function Classified(lines: seq<string>): (ls: seq<Line>)
    ensures |ls| == |lines|
    ensures forall i :: 0 <= i < |lines| ==> ls[i].text == lines[i] && ls[i].kind == KindOf(lines[i])
  {
    seq(|lines|, i requires 0 <= i < |lines| => Line(KindOf(lines[i]), lines[i]))
  }

  /** The branches of the loop body: the tokens one line pushes, given
      whether a list is open. */
  function Step(l: Line, inList: bool): seq<Token> {
    match l.kind
    case Blank => (if inList then [CloseUl] else []) + [Br]
    case Bullet(item) => (if inList then [] else [OpenUl]) + [Li(item)]
    case Numbered(item) => (if inList then [] else [OpenOl]) + [Li(item)]
    case Text(heading) => (if inList then [CloseUl] else []) + [if heading then Raw(l.text) else P(l.text)]
  }

  /** The loop over the lines and the final close. */
  function Machine(ls: seq<Line>, inList: bool): seq<Token>
    decreases |ls|
  {
    if ls == [] then (if inList then [CloseUl] else [])
    else Step(ls[0], inList) + Machine(ls[1..], IsList(ls[0].kind))
  }

  // ---------------------------------------------------------------------
  // What the machine guarantees

  predicate IsContent(t: Token) {
    t.Br? || t.Li? || t.P? || t.Raw?
  }

  /** The tokens that carry a line, with the list openers and closers
      dropped. */
  function Contents(ts: seq<Token>): seq<Token> {
    if ts == [] then []
    else (if IsContent(ts[0]) then [ts[0]] else []) + Contents(ts[1..])
  }

  lemma {:induction false} ContentsConcat(a: seq<Token>, b: seq<Token>)
    ensures Contents(a + b) == Contents(a) + Contents(b)
    decreases |a|
  {
    if a == [] {
      assert a + b == b;
    } else {
      var head := if IsContent(a[0]) then [a[0]] else [];
      assert (a + b)[0] == a[0] && (a + b)[1..] == a[1..] + b;
      assert Contents(a + b) == head + Contents(a[1..] + b);
      ContentsConcat(a[1..], b);
      assert head + (Contents(a[1..]) + Contents(b)) == (head + Contents(a[1..])) + Contents(b);
    }
  }

  /** The token a line stands for, whatever the list state: a blank line is
      a line break, a list line an item, any other line a paragraph or, when
      it holds a heading tag, itself. */
  function LineToken(l: Line): Token {
    match l.kind
    case Blank => Br
    case Bullet(item) => Li(item)
    case Numbered(item) => Li(item)
    case Text(heading) => if heading then Raw(l.text) else P(l.text)
  }

  /** The token each line stands for, in order. */
  function LineTokens(ls: seq<Line>): (ts: seq<Token>)
    ensures |ts| == |ls|
  {
    seq(|ls|, i requires 0 <= i < |ls| => LineToken(ls[i]))
  }

  lemma StepContents(l: Line, inList: bool)
    ensures Contents(Step(l, inList)) == [LineToken(l)]
  {
    var ts := Step(l, inList);
    if |ts| == 2 {
      assert ts == [ts[0]] + [ts[1]] && !IsContent(ts[0]);
      ContentsConcat([ts[0]], [ts[1]]);
    }
  }

  /** Every line yields exactly one line-carrying token, the one it stands
      for, and in order: the list state only adds openers and closers. */
  lemma {:induction false} MachineContents(ls: seq<Line>, inList: bool)
    ensures Contents(Machine(ls, inList)) == LineTokens(ls)
    decreases |ls|
  {
    if ls != [] {
      var next := IsList(ls[0].kind);
      var step, more := Step(ls[0], inList), Machine(ls[1..], next);
      assert Contents(more) == LineTokens(ls[1..]) by {
        MachineContents(ls[1..], next);
      }
      assert Contents(step) == [LineToken(ls[0])] by {
        StepContents(ls[0], inList);
      }
      assert Machine(ls, inList) == step + more;
      ContentsConcat(step, more);
      LineTokensCons(ls);
    }
  }

  lemma LineTokensCons(ls: seq<Line>)
    requires ls != []
    ensures LineTokens(ls) == [LineToken(ls[0])] + LineTokens(ls[1..])
  {
  }

  /** The nesting discipline read left to right from state `open`: an
      opener only outside a list, the closer and items only inside one, line
      breaks and paragraphs only outside. The result is None on a violation,
      else whether a list is open at the end. */
  function NestAfter(ts: seq<Token>, open: bool): Option<bool> {
    if ts == [] then Some(open)
    else match ts[0]
      case OpenUl => if open then None else NestAfter(ts[1..], true)
      case OpenOl => if open then None else NestAfter(ts[1..], true)
      case CloseUl => if open then NestAfter(ts[1..], false) else None
      case Li(_) => if open then NestAfter(ts[1..], true) else None
      case _ => if open then None else NestAfter(ts[1..], false)
  }

  /** Lists never nest, every opener, `<ol>` included, is closed by
      `</ul>`, and nothing is left open. */
  predicate WellNested(ts: seq<Token>) {
    NestAfter(ts, false) == Some(false)
  }

  lemma {:induction false} NestConcat(a: seq<Token>, b: seq<Token>, open: bool)
    requires NestAfter(a, open).Some?
    ensures NestAfter(a + b, open) == NestAfter(b, NestAfter(a, open).value)
    decreases |a|
  {
    if a == [] {
      assert a + b == b;
    } else {
      assert (a + b)[0] == a[0] && (a + b)[1..] == a[1..] + b;
      var next := match a[0] case OpenUl => true case OpenOl => true case CloseUl => false
        case Li(_) => true case _ => false;
      NestConcat(a[1..], b, next);
    }
  }

  /** One line keeps the discipline and leaves a list open exactly when it
      is a list line. */
  lemma StepNest(l: Line, inList: bool)
    ensures NestAfter(Step(l, inList), inList) == Some(IsList(l.kind))
  {
    var last := LineToken(l);
    assert Step(l, inList)[|Step(l, inList)| - 1] == last;
    if IsList(l.kind) {
      assert last.Li?;
      if !inList {
        assert Step(l, inList) == [Opener(l.kind), last];
        assert NestAfter([last], true) == Some(true);
      } else {
        assert Step(l, inList) == [last];
      }
    } else {
      assert !last.Li? && IsContent(last);
      if inList {
        assert Step(l, inList) == [CloseUl, last];
        assert NestAfter([last], false) == Some(false);
      } else {
        assert Step(l, inList) == [last];
      }
    }
  }

  lemma {:induction false} MachineNest(ls: seq<Line>, inList: bool)
    ensures NestAfter(Machine(ls, inList), inList) == Some(false)
    decreases |ls|
  {
    if ls != [] {
      StepNest(ls[0], inList);
      MachineNest(ls[1..], IsList(ls[0].kind));
      NestConcat(Step(ls[0], inList), Machine(ls[1..], IsList(ls[0].kind)), inList);
    }
  }

  /** The opener a list takes: chosen by its first line. */
  function Opener(k: LineKind): Token {
    if k.Bullet? then OpenUl else OpenOl
  }

  /** The items of a run of list lines, markers stripped. */
  function Items(ls: seq<Line>): (ts: seq<Token>)
    requires forall i :: 0 <= i < |ls| ==> IsList(ls[i].kind)
    ensures |ts| == |ls|
  {
    if ls == [] then []
    else
      assert IsList(ls[0].kind);
      assert forall i :: 0 <= i < |ls| - 1 ==> ls[1..][i] == ls[i + 1];
      [Li(ls[0].kind.item)] + Items(ls[1..])
  }

  /** Inside an open list, a list line pushes its item and nothing else. */
  lemma ListStep(l: Line)
    requires IsList(l.kind)
    ensures Step(l, true) == [Li(l.kind.item)]
  {
  }

  lemma OpenStep(ls: seq<Line>)
    requires |ls| >= 1 && IsList(ls[0].kind)
    ensures Machine(ls, true) == [Li(ls[0].kind.item)] + Machine(ls[1..], true)
  {
    ListStep(ls[0]);
  }

  /** Inside an open list, list lines only push their items. */
  lemma {:induction false} OpenRun(ls: seq<Line>, n: nat)
    requires n <= |ls| && forall k :: 0 <= k < n ==> IsList(ls[k].kind)
    ensures Machine(ls, true) == Items(ls[..n]) + Machine(ls[n..], true)
    decreases n
  {
    if n > 0 {
      var rest, item := ls[1..], Li(ls[0].kind.item);
      var items, tail := Items(ls[..n][1..]), Machine(ls[n..], true);
      OpenStep(ls);
      assert Machine(rest, true) == items + tail by {
        OpenRun(rest, n - 1);
        assert rest[..n - 1] == ls[..n][1..];
        assert rest[n - 1..] == ls[n..];
      }
      assert [item] + (items + tail) == ([item] + items) + tail;
    } else {
      assert ls[0..] == ls;
    }
  }

  /** An open list ends at the first line that is not a list line, or at
      the end of the text, with `</ul>`. */
  lemma ListCloses(ls: seq<Line>)
    requires ls == [] || !IsList(ls[0].kind)
    ensures |Machine(ls, true)| >= 1 && Machine(ls, true)[0] == CloseUl
  {
    if ls != [] {
      assert Step(ls[0], true)[0] == CloseUl;
    }
  }

  /** Outside a list, a list line opens one and pushes its item. */
  lemma FirstListStep(l: Line)
    requires IsList(l.kind)
    ensures Step(l, false) == [Opener(l.kind), Li(l.kind.item)]
  {
  }

  /** A run of list lines outside a list pushes one opener, chosen by the
      run's first line, then one item per line, and the next line (or the
      end) closes the list with `</ul>`. */
  lemma {:induction false} ListRun(ls: seq<Line>, n: nat)
    requires 1 <= n <= |ls| && forall k :: 0 <= k < n ==> IsList(ls[k].kind)
    requires n < |ls| ==> !IsList(ls[n].kind)
    ensures Machine(ls, false) == [Opener(ls[0].kind)] + Items(ls[..n]) + Machine(ls[n..], true)
    ensures |Machine(ls[n..], true)| >= 1 && Machine(ls[n..], true)[0] == CloseUl
  {
    var rest, head := ls[1..], ls[0];
    var items, tail := Items(ls[..n][1..]), Machine(ls[n..], true);
    assert Machine(ls, false) == [Opener(head.kind), Li(head.kind.item)] + Machine(rest, true) by {
      FirstListStep(head);
    }
    assert Machine(rest, true) == items + tail by {
      OpenRun(rest, n - 1);
      assert rest[..n - 1] == ls[..n][1..];
      assert rest[n - 1..] == ls[n..];
    }
    var first, item := Opener(head.kind), Li(head.kind.item);
    assert Items(ls[..n]) == [item] + items;
    Regroup(first, item, items, tail);
    ListCloses(ls[n..]);
  }

  /** A line that is not a list line closes an open list, pushes the one
      token it stands for (a line break for a blank line, else a paragraph
      or the heading line itself), and leaves no list open. */
  lemma PlainLine(ls: seq<Line>, inList: bool)
    requires ls != [] && !IsList(ls[0].kind)
    ensures Machine(ls, inList) == (if inList then [CloseUl] else []) + [LineToken(ls[0])] + Machine(ls[1..], false)
  {
  }

  lemma Regroup(first: Token, item: Token, items: seq<Token>, tail: seq<Token>)
    ensures [first, item] + (items + tail) == [first] + ([item] + items) + tail
  {
  }

  /** A line led by a tag is neither a bullet nor a numbered line. */
  lemma TagLineNotList(line: string)
    requires line != [] && line[0] == '<'
    ensures !IsList(KindOf(line))
  {
    assert !IsDigit(line[0]);
    assert RunFrom(line, 0, Digits) == 0;
  }

  /** The link rewrite keeps a leading `<`: a link starts with `[`. */
  lemma LinkKeepsTag(s: string)
    requires s != [] && s[0] == '<'
    ensures Link(s) != [] && Link(s)[0] == '<'
  {
    assert LabelAt(s).None?;
  }

  /** Trimming keeps a first character that is not a blank. */
  lemma TrimKeepsHead(s: string)
    requires s != [] && !IsSpace(s[0])
    ensures Trim(s) != [] && Trim(s)[0] == s[0]
  {
    assert |TrimStart(s)| == |s|;
  }

  /** The first line reaches at least as far as a terminator-free prefix. */
  lemma {:induction false} LineEndAtLeast(s: string, n: nat)
    requires n <= |s| && OneLine(s[..n])
    ensures LineEnd(s) >= n
    decreases n
  {
    if n > 0 {
      assert s[..n][0] == s[0];
      assert s[1..][..n - 1] == s[..n][1..];
      LineEndAtLeast(s[1..], n - 1);
    }
  }

  /** A heading pass leaves alone the first line of a text that does not
      start with `#`. */
  lemma PassKeepsHead(s: string, n: nat, prefix: string, open: string, close: string)
    requires 0 < n <= |s| && OneLine(s[..n]) && s[0] != '#'
    requires prefix != [] && prefix[0] == '#'
    ensures n <= |Pass(s, prefix, open, close)| && Pass(s, prefix, open, close)[..n] == s[..n]
  {
    LineEndAtLeast(s, n);
    var i := LineEnd(s);
    var line := s[..i];
    assert line[0] == s[0];
    if |line| > |prefix| {
      assert line[..|prefix|][0] != prefix[0];
    }
    assert Rewrite(line, prefix, open, close) == line;
    assert Pass(s, prefix, open, close)[..i] == line;
    assert line[..n] == s[..n];
  }

  /** Both heading passes leave alone the first line of a text that does not
      start with `#`. */
  lemma HeadingsKeepHead(c: string, n: nat)
    requires 0 < n <= |c| && OneLine(c[..n]) && c[0] != '#'
    ensures n <= |Headings(c)| && Headings(c)[..n] == c[..n]
  {
    PassKeepsHead(c, n, "# ", H2Open, H2Close);
    var h := Pass(c, "# ", H2Open, H2Close);
    assert h[..n][0] == c[0];
    PassKeepsHead(h, n, "## ", H3Open, H3Close);
  }

  /** The first piece of the cut into lines starts with the text's first
      character when that is not a line feed. */
  lemma SplitHead(s: string)
    requires s != [] && s[0] != '\n'
    ensures SplitLines(s)[0] != [] && SplitLines(s)[0][0] == s[0]
  {
  }

  /** A message whose first line starts with a bold span: after the three
      rewrites that line starts with `<strong>`, so the first line the
      machine reads starts with a tag and is never a list item, although
      its raw text starts with `*`. */
  lemma BoldFirstLineNotList(x: string, rest: string)
    requires x != [] && '*' !in x && OneLine(x)
    ensures var l := LinesOf("**" + x + "**" + rest)[0];
      l.text != [] && l.text[0] == '<' && !IsList(l.kind)
  {
    BoldRewrittenTag(x, rest);
    TagFirstLine("**" + x + "**" + rest);
  }

  /** The heading passes keep a leading bold span of one line. */
  lemma HeadingsKeepBold(x: string, rest: string)
    requires x != [] && OneLine(x)
    ensures var c := "**" + x + "**" + rest;
      |x| + 4 <= |Headings(c)| && Headings(c) == "**" + x + "**" + Headings(c)[|x| + 4..]
  {
    var c := "**" + x + "**" + rest;
    var n := |x| + 4;
    assert c[..n] == "**" + x + "**";
    assert OneLine(c[..n]) by {
      assert forall k :: 2 <= k < n - 2 ==> c[..n][k] == x[k - 2];
    }
    HeadingsKeepHead(c, n);
    var h := Headings(c);
    assert h == h[..n] + h[n..];
  }

  /** After the three rewrites, a message that starts with a bold span of
      one line starts with a tag. */
  lemma BoldRewrittenTag(x: string, rest: string)
    requires x != [] && '*' !in x && OneLine(x)
    ensures var w := Rewritten("**" + x + "**" + rest); w != [] && w[0] == '<'
  {
    var c := "**" + x + "**" + rest;
    HeadingsKeepBold(x, rest);
    var h := Headings(c);
    BoldHead(x, h[|x| + 4..]);
    assert Strong(x)[0] == '<';
    LinkKeepsTag(Bold(h));
  }

  /** A rewritten text that starts with a tag gives a first line that starts
      with a tag and is no list item. */
  lemma TagFirstLine(content: string)
    requires Rewritten(content) != [] && Rewritten(content)[0] == '<'
    ensures var l := LinesOf(content)[0];
      l.text != [] && l.text[0] == '<' && !IsList(l.kind)
  {
    var w := Rewritten(content);
    SplitHead(w);
    var piece := SplitLines(w)[0];
    TrimKeepsHead(piece);
    TagLineNotList(Trim(piece));
  }

  // ---------------------------------------------------------------------
  // The whole formatter

  /** The text after the three whole-text rewrites, in the order they run. */
  function Rewritten(content: string): string {
    Link(Bold(Headings(content)))
  }

  /** The lines the machine reads: the rewritten text cut at line feeds,
      each piece trimmed and classified. There is one line per line feed of
      the original content, plus one; the rewrites never add or remove a
      line feed. */
  function LinesOf(content: string): (ls: seq<Line>)
    ensures |ls| == LineFeeds(content) + 1
    ensures forall i :: 0 <= i < |ls| ==> Trimmed(ls[i].text)
  {
    var pieces := SplitLines(Rewritten(content));
    HeadingsNewlines(content);
    BoldNewlines(Headings(content));
    LinkNewlines(Bold(Headings(content)));
    SplitCount(Rewritten(content));
    Classified(seq(|pieces|, i requires 0 <= i < |pieces| => Trim(pieces[i])))
  }

  /** The tokens the formatter pushes for `content`. */
  function Render(content: string): seq<Token> {
    Machine(LinesOf(content), false)
  }

  /** The rendered tokens are well nested, and dropping the list openers
      and closers leaves exactly one token per line of the content, the one
      that line stands for. */
  lemma RenderShape(content: string)
    ensures WellNested(Render(content))
    ensures Contents(Render(content)) == LineTokens(LinesOf(content))
    ensures |Contents(Render(content))| == LineFeeds(content) + 1
  {
    MachineNest(LinesOf(content), false);
    MachineContents(LinesOf(content), false);
  }

  /** The machine from line `i` on: that line's tokens, then the rest. */
  lemma MachineAt(ls: seq<Line>, i: nat, inList: bool, done: seq<Token>)
    requires i < |ls|
    ensures done + Machine(ls[i..], inList)
      == (done + Step(ls[i], inList)) + Machine(ls[i + 1..], IsList(ls[i].kind))
  {
    assert ls[i..][0] == ls[i] && ls[i..][1..] == ls[i + 1..];
  }

  /** `formatAssistantMessage`: the rewrites, the pass over the lines with
      the list flag and the final close, then the join. */
  method FormatAssistantMessage(content: string) returns (tokens: seq<Token>, html: string)
    ensures tokens == Render(content)
    ensures WellNested(tokens)
    ensures |Contents(tokens)| == LineFeeds(content) + 1
    ensures html == ToHtml(tokens)
  {
    tokens := RunMachine(LinesOf(content));
    RenderShape(content);
    html := JoinTokens(tokens);
  }

  /** The loop of the formatter: one branch per line kind, tested in the
      order blank, bullet, numbered, other. */
  method RunMachine(lines: seq<Line>) returns (tokens: seq<Token>)
    ensures tokens == Machine(lines, false)
  {
    tokens := [];
    var inList := false;
    var i := 0;
    while i < |lines|
      invariant 0 <= i <= |lines|
      invariant tokens + Machine(lines[i..], inList) == Machine(lines, false)
    {
      var pushed: seq<Token>;
      var next: bool;
      match lines[i].kind {
        case Blank =>
          pushed, next := (if inList then [CloseUl] else []) + [Br], false;
        case Bullet(item) =>
          pushed, next := (if inList then [] else [OpenUl]) + [Li(item)], true;
        case Numbered(item) =>
          pushed, next := (if inList then [] else [OpenOl]) + [Li(item)], true;
        case Text(heading) =>
          var line := lines[i].text;
          pushed := (if inList then [CloseUl] else []) + [if heading then Raw(line) else P(line)];
          next := false;
      }
      assert pushed == Step(lines[i], inList) && next == IsList(lines[i].kind);
      MachineAt(lines, i, inList, tokens);
      tokens, inList, i := tokens + pushed, next, i + 1;
    }
    if inList {
      tokens := tokens + [CloseUl];
    }
  }

  /** The final `join('')`. */
  method JoinTokens(tokens: seq<Token>) returns (html: string)
    ensures html == ToHtml(tokens)
  {
    html := [];
    var j := 0;
    while j < |tokens|
      invariant 0 <= j <= |tokens|
      invariant html == ToHtml(tokens[..j])
    {
      ToHtmlConcat(tokens[..j], [tokens[j]]);
      assert tokens[..j + 1] == tokens[..j] + [tokens[j]];
      html, j := html + Html(tokens[j]), j + 1;
    }
    assert tokens[..j] == tokens;
  }
}
