/** The track map panel (components/TrackPanel.tsx): reading the coordinate
    frame that a track graphic declares in its `viewBox` attribute, rewriting
    the graphic's opening `<svg>` tag so that it fills its container, placing
    and colouring the corner markers of the overlay, and the request counter
    that keeps a superseded load from changing what is displayed. */
module TrackOverlay {
  import opened Common
  import opened Decimal

  /** The coordinate rectangle a graphic declares: minX, minY, width, height. */
  datatype ViewFrame = ViewFrame(minX: real, minY: real, w: real, h: real)

  // ---------------------------------------------------------------------
  // Text matching primitives
  // ---------------------------------------------------------------------

  /** `lit` occurs in `text` at position `p`. */
  predicate StartsAt(text: string, p: nat, lit: string) {
    p + |lit| <= |text| && text[p..p + |lit|] == lit
  }

  /** `lit` occurs at `p`, ignoring the case of ASCII letters (a regular
      expression's `i` flag, for the ASCII patterns used here). */
  predicate StartsAtIgnoringCase(text: string, p: nat, lit: string) {
    p + |lit| <= |text| && forall j :: 0 <= j < |lit| ==> UpperChar(text[p + j]) == UpperChar(lit[j])
  }

  predicate ContainsIgnoringCase(text: string, lit: string) {
    exists p :: 0 <= p <= |text| - |lit| && StartsAtIgnoringCase(text, p, lit)
  }

  /** The scan behind a case-insensitive `test`: some occurrence of `lit` at `p` or later. */
  predicate OccursFrom(text: string, lit: string, p: nat)
    decreases |text| - p
  {
    p + |lit| <= |text| && (StartsAtIgnoringCase(text, p, lit) || OccursFrom(text, lit, p + 1))
  }

  lemma {:induction false} OccursFromContains(text: string, lit: string, p: nat)
    ensures OccursFrom(text, lit, p) <==> exists i :: p <= i <= |text| - |lit| && StartsAtIgnoringCase(text, i, lit)
    decreases |text| - p
  {
    if p + |lit| <= |text| {
      OccursFromContains(text, lit, p + 1);
    }
  }

  /** The scan from the start finds exactly the texts that contain `lit`. */
  lemma OccursIffContains(text: string, lit: string)
    ensures OccursFrom(text, lit, 0) <==> ContainsIgnoringCase(text, lit)
  {
    OccursFromContains(text, lit, 0);
  }

  /** No character of `s` is whitespace. */
  predicate SpaceFree(s: string) {
    forall i :: 0 <= i < |s| ==> !IsJsSpace(s[i])
  }

  // ---------------------------------------------------------------------
  // viewBox extraction
  // ---------------------------------------------------------------------

  /** `/viewBox\s*=\s*Q([^Q]+)Q/` tried at position `p`, for the quote `Q`:
      the captured text when the pattern matches there. */
  function ViewBoxMatchAt(text: string, p: nat, q: char): (r: Option<string>)
    requires p <= |text|
    ensures r.Some? ==> r.value != [] && q !in r.value
  {
    if !StartsAt(text, p, "viewBox") then None
    else
      var a := SkipSpaces(JavaScript, text, p + 7);
      if a == |text| || text[a] != '=' then None
      else
        var b := SkipSpaces(JavaScript, text, a + 1);
        if b == |text| || text[b] != q then None
        else
          match IndexOf(text[b + 1..], q)
          case None => None
          case Some(len) => if len == 0 then None else Some(text[b + 1..b + 1 + len])
  }

  /** `text.match(...)`: the leftmost match at or after `p`. */
  function FirstViewBoxMatch(text: string, q: char, p: nat): (r: Option<string>)
    requires p <= |text|
    ensures r.Some? ==> r.value != [] && q !in r.value
    decreases |text| - p
  {
    match ViewBoxMatchAt(text, p, q)
    case Some(v) => Some(v)
    case None => if p == |text| then None else FirstViewBoxMatch(text, q, p + 1)
  }

  /** The double-quoted `viewBox` value if there is one, else the single-quoted one. */
  function ViewBoxAttribute(text: string): Option<string> {
    match FirstViewBoxMatch(text, '"', 0)
    case Some(v) => Some(v)
    case None => FirstViewBoxMatch(text, '\'', 0)
  }

  /** Position of the first whitespace character of `t`. */
  function FirstSpace(t: string): (r: Option<nat>)
    ensures r.Some? ==> r.value < |t| && IsJsSpace(t[r.value])
    decreases |t|
  {
    if t == [] then None
    else if IsJsSpace(t[0]) then Some(0)
    else match FirstSpace(t[1..])
      case None => None
      case Some(i) => Some(i + 1)
  }

  /** The whitespace found is the first: none comes before it, and none at all when nothing is found. */
  lemma {:induction false} FirstSpaceIsFirst(t: string)
    ensures FirstSpace(t).Some? ==> SpaceFree(t[..FirstSpace(t).value])
    ensures FirstSpace(t).None? ==> SpaceFree(t)
    decreases |t|
  {
    if t != [] && !IsJsSpace(t[0]) {
      FirstSpaceIsFirst(t[1..]);
      match FirstSpace(t[1..])
      case None =>
      case Some(i) => assert t[..i + 1] == [t[0]] + t[1..][..i];
    }
  }

  /** `t.split(/\s+/)`. */
  function SplitOnSpaces(t: string): (parts: seq<string>)
    ensures parts != []
    decreases |t|
  {
    match FirstSpace(t)
    case None => [t]
    case Some(i) => [t[..i]] + SplitOnSpaces(t[SkipSpaces(JavaScript, t, i)..])
  }

  /** `value.trim().split(/\s+/)`. */
  function Fields(value: string): seq<string> {
    SplitOnSpaces(Trim(JavaScript, value))
  }

  /** `.map(Number)` followed by the "every part is a number" check. */
  function ParseAll(parts: seq<string>): (r: Option<seq<real>>)
    ensures r.Some? ==> |r.value| == |parts|
    ensures r.Some? <==> forall i :: 0 <= i < |parts| ==> ParseNumber(parts[i]).Some?
    ensures r.Some? ==> forall i :: 0 <= i < |parts| ==> ParseNumber(parts[i]) == Some(r.value[i])
    decreases |parts|
  {
    if parts == [] then Some([])
    else
      match (ParseNumber(parts[0]), ParseAll(parts[1..]))
      case (Some(x), Some(xs)) => Some([x] + xs)
      case _ => None
  }

  /** The frame the graphic declares: established only when the first
      `viewBox` value holds exactly four numbers. */
  function ExtractViewBox(text: string): (r: Option<ViewFrame>)
  {
    match ViewBoxAttribute(text)
    case None => None
    case Some(v) => ParseFrame(v)
  }

  /** A `viewBox` value read as a frame: exactly four fields, all numbers. */
  function ParseFrame(v: string): Option<ViewFrame> {
    var parts := Fields(v);
    if |parts| != 4 then None
    else match ParseAll(parts)
      case None => None
      case Some(ns) => Some(ViewFrame(ns[0], ns[1], ns[2], ns[3]))
  }

  /** Non-empty words joined by single spaces. */
  function JoinWords(ws: seq<string>): string
    requires ws != []
    decreases |ws|
  {
    if |ws| == 1 then ws[0] else ws[0] + " " + JoinWords(ws[1..])
  }

  predicate IsWord(w: string) {
    w != [] && SpaceFree(w)
  }

  predicate AllWords(ws: seq<string>) {
    forall i :: 0 <= i < |ws| ==> IsWord(ws[i])
  }

  /** A frame of whole numbers written out as `${minX} ${minY} ${w} ${h}`. */
  function FormatViewBox(a: nat, b: nat, c: nat, d: nat): string {
    JoinWords([NatToString(a), NatToString(b), NatToString(c), NatToString(d)])
  }

  /** No `viewBox` starts inside `pre` (also not one running on into what follows it). */
  predicate NoViewBoxIn(pre: string) {
    forall p :: 0 <= p < |pre| ==> !StartsAt(pre + "viewBox", p, "viewBox")
  }

  /** A whitespace character with none before it is the one found. */
  lemma {:induction false} FirstSpaceAt(t: string, k: nat)
    requires k < |t| && IsJsSpace(t[k]) && SpaceFree(t[..k])
    ensures FirstSpace(t) == Some(k)
    decreases k
  {
    if k > 0 {
      assert !IsJsSpace(t[..k][0]);
      assert t[1..][..k - 1] == t[..k][1..];
      FirstSpaceAt(t[1..], k - 1);
    }
  }

  lemma AroundSpace(w: string, rest: string)
    ensures var t := w + " " + rest;
      |w| < |t| && t[..|w|] == w && t[|w|] == ' ' && t[|w| + 1..] == rest
  {
    var t := w + " " + rest;
    assert t == w + (" " + rest);
  }

  lemma SkipOneSpace(t: string, i: nat, rest: string)
    requires i < |t| && t[i] == ' ' && t[i + 1..] == rest
    requires rest == [] || !IsJsSpace(rest[0])
    ensures t[SkipSpaces(JavaScript, t, i)..] == rest
  {
    assert SkipSpaces(JavaScript, t, i) == SkipSpaces(JavaScript, t, i + 1);
  }

  /** The joined text starts with the first word's first character and ends
      with the last word's last character. */
  lemma {:induction false} JoinWordsEnds(ws: seq<string>)
    requires ws != [] && AllWords(ws)
    ensures var t := JoinWords(ws);
      t != [] && t[0] == ws[0][0] && t[|t| - 1] == ws[|ws| - 1][|ws[|ws| - 1]| - 1]
    decreases |ws|
  {
    assert IsWord(ws[0]);
    if |ws| > 1 {
      JoinWordsEnds(ws[1..]);
    }
  }

  /** A character outside every word, other than the space, is not in the joined text. */
  lemma {:induction false} JoinWordsAvoids(ws: seq<string>, c: char)
    requires ws != [] && c != ' ' && forall i :: 0 <= i < |ws| ==> c !in ws[i]
    ensures c !in JoinWords(ws)
    decreases |ws|
  {
    if |ws| > 1 {
      JoinWordsAvoids(ws[1..], c);
      assert c !in ws[0];
    }
  }

  /** Splitting on whitespace undoes joining with single spaces. */
  lemma {:induction false} SplitJoinWords(ws: seq<string>)
    requires ws != [] && AllWords(ws)
    ensures SplitOnSpaces(JoinWords(ws)) == ws
    decreases |ws|
  {
    assert IsWord(ws[0]);
    if |ws| == 1 {
      assert FirstSpace(ws[0]).None?;
    } else {
      var rest := JoinWords(ws[1..]);
      SplitJoinWords(ws[1..]);
      JoinWordsEnds(ws[1..]);
      assert IsWord(ws[1]);
      SplitAfterWord(ws[0], rest);
      assert ws == [ws[0]] + ws[1..];
    }
  }

  /** A word, a single space and a text that does not start with whitespace
      split into the word and the parts of that text. */
  lemma SplitAfterWord(w: string, rest: string)
    requires IsWord(w) && rest != [] && !IsJsSpace(rest[0])
    ensures SplitOnSpaces(w + " " + rest) == [w] + SplitOnSpaces(rest)
  {
    var t := w + " " + rest;
    AroundSpace(w, rest);
    FirstSpaceAt(t, |w|);
    SkipOneSpace(t, |w|, rest);
  }

  lemma NumeralIsWord(n: nat)
    ensures IsWord(NatToString(n)) && '"' !in NatToString(n) && '\'' !in NatToString(n)
  {
    var s := NatToString(n);
    assert forall i :: 0 <= i < |s| ==> IsDigit(s[i]);
  }

  /** The printed frame splits back into the four printed numbers. */
  lemma FormatFields(a: nat, b: nat, c: nat, d: nat)
    ensures Fields(FormatViewBox(a, b, c, d)) == [NatToString(a), NatToString(b), NatToString(c), NatToString(d)]
    ensures '"' !in FormatViewBox(a, b, c, d) && '\'' !in FormatViewBox(a, b, c, d)
  {
    var ws := [NatToString(a), NatToString(b), NatToString(c), NatToString(d)];
    forall i | 0 <= i < 4 ensures IsWord(ws[i]) && '"' !in ws[i] && '\'' !in ws[i] {
      if i == 0 { NumeralIsWord(a); }
      else if i == 1 { NumeralIsWord(b); }
      else if i == 2 { NumeralIsWord(c); }
      else { NumeralIsWord(d); }
    }
    JoinWordsEnds(ws);
    TrimUnchanged(JavaScript, JoinWords(ws));
    SplitJoinWords(ws);
    JoinWordsAvoids(ws, '"');
    JoinWordsAvoids(ws, '\'');
  }

  /** Printing a frame of whole numbers and reading it back gives the frame. */
  lemma {:induction false} ViewBoxRoundTrip(pre: string, post: string, a: nat, b: nat, c: nat, d: nat)
    requires NoViewBoxIn(pre)
    ensures ExtractViewBox(pre + "viewBox=\"" + FormatViewBox(a, b, c, d) + "\"" + post)
            == Some(ViewFrame(a as real, b as real, c as real, d as real))
  {
    var body := FormatViewBox(a, b, c, d);
    var text := pre + "viewBox=\"" + body + "\"" + post;
    assert text == pre + "viewBox=" + ['"'] + body + ['"'] + post;
    FormatFields(a, b, c, d);
    ViewBoxFoundAfter(pre, body, post, '"');
    assert ViewBoxAttribute(text) == Some(body);
    FormatParses(a, b, c, d);
  }

  /** The single-quoted fallback: in a graphic without double quotes, a first
      `viewBox='…'` holding four printed whole numbers yields that frame. */
  lemma ViewBoxRoundTripSingle(pre: string, post: string, a: nat, b: nat, c: nat, d: nat)
    requires NoViewBoxIn(pre) && '"' !in pre && '"' !in post
    ensures ExtractViewBox(pre + "viewBox='" + FormatViewBox(a, b, c, d) + "'" + post)
            == Some(ViewFrame(a as real, b as real, c as real, d as real))
  {
    var body := FormatViewBox(a, b, c, d);
    var text := pre + "viewBox='" + body + "'" + post;
    assert text == pre + "viewBox=" + ['\''] + body + ['\''] + post;
    FormatFields(a, b, c, d);
    ViewBoxFoundAfter(pre, body, post, '\'');
    assert '"' !in text;
    NoQuoteNoMatch(text, '"', 0);
    assert ViewBoxAttribute(text) == Some(body);
    FormatParses(a, b, c, d);
  }

  /** Without the quote character there is no match for that quote. */
  lemma {:induction false} NoQuoteNoMatch(text: string, q: char, p: nat)
    requires q !in text && p <= |text|
    ensures FirstViewBoxMatch(text, q, p) == None
    decreases |text| - p
  {
    if p < |text| {
      NoQuoteNoMatch(text, q, p + 1);
    }
  }

  /** The printed frame reads back as the frame. */
  lemma FormatParses(a: nat, b: nat, c: nat, d: nat)
    ensures ParseFrame(FormatViewBox(a, b, c, d)) == Some(ViewFrame(a as real, b as real, c as real, d as real))
  {
    var ws := [NatToString(a), NatToString(b), NatToString(c), NatToString(d)];
    var ns := [a as real, b as real, c as real, d as real];
    FormatFields(a, b, c, d);
    forall i | 0 <= i < 4 ensures ParseNumber(ws[i]) == Some(ns[i]) {
      if i == 0 { ParseNatToString(a); }
      else if i == 1 { ParseNatToString(b); }
      else if i == 2 { ParseNatToString(c); }
      else { ParseNatToString(d); }
    }
    ParseAllOf(ws, ns);
  }

  /** When every part reads as the matching number, the parts read as the numbers. */
  lemma {:induction false} ParseAllOf(parts: seq<string>, ns: seq<real>)
    requires |parts| == |ns| && forall i :: 0 <= i < |parts| ==> ParseNumber(parts[i]) == Some(ns[i])
    ensures ParseAll(parts) == Some(ns)
    decreases |parts|
  {
    if parts != [] {
      ParseAllOf(parts[1..], ns[1..]);
      assert ns == [ns[0]] + ns[1..];
    }
  }

  /** A double-quoted, non-empty `viewBox` value with no spaces around `=` matches where it stands. */
  lemma ViewBoxMatchHere(text: string, k: nat, body: string, q: char)
    requires q == '"' || q == '\''
    requires body != [] && q !in body
    requires k + 10 + |body| <= |text| && text[k..k + 8] == "viewBox=" && text[k + 8] == q
    requires text[k + 9..k + 9 + |body|] == body && text[k + 9 + |body|] == q
    ensures ViewBoxMatchAt(text, k, q) == Some(body)
  {
    assert text[k..k + 7] == text[k..k + 8][..7] == "viewBox";
    assert text[k + 7] == text[k..k + 8][7] == '=';
    assert SkipSpaces(JavaScript, text, k + 7) == k + 7;
    assert SkipSpaces(JavaScript, text, k + 8) == k + 8;
    var post := text[k + 10 + |body|..];
    assert text[k + 9..] == body + [q] + post;
    IndexOfAfter(body, post, q);
  }

  lemma ViewBoxFoundAfter(pre: string, body: string, post: string, q: char)
    requires NoViewBoxIn(pre)
    requires q == '"' || q == '\''
    requires body != [] && q !in body
    ensures FirstViewBoxMatch(pre + "viewBox=" + [q] + body + [q] + post, q, 0) == Some(body)
  {
    var text := pre + "viewBox=" + [q] + body + [q] + post;
    var k := |pre|;
    assert text[..k + 7] == pre + "viewBox";
    assert text[k..k + 8] == "viewBox=";
    assert text[k + 8] == q;
    assert text[k + 9..k + 9 + |body|] == body;
    assert text[k + 9 + |body|] == q;
    ViewBoxMatchHere(text, k, body, q);
    NoEarlierViewBox(pre, text, k, q);
  }

  lemma IndexOfAfter(body: string, post: string, q: char)
    requires q !in body
    ensures IndexOf(body + [q] + post, q) == Some(|body|)
    decreases |body|
  {
    if body != [] {
      IndexOfAfter(body[1..], post, q);
      assert (body + [q] + post)[1..] == body[1..] + [q] + post;
    }
  }

  lemma {:induction false} NoEarlierViewBox(pre: string, text: string, p: nat, q: char)
    requires NoViewBoxIn(pre) && |pre| + 7 <= |text| && text[..|pre| + 7] == pre + "viewBox"
    requires p <= |pre|
    ensures FirstViewBoxMatch(text, q, |pre| - p) == FirstViewBoxMatch(text, q, |pre|)
    decreases p
  {
    if p > 0 {
      var i := |pre| - p;
      assert !StartsAt(pre + "viewBox", i, "viewBox");
      SliceOfPrefix(text, pre + "viewBox", i, i + 7);
      assert !StartsAt(text, i, "viewBox");
      NoEarlierViewBox(pre, text, p - 1, q);
    }
  }

  lemma SliceOfPrefix<T>(s: seq<T>, u: seq<T>, i: nat, j: nat)
    requires |u| <= |s| && s[..|u|] == u && i <= j <= |u|
    ensures s[i..j] == u[i..j]
  {
    forall k | 0 <= k < j - i ensures s[i..j][k] == u[i..j][k] {
      assert s[i + k] == s[..|u|][i + k];
    }
  }

  // ---------------------------------------------------------------------
  // Rewriting the opening <svg> tag
  // ---------------------------------------------------------------------

  /** A match of `/<svg([\s\S]*?)>/i` starts at `p`: `<svg` in any case, and a `>` later on. */
  predicate TagAt(text: string, p: nat) {
    StartsAtIgnoringCase(text, p, "<svg") && IndexOf(text[p + 4..], '>').Some?
  }

  /** The leftmost match of `/<svg([\s\S]*?)>/i`: where `<svg` starts and
      where the first `>` after it is. */
  function FindSvgTag(text: string, p: nat): (r: Option<(nat, nat)>)
    requires p <= |text|
    ensures r.Some? ==> (p <= r.value.0 && r.value.0 + 4 <= r.value.1 < |text|
      && StartsAtIgnoringCase(text, r.value.0, "<svg") && text[r.value.1] == '>'
      && '>' !in text[r.value.0 + 4..r.value.1])
    decreases |text| - p
  {
    if TagAt(text, p) then
      Some((p, p + 4 + IndexOf(text[p + 4..], '>').value))
    else if p == |text| then None
    else FindSvgTag(text, p + 1)
  }

  /** The first `Q…Q` value at `b` (the lazy `(["']).*?\1`): the index just
      past the closing quote, unless a line break comes first. */
  function QuotedEnd(s: string, b: nat): (r: Option<nat>)
    requires b <= |s|
    ensures r.Some? ==> b + 2 <= r.value <= |s|
    decreases |s| - b
  {
    if b == |s| || (s[b] != '"' && s[b] != '\'') then None
    else ClosingQuote(s, b + 1, s[b])
  }

  function ClosingQuote(s: string, i: nat, q: char): (r: Option<nat>)
    requires 1 <= i <= |s|
    ensures r.Some? ==> i + 1 <= r.value <= |s|
    decreases |s| - i
  {
    if i == |s| || IsLineTerminator(s[i]) then None
    else if s[i] == q then Some(i + 1)
    else ClosingQuote(s, i + 1, q)
  }

  /** `/name\s*=\s*(["']).*?\1/i` tried at position `p`: where the match ends. */
  function AttributeMatchAt(s: string, p: nat, name: string): (r: Option<nat>)
    requires p <= |s|
    ensures r.Some? ==> p + |name| < r.value <= |s|
  {
    if !StartsAtIgnoringCase(s, p, name) then None
    else
      var a := SkipSpaces(JavaScript, s, p + |name|);
      if a == |s| || s[a] != '=' then None
      else QuotedEnd(s, SkipSpaces(JavaScript, s, a + 1))
  }

  /** `name="value"` */
  function Assignment(name: string, value: string): string {
    name + "=\"" + value + "\""
  }

  /** The attribute pattern matches nowhere in `lo..hi`. */
  predicate NoMatchBetween(s: string, lo: nat, hi: nat, name: string) {
    forall q :: lo <= q < hi && q <= |s| ==> AttributeMatchAt(s, q, name).None?
  }

  /** The leftmost position at or after `p` where the attribute pattern matches. */
  function FirstAttributeMatch(s: string, p: nat, name: string): (r: Option<nat>)
    requires p <= |s|
    ensures r.Some? ==> p <= r.value <= |s| && AttributeMatchAt(s, r.value, name).Some? && NoMatchBetween(s, p, r.value, name)
    ensures r.None? ==> NoMatchBetween(s, p, |s| + 1, name)
    decreases |s| - p
  {
    if AttributeMatchAt(s, p, name).Some? then Some(p)
    else if p == |s| then None
    else FirstAttributeMatch(s, p + 1, name)
  }

  /** `s.replace(/name\s*=\s*(["']).*?\1/i, 'name="value"')` from position `p` on:
      the leftmost match is replaced, and without one the text is kept. */
  function ReplaceAttribute(s: string, p: nat, name: string, value: string): (r: string)
    requires p <= |s|
  {
    match FirstAttributeMatch(s, p, name)
    case Some(q) => s[..q] + Assignment(name, value) + s[AttributeMatchAt(s, q, name).value..]
    case None => s
  }

  /** One step of the tag rewrite: when the literal `name=` occurs (in any
      case) its first quoted value is replaced, otherwise the attribute is
      appended. */
  function SetAttribute(attrs: string, name: string, value: string): string {
    if OccursFrom(attrs, name + "=", 0) then ReplaceAttribute(attrs, 0, name, value)
    else attrs + " " + Assignment(name, value)
  }

  /** The settings applied to the tag, in order. */
  const Sizing: seq<(string, string)> := [("width", "100%"), ("height", "100%"), ("preserveAspectRatio", "xMidYMid meet")]

  /** Applies the settings one after another, the last one last. */
  function SetAll(attrs: string, settings: seq<(string, string)>): string
    decreases |settings|
  {
    if settings == [] then attrs
    else
      var last := settings[|settings| - 1];
      SetAttribute(SetAll(attrs, settings[..|settings| - 1]), last.0, last.1)
  }

  function AdjustAttributes(attrs: string): string {
    SetAll(attrs, Sizing)
  }

  /** The text with its first opening `<svg …>` tag resized to fill its container. */
  function RewriteSvg(text: string): string {
    RewriteTag(text, FindSvgTag(text, 0))
  }

  /** The text with the tag found at `tag`, if any, resized. */
  function RewriteTag(text: string, tag: Option<(nat, nat)>): string
    requires tag.Some? ==> tag.value.0 + 4 <= tag.value.1 < |text|
  {
    match tag
    case None => text
    case Some((p, g)) => Retag(text[..p], AdjustAttributes(text[p + 4..g]), text[g + 1..])
  }

  /** An opening tag with the given attributes between two kept pieces of text. */
  function Retag(prefix: string, attrs: string, suffix: string): string {
    prefix + "<svg" + attrs + ">" + suffix
  }

  /** A text with no `<svg` (in any case) is left unchanged. */
  lemma RewriteWithoutTag(text: string)
    requires forall p :: 0 <= p <= |text| ==> !StartsAtIgnoringCase(text, p, "<svg")
    ensures RewriteSvg(text) == text
  {
    assert FindSvgTag(text, 0).None?;
  }

  /** No match means that no `<svg` has a `>` after it. */
  lemma {:induction false} FindSvgTagNone(text: string, p: nat)
    requires p <= |text|
    ensures FindSvgTag(text, p).None? <==> forall i :: p <= i <= |text| ==> !TagAt(text, i)
    decreases |text| - p
  {
    if !TagAt(text, p) && p < |text| {
      FindSvgTagNone(text, p + 1);
    }
  }

  /** The tag found is the leftmost match. */
  lemma {:induction false} FindSvgTagLeftmost(text: string, p: nat)
    requires p <= |text| && FindSvgTag(text, p).Some?
    ensures forall i :: p <= i < FindSvgTag(text, p).value.0 ==> !TagAt(text, i)
    decreases |text| - p
  {
    if !TagAt(text, p) {
      FindSvgTagLeftmost(text, p + 1);
    }
  }

  /** Only the first opening tag changes: the rewrite is the text before the
      tag, `<svg`, new attributes free of `>`, `>`, and the text after the tag. */
  lemma RewriteKeepsOutside(text: string, p: nat, g: nat)
    requires FindSvgTag(text, 0) == Some((p, g))
    ensures exists attrs :: '>' !in attrs && RewriteSvg(text) == Retag(text[..p], attrs, text[g + 1..])
  {
    var attrs := AdjustAttributes(text[p + 4..g]);
    RewriteAt(text, p, g);
    AdjustNoCloser(text[p + 4..g]);
    assert '>' !in attrs && RewriteSvg(text) == Retag(text[..p], attrs, text[g + 1..]);
  }

  lemma RewriteAt(text: string, p: nat, g: nat)
    requires FindSvgTag(text, 0) == Some((p, g))
    ensures RewriteSvg(text) == Retag(text[..p], AdjustAttributes(text[p + 4..g]), text[g + 1..])
  {
    assert RewriteSvg(text) == RewriteTag(text, Some((p, g)));
  }

  /** In a retagged text the kept pieces sit where they were, and the new tag
      ends with its only `>`, right where the kept suffix resumes. */
  lemma TagBetween(prefix: string, attrs: string, suffix: string)
    requires '>' !in attrs
    ensures var r := Retag(prefix, attrs, suffix);
      var p, tail := |prefix|, |suffix|;
      && p + 5 + tail <= |r|
      && r[..p] == prefix && r[|r| - tail..] == suffix
      && r[p..p + 4] == "<svg" && r[|r| - tail - 1] == '>' && '>' !in r[p + 4..|r| - tail - 1]
  {
    var r := Retag(prefix, attrs, suffix);
    assert r[|prefix| + 4..|r| - |suffix| - 1] == attrs;
  }

  lemma ReplaceAttributeNoCloser(s: string, p: nat, name: string, value: string)
    requires p <= |s| && '>' !in s && '>' !in name && '>' !in value
    ensures '>' !in ReplaceAttribute(s, p, name, value)
  {
    match FirstAttributeMatch(s, p, name)
    case Some(q) =>
      var e := AttributeMatchAt(s, q, name).value;
      var r := s[..q] + Assignment(name, value) + s[e..];
      assert forall c :: c in r ==> c in s[..q] || c in name || c in "=\"" || c in value || c in "\"" || c in s[e..];
    case None =>
  }

  lemma SetAttributeNoCloser(attrs: string, name: string, value: string)
    requires '>' !in attrs && '>' !in name && '>' !in value
    ensures '>' !in SetAttribute(attrs, name, value)
  {
    if OccursFrom(attrs, name + "=", 0) {
      ReplaceAttributeNoCloser(attrs, 0, name, value);
    } else {
      assert forall c :: c in " " + Assignment(name, value) ==> c in " =\"" || c in name || c in value;
    }
  }

  lemma {:induction false} SetAllNoCloser(attrs: string, settings: seq<(string, string)>)
    requires '>' !in attrs
    requires forall i :: 0 <= i < |settings| ==> '>' !in settings[i].0 && '>' !in settings[i].1
    ensures '>' !in SetAll(attrs, settings)
    decreases |settings|
  {
    if settings != [] {
      var last := settings[|settings| - 1];
      SetAllNoCloser(attrs, settings[..|settings| - 1]);
      SetAttributeNoCloser(SetAll(attrs, settings[..|settings| - 1]), last.0, last.1);
    }
  }

  /** The adjusted attributes never contain a `>`, so the tag stays one tag. */
  lemma AdjustNoCloser(attrs: string)
    requires '>' !in attrs
    ensures '>' !in AdjustAttributes(attrs)
  {
    SetAllNoCloser(attrs, Sizing);
  }

  /** A replacement either finds no match and keeps the text, or rewrites the
      first match, at some `q`, to `name="value"`. */
  lemma ReplaceAttributeShape(s: string, p: nat, name: string, value: string)
    requires p <= |s|
    ensures var r := ReplaceAttribute(s, p, name, value);
      && ((forall q :: p <= q <= |s| ==> AttributeMatchAt(s, q, name).None?) ==> r == s)
      && ((exists q :: p <= q <= |s| && AttributeMatchAt(s, q, name).Some?) ==>
            exists q :: && p <= q <= |s| && AttributeMatchAt(s, q, name).Some?
                        && (forall q' :: p <= q' < q ==> AttributeMatchAt(s, q', name).None?)
                        && r == s[..q] + Assignment(name, value) + s[AttributeMatchAt(s, q, name).value..])
  {
    match FirstAttributeMatch(s, p, name)
    case Some(q) =>
      assert forall q' :: p <= q' < q ==> AttributeMatchAt(s, q', name).None?;
    case None =>
  }

  lemma AssignmentStarts(before: string, name: string, value: string, after: string)
    ensures StartsAtIgnoringCase(before + Assignment(name, value) + after, |before|, name + "=")
    ensures ContainsIgnoringCase(before + Assignment(name, value) + after, name + "=")
  {
    var r := before + Assignment(name, value) + after;
    var lit := name + "=";
    forall j | 0 <= j < |lit| ensures r[|before| + j] == lit[j] {
    }
  }

  /** After `SetAttribute` the literal `name=` is present. */
  lemma SetAttributePresent(attrs: string, name: string, value: string)
    ensures ContainsIgnoringCase(SetAttribute(attrs, name, value), name + "=")
  {
    var lit := name + "=";
    var r := SetAttribute(attrs, name, value);
    OccursIffContains(attrs, lit);
    if ContainsIgnoringCase(attrs, lit) {
      match FirstAttributeMatch(attrs, 0, name)
      case Some(q) =>
        AssignmentStarts(attrs[..q], name, value, attrs[AttributeMatchAt(attrs, q, name).value..]);
      case None =>
    } else {
      AssignmentStarts(attrs + " ", name, value, []);
      assert r == attrs + " " + Assignment(name, value) + [];
    }
  }

  /** The last step leaves `preserveAspectRatio=` in the adjusted attributes. */
  lemma AdjustedKeepsAspectRatio(attrs: string)
    ensures ContainsIgnoringCase(AdjustAttributes(attrs), "preserveAspectRatio=")
  {
    var h := SetAll(attrs, Sizing[..2]);
    SetAttributePresent(h, "preserveAspectRatio", "xMidYMid meet");
    assert "preserveAspectRatio" + "=" == "preserveAspectRatio=";
    assert Sizing[..2] == Sizing[..|Sizing| - 1];
    assert AdjustAttributes(attrs) == SetAttribute(h, "preserveAspectRatio", "xMidYMid meet");
  }

  /** Appending text that starts with a space, to a text without `lit`, creates
      no `lit` unless the appended text has one: `lit` holds no space. */
  lemma AppendCreatesNothing(s: string, tail: string, lit: string)
    requires lit != [] && forall i :: 0 <= i < |lit| ==> lit[i] != ' '
    requires tail != [] && tail[0] == ' '
    requires !ContainsIgnoringCase(s, lit) && !ContainsIgnoringCase(tail, lit)
    ensures !ContainsIgnoringCase(s + tail, lit)
  {
    var t := s + tail;
    forall p | 0 <= p <= |t| - |lit|
      ensures !StartsAtIgnoringCase(t, p, lit)
    {
      if p + |lit| <= |s| {
        assert !StartsAtIgnoringCase(s, p, lit);
        var j :| 0 <= j < |lit| && UpperChar(s[p + j]) != UpperChar(lit[j]);
        assert t[p + j] == s[p + j];
      } else if p < |s| {
        var j := |s| - p;
        assert t[p + j] == ' ';
        assert UpperChar(lit[j]) != ' ';
      } else {
        var k := p - |s|;
        assert !StartsAtIgnoringCase(tail, k, lit);
        var j :| 0 <= j < |lit| && UpperChar(tail[k + j]) != UpperChar(lit[j]);
        assert t[p + j] == tail[k + j];
      }
    }
  }

  const WidthTail := " " + Assignment("width", "100%")
  const HeightTail := " " + Assignment("height", "100%")
  const AspectTail := " " + Assignment("preserveAspectRatio", "xMidYMid meet")

  lemma TailsLackOtherNames()
    ensures !ContainsIgnoringCase(WidthTail, "height=")
    ensures !ContainsIgnoringCase(WidthTail, "preserveAspectRatio=")
    ensures !ContainsIgnoringCase(HeightTail, "preserveAspectRatio=")
  {
    forall p | 0 <= p <= |WidthTail| - |"height="| ensures !StartsAtIgnoringCase(WidthTail, p, "height=") {
      if p == 5 {
        assert UpperChar(WidthTail[p + 1]) != UpperChar("height="[1]);
      } else {
        assert UpperChar(WidthTail[p]) != UpperChar("height="[0]);
      }
    }
  }

  /** Setting an attribute the text does not mention appends it. */
  lemma AppendStep(attrs: string, name: string, value: string)
    requires !ContainsIgnoringCase(attrs, name + "=")
    ensures SetAttribute(attrs, name, value) == attrs + (" " + Assignment(name, value))
  {
    OccursIffContains(attrs, name + "=");
  }

  /** The first `k` settings applied to a tag that mentions none of the three. */
  lemma SetAllPrefix(attrs: string, k: nat)
    requires 1 <= k <= 3
    ensures SetAll(attrs, Sizing[..k]) == SetAttribute(SetAll(attrs, Sizing[..k - 1]), Sizing[k - 1].0, Sizing[k - 1].1)
  {
    assert Sizing[..k][..k - 1] == Sizing[..k - 1];
  }

  /** A tag that sets none of the three sizing attributes gets all three
      appended, in the order width, height, preserveAspectRatio. */
  lemma AdjustAppendsMissing(attrs: string)
    requires !ContainsIgnoringCase(attrs, "width=") && !ContainsIgnoringCase(attrs, "height=")
    requires !ContainsIgnoringCase(attrs, "preserveAspectRatio=")
    ensures AdjustAttributes(attrs) == attrs + WidthTail + HeightTail + AspectTail
  {
    assert "width" + "=" == "width=" && "height" + "=" == "height=";
    assert "preserveAspectRatio" + "=" == "preserveAspectRatio=";
    TailsLackOtherNames();
    AppendCreatesNothing(attrs, WidthTail, "height=");
    AppendCreatesNothing(attrs, WidthTail, "preserveAspectRatio=");
    AppendCreatesNothing(attrs + WidthTail, HeightTail, "preserveAspectRatio=");
    var w := attrs + WidthTail;
    var h := w + HeightTail;
    assert SetAll(attrs, Sizing[..0]) == attrs;
    SetAllPrefix(attrs, 1);
    AppendStep(attrs, "width", "100%");
    SetAllPrefix(attrs, 2);
    AppendStep(w, "height", "100%");
    SetAllPrefix(attrs, 3);
    AppendStep(h, "preserveAspectRatio", "xMidYMid meet");
    assert Sizing[..3] == Sizing;
  }

  // ---------------------------------------------------------------------
  // Corner markers
  // ---------------------------------------------------------------------

  datatype Severity = Slow | Medium | Fast

  /** A corner of the track metadata, in the graphic's own coordinates. */
  datatype Corner = Corner(number: int, kind: Severity, x: real, y: real)

  function Min(a: real, b: real): real { if a <= b then a else b }
  function Max(a: real, b: real): real { if a >= b then a else b }

  /** `Math.round`: halves round up. */
  function Round(x: real): (n: int)
    ensures x - 0.5 < n as real <= x + 0.5
  {
    (x + 0.5).Floor
  }

  /** Marker radius: 1% of the smaller side of the frame, but at least 4 units. */
  function MarkerRadius(vf: ViewFrame): (r: real)
    ensures r >= 4.0 && r >= Min(vf.w, vf.h) * 0.01
    ensures r == 4.0 || r == Min(vf.w, vf.h) * 0.01
  {
    Max(4.0, Min(vf.w, vf.h) * 0.01)
  }

  /** Label font size: 3% of the frame height rounded, but at least 10 units. */
  function LabelFontSize(vf: ViewFrame): (size: int)
    ensures size >= 10
    ensures size == 10 || vf.h * 0.03 - 0.5 < size as real <= vf.h * 0.03 + 0.5
  {
    var scaled := Round(vf.h * 0.03);
    if scaled >= 10 then scaled else 10
  }

  function MarkerColor(kind: Severity): (colour: string)
    ensures kind == Slow <==> colour == "#ef4444"
    ensures kind == Medium <==> colour == "#f59e0b"
    ensures kind == Fast <==> colour == "#10b981"
  {
    match kind
    case Slow => "#ef4444"
    case Medium => "#f59e0b"
    case Fast => "#10b981"
  }

  datatype Marker = Marker(cx: real, cy: real, radius: real, fill: string,
                           labelX: real, labelY: real, fontSize: int, number: int)

  /** The overlay: nothing without a frame; otherwise one marker per corner,
      at the corner's own coordinates, with its label 2% of the frame height
      above it. */
  function Markers(corners: seq<Corner>, viewBox: Option<ViewFrame>): (ms: seq<Marker>)
    ensures viewBox.None? ==> ms == []
    ensures viewBox.Some? ==> |ms| == |corners|
    ensures viewBox.Some? ==> forall i :: 0 <= i < |corners| ==>
      && ms[i].cx == corners[i].x && ms[i].cy == corners[i].y
      && ms[i].labelX == corners[i].x && ms[i].labelY == corners[i].y - viewBox.value.h * 0.02
      && ms[i].radius >= 4.0 && ms[i].fontSize >= 10
      && ms[i].fill == MarkerColor(corners[i].kind) && ms[i].number == corners[i].number
  {
    match viewBox
    case None => []
    case Some(vf) =>
      seq(|corners|, i requires 0 <= i < |corners| =>
        Marker(corners[i].x, corners[i].y, MarkerRadius(vf), MarkerColor(corners[i].kind),
               corners[i].x, corners[i].y - vf.h * 0.02, LabelFontSize(vf), corners[i].number))
  }

  // ---------------------------------------------------------------------
  // Loading a graphic: the request counter
  // ---------------------------------------------------------------------

  /** How a request for the graphic ended: an HTTP response with its body, or
      a rejected fetch with its error message. */
  datatype FetchOutcome = Response(httpStatus: nat, body: string) | Rejected(message: string)

  /** The frame on display once a graphic `text` has arrived: the frame it
      declares, if any, otherwise the frame shown before. */
  function FrameAfter(shown: Option<ViewFrame>, text: string): Option<ViewFrame> {
    match ExtractViewBox(text)
    case Some(f) => Some(f)
    case None => shown
  }

  /** The error shown when loading `file` fails with `message`. */
  function FailureMessage(file: string, message: string): string {
    "Failed to load " + file + ": " + message
  }

  /** The panel's display state and its request counter. `live` says whether
      the latest request (number `reqId`) has not been aborted. */
  class TrackLoader {
    var svgContent: Option<string>
    var viewBox: Option<ViewFrame>
    var error: Option<string>
    var status: Option<nat>
    var isReady: bool
    var reqId: nat
    var live: bool
    var svgFile: string

    ghost predicate Valid()
      reads this
    {
      live ==> reqId >= 1 && svgFile != ""
    }

    constructor ()
      ensures Valid()
      ensures svgContent.None? && viewBox.None? && error.None? && status.None? && !isReady
      ensures reqId == 0 && !live
    {
      svgContent, viewBox, error, status, isReady := None, None, None, None, false;
      reqId, live, svgFile := 0, false, "";
    }

    /** The load effect for a newly selected `file`. It aborts the request in
        flight; with an empty name it stops there. Otherwise it clears the
        display and issues request number `reqId + 1`. */
    method StartLoad(file: string) returns (ticket: Option<nat>)
      requires Valid()
      modifies this
      ensures Valid()
      ensures file == "" ==> (ticket.None? && !live && reqId == old(reqId) && svgFile == old(svgFile)
        && svgContent == old(svgContent) && viewBox == old(viewBox) && error == old(error)
        && status == old(status) && isReady == old(isReady))
      ensures file != "" ==> (ticket == Some(reqId) && reqId == old(reqId) + 1 && live && svgFile == file
        && svgContent.None? && viewBox.None? && error.None? && status.None? && !isReady)
    {
      live := false;
      if file == "" {
        return None;
      }
      svgContent, viewBox, status, error, isReady := None, None, None, None, false;
      reqId := reqId + 1;
      live := true;
      svgFile := file;
      ticket := Some(reqId);
    }

    /** Whether the result of request `id` may still change the display. */
    predicate Current(id: nat)
      reads this
    {
      live && id == reqId
    }

    /** The failure path: only the current request may report it. */
    method FailLoad(id: nat, message: string)
      requires Valid()
      modifies this
      ensures Valid()
      ensures !old(Current(id)) ==> unchanged(this)
      ensures old(Current(id)) ==>
        && error == Some(FailureMessage(svgFile, message))
        && svgContent.None? && isReady
        && viewBox == old(viewBox) && status == old(status)
        && reqId == old(reqId) && live == old(live) && svgFile == old(svgFile)
    {
      if !Current(id) {
        return;
      }
      error := Some(FailureMessage(svgFile, message));
      svgContent := None;
      isReady := true;
    }

    /** Records the frame a successfully loaded graphic declares, if any. */
    method RecordFrame(text: string)
      modifies this
      ensures viewBox == FrameAfter(old(viewBox), text)
      ensures svgContent == old(svgContent) && isReady == old(isReady) && status == old(status)
      ensures error == old(error) && reqId == old(reqId) && live == old(live) && svgFile == old(svgFile)
    {
      var vb := ExtractViewBox(text);
      if vb.Some? {
        viewBox := vb;
      }
    }

    /** Shows a successfully loaded graphic, resized to fill the panel; a
        non-empty graphic also flips the ready flag (the readiness effect). */
    method ShowGraphic(text: string)
      modifies this
      ensures svgContent == Some(RewriteSvg(text)) && isReady == (old(isReady) || RewriteSvg(text) != "")
      ensures viewBox == old(viewBox) && status == old(status)
      ensures error == old(error) && reqId == old(reqId) && live == old(live) && svgFile == old(svgFile)
    {
      var prepared := RewriteSvg(text);
      svgContent := Some(prepared);
      if prepared != "" {
        isReady := true;
      }
    }

    /** Settles request `id`. A response outside 200-299 fails with `HTTP <status>`,
        a rejected fetch with its own message. A successful response of the
        current request records the status, the frame when the text declares
        one, and the rewritten graphic, which becomes ready when non-empty.
        Results of superseded or aborted requests change nothing. */
    method CompleteLoad(id: nat, outcome: FetchOutcome)
      requires Valid()
      modifies this
      ensures Valid()
      ensures !old(Current(id)) ==> unchanged(this)
      ensures old(Current(id)) && outcome.Rejected? ==>
        error == Some(FailureMessage(svgFile, outcome.message)) && svgContent.None? && isReady
        && viewBox == old(viewBox) && status == old(status)
      ensures old(Current(id)) && outcome.Response? && !(200 <= outcome.httpStatus <= 299) ==>
        error == Some(FailureMessage(svgFile, "HTTP " + NatToString(outcome.httpStatus)))
        && svgContent.None? && isReady
        && viewBox == old(viewBox) && status == old(status)
      ensures old(Current(id)) && outcome.Response? && 200 <= outcome.httpStatus <= 299 ==>
        && status == Some(outcome.httpStatus)
        && viewBox == FrameAfter(old(viewBox), outcome.body)
        && svgContent == Some(RewriteSvg(outcome.body))
        && isReady == (old(isReady) || RewriteSvg(outcome.body) != "")
        && error == old(error)
      ensures reqId == old(reqId) && live == old(live) && svgFile == old(svgFile)
    {
      if !Current(id) {
        return;
      }
      match outcome
      case Rejected(message) =>
        FailLoad(id, message);
      case Response(httpStatus, text) =>
        if !(200 <= httpStatus <= 299) {
          FailLoad(id, "HTTP " + NatToString(httpStatus));
          return;
        }
        status := Some(httpStatus);
        RecordFrame(text);
        ShowGraphic(text);
    }
  }
}
