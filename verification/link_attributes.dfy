/** What the links carry: the attributes of every anchor, as a reader of the markup finds them. */
module LinkAttributes {
  import opened Wrappers
  import opened Decimals
  import opened PathPatterns
  import opened FilePathDetection
  import opened TextSegments
  import opened FileLinks

  // ---- A reader of markup ----

  /** The text before the first `c`, or all of it. */
  function UpTo(s: string, c: char): (r: string)
    ensures |r| <= |s| && s[..|r|] == r && c !in r && (|r| < |s| ==> s[|r|] == c)
  {
    if s == "" || s[0] == c then "" else [s[0]] + UpTo(s[1..], c)
  }

  /** What follows the first `c`; nothing if there is none. */
  function Past(s: string, c: char): (r: string)
    ensures s != "" ==> |r| < |s|
  {
    if |UpTo(s, c)| < |s| then s[|UpTo(s, c)| + 1..] else ""
  }

  predicate Has(s: string, c: char) {
    |UpTo(s, c)| < |s|
  }

  /** What is between the brackets of every tag, in order. */
  function Tags(html: string): seq<string>
    decreases |html|
  {
    if !Has(html, '<') then []
    else
      var rest := Past(html, '<');
      [UpTo(rest, '>')] + if rest == "" then [] else Tags(Past(rest, '>'))
  }

  /** The tags that open an element. */
  function Opening(tags: seq<string>): seq<string> {
    if tags == [] then []
    else if tags[0] != "" && tags[0][0] == '/' then Opening(tags[1..])
    else [tags[0]] + Opening(tags[1..])
  }

  /** The value of an attribute: what is between the quotes that follow its name and the equals sign. */
  function ValueOf(tag: string, lead: string): Option<string>
    decreases |tag|
  {
    if !Has(tag, '"') then None
    else
      var rest := Past(tag, '"');
      if UpTo(tag, '"') == lead then Some(UpTo(rest, '"'))
      else if rest == "" then None else ValueOf(Past(rest, '"'), lead)
  }

  // ---- What a link should carry ----

  /** The attribute is there exactly if the number is, and its digits denote it. */
  predicate Reads(value: Option<string>, n: Option<nat>) {
    value.Some? == n.Some? && (value.Some? ==> AreDigits(value.value) && Denoted(value.value) == n.value)
  }

  predicate Carries(tag: string, d: Detected, escape: Escape) {
    && ValueOf(tag, "a class=") == Some("file-link")
    && ValueOf(tag, " data-file-path=") == Some(escape(d.filePath))
    && Reads(ValueOf(tag, " data-line="), d.line)
    && Reads(ValueOf(tag, " data-column="), d.column)
  }

  ghost predicate LeavesNoQuote(escape: Escape) {
    forall s :: Free(escape(s), '"')
  }

  // ---- Decimal ----

  /** The digits of a number denote it. */
  lemma {:induction false} DecimalDenotes(n: nat)
    ensures AreDigits(Decimal(n)) && Denoted(Decimal(n)) == n && Decimal(n) != ""
  {
    var last := '0' + (n % 10) as char;
    if n < 10 {
      assert Denoted("") == 0;
      DenotedSnoc("", last);
      assert "" + [last] == Decimal(n);
    } else {
      DecimalDenotes(n / 10);
      DenotedSnoc(Decimal(n / 10), last);
    }
  }

  // ---- Reading what was written ----

  lemma UpToFirst(a: string, c: char, b: string)
    requires Free(a, c)
    ensures UpTo(a + ([c] + b), c) == a && Past(a + ([c] + b), c) == b && Has(a + ([c] + b), c)
  {
    var s := a + ([c] + b);
    assert s[|a|] == c && s[|a| + 1..] == b && s[..|a|] == a;
  }

  lemma {:induction false} FirstIn(a: string, b: string, c: char)
    requires Free(a, c)
    ensures UpTo(a + b, c) == a + UpTo(b, c) && Past(a + b, c) == Past(b, c) && (Has(a + b, c) <==> Has(b, c))
  {
    if a == "" {
      assert a + b == b && a + UpTo(b, c) == UpTo(b, c);
    } else {
      assert (a + b)[0] == a[0] && (a + b)[1..] == a[1..] + b && a[0] != c;
      FirstIn(a[1..], b, c);
      assert [a[0]] + (a[1..] + UpTo(b, c)) == a + UpTo(b, c);
    }
  }

  lemma TagsOfText(a: string, b: string)
    requires Free(a, '<')
    ensures Tags(a + b) == Tags(b)
  {
    FirstIn(a, b, '<');
  }

  lemma TagsOfTag(body: string, rest: string)
    requires Free(body, '>')
    ensures Tags("<" + (body + (">" + rest))) == [body] + Tags(rest)
  {
    var inner := body + (">" + rest);
    assert "<" + inner == "" + ("<" + inner);
    UpToFirst("", '<', inner);
    UpToFirst(body, '>', rest);
  }

  /** An attribute as it is written. */
  function Written(lead: string, value: string, rest: string): string {
    lead + ("\"" + (value + ("\"" + rest)))
  }

  lemma ValueHere(lead: string, value: string, rest: string)
    requires Free(lead, '"') && Free(value, '"')
    ensures ValueOf(Written(lead, value, rest), lead) == Some(value)
  {
    UpToFirst(lead, '"', value + ("\"" + rest));
    UpToFirst(value, '"', rest);
  }

  lemma ValueLater(lead: string, value: string, rest: string, other: string)
    requires Free(lead, '"') && Free(value, '"') && lead != other
    ensures ValueOf(Written(lead, value, rest), other) == ValueOf(rest, other)
  {
    UpToFirst(lead, '"', value + ("\"" + rest));
    UpToFirst(value, '"', rest);
  }

  // ---- One link ----

  function WrittenNumber(lead: string, n: Option<nat>, rest: string): string {
    if n.Some? then Written(lead, Decimal(n.value), rest) else rest
  }

  function Body(d: Detected, escape: Escape): string {
    "a class=\"file-link\" " + DataAttributes(d, escape)
  }

  lemma Quoted(lead: string, value: string, rest: string)
    ensures lead + "\"" + value + "\"" + rest == Written(lead, value, rest)
  {
  }

  lemma NumberWritten(lead: string, quoted: string, n: Option<nat>, rest: string)
    requires quoted == lead + "\""
    ensures (if n.Some? then quoted + Decimal(n.value) + "\"" else "") + rest == WrittenNumber(lead, n, rest)
  {
    if n.Some? {
      Quoted(lead, Decimal(n.value), rest);
    } else {
      assert "" + rest == rest;
    }
  }

  lemma AttributesAreWritten(d: Detected, escape: Escape)
    ensures DataAttributes(d, escape) ==
      Written("data-file-path=", escape(d.filePath),
        WrittenNumber(" data-line=", d.line, WrittenNumber(" data-column=", d.column, "")))
  {
    hide Decimal, Written, WrittenNumber;
    var line := if d.line.Some? then " data-line=\"" + Decimal(d.line.value) + "\"" else "";
    var column := if d.column.Some? then " data-column=\"" + Decimal(d.column.value) + "\"" else "";
    assert " data-line=\"" == " data-line=" + "\"" && " data-column=\"" == " data-column=" + "\"";
    assert "data-file-path=\"" == "data-file-path=" + "\"";
    NumberWritten(" data-column=", " data-column=\"", d.column, "");
    assert column + "" == column;
    NumberWritten(" data-line=", " data-line=\"", d.line, column);
    Quoted("data-file-path=", escape(d.filePath), line + column);
    Joined("data-file-path=\"" + escape(d.filePath) + "\"", line, column);
  }

  lemma BodyIsWritten(d: Detected, escape: Escape)
    ensures Body(d, escape) ==
      Written("a class=", "file-link",
        Written(" data-file-path=", escape(d.filePath),
          WrittenNumber(" data-line=", d.line, WrittenNumber(" data-column=", d.column, ""))))
  {
    hide DataAttributes, WrittenNumber;
    AttributesAreWritten(d, escape);
    var rest := WrittenNumber(" data-line=", d.line, WrittenNumber(" data-column=", d.column, ""));
    SpaceFirst(escape(d.filePath), rest);
  }

  lemma SpaceFirst(value: string, rest: string)
    ensures "a class=\"file-link\" " + Written("data-file-path=", value, rest) ==
      Written("a class=", "file-link", Written(" data-file-path=", value, rest))
  {
    var tail := "\"" + (value + ("\"" + rest));
    assert " data-file-path=" == " " + "data-file-path=";
    assert "a class=\"file-link\" " == "a class=" + "\"" + "file-link" + "\"" + " ";
    Spaced("a class=", "\"", "file-link", " ", "data-file-path=", tail);
  }

  lemma Spaced(a: string, quote: string, b: string, space: string, c: string, tail: string)
    ensures a + quote + b + quote + space + (c + tail) == a + (quote + (b + (quote + (space + c + tail))))
  {
    var x := space + c + tail;
    assert a + quote + b + quote + space + (c + tail) == a + quote + b + quote + x;
    assert a + quote + b + quote + x == a + (quote + (b + (quote + x)));
  }

  lemma NumberRead(lead: string, n: Option<nat>, rest: string, other: string)
    requires Free(lead, '"')
    ensures other != lead ==> ValueOf(WrittenNumber(lead, n, rest), other) == ValueOf(rest, other)
    ensures ValueOf(rest, lead).None? ==> Reads(ValueOf(WrittenNumber(lead, n, rest), lead), n)
  {
    if n.Some? {
      DecimalDenotes(n.value);
      assert Free(Decimal(n.value), '"');
      ValueHere(lead, Decimal(n.value), rest);
      if other != lead {
        ValueLater(lead, Decimal(n.value), rest, other);
      }
    }
  }

  lemma BodyCarries(d: Detected, escape: Escape)
    requires Free(escape(d.filePath), '"')
    ensures Carries(Body(d, escape), d, escape)
  {
    hide ValueOf, WrittenNumber, Written, Body;
    BodyIsWritten(d, escape);
    var path, line, column := " data-file-path=", " data-line=", " data-column=";
    assert path[6] == 'f' && line[6] == 'l' && column[6] == 'c' && |"a class="| == 8;
    var c := WrittenNumber(column, d.column, "");
    var l := WrittenNumber(line, d.line, c);
    var p := Written(path, escape(d.filePath), l);
    ValueHere("a class=", "file-link", p);
    ValueLater("a class=", "file-link", p, path);
    ValueLater("a class=", "file-link", p, line);
    ValueLater("a class=", "file-link", p, column);
    ValueHere(path, escape(d.filePath), l);
    ValueLater(path, escape(d.filePath), l, line);
    ValueLater(path, escape(d.filePath), l, column);
    NumberRead(line, d.line, c, column);
    NumberRead(column, d.column, "", line);
    NothingRead(line);
    NothingRead(column);
  }

  lemma NothingRead(lead: string)
    ensures ValueOf("", lead).None?
  {
  }

  // ---- All links ----

  lemma {:induction false} OpeningConcat(a: seq<string>, b: seq<string>)
    ensures Opening(a + b) == Opening(a) + Opening(b)
  {
    if a == [] {
      assert a + b == b;
    } else {
      var s := a + b;
      assert s[0] == a[0] && s[1..] == a[1..] + b;
      OpeningConcat(a[1..], b);
      Joined([a[0]], Opening(a[1..]), Opening(b));
    }
  }

  lemma TextHasNoTags(content: string, escape: Escape, rest: string)
    requires Escapes(escape)
    ensures Tags(escape(content) + rest) == Tags(rest)
  {
    assert Free(escape(content), '<');
    TagsOfText(escape(content), rest);
  }

  lemma AnchorIsTag(d: Detected, escape: Escape, rest: string)
    ensures SegmentHtml(Path(d), escape) + rest ==
      "<" + (Body(d, escape) + (">" + (escape(d.match_) + ("<" + ("/a" + (">" + rest))))))
  {
    hide DataAttributes;
    Anchored("<", "a class=\"file-link\" ", DataAttributes(d, escape), escape(d.match_), rest);
    assert "<a class=\"file-link\" " == "<" + "a class=\"file-link\" ";
    assert "</a>" == "<" + "/a" + ">";
  }

  lemma Anchored(open: string, head: string, attributes: string, caption: string, rest: string)
    ensures open + head + attributes + ">" + caption + ("<" + "/a" + ">") + rest ==
      open + (head + attributes + (">" + (caption + ("<" + ("/a" + (">" + rest))))))
  {
    var c := "<" + "/a" + ">";
    assert c + rest == "<" + ("/a" + (">" + rest));
    hide *;
    var a, b := open + head + attributes, ">" + caption;
    assert a + ">" + caption + c + rest == a + (b + (c + rest));
    assert b + (c + rest) == ">" + (caption + (c + rest));
    assert a + (b + (c + rest)) == open + (head + attributes + (b + (c + rest)));
  }

  lemma BodyIsFree(d: Detected, escape: Escape)
    requires Escapes(escape)
    ensures Free(Body(d, escape), '>') && Body(d, escape) != "" && Body(d, escape)[0] == 'a'
  {
    assert Free(escape(d.filePath), '>');
    AttributesFree(d, escape);
    FreeConcat("a class=\"file-link\" ", DataAttributes(d, escape), '>');
    hide DataAttributes;
  }

  lemma OpeningPair(body: string, rest: seq<string>)
    requires body != "" && body[0] == 'a'
    ensures Opening([body] + (["/a"] + rest)) == [body] + Opening(rest)
  {
    var tags := [body] + (["/a"] + rest);
    assert tags[1..] == ["/a"] + rest && (["/a"] + rest)[1..] == rest;
  }

  lemma PathHasOneLink(d: Detected, escape: Escape, rest: string)
    requires Escapes(escape)
    ensures Opening(Tags(SegmentHtml(Path(d), escape) + rest)) == [Body(d, escape)] + Opening(Tags(rest))
  {
    hide Tags, Opening, Body, SegmentHtml, Escapes;
    var tail := "<" + ("/a" + (">" + rest));
    AnchorIsTag(d, escape, rest);
    BodyIsFree(d, escape);
    TagsOfTag(Body(d, escape), escape(d.match_) + tail);
    TextHasNoTags(d.match_, escape, tail);
    TagsOfTag("/a", rest);
    OpeningPair(Body(d, escape), Tags(rest));
  }

  /** The anchors of the markup are the links of its path segments. */
  lemma {:induction false} LinksOf(segments: seq<Segment>, escape: Escape)
    requires Escapes(escape) && LeavesNoQuote(escape)
    ensures var links, ds := Opening(Tags(Html(segments, escape))), PathsOf(segments);
      |links| == |ds| && forall i :: 0 <= i < |links| ==> Carries(links[i], ds[i], escape)
  {
    hide Carries, Body;
    if segments == [] {
      assert Tags("") == [];
    } else {
      var rest := segments[1..];
      LinksOf(rest, escape);
      match segments[0]
      case Text(content) => TextHasNoTags(content, escape, Html(rest, escape));
      case Path(d) =>
        PathHasOneLink(d, escape, Html(rest, escape));
        assert Free(escape(d.filePath), '"');
        BodyCarries(d, escape);
    }
  }

  /**
   * The anchors of the marked-up text belong, in order, to the paths that the
   * scan detects. Each carries the escaped path, and a line and a column exactly
   * if its path has them, in digits that denote them.
   */
  lemma LinksCarry(text: string, escape: Escape)
    requires Escapes(escape) && LeavesNoQuote(escape)
    ensures var links, ds := Opening(Tags(TransformFilePathsToHtml(text, escape))), PathsFrom(text, 0);
      |links| == |ds| && forall i :: 0 <= i < |links| ==> Carries(links[i], ds[i], escape)
  {
    PathsAreSeparated(text);
    LinksOf(Split(text), escape);
  }

  /** The server's escaping does so. */
  lemma ServerLinksCarry(text: string)
    ensures var links, ds := Opening(Tags(TransformFilePathsToHtml(text, EscapeHtml))), PathsFrom(text, 0);
      |links| == |ds| && forall i :: 0 <= i < |links| ==> Carries(links[i], ds[i], EscapeHtml)
  {
    forall a, b ensures EscapeHtml(a + b) == EscapeHtml(a) + EscapeHtml(b) {
      EscapeHtmlConcat(a, b);
    }
    forall s ensures Free(EscapeHtml(s), '<') && Free(EscapeHtml(s), '>') && Free(EscapeHtml(s), '"') {
      EscapeHtmlFree(s);
    }
    LinksCarry(text, EscapeHtml);
  }

  /** The five characters that the server replaces, and by what. */
  lemma EscapedCharacter(c: char)
    ensures EscapeHtml([c]) ==
      if c == '&' then "&amp;" else if c == '<' then "&lt;" else if c == '>' then "&gt;"
      else if c == '"' then "&quot;" else if c == '\'' then "&#039;" else [c]
  {
    hide Replaced;
    var s1 := if c == '&' then "&amp;" else [c];
    var s2 := if c == '<' then "&lt;" else s1;
    var s3 := if c == '>' then "&gt;" else s2;
    var s4 := if c == '"' then "&quot;" else s3;
    ReplacedOne([c], c, '&', "&amp;");
    ReplacedOne(s1, c, '<', "&lt;");
    ReplacedOne(s2, c, '>', "&gt;");
    ReplacedOne(s3, c, '"', "&quot;");
    ReplacedOne(s4, c, '\'', "&#039;");
  }

  /** A single character, or an entity put in for one, which the later replacements leave alone. */
  lemma ReplacedOne(s: string, c: char, x: char, entity: string)
    requires s == [c] || (c != x && Free(s, x))
    ensures Replaced(s, x, entity) == if c == x then entity else s
  {
    if s == [c] {
      assert [c][1..] == "" && entity + "" == entity;
    } else {
      NothingReplaced(s, x, entity);
    }
  }

  lemma {:induction false} NothingReplaced(s: string, x: char, entity: string)
    requires Free(s, x)
    ensures Replaced(s, x, entity) == s
  {
    if s != "" {
      assert Free(s[1..], x) && s[0] != x;
      NothingReplaced(s[1..], x, entity);
      assert s == [s[0]] + s[1..];
    }
  }
}
