/**
 * Marking file paths up as links (packages/shared/src/filePathDetection.ts), for
 * any escaping function, and the server's own one
 * (packages/server/src/augments/augment-generator.ts).
 */
module FileLinks {
  import opened FilePathDetection
  import opened Regex
  import opened TextSegments
  import opened Wrappers

  type Escape = string -> string

  function Decimal(n: nat): (s: string)
    ensures forall i :: 0 <= i < |s| ==> '0' <= s[i] <= '9'
  {
    if n < 10 then ['0' + n as char] else Decimal(n / 10) + ['0' + (n % 10) as char]
  }

  function DataAttributes(d: Detected, escape: Escape): string {
    "data-file-path=\"" + escape(d.filePath) + "\""
    + (if d.line.Some? then " data-line=\"" + Decimal(d.line.value) + "\"" else "")
    + (if d.column.Some? then " data-column=\"" + Decimal(d.column.value) + "\"" else "")
  }

  function SegmentHtml(segment: Segment, escape: Escape): string {
    match segment
    case Text(content) => escape(content)
    case Path(d) => "<a class=\"file-link\" " + DataAttributes(d, escape) + ">" + escape(d.match_) + "</a>"
  }

  function Html(segments: seq<Segment>, escape: Escape): string {
    if segments == [] then "" else SegmentHtml(segments[0], escape) + Html(segments[1..], escape)
  }

  function TransformFilePathsToHtml(text: string, escape: Escape): string {
    Html(Split(text), escape)
  }

  // ---- Erasing the tags ----

  /** The text outside the tags; `inTag` says whether a tag is open at the start. */
  function Erase(html: string, inTag: bool): string {
    if html == "" then ""
    else if inTag then Erase(html[1..], html[0] != '>')
    else if html[0] == '<' then Erase(html[1..], true)
    else [html[0]] + Erase(html[1..], false)
  }

  predicate Free(s: string, c: char) {
    forall i :: 0 <= i < |s| ==> s[i] != c
  }

  /** Escaping goes character by character, and its output has no angle brackets. */
  ghost predicate Escapes(escape: Escape) {
    && (forall a, b :: escape(a + b) == escape(a) + escape(b))
    && (forall s :: Free(escape(s), '<') && Free(escape(s), '>'))
  }

  lemma {:induction false} EraseText(text: string, rest: string)
    requires Free(text, '<')
    ensures Erase(text + rest, false) == text + Erase(rest, false)
  {
    if text == "" {
      assert text + rest == rest;
    } else {
      EraseText(text[1..], rest);
      assert (text + rest)[0] == text[0] && (text + rest)[1..] == text[1..] + rest;
      assert [text[0]] + (text[1..] + Erase(rest, false)) == text + Erase(rest, false);
    }
  }

  /** An open tag runs to its first closing bracket. */
  lemma {:induction false} EraseTag(s: string, n: nat)
    requires n < |s| && s[n] == '>' && Free(s[..n], '>')
    ensures Erase(s, true) == Erase(s[n + 1..], false)
  {
    if n > 0 {
      assert s[0] == s[..n][0] && s[1..][..n - 1] == s[..n][1..];
      EraseTag(s[1..], n - 1);
    }
  }

  lemma FreeConcat(a: string, b: string, c: char)
    requires Free(a, c) && Free(b, c)
    ensures Free(a + b, c)
  {
  }

  lemma QuotedFree(name: string, value: string)
    requires Free(name, '>') && Free(value, '>')
    ensures Free(name + value + "\"", '>')
  {
    FreeConcat(name, value, '>');
    FreeConcat(name + value, "\"", '>');
  }

  lemma AttributesFree(d: Detected, escape: Escape)
    requires Free(escape(d.filePath), '>')
    ensures Free(DataAttributes(d, escape), '>')
  {
    var path := "data-file-path=\"" + escape(d.filePath) + "\"";
    var line := if d.line.Some? then " data-line=\"" + Decimal(d.line.value) + "\"" else "";
    var column := if d.column.Some? then " data-column=\"" + Decimal(d.column.value) + "\"" else "";
    QuotedFree("data-file-path=\"", escape(d.filePath));
    if d.line.Some? {
      QuotedFree(" data-line=\"", Decimal(d.line.value));
    }
    if d.column.Some? {
      QuotedFree(" data-column=\"", Decimal(d.column.value));
    }
    FreeConcat(path, line, '>');
    FreeConcat(path + line, column, '>');
  }

  lemma EraseClosing(rest: string)
    ensures Erase("</a>" + rest, false) == Erase(rest, false)
  {
    var s := "</a>" + rest;
    assert s[1..][2] == '>' && s[1..][..2] == "/a" && s[1..][3..] == rest;
    EraseTag(s[1..], 2);
  }

  lemma EraseAnchor(attributes: string, caption: string, rest: string)
    requires Free(attributes, '>') && Free(caption, '<')
    ensures Erase("<a class=\"file-link\" " + attributes + ">" + caption + "</a>" + rest, false) ==
      caption + Erase(rest, false)
  {
    var head := "<a class=\"file-link\" " + attributes;
    var s := head + ">" + caption + "</a>" + rest;
    var remainder := caption + ("</a>" + rest);
    assert s == head + (">" + remainder);
    FreeConcat("<a class=\"file-link\" ", attributes, '>');
    EraseHead(head, remainder);
    EraseText(caption, "</a>" + rest);
    EraseClosing(rest);
  }

  lemma EraseHead(head: string, remainder: string)
    requires head != "" && head[0] == '<' && Free(head, '>')
    ensures Erase(head + (">" + remainder), false) == Erase(remainder, false)
  {
    var s := head + (">" + remainder);
    assert s[0] == '<' && s[1..][|head| - 1] == '>';
    assert s[1..][..|head| - 1] == head[1..] && s[1..][|head|..] == remainder;
    EraseTag(s[1..], |head| - 1);
  }

  lemma ErasePath(d: Detected, escape: Escape, rest: string)
    requires Free(escape(d.filePath), '>') && Free(escape(d.match_), '<')
    ensures Erase(SegmentHtml(Path(d), escape) + rest, false) == escape(d.match_) + Erase(rest, false)
  {
    AttributesFree(d, escape);
    EraseAnchor(DataAttributes(d, escape), escape(d.match_), rest);
  }

  lemma EmptyStaysEmpty(escape: Escape)
    requires Escapes(escape)
    ensures escape("") == ""
  {
    var none: string := "";
    assert none + none == none;
    assert |escape(none + none)| == |escape(none)| + |escape(none)|;
  }

  lemma {:induction false} EraseSegments(segments: seq<Segment>, escape: Escape)
    requires Escapes(escape)
    ensures Erase(Html(segments, escape), false) == escape(Contents(segments))
  {
    if segments == [] {
      EmptyStaysEmpty(escape);
    } else {
      var rest := segments[1..];
      EraseSegments(rest, escape);
      match segments[0]
      case Text(content) => EraseText(escape(content), Html(rest, escape));
      case Path(d) => ErasePath(d, escape, Html(rest, escape));
    }
  }

  /** Without its tags the marked-up text is the escaped text. */
  lemma LinksLoseNoText(text: string, escape: Escape)
    requires Escapes(escape)
    ensures Erase(TransformFilePathsToHtml(text, escape), false) == escape(text)
  {
    EraseSegments(Split(text), escape);
    NoTextLost(text);
  }

  // ---- The server's escaping ----

  /** `replace(/c/g, entity)` */
  function Replaced(s: string, c: char, entity: string): string {
    if s == "" then "" else (if s[0] == c then entity else [s[0]]) + Replaced(s[1..], c, entity)
  }

  function EscapeHtml(s: string): string {
    Replaced(
      Replaced(Replaced(Replaced(Replaced(s, '&', "&amp;"), '<', "&lt;"), '>', "&gt;"), '"', "&quot;"), '\'', "&#039;")
  }

  lemma {:induction false} ReplacedConcat(a: string, b: string, c: char, entity: string)
    ensures Replaced(a + b, c, entity) == Replaced(a, c, entity) + Replaced(b, c, entity)
  {
    if a == "" {
      assert a + b == b;
    } else {
      ReplacedConcat(a[1..], b, c, entity);
      assert (a + b)[0] == a[0] && (a + b)[1..] == a[1..] + b;
      var head := if a[0] == c then entity else [a[0]];
      Joined(head, Replaced(a[1..], c, entity), Replaced(b, c, entity));
    }
  }

  lemma {:induction false} ReplacedFree(s: string, c: char, entity: string, x: char)
    requires Free(entity, x) && (x == c || Free(s, x))
    ensures Free(Replaced(s, c, entity), x)
  {
    if s != "" {
      assert x == c || Free(s[1..], x);
      ReplacedFree(s[1..], c, entity, x);
    }
  }

  lemma EscapeHtmlConcat(a: string, b: string)
    ensures EscapeHtml(a + b) == EscapeHtml(a) + EscapeHtml(b)
  {
    ReplacedConcat(a, b, '&', "&amp;");
    var a1, b1 := Replaced(a, '&', "&amp;"), Replaced(b, '&', "&amp;");
    ReplacedConcat(a1, b1, '<', "&lt;");
    var a2, b2 := Replaced(a1, '<', "&lt;"), Replaced(b1, '<', "&lt;");
    ReplacedConcat(a2, b2, '>', "&gt;");
    var a3, b3 := Replaced(a2, '>', "&gt;"), Replaced(b2, '>', "&gt;");
    ReplacedConcat(a3, b3, '"', "&quot;");
    ReplacedConcat(Replaced(a3, '"', "&quot;"), Replaced(b3, '"', "&quot;"), '\'', "&#039;");
  }

  /** No character that could end a text or an attribute value is left. */
  lemma EscapeHtmlFree(s: string)
    ensures Free(EscapeHtml(s), '<') && Free(EscapeHtml(s), '>')
    ensures Free(EscapeHtml(s), '"') && Free(EscapeHtml(s), '\'')
  {
    var s1 := Replaced(s, '&', "&amp;");
    var s2 := Replaced(s1, '<', "&lt;");
    var s3 := Replaced(s2, '>', "&gt;");
    var s4 := Replaced(s3, '"', "&quot;");
    ReplacedFree(s1, '<', "&lt;", '<');
    ReplacedFree(s2, '>', "&gt;", '<');
    ReplacedFree(s2, '>', "&gt;", '>');
    ReplacedFree(s3, '"', "&quot;", '<');
    ReplacedFree(s3, '"', "&quot;", '>');
    ReplacedFree(s3, '"', "&quot;", '"');
    ReplacedFree(s4, '\'', "&#039;", '<');
    ReplacedFree(s4, '\'', "&#039;", '>');
    ReplacedFree(s4, '\'', "&#039;", '"');
    ReplacedFree(s4, '\'', "&#039;", '\'');
  }

  /** The server's escaping function meets the assumption, so its links lose no text. */
  lemma ServerLinksLoseNoText(text: string)
    ensures Erase(TransformFilePathsToHtml(text, EscapeHtml), false) == EscapeHtml(text)
  {
    forall a, b ensures EscapeHtml(a + b) == EscapeHtml(a) + EscapeHtml(b) {
      EscapeHtmlConcat(a, b);
    }
    forall s ensures Free(EscapeHtml(s), '<') && Free(EscapeHtml(s), '>') {
      EscapeHtmlFree(s);
    }
    LinksLoseNoText(text, EscapeHtml);
  }
}
