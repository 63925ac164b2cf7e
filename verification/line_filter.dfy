/** Forwarding a child process's output line by line (scripts/dev.js, `forwardWithLineFilter`). */
module LineFilter {
  /** The complete lines of a text, and the part after its last newline. */
  datatype Parts = Parts(lines: seq<string>, rest: string)

  function AddChar(c: char, p: Parts): Parts {
    if p.lines == [] then Parts([], [c] + p.rest) else Parts([[c] + p.lines[0]] + p.lines[1..], p.rest)
  }

  function AddLines(lines: seq<string>, p: Parts): Parts {
    Parts(lines + p.lines, p.rest)
  }

  /** `split` at every newline, each taken with a carriage return before it; the last piece is popped off. */
  function Split(s: string): Parts {
    if s == "" then Parts([], "")
    else if s[0] == '\n' then AddLines([""], Split(s[1..]))
    else if s[0] == '\r' && |s| > 1 && s[1] == '\n' then AddLines([""], Split(s[2..]))
    else AddChar(s[0], Split(s[1..]))
  }

  function Written(lines: seq<string>, suppress: string -> bool): string {
    if lines == [] then ""
    else if suppress(lines[0]) then Written(lines[1..], suppress)
    else lines[0] + "\n" + Written(lines[1..], suppress)
  }

  function WrittenAtEnd(rest: string, suppress: string -> bool): string {
    if rest != "" && !suppress(rest) then rest else ""
  }

  /** What the filter should make of a whole stream. */
  function Filtered(s: string, suppress: string -> bool): string {
    Written(Split(s).lines, suppress) + WrittenAtEnd(Split(s).rest, suppress)
  }

  datatype State = State(buffered: string, output: string)

  function AfterData(st: State, chunk: string, suppress: string -> bool): State {
    var parts := Split(st.buffered + chunk);
    State(parts.rest, st.output + Written(parts.lines, suppress))
  }

  function AfterEnd(st: State, suppress: string -> bool): State {
    st.(output := st.output + WrittenAtEnd(st.buffered, suppress))
  }

  function AfterChunks(st: State, chunks: seq<string>, suppress: string -> bool): State
    decreases |chunks|
  {
    if chunks == [] then st else AfterChunks(AfterData(st, chunks[0], suppress), chunks[1..], suppress)
  }

  function Joined(chunks: seq<string>): string {
    if chunks == [] then "" else chunks[0] + Joined(chunks[1..])
  }

  lemma Assoc(a: string, b: string, c: string)
    ensures (a + b) + c == a + (b + c)
  {
  }

  lemma WrittenStep(lines: seq<string>, i: nat, suppress: string -> bool)
    requires i < |lines|
    ensures Written(lines[i..], suppress) ==
      if suppress(lines[i]) then Written(lines[i + 1..], suppress)
      else lines[i] + "\n" + Written(lines[i + 1..], suppress)
  {
    assert lines[i..][1..] == lines[i + 1..];
  }

  class Forwarder {
    var buffered: string
    var output: string
    const suppress: string -> bool

    constructor (suppress: string -> bool)
      ensures this.suppress == suppress && View() == State("", "")
    {
      this.suppress := suppress;
      buffered, output := "", "";
    }

    ghost function View(): State
      reads this
    {
      State(buffered, output)
    }

    method OnData(chunk: string)
      modifies this
      ensures View() == AfterData(old(View()), chunk, suppress)
    {
      buffered := buffered + chunk;
      var parts := Split(buffered);
      var lines := parts.lines;
      buffered := parts.rest;
      ghost var all := output + Written(lines, suppress);
      assert lines[0..] == lines;
      for i := 0 to |lines|
        invariant buffered == parts.rest
        invariant all == output + Written(lines[i..], suppress)
      {
        WrittenStep(lines, i, suppress);
        if !suppress(lines[i]) {
          Assoc(output, lines[i] + "\n", Written(lines[i + 1..], suppress));
          output := output + (lines[i] + "\n");
        }
      }
      assert output + "" == output;
    }

    method OnEnd()
      modifies this
      ensures View() == AfterEnd(old(View()), suppress)
    {
      if buffered != "" && !suppress(buffered) {
        output := output + buffered;
      }
    }
  }

  // ---- The lines ----

  /** Where the stream is cut: at newlines only. */
  function Cut(s: string): Parts {
    if s == "" then Parts([], "")
    else if s[0] == '\n' then AddLines([""], Cut(s[1..]))
    else AddChar(s[0], Cut(s[1..]))
  }

  function DropReturn(line: string): string {
    if line != "" && line[|line| - 1] == '\r' then line[..|line| - 1] else line
  }

  /** Every complete line loses one final carriage return. */
  function Trimmed(lines: seq<string>): seq<string> {
    if lines == [] then [] else [DropReturn(lines[0])] + Trimmed(lines[1..])
  }

  /** The first complete line ends at the first newline. */
  lemma {:induction false} CutFirst(s: string)
    ensures Cut(s).lines == [] <==> '\n' !in s
    ensures Cut(s).lines != [] ==> (Cut(s).lines[0] == "" <==> s[0] == '\n')
  {
    if s != "" && s[0] != '\n' {
      CutFirst(s[1..]);
      assert s == [s[0]] + s[1..];
    }
  }

  lemma DropReturnHead(c: char, line: string)
    requires line != "" || c != '\r'
    ensures DropReturn([c] + line) == [c] + DropReturn(line)
  {
  }

  /** The lines are the pieces before the newlines, without a carriage return at their end. */
  lemma {:induction false} SplitIsTrimmedCut(s: string)
    ensures Split(s) == Parts(Trimmed(Cut(s).lines), Cut(s).rest)
    decreases |s|
  {
    if s == "" {
    } else if s[0] == '\n' {
      SplitIsTrimmedCut(s[1..]);
      assert Cut(s).lines[1..] == Cut(s[1..]).lines;
    } else if s[0] == '\r' && |s| > 1 && s[1] == '\n' {
      SplitIsTrimmedCut(s[2..]);
      assert s[1..][1..] == s[2..];
      assert Cut(s[1..]).lines == [""] + Cut(s[2..]).lines;
      assert ['\r'] + "" == "\r";
      assert Cut(s).lines == ["\r"] + Cut(s[2..]).lines;
      assert Cut(s).lines[1..] == Cut(s[2..]).lines;
    } else {
      SplitIsTrimmedCut(s[1..]);
      CutFirst(s[1..]);
      var p := Cut(s[1..]);
      if p.lines != [] {
        DropReturnHead(s[0], p.lines[0]);
        assert Cut(s).lines == [[s[0]] + p.lines[0]] + p.lines[1..];
        assert Trimmed(p.lines) == [DropReturn(p.lines[0])] + Trimmed(p.lines[1..]);
      }
    }
  }

  // ---- Independence of the chunks ----

  /** Without a complete line the partial line is everything. */
  lemma {:induction false} NoLines(s: string)
    requires Split(s).lines == []
    ensures Split(s).rest == s
  {
    if s != "" {
      NoLines(s[1..]);
      assert s == [s[0]] + s[1..];
    }
  }

  lemma AddCharLines(c: char, lines: seq<string>, p: Parts)
    requires lines != []
    ensures AddChar(c, AddLines(lines, p)) == AddLines([[c] + lines[0]] + lines[1..], p)
  {
    assert (lines + p.lines)[1..] == lines[1..] + p.lines;
    assert [[c] + lines[0]] + (lines[1..] + p.lines) == [[c] + lines[0]] + lines[1..] + p.lines;
  }

  lemma AddLinesTwice(a: seq<string>, b: seq<string>, p: Parts)
    ensures AddLines(a, AddLines(b, p)) == AddLines(a + b, p)
  {
    assert a + (b + p.lines) == a + b + p.lines;
  }

  predicate StartsWithNewline(s: string, n: nat) {
    || (n == 1 && |s| > 0 && s[0] == '\n')
    || (n == 2 && |s| > 1 && s[0] == '\r' && s[1] == '\n')
  }

  lemma SplitAtNewline(s: string, n: nat)
    requires StartsWithNewline(s, n)
    ensures Split(s) == AddLines([""], Split(s[n..]))
  {
  }

  lemma NewlineAppend(a: string, n: nat, b: string)
    requires StartsWithNewline(a, n)
    requires Split(a[n..] + b) == AddLines(Split(a[n..]).lines, Split(Split(a[n..]).rest + b))
    ensures Split(a + b) == AddLines(Split(a).lines, Split(Split(a).rest + b))
  {
    hide Split;
    assert (a + b)[n..] == a[n..] + b;
    SplitAtNewline(a, n);
    SplitAtNewline(a + b, n);
    AddLinesTwice([""], Split(a[n..]).lines, Split(Split(a[n..]).rest + b));
  }

  /** Appending to a stream leaves its complete lines alone and continues its partial line. */
  lemma {:induction false} SplitAppend(a: string, b: string)
    ensures Split(a + b) == AddLines(Split(a).lines, Split(Split(a).rest + b))
    decreases |a|
  {
    if a == "" || a == "\r" {
      ShortAppend(a, b);
    } else {
      var n := if StartsWithNewline(a, 2) then 2 else 1;
      SplitAppend(a[n..], b);
      if StartsWithNewline(a, n) {
        NewlineAppend(a, n, b);
      } else {
        HeadAppend(a, b);
      }
    }
  }

  lemma ShortAppend(a: string, b: string)
    requires a == "" || a == "\r"
    ensures Split(a) == Parts([], a)
    ensures Split(a + b) == AddLines(Split(a).lines, Split(Split(a).rest + b))
  {
    if a == "\r" {
      assert a[1..] == "";
      assert AddChar('\r', Parts([], "")) == Parts([], "\r");
    }
    assert AddLines([], Split(a + b)) == Split(a + b);
  }

  lemma HeadAppend(a: string, b: string)
    requires a != "" && a != "\r" && a[0] != '\n' && (a[0] == '\r' ==> a[1] != '\n')
    requires Split(a[1..] + b) == AddLines(Split(a[1..]).lines, Split(Split(a[1..]).rest + b))
    ensures Split(a + b) == AddLines(Split(a).lines, Split(Split(a).rest + b))
  {
    assert (a + b)[1..] == a[1..] + b;
    var p := Split(a[1..]);
    if p.lines == [] {
      NoLines(a[1..]);
      NoLines(a);
      assert AddLines([], Split(a + b)) == Split(a + b);
    } else {
      AddCharLines(a[0], p.lines, Split(p.rest + b));
    }
  }

  lemma {:induction false} WrittenConcat(a: seq<string>, b: seq<string>, suppress: string -> bool)
    ensures Written(a + b, suppress) == Written(a, suppress) + Written(b, suppress)
  {
    if a == [] {
      assert a + b == b;
    } else {
      WrittenConcat(a[1..], b, suppress);
      assert (a + b)[1..] == a[1..] + b && (a + b)[0] == a[0];
      Assoc(a[0] + "\n", Written(a[1..], suppress), Written(b, suppress));
    }
  }

  /** Filtering can stop after any part of the stream, and go on with its partial line. */
  lemma FilteredAppend(a: string, b: string, suppress: string -> bool)
    ensures Filtered(a + b, suppress) == Written(Split(a).lines, suppress) + Filtered(Split(a).rest + b, suppress)
  {
    SplitAppend(a, b);
    var p := Split(Split(a).rest + b);
    WrittenConcat(Split(a).lines, p.lines, suppress);
    Assoc(Written(Split(a).lines, suppress), Written(p.lines, suppress), WrittenAtEnd(p.rest, suppress));
  }

  lemma RestHasNoLines(s: string)
    ensures Split(Split(s).rest).lines == []
  {
    SplitAppend(s, "");
    assert s + "" == s && Split(s).rest + "" == Split(s).rest;
    var p := Split(Split(s).rest);
    assert |Split(s).lines| == |Split(s).lines| + |p.lines|;
  }

  lemma {:induction false} ChunksFrom(st: State, chunks: seq<string>, suppress: string -> bool)
    requires Split(st.buffered).lines == []
    ensures AfterEnd(AfterChunks(st, chunks, suppress), suppress).output ==
      st.output + Filtered(st.buffered + Joined(chunks), suppress)
    decreases |chunks|
  {
    if chunks == [] {
      assert st.buffered + "" == st.buffered;
      NoLines(st.buffered);
      assert "" + WrittenAtEnd(st.buffered, suppress) == WrittenAtEnd(st.buffered, suppress);
    } else {
      var a, b := st.buffered + chunks[0], Joined(chunks[1..]);
      RestHasNoLines(a);
      ChunksFrom(AfterData(st, chunks[0], suppress), chunks[1..], suppress);
      FilteredAppend(a, b, suppress);
      Assoc(st.buffered, chunks[0], b);
      Assoc(st.output, Written(Split(a).lines, suppress), Filtered(Split(a).rest + b, suppress));
    }
  }

  /** However the stream is cut into chunks, the output is that of the whole stream at once. */
  lemma ChunksDoNotMatter(chunks: seq<string>, suppress: string -> bool)
    ensures AfterEnd(AfterChunks(State("", ""), chunks, suppress), suppress).output ==
      Filtered(Joined(chunks), suppress)
  {
    ChunksFrom(State("", ""), chunks, suppress);
    assert "" + Joined(chunks) == Joined(chunks);
    assert "" + Filtered(Joined(chunks), suppress) == Filtered(Joined(chunks), suppress);
  }

  // ---- What the output is ----

  /** A line as it is sent: its text, and whether a carriage return comes before the newline. */
  datatype Sent = Sent(text: string, withReturn: bool)

  function StreamOf(lines: seq<Sent>, last: string): string {
    if lines == [] then last
    else lines[0].text + (if lines[0].withReturn then "\r\n" else "\n") + StreamOf(lines[1..], last)
  }

  /** The text is not ended early by a newline, nor does it end in a return that would count as part of its newline. */
  predicate IsLine(line: Sent) {
    '\n' !in line.text && (line.withReturn || line.text == "" || line.text[|line.text| - 1] != '\r')
  }

  /** The texts of the lines that are not suppressed, in order. */
  function Kept(lines: seq<Sent>, suppress: string -> bool): seq<string> {
    if lines == [] then []
    else if suppress(lines[0].text) then Kept(lines[1..], suppress)
    else [lines[0].text] + Kept(lines[1..], suppress)
  }

  /** Every text with a newline after it. */
  function WithNewlines(texts: seq<string>): string {
    if texts == [] then "" else texts[0] + "\n" + WithNewlines(texts[1..])
  }

  lemma {:induction false} SplitLine(text: string, end: string, rest: string)
    requires '\n' !in text && (end == "\r\n" || (end == "\n" && (text == "" || text[|text| - 1] != '\r')))
    ensures Split(text + (end + rest)) == AddLines([text], Split(rest))
  {
    if text == "" {
      assert text + (end + rest) == end + rest;
      assert (end + rest)[|end|..] == rest;
    } else {
      SplitLine(text[1..], end, rest);
      var s := text + (end + rest);
      assert s[1..] == text[1..] + (end + rest) && s[0] == text[0] && text[0] in text;
      assert s[0] == '\r' ==> s[1] != '\n' by {
        if |text| > 1 {
          assert s[1] == text[1] && text[1] in text;
        }
      }
      var p := Split(rest);
      assert text == [text[0]] + text[1..];
      assert ([text[1..]] + p.lines)[0] == text[1..] && ([text[1..]] + p.lines)[1..] == p.lines;
    }
  }

  lemma {:induction false} StreamSplit(lines: seq<Sent>, last: string)
    requires (forall i :: 0 <= i < |lines| ==> IsLine(lines[i])) && '\n' !in last
    ensures Split(StreamOf(lines, last)) == Parts(Texts(lines), last)
  {
    if lines == [] {
      NoNewlines(last);
    } else {
      var line, rest := lines[0], StreamOf(lines[1..], last);
      StreamSplit(lines[1..], last);
      var end := if line.withReturn then "\r\n" else "\n";
      SplitLine(line.text, end, rest);
      Assoc(line.text, end, rest);
    }
  }

  lemma {:induction false} NoNewlines(s: string)
    requires '\n' !in s
    ensures Split(s) == Parts([], s)
  {
    if s != "" {
      assert s[0] in s && (|s| > 1 ==> s[1] in s);
      NoNewlines(s[1..]);
      assert s == [s[0]] + s[1..];
    }
  }

  function Texts(lines: seq<Sent>): seq<string> {
    if lines == [] then [] else [lines[0].text] + Texts(lines[1..])
  }

  lemma {:induction false} WrittenIsKept(lines: seq<Sent>, suppress: string -> bool)
    ensures Written(Texts(lines), suppress) == WithNewlines(Kept(lines, suppress))
  {
    if lines != [] {
      WrittenIsKept(lines[1..], suppress);
      assert Texts(lines)[1..] == Texts(lines[1..]);
    }
  }

  /**
   * In whatever chunks a stream of lines and a last partial line arrives: the
   * output is the unsuppressed lines, each with a newline and without its
   * carriage return, and then the partial line as it is, unless it is
   * suppressed.
   */
  lemma OutputIsKeptLines(chunks: seq<string>, lines: seq<Sent>, last: string, suppress: string -> bool)
    requires (forall i :: 0 <= i < |lines| ==> IsLine(lines[i])) && '\n' !in last
    requires Joined(chunks) == StreamOf(lines, last)
    ensures AfterEnd(AfterChunks(State("", ""), chunks, suppress), suppress).output ==
      WithNewlines(Kept(lines, suppress)) + (if last == "" || suppress(last) then "" else last)
  {
    ChunksDoNotMatter(chunks, suppress);
    StreamSplit(lines, last);
    WrittenIsKept(lines, suppress);
  }

  /** Every stream is one of lines and a last partial line. */
  lemma {:induction false} EveryStream(s: string) returns (lines: seq<Sent>, last: string)
    ensures (forall i :: 0 <= i < |lines| ==> IsLine(lines[i])) && '\n' !in last && StreamOf(lines, last) == s
    decreases |s|
  {
    lines, last := [], "";
    if s != "" {
      if s[0] == '\n' {
        lines, last := EveryStream(s[1..]);
        Prefixed(Sent("", false), lines, last);
        lines := [Sent("", false)] + lines;
        assert s == "" + "\n" + s[1..];
      } else if |s| > 1 && s[0] == '\r' && s[1] == '\n' {
        lines, last := EveryStream(s[2..]);
        Prefixed(Sent("", true), lines, last);
        lines := [Sent("", true)] + lines;
        assert s == "" + "\r\n" + s[2..];
      } else {
        lines, last := EveryStream(s[1..]);
        assert s == [s[0]] + s[1..];
        if lines == [] {
          last := [s[0]] + last;
        } else {
          lines := LongerFirst(s[0], s[1..], lines, last);
        }
      }
    }
  }

  lemma Prefixed(line: Sent, lines: seq<Sent>, last: string)
    ensures StreamOf([line] + lines, last) ==
      line.text + (if line.withReturn then "\r\n" else "\n") + StreamOf(lines, last)
  {
    assert ([line] + lines)[1..] == lines;
  }

  /** One character more before the first line. */
  lemma LongerFirst(c: char, s: string, lines: seq<Sent>, last: string) returns (longer: seq<Sent>)
    requires lines != [] && (forall i :: 0 <= i < |lines| ==> IsLine(lines[i])) && StreamOf(lines, last) == s
    requires c != '\n' && (c == '\r' ==> s == "" || s[0] != '\n')
    ensures (forall i :: 0 <= i < |longer| ==> IsLine(longer[i])) && StreamOf(longer, last) == [c] + s
  {
    var first := Sent([c] + lines[0].text, lines[0].withReturn);
    longer := [first] + lines[1..];
    Prefixed(first, lines[1..], last);
    var end := if first.withReturn then "\r\n" else "\n";
    assert s == lines[0].text + end + StreamOf(lines[1..], last);
    assert [c] + s == [c] + lines[0].text + end + StreamOf(lines[1..], last);
    if lines[0].text == "" && !first.withReturn {
      assert s[0] == '\n';
    }
  }
}
