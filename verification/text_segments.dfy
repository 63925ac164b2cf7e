/** Splitting text at file paths, and marking them up as links (packages/shared/src/filePathDetection.ts). */
module TextSegments {
  import opened FilePathDetection
  import opened PathPatterns
  import opened Regex
  import opened Wrappers

  datatype Segment = Text(content: string) | Path(detected: Detected)

  /** The detected paths lie in the text in order, with at least one character between two of them. */
  ghost predicate Laid(text: string, ds: seq<Detected>, p: nat) {
    ds == [] ||
    (&& p <= ds[0].startIndex < ds[0].endIndex <= |text|
     && ds[0].match_ == text[ds[0].startIndex..ds[0].endIndex]
     && Laid(text, ds[1..], ds[0].endIndex + 1))
  }

  /** The detected paths' positions are positions of the text. */
  predicate Inside(text: string, ds: seq<Detected>) {
    ds == [] || (ds[0].startIndex <= |text| && ds[0].endIndex <= |text| && Inside(text, ds[1..]))
  }

  function TextBetween(text: string, from: nat, to: nat): seq<Segment>
    requires from <= |text| && to <= |text|
  {
    if to > from then [Text(text[from..to])] else []
  }

  function SegmentsFrom(text: string, ds: seq<Detected>, last: nat): seq<Segment>
    requires last <= |text|
    requires Inside(text, ds)
  {
    if ds == [] then TextBetween(text, last, |text|)
    else TextBetween(text, last, ds[0].startIndex) + [Path(ds[0])] + SegmentsFrom(text, ds[1..], ds[0].endIndex)
  }

  lemma LaidEarlier(text: string, ds: seq<Detected>, p: nat, q: nat)
    requires Laid(text, ds, p) && q <= p
    ensures Laid(text, ds, q)
  {
  }

  lemma LaidHead(text: string, p: nat, e: nat)
    requires p <= |text| && p < e == TokenEnd(text, p)
    requires e < |text| ==> Laid(text, PathsFrom(text, e), e + 1)
    ensures Laid(text, [DetectedAt(text, p, e)] + PathsFrom(text, e), p) && Laid(text, [] + PathsFrom(text, e), p)
  {
    var rest := PathsFrom(text, e);
    assert ([DetectedAt(text, p, e)] + rest)[1..] == rest && [] + rest == rest;
    if e == |text| {
      assert rest == [];
    } else {
      LaidEarlier(text, rest, e + 1, p);
    }
  }

  /** Detected paths never touch: white space lies between two of them. */
  lemma {:induction false} PathsAreLaid(text: string, p: nat)
    requires Between(text, p)
    ensures Laid(text, PathsFrom(text, p), p)
    decreases |text| - p
  {
    if p < |text| {
      if IsSpace(text[p]) {
        PathsAreLaid(text, p + 1);
        SkipSpace(text, p);
        LaidEarlier(text, PathsFrom(text, p), p + 1, p);
      } else {
        var e := TokenEnd(text, p);
        if e < |text| {
          PathsAreLaid(text, e + 1);
          SkipSpace(text, e);
        }
        LaidHead(text, p, e);
        PlausibleHead(text, p);
      }
    }
  }

  lemma {:induction false} LaidInside(text: string, ds: seq<Detected>, p: nat)
    requires Laid(text, ds, p)
    ensures Inside(text, ds)
  {
    if ds != [] {
      LaidInside(text, ds[1..], ds[0].endIndex + 1);
    }
  }

  function Split(text: string): seq<Segment> {
    PathsAreLaid(text, 0);
    LaidInside(text, PathsFrom(text, 0), 0);
    if PathsFrom(text, 0) == [] then [Text(text)] else SegmentsFrom(text, PathsFrom(text, 0), 0)
  }

  lemma Joined<T>(a: seq<T>, b: seq<T>, c: seq<T>)
    ensures a + (b + c) == (a + b) + c
  {
  }

  lemma SegmentsStep(text: string, ds: seq<Detected>, i: nat, last: nat, segments: seq<Segment>)
    requires i < |ds| && last <= |text| && Inside(text, ds[i..])
    ensures Inside(text, ds[i + 1..]) && ds[i].startIndex <= |text| && ds[i].endIndex <= |text|
    ensures segments + SegmentsFrom(text, ds[i..], last) ==
      segments + TextBetween(text, last, ds[i].startIndex) + [Path(ds[i])]
      + SegmentsFrom(text, ds[i + 1..], ds[i].endIndex)
  {
    assert ds[i..][1..] == ds[i + 1..];
    var between, rest := TextBetween(text, last, ds[i].startIndex), SegmentsFrom(text, ds[i + 1..], ds[i].endIndex);
    Joined(segments, between + [Path(ds[i])], rest);
    Joined(segments, between, [Path(ds[i])]);
  }

  method SplitTextWithFilePaths(text: string) returns (segments: seq<Segment>)
    ensures segments == Split(text)
  {
    var detected := DetectFilePaths(text);
    if |detected| == 0 {
      return [Text(text)];
    }
    PathsAreLaid(text, 0);
    LaidInside(text, detected, 0);
    segments := SplitAt(text, detected);
  }

  /** The loop over the detected paths. */
  method SplitAt(text: string, detected: seq<Detected>) returns (segments: seq<Segment>)
    requires Inside(text, detected)
    ensures segments == SegmentsFrom(text, detected, 0)
  {
    segments := [];
    var lastIndex: nat := 0;
    assert detected[0..] == detected;
    ghost var all := SegmentsFrom(text, detected, 0);
    for i := 0 to |detected|
      invariant lastIndex <= |text| && Inside(text, detected[i..])
      invariant segments + SegmentsFrom(text, detected[i..], lastIndex) == all
    {
      var fp := detected[i];
      SegmentsStep(text, detected, i, lastIndex, segments);
      if fp.startIndex > lastIndex {
        segments := segments + [Text(text[lastIndex..fp.startIndex])];
      } else {
        assert segments + [] == segments;
      }
      segments := segments + [Path(fp)];
      lastIndex := fp.endIndex;
    }
    assert text[lastIndex..] == text[lastIndex..|text|];
    if lastIndex < |text| {
      segments := segments + [Text(text[lastIndex..])];
    } else {
      assert segments + [] == segments;
    }
  }

  // ---- No text is lost ----

  function ContentOf(segment: Segment): string {
    match segment
    case Text(content) => content
    case Path(d) => d.match_
  }

  function Contents(segments: seq<Segment>): string {
    if segments == [] then "" else ContentOf(segments[0]) + Contents(segments[1..])
  }

  lemma {:induction false} ContentsConcat(a: seq<Segment>, b: seq<Segment>)
    ensures Contents(a + b) == Contents(a) + Contents(b)
  {
    if a == [] {
      assert a + b == b;
    } else {
      ContentsConcat(a[1..], b);
      assert (a + b)[1..] == a[1..] + b && (a + b)[0] == a[0];
      Joined(ContentOf(a[0]), Contents(a[1..]), Contents(b));
    }
  }

  lemma {:induction false} SegmentsContents(text: string, ds: seq<Detected>, last: nat, p: nat)
    requires Laid(text, ds, p) && last <= p && last <= |text|
    requires Inside(text, ds)
    ensures Contents(SegmentsFrom(text, ds, last)) == text[last..]
  {
    if ds == [] {
      if last < |text| {
        OneText(text[last..]);
        assert text[last..|text|] == text[last..];
      }
    } else {
      SegmentsContents(text, ds[1..], ds[0].endIndex, ds[0].endIndex + 1);
      HeadContents(text, last, ds[0], SegmentsFrom(text, ds[1..], ds[0].endIndex));
    }
  }

  lemma HeadContents(text: string, last: nat, d: Detected, rest: seq<Segment>)
    requires last <= d.startIndex < d.endIndex <= |text| && d.match_ == text[d.startIndex..d.endIndex]
    requires Contents(rest) == text[d.endIndex..]
    ensures Contents(TextBetween(text, last, d.startIndex) + [Path(d)] + rest) == text[last..]
  {
    BetweenContents(text, last, d);
    ContentsConcat(TextBetween(text, last, d.startIndex) + [Path(d)], rest);
    assert text[last..] == text[last..d.endIndex] + text[d.endIndex..];
  }

  lemma OneText(content: string)
    ensures Contents([Text(content)]) == content
  {
    assert [Text(content)][1..] == [];
    assert content + "" == content;
  }

  lemma OnePath(d: Detected)
    ensures Contents([Path(d)]) == d.match_
  {
    assert [Path(d)][1..] == [];
    assert d.match_ + "" == d.match_;
  }

  lemma BetweenContents(text: string, last: nat, d: Detected)
    requires last <= d.startIndex < d.endIndex <= |text| && d.match_ == text[d.startIndex..d.endIndex]
    ensures Contents(TextBetween(text, last, d.startIndex) + [Path(d)]) == text[last..d.endIndex]
  {
    ContentsConcat(TextBetween(text, last, d.startIndex), [Path(d)]);
    OnePath(d);
    TextContents(text, last, d.startIndex);
    SliceSplit(text, last, d.startIndex, d.endIndex);
  }

  lemma TextContents(text: string, from: nat, to: nat)
    requires from <= to <= |text|
    ensures Contents(TextBetween(text, from, to)) == text[from..to]
  {
    if from < to {
      OneText(text[from..to]);
    }
  }

  lemma SliceSplit(text: string, i: nat, j: nat, k: nat)
    requires i <= j <= k <= |text|
    ensures text[i..k] == text[i..j] + text[j..k]
  {
  }

  /** The segments together are the text. */
  lemma NoTextLost(text: string)
    ensures Contents(Split(text)) == text
  {
    PathsAreLaid(text, 0);
    LaidInside(text, PathsFrom(text, 0), 0);
    OneText(text);
    SegmentsContents(text, PathsFrom(text, 0), 0, 0);
    assert text[0..] == text;
  }

  function PathsOf(segments: seq<Segment>): seq<Detected> {
    if segments == [] then []
    else if segments[0].Path? then [segments[0].detected] + PathsOf(segments[1..])
    else PathsOf(segments[1..])
  }

  /** Paths and non-empty texts take turns. */
  ghost predicate Alternate(segments: seq<Segment>) {
    && (forall i :: 0 <= i < |segments| && segments[i].Text? ==> segments[i].content != "")
    && (forall i :: 0 <= i < |segments| - 1 ==> (segments[i].Path? <==> segments[i + 1].Text?))
  }

  lemma AlternateHead(segment: Segment, rest: seq<Segment>)
    requires Alternate(rest) && (segment.Text? ==> segment.content != "")
    requires rest != [] ==> (segment.Path? <==> rest[0].Text?)
    ensures Alternate([segment] + rest)
  {
    var all := [segment] + rest;
    forall i | 0 <= i < |all| - 1 ensures all[i].Path? <==> all[i + 1].Text? {
      if i > 0 {
        assert all[i] == rest[i - 1] && all[i + 1] == rest[i];
      }
    }
  }

  /** From the end of a path on, the segments begin with a text. */
  lemma {:induction false} SegmentsAlternate(text: string, ds: seq<Detected>, last: nat, p: nat)
    requires Laid(text, ds, p) && last <= p && last <= |text|
    requires Inside(text, ds)
    ensures var segments := SegmentsFrom(text, ds, last);
      && Alternate(segments) && PathsOf(segments) == ds
      && (last < p && segments != [] ==> segments[0].Text?)
  {
    if ds != [] {
      var d, rest := ds[0], SegmentsFrom(text, ds[1..], ds[0].endIndex);
      SegmentsAlternate(text, ds[1..], d.endIndex, d.endIndex + 1);
      AlternateHead(Path(d), rest);
      assert ([Path(d)] + rest)[1..] == rest;
      if d.startIndex > last {
        var first := Text(text[last..d.startIndex]);
        AlternateHead(first, [Path(d)] + rest);
        assert ([first] + ([Path(d)] + rest))[1..] == [Path(d)] + rest;
        assert SegmentsFrom(text, ds, last) == [first] + ([Path(d)] + rest);
      } else {
        assert SegmentsFrom(text, ds, last) == [Path(d)] + rest;
      }
    }
  }

  /** The path segments are the detected paths in order, with non-empty text between any two. */
  lemma PathsAreSeparated(text: string)
    ensures PathsOf(Split(text)) == PathsFrom(text, 0)
    ensures text != "" ==> Alternate(Split(text))
  {
    PathsAreLaid(text, 0);
    LaidInside(text, PathsFrom(text, 0), 0);
    SegmentsAlternate(text, PathsFrom(text, 0), 0, 0);
    assert [Text(text)][1..] == [];
  }
}
