/** Finding file paths in text and splitting it at them (packages/shared/src/filePathDetection.ts). */
module FilePathDetection {
  import opened Decimals
  import opened PathPatterns
  import opened Regex
  import opened Wrappers

  datatype Detected = Detected(
    match_: string, filePath: string, line: Option<nat>, column: Option<nat>, startIndex: nat, endIndex: nat)

  datatype Location = Location(path: string, line: Option<nat>, column: Option<nat>)

  // ---- Line and column ----

  predicate NoTerminators(s: string) {
    All(s, c => !IsTerminator(c))
  }

  /** The shortest non-empty prefix, of at least `k` characters, before a line suffix. */
  function LazyPrefix(s: string, k: nat): (r: Option<nat>)
    ensures r.Some? ==> k <= r.value <= |s| && NoTerminators(s[..r.value]) && In(Suffix(), s[r.value..])
    ensures r.Some? ==> forall j :: k <= j < r.value ==> !(NoTerminators(s[..j]) && In(Suffix(), s[j..]))
    ensures r.None? ==> forall j :: k <= j <= |s| ==> !(NoTerminators(s[..j]) && In(Suffix(), s[j..]))
    decreases |s| + 1 - k
  {
    if k > |s| then None
    else if NoTerminators(s[..k]) && In(Suffix(), s[k..]) then Some(k)
    else LazyPrefix(s, k + 1)
  }

  function DigitRun(s: string): (n: nat)
    ensures n <= |s| && All(s[..n], IsDigit)
  {
    if s != "" && IsDigit(s[0]) then 1 + DigitRun(s[1..]) else 0
  }

  function NumberOf(digits: string): nat
    requires All(digits, IsDigit)
  {
    if digits == "" then 0
    else NumberOf(digits[..|digits| - 1]) * 10 + (digits[|digits| - 1] as nat - '0' as nat)
  }

  /** The number is the one that the digits denote. */
  lemma {:induction false} NumberDenotes(digits: string)
    requires All(digits, IsDigit)
    ensures AreDigits(digits) && NumberOf(digits) == Denoted(digits)
  {
    if digits != "" {
      var front, last := digits[..|digits| - 1], digits[|digits| - 1];
      NumberDenotes(front);
      assert IsDigit(digits[|digits| - 1]);
      DenotedSnoc(front, last);
      assert front + [last] == digits;
    }
  }

  function ParseLineColumn(s: string): Location {
    var k := LazyPrefix(s, 1);
    if k.None? then Location(s, None, None)
    else
      var rest := s[k.value..];
      SuffixBegins(rest);
      var n := DigitRun(rest[1..]);
      var more := rest[1..][n..];
      var column :=
        if more == "" then None
        else Some(NumberOf(more[1..][..DigitRun(more[1..])]));
      Location(s[..k.value], Some(NumberOf(rest[1..][..n])), column)
  }

  /** The path that is linked. */
  function LinkedPath(s: string): string {
    ParseLineColumn(s).path
  }

  lemma PrefixTerminators(s: string, i: nat, j: nat)
    requires i <= j <= |s| && NoTerminators(s[..j])
    ensures NoTerminators(s[..i])
  {
    forall k | 0 <= k < i ensures !IsTerminator(s[..i][k]) {
      assert s[..i][k] == s[..j][k];
    }
  }

  /**
   * The checked path and the linked path agree exactly if there is no line
   * suffix, or there is text before it and no line terminator in that text.
   */
  lemma CheckedIsLinked(s: string)
    ensures CheckedPath(s) == LinkedPath(s) <==>
      var i := SuffixStart(s, 0); i.None? || (i.value > 0 && NoTerminators(s[..i.value]))
  {
    var i, k := SuffixStart(s, 0), LazyPrefix(s, 1);
    if i.Some? && k.Some? {
      if i.value > 0 {
        assert i.value <= k.value;
        PrefixTerminators(s, i.value, k.value);
        assert i.value == k.value;
      } else {
        assert |s[..k.value]| > 0;
      }
    }
    if i.Some? && k.None? {
      SuffixBegins(s[i.value..]);
      assert |s[..i.value]| < |s|;
    }
  }

  // ---- Tokens ----

  /** A maximal stretch without white space. */
  datatype Span = Span(from: nat, to: nat)

  predicate StartsToken(text: string, i: int) {
    0 <= i <= |text| && (i == 0 || IsSpace(text[i - 1]))
  }

  predicate EndsToken(text: string, j: int) {
    0 <= j <= |text| && (j == |text| || IsSpace(text[j]))
  }

  /** The pattern matches from `i` to `j`: its two lookarounds and what is between them. */
  predicate MatchesAt(text: string, i: int, j: int) {
    0 <= i <= j <= |text| && StartsToken(text, i) && IsPathToken(text[i..j]) && EndsToken(text, j)
  }

  lemma PathTokenChars(s: string)
    requires IsPathToken(s)
    ensures s != "" && s[0] != ':' && All(s, c => !IsSpace(c))
  {
    var path := if In(Then(DottedPath(), Opt(Suffix())), s) then DottedPath() else RootedPath();
    PathOver();
    PathThenSuffix(path, s);
  }

  lemma OptionalSuffixChars(s: string)
    requires In(Opt(Suffix()), s)
    ensures All(s, IsSuffixChar)
  {
    SuffixOver();
    assert In(Suffix(), s) || In(Empty, s);
    if s != "" {
      InOver(Suffix(), s, IsSuffixChar);
    }
  }

  lemma PathThenSuffix(path: Re, s: string)
    requires In(Then(path, Opt(Suffix())), s) && Over(path, IsPathChar) && Nonempty(path)
    ensures s != "" && s[0] != ':' && All(s, c => !IsSpace(c))
  {
    var k :| 0 <= k <= |s| && In(path, s[..k]) && In(Opt(Suffix()), s[k..]);
    InOver(path, s[..k], IsPathChar);
    InNonempty(path, s[..k]);
    assert s[..k][0] == s[0];
    OptionalSuffixChars(s[k..]);
    forall i | 0 <= i < |s| ensures !IsSpace(s[i]) {
      assert if i < k then IsPathChar(s[..k][i]) else IsSuffixChar(s[k..][i - k]);
      PathCharIsNoSpace(s[i]);
    }
  }

  lemma PathCharIsNoSpace(c: char)
    requires IsPathChar(c) || IsSuffixChar(c)
    ensures !IsSpace(c)
  {
  }

  function TokenEnd(text: string, i: nat): (j: nat)
    requires i <= |text|
    ensures i <= j <= |text| && EndsToken(text, j) && forall k :: i <= k < j ==> !IsSpace(text[k])
    decreases |text| - i
  {
    if i == |text| || IsSpace(text[i]) then i else TokenEnd(text, i + 1)
  }

  /** A match is a whole token, so its end is determined by its start. */
  lemma MatchIsToken(text: string, i: nat, j: nat)
    requires MatchesAt(text, i, j)
    ensures i < j == TokenEnd(text, i) && !IsSpace(text[i])
  {
    PathTokenChars(text[i..j]);
    assert forall k :: i <= k < j ==> text[k] == text[i..j][k - i];
    var e := TokenEnd(text, i);
    assert EndsToken(text, e) && EndsToken(text, j);
  }

  /** All tokens from position `i` on. */
  function Tokens(text: string, i: nat): seq<Span>
    requires i <= |text|
    decreases |text| - i
  {
    if i == |text| then []
    else if IsSpace(text[i]) then Tokens(text, i + 1)
    else [Span(i, TokenEnd(text, i))] + Tokens(text, TokenEnd(text, i))
  }

  function DetectedAt(text: string, i: nat, j: nat): Detected
    requires i <= j <= |text|
  {
    var location := ParseLineColumn(text[i..j]);
    Detected(text[i..j], location.path, location.line, location.column, i, j)
  }

  predicate InText(text: string, spans: seq<Span>) {
    forall k :: 0 <= k < |spans| ==> spans[k].from <= spans[k].to <= |text|
  }

  /** The tokens that match the pattern and are plausible paths. */
  function Plausible(text: string, spans: seq<Span>): seq<Detected>
    requires InText(text, spans)
  {
    if spans == [] then []
    else
      var token := text[spans[0].from..spans[0].to];
      if IsPathToken(token) && IsLikelyFilePath(token)
      then [DetectedAt(text, spans[0].from, spans[0].to)] + Plausible(text, spans[1..])
      else Plausible(text, spans[1..])
  }

  lemma {:induction false} TokensInText(text: string, i: nat)
    requires i <= |text|
    ensures InText(text, Tokens(text, i))
    decreases |text| - i
  {
    if i < |text| {
      if IsSpace(text[i]) {
        TokensInText(text, i + 1);
      } else {
        TokensInText(text, TokenEnd(text, i));
      }
    }
  }

  /** What is detected from position `i` on. */
  function PathsFrom(text: string, i: nat): seq<Detected>
    requires i <= |text|
  {
    TokensInText(text, i);
    Plausible(text, Tokens(text, i))
  }

  // ---- The scan ----

  /** The result of `exec`: the leftmost match at or after `from`, if there is one. */
  ghost predicate IsExec(text: string, from: nat, r: Option<Span>) {
    match r
    case None => forall i, j :: from <= i && MatchesAt(text, i, j) ==> false
    case Some(m) =>
      from <= m.from && MatchesAt(text, m.from, m.to) && forall i, j :: from <= i < m.from ==> !MatchesAt(text, i, j)
  }

  method Exec(text: string, from: nat) returns (r: Option<Span>)
    requires from <= |text|
    ensures IsExec(text, from, r)
  {
    for i := from to |text|
      invariant forall a, b :: from <= a < i ==> !MatchesAt(text, a, b)
    {
      var j := TokenEnd(text, i);
      if MatchesAt(text, i, j) {
        return Some(Span(i, j));
      }
      forall b ensures !MatchesAt(text, i, b) {
        if MatchesAt(text, i, b) {
          MatchIsToken(text, i, b);
        }
      }
    }
    forall i, j | from <= i && MatchesAt(text, i, j) ensures false {
      MatchIsToken(text, i, j);
    }
    return None;
  }

  /** Not inside a token. */
  predicate Between(text: string, p: nat) {
    p <= |text| && (StartsToken(text, p) || EndsToken(text, p))
  }

  lemma PlausibleHead(text: string, p: nat)
    requires p < |text| && !IsSpace(text[p])
    ensures var e := TokenEnd(text, p);
      PathsFrom(text, p) ==
      (if IsPathToken(text[p..e]) && IsLikelyFilePath(text[p..e]) then [DetectedAt(text, p, e)] else [])
      + PathsFrom(text, e)
  {
    TokensInText(text, p);
    assert Tokens(text, p)[1..] == Tokens(text, TokenEnd(text, p));
  }

  /** No token starts inside another. */
  lemma TokenBefore(text: string, p: nat, q: nat)
    requires p < q <= |text| && StartsToken(text, q)
    ensures TokenEnd(text, p) < q
    decreases q - p
  {
    if !IsSpace(text[p]) && p + 1 < q {
      TokenBefore(text, p + 1, q);
    }
  }

  lemma SkipToken(text: string, p: nat)
    requires p < |text| && !IsSpace(text[p]) && StartsToken(text, p) && !MatchesAt(text, p, TokenEnd(text, p))
    ensures PathsFrom(text, p) == PathsFrom(text, TokenEnd(text, p))
  {
    PlausibleHead(text, p);
    assert !IsPathToken(text[p..TokenEnd(text, p)]);
  }

  lemma SkipSpace(text: string, p: nat)
    requires p < |text| && IsSpace(text[p])
    ensures PathsFrom(text, p) == PathsFrom(text, p + 1)
  {
  }

  /** A stretch without a match holds no detected path. */
  lemma {:induction false} SkipUnmatched(text: string, p: nat, q: nat)
    requires Between(text, p) && p <= q <= |text| && (q == |text| || StartsToken(text, q))
    requires forall i, j :: p <= i < q ==> !MatchesAt(text, i, j)
    ensures PathsFrom(text, p) == PathsFrom(text, q)
    decreases q - p
  {
    if p < q {
      if IsSpace(text[p]) {
        SkipUnmatched(text, p + 1, q);
        SkipSpace(text, p);
      } else {
        if StartsToken(text, q) {
          TokenBefore(text, p, q);
        }
        SkipUnmatched(text, TokenEnd(text, p), q);
        SkipToken(text, p);
      }
    }
  }

  /** One round of the scan. */
  lemma NextMatch(text: string, p: nat, m: Span)
    requires Between(text, p) && IsExec(text, p, Some(m))
    ensures p <= m.from < m.to <= |text| && Between(text, m.to)
    ensures PathsFrom(text, p) ==
      (if IsLikelyFilePath(text[m.from..m.to]) then [DetectedAt(text, m.from, m.to)] else []) + PathsFrom(text, m.to)
  {
    MatchIsToken(text, m.from, m.to);
    SkipUnmatched(text, p, m.from);
    PlausibleHead(text, m.from);
  }

  lemma Push(results: seq<Detected>, found: seq<Detected>, rest: seq<Detected>)
    ensures results + (found + rest) == results + found + rest
  {
  }

  lemma NoMatch(text: string, p: nat)
    requires Between(text, p) && IsExec(text, p, None)
    ensures PathsFrom(text, p) == []
  {
    SkipUnmatched(text, p, |text|);
  }

  /** The scan finds exactly the plausible tokens, in order. */
  method DetectFilePaths(text: string) returns (results: seq<Detected>)
    ensures results == PathsFrom(text, 0)
  {
    results := [];
    var lastIndex := 0;
    var m := Exec(text, lastIndex);
    while m.Some?
      invariant Between(text, lastIndex) && IsExec(text, lastIndex, m)
      invariant results + PathsFrom(text, lastIndex) == PathsFrom(text, 0)
      decreases |text| - lastIndex, m.Some?
    {
      NextMatch(text, lastIndex, m.value);
      var matched := text[m.value.from..m.value.to];
      var found := DetectedAt(text, m.value.from, m.value.to);
      Push(results, [found], PathsFrom(text, m.value.to));
      lastIndex := m.value.to;
      if IsLikelyFilePath(matched) {
        results := results + [found];
      } else {
        assert [] + PathsFrom(text, lastIndex) == PathsFrom(text, lastIndex);
      }
      m := Exec(text, lastIndex);
    }
    NoMatch(text, lastIndex);
  }

  /** On every detected match the path that was checked is the path that is linked. */
  lemma DetectedIsChecked(s: string)
    requires IsPathToken(s)
    ensures CheckedPath(s) == LinkedPath(s)
  {
    PathTokenChars(s);
    var i := SuffixStart(s, 0);
    if i.Some? {
      SuffixBegins(s[i.value..]);
      assert i.value > 0;
      forall k | 0 <= k < i.value ensures !IsTerminator(s[..i.value][k]) {
        assert !IsSpace(s[k]);
      }
    }
    CheckedIsLinked(s);
  }

  // ---- What tokens and locations are ----

  /** A non-empty stretch without white space that white space, or an end of the text, bounds. */
  predicate IsToken(text: string, m: Span) {
    && m.from < m.to <= |text| && StartsToken(text, m.from) && EndsToken(text, m.to)
    && forall k :: m.from <= k < m.to ==> !IsSpace(text[k])
  }

  lemma SameToken(text: string, m: Span, e: nat)
    requires IsToken(text, m) && e == TokenEnd(text, m.from)
    ensures m.to == e
  {
    assert EndsToken(text, e) && EndsToken(text, m.to);
  }

  lemma {:induction false} TokensExactly(text: string, p: nat, m: Span)
    requires Between(text, p)
    ensures m in Tokens(text, p) <==> p <= m.from && IsToken(text, m)
    decreases |text| - p
  {
    if p < |text| {
      var e := TokenEnd(text, p);
      TokensExactly(text, if IsSpace(text[p]) then p + 1 else e, m);
      if !IsSpace(text[p]) {
        assert IsToken(text, Span(p, e));
        if IsToken(text, m) && p < m.from {
          TokenBefore(text, p, m.from);
        } else if IsToken(text, m) && m.from == p {
          SameToken(text, m, e);
        }
      }
    }
  }

  /** `:line` or `:line:column` */
  function SuffixText(line: string, column: string): string {
    ":" + line + if column == "" then "" else ":" + column
  }

  lemma ColumnIn(column: string)
    requires All(column, IsDigit)
    ensures In(Opt(Then(Lit(':'), Plus(Chars(IsDigit)))), if column == "" then "" else ":" + column)
  {
    if column != "" {
      PlusOfChars(IsDigit, column);
      var s := ":" + column;
      assert In(Lit(':'), s[..1]) && s[1..] == column;
      assert In(Then(Lit(':'), Plus(Chars(IsDigit))), s);
    } else {
      assert In(Empty, "");
    }
  }

  lemma SuffixTextIn(line: string, column: string)
    requires line != "" && All(line, IsDigit) && All(column, IsDigit)
    ensures In(Suffix(), SuffixText(line, column))
  {
    PlusOfChars(IsDigit, line);
    ColumnIn(column);
    var tail := if column == "" then "" else ":" + column;
    var rest := line + tail;
    assert rest[..|line|] == line && rest[|line|..] == tail;
    assert In(Then(Plus(Chars(IsDigit)), Opt(Then(Lit(':'), Plus(Chars(IsDigit))))), rest);
    var s := SuffixText(line, column);
    assert s == ":" + rest && s[..1] == ":" && s[1..] == rest;
    assert In(Lit(':'), s[..1]);
  }

  lemma {:induction false} RunEnds(digits: string, rest: string)
    requires All(digits, IsDigit) && (rest == "" || !IsDigit(rest[0]))
    ensures DigitRun(digits + rest) == |digits|
  {
    if digits == "" {
      assert digits + rest == rest;
    } else {
      RunEnds(digits[1..], rest);
      assert (digits + rest)[1..] == digits[1..] + rest;
    }
  }

  lemma PrefixFound(path: string, suffix: string)
    requires path != "" && All(path, c => c != ':' && !IsTerminator(c)) && In(Suffix(), suffix)
    ensures LazyPrefix(path + suffix, 1) == Some(|path|)
  {
    var s := path + suffix;
    assert s[..|path|] == path && s[|path|..] == suffix;
    forall k | 1 <= k < |path| ensures !In(Suffix(), s[k..]) {
      assert s[k..][0] == path[k];
      if In(Suffix(), s[k..]) {
        SuffixBegins(s[k..]);
      }
    }
  }

  lemma NumbersRead(path: string, line: string, tail: string, s: string)
    requires All(line, IsDigit) && (tail == "" || tail[0] == ':')
    requires s == path + (":" + line + tail) && LazyPrefix(s, 1) == Some(|path|)
    ensures ParseLineColumn(s).path == path && ParseLineColumn(s).line == Some(NumberOf(line))
    ensures ParseLineColumn(s).column == if tail == "" then None else Some(NumberOf(tail[1..][..DigitRun(tail[1..])]))
  {
    var rest := ":" + line + tail;
    assert s[..|path|] == path && s[|path|..] == rest && rest[1..] == line + tail;
    RunEnds(line, tail);
    assert (line + tail)[..|line|] == line && (line + tail)[|line|..] == tail;
  }

  /** A path, a line and a column that are printed together are parsed back, as the numbers that they denote. */
  lemma LocationParsed(path: string, line: string, column: string)
    requires path != "" && All(path, c => c != ':' && !IsTerminator(c))
    requires line != "" && All(line, IsDigit) && All(column, IsDigit)
    ensures AreDigits(line) && AreDigits(column)
    ensures ParseLineColumn(path + (":" + line + if column == "" then "" else ":" + column)) ==
      Location(path, Some(Denoted(line)), if column == "" then None else Some(Denoted(column)))
  {
    NumberDenotes(line);
    NumberDenotes(column);
    SuffixTextIn(line, column);
    PrefixFound(path, SuffixText(line, column));
    var tail := if column == "" then "" else ":" + column;
    NumbersRead(path, line, tail, path + SuffixText(line, column));
    if column != "" {
      RunEnds(column, "");
      assert column + "" == column && tail[1..] == column && column[..|column|] == column;
    }
  }
}
