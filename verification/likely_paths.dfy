/** Which tokens the scan lists, in terms of what they look like (packages/shared/src/filePathDetection.ts). */
module LikelyPaths {
  import opened Wrappers
  import opened Decimals
  import opened Regex
  import opened PathPatterns
  import opened PathShapes
  import opened FilePathDetection

  /** What comes before the first colon. */
  predicate IsBeforeColon(token: string, path: string) {
    && |path| <= |token| && token[..|path|] == path && ':' !in path
    && (|path| < |token| ==> token[|path|] == ':')
  }

  /** The name ends in a dot and letters or digits that are, in lower case, a known extension. */
  predicate EndsInKnownExtension(name: string) {
    exists k :: 0 <= k < |name| - 1 && name[k] == '.'
      && All(name[k + 1..], IsAlnum) && IsKnownExtension(Lower(name[k + 1..]))
  }

  /** Characters, one `@`, and more characters with a dot that is neither the first nor the last of them. */
  predicate HasEmailShape(token: string) {
    exists i, k :: 0 < i < i + 1 < k < |token| - 1 && token[i] == '@' && token[k] == '.'
      && '@' !in token[..i] && '@' !in token[i + 1..]
  }

  /** By its name, by its extension, or by a directory. */
  predicate IsRecognised(path: string) {
    var parts := Parts(path);
    var name := parts[|parts| - 1];
    || IsKnownFilename(name)
    || EndsInKnownExtension(name)
    || (|parts| > 1 && exists i :: 0 <= i < |parts| && IsCommonDir(parts[i]))
  }

  // ---- The pieces of the decision ----

  /** Where the extension's dot is. */
  lemma DotPlace(name: string, ext: string)
    requires Extension(name) == Some(ext)
    ensures 0 < |ext| < |name| && All(ext, IsAlnum)
    ensures var k := |name| - |ext| - 1; name[k] == '.' && name[k + 1..] == ext
  {
    hide Extension, IsAlnum;
    ExtensionMeans(name, ext);
    var k := |name| - |ext| - 1;
    var tail := name[k..];
    assert tail == "." + ext;
    assert tail[0] == '.' && tail[1..] == ext;
  }

  lemma ExtensionAfter(name: string, k: nat)
    requires k < |name| - 1 && name[k] == '.' && All(name[k + 1..], IsAlnum)
    ensures Extension(name) == Some(name[k + 1..])
  {
    hide Extension, IsAlnum;
    var ext := name[k + 1..];
    assert name[k..] == "." + ext;
    ExtensionMeans(name, ext);
  }

  lemma ExtensionKnown(name: string)
    ensures EndsInKnownExtension(name) <==>
      Extension(name).Some? && IsKnownExtension(Lower(Extension(name).value))
  {
    hide IsKnownExtension, Lower, Extension, All;
    if Extension(name).Some? {
      DotPlace(name, Extension(name).value);
    }
    if EndsInKnownExtension(name) {
      var k :| 0 <= k < |name| - 1 && name[k] == '.' && All(name[k + 1..], IsAlnum)
        && IsKnownExtension(Lower(name[k + 1..]));
      ExtensionAfter(name, k);
    }
  }

  lemma ThenSplit(a: Re, b: Re, s: string) returns (k: nat)
    requires In(Then(a, b), s)
    ensures k <= |s| && In(a, s[..k]) && In(b, s[k..])
  {
    k :| 0 <= k <= |s| && In(a, s[..k]) && In(b, s[k..]);
  }

  lemma LitThen(c: char, b: Re, s: string)
    requires In(Then(Lit(c), b), s)
    ensures s != "" && s[0] == c && In(b, s[1..])
  {
    var k := ThenSplit(Lit(c), b, s);
    assert s[..k][0] == s[0];
  }

  /** The text between two positions has no `@`. */
  predicate NoAt(s: string, i: int, j: int) {
    forall k :: 0 <= i <= k < j <= |s| ==> s[k] != '@'
  }

  lemma MailCharsHaveNoAt(s: string, i: nat, j: nat)
    requires i <= j <= |s| && All(s[i..j], IsMailChar)
    ensures NoAt(s, i, j)
  {
    forall k | i <= k < j ensures s[k] != '@' {
      assert s[k] == s[i..j][k - i] && IsMailChar(s[i..j][k - i]);
    }
  }

  lemma EmailSplit(s: string)
    requires LooksLikeEmail(s)
    ensures HasEmailShape(s)
  {
    hide In, IsMailChar;
    EmailIs(s);
    var some := Plus(Chars(IsMailChar));
    var i := ThenSplit(some, Then(Lit('@'), Then(some, Then(Lit('.'), some))), s);
    LitThen('@', Then(some, Then(Lit('.'), some)), s[i..]);
    var d := s[i + 1..];
    assert s[i..][1..] == d && s[i] == s[i..][0];
    var n := ThenSplit(some, Then(Lit('.'), some), d);
    LitThen('.', some, d[n..]);
    var k := i + 1 + n;
    assert d[..n] == s[i + 1..k] && d[n..][1..] == s[k + 1..] && s[k] == d[n..][0];
    PlusOfChars(IsMailChar, s[..i]);
    PlusOfChars(IsMailChar, s[i + 1..k]);
    PlusOfChars(IsMailChar, s[k + 1..]);
    assert s[..i] == s[0..i] && s[k + 1..] == s[k + 1..|s|];
    MailCharsHaveNoAt(s, 0, i);
    MailCharsHaveNoAt(s, i + 1, k);
    MailCharsHaveNoAt(s, k + 1, |s|);
    assert '@' !in s[..i] && '@' !in s[i + 1..];
  }

  lemma MailChars(s: string, i: nat, j: nat)
    requires i <= j <= |s| && All(s, c => !IsSpace(c)) && NoAt(s, i, j)
    ensures All(s[i..j], IsMailChar)
  {
    forall k | 0 <= k < j - i ensures IsMailChar(s[i..j][k]) {
      assert s[i..j][k] == s[i + k] && (c => !IsSpace(c))(s[i + k]);
    }
  }

  lemma EmailJoin(s: string, a: string, b: string, c: string)
    requires a != "" && All(a, IsMailChar) && b != "" && All(b, IsMailChar) && c != "" && All(c, IsMailChar)
    requires s == a + ("@" + (b + ("." + c)))
    ensures LooksLikeEmail(s)
  {
    assert In(Lit('.'), ".") && In(Lit('@'), "@");
    hide In, IsMailChar, LooksLikeEmail;
    var some := Plus(Chars(IsMailChar));
    PlusOfChars(IsMailChar, a);
    PlusOfChars(IsMailChar, b);
    PlusOfChars(IsMailChar, c);
    InThen(Lit('.'), some, ".", c);
    InThen(some, Then(Lit('.'), some), b, "." + c);
    InThen(Lit('@'), Then(some, Then(Lit('.'), some)), "@", b + ("." + c));
    InThen(some, Then(Lit('@'), Then(some, Then(Lit('.'), some))), a, "@" + (b + ("." + c)));
    EmailIs(s);
  }

  lemma ShapeParts(s: string, i: nat, k: nat)
    requires i < k < |s| && s[i] == '@' && s[k] == '.'
    ensures s == s[0..i] + ("@" + (s[i + 1..k] + ("." + s[k + 1..|s|])))
  {
    assert s[i..k] == "@" + s[i + 1..k] && s[k..] == "." + s[k + 1..|s|];
    assert s == s[0..i] + (s[i..k] + s[k..]);
  }

  lemma NoAtIn(s: string, i: nat)
    requires i < |s| && '@' !in s[..i] && '@' !in s[i + 1..]
    ensures NoAt(s, 0, i) && NoAt(s, i + 1, |s|)
  {
    assert forall j :: 0 <= j < i ==> s[j] == s[..i][j];
    assert forall j :: i < j < |s| ==> s[j] == s[i + 1..][j - i - 1];
  }

  lemma EmailShapeIsEmail(s: string)
    requires HasEmailShape(s) && All(s, c => !IsSpace(c))
    ensures LooksLikeEmail(s)
  {
    hide IsMailChar, LooksLikeEmail, IsSpace;
    var i, k :| 0 < i < i + 1 < k < |s| - 1 && s[i] == '@' && s[k] == '.' && '@' !in s[..i] && '@' !in s[i + 1..];
    NoAtIn(s, i);
    hide HasEmailShape;
    MailChars(s, 0, i);
    MailChars(s, i + 1, k);
    MailChars(s, k + 1, |s|);
    ShapeParts(s, i, k);
    EmailJoin(s, s[0..i], s[i + 1..k], s[k + 1..|s|]);
  }

  lemma EmailIs(s: string)
    ensures LooksLikeEmail(s) <==>
      var some := Plus(Chars(IsMailChar)); In(Then(some, Then(Lit('@'), Then(some, Then(Lit('.'), some)))), s)
  {
  }

  /** The last part of a path that matches the pattern is a name. */
  lemma LastPartIsName(path: string)
    requires IsDottedParts(Parts(path)) || IsRootedParts(Parts(path))
    ensures var name := Parts(path)[|Parts(path)| - 1]; name != "" && All(name, IsNameChar)
  {
  }

  lemma PathHasNoColon(path: string)
    requires IsDottedParts(Parts(path)) || IsRootedParts(Parts(path))
    ensures ':' !in path
  {
    hide In, DottedPath, RootedPath, Over, Nonempty, IsDottedParts, IsRootedParts;
    DottedPathMeans(path);
    RootedPathMeans(path);
    PathOver();
    InOver(if In(DottedPath(), path) then DottedPath() else RootedPath(), path, IsPathChar);
    forall i | 0 <= i < |path| ensures path[i] != ':' {
      assert IsPathChar(path[i]);
    }
  }

  lemma FirstColon(token: string, a: string, b: string)
    requires IsBeforeColon(token, a) && IsBeforeColon(token, b)
    ensures a == b
  {
  }

  lemma SuffixAfterPath(token: string, k: nat, i: nat)
    requires k <= |token| && i <= |token| && IsBeforeColon(token, token[..k]) && In(Suffix(), token[i..])
    ensures k <= i < |token|
  {
    SuffixBegins(token[i..]);
    assert token[i..][0] == token[i];
    hide In;
  }

  /** The path that is checked is what comes before the first colon. */
  lemma CheckedIsBeforeColon(token: string, path: string)
    requires IsPathToken(token) && IsBeforeColon(token, path)
    ensures CheckedPath(token) == path
    ensures IsDottedParts(Parts(path)) || IsRootedParts(Parts(path))
    ensures |path| < |token| ==> In(Suffix(), token[|path|..])
  {
    PathTokenMeans(token);
    hide In, IsPathToken, IsDottedParts, IsRootedParts;
    var k :| 0 <= k <= |token| && (token[k..] == "" || In(Suffix(), token[k..]))
      && (IsDottedParts(Parts(token[..k])) || IsRootedParts(Parts(token[..k])));
    PathHasNoColon(token[..k]);
    if k < |token| {
      SuffixBegins(token[k..]);
      assert token[k..][0] == token[k];
    }
    FirstColon(token, token[..k], path);
    var i := SuffixStart(token, 0);
    if i.Some? {
      SuffixAfterPath(token, k, i.value);
    }
  }

  /** A token that matches the pattern passes exactly if it has no e-mail shape and its path is recognised. */
  lemma LikelyMeans(token: string, path: string)
    requires IsPathToken(token) && IsBeforeColon(token, path)
    ensures IsLikelyFilePath(token) <==> !HasEmailShape(token) && IsRecognised(path)
  {
    PathTokenChars(token);
    CheckedIsBeforeColon(token, path);
    LastPartIsName(path);
    UrlTestsAreRedundant(token);
    ExtensionKnown(Parts(path)[|Parts(path)| - 1]);
    EmailMeans(token);
    hide In, LooksLikeEmail, HasEmailShape, EndsInKnownExtension, IsKnownFilename, IsKnownExtension, IsCommonDir;
  }

  lemma EmailMeans(token: string)
    requires All(token, c => !IsSpace(c))
    ensures LooksLikeEmail(token) <==> HasEmailShape(token)
  {
    if LooksLikeEmail(token) {
      EmailSplit(token);
    }
    if HasEmailShape(token) {
      EmailShapeIsEmail(token);
    }
  }

  // ---- The scan ----

  /** Some detected path lies at the token. */
  ghost predicate IsListed(ds: seq<Detected>, m: Span) {
    exists d :: d in ds && d.startIndex == m.from && d.endIndex == m.to
  }

  lemma {:induction false} PlausibleListed(text: string, spans: seq<Span>, m: Span)
    requires InText(text, spans) && m.from <= m.to <= |text|
    ensures IsListed(Plausible(text, spans), m) <==>
      m in spans && IsPathToken(text[m.from..m.to]) && IsLikelyFilePath(text[m.from..m.to])
  {
    hide IsPathToken, IsLikelyFilePath, ParseLineColumn;
    if spans != [] {
      PlausibleListed(text, spans[1..], m);
      var token := text[spans[0].from..spans[0].to];
      if IsPathToken(token) && IsLikelyFilePath(token) {
        var d := DetectedAt(text, spans[0].from, spans[0].to);
        var rest := Plausible(text, spans[1..]);
        assert Plausible(text, spans) == [d] + rest;
        assert ([d] + rest)[0] == d;
        if spans[0] == m {
          assert d in [d] + rest;
        }
        if IsListed(rest, m) {
          var x :| x in rest && x.startIndex == m.from && x.endIndex == m.to;
          assert x in [d] + rest;
        }
      }
    }
  }

  /**
   * A token is listed by the scan exactly if it matches the pattern, does not
   * have the shape of an e-mail address, and what comes before its first colon
   * ends in a known file name, ends in a known extension, or has a common
   * directory.
   */
  lemma ListedExactly(text: string, m: Span, path: string)
    requires IsToken(text, m) && IsBeforeColon(text[m.from..m.to], path)
    ensures IsListed(PathsFrom(text, 0), m) <==>
      IsPathToken(text[m.from..m.to]) && !HasEmailShape(text[m.from..m.to]) && IsRecognised(path)
  {
    hide IsPathToken, HasEmailShape, IsRecognised, IsLikelyFilePath, IsBeforeColon;
    TokensInText(text, 0);
    TokensExactly(text, 0, m);
    PlausibleListed(text, Tokens(text, 0), m);
    if IsPathToken(text[m.from..m.to]) {
      LikelyMeans(text[m.from..m.to], path);
    }
  }

  /** Nothing else is listed: every detected path lies at a token. */
  lemma {:induction false} ListedAreTokens(text: string, spans: seq<Span>, d: Detected)
    requires InText(text, spans) && d in Plausible(text, spans)
    ensures Span(d.startIndex, d.endIndex) in spans && d.startIndex <= d.endIndex <= |text|
    ensures d == DetectedAt(text, d.startIndex, d.endIndex) && IsPathToken(text[d.startIndex..d.endIndex])
  {
    hide IsPathToken, IsLikelyFilePath, ParseLineColumn;
    if spans != [] {
      var token := text[spans[0].from..spans[0].to];
      var rest := Plausible(text, spans[1..]);
      if !(IsPathToken(token) && IsLikelyFilePath(token)) {
        ListedAreTokens(text, spans[1..], d);
      } else if d != DetectedAt(text, spans[0].from, spans[0].to) {
        assert Plausible(text, spans) == [DetectedAt(text, spans[0].from, spans[0].to)] + rest;
        assert d in rest;
        ListedAreTokens(text, spans[1..], d);
      }
    }
  }

  // ---- What is recorded of a listed path ----

  /** A line suffix: a colon and digits, and perhaps a second colon and digits. */
  lemma SuffixSplit(s: string) returns (line: string, column: string)
    requires In(Suffix(), s)
    ensures line != "" && All(line, IsDigit) && All(column, IsDigit)
    ensures s == ":" + line + if column == "" then "" else ":" + column
  {
    var digits := Plus(Chars(IsDigit));
    LitThen(':', Then(digits, Opt(Then(Lit(':'), digits))), s);
    hide In;
    var r := s[1..];
    var n := ThenSplit(digits, Opt(Then(Lit(':'), digits)), r);
    line := r[..n];
    PlusOfChars(IsDigit, line);
    column := OptionalColumn(r[n..]);
    assert r == line + r[n..] && s == ":" + r;
  }

  lemma OptionalColumn(s: string) returns (column: string)
    requires In(Opt(Then(Lit(':'), Plus(Chars(IsDigit)))), s)
    ensures All(column, IsDigit) && s == if column == "" then "" else ":" + column
  {
    if In(Then(Lit(':'), Plus(Chars(IsDigit))), s) {
      LitThen(':', Plus(Chars(IsDigit)), s);
      column := s[1..];
      PlusOfChars(IsDigit, column);
    } else {
      assert In(Empty, s);
      column := "";
    }
  }

  /** The recorded line and column are the numbers that the digits after the path denote. */
  predicate IsLocated(d: Detected, line: string, column: string) {
    && line != "" && AreDigits(line) && AreDigits(column)
    && d.match_ == d.filePath + (":" + line + if column == "" then "" else ":" + column)
    && d.line == Some(Denoted(line)) && d.column == if column == "" then None else Some(Denoted(column))
  }

  /**
   * A listed path is recorded with its text and position, with what comes
   * before its first colon as the file's path, and with the line and column
   * that follow, if they do.
   */
  lemma ListedReads(text: string, d: Detected)
    requires d in PathsFrom(text, 0)
    ensures d.startIndex < d.endIndex <= |text| && d.match_ == text[d.startIndex..d.endIndex]
    ensures IsBeforeColon(d.match_, d.filePath)
    ensures if d.filePath == d.match_ then d.line.None? && d.column.None?
            else exists line, column :: IsLocated(d, line, column)
  {
    hide IsPathToken, In, ParseLineColumn, CheckedPath, Plausible, Tokens;
    TokensInText(text, 0);
    ListedAreTokens(text, Tokens(text, 0), d);
    TokenReads(text[d.startIndex..d.endIndex], d);
  }

  lemma AllSlice(s: string, i: nat, j: nat, p: char -> bool)
    requires i <= j <= |s| && All(s, p)
    ensures All(s[i..j], p)
  {
  }

  lemma TokenReads(token: string, d: Detected)
    requires IsPathToken(token) && d.match_ == token
    requires ParseLineColumn(token) == Location(d.filePath, d.line, d.column)
    ensures token != "" && IsBeforeColon(token, d.filePath)
    ensures if d.filePath == token then d.line.None? && d.column.None?
            else exists line, column :: IsLocated(d, line, column)
  {
    hide IsPathToken, In, ParseLineColumn, CheckedPath, IsSpace;
    PathTokenChars(token);
    DetectedIsChecked(token);
    var k := ColonOrEnd(token);
    CheckedIsBeforeColon(token, token[..k]);
    NoneRead(token, k);
    if k < |token| {
      var line, column := SuffixSplit(token[k..]);
      AllSlice(token, 0, k, c => !IsSpace(c));
      assert token[0..k] == token[..k];
      PathLineRead(token[..k], line, column);
      assert token == token[..k] + token[k..];
      assert IsLocated(d, line, column);
    }
  }

  lemma ColonOrEnd(token: string) returns (k: nat)
    ensures k <= |token| && IsBeforeColon(token, token[..k])
  {
    k := 0;
    while k < |token| && token[k] != ':'
      invariant k <= |token| && ':' !in token[..k]
    {
      k := k + 1;
    }
  }

  lemma NoneRead(token: string, k: nat)
    requires k <= |token| && LinkedPath(token) == token[..k] && (k < |token| ==> token[k] == ':')
    ensures k == |token| ==> ParseLineColumn(token) == Location(token, None, None)
  {
    if k == |token| && LazyPrefix(token, 1).Some? {
      SuffixBegins(token[LazyPrefix(token, 1).value..]);
    }
  }

  lemma PathLineRead(path: string, line: string, column: string)
    requires path != "" && ':' !in path && All(path, c => !IsSpace(c))
    requires line != "" && All(line, IsDigit) && All(column, IsDigit)
    ensures AreDigits(line) && AreDigits(column)
    ensures ParseLineColumn(path + (":" + line + if column == "" then "" else ":" + column)) ==
      Location(path, Some(Denoted(line)), if column == "" then None else Some(Denoted(column)))
  {
    forall i | 0 <= i < |path| ensures path[i] != ':' && !IsTerminator(path[i]) {
      assert (c => !IsSpace(c))(path[i]);
    }
    LocationParsed(path, line, column);
  }

  /** Facts about the three lists. */
  lemma ListsHold()
    ensures IsKnownExtension("ts") && IsKnownExtension("tsx") && IsKnownExtension("md") && IsKnownExtension("py")
    ensures IsKnownExtension("json") && IsKnownExtension("rs") && !IsKnownExtension("5") && !IsKnownExtension("com")
    ensures IsKnownFilename("Makefile") && IsKnownFilename("Dockerfile") && IsKnownFilename("package.json")
    ensures IsKnownFilename(".gitignore") && !IsKnownFilename("main") && !IsKnownFilename("") && !IsKnownFilename("5")
    ensures IsCommonDir("src") && IsCommonDir("packages") && IsCommonDir("node_modules")
    ensures !IsCommonDir("main") && !IsCommonDir("") && !IsCommonDir(".")
  {
    assert "ts"[0] == 't' && "5" != "r" && "5" != "c" && "5" != "h" && "5" != "R" && "5" != "t" && "5" != "v";
  }

  /** The characters that the pattern's classes hold. */
  lemma ClassesHold(c: char)
    ensures IsSpace(c) <==>
      || c as int in {9, 10, 11, 12, 13, 32, 0xA0, 0x1680, 0x2028, 0x2029, 0x202F, 0x205F, 0x3000, 0xFEFF}
      || 0x2000 <= c as int <= 0x200A
    ensures IsTerminator(c) <==> c as int in {10, 13, 0x2028, 0x2029}
    ensures IsAlnum(c) <==> 48 <= c as int <= 57 || 65 <= c as int <= 90 || 97 <= c as int <= 122
    ensures IsDirChar(c) <==> IsAlnum(c) || c in "_@-"
    ensures IsNameChar(c) <==> IsAlnum(c) || c in "_.-"
    ensures IsRootedDirChar(c) <==> IsAlnum(c) || c in "_@.-"
  {
    assert "_@-" == ['_', '@', '-'] && "_.-" == ['_', '.', '-'] && "_@.-" == ['_', '@', '.', '-'];
  }

  // ---- Two texts ----

  /** A name with an extension is a token of the pattern. */
  lemma NameIsToken(stem: string, ext: string)
    requires stem != "" && All(stem, IsNameChar) && ext != "" && All(ext, IsAlnum)
    ensures IsPathToken(stem + "." + ext)
    ensures Parts(stem + "." + ext) == [stem + "." + ext] && IsBeforeColon(stem + "." + ext, stem + "." + ext)
  {
    var name := stem + "." + ext;
    assert name[|name| - |ext| - 1..] == "." + ext;
    ExtensionMeans(name, ext);
    forall i | 0 <= i < |name| ensures IsNameChar(name[i]) && name[i] != '/' && name[i] != ':' {
      assert name[i] == if i < |stem| then stem[i] else if i == |stem| then '.' else ext[i - |stem| - 1];
    }
    PartsOfOne(name);
    assert name[..|name|] == name && name[|name|..] == "";
    hide In;
    PathTokenMeans(name);
  }

  lemma NameListed(text: string, m: Span, stem: string, ext: string)
    requires IsToken(text, m) && text[m.from..m.to] == stem + "." + ext
    requires stem != "" && All(stem, IsNameChar) && ext != "" && All(ext, IsAlnum) && '@' !in stem
    ensures IsListed(PathsFrom(text, 0), m) <==>
      IsKnownFilename(stem + "." + ext) || EndsInKnownExtension(stem + "." + ext)
  {
    hide IsKnownFilename, EndsInKnownExtension, IsToken, IsListed;
    var name := stem + "." + ext;
    NameIsToken(stem, ext);
    assert !HasEmailShape(name) by {
      forall i | 0 <= i < |name| ensures name[i] != '@' {
        assert name[i] == if i < |stem| then stem[i] else if i == |stem| then '.' else ext[i - |stem| - 1];
      }
    }
    hide IsPathToken, HasEmailShape;
    ListedExactly(text, m, name);
  }

  lemma KnownByLastDot(stem: string, ext: string)
    requires ext != "" && All(ext, IsAlnum)
    ensures EndsInKnownExtension(stem + "." + ext) <==> IsKnownExtension(Lower(ext))
  {
    var name := stem + "." + ext;
    hide IsKnownExtension, Lower;
    assert name[|name| - |ext| - 1..] == "." + ext;
    ExtensionMeans(name, ext);
    ExtensionKnown(name);
  }

  /** A source file is found in a sentence. */
  lemma SourceFileIsFound()
    ensures IsListed(PathsFrom("see main.ts now", 0), Span(4, 11))
  {
    hide IsListed, EndsInKnownExtension, IsKnownExtension, IsKnownFilename;
    var text := "see main.ts now";
    assert text[4..11] == "main" + "." + "ts" && IsToken(text, Span(4, 11));
    assert Lower("ts") == "ts";
    ListsHold();
    KnownByLastDot("main", "ts");
    NameListed(text, Span(4, 11), "main", "ts");
  }

  /** A version number is not. */
  lemma VersionIsNotFound()
    ensures !IsListed(PathsFrom("release 1.5 is out", 0), Span(8, 11))
  {
    hide IsListed, EndsInKnownExtension, IsKnownExtension, IsKnownFilename;
    var text := "release 1.5 is out";
    assert text[8..11] == "1" + "." + "5" && IsToken(text, Span(8, 11));
    assert Lower("5") == "5";
    ListsHold();
    VersionIsNoName();
    KnownByLastDot("1", "5");
    NameListed(text, Span(8, 11), "1", "5");
  }

  lemma VersionIsNoName()
    ensures !IsKnownFilename("1" + "." + "5")
  {
    assert ("1" + "." + "5")[0] == '1' && |"1" + "." + "5"| == 3;
  }
}
