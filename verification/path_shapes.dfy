/** The file path pattern in terms of the parts between slashes (packages/shared/src/filePathDetection.ts). */
module PathShapes {
  import opened PathPatterns
  import opened Regex
  import opened Wrappers

  /** What a part between slashes must look like. */
  predicate IsPart(part: string, p: char -> bool) {
    part != "" && All(part, p)
  }

  predicate NoSlash(s: string) {
    All(s, c => c != '/')
  }

  function Slash(a: string, b: string): string {
    a + "/" + b
  }

  lemma {:induction false} PartsOfOne(s: string)
    requires NoSlash(s)
    ensures Parts(s) == [s]
  {
    if s != "" {
      PartsOfOne(s[1..]);
      assert s == [s[0]] + s[1..];
    }
  }

  lemma {:induction false} PartsAfterSlash(a: string, b: string)
    requires NoSlash(a)
    ensures Parts(Slash(a, b)) == [a] + Parts(b)
  {
    var s := Slash(a, b);
    if a == "" {
      assert s == "/" + b && s[1..] == b;
    } else {
      PartsAfterSlash(a[1..], b);
      assert s[1..] == Slash(a[1..], b) && s[0] == a[0];
      assert a == [a[0]] + a[1..];
      assert ([a[1..]] + Parts(b))[1..] == Parts(b);
    }
  }

  /** A text is one part, or a first part, a slash and the rest. */
  lemma {:induction false} FirstPart(s: string) returns (rest: string)
    ensures NoSlash(Parts(s)[0])
    ensures |Parts(s)| == 1 ==> s == Parts(s)[0]
    ensures |Parts(s)| > 1 ==> s == Slash(Parts(s)[0], rest) && Parts(rest) == Parts(s)[1..] && |rest| < |s|
  {
    rest := "";
    if s != "" {
      if s[0] == '/' {
        rest := s[1..];
        assert s == "/" + rest;
      } else {
        rest := FirstPart(s[1..]);
        assert s == [s[0]] + s[1..];
      }
    }
  }

  /** Directories, each followed by its slash. */
  function Dirs(p: char -> bool): Re {
    Star(Then(Plus(Chars(p)), Lit('/')))
  }

  predicate AllParts(parts: seq<string>, p: char -> bool) {
    forall i :: 0 <= i < |parts| ==> IsPart(parts[i], p)
  }

  lemma OneDir(p: char -> bool, s: string)
    ensures In(Then(Plus(Chars(p)), Lit('/')), s) <==> s != "" && s[|s| - 1] == '/' && IsPart(s[..|s| - 1], p)
  {
    if In(Then(Plus(Chars(p)), Lit('/')), s) {
      var k :| 0 <= k <= |s| && In(Plus(Chars(p)), s[..k]) && In(Lit('/'), s[k..]);
      PlusOfChars(p, s[..k]);
      assert s[k..][0] == s[k] && k == |s| - 1;
    }
    if s != "" && s[|s| - 1] == '/' && IsPart(s[..|s| - 1], p) {
      PlusOfChars(p, s[..|s| - 1]);
      assert In(Lit('/'), s[|s| - 1..]);
    }
  }

  lemma PartHasNoSlash(part: string, p: char -> bool)
    requires All(part, p) && !p('/')
    ensures NoSlash(part)
  {
  }

  /** Directories and a name: all parts but the last are directories, and the last is the name. */
  lemma {:induction false} DirsThenName(p: char -> bool, dirs: string, name: string)
    requires !p('/') && NoSlash(name) && In(Dirs(p), dirs)
    ensures var parts := Parts(dirs + name);
      AllParts(parts[..|parts| - 1], p) && parts[|parts| - 1] == name
    decreases |dirs|
  {
    if dirs == "" {
      assert dirs + name == name;
      PartsOfOne(name);
    } else {
      var k :| 0 < k <= |dirs| && In(Then(Plus(Chars(p)), Lit('/')), dirs[..k]) && In(Dirs(p), dirs[k..]);
      DirsThenName(p, dirs[k..], name);
      OneMoreDir(p, dirs[..k], dirs[k..] + name, name);
      assert dirs + name == dirs[..k] + (dirs[k..] + name);
    }
  }

  lemma OneMoreDir(p: char -> bool, dir: string, rest: string, name: string)
    requires !p('/') && In(Then(Plus(Chars(p)), Lit('/')), dir)
    requires var parts := Parts(rest); AllParts(parts[..|parts| - 1], p) && parts[|parts| - 1] == name
    ensures var parts := Parts(dir + rest); AllParts(parts[..|parts| - 1], p) && parts[|parts| - 1] == name
  {
    OneDir(p, dir);
    var first, parts := dir[..|dir| - 1], Parts(rest);
    PartHasNoSlash(first, p);
    PartsAfterSlash(first, rest);
    assert dir == first + "/" && dir + rest == Slash(first, rest);
    assert ([first] + parts)[..|parts|] == [first] + parts[..|parts| - 1];
  }

  /** And back: the text before the last part is a list of directories. */
  lemma {:induction false} NameAfterDirs(p: char -> bool, s: string) returns (dirs: string)
    requires AllParts(Parts(s)[..|Parts(s)| - 1], p)
    ensures s == dirs + Parts(s)[|Parts(s)| - 1] && In(Dirs(p), dirs)
    decreases |s|
  {
    var rest := FirstPart(s);
    var parts := Parts(s);
    if |parts| == 1 {
      dirs := "";
      assert s == "" + parts[0];
    } else {
      MiddleIsParts(parts, p);
      var inner := NameAfterDirs(p, rest);
      dirs := parts[0] + "/" + inner;
      DirAndDirs(p, parts[0], inner);
      assert s == dirs + parts[|parts| - 1];
    }
  }

  lemma MiddleIsParts(parts: seq<string>, p: char -> bool)
    requires |parts| > 1 && AllParts(parts[..|parts| - 1], p)
    ensures IsPart(parts[0], p) && AllParts(parts[1..][..|parts| - 2], p)
  {
    var front, middle := parts[..|parts| - 1], parts[1..][..|parts| - 2];
    assert front[0] == parts[0];
    forall i | 0 <= i < |middle| ensures IsPart(middle[i], p) {
      assert middle[i] == front[i + 1];
    }
  }

  lemma DirAndDirs(p: char -> bool, first: string, inner: string)
    requires IsPart(first, p) && In(Dirs(p), inner)
    ensures In(Dirs(p), first + "/" + inner)
  {
    var dir := first + "/";
    assert dir[..|dir| - 1] == first;
    OneDir(p, dir);
    assert (dir + inner)[..|dir|] == dir && (dir + inner)[|dir|..] == inner;
  }

  // ---- Paths with an extension ----

  /** A stem, a dot and letters or digits. */
  predicate IsDottedName(name: string) {
    All(name, IsNameChar) && Extension(name).Some? && |Extension(name).value| + 1 < |name|
  }

  function DottedName(): Re {
    Then(Plus(Chars(IsNameChar)), Then(Lit('.'), Plus(Chars(IsAlnum))))
  }

  lemma InThen(a: Re, b: Re, x: string, y: string)
    requires In(a, x) && In(b, y)
    ensures In(Then(a, b), x + y)
  {
    assert (x + y)[..|x|] == x && (x + y)[|x|..] == y;
  }

  lemma DotThenLetters(s: string)
    ensures In(Then(Lit('.'), Plus(Chars(IsAlnum))), s) <==> |s| > 1 && s[0] == '.' && All(s[1..], IsAlnum)
  {
    PlusOfChars(IsAlnum, s[if s == "" then 0 else 1..]);
    if In(Then(Lit('.'), Plus(Chars(IsAlnum))), s) {
      var k :| 0 <= k <= |s| && In(Lit('.'), s[..k]) && In(Plus(Chars(IsAlnum)), s[k..]);
      assert k == 1 && s[..k][0] == s[0];
      PlusOfChars(IsAlnum, s[k..]);
    }
    if |s| > 1 && s[0] == '.' && All(s[1..], IsAlnum) {
      assert In(Lit('.'), s[..1]) && In(Plus(Chars(IsAlnum)), s[1..]);
    }
  }

  lemma DottedNameSplit(name: string, k: nat)
    requires k <= |name| && In(Plus(Chars(IsNameChar)), name[..k])
    requires In(Then(Lit('.'), Plus(Chars(IsAlnum))), name[k..])
    ensures IsDottedName(name)
  {
    PlusOfChars(IsNameChar, name[..k]);
    DotThenLetters(name[k..]);
    hide In;
    var ext := name[k..][1..];
    assert name[k..] == "." + ext && |ext| == |name| - k - 1;
    ExtensionMeans(name, ext);
    assert All(name[k..], IsNameChar);
    AllConcat(name, k, IsNameChar);
  }

  lemma DottedNameJoin(name: string)
    requires IsDottedName(name)
    ensures In(DottedName(), name)
  {
    hide In;
    var ext := Extension(name).value;
    ExtensionMeans(name, ext);
    var k := |name| - |ext| - 1;
    PlusOfChars(IsNameChar, name[..k]);
    assert name[k..][1..] == ext;
    DotThenLetters(name[k..]);
    InThen(Plus(Chars(IsNameChar)), Then(Lit('.'), Plus(Chars(IsAlnum))), name[..k], name[k..]);
    assert name == name[..k] + name[k..];
  }

  lemma DottedNameMeans(name: string)
    ensures In(DottedName(), name) <==> IsDottedName(name)
  {
    if In(DottedName(), name) {
      var k :| 0 <= k <= |name| && In(Plus(Chars(IsNameChar)), name[..k]) &&
        In(Then(Lit('.'), Plus(Chars(IsAlnum))), name[k..]);
      DottedNameSplit(name, k);
    } else if IsDottedName(name) {
      DottedNameJoin(name);
    }
  }

  predicate IsLead(part: string) {
    part == "" || part == "." || part == ".."
  }

  /** Directories of letters, digits and `_@-`, the first perhaps empty, `.` or `..`; a name with an extension. */
  predicate IsDottedParts(parts: seq<string>) {
    && |parts| > 0 && IsDottedName(parts[|parts| - 1])
    && (forall i :: 1 <= i < |parts| - 1 ==> IsPart(parts[i], IsDirChar))
    && (|parts| > 1 ==> IsLead(parts[0]) || IsPart(parts[0], IsDirChar))
  }

  function Lead(): Re {
    Then(Then(Opt(Lit('.')), Opt(Lit('.'))), Lit('/'))
  }

  lemma OptDot(s: string)
    ensures In(Opt(Lit('.')), s) <==> s == "" || s == "."
  {
    if In(Lit('.'), s) {
      assert s == ".";
    }
    assert In(Lit('.'), ".") && In(Empty, "");
  }

  lemma TwoDots(s: string)
    ensures In(Then(Opt(Lit('.')), Opt(Lit('.'))), s) <==> IsLead(s)
  {
    if In(Then(Opt(Lit('.')), Opt(Lit('.'))), s) {
      var k :| 0 <= k <= |s| && In(Opt(Lit('.')), s[..k]) && In(Opt(Lit('.')), s[k..]);
      OptDot(s[..k]);
      OptDot(s[k..]);
      assert s == s[..k] + s[k..];
    }
    if IsLead(s) {
      var k := if s == "" then 0 else 1;
      OptDot(s[..k]);
      OptDot(s[k..]);
    }
  }

  lemma LeadMeans(s: string)
    ensures In(Lead(), s) <==> s != "" && s[|s| - 1] == '/' && IsLead(s[..|s| - 1])
  {
    var dots := Then(Opt(Lit('.')), Opt(Lit('.')));
    if In(Lead(), s) {
      var k :| 0 <= k <= |s| && In(dots, s[..k]) && In(Lit('/'), s[k..]);
      assert s[k..][0] == s[k] && k == |s| - 1;
      TwoDots(s[..k]);
    }
    if s != "" && s[|s| - 1] == '/' && IsLead(s[..|s| - 1]) {
      TwoDots(s[..|s| - 1]);
      assert In(Lit('/'), s[|s| - 1..]);
    }
  }

  /** Directories and a dotted name, without a lead. */
  function Plain(): Re {
    Then(Dirs(IsDirChar), DottedName())
  }

  predicate IsPlainParts(parts: seq<string>) {
    |parts| > 0 && IsDottedName(parts[|parts| - 1]) && AllParts(parts[..|parts| - 1], IsDirChar)
  }

  lemma DottedNameHasNoSlash(name: string)
    requires IsDottedName(name)
    ensures NoSlash(name)
  {
    PartHasNoSlash(name, IsNameChar);
  }

  lemma PlainSplit(s: string, k: nat)
    requires k <= |s| && In(Dirs(IsDirChar), s[..k]) && In(DottedName(), s[k..])
    ensures IsPlainParts(Parts(s))
  {
    DottedNameMeans(s[k..]);
    DottedNameHasNoSlash(s[k..]);
    DirsThenName(IsDirChar, s[..k], s[k..]);
    assert s == s[..k] + s[k..];
    hide In;
  }

  lemma PlainJoin(s: string)
    requires IsPlainParts(Parts(s))
    ensures In(Plain(), s)
  {
    var name := Parts(s)[|Parts(s)| - 1];
    var dirs := NameAfterDirs(IsDirChar, s);
    DottedNameMeans(name);
    InThen(Dirs(IsDirChar), DottedName(), dirs, name);
  }

  lemma PlainMeans(s: string)
    ensures In(Plain(), s) <==> IsPlainParts(Parts(s))
  {
    if In(Plain(), s) {
      var k :| 0 <= k <= |s| && In(Dirs(IsDirChar), s[..k]) && In(DottedName(), s[k..]);
      PlainSplit(s, k);
    } else if IsPlainParts(Parts(s)) {
      PlainJoin(s);
    }
  }

  lemma LeadSplit(s: string, k: nat)
    requires k <= |s| && In(Lead(), s[..k]) && In(Plain(), s[k..])
    ensures |Parts(s)| > 1 && IsLead(Parts(s)[0]) && IsPlainParts(Parts(s)[1..])
  {
    LeadMeans(s[..k]);
    PlainMeans(s[k..]);
    var lead := s[..k][..k - 1];
    LeadHasNoSlash(lead);
    assert s[..k] == lead + "/" && s == Slash(lead, s[k..]);
    PartsAfterSlash(lead, s[k..]);
    hide In;
  }

  lemma LeadHasNoSlash(lead: string)
    requires IsLead(lead)
    ensures NoSlash(lead)
  {
  }

  lemma LeadJoin(s: string)
    requires |Parts(s)| > 1 && IsLead(Parts(s)[0]) && IsPlainParts(Parts(s)[1..])
    ensures In(Then(Lead(), Plain()), s)
  {
    var rest := FirstPart(s);
    var lead := Parts(s)[0] + "/";
    assert lead[..|lead| - 1] == Parts(s)[0];
    LeadMeans(lead);
    PlainMeans(rest);
    InThen(Lead(), Plain(), lead, rest);
    assert s == lead + rest;
  }

  lemma LeadThenPlain(s: string)
    ensures In(Then(Lead(), Plain()), s) <==> |Parts(s)| > 1 && IsLead(Parts(s)[0]) && IsPlainParts(Parts(s)[1..])
  {
    if In(Then(Lead(), Plain()), s) {
      var k :| 0 <= k <= |s| && In(Lead(), s[..k]) && In(Plain(), s[k..]);
      LeadSplit(s, k);
    } else if |Parts(s)| > 1 && IsLead(Parts(s)[0]) && IsPlainParts(Parts(s)[1..]) {
      LeadJoin(s);
    }
  }

  lemma DottedPartsCases(parts: seq<string>)
    ensures IsDottedParts(parts) <==>
      IsPlainParts(parts) || (|parts| > 1 && IsLead(parts[0]) && IsPlainParts(parts[1..]))
  {
    if |parts| > 1 {
      var dirs, rest := parts[..|parts| - 1], parts[1..];
      assert forall i :: 0 <= i < |dirs| ==> dirs[i] == parts[i];
      assert rest[|rest| - 1] == parts[|parts| - 1];
      MiddleParts(parts, IsDirChar);
    }
  }

  /** The parts between the first and the last. */
  lemma MiddleParts(parts: seq<string>, p: char -> bool)
    requires |parts| > 1
    ensures AllParts(parts[1..][..|parts| - 2], p) <==> forall i :: 1 <= i < |parts| - 1 ==> IsPart(parts[i], p)
  {
    var middle := parts[1..][..|parts| - 2];
    if AllParts(middle, p) {
      forall i | 1 <= i < |parts| - 1 ensures IsPart(parts[i], p) {
        assert IsPart(middle[i - 1], p);
      }
    }
    if forall i :: 1 <= i < |parts| - 1 ==> IsPart(parts[i], p) {
      forall i | 0 <= i < |middle| ensures IsPart(middle[i], p) {
        assert middle[i] == parts[i + 1];
      }
    }
  }

  lemma OptionalLead(s: string)
    ensures In(DottedPath(), s) <==> In(Plain(), s) || In(Then(Lead(), Plain()), s)
  {
    if In(DottedPath(), s) {
      var k :| 0 <= k <= |s| && In(Opt(Lead()), s[..k]) && In(Plain(), s[k..]);
      if !In(Lead(), s[..k]) {
        assert In(Empty, s[..k]);
        assert s[k..] == s;
      }
    }
    if In(Plain(), s) {
      assert s[..0] == "" && s[0..] == s && In(Empty, "") && In(Opt(Lead()), "");
    }
    if In(Then(Lead(), Plain()), s) {
      var k :| 0 <= k <= |s| && In(Lead(), s[..k]) && In(Plain(), s[k..]);
      assert In(Opt(Lead()), s[..k]);
    }
  }

  /** The first alternative of the pattern, without the line suffix. */
  lemma DottedPathMeans(s: string)
    ensures In(DottedPath(), s) <==> IsDottedParts(Parts(s))
  {
    OptionalLead(s);
    PlainMeans(s);
    LeadThenPlain(s);
    DottedPartsCases(Parts(s));
  }

  // ---- Absolute paths ----

  /** An empty first part, at least one directory, and a name, with dots allowed in all of them. */
  predicate IsRootedParts(parts: seq<string>) {
    && |parts| > 2 && parts[0] == "" && IsPart(parts[|parts| - 1], IsNameChar)
    && forall i :: 1 <= i < |parts| - 1 ==> IsPart(parts[i], IsRootedDirChar)
  }

  /** At least one directory and a name. */
  function Below(): Re {
    Then(Plus(Then(Plus(Chars(IsRootedDirChar)), Lit('/'))), Plus(Chars(IsNameChar)))
  }

  lemma SomeDirs(p: char -> bool, s: string)
    ensures In(Plus(Then(Plus(Chars(p)), Lit('/'))), s) <==> s != "" && In(Dirs(p), s)
  {
    var dir := Then(Plus(Chars(p)), Lit('/'));
    if In(Plus(dir), s) {
      var k :| 0 <= k <= |s| && In(dir, s[..k]) && In(Star(dir), s[k..]);
      InNonempty(dir, s[..k]);
    }
  }

  lemma BelowMeans(s: string)
    ensures In(Below(), s) <==> IsBelowParts(Parts(s))
  {
    if In(Below(), s) {
      var k :| 0 <= k <= |s| && In(Plus(Then(Plus(Chars(IsRootedDirChar)), Lit('/'))), s[..k]) &&
        In(Plus(Chars(IsNameChar)), s[k..]);
      BelowSplit(s, k);
    } else if IsBelowParts(Parts(s)) {
      BelowJoin(s);
    }
  }

  predicate IsBelowParts(parts: seq<string>) {
    |parts| > 1 && IsPart(parts[|parts| - 1], IsNameChar) && AllParts(parts[..|parts| - 1], IsRootedDirChar)
  }

  lemma BelowSplit(s: string, k: nat)
    requires k <= |s| && In(Plus(Then(Plus(Chars(IsRootedDirChar)), Lit('/'))), s[..k])
    requires In(Plus(Chars(IsNameChar)), s[k..])
    ensures IsBelowParts(Parts(s))
  {
    SomeDirs(IsRootedDirChar, s[..k]);
    PlusOfChars(IsNameChar, s[k..]);
    PartHasNoSlash(s[k..], IsNameChar);
    DirsThenName(IsRootedDirChar, s[..k], s[k..]);
    assert s == s[..k] + s[k..];
    assert |Parts(s)[|Parts(s)| - 1]| < |s|;
    var rest := FirstPart(s);
    hide In;
  }

  lemma BelowJoin(s: string)
    requires IsBelowParts(Parts(s))
    ensures In(Below(), s)
  {
    var name := Parts(s)[|Parts(s)| - 1];
    var dirs := NameAfterDirs(IsRootedDirChar, s);
    NonemptyDirs(s, dirs);
    SomeDirs(IsRootedDirChar, dirs);
    PlusOfChars(IsNameChar, name);
    InThen(Plus(Then(Plus(Chars(IsRootedDirChar)), Lit('/'))), Plus(Chars(IsNameChar)), dirs, name);
  }

  lemma NonemptyDirs(s: string, dirs: string)
    requires |Parts(s)| > 1 && s == dirs + Parts(s)[|Parts(s)| - 1]
    ensures dirs != ""
  {
    PartsJoin(s);
    if dirs == "" {
      PartsOfOne(s);
    }
  }

  /** The second alternative of the pattern, without the line suffix. */
  lemma RootedPathMeans(s: string)
    ensures In(RootedPath(), s) <==> IsRootedParts(Parts(s))
  {
    if In(RootedPath(), s) {
      var k :| 0 <= k <= |s| && In(Lit('/'), s[..k]) && In(Below(), s[k..]);
      assert k == 1 && s == "/" + s[1..];
      RootSplit(s[1..]);
    } else if IsRootedParts(Parts(s)) {
      RootJoin(s);
    }
  }

  lemma RootSplit(rest: string)
    requires In(Below(), rest)
    ensures IsRootedParts(Parts("/" + rest))
  {
    BelowMeans(rest);
    hide In, Below, Parts;
    PartsAfterSlash("", rest);
    var parts := Parts(rest);
    assert Slash("", rest) == "/" + rest;
    assert ([""] + parts)[1..] == parts;
    RootedCases([""] + parts);
  }

  lemma RootJoin(s: string)
    requires IsRootedParts(Parts(s))
    ensures In(RootedPath(), s)
  {
    var rest := FirstPart(s);
    RootedCases(Parts(s));
    BelowMeans(rest);
    assert In(Lit('/'), "/") && s == "/" + rest;
    InThen(Lit('/'), Below(), "/", rest);
  }

  lemma RootedCases(parts: seq<string>)
    requires |parts| > 1 && parts[0] == ""
    ensures IsRootedParts(parts) <==> IsBelowParts(parts[1..])
  {
    var rest := parts[1..];
    assert rest[|rest| - 1] == parts[|parts| - 1];
    MiddleParts(parts, IsRootedDirChar);
  }

  /**
   * A token matches the pattern exactly if it is, before an optional line
   * suffix, one of the two kinds of slash-separated path.
   */
  lemma PathTokenMeans(s: string)
    ensures IsPathToken(s) <==>
      exists k :: 0 <= k <= |s| && (s[k..] == "" || In(Suffix(), s[k..]))
        && (IsDottedParts(Parts(s[..k])) || IsRootedParts(Parts(s[..k])))
  {
    if IsPathToken(s) {
      var path := if In(Then(DottedPath(), Opt(Suffix())), s) then DottedPath() else RootedPath();
      var k :| 0 <= k <= |s| && In(path, s[..k]) && In(Opt(Suffix()), s[k..]);
      OptionalSuffix(s[k..]);
      DottedPathMeans(s[..k]);
      RootedPathMeans(s[..k]);
    }
    if k :| 0 <= k <= |s| && (s[k..] == "" || In(Suffix(), s[k..]))
            && (IsDottedParts(Parts(s[..k])) || IsRootedParts(Parts(s[..k]))) {
      OptionalSuffix(s[k..]);
      DottedPathMeans(s[..k]);
      RootedPathMeans(s[..k]);
      assert In(Opt(Suffix()), s[k..]);
    }
  }

  lemma OptionalSuffix(s: string)
    ensures In(Opt(Suffix()), s) <==> s == "" || In(Suffix(), s)
  {
    assert In(Opt(Suffix()), s) <==> In(Suffix(), s) || In(Empty, s);
  }

  // ---- The URL tests ----

  lemma {:induction false} ContainsAt(s: string, part: string) returns (i: nat)
    requires Contains(s, part)
    ensures i + |part| <= |s| && s[i..i + |part|] == part
  {
    if StartsWith(s, part) {
      i := 0;
    } else {
      var j := ContainsAt(s[1..], part);
      i := j + 1;
      assert s[1..][j..j + |part|] == s[i..i + |part|];
    }
  }

  /** A path token: a path that is more than letters and digits, then nothing or a colon and digits and colons. */
  lemma PathTokenParts(s: string) returns (k: nat)
    requires IsPathToken(s)
    ensures k <= |s| && All(s[..k], IsPathChar) && !All(s[..k], IsAlnum)
    ensures All(s[k..], IsSuffixChar) && (k < |s| ==> s[k] == ':')
  {
    PathOver();
    PathLeaves();
    var path := if In(Then(DottedPath(), Opt(Suffix())), s) then DottedPath() else RootedPath();
    hide DottedPath, RootedPath;
    k := PathAndSuffix(path, s);
  }

  lemma PathLeaves()
    ensures Leaves(DottedPath(), IsAlnum) && Leaves(RootedPath(), IsAlnum)
  {
  }

  lemma PathAndSuffix(path: Re, s: string) returns (k: nat)
    requires In(Then(path, Opt(Suffix())), s) && Over(path, IsPathChar) && Leaves(path, IsAlnum)
    ensures k <= |s| && All(s[..k], IsPathChar) && !All(s[..k], IsAlnum)
    ensures All(s[k..], IsSuffixChar) && (k < |s| ==> s[k] == ':')
  {
    k :| 0 <= k <= |s| && In(path, s[..k]) && In(Opt(Suffix()), s[k..]);
    InOver(path, s[..k], IsPathChar);
    InLeaves(path, s[..k], IsAlnum);
    OptionalSuffix(s[k..]);
    if s[k..] != "" {
      SuffixOver();
      InOver(Suffix(), s[k..], IsSuffixChar);
      SuffixBegins(s[k..]);
      assert s[k..][0] == s[k];
    }
  }

  /** A scheme: letters, then a colon. */
  predicate StartsWithScheme(s: string, n: nat) {
    n < |s| && s[n] == ':' && All(s[..n], IsAlnum)
  }

  lemma SchemeFound(s: string, scheme: string)
    requires StartsWith(Lower(s), scheme + ":") && All(scheme, IsAlnum)
    ensures StartsWithScheme(s, |scheme|)
  {
    var n := |scheme|;
    assert (scheme + ":")[n] == ':' == Lower(s)[..n + 1][n] == Lower(s)[n];
    forall i | 0 <= i < n ensures IsAlnum(s[..n][i]) {
      assert (scheme + ":")[i] == scheme[i] == Lower(s)[..n + 1][i] == LowerChar(s[i]);
    }
  }

  lemma UrlHasScheme(s: string) returns (n: nat)
    requires LooksLikeUrl(s)
    ensures StartsWithScheme(s, n)
  {
    assert "http" + ":" == "http:" && "https" + ":" == "https:" && "file" + ":" == "file:" && "ftp" + ":" == "ftp:";
    assert "mailto" + ":" == "mailto:" && "tel" + ":" == "tel:" && "data" + ":" == "data:";
    var lower := Lower(s);
    var scheme :=
      if StartsWith(lower, "http:") then "http" else if StartsWith(lower, "https:") then "https"
      else if StartsWith(lower, "file:") then "file" else if StartsWith(lower, "ftp:") then "ftp"
      else if StartsWith(lower, "mailto:") then "mailto" else if StartsWith(lower, "tel:") then "tel" else "data";
    SchemeFound(s, scheme);
    n := |scheme|;
  }

  /** On a token that matches the pattern the two URL tests never decide anything: the pattern excludes URLs. */
  lemma UrlTestsAreRedundant(s: string)
    requires IsPathToken(s)
    ensures !LooksLikeUrl(s) && !Contains(s, "://")
  {
    var k := PathTokenParts(s);
    if LooksLikeUrl(s) {
      var n := UrlHasScheme(s);
      SchemeMeetsPath(s, k, n);
    }
    if Contains(s, "://") {
      var i := ContainsAt(s, "://");
      assert s[i..i + 3][0] == s[i] && s[i..i + 3][1] == s[i + 1];
      ColonSlash(s, k, i);
    }
  }

  lemma SchemeMeetsPath(s: string, k: nat, n: nat)
    requires k <= |s| && All(s[..k], IsPathChar) && !All(s[..k], IsAlnum) && (k < |s| ==> s[k] == ':')
    ensures !StartsWithScheme(s, n)
  {
    if n < k {
      assert IsPathChar(s[..k][n]);
    } else if k < n < |s| {
      assert s[..n][k] == ':';
    }
  }

  lemma ColonSlash(s: string, k: nat, i: nat)
    requires k <= |s| && All(s[..k], IsPathChar) && All(s[k..], IsSuffixChar) && i + 1 < |s|
    ensures !(s[i] == ':' && s[i + 1] == '/')
  {
    if i < k {
      assert IsPathChar(s[..k][i]);
    } else {
      assert IsSuffixChar(s[k..][i + 1 - k]);
    }
  }
}
