/** What counts as a file path (packages/shared/src/filePathDetection.ts). */
module PathPatterns {
  import opened Regex
  import opened Wrappers

  /** `\s` */
  predicate IsSpace(c: char) {
    || '\t' <= c <= '\r' || c == ' ' || c == '\U{00A0}' || c == '\U{1680}' || '\U{2000}' <= c <= '\U{200A}'
    || c == '\U{2028}' || c == '\U{2029}' || c == '\U{202F}' || c == '\U{205F}' || c == '\U{3000}' || c == '\U{FEFF}'
  }

  /** What `.` does not match. */
  predicate IsTerminator(c: char) {
    c == '\n' || c == '\r' || c == '\U{2028}' || c == '\U{2029}'
  }

  predicate IsDigit(c: char) {
    '0' <= c <= '9'
  }

  predicate IsAlnum(c: char) {
    'a' <= c <= 'z' || 'A' <= c <= 'Z' || IsDigit(c)
  }

  predicate IsDirChar(c: char) {
    IsAlnum(c) || c == '_' || c == '@' || c == '-'
  }

  predicate IsNameChar(c: char) {
    IsAlnum(c) || c == '_' || c == '.' || c == '-'
  }

  predicate IsRootedDirChar(c: char) {
    IsDirChar(c) || c == '.'
  }

  /** `:\d+(?::\d+)?` */
  function Suffix(): Re {
    Then(Lit(':'), Then(Plus(Chars(IsDigit)), Opt(Then(Lit(':'), Plus(Chars(IsDigit))))))
  }

  /** A path whose file name has an extension: at most two dots and a slash, directories, the name. */
  function DottedPath(): Re {
    Then(Opt(Then(Then(Opt(Lit('.')), Opt(Lit('.'))), Lit('/'))),
    Then(Star(Then(Plus(Chars(IsDirChar)), Lit('/'))),
    Then(Plus(Chars(IsNameChar)), Then(Lit('.'), Plus(Chars(IsAlnum))))))
  }

  /** An absolute path with at least one directory. */
  function RootedPath(): Re {
    Then(Lit('/'), Then(Plus(Then(Plus(Chars(IsRootedDirChar)), Lit('/'))), Plus(Chars(IsNameChar))))
  }

  /** The pattern between its lookarounds. */
  predicate IsPathToken(s: string) {
    In(Then(DottedPath(), Opt(Suffix())), s) || In(Then(RootedPath(), Opt(Suffix())), s)
  }

  predicate IsPathChar(c: char) {
    IsAlnum(c) || c == '_' || c == '@' || c == '-' || c == '.' || c == '/'
  }

  lemma PathOver()
    ensures Over(DottedPath(), IsPathChar) && Nonempty(DottedPath())
    ensures Over(RootedPath(), IsPathChar) && Nonempty(RootedPath())
  {
  }

  predicate IsSuffixChar(c: char) {
    c == ':' || IsDigit(c)
  }

  lemma SuffixOver()
    ensures Over(Suffix(), IsSuffixChar) && Nonempty(Suffix())
  {
  }

  lemma SuffixBegins(s: string)
    requires In(Suffix(), s)
    ensures s != "" && s[0] == ':'
  {
    var k :| 0 <= k <= |s| && In(Lit(':'), s[..k]);
    assert s[..k][0] == s[0];
  }

  /** The leftmost index, from `i` on, where a line suffix runs to the end. */
  function SuffixStart(s: string, i: nat): (r: Option<nat>)
    ensures r.Some? ==> i <= r.value <= |s| && In(Suffix(), s[r.value..])
    ensures r.Some? ==> forall k :: i <= k < r.value ==> !In(Suffix(), s[k..])
    ensures r.None? ==> forall k :: i <= k <= |s| ==> !In(Suffix(), s[k..])
    decreases |s| + 1 - i
  {
    if i > |s| then None else if In(Suffix(), s[i..]) then Some(i) else SuffixStart(s, i + 1)
  }

  /** The path that the plausibility check looks at: the text without its line suffix. */
  function CheckedPath(s: string): string {
    var i := SuffixStart(s, 0);
    if i.Some? then s[..i.value] else s
  }

  /** `split("/")` */
  function Parts(s: string): (parts: seq<string>)
    ensures |parts| > 0
  {
    if s == "" then [""]
    else
      var rest := Parts(s[1..]);
      if s[0] == '/' then [""] + rest else [[s[0]] + rest[0]] + rest[1..]
  }

  function LowerChar(c: char): char {
    if 'A' <= c <= 'Z' then c - 'A' + 'a' else c
  }

  function Lower(s: string): string {
    seq(|s|, i requires 0 <= i < |s| => LowerChar(s[i]))
  }

  predicate StartsWith(s: string, prefix: string) {
    |prefix| <= |s| && s[..|prefix|] == prefix
  }

  predicate LooksLikeUrl(s: string) {
    var lower := Lower(s);
    || StartsWith(lower, "http:") || StartsWith(lower, "https:")
    || StartsWith(lower, "file:") || StartsWith(lower, "ftp:")
    || StartsWith(lower, "mailto:") || StartsWith(lower, "tel:") || StartsWith(lower, "data:")
  }

  predicate IsMailChar(c: char) {
    !IsSpace(c) && c != '@'
  }

  predicate LooksLikeEmail(s: string) {
    var some := Plus(Chars(IsMailChar));
    In(Then(some, Then(Lit('@'), Then(some, Then(Lit('.'), some)))), s)
  }

  predicate Contains(s: string, part: string) {
    StartsWith(s, part) || (s != "" && Contains(s[1..], part))
  }

  /** The characters after the last dot, if there are some and all are letters or digits. */
  function Extension(name: string): Option<string> {
    if name == "" then None
    else
      var c, front := name[|name| - 1], name[..|name| - 1];
      if !IsAlnum(c) then None
      else if front != "" && front[|front| - 1] == '.' then Some([c])
      else
        var rest := Extension(front);
        if rest.Some? then Some(rest.value + [c]) else None
  }

  /** The extension is what follows the last dot: letters and digits only, and at least one. */
  lemma {:induction false} ExtensionMeans(name: string, ext: string)
    ensures Extension(name) == Some(ext) <==>
      ext != "" && All(ext, IsAlnum) && |ext| < |name| && name[|name| - |ext| - 1..] == "." + ext
    decreases |name|
  {
    if name != "" && ext != "" {
      ExtensionMeans(name[..|name| - 1], ext[..|ext| - 1]);
      ExtensionGrows(name, ext);
      LastLetter(ext);
      ExtensionStep(name, ext);
    }
  }

  lemma LastLetter(ext: string)
    requires ext != ""
    ensures All(ext, IsAlnum) <==> All(ext[..|ext| - 1], IsAlnum) && IsAlnum(ext[|ext| - 1])
  {
    assert All(ext, IsAlnum) ==> forall i :: 0 <= i < |ext| - 1 ==> ext[..|ext| - 1][i] == ext[i];
    assert forall i :: 0 <= i < |ext| - 1 ==> ext[i] == ext[..|ext| - 1][i];
  }

  lemma ExtensionStep(name: string, ext: string)
    requires name != "" && ext != ""
    ensures var c, front, stem, last := name[|name| - 1], name[..|name| - 1], ext[..|ext| - 1], ext[|ext| - 1];
      Extension(name) == Some(ext) <==>
        IsAlnum(c) && c == last &&
        if front != "" && front[|front| - 1] == '.' then stem == "" else Extension(front) == Some(stem)
  {
    assert ext == ext[..|ext| - 1] + [ext[|ext| - 1]];
  }

  /** One character more at the end. */
  lemma ExtensionGrows(name: string, ext: string)
    requires name != "" && ext != ""
    ensures |ext| < |name| && name[|name| - |ext| - 1..] == "." + ext <==>
      && name[|name| - 1] == ext[|ext| - 1]
      && var front, stem := name[..|name| - 1], ext[..|ext| - 1];
         |stem| < |front| && front[|front| - |stem| - 1..] == "." + stem
  {
  }

  function JoinedParts(parts: seq<string>): string {
    if parts == [] then "" else if |parts| == 1 then parts[0] else parts[0] + "/" + JoinedParts(parts[1..])
  }

  /** Splitting at slashes loses nothing, and no part has a slash left. */
  lemma {:induction false} PartsJoin(s: string)
    ensures JoinedParts(Parts(s)) == s
    ensures forall i :: 0 <= i < |Parts(s)| ==> '/' !in Parts(s)[i]
  {
    if s != "" {
      PartsJoin(s[1..]);
      var rest := Parts(s[1..]);
      assert s == [s[0]] + s[1..];
      if s[0] == '/' {
        assert ([""] + rest)[1..] == rest;
      } else {
        assert ([[s[0]] + rest[0]] + rest[1..])[1..] == rest[1..];
      }
    }
  }

  predicate IsKnownExtension(ext: string) {
    ext in {
      "ts", "tsx", "js", "jsx", "mjs", "cjs", "mts", "cts", "html", "htm", "css", "scss", "sass", "less",
      "vue", "svelte", "json", "yaml", "yml", "toml", "xml", "csv", "env", "md", "mdx", "txt", "rst", "py",
      "pyi", "pyx", "ipynb", "rb", "erb", "rake", "go", "mod", "sum", "rs", "java", "kt", "kts", "gradle", "c",
      "h", "cpp", "hpp", "cc", "cxx", "hxx", "sh", "bash", "zsh", "fish", "sql", "graphql", "gql", "proto",
      "swift", "php", "lua", "vim", "el", "ex", "exs", "erl", "hrl", "hs", "lhs", "ml", "mli", "fs", "fsx",
      "fsi", "clj", "cljs", "cljc", "edn", "scala", "sbt", "r", "R", "rmd", "jl", "pl", "pm", "t", "dart",
      "zig", "nim", "cr", "v", "tf", "tfvars", "dockerfile", "makefile", "cmake", "lock", "log"}
  }

  predicate IsKnownFilename(name: string) {
    name in {
      "Dockerfile", "Makefile", "CMakeLists.txt", "Rakefile", "Gemfile", "Procfile", "Vagrantfile",
      ".gitignore", ".gitattributes", ".npmrc", ".nvmrc", ".prettierrc", ".eslintrc", ".editorconfig",
      "package.json", "tsconfig.json", "jsconfig.json", "biome.json", "vitest.config.ts", "vite.config.ts",
      "webpack.config.js", "rollup.config.js", "babel.config.js", "jest.config.js", "tailwind.config.js",
      "postcss.config.js", "next.config.js", "nuxt.config.js", "svelte.config.js", "astro.config.mjs",
      "README.md", "CLAUDE.md", "LICENSE", "CHANGELOG.md", "CONTRIBUTING.md", "pnpm-lock.yaml", "yarn.lock",
      "package-lock.json", "Cargo.toml", "Cargo.lock", "go.mod", "go.sum", "requirements.txt", "setup.py",
      "pyproject.toml", "poetry.lock", "Pipfile", "Pipfile.lock"}
  }

  predicate IsCommonDir(part: string) {
    part in {
      "src", "lib", "test", "tests", "spec", "app", "components", "pages", "api", "routes", "utils", "hooks",
      "styles", "assets", "public", "static", "dist", "build", "node_modules", "packages"}
  }

  predicate IsLikelyFilePath(s: string) {
    && !LooksLikeUrl(s) && !LooksLikeEmail(s) && !Contains(s, "://")
    && var parts := Parts(CheckedPath(s));
       var name := parts[|parts| - 1];
       || (name != "" && IsKnownFilename(name))
       || (Extension(name).Some? && IsKnownExtension(Lower(Extension(name).value)))
       || (|parts| >= 2 && name != "" && All(name, IsNameChar) && exists i :: 0 <= i < |parts| && IsCommonDir(parts[i]))
  }
}
