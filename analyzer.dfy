/**
  The heuristic code classifier (`CodeAnalyzer`): language detection from
  the file extension or, failing that, from weighted regular-expression
  scores over the content; dependency extraction; and the per-file
  structure summary with its line counters.

  Regular expressions are not interpreted: a `Matcher` gives what
  `re.findall(pattern, text, flags)` returns for a pattern, so a match count
  is the length of that list. The file's text, as a text-mode `read` yields
  it, is an input; reading may fail.
 */
module Analyzer {
  import opened Wrappers
  import opened Errors
  import opened Text
  import opened Ordering
  import opened Paths

  datatype Language = Python | JavaScript | TypeScript | Java | Go | Rust

  /** The order of `LANGUAGE_PATTERNS`, which is the order every table loop visits. */
  const Languages: seq<Language> := [Python, JavaScript, TypeScript, Java, Go, Rust]

  /** The dictionary key of a language. */
  function LanguageName(l: Language): string
  {
    match l
    case Python => "python"
    case JavaScript => "javascript"
    case TypeScript => "typescript"
    case Java => "java"
    case Go => "go"
    case Rust => "rust"
  }

  /** A pattern and whether it is searched with `re.MULTILINE`. */
  datatype Regex = Regex(source: string, multiline: bool)

  /** `re.findall(r.source, text, flags)`: the matches (or the captured group) in order. */
  type Matcher = (Regex, string) -> seq<string>

  function Extensions(l: Language): seq<string>
  {
    match l
    case Python => [".py", ".pyx", ".pyi"]
    case JavaScript => [".js", ".mjs"]
    case TypeScript => [".ts", ".tsx"]
    case Java => [".java"]
    case Go => [".go"]
    case Rust => [".rs"]
  }

  function Patterns(l: Language): seq<string>
  {
    match l
    case Python => [@"^\s*import\s+\w+", @"^\s*from\s+\w+\s+import", @"^\s*def\s+\w+\s*\(",
                    @"^\s*class\s+\w+\s*[\(:]", @"^\s*if\s+__name__\s*==\s*[""\']__main__[""\']"]
    case JavaScript => [@"^\s*function\s+\w+\s*\(", @"^\s*const\s+\w+\s*=", @"^\s*let\s+\w+\s*=",
                        @"^\s*var\s+\w+\s*=", @"^\s*import\s+.*\s+from\s+[""\']", @"^\s*export\s+"]
    case TypeScript => [@"^\s*interface\s+\w+\s*{", @"^\s*type\s+\w+\s*=", @"^\s*enum\s+\w+\s*{",
                        @":\s*\w+\s*[=;]", @"^\s*import\s+.*\s+from\s+[""\']"]
    case Java => [@"^\s*public\s+class\s+\w+", @"^\s*private\s+\w+\s+\w+", @"^\s*public\s+static\s+void\s+main",
                  @"^\s*package\s+\w+", @"^\s*import\s+\w+"]
    case Go => [@"^\s*package\s+\w+", @"^\s*import\s+[""\(]", @"^\s*func\s+\w+\s*\(",
                @"^\s*type\s+\w+\s+struct", @"^\s*var\s+\w+\s+\w+"]
    case Rust => [@"^\s*fn\s+\w+\s*\(", @"^\s*struct\s+\w+\s*{", @"^\s*impl\s+\w+\s*{",
                  @"^\s*use\s+\w+", @"^\s*mod\s+\w+"]
  }

  function Keywords(l: Language): seq<string>
  {
    match l
    case Python => ["def", "class", "import", "from", "if", "elif", "else", "for", "while", "try", "except"]
    case JavaScript => ["function", "const", "let", "var", "import", "export", "if", "else", "for", "while"]
    case TypeScript => ["interface", "type", "enum", "function", "const", "let", "import", "export"]
    case Java => ["public", "private", "protected", "class", "interface", "package", "import"]
    case Go => ["package", "import", "func", "type", "struct", "var", "const"]
    case Rust => ["fn", "struct", "impl", "use", "mod", "let", "mut"]
  }

  /** `DEPENDENCY_PATTERNS[l]`; each has one capturing group, so `findall` yields the captured names. */
  function DependencyPatterns(l: Language): seq<string>
  {
    match l
    case Python => [@"^\s*import\s+(\w+(?:\.\w+)*)", @"^\s*from\s+(\w+(?:\.\w+)*)\s+import"]
    case JavaScript => [@"^\s*import\s+.*\s+from\s+[""\']([^""\']+)[""\']",
                        @"^\s*const\s+.*\s*=\s*require\s*\(\s*[""\']([^""\']+)[""\']\s*\)"]
    case TypeScript => [@"^\s*import\s+.*\s+from\s+[""\']([^""\']+)[""\']"]
    case Java => [@"^\s*import\s+([\w\.]+)"]
    case Go => [@"^\s*import\s+[""\']([^""\']+)[""\']", @"^\s*import\s+\w+\s+[""\']([^""\']+)[""\']"]
    case Rust => [@"^\s*use\s+([\w:]+)"]
  }

  /**
    The whole-word search for a keyword, `rf'\b{re.escape(k)}\b'` without
    flags; every keyword is made of letters, which `re.escape` leaves alone.
   */
  function WholeWord(k: string): Regex
  {
    Regex(@"\b" + k + @"\b", false)
  }

  // ---------------------------------------------------------------------------
  // Extension lookup

  /** `filepath.suffix.lower()` */
  function Extension(path: Path): string
  {
    LowerAscii(Suffix(Name(path)))
  }

  /** The first language in table order whose extension list holds `ext`. */
  function ExtensionLanguage(ext: string): (r: Option<Language>)
    ensures r.Some? ==> ext in Extensions(r.value)
  {
    FirstWithExtension(Languages, ext)
  }

  function FirstWithExtension(langs: seq<Language>, ext: string): (r: Option<Language>)
    ensures r.Some? ==> r.value in langs && ext in Extensions(r.value)
    ensures r.None? ==> forall l :: l in langs ==> ext !in Extensions(l)
  {
    if langs == [] then None
    else if ext in Extensions(langs[0]) then Some(langs[0])
    else FirstWithExtension(langs[1..], ext)
  }

  /** No extension belongs to two languages. */
  lemma ExtensionsDisjoint(a: Language, b: Language, ext: string)
    requires ext in Extensions(a) && ext in Extensions(b)
    ensures a == b
  {
  }

  /** The extension lookup is unambiguous: it names a language exactly when that language lists the extension. */
  lemma ExtensionLanguageExact(ext: string, l: Language)
    ensures ExtensionLanguage(ext) == Some(l) <==> ext in Extensions(l)
  {
    if ext in Extensions(l) {
      assert l in Languages by { assert Languages[0] == Python; }
      match ExtensionLanguage(ext)
      case Some(k) => ExtensionsDisjoint(k, l, ext);
      case None =>
    }
  }

  // ---------------------------------------------------------------------------
  // Scores

  /** Total matches of the multi-line patterns `ps` in `text`. */
  function PatternHits(ps: seq<string>, text: string, m: Matcher): nat
  {
    if ps == [] then 0 else PatternHits(ps[..|ps| - 1], text, m) + |m(Regex(ps[|ps| - 1], true), text)|
  }

  /** Total whole-word matches of the keywords `ks` in `text`. */
  function KeywordHits(ks: seq<string>, text: string, m: Matcher): nat
  {
    if ks == [] then 0 else KeywordHits(ks[..|ks| - 1], text, m) + |m(WholeWord(ks[|ks| - 1]), text)|
  }

  /** A language's score: each pattern match counts twice, each keyword match once. */
  function Score(l: Language, text: string, m: Matcher): nat
  {
    2 * PatternHits(Patterns(l), text, m) + KeywordHits(Keywords(l), text, m)
  }

  /** `language_scores` after visiting `langs`: the languages with a positive score. */
  function ScoresOf(langs: seq<Language>, text: string, m: Matcher): (scores: map<Language, nat>)
    ensures forall l :: l in scores <==> l in langs && Score(l, text, m) > 0
    ensures forall l :: l in scores ==> scores[l] == Score(l, text, m)
  {
    if langs == [] then map[]
    else
      var last := langs[|langs| - 1];
      var s := ScoresOf(langs[..|langs| - 1], text, m);
      assert forall l :: l in langs <==> l in langs[..|langs| - 1] || l == last;
      if Score(last, text, m) > 0 then s[last := Score(last, text, m)] else s
  }

  /**
    `max(scores, key=scores.get)` over a dictionary whose keys were inserted
    in the order of `langs`: the first key of largest value.
   */
  function FirstMax(langs: seq<Language>, scores: map<Language, nat>): (r: Option<Language>)
    ensures r.Some? ==> r.value in langs && r.value in scores
  {
    if langs == [] then None
    else
      var rest := FirstMax(langs[1..], scores);
      if langs[0] !in scores then rest
      else if rest.None? || scores[langs[0]] >= scores[rest.value] then Some(langs[0])
      else rest
  }

  /** `FirstMax` picks a key of largest value, the earliest one among equals, and is None only without keys. */
  lemma {:induction false} FirstMaxIsFirstMaximum(langs: seq<Language>, scores: map<Language, nat>)
    ensures FirstMax(langs, scores).None? <==> forall l :: l in langs ==> l !in scores
    ensures FirstMax(langs, scores).Some? ==>
      var w := FirstMax(langs, scores).value;
      w in langs && w in scores
      && (forall l :: l in langs && l in scores ==> scores[l] <= scores[w])
      && (forall i :: 0 <= i < |langs| && langs[i] in scores && langs[i] != w && scores[langs[i]] == scores[w]
            ==> exists j :: 0 <= j < i && langs[j] == w)
  {
    if langs != [] {
      FirstMaxIsFirstMaximum(langs[1..], scores);
      var rest := FirstMax(langs[1..], scores);
      assert forall l :: l in langs <==> l == langs[0] || l in langs[1..];
      var w := FirstMax(langs, scores);
      if w.Some? {
        forall i | 0 <= i < |langs| && langs[i] in scores && langs[i] != w.value && scores[langs[i]] == scores[w.value]
          ensures exists j :: 0 <= j < i && langs[j] == w.value
        {
          if w.value == langs[0] {
            assert 0 < i && langs[0] == w.value;
          } else {
            assert w == rest && i > 0;
            assert langs[1..][i - 1] == langs[i];
            var j :| 0 <= j < i - 1 && langs[1..][j] == rest.value;
            assert langs[j + 1] == rest.value;
          }
        }
      }
    }
  }

  /** The language the content scores best for, or None when every score is zero. */
  function BestLanguage(text: string, m: Matcher): Option<Language>
  {
    FirstMax(Languages, ScoresOf(Languages, text, m))
  }

  lemma LanguagesComplete(l: Language)
    ensures l in Languages
  {
    match l
    case Python => assert Languages[0] == l;
    case JavaScript => assert Languages[1] == l;
    case TypeScript => assert Languages[2] == l;
    case Java => assert Languages[3] == l;
    case Go => assert Languages[4] == l;
    case Rust => assert Languages[5] == l;
  }

  /** Content-based detection finds nothing exactly when every language scores zero. */
  lemma BestLanguageNone(text: string, m: Matcher)
    ensures BestLanguage(text, m).None? <==> forall l :: Score(l, text, m) == 0
  {
    FirstMaxIsFirstMaximum(Languages, ScoresOf(Languages, text, m));
    forall l ensures l in Languages {
      LanguagesComplete(l);
    }
  }

  /**
    Content-based detection returns a language of largest positive score,
    the earliest in table order among equal scores.
   */
  lemma BestLanguageIsArgmax(text: string, m: Matcher)
    requires BestLanguage(text, m).Some?
    ensures var w := BestLanguage(text, m).value;
      Score(w, text, m) > 0
      && (forall l :: Score(l, text, m) <= Score(w, text, m))
      && (forall i :: 0 <= i < |Languages| && Languages[i] != w && Score(Languages[i], text, m) == Score(w, text, m)
            ==> exists j :: 0 <= j < i && Languages[j] == w)
  {
    BestScoresPositive(text, m);
    BestScoresMost(text, m);
    BestIsEarliest(text, m);
  }

  lemma BestScoresPositive(text: string, m: Matcher)
    requires BestLanguage(text, m).Some?
    ensures Score(BestLanguage(text, m).value, text, m) > 0
  {
    FirstMaxIsFirstMaximum(Languages, ScoresOf(Languages, text, m));
  }

  lemma BestScoresMost(text: string, m: Matcher)
    requires BestLanguage(text, m).Some?
    ensures forall l :: Score(l, text, m) <= Score(BestLanguage(text, m).value, text, m)
  {
    FirstMaxIsFirstMaximum(Languages, ScoresOf(Languages, text, m));
    forall l ensures l in Languages {
      LanguagesComplete(l);
    }
  }

  lemma BestIsEarliest(text: string, m: Matcher)
    requires BestLanguage(text, m).Some?
    ensures var w := BestLanguage(text, m).value;
      forall i :: 0 <= i < |Languages| && Languages[i] != w && Score(Languages[i], text, m) == Score(w, text, m)
        ==> exists j :: 0 <= j < i && Languages[j] == w
  {
    var scores := ScoresOf(Languages, text, m);
    FirstMaxIsFirstMaximum(Languages, scores);
    var w := BestLanguage(text, m).value;
    forall i | 0 <= i < |Languages| && Languages[i] != w && Score(Languages[i], text, m) == Score(w, text, m)
      ensures exists j :: 0 <= j < i && Languages[j] == w
    {
      assert Languages[i] in scores;
    }
  }

  /** `f.read(8192)`: the first 8192 characters. */
  function Sample(text: string): (s: string)
    ensures |s| <= 8192 && |s| <= |text| && s == text[..|s|]
    ensures |text| <= 8192 ==> s == text
  {
    if |text| <= 8192 then text else text[..8192]
  }

  /**
    `detect_language(filepath, content)`: the extension decides when it is
    listed; otherwise the given content, or the first 8192 characters read
    from the file, is scored.
   */
  function Detection(path: Path, content: Option<string>, read: Result<string, Cause>, m: Matcher)
    : (r: Result<Option<Language>, Error>)
    ensures r.Err? ==> content.None? && read.Err? && r.error == FileOperationError("language_detection", read.error)
    ensures ExtensionLanguage(Extension(path)).Some? ==> r == Ok(ExtensionLanguage(Extension(path)))
  {
    var byExtension := ExtensionLanguage(Extension(path));
    if byExtension.Some? then Ok(byExtension)
    else if content.Some? then Ok(BestLanguage(content.value, m))
    else if read.Err? then Err(FileOperationError("language_detection", read.error))
    else Ok(BestLanguage(Sample(read.value), m))
  }

  /** A listed extension decides the language whatever the content and whether or not the file is readable. */
  lemma ExtensionIsAuthoritative(path: Path, l: Language, c1: Option<string>, r1: Result<string, Cause>,
                                 c2: Option<string>, r2: Result<string, Cause>, m1: Matcher, m2: Matcher)
    requires Extension(path) in Extensions(l)
    ensures Detection(path, c1, r1, m1) == Detection(path, c2, r2, m2) == Ok(Some(l))
  {
    ExtensionLanguageExact(Extension(path), l);
  }

  /** The score loops of `detect_language` for one language with patterns `ps` and keywords `ks`. */
  method LanguageScore(ps: seq<string>, ks: seq<string>, text: string, m: Matcher) returns (score: nat)
    ensures score == 2 * PatternHits(ps, text, m) + KeywordHits(ks, text, m)
  {
    score := 0;
    for j := 0 to |ps|
      invariant score == 2 * PatternHits(ps[..j], text, m)
    {
      assert ps[..j + 1][..j] == ps[..j];
      score := score + |m(Regex(ps[j], true), text)| * 2;
    }
    assert ps[..|ps|] == ps;
    for j := 0 to |ks|
      invariant score == 2 * PatternHits(ps, text, m) + KeywordHits(ks[..j], text, m)
    {
      assert ks[..j + 1][..j] == ks[..j];
      score := score + |m(WholeWord(ks[j]), text)|;
    }
    assert ks[..|ks|] == ks;
  }

  lemma ScoresStep(langs: seq<Language>, i: nat, text: string, m: Matcher)
    requires i < |langs|
    ensures ScoresOf(langs[..i + 1], text, m)
            == if Score(langs[i], text, m) > 0 then ScoresOf(langs[..i], text, m)[langs[i] := Score(langs[i], text, m)]
               else ScoresOf(langs[..i], text, m)
  {
    assert langs[..i + 1][..i] == langs[..i];
  }

  /** The extension loop of `detect_language`: the first language listing the extension. */
  method LookupExtension(ext: string) returns (r: Option<Language>)
    ensures r == ExtensionLanguage(ext)
  {
    var i := 0;
    while i < |Languages|
      invariant 0 <= i <= |Languages|
      invariant FirstWithExtension(Languages[i..], ext) == ExtensionLanguage(ext)
    {
      if ext in Extensions(Languages[i]) {
        return Some(Languages[i]);
      }
      assert Languages[i..][1..] == Languages[i + 1..];
      i := i + 1;
    }
    return None;
  }

  /** The scoring loop of `detect_language`: `language_scores` over the whole table. */
  method ScoreLanguages(text: string, m: Matcher) returns (scores: map<Language, nat>)
    ensures scores == ScoresOf(Languages, text, m)
  {
    scores := map[];
    for i := 0 to |Languages|
      invariant scores == ScoresOf(Languages[..i], text, m)
    {
      var lang := Languages[i];
      ScoresStep(Languages, i, text, m);
      var score := LanguageScore(Patterns(lang), Keywords(lang), text, m);
      if score > 0 {
        scores := scores[lang := score];
      }
    }
    assert Languages[..|Languages|] == Languages;
  }

  /** `detect_language(filepath, content)` */
  method DetectLanguage(path: Path, content: Option<string>, read: Result<string, Cause>, m: Matcher)
    returns (r: Result<Option<Language>, Error>)
    ensures r == Detection(path, content, read, m)
  {
    var byExtension := LookupExtension(Extension(path));
    if byExtension.Some? {
      return Ok(byExtension);
    }
    var text: string;
    if content.Some? {
      text := content.value;
    } else if read.Err? {
      return Err(FileOperationError("language_detection", read.error));
    } else {
      text := Sample(read.value);
    }
    var scores := ScoreLanguages(text, m);
    r := Ok(FirstMax(Languages, scores));
  }

  // ---------------------------------------------------------------------------
  // Dependencies

  /** What `extract_dependencies` keeps of a stripped match: non-empty and not relative. */
  predicate Kept(d: string)
  {
    d != "" && d[0] != '.'
  }

  /** The kept, stripped entries of one `findall` result. */
  function KeptOf(matches: seq<string>): set<string>
  {
    if matches == [] then {}
    else KeptOf(matches[..|matches| - 1]) + (if Kept(Strip(matches[|matches| - 1])) then {Strip(matches[|matches| - 1])} else {})
  }

  /** The kept set holds exactly the kept stripped captures. */
  lemma {:induction false} KeptOfExact(matches: seq<string>, d: string)
    ensures d in KeptOf(matches) <==> Kept(d) && exists x :: x in matches && Strip(x) == d
  {
    if matches != [] {
      var init := matches[..|matches| - 1];
      KeptOfExact(init, d);
      assert forall x :: x in matches <==> x in init || x == matches[|matches| - 1];
    }
  }

  /** The dependency set after scanning with the patterns `ps`. */
  function DependenciesOf(ps: seq<string>, text: string, m: Matcher): set<string>
  {
    if ps == [] then {} else DependenciesOf(ps[..|ps| - 1], text, m) + KeptOf(m(Regex(ps[|ps| - 1], true), text))
  }

  /** A dependency is exactly a kept, stripped capture of one of the language's patterns. */
  lemma {:induction false} DependenciesOfExact(ps: seq<string>, text: string, m: Matcher, d: string)
    ensures d in DependenciesOf(ps, text, m) <==>
            Kept(d) && exists i, x :: 0 <= i < |ps| && x in m(Regex(ps[i], true), text) && Strip(x) == d
  {
    if ps != [] {
      var init := ps[..|ps| - 1];
      DependenciesOfExact(init, text, m, d);
      KeptOfExact(m(Regex(ps[|ps| - 1], true), text), d);
      if d in DependenciesOf(ps, text, m) && d !in DependenciesOf(init, text, m) {
        var x :| x in m(Regex(ps[|ps| - 1], true), text) && Strip(x) == d && Kept(d);
      }
      if Kept(d) && exists i, x :: 0 <= i < |ps| && x in m(Regex(ps[i], true), text) && Strip(x) == d {
        var i, x :| 0 <= i < |ps| && x in m(Regex(ps[i], true), text) && Strip(x) == d;
        if i < |ps| - 1 {
          assert init[i] == ps[i];
        }
      }
    }
  }

  /** Every dependency is non-empty, has no surrounding white space and does not start with '.'. */
  lemma DependenciesWellFormed(ps: seq<string>, text: string, m: Matcher, d: string)
    requires d in DependenciesOf(ps, text, m)
    ensures d != "" && d[0] != '.' && !IsSpace(d[0]) && !IsSpace(d[|d| - 1])
  {
    DependenciesOfExact(ps, text, m, d);
    var i, x :| 0 <= i < |ps| && x in m(Regex(ps[i], true), text) && Strip(x) == d;
  }

  /** The dependency scan over the detected language's patterns. */
  method ScanDependencies(ps: seq<string>, text: string, m: Matcher) returns (deps: set<string>)
    ensures deps == DependenciesOf(ps, text, m)
  {
    deps := {};
    for i := 0 to |ps|
      invariant deps == DependenciesOf(ps[..i], text, m)
    {
      assert ps[..i + 1][..i] == ps[..i];
      var matches := m(Regex(ps[i], true), text);
      deps := AddKept(deps, matches);
    }
    assert ps[..|ps|] == ps;
  }

  /** The inner loop over one pattern's captures: each stripped, kept capture joins `deps`. */
  method AddKept(deps: set<string>, matches: seq<string>) returns (deps': set<string>)
    ensures deps' == deps + KeptOf(matches)
  {
    deps' := deps;
    for j := 0 to |matches|
      invariant deps' == deps + KeptOf(matches[..j])
    {
      assert matches[..j + 1][..j] == matches[..j];
      var dependency := Strip(matches[j]);
      if dependency != "" && dependency[0] != '.' {
        deps' := deps' + {dependency};
      }
    }
    assert matches[..|matches|] == matches;
  }

  /**
    `extract_dependencies(filepath, content)`: nothing without a detected
    language; otherwise the sorted set of kept captures of the language's
    dependency patterns over the given content or the whole file.
   */
  function Dependencies(path: Path, content: Option<string>, read: Result<string, Cause>, m: Matcher)
    : (r: Result<set<string>, Error>)
  {
    var detected := Detection(path, content, read, m);
    if detected.Err? then Err(detected.error)
    else if detected.value.None? then Ok({})
    else if content.None? && read.Err? then Err(FileOperationError("dependency_extraction", read.error))
    else
      var text := if content.Some? then content.value else read.value;
      Ok(DependenciesOf(DependencyPatterns(detected.value.value), text, m))
  }

  /** `extract_dependencies(filepath, content)` */
  method ExtractDependencies(path: Path, content: Option<string>, read: Result<string, Cause>, m: Matcher)
    returns (r: Result<seq<string>, Error>)
    ensures r.Err? <==> Dependencies(path, content, read, m).Err?
    ensures r.Err? ==> r.error == Dependencies(path, content, read, m).error
    ensures r.Ok? ==> StrictlyAscending(r.value) && Elements(r.value) == Dependencies(path, content, read, m).value
  {
    var language := DetectLanguage(path, content, read, m);
    ghost var want := Dependencies(path, content, read, m);
    if language.Err? {
      assert want == Err(language.error);
      return Err(language.error);
    }
    if language.value.None? {
      assert want == Ok({});
      ElementsEmpty([]);
      return Ok([]);
    }
    var text: string;
    if content.Some? {
      text := content.value;
    } else if read.Err? {
      assert want == Err(FileOperationError("dependency_extraction", read.error));
      return Err(FileOperationError("dependency_extraction", read.error));
    } else {
      text := read.value;
    }
    var ps := DependencyPatterns(language.value.value);
    assert want == Ok(DependenciesOf(ps, text, m));
    var deps := ScanDependencies(ps, text, m);
    var sorted := SortedList(deps);
    r := Ok(sorted);
  }

  /** Without a listed extension, an unreadable file fails detection before dependencies are read. */
  lemma UnreadableFailsInDetection(path: Path, cause: Cause, m: Matcher)
    requires ExtensionLanguage(Extension(path)).None?
    ensures Dependencies(path, None, Err(cause), m) == Err(FileOperationError("language_detection", cause))
  {
  }

  /** With a listed extension detection reads nothing, so an unreadable file fails in the dependency read. */
  lemma UnreadableFailsInExtraction(path: Path, l: Language, cause: Cause, m: Matcher)
    requires Extension(path) in Extensions(l)
    ensures Dependencies(path, None, Err(cause), m) == Err(FileOperationError("dependency_extraction", cause))
  {
    ExtensionLanguageExact(Extension(path), l);
  }

  // ---------------------------------------------------------------------------
  // Line counters and structure

  /** `comment_prefixes[language]` */
  function CommentPrefixes(l: Language): seq<string>
  {
    if l == Python then ["#"] else ["//", "/*", "*"]
  }

  predicate IsCommentLine(line: string, prefixes: seq<string>)
  {
    var stripped := Strip(line);
    stripped != "" && exists p :: p in prefixes && StartsWith(stripped, p)
  }

  /** The number of lines of `lines` that are comment lines for `prefixes`. */
  function CommentCount(lines: seq<string>, prefixes: seq<string>): (n: nat)
    ensures n <= |lines|
  {
    if lines == [] then 0
    else CommentCount(lines[..|lines| - 1], prefixes) + (if IsCommentLine(lines[|lines| - 1], prefixes) then 1 else 0)
  }

  /** `_count_comment_lines(lines, language)`: zero without a language. */
  function CommentLines(lines: seq<string>, language: Option<Language>): nat
  {
    if language.None? then 0 else CommentCount(lines, CommentPrefixes(language.value))
  }

  /** `_count_comment_lines(lines, language)` */
  method CountCommentLines(lines: seq<string>, language: Option<Language>) returns (count: nat)
    ensures count == CommentLines(lines, language)
  {
    if language.None? {
      return 0;
    }
    var prefixes := CommentPrefixes(language.value);
    count := 0;
    for i := 0 to |lines|
      invariant count == CommentCount(lines[..i], prefixes)
    {
      assert lines[..i + 1][..i] == lines[..i];
      var stripped := Strip(lines[i]);
      var hit := AnyPrefix(stripped, prefixes);
      if stripped != "" && hit {
        count := count + 1;
      }
    }
    assert lines[..|lines|] == lines;
  }

  /** `any(stripped.startswith(prefix) for prefix in prefixes)` */
  method AnyPrefix(stripped: string, prefixes: seq<string>) returns (hit: bool)
    ensures hit <==> exists p :: p in prefixes && StartsWith(stripped, p)
  {
    hit := false;
    for k := 0 to |prefixes|
      invariant hit <==> exists p :: p in prefixes[..k] && StartsWith(stripped, p)
    {
      assert forall p :: p in prefixes[..k + 1] <==> p in prefixes[..k] || p == prefixes[k];
      hit := hit || StartsWith(stripped, prefixes[k]);
    }
    assert prefixes[..|prefixes|] == prefixes;
  }

  /** `sum(1 for line in lines if not line.strip())` */
  function BlankLines(lines: seq<string>): (n: nat)
    ensures n <= |lines|
  {
    if lines == [] then 0 else BlankLines(lines[..|lines| - 1]) + (if Strip(lines[|lines| - 1]) == "" then 1 else 0)
  }

  /** A line is never both blank and a comment, so the two counters together never exceed the line count. */
  lemma {:induction false} BlankAndCommentDisjoint(lines: seq<string>, language: Option<Language>)
    ensures BlankLines(lines) + CommentLines(lines, language) <= |lines|
  {
    if language.Some? && lines != [] {
      BlankAndCommentDisjoint(lines[..|lines| - 1], language);
    }
  }

  /** The language-specific counts `analyze_file_structure` merges in. */
  datatype Extras =
    | NoExtras
    | PythonExtras(functions: nat, classes: nat)
    | ScriptExtras(functions: nat, arrowFunctions: nat, classes: nat)

  /** `_analyze_python_structure` / `_analyze_js_structure`, chosen by language. */
  function ExtrasFor(language: Option<Language>, text: string, m: Matcher): (e: Extras)
    ensures language == Some(Python) <==> e.PythonExtras?
    ensures language == Some(JavaScript) || language == Some(TypeScript) <==> e.ScriptExtras?
  {
    if language == Some(Python) then
      PythonExtras(|m(Regex(@"^\s*def\s+\w+\s*\(", true), text)|,
                   |m(Regex(@"^\s*class\s+\w+\s*[\(:]", true), text)|)
    else if language == Some(JavaScript) || language == Some(TypeScript) then
      ScriptExtras(|m(Regex(@"^\s*function\s+\w+\s*\(", true), text)|,
                   |m(Regex(@"\w+\s*=\s*\([^)]*\)\s*=>", false), text)|,
                   |m(Regex(@"^\s*class\s+\w+", true), text)|)
    else NoExtras
  }

  /** The dictionary `analyze_file_structure` returns. */
  datatype Structure = Structure(filepath: Path, language: Option<Language>, dependencies: seq<string>,
                                 lineCount: nat, charCount: nat, blankLines: nat, commentLines: nat,
                                 extras: Extras)

  /** `analyze_file_structure(filepath, content)` */
  method AnalyzeFileStructure(path: Path, content: Option<string>, read: Result<string, Cause>, m: Matcher)
    returns (r: Result<Structure, Error>)
    ensures content.None? && read.Err? <==> r.Err?
    ensures r.Err? ==> r.error == FileOperationError("structure_analysis", read.error)
    ensures r.Ok? ==>
      var text := if content.Some? then content.value else read.value;
      var s := r.value;
      var lines := SplitLines(text);
      s.filepath == path
      && Detection(path, Some(text), read, m) == Ok(s.language)
      && Dependencies(path, Some(text), read, m) == Ok(Elements(s.dependencies))
      && StrictlyAscending(s.dependencies)
      && s.lineCount == |lines| && s.charCount == |text|
      && s.blankLines == BlankLines(lines)
      && s.commentLines == CommentLines(lines, s.language)
      && s.blankLines + s.commentLines <= s.lineCount
      && s.extras == ExtrasFor(s.language, text, m)
  {
    var text: string;
    if content.Some? {
      text := content.value;
    } else if read.Err? {
      return Err(FileOperationError("structure_analysis", read.error));
    } else {
      text := read.value;
    }
    var lines := SplitLines(text);
    var language := DetectLanguage(path, Some(text), read, m);
    var deps := ExtractDependencies(path, Some(text), read, m);
    var comments := CountCommentLines(lines, language.value);
    BlankAndCommentDisjoint(lines, language.value);
    r := Ok(Structure(path, language.value, deps.value, |lines|, |text|, BlankLines(lines), comments,
                      ExtrasFor(language.value, text, m)));
  }
}
