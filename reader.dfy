/**
  The file reader (`FileReader`): which files count as text, the checks a
  file passes before it is read, the choice of encoding, and reading a
  range of lines.

  The reader only looks at files. What it learns from the operating
  system is an input: a `FileFacts` value (existence, kind, size, the MIME
  type `mimetypes` guesses from the name, and the bytes or the error that
  opening the file gives). Gitignore-style pattern matching and the
  decoding of bytes to text are oracles, `Matcher` and `Decoder`.
 */
module Reader {
  import opened Wrappers
  import opened Errors
  import opened Text
  import opened Paths
  import opened LineRanges

  newtype byte = x: int | 0 <= x < 256

  /** 10 MiB */
  const DefaultMaxSize: nat := 10 * 1024 * 1024

  /** How many leading bytes the text sniffer looks at. */
  const SampleSize: nat := 8192

  /** The extensions of text files, row by row as the source lists them. */
  const TextRow1: set<string> := {".py", ".js", ".ts", ".jsx", ".tsx", ".java", ".cpp", ".c", ".h", ".hpp"}
  const TextRow2: set<string> := {".cs", ".go", ".rs", ".php", ".rb", ".swift", ".kt", ".scala", ".dart"}
  const TextRow3: set<string> := {".html", ".htm", ".css", ".scss", ".sass", ".less", ".xml", ".json"}
  const TextRow4: set<string> := {".yaml", ".yml", ".toml", ".ini", ".cfg", ".conf", ".md", ".rst", ".txt"}
  const TextRow5: set<string> := {".sql", ".sh", ".bash", ".zsh", ".fish", ".ps1", ".bat", ".cmd", ".dockerfile"}
  const TextRow6: set<string> := {".makefile", ".cmake", ".gradle", ".maven", ".pom", ".lock", ".gitignore"}
  const TextRow7: set<string> := {".gitattributes", ".editorconfig", ".flake8", ".pylintrc", ".mypy.ini"}

  const TextExtensions: set<string> :=
    TextRow1 + TextRow2 + TextRow3 + TextRow4 + TextRow5 + TextRow6 + TextRow7

  /** The extensions of binary files, row by row. */
  const BinaryRow1: set<string> := {".pyc", ".pyo", ".pyd", ".exe", ".dll", ".so", ".dylib", ".o", ".obj"}
  const BinaryRow2: set<string> := {".a", ".lib", ".jar", ".war", ".ear", ".zip", ".tar", ".gz", ".bz2"}
  const BinaryRow3: set<string> := {".xz", ".7z", ".rar", ".pdf", ".doc", ".docx", ".xls", ".xlsx", ".ppt"}
  const BinaryRow4: set<string> := {".pptx", ".png", ".jpg", ".jpeg", ".gif", ".bmp", ".tiff", ".svg", ".ico"}
  const BinaryRow5: set<string> := {".mp3", ".mp4", ".avi", ".mov", ".wmv", ".flv", ".webm", ".ogg", ".wav"}

  const BinaryExtensions: set<string> :=
    BinaryRow1 + BinaryRow2 + BinaryRow3 + BinaryRow4 + BinaryRow5

  /** The application types that count as text besides the `text/` family. */
  const TextApplicationTypes: set<string> := {
    "application/json", "application/xml", "application/javascript", "application/x-python-code"
  }

  /** The encodings tried after UTF-8, in order. */
  const FallbackEncodings: seq<string> := ["latin1", "cp1252", "iso-8859-1"]

  /**
    A cheap fingerprint of a short string: its length, its last character
    and its second character. Equal strings have equal fingerprints, and
    the fingerprints of the two extension lists never meet.
   */
  function Fingerprint(s: string): int
  {
    |s| * 1000000 + (if |s| > 0 then s[|s| - 1] as int else 0) * 1000 + (if |s| > 1 then s[1] as int else 0)
  }

  const BinaryFingerprints: set<int> := {
    2097097, 2111111, 3111115, 3122055, 3122103, 3122120, 4050098, 4051109,
    4052109, 4098108, 4099100, 4099112, 4100112, 4101101, 4102103, 4102112,
    4103106, 4103111, 4103112, 4103115, 4105097, 4106111, 4108100, 4111105,
    4111112, 4112098, 4112122, 4114101, 4114106, 4114114, 4114116, 4114119,
    4115120, 4116112, 4118102, 4118109, 4118119, 5102116, 5103106, 5109119,
    5120100, 5120112, 5120120, 6098100
  }

  lemma BinaryRow1Fingerprints(f: string)
    requires f in BinaryRow1
    ensures Fingerprint(f) in BinaryFingerprints
  {
  }

  lemma BinaryRow2Fingerprints(f: string)
    requires f in BinaryRow2
    ensures Fingerprint(f) in BinaryFingerprints
  {
  }

  lemma BinaryRow3Fingerprints(f: string)
    requires f in BinaryRow3
    ensures Fingerprint(f) in BinaryFingerprints
  {
  }

  lemma BinaryRow4Fingerprints(f: string)
    requires f in BinaryRow4
    ensures Fingerprint(f) in BinaryFingerprints
  {
  }

  lemma BinaryRow5Fingerprints(f: string)
    requires f in BinaryRow5
    ensures Fingerprint(f) in BinaryFingerprints
  {
  }

  lemma TextRow1Fingerprints(e: string)
    requires e in TextRow1
    ensures Fingerprint(e) !in BinaryFingerprints
  {
  }

  lemma TextRow2Fingerprints(e: string)
    requires e in TextRow2
    ensures Fingerprint(e) !in BinaryFingerprints
  {
  }

  lemma TextRow3Fingerprints(e: string)
    requires e in TextRow3
    ensures Fingerprint(e) !in BinaryFingerprints
  {
  }

  lemma TextRow4Fingerprints(e: string)
    requires e in TextRow4
    ensures Fingerprint(e) !in BinaryFingerprints
  {
  }

  lemma TextRow5Fingerprints(e: string)
    requires e in TextRow5
    ensures Fingerprint(e) !in BinaryFingerprints
  {
  }

  lemma TextRow6Fingerprints(e: string)
    requires e in TextRow6
    ensures Fingerprint(e) !in BinaryFingerprints
  {
  }

  lemma TextRow7Fingerprints(e: string)
    requires e in TextRow7
    ensures Fingerprint(e) !in BinaryFingerprints
  {
  }

  /** No extension is on both lists, so the order in which `is_text_file` consults them does not matter. */
  lemma ExtensionListsDisjoint()
    ensures TextExtensions !! BinaryExtensions
  {
    forall e | e in TextExtensions ensures e !in BinaryExtensions {
      if e in TextRow1 { TextRow1Fingerprints(e); }
      else if e in TextRow2 { TextRow2Fingerprints(e); }
      else if e in TextRow3 { TextRow3Fingerprints(e); }
      else if e in TextRow4 { TextRow4Fingerprints(e); }
      else if e in TextRow5 { TextRow5Fingerprints(e); }
      else if e in TextRow6 { TextRow6Fingerprints(e); }
      else if e in TextRow7 { TextRow7Fingerprints(e); }
      if e in BinaryExtensions {
        if e in BinaryRow1 { BinaryRow1Fingerprints(e); }
        else if e in BinaryRow2 { BinaryRow2Fingerprints(e); }
        else if e in BinaryRow3 { BinaryRow3Fingerprints(e); }
        else if e in BinaryRow4 { BinaryRow4Fingerprints(e); }
        else if e in BinaryRow5 { BinaryRow5Fingerprints(e); }
      }
    }
  }

  /** ".mypy.ini" holds two dots, so no file's suffix can ever equal it. */
  lemma MultiDotEntryUnreachable(name: string)
    ensures LowerAscii(Suffix(name)) != ".mypy.ini"
  {
    StemSuffix(name);
    var s := Suffix(name);
    if |s| == 9 {
      assert s[5] != '.' by {
        assert s[5] in s[1..];
      }
      assert LowerAscii(s)[5] != '.';
    }
  }

  // ---------------------------------------------------------------------------
  // Encodings

  predicate IsContinuation(b: byte)
  {
    0x80 <= b <= 0xBF
  }

  /**
    The length of the well-formed UTF-8 sequence `b` starts with, or 0
    when it starts with none (the syntax of section 4 of RFC 3629, which
    excludes overlong forms, surrogates and code points above U+10FFFF).
   */
  function Utf8Width(b: seq<byte>): (w: nat)
    requires b != []
    ensures w <= 4 && w <= |b|
  {
    var c := b[0];
    if c <= 0x7F then 1
    else if 0xC2 <= c <= 0xDF then
      (if |b| >= 2 && IsContinuation(b[1]) then 2 else 0)
    else if 0xE0 <= c <= 0xEF then
      (var lo: byte := if c == 0xE0 then 0xA0 else 0x80;
       var hi: byte := if c == 0xED then 0x9F else 0xBF;
       if |b| >= 3 && lo <= b[1] <= hi && IsContinuation(b[2]) then 3 else 0)
    else if 0xF0 <= c <= 0xF4 then
      (var lo: byte := if c == 0xF0 then 0x90 else 0x80;
       var hi: byte := if c == 0xF4 then 0x8F else 0xBF;
       if |b| >= 4 && lo <= b[1] <= hi && IsContinuation(b[2]) && IsContinuation(b[3]) then 4 else 0)
    else 0
  }

  /** `b.decode('utf-8')` succeeds. */
  predicate Utf8Valid(b: seq<byte>)
    decreases |b|
  {
    b == [] || (Utf8Width(b) > 0 && Utf8Valid(b[Utf8Width(b)..]))
  }

  lemma {:induction false} AsciiIsUtf8(b: seq<byte>)
    requires forall k :: 0 <= k < |b| ==> b[k] <= 0x7F
    ensures Utf8Valid(b)
    decreases |b|
  {
    if b != [] {
      assert Utf8Width(b) == 1;
      AsciiIsUtf8(b[1..]);
    }
  }

  /** The five bytes cp1252 leaves undefined. */
  predicate Cp1252Undefined(b: byte)
  {
    b == 0x81 || b == 0x8D || b == 0x8F || b == 0x90 || b == 0x9D
  }

  /** `b.decode(encoding)` succeeds, for the encodings the reader tries. */
  predicate Decodes(encoding: string, b: seq<byte>)
  {
    if encoding == "utf-8" then Utf8Valid(b)
    else if encoding == "cp1252" then forall k :: 0 <= k < |b| ==> !Cp1252Undefined(b[k])
    else encoding == "latin1" || encoding == "iso-8859-1"
  }

  /** The first encoding of `encodings` that decodes `b`. */
  function FirstDecoding(encodings: seq<string>, b: seq<byte>): (r: Option<string>)
    ensures r.Some? ==> r.value in encodings && Decodes(r.value, b)
    ensures r.None? ==> forall k :: 0 <= k < |encodings| ==> !Decodes(encodings[k], b)
  {
    if encodings == [] then None
    else if Decodes(encodings[0], b) then Some(encodings[0])
    else FirstDecoding(encodings[1..], b)
  }

  /** `_detect_encoding`: UTF-8 when the head decodes as UTF-8, else the first fallback that does, else UTF-8. */
  function EncodingFor(head: seq<byte>): string
  {
    if Utf8Valid(head) then "utf-8"
    else
      var fallback := FirstDecoding(FallbackEncodings, head);
      if fallback.Some? then fallback.value else "utf-8"
  }

  /** Latin-1 decodes every byte string, so the detector never reaches its last resort. */
  lemma EncodingIsUtf8OrLatin1(head: seq<byte>)
    ensures EncodingFor(head) == (if Utf8Valid(head) then "utf-8" else "latin1")
  {
  }

  /** The loop of `_detect_encoding`: try each encoding in turn on the head of the file. */
  method DetectEncoding(head: seq<byte>) returns (encoding: string)
    ensures encoding == EncodingFor(head)
  {
    if Utf8Valid(head) {
      return "utf-8";
    }
    var i := 0;
    while i < |FallbackEncodings|
      invariant 0 <= i <= |FallbackEncodings|
      invariant FirstDecoding(FallbackEncodings, head) == FirstDecoding(FallbackEncodings[i..], head)
    {
      if Decodes(FallbackEncodings[i], head) {
        return FallbackEncodings[i];
      }
      assert FallbackEncodings[i..][1..] == FallbackEncodings[i + 1..];
      i := i + 1;
    }
    encoding := "utf-8";
  }

  // ---------------------------------------------------------------------------
  // Text detection

  /** What the operating system reports about a path. */
  datatype FileFacts = FileFacts(
    present: bool,
    isFile: bool,
    size: int,
    mime: Option<string>,                 // `mimetypes.guess_type(path)[0]`
    bytes: Result<seq<byte>, Cause>)      // the file's bytes, or why opening it fails

  /** The lower-cased suffix of the final component. */
  function LowerSuffix(path: Path): string
  {
    LowerAscii(Suffix(Name(path)))
  }

  /** The first `SampleSize` bytes. */
  function Sample(b: seq<byte>): (s: seq<byte>)
    ensures |s| <= SampleSize && |s| <= |b| && s == b[..|s|]
    ensures |b| <= SampleSize ==> s == b
  {
    if |b| <= SampleSize then b else b[..SampleSize]
  }

  /** Whether the sample of a file without a telling name looks like text. */
  function SampleIsText(sample: seq<byte>): bool
  {
    if 0 in sample then false
    else Utf8Valid(sample) || FirstDecoding(FallbackEncodings, sample).Some?
  }

  /** `is_text_file(path)` */
  function IsText(path: Path, facts: FileFacts): bool
  {
    var ext := LowerSuffix(path);
    if ext in BinaryExtensions then false
    else if ext in TextExtensions then true
    else if facts.mime.Some? && facts.mime.value != "" then
      StartsWith(facts.mime.value, "text/") || facts.mime.value in TextApplicationTypes
    else facts.bytes.Ok? && SampleIsText(Sample(facts.bytes.value))
  }

  /**
    The decision chain of `is_text_file`: a binary extension says no and a
    text extension yes, whatever the content; otherwise a guessed MIME type
    decides; otherwise a readable file is text exactly when its first
    8192 bytes hold no NUL byte.
   */
  lemma IsTextChain(path: Path, facts: FileFacts)
    ensures LowerSuffix(path) in BinaryExtensions ==> !IsText(path, facts)
    ensures LowerSuffix(path) in TextExtensions ==> IsText(path, facts)
    ensures LowerSuffix(path) !in BinaryExtensions + TextExtensions && facts.mime.Some? && facts.mime.value != "" ==>
      (IsText(path, facts) <==> StartsWith(facts.mime.value, "text/") || facts.mime.value in TextApplicationTypes)
    ensures LowerSuffix(path) !in BinaryExtensions + TextExtensions && (facts.mime.None? || facts.mime.value == "") ==>
      (IsText(path, facts) <==> facts.bytes.Ok? && 0 !in Sample(facts.bytes.value))
  {
    ExtensionListsDisjoint();
    if facts.bytes.Ok? {
      assert Decodes("latin1", Sample(facts.bytes.value));
    }
  }

  /** The sniffing part of `is_text_file`, with its loop over the fallback encodings. */
  method SniffSample(sample: seq<byte>) returns (text: bool)
    ensures text == SampleIsText(sample)
  {
    if 0 in sample {
      return false;
    }
    if Utf8Valid(sample) {
      return true;
    }
    for i := 0 to |FallbackEncodings|
      invariant FirstDecoding(FallbackEncodings, sample) == FirstDecoding(FallbackEncodings[i..], sample)
    {
      if Decodes(FallbackEncodings[i], sample) {
        return true;
      }
      assert FallbackEncodings[i..][1..] == FallbackEncodings[i + 1..];
    }
    text := false;
  }

  /** `is_text_file(path)`; it never fails: an unreadable file is not text. */
  method IsTextFile(path: Path, facts: FileFacts) returns (text: bool)
    ensures text == IsText(path, facts)
  {
    var ext := LowerSuffix(path);
    if ext in BinaryExtensions {
      return false;
    }
    if ext in TextExtensions {
      return true;
    }
    if facts.mime.Some? && facts.mime.value != "" {
      return StartsWith(facts.mime.value, "text/") || facts.mime.value in TextApplicationTypes;
    }
    if facts.bytes.Err? {
      return false;
    }
    text := SniffSample(Sample(facts.bytes.value));
  }

  // ---------------------------------------------------------------------------
  // Validation and reading

  /** Gitignore-style matching of a path against a list of pattern lines. */
  type Matcher = (seq<string>, Path) -> bool

  /** Decoding bytes to text under an encoding, with undecodable bytes replaced. */
  type Decoder = (string, seq<byte>) -> string

  /** `should_ignore_file` for the spec `patterns` holds (None: no spec). */
  function MatchesSpec(patterns: Option<seq<string>>, path: Path, matches: Matcher): (r: bool)
    ensures patterns.None? ==> !r
  {
    patterns.Some? && matches(patterns.value, path)
  }

  /** `_validate_file`: the first check that fails, in the order existence, kind, size, ignore list, text. */
  function Validation(maxSize: int, patterns: Option<seq<string>>, path: Path, facts: FileFacts, matches: Matcher)
    : (r: Outcome<Error>)
    ensures r.Fail? ==> r.error.FileOperationError? && r.error.operation == "validate"
  {
    var cause :=
      if !facts.present then Some(NotFound)
      else if !facts.isFile then Some(NotAFile)
      else if facts.size > maxSize then Some(TooLarge)
      else if MatchesSpec(patterns, path, matches) then Some(Ignored)
      else if !IsText(path, facts) then Some(NotText)
      else None;
    if cause.Some? then Fail(FileOperationError("validate", cause.value)) else Pass
  }

  /** A file passes validation exactly when every check holds; a failure names the first that does not. */
  lemma ValidationPassIff(maxSize: int, patterns: Option<seq<string>>, path: Path, facts: FileFacts, matches: Matcher)
    ensures var r := Validation(maxSize, patterns, path, facts, matches);
      (r == Pass <==> facts.present && facts.isFile && facts.size <= maxSize
                      && !MatchesSpec(patterns, path, matches) && IsText(path, facts))
      && (!facts.present ==> r.Fail? && r.error.cause == NotFound)
      && (facts.present && !facts.isFile ==> r.Fail? && r.error.cause == NotAFile)
      && (facts.present && facts.isFile && facts.size > maxSize ==> r.Fail? && r.error.cause == TooLarge)
  {
  }

  /** `read_file(path)`: validate, choose the encoding, decode. */
  function ReadSpec(maxSize: int, patterns: Option<seq<string>>, path: Path, facts: FileFacts, matches: Matcher,
                    decode: Decoder): (r: Result<string, Error>)
    ensures r.Ok? <==> Validation(maxSize, patterns, path, facts, matches) == Pass && facts.bytes.Ok?
    ensures r.Ok? ==> r.value == decode(EncodingFor(Sample(facts.bytes.value)), facts.bytes.value)
  {
    var v := Validation(maxSize, patterns, path, facts, matches);
    if v.Fail? then Err(v.error)
    else if facts.bytes.Err? then Err(FileOperationError("read", facts.bytes.error))
    else Ok(decode(EncodingFor(Sample(facts.bytes.value)), facts.bytes.value))
  }

  class FileReader {
    const maxFileSize: int
    var ignorePatterns: Option<seq<string>>

    constructor (maxFileSize: int)
      ensures this.maxFileSize == maxFileSize && ignorePatterns == None
    {
      this.maxFileSize := maxFileSize;
      ignorePatterns := None;
    }

    /** `set_ignore_patterns(patterns)`: an empty list removes the spec. */
    method SetIgnorePatterns(patterns: seq<string>)
      modifies this`ignorePatterns
      ensures ignorePatterns == if patterns == [] then None else Some(patterns)
    {
      if patterns != [] {
        ignorePatterns := Some(patterns);
      } else {
        ignorePatterns := None;
      }
    }

    /** `should_ignore_file(path)` */
    predicate ShouldIgnoreFile(path: Path, matches: Matcher)
      reads this
    {
      MatchesSpec(ignorePatterns, path, matches)
    }

    /** `_validate_file(path)` */
    method ValidateFile(path: Path, facts: FileFacts, matches: Matcher) returns (r: Outcome<Error>)
      ensures r == Validation(maxFileSize, ignorePatterns, path, facts, matches)
    {
      if !facts.present {
        return Fail(FileOperationError("validate", NotFound));
      }
      if !facts.isFile {
        return Fail(FileOperationError("validate", NotAFile));
      }
      if facts.size > maxFileSize {
        return Fail(FileOperationError("validate", TooLarge));
      }
      if ShouldIgnoreFile(path, matches) {
        return Fail(FileOperationError("validate", Ignored));
      }
      var text := IsTextFile(path, facts);
      if !text {
        return Fail(FileOperationError("validate", NotText));
      }
      r := Pass;
    }

    /** `read_file(path)` */
    method ReadFile(path: Path, facts: FileFacts, matches: Matcher, decode: Decoder) returns (r: Result<string, Error>)
      ensures r == ReadSpec(maxFileSize, ignorePatterns, path, facts, matches, decode)
    {
      var v := ValidateFile(path, facts, matches);
      if v.Fail? {
        return Err(v.error);
      }
      if facts.bytes.Err? {
        return Err(FileOperationError("read", facts.bytes.error));
      }
      var encoding := DetectEncoding(Sample(facts.bytes.value));
      r := Ok(decode(encoding, facts.bytes.value));
    }

    /** `read_file_lines(path, start_line, end_line)` */
    method ReadFileLines(path: Path, facts: FileFacts, matches: Matcher, decode: Decoder, startLine: int, endLine: Option<int>)
      returns (r: Result<seq<string>, Error>)
      ensures var read := ReadSpec(maxFileSize, ignorePatterns, path, facts, matches, decode);
        if read.Err? then r == Err(read.error) else r == Ok(LineRange(SplitLines(read.value), startLine, endLine))
    {
      var content := ReadFile(path, facts, matches, decode);
      if content.Err? {
        return Err(content.error);
      }
      var lines := SplitLines(content.value);
      r := Ok(LineRange(lines, startLine, endLine));
    }
  }

  /** After `set_ignore_patterns([])` nothing is ignored. */
  lemma ClearedSpecIgnoresNothing(reader: FileReader, path: Path, matches: Matcher)
    requires reader.ignorePatterns == None
    ensures !reader.ShouldIgnoreFile(path, matches)
  {
  }
}
