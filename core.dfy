/**
  The assistant itself (`CodeAssistant`): the ignore patterns it installs
  in its reader, the project-wide analysis that folds the per-file
  analyses into one report, applying generated text to a file, and the
  error codes `process_instruction` reports. The LLM call and the context
  preparation are inputs: their outcomes are parameters.
 */
module Core {
  import opened Wrappers
  import opened Errors
  import opened Text
  import opened Paths
  import opened Storage
  import opened Ordering
  import opened ProviderBase
  import Analyzer
  import Reader
  import Writer
  import Backup
  import OpenAI
  import ProviderFactory

  // ---------------------------------------------------------------------------
  // Ignore patterns

  const DefaultIgnorePatterns: seq<string> := [
    "__pycache__/*", "*.pyc", "*.pyo", "*.pyd", ".git/*", ".svn/*", ".hg/*",
    "node_modules/*", "*.log", "*.tmp", "*.temp", ".DS_Store", "Thumbs.db"
  ]

  /**
    A `.gitignore` line that yields a pattern: not blank, and not starting
    with '#' as written (an indented '#' line counts).
   */
  predicate IsPatternLine(line: string)
  {
    !IsBlank(line) && !StartsWith(line, "#")
  }

  /** The patterns of the `.gitignore` lines, stripped, in file order. */
  function KeptPatterns(lines: seq<string>): (ps: seq<string>)
    ensures |ps| <= |lines|
    ensures forall p :: p in ps <==> exists l :: l in lines && IsPatternLine(l) && Strip(l) == p
    ensures forall p :: p in ps ==> p != ""
  {
    if lines == [] then []
    else
      var rest := KeptPatterns(lines[1..]);
      assert forall l :: l in lines <==> l == lines[0] || l in lines[1..];
      StripEmptyIffBlank(lines[0]);
      (if IsPatternLine(lines[0]) then [Strip(lines[0])] else []) + rest
  }

  /** White space before a non-space character is all `TrimStart` removes. */
  lemma {:induction false} TrimStartIndent(indent: string, rest: string)
    requires IsBlank(indent) && rest != "" && !IsSpace(rest[0])
    ensures TrimStart(indent + rest) == rest
  {
    if indent != "" {
      assert (indent + rest)[1..] == indent[1..] + rest;
      TrimStartIndent(indent[1..], rest);
    } else {
      assert indent + rest == rest;
    }
  }

  /** A one-line file yields the stripped line exactly when it is a pattern line. */
  lemma KeptSingle(line: string)
    ensures KeptPatterns([line]) == if IsPatternLine(line) then [Strip(line)] else []
  {
    assert [line][1..] == [];
  }

  /**
    A comment line is dropped, but the same line indented is kept, and the
    pattern it yields starts with '#'.
   */
  lemma IndentedCommentKept(indent: string, rest: string)
    requires indent != "" && IsBlank(indent) && rest != "" && rest[0] == '#'
    ensures KeptPatterns([rest]) == []
    ensures KeptPatterns([indent + rest]) == [Strip(indent + rest)]
    ensures StartsWith(Strip(indent + rest), "#")
  {
    assert rest[..1] == "#";
    KeptSingle(rest);
    StripIndentedComment(indent, rest);
    KeptSingle(indent + rest);
  }

  lemma StripIndentedComment(indent: string, rest: string)
    requires indent != "" && IsBlank(indent) && rest != "" && rest[0] == '#'
    ensures IsPatternLine(indent + rest) && StartsWith(Strip(indent + rest), "#")
  {
    IndentedIsPatternLine(indent, rest);
    TrimStartIndent(indent, rest);
    var t := TrimEnd(rest);
    assert !IsSpace(rest[0]);
    assert |t| > 0;
    assert t[0] == rest[0];
  }

  lemma IndentedIsPatternLine(indent: string, rest: string)
    requires indent != "" && IsBlank(indent) && rest != "" && rest[0] == '#'
    ensures IsPatternLine(indent + rest)
  {
    var line := indent + rest;
    assert line[|indent|] == '#' && !IsSpace('#');
    assert line[0] == indent[0] && IsSpace(indent[0]);
    assert line[..1] != "#" by { assert line[..1][0] == line[0]; }
  }

  /**
    The patterns `_setup_ignore_patterns` installs: the defaults, then the
    `.gitignore` patterns when that file exists and reads; a read error is
    swallowed.
   */
  function IgnorePatternsFor(maxSize: int, current: Option<seq<string>>, path: Path, gitignore: Reader.FileFacts,
                             matches: Reader.Matcher, decode: Reader.Decoder): (ps: seq<string>)
    ensures |ps| >= |DefaultIgnorePatterns| && ps[..|DefaultIgnorePatterns|] == DefaultIgnorePatterns
  {
    var read := Reader.ReadSpec(maxSize, current, path, gitignore, matches, decode);
    DefaultIgnorePatterns + if gitignore.present && read.Ok? then KeptPatterns(SplitLines(read.value)) else []
  }

  /**
    Past the defaults, a pattern is installed exactly when the `.gitignore`
    exists, reads, and has a pattern line that strips to it.
   */
  lemma IgnorePatternsContent(maxSize: int, current: Option<seq<string>>, path: Path, gitignore: Reader.FileFacts,
                              matches: Reader.Matcher, decode: Reader.Decoder, p: string)
    ensures var ps := IgnorePatternsFor(maxSize, current, path, gitignore, matches, decode);
      var read := Reader.ReadSpec(maxSize, current, path, gitignore, matches, decode);
      p in ps[|DefaultIgnorePatterns|..] <==>
        gitignore.present && read.Ok? && exists l :: l in SplitLines(read.value) && IsPatternLine(l) && Strip(l) == p
  {
    var read := Reader.ReadSpec(maxSize, current, path, gitignore, matches, decode);
    var extra := if gitignore.present && read.Ok? then KeptPatterns(SplitLines(read.value)) else [];
    assert (DefaultIgnorePatterns + extra)[|DefaultIgnorePatterns|..] == extra;
  }

  // ---------------------------------------------------------------------------
  // Project analysis

  /** One `{file, error}` entry of the analysis report. */
  datatype FileError = FileError(file: Path, error: Error)

  /** The dictionary `analyze_project` returns. */
  datatype ProjectAnalysis = ProjectAnalysis(
    projectRoot: Path,
    files: seq<Analyzer.Structure>,
    languages: map<Analyzer.Language, nat>,
    dependencies: seq<string>,
    totalFiles: nat,
    totalLines: nat,
    errors: seq<FileError>)

  /** A file the scan passes over: ignored, or not text. */
  predicate Skipped(patterns: Option<seq<string>>, matches: Reader.Matcher, facts: Path -> Reader.FileFacts, p: Path)
  {
    Reader.MatchesSpec(patterns, p, matches) || !Reader.IsText(p, facts(p))
  }

  /** The files the scan analyses, in order. */
  function Scanned(paths: seq<Path>, patterns: Option<seq<string>>, matches: Reader.Matcher,
                   facts: Path -> Reader.FileFacts): (r: seq<Path>)
    ensures |r| <= |paths|
  {
    if paths == [] then []
    else
      var last := paths[|paths| - 1];
      Scanned(paths[..|paths| - 1], patterns, matches, facts)
      + (if Skipped(patterns, matches, facts, last) then [] else [last])
  }

  /** The paths whose read outcome is (`ok`) or is not a success. */
  function ByRead(paths: seq<Path>, read: Path -> Result<string, Cause>, ok: bool): (r: seq<Path>)
    ensures |r| <= |paths|
    ensures forall p :: p in r ==> p in paths && read(p).Ok? == ok
  {
    if paths == [] then []
    else
      var last := paths[|paths| - 1];
      ByRead(paths[..|paths| - 1], read, ok) + (if read(last).Ok? == ok then [last] else [])
  }

  /** Every scanned file lands in exactly one of the two lists. */
  lemma {:induction false} ByReadPartition(paths: seq<Path>, read: Path -> Result<string, Cause>)
    ensures |ByRead(paths, read, true)| + |ByRead(paths, read, false)| == |paths|
  {
    if paths != [] {
      ByReadPartition(paths[..|paths| - 1], read);
    }
  }

  function FilePaths(files: seq<Analyzer.Structure>): (r: seq<Path>)
    ensures |r| == |files| && forall i :: 0 <= i < |files| ==> r[i] == files[i].filepath
  {
    if files == [] then [] else FilePaths(files[..|files| - 1]) + [files[|files| - 1].filepath]
  }

  function ErrorPaths(errors: seq<FileError>): (r: seq<Path>)
    ensures |r| == |errors| && forall i :: 0 <= i < |errors| ==> r[i] == errors[i].file
  {
    if errors == [] then [] else ErrorPaths(errors[..|errors| - 1]) + [errors[|errors| - 1].file]
  }

  /** `total_lines`: the sum of the files' line counts. */
  function TotalLines(files: seq<Analyzer.Structure>): nat
  {
    if files == [] then 0 else TotalLines(files[..|files| - 1]) + files[|files| - 1].lineCount
  }

  /** The union of the files' dependency lists. */
  function AllDependencies(files: seq<Analyzer.Structure>): set<string>
  {
    if files == [] then {} else AllDependencies(files[..|files| - 1]) + Elements(files[|files| - 1].dependencies)
  }

  /** The number of files detected as `l`. */
  function CountLanguage(files: seq<Analyzer.Structure>, l: Analyzer.Language): nat
  {
    if files == [] then 0
    else CountLanguage(files[..|files| - 1], l) + (if files[|files| - 1].language == Some(l) then 1 else 0)
  }

  /** The number of files with a detected language. */
  function Detected(files: seq<Analyzer.Structure>): (n: nat)
    ensures n <= |files|
  {
    if files == [] then 0
    else Detected(files[..|files| - 1]) + (if files[|files| - 1].language.Some? then 1 else 0)
  }

  lemma AllLanguages()
    ensures forall l :: l in Analyzer.Languages
  {
    forall l ensures l in Analyzer.Languages {
      Analyzer.LanguagesComplete(l);
    }
  }

  lemma LanguagesDistinct()
    ensures forall i, j :: 0 <= i < j < |Analyzer.Languages| ==> Analyzer.Languages[i] != Analyzer.Languages[j]
  {
  }

  /** The `languages` dictionary: one key per language some file was detected as, with its file count. */
  function Histogram(files: seq<Analyzer.Structure>): (h: map<Analyzer.Language, nat>)
    ensures forall l :: l in h <==> CountLanguage(files, l) > 0
    ensures forall l :: l in h ==> h[l] == CountLanguage(files, l)
  {
    AllLanguages();
    map l | l in Analyzer.Languages && CountLanguage(files, l) > 0 :: CountLanguage(files, l)
  }

  /** The sum of the dictionary's values over the languages `ls`. */
  function SumOver(h: map<Analyzer.Language, nat>, ls: seq<Analyzer.Language>): nat
  {
    if ls == [] then 0 else (if ls[0] in h then h[ls[0]] else 0) + SumOver(h, ls[1..])
  }

  function SumCounts(files: seq<Analyzer.Structure>, ls: seq<Analyzer.Language>): nat
  {
    if ls == [] then 0 else CountLanguage(files, ls[0]) + SumCounts(files, ls[1..])
  }

  lemma {:induction false} SumOverHistogram(files: seq<Analyzer.Structure>, ls: seq<Analyzer.Language>)
    ensures SumOver(Histogram(files), ls) == SumCounts(files, ls)
  {
    if ls != [] {
      SumOverHistogram(files, ls[1..]);
    }
  }

  lemma {:induction false} SumCountsSnoc(files: seq<Analyzer.Structure>, f: Analyzer.Structure, ls: seq<Analyzer.Language>)
    requires forall i, j :: 0 <= i < j < |ls| ==> ls[i] != ls[j]
    ensures SumCounts(files + [f], ls)
            == SumCounts(files, ls) + (if f.language.Some? && f.language.value in ls then 1 else 0)
  {
    if ls != [] {
      assert (files + [f])[..|files|] == files;
      SumCountsSnoc(files, f, ls[1..]);
      if f.language == Some(ls[0]) {
        assert ls[0] !in ls[1..];
      }
    }
  }

  lemma {:induction false} SumCountsDetected(files: seq<Analyzer.Structure>)
    ensures SumCounts(files, Analyzer.Languages) == Detected(files)
  {
    if files != [] {
      var init, f := files[..|files| - 1], files[|files| - 1];
      SumCountsDetected(init);
      assert init + [f] == files;
      LanguagesDistinct();
      SumCountsSnoc(init, f, Analyzer.Languages);
      if f.language.Some? {
        Analyzer.LanguagesComplete(f.language.value);
      }
    } else {
      SumCountsNone(files, Analyzer.Languages);
    }
  }

  lemma {:induction false} SumCountsNone(files: seq<Analyzer.Structure>, ls: seq<Analyzer.Language>)
    requires files == []
    ensures SumCounts(files, ls) == 0
  {
    if ls != [] {
      SumCountsNone(files, ls[1..]);
    }
  }

  /**
    The histogram counts only files with a detected language: the sum of
    its values (over every language, each once) is at most `total_files`.
   */
  lemma HistogramTotal(files: seq<Analyzer.Structure>)
    ensures SumOver(Histogram(files), Analyzer.Languages) == Detected(files) <= |files|
  {
    SumOverHistogram(files, Analyzer.Languages);
    SumCountsDetected(files);
  }

  /** One scanned file's contribution to the report. */
  predicate AnalysedAs(s: Analyzer.Structure, read: Path -> Result<string, Cause>, m: Analyzer.Matcher)
  {
    var r := read(s.filepath);
    r.Ok?
    && s.lineCount == |SplitLines(r.value)| && s.charCount == |r.value|
    && Analyzer.Detection(s.filepath, Some(r.value), r, m) == Ok(s.language)
    && StrictlyAscending(s.dependencies)
  }

  /**
    The report of a scan over `scanned`: what `analyze_project` promises
    about its root, its two lists and its totals.
   */
  ghost predicate Reports(a: ProjectAnalysis, root: Path, scanned: seq<Path>, read: Path -> Result<string, Cause>)
  {
    a.projectRoot == root
    && FilePaths(a.files) == ByRead(scanned, read, true)
    && ErrorsReported(a.errors, scanned, read)
    && a.totalFiles == |a.files|
    && a.totalLines == TotalLines(a.files)
  }

  /** Every analysed file carries its own analysis. */
  ghost predicate AllAnalysed(files: seq<Analyzer.Structure>, read: Path -> Result<string, Cause>, m: Analyzer.Matcher)
  {
    forall i :: 0 <= i < |files| ==> AnalysedAs(files[i], read, m)
  }

  /** The error entries are the scanned files that do not read, in scan order, each with its read error. */
  ghost predicate ErrorsReported(errors: seq<FileError>, scanned: seq<Path>, read: Path -> Result<string, Cause>)
  {
    ErrorPaths(errors) == ByRead(scanned, read, false)
    && forall i :: 0 <= i < |errors| ==>
         read(errors[i].file).Err?
         && errors[i].error == FileOperationError("structure_analysis", read(errors[i].file).error)
  }

  // ---------------------------------------------------------------------------
  // Instructions

  /** The outcome `_apply_changes_to_file` reports. */
  datatype ApplyReport = ApplyReport(backupCreated: bool, fileModified: bool, backupPath: Option<Path>)

  /** The dictionary `process_instruction` returns. */
  datatype InstructionReport = InstructionReport(
    instruction: string,
    targetFile: Option<Path>,
    generatedContent: string,
    tokensUsed: int,
    model: string,
    finishReason: string,
    success: bool,
    backupCreated: bool,
    fileModified: bool,
    backupPath: Option<Path>)

  /** The environment of one change: the backup's timestamp, the writer's environment, failing unlinks. */
  datatype ApplyEnv = ApplyEnv(stamp: Backup.DateTime, write: Writer.WriteEnv, unlinkFails: Path -> bool)

  /** A relative path is taken relative to the project root. */
  function Resolve(root: Path, p: Path): Path
  {
    if IsAbsolute(p) then p else root + p
  }

  /** The request `process_instruction` builds. */
  function RequestFor(instruction: string, context: Option<CodeContext>, maxTokens: int, temperature: real)
    : GenerationRequest
  {
    GenerationRequest(instruction, context, maxTokens, temperature, [])
  }

  /**
    The steps of `process_instruction` up to the generated response: the
    blank-instruction check, the file context (when a target is given; its
    failure is wrapped as a `prepare_context` error), the provider's
    request validation, the capability check and the generation.
   */
  function Generation(instruction: string, target: Option<Path>, context: Result<CodeContext, Error>,
                      maxTokens: int, temperature: real, validate: GenerationRequest -> Outcome<Error>,
                      supports: bool, generate: GenerationRequest -> Result<GenerationResponse, Error>)
    : (r: Result<GenerationResponse, Error>)
    ensures IsBlank(instruction) ==> r == Err(CodeAssistantError("EMPTY_INSTRUCTION"))
    ensures !IsBlank(instruction) && target.Some? && context.Err? ==>
              r == Err(FileOperationError("prepare_context", Writer.WrapCause(context.error)))
    ensures r.Ok? ==>
      var request := RequestFor(instruction, if target.Some? then Some(context.value) else None, maxTokens, temperature);
      !IsBlank(instruction) && supports && validate(request) == Pass && generate(request) == r
  {
    if IsBlank(instruction) then Err(CodeAssistantError("EMPTY_INSTRUCTION"))
    else if target.Some? && context.Err? then Err(FileOperationError("prepare_context", Writer.WrapCause(context.error)))
    else
      var request := RequestFor(instruction, if target.Some? then Some(context.value) else None, maxTokens, temperature);
      var v := validate(request);
      if v.Fail? then Err(v.error)
      else if !supports then Err(CodeAssistantError("CAPABILITY_NOT_SUPPORTED"))
      else generate(request)
  }

  /**
    The code of the `CodeAssistantError` that `process_instruction` raises
    for an error: provider and file errors are processing errors; anything
    else, the assistant's own errors included, is unexpected.
   */
  function ErrorCode(e: Error): (code: string)
    ensures code == "PROCESSING_ERROR" <==> e.LLMProviderError? || e.FileOperationError?
    ensures code == "PROCESSING_ERROR" || code == "UNEXPECTED_ERROR"
  {
    if e.LLMProviderError? || e.FileOperationError? then "PROCESSING_ERROR" else "UNEXPECTED_ERROR"
  }

  /**
    The blank-instruction error is raised inside the `try`, so the caller
    sees it as unexpected; so is the capability error. A failed file context
    is a processing error.
   */
  lemma ReportedCodes(instruction: string, target: Option<Path>, context: Result<CodeContext, Error>,
                      maxTokens: int, temperature: real, validate: GenerationRequest -> Outcome<Error>,
                      supports: bool, generate: GenerationRequest -> Result<GenerationResponse, Error>)
    ensures var r := Generation(instruction, target, context, maxTokens, temperature, validate, supports, generate);
      && (IsBlank(instruction) ==> ErrorCode(r.error) == "UNEXPECTED_ERROR")
      && (!IsBlank(instruction) && target.Some? && context.Err? ==> ErrorCode(r.error) == "PROCESSING_ERROR")
      && (r == Err(CodeAssistantError("CAPABILITY_NOT_SUPPORTED")) ==> ErrorCode(r.error) == "UNEXPECTED_ERROR")
  {
  }

  /**
    With an OpenAI provider, every failed validation of a non-blank
    instruction reaches the caller as a processing error: the provider's
    own empty-instruction check is never reached.
   */
  lemma OpenAIValidationCodes(model: string, instruction: string, target: Option<Path>,
                              context: Result<CodeContext, Error>, maxTokens: int, temperature: real,
                              supports: bool, generate: GenerationRequest -> Result<GenerationResponse, Error>)
    requires !IsBlank(instruction) && (target.Some? ==> context.Ok?)
    requires OpenAI.ValidateRequest(model, RequestFor(instruction, if target.Some? then Some(context.value) else None,
                                                      maxTokens, temperature)).Fail?
    ensures var r := Generation(instruction, target, context, maxTokens, temperature,
                                request => OpenAI.ValidateRequest(model, request), supports, generate);
      r.Err? && ErrorCode(r.error) == "PROCESSING_ERROR" && r.error.failure != EmptyInstruction
  {
  }

  /** The report of a generation without a target file. */
  function Report(instruction: string, target: Option<Path>, response: GenerationResponse, apply: ApplyReport)
    : InstructionReport
  {
    InstructionReport(instruction, target, response.content, response.tokensUsed, response.model,
                      response.finishReason, true, apply.backupCreated, apply.fileModified, apply.backupPath)
  }

  /**
    Provider construction inside the assistant's constructor: any failure
    of the factory becomes a `PROVIDER_INIT_ERROR`.
   */
  method InitProvider(registry: ProviderFactory.ProviderRegistry, name: string, apiKey: Option<string>,
                      environment: Option<string>, model: string, other: Result<LLMProvider, Error>)
    returns (r: Result<LLMProvider, Error>)
    requires registry.Valid()
    ensures r.Err? ==> r.error == CodeAssistantError("PROVIDER_INIT_ERROR")
    ensures !registry.IsProviderAvailable(name) ==> r.Err?
    ensures registry.IsProviderAvailable(name) && registry.providers[LowerAscii(name)].OpenAIProviderClass? ==>
              (r.Ok? <==> OpenAI.ConstructionCheck(apiKey, environment, model).Pass?)
  {
    var made := registry.CreateProvider(name, apiKey, environment, model, other);
    if made.Err? {
      r := Err(CodeAssistantError("PROVIDER_INIT_ERROR"));
    } else {
      r := made;
    }
  }

  class CodeAssistant {
    const root: Path
    const reader: Reader.FileReader
    const writer: Writer.FileWriter
    const backups: Backup.BackupManager
    const provider: LLMProvider

    /**
      `CodeAssistant(...)` once its components exist: it installs the
      ignore patterns in its reader.
     */
    constructor (root: Path, reader: Reader.FileReader, writer: Writer.FileWriter, backups: Backup.BackupManager,
                 provider: LLMProvider, gitignore: Reader.FileFacts, matches: Reader.Matcher, decode: Reader.Decoder)
      modifies reader
      ensures this.root == root && this.reader == reader && this.writer == writer
      ensures this.backups == backups && this.provider == provider
      ensures reader.ignorePatterns == Some(IgnorePatternsFor(reader.maxFileSize, old(reader.ignorePatterns),
                                                              root + [".gitignore"], gitignore, matches, decode))
    {
      this.root := root;
      this.reader := reader;
      this.writer := writer;
      this.backups := backups;
      this.provider := provider;
      new;
      SetupIgnorePatterns(gitignore, matches, decode);
    }

    /** `_setup_ignore_patterns()`; `gitignore` describes `<root>/.gitignore`. */
    method SetupIgnorePatterns(gitignore: Reader.FileFacts, matches: Reader.Matcher, decode: Reader.Decoder)
      modifies reader
      ensures reader.ignorePatterns == Some(IgnorePatternsFor(reader.maxFileSize, old(reader.ignorePatterns),
                                                              root + [".gitignore"], gitignore, matches, decode))
    {
      var extra: seq<string> := [];
      if gitignore.present {
        var read := reader.ReadFile(root + [".gitignore"], gitignore, matches, decode);
        if read.Ok? {
          extra := KeptPatterns(SplitLines(read.value));
        }
      }
      assert |DefaultIgnorePatterns + extra| >= 13;
      reader.SetIgnorePatterns(DefaultIgnorePatterns + extra);
    }

    /**
      `analyze_project()` over the files the directory walk found: ignored
      and non-text files are passed over, a file whose analysis fails adds
      one error entry, and every other file adds its analysis to the totals,
      the language histogram and the dependency union.
     */
    method AnalyzeProject(paths: seq<Path>, matches: Reader.Matcher, facts: Path -> Reader.FileFacts,
                          read: Path -> Result<string, Cause>, m: Analyzer.Matcher)
      returns (a: ProjectAnalysis)
      ensures Reports(a, root, Scanned(paths, reader.ignorePatterns, matches, facts), read)
      ensures AllAnalysed(a.files, read, m)
      ensures a.languages == Histogram(a.files)
      ensures StrictlyAscending(a.dependencies) && Elements(a.dependencies) == AllDependencies(a.files)
    {
      a := ScanFiles(root, paths, reader.ignorePatterns, matches, facts, read, m);
    }

    /**
      `_apply_changes_to_file(filepath, content, create_backup)`: back the
      file up first when asked to and it exists, then write; any failure is
      an `apply_changes` error. `written` tells whether the write was
      reached and `mid` is the filesystem it started from; `made` and
      `listing` are the backup manager's result and the listing its
      retention step saw.
     */
    method ApplyChangesToFile(fs: FileSystem, filepath: Path, content: string, createBackup: bool, env: ApplyEnv)
      returns (r: Result<ApplyReport, Error>, ghost written: bool, ghost mid: Writer.Snapshot,
               ghost made: Result<Path, Error>, ghost listing: seq<Backup.BackupInfo>)
      requires fs.Valid() && Backup.ValidDateTime(env.stamp)
      modifies fs
      ensures fs.Valid() && Writer.ValidSnapshot(mid) && mid.dirs == old(fs.dirs)
      ensures var fp := Resolve(root, filepath);
        createBackup && old(fs.Exists(fp)) ==>
          Backup.BackupCreated(backups.backupDir, backups.maxBackups, old(fs.files), old(fs.dirs), fp, env.stamp,
                               env.write.now, env.unlinkFails, made, listing, if written then mid.files else fs.files)
          && (written <==> made.Ok?)
          && (made.Err? ==> r == Err(FileOperationError("apply_changes", Writer.WrapCause(made.error))))
      ensures var fp := Resolve(root, filepath);
        && (r.Err? ==> r.error.FileOperationError? && r.error.operation == "apply_changes")
        && (r.Ok? ==> written && r.value.fileModified
                      && (r.value.backupCreated <==> createBackup && old(fs.Exists(fp)))
                      && (r.value.backupPath.Some? <==> r.value.backupCreated))
        && (r.Ok? && r.value.backupCreated ==>
              r.value.backupPath == Some(backups.backupDir + [Backup.BackupName(Name(fp), env.stamp)]))
        && (!(createBackup && old(fs.Exists(fp))) ==> written && mid == Writer.Snapshot(old(fs.files), old(fs.dirs)))
        && (!written ==> r.Err? && fs.files == old(fs.files) && fs.dirs == old(fs.dirs))
        && (written ==>
              var w := Writer.WriteSpec(mid, fp, content, writer.createBackups, writer.backupSuffix, env.write);
              && Writer.Snapshot(fs.files, fs.dirs) == w.0
              && (r.Ok? <==> w.1.Pass?)
              && (w.1.Fail? ==> r == Err(FileOperationError("apply_changes", Writer.WrapCause(w.1.error)))))
        && (r.Ok? && fp !in old(fs.dirs) ==> fp in fs.files && fs.files[fp].content == content)
    {
      var fp := Resolve(root, filepath);
      var report := ApplyReport(false, false, None);
      written := false;
      mid := Writer.Snapshot(fs.files, fs.dirs);
      made, listing := Err(OtherError), [];
      if createBackup && fs.Exists(fp) {
        var backup;
        backup, listing := backups.CreateBackup(fs, fp, env.stamp, env.write.now, env.unlinkFails);
        made := backup;
        if backup.Err? {
          return Err(FileOperationError("apply_changes", Writer.WrapCause(backup.error))), written, mid, made, listing;
        }
        report := report.(backupCreated := true, backupPath := Some(backup.value));
      }
      mid := Writer.Snapshot(fs.files, fs.dirs);
      written := true;
      var out := writer.WriteFile(fs, fp, content, env.write);
      if out.Fail? {
        return Err(FileOperationError("apply_changes", Writer.WrapCause(out.error))), written, mid, made, listing;
      }
      if fp !in mid.dirs {
        Writer.WriteSuccessEffect(mid, fp, content, writer.createBackups, writer.backupSuffix, env.write);
      }
      r := Ok(report.(fileModified := true));
    }

    /**
      `process_instruction(...)`: generate, then apply the text to the target
      file when one is given; every error becomes a `CodeAssistantError`
      carrying the code `ErrorCode` assigns. `context` is the outcome of
      preparing the target's context, `validate` and `generate` the
      provider's.
     */
    method ProcessInstruction(fs: FileSystem, instruction: string, target: Option<Path>, maxTokens: int,
                              temperature: real, createBackup: bool, context: Result<CodeContext, Error>,
                              validate: GenerationRequest -> Outcome<Error>,
                              generate: GenerationRequest -> Result<GenerationResponse, Error>, env: ApplyEnv)
      returns (r: Result<InstructionReport, Error>)
      requires fs.Valid() && Backup.ValidDateTime(env.stamp)
      modifies fs
      ensures fs.Valid()
      ensures var g := Generation(instruction, target, context, maxTokens, temperature, validate,
                                  provider.SupportsCapability(CodeGeneration), generate);
        && (g.Err? ==> r == Err(CodeAssistantError(ErrorCode(g.error)))
                       && fs.files == old(fs.files) && fs.dirs == old(fs.dirs))
        && (g.Ok? && target.None? ==>
              r == Ok(Report(instruction, None, g.value, ApplyReport(false, false, None)))
              && fs.files == old(fs.files) && fs.dirs == old(fs.dirs))
        && (g.Ok? && target.Some? ==>
              && (r.Err? ==> r.error == CodeAssistantError("PROCESSING_ERROR"))
              && (r.Ok? ==> r.value.fileModified && r.value.success && r.value.generatedContent == g.value.content
                            && (r.value.backupCreated <==> createBackup && old(fs.Exists(Resolve(root, target.value))))))
    {
      var g := Generation(instruction, target, context, maxTokens, temperature, validate,
                          provider.SupportsCapability(CodeGeneration), generate);
      if g.Err? {
        return Err(CodeAssistantError(ErrorCode(g.error)));
      }
      if target.None? {
        return Ok(Report(instruction, None, g.value, ApplyReport(false, false, None)));
      }
      var applied, written, mid, made, listing := ApplyChangesToFile(fs, target.value, g.value.content, createBackup, env);
      if applied.Err? {
        return Err(CodeAssistantError(ErrorCode(applied.error)));
      }
      r := Ok(Report(instruction, target, g.value, applied.value));
    }
  }

  /** The loop of `analyze_project` over the walked paths, with the ignore patterns the reader holds. */
  method ScanFiles(root: Path, paths: seq<Path>, patterns: Option<seq<string>>, matches: Reader.Matcher,
                   facts: Path -> Reader.FileFacts, read: Path -> Result<string, Cause>, m: Analyzer.Matcher)
    returns (a: ProjectAnalysis)
    ensures Reports(a, root, Scanned(paths, patterns, matches, facts), read)
    ensures AllAnalysed(a.files, read, m)
    ensures a.languages == Histogram(a.files)
    ensures StrictlyAscending(a.dependencies) && Elements(a.dependencies) == AllDependencies(a.files)
  {
    a := ProjectAnalysis(root, [], map[], [], 0, 0, []);
    var deps: set<string> := {};
    for i := 0 to |paths|
      invariant Accounts(a, deps, root, Scanned(paths[..i], patterns, matches, facts), read, m)
    {
      ScannedStep(paths, i, patterns, matches, facts);
      a, deps := ScanFile(a, deps, root, Scanned(paths[..i], patterns, matches, facts), paths[i], patterns, matches,
                          facts, read, m);
    }
    assert paths[..|paths|] == paths;
    var sorted := SortedList(deps);
    a := a.(dependencies := sorted);
  }

  /** One iteration of the scan: `p` is passed over, adds an error entry, or adds its analysis. */
  method ScanFile(a: ProjectAnalysis, deps: set<string>, ghost root: Path, ghost scanned: seq<Path>, p: Path,
                  patterns: Option<seq<string>>, matches: Reader.Matcher, facts: Path -> Reader.FileFacts,
                  read: Path -> Result<string, Cause>, m: Analyzer.Matcher)
    returns (a': ProjectAnalysis, deps': set<string>)
    requires Accounts(a, deps, root, scanned, read, m)
    ensures Accounts(a', deps', root, scanned + (if Skipped(patterns, matches, facts, p) then [] else [p]), read, m)
  {
    var skip := PassesOver(patterns, p, matches, facts);
    if skip {
      assert scanned + [] == scanned;
      return a, deps;
    }
    var s := AnalyseFile(p, read, m);
    if s.Err? {
      AccountsError(a, deps, root, scanned, p, s.error, read, m);
      a' := a.(errors := a.errors + [FileError(p, s.error)]);
      deps' := deps;
    } else {
      var f := s.value;
      AccountsFile(a, deps, root, scanned, p, f, read, m);
      a' := a.(files := a.files + [f], languages := Tally(a.languages, f.language),
               totalFiles := a.totalFiles + 1, totalLines := a.totalLines + f.lineCount);
      deps' := deps + Elements(f.dependencies);
    }
  }

  /** The scan's two filters in order: `should_ignore_file`, then `is_text_file`. */
  method PassesOver(patterns: Option<seq<string>>, p: Path, matches: Reader.Matcher, facts: Path -> Reader.FileFacts)
    returns (skip: bool)
    ensures skip == Skipped(patterns, matches, facts, p)
  {
    if Reader.MatchesSpec(patterns, p, matches) {
      return true;
    }
    var text := Reader.IsTextFile(p, facts(p));
    skip := !text;
  }

  /** `analyze_file_structure(filepath)` as the scan calls it: the content is read from disk. */
  method AnalyseFile(p: Path, read: Path -> Result<string, Cause>, m: Analyzer.Matcher)
    returns (r: Result<Analyzer.Structure, Error>)
    ensures r.Err? <==> read(p).Err?
    ensures r.Err? ==> r.error == FileOperationError("structure_analysis", read(p).error)
    ensures r.Ok? ==> r.value.filepath == p && AnalysedAs(r.value, read, m)
  {
    r := Analyzer.AnalyzeFileStructure(p, None, read(p), m);
  }

  /** One more file detected as `language` in the `languages` dictionary. */
  function Tally(h: map<Analyzer.Language, nat>, language: Option<Analyzer.Language>): map<Analyzer.Language, nat>
  {
    if language.None? then h
    else h[language.value := (if language.value in h then h[language.value] else 0) + 1]
  }

  /** Adding one analysed file updates the histogram the way the scan does. */
  lemma HistogramSnoc(files: seq<Analyzer.Structure>, f: Analyzer.Structure)
    ensures Histogram(files + [f]) == Tally(Histogram(files), f.language)
  {
    assert (files + [f])[..|files|] == files;
  }

  lemma ScannedStep(paths: seq<Path>, i: nat, patterns: Option<seq<string>>, matches: Reader.Matcher,
                    facts: Path -> Reader.FileFacts)
    requires i < |paths|
    ensures Scanned(paths[..i + 1], patterns, matches, facts)
            == Scanned(paths[..i], patterns, matches, facts)
               + (if Skipped(patterns, matches, facts, paths[i]) then [] else [paths[i]])
  {
    assert paths[..i + 1][..i] == paths[..i];
  }

  /** What the scan loop keeps true of the report so far and the dependency set. */
  ghost predicate Accounts(a: ProjectAnalysis, deps: set<string>, root: Path, scanned: seq<Path>,
                           read: Path -> Result<string, Cause>, m: Analyzer.Matcher)
  {
    Reports(a, root, scanned, read)
    && AllAnalysed(a.files, read, m)
    && a.languages == Histogram(a.files)
    && deps == AllDependencies(a.files)
  }

  /** The loop step for a file whose analysis fails with `e`. */
  lemma AccountsError(a: ProjectAnalysis, deps: set<string>, root: Path, scanned: seq<Path>, p: Path, e: Error,
                      read: Path -> Result<string, Cause>, m: Analyzer.Matcher)
    requires Accounts(a, deps, root, scanned, read, m)
    requires read(p).Err? && e == FileOperationError("structure_analysis", read(p).error)
    ensures Accounts(a.(errors := a.errors + [FileError(p, e)]), deps, root, scanned + [p], read, m)
  {
    ReportsError(a, root, scanned, p, read);
  }

  /** The loop step for a file at `p` whose analysis succeeds with `f`. */
  lemma AccountsFile(a: ProjectAnalysis, deps: set<string>, root: Path, scanned: seq<Path>, p: Path,
                     f: Analyzer.Structure, read: Path -> Result<string, Cause>, m: Analyzer.Matcher)
    requires Accounts(a, deps, root, scanned, read, m) && AnalysedAs(f, read, m) && f.filepath == p
    ensures Accounts(a.(files := a.files + [f], languages := Tally(a.languages, f.language),
                        totalFiles := a.totalFiles + 1, totalLines := a.totalLines + f.lineCount),
                     deps + Elements(f.dependencies), root, scanned + [p], read, m)
  {
    ReportsFile(a, root, scanned, f, read);
    AnalysedSnoc(a.files, f, read, m);
    HistogramSnoc(a.files, f);
    assert (a.files + [f])[..|a.files|] == a.files;
  }

  /** A file whose analysis fails adds exactly one error entry. */
  lemma ReportsError(a: ProjectAnalysis, root: Path, scanned: seq<Path>, p: Path, read: Path -> Result<string, Cause>)
    requires Reports(a, root, scanned, read) && read(p).Err?
    ensures Reports(a.(errors := a.errors + [FileError(p, FileOperationError("structure_analysis", read(p).error))]),
                    root, scanned + [p], read)
  {
    ByReadSnoc(scanned, p, read);
    ErrorsReportedAdd(a.errors, scanned, p, read);
  }

  /** A file whose analysis succeeds is added to the files and the totals. */
  lemma ReportsFile(a: ProjectAnalysis, root: Path, scanned: seq<Path>, f: Analyzer.Structure,
                    read: Path -> Result<string, Cause>)
    requires Reports(a, root, scanned, read) && read(f.filepath).Ok?
    ensures Reports(a.(files := a.files + [f], totalFiles := a.totalFiles + 1, totalLines := a.totalLines + f.lineCount),
                    root, scanned + [f.filepath], read)
  {
    ByReadSnoc(scanned, f.filepath, read);
    assert (a.files + [f])[..|a.files|] == a.files;
  }

  lemma ErrorsReportedAdd(errors: seq<FileError>, scanned: seq<Path>, p: Path, read: Path -> Result<string, Cause>)
    requires ErrorsReported(errors, scanned, read) && read(p).Err?
    ensures ErrorsReported(errors + [FileError(p, FileOperationError("structure_analysis", read(p).error))],
                           scanned + [p], read)
  {
    var es := errors + [FileError(p, FileOperationError("structure_analysis", read(p).error))];
    ByReadSnoc(scanned, p, read);
    assert es[..|errors|] == errors;
    assert ErrorPaths(es) == ErrorPaths(errors) + [p];
    forall i | 0 <= i < |es|
      ensures read(es[i].file).Err? && es[i].error == FileOperationError("structure_analysis", read(es[i].file).error)
    {
      if i < |errors| {
        assert es[i] == errors[i];
      }
    }
  }

  lemma ByReadSnoc(paths: seq<Path>, p: Path, read: Path -> Result<string, Cause>)
    ensures ByRead(paths + [p], read, true) == ByRead(paths, read, true) + (if read(p).Ok? then [p] else [])
    ensures ByRead(paths + [p], read, false) == ByRead(paths, read, false) + (if read(p).Ok? then [] else [p])
  {
    assert (paths + [p])[..|paths|] == paths;
  }

  lemma AnalysedSnoc(files: seq<Analyzer.Structure>, f: Analyzer.Structure, read: Path -> Result<string, Cause>,
                     m: Analyzer.Matcher)
    requires AllAnalysed(files, read, m) && AnalysedAs(f, read, m)
    ensures AllAnalysed(files + [f], read, m)
  {
    forall i | 0 <= i < |files + [f]| ensures AnalysedAs((files + [f])[i], read, m) {
      if i < |files| {
        assert (files + [f])[i] == files[i];
      }
    }
  }
}
