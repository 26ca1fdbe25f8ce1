/**
  The atomic writer (`FileWriter`): a write first makes sure the parent
  directory exists, copies an existing target to a sibling backup (the
  first free name among `p.bak`, `p.bak.1`, `p.bak.2`, ...), writes the new
  text to a temporary file beside the target and renames it over the
  target, the single commit point. A failed commit moves the backup back;
  a successful one deletes it. Both clean-ups are best effort.

  The environment of one write (the clock, the name `mkstemp` picks, and
  which OS calls fail) is an input, `WriteEnv`. The behaviour is given as a
  function on filesystem snapshots (`WriteSpec`), which the methods of
  `FileWriter` are proved to follow on the mutable `FileSystem`.
 */
module Writer {
  import opened Wrappers
  import opened Errors
  import opened Text
  import opened Paths
  import opened Storage
  import opened LineRanges

  /** The contents of the filesystem at one moment. */
  datatype Snapshot = Snapshot(files: map<Path, FileEntry>, dirs: set<Path>)

  predicate ValidSnapshot(s: Snapshot)
  {
    s.files.Keys !! s.dirs && [] in s.dirs && ["/"] in s.dirs
  }

  /** `p.exists()` */
  predicate Present(s: Snapshot, p: Path)
  {
    p in s.files || p in s.dirs
  }

  /**
    What the environment decides during one `write_file`: the time stamp of
    files it creates, the name `mkstemp` picks, whether the temporary write
    or the rename fails (and why), and whether the best-effort restore or
    backup deletion fails.
   */
  datatype WriteEnv = WriteEnv(now: int, tempName: string, commitFailure: Option<Cause>,
                               restoreFails: bool, unlinkFails: bool)

  // ---------------------------------------------------------------------------
  // Backup names

  /** `PurePath(name).with_suffix(suffix)` on the final component. */
  function WithSuffix(name: string, suffix: string): string
  {
    Stem(name) + suffix
  }

  /** Appending to a name's own suffix appends to the name. */
  lemma WithOwnSuffix(name: string, ext: string)
    ensures WithSuffix(name, Suffix(name) + ext) == name + ext
  {
    StemSuffix(name);
    assert Stem(name) + (Suffix(name) + ext) == (Stem(name) + Suffix(name)) + ext;
  }

  /** The arguments `with_suffix` accepts: no '/', empty or starting with '.', and not "." alone. */
  predicate SuffixAccepted(s: string)
  {
    '/' !in s && (s == "" || s[0] == '.') && s != "."
  }

  /** A backup suffix such as ".bak" is accepted whatever the file's own suffix. */
  lemma DottedSuffixAccepted(name: string, backupSuffix: string)
    requires '/' !in name && |backupSuffix| >= 2 && backupSuffix[0] == '.' && '/' !in backupSuffix
    ensures SuffixAccepted(Suffix(name) + backupSuffix)
  {
    StemSuffix(name);
    var s := Suffix(name) + backupSuffix;
    assert Suffix(name) == "" ==> s == backupSuffix;
    assert Suffix(name) != "" ==> s[0] == Suffix(name)[0] == '.';
    assert forall k :: 0 <= k < |Suffix(name)| ==> Suffix(name)[k] == name[|Stem(name)| + k];
  }

  /** The `k`-th name the probe of `_create_backup` tries. */
  function Candidate(base: string, k: nat): string
  {
    if k == 0 then base else base + "." + Decimal(k)
  }

  lemma CandidateDistinct(base: string, j: nat, k: nat)
    requires j != k
    ensures Candidate(base, j) != Candidate(base, k)
  {
    if j != 0 && k != 0 {
      var a, b := Candidate(base, j), Candidate(base, k);
      assert a[|base| + 1..] == Decimal(j);
      assert b[|base| + 1..] == Decimal(k);
      if Decimal(j) == Decimal(k) {
        DecimalInjective(j, k);
      }
    }
  }

  lemma RegroupCandidate(base: string, digits: string)
    ensures base + ("." + digits) == base + "." + digits
  {
  }

  /** The paths of the first `n` candidates. */
  function CandidatePaths(dir: Path, base: string, n: nat): set<Path>
  {
    if n == 0 then {} else CandidatePaths(dir, base, n - 1) + {dir + [Candidate(base, n - 1)]}
  }

  lemma {:induction false} CandidatePathsMembers(dir: Path, base: string, n: nat, q: Path)
    requires q in CandidatePaths(dir, base, n)
    ensures exists k :: 0 <= k < n && q == dir + [Candidate(base, k)]
  {
    if q != dir + [Candidate(base, n - 1)] {
      CandidatePathsMembers(dir, base, n - 1, q);
    }
  }

  /** The `n`-th candidate is none of the earlier ones. */
  lemma CandidateFresh(dir: Path, base: string, n: nat)
    ensures dir + [Candidate(base, n)] !in CandidatePaths(dir, base, n)
  {
    var p := dir + [Candidate(base, n)];
    forall q | q in CandidatePaths(dir, base, n) ensures q != p {
      CandidatePathsMembers(dir, base, n, q);
      var k :| 0 <= k < n && q == dir + [Candidate(base, k)];
      CandidateDistinct(base, k, n);
      assert q[|dir|] == Candidate(base, k) && p[|dir|] == Candidate(base, n);
    }
  }

  lemma FewerUntaken(taken: set<Path>, done: set<Path>, p: Path)
    requires p in taken && p !in done
    ensures |taken - (done + {p})| < |taken - done|
  {
    assert taken - (done + {p}) == (taken - done) - {p};
  }

  /**
    The index of the first candidate at or after `n` that is not taken.
    It exists because only finitely many paths are taken and the
    candidates are pairwise distinct.
   */
  function FirstFree(taken: set<Path>, dir: Path, base: string, n: nat): (k: nat)
    requires CandidatePaths(dir, base, n) <= taken
    ensures k >= n && dir + [Candidate(base, k)] !in taken
    ensures forall j :: n <= j < k ==> dir + [Candidate(base, j)] in taken
    decreases |taken - CandidatePaths(dir, base, n)|
  {
    var p := dir + [Candidate(base, n)];
    if p in taken then
      CandidateFresh(dir, base, n);
      FewerUntaken(taken, CandidatePaths(dir, base, n), p);
      FirstFree(taken, dir, base, n + 1)
    else n
  }

  /** Where `_create_backup` copies `fp`: the first free candidate beside it, or the `ValueError` of `with_suffix`. */
  function BackupTarget(s: Snapshot, fp: Path, backupSuffix: string): (r: Result<Path, Error>)
    ensures r.Err? <==> !SuffixAccepted(Suffix(Name(fp)) + backupSuffix) || Name(fp) == ""
    ensures r.Err? ==> r.error == OtherError
    ensures r.Ok? ==>
      var base := Name(fp) + backupSuffix;
      !Present(s, r.value)
      && exists n: nat :: r.value == Parent(fp) + [Candidate(base, n)]
           && forall k :: 0 <= k < n ==> Present(s, Parent(fp) + [Candidate(base, k)])
  {
    var name := Name(fp);
    var arg := Suffix(name) + backupSuffix;
    if !SuffixAccepted(arg) || name == "" then Err(OtherError)
    else
      var base := WithSuffix(name, arg);
      WithOwnSuffix(name, backupSuffix);
      var n := FirstFree(s.files.Keys + s.dirs, Parent(fp), base, 0);
      Ok(Parent(fp) + [Candidate(base, n)])
  }

  /** `_create_backup(fp)`: the new snapshot and the backup's path, or the failure. */
  function CreateBackupSpec(s: Snapshot, fp: Path, backupSuffix: string, now: int): (r: Result<(Snapshot, Path), Error>)
    ensures r.Ok? ==> fp in s.files && r.value.0 == Snapshot(s.files[r.value.1 := FileEntry(s.files[fp].content, now)], s.dirs)
  {
    var target := BackupTarget(s, fp, backupSuffix);
    if target.Err? then Err(target.error)
    else
      var copy := CopyDestination(s.files, s.dirs, fp, target.value);
      if copy.Err? then Err(FileOperationError("backup", copy.error))
      else Ok((Snapshot(s.files[copy.value := FileEntry(s.files[fp].content, now)], s.dirs), target.value))
  }

  // ---------------------------------------------------------------------------
  // Commit and write

  /**
    `_write_atomic(fp, content)`: the temporary file is renamed onto `fp`,
    or, when `fp` is a directory, moved into it under its own name; a
    failure removes the temporary file again.
   */
  function AtomicSpec(s: Snapshot, fp: Path, content: string, env: WriteEnv): (Snapshot, Outcome<Cause>)
  {
    if env.commitFailure.Some? then (s, Fail(env.commitFailure.value))
    else if fp in s.dirs then
      var dst := fp + [env.tempName];
      if Present(s, dst) || dst == Parent(fp) + [env.tempName] then (s, Fail(IOFailure))
      else (Snapshot(s.files[dst := FileEntry(content, env.now)], s.dirs), Pass)
    else (Snapshot(s.files[fp := FileEntry(content, env.now)], s.dirs), Pass)
  }

  /** `shutil.move(src, dst)` for a regular file `src`; a failure is swallowed by the caller. */
  function Move(s: Snapshot, src: Path, dst: Path): Snapshot
    requires src in s.files
  {
    if dst in s.dirs then
      var target := dst + [Name(src)];
      if Present(s, target) then s
      else Snapshot((s.files - {src})[target := s.files[src]], s.dirs)
    else Snapshot((s.files - {src})[dst := s.files[src]], s.dirs)
  }

  /** After the commit: restore the backup on failure, delete it on success. */
  function Finish(s: Snapshot, fp: Path, backup: Option<Path>, content: string, env: WriteEnv): (Snapshot, Outcome<Error>)
  {
    var atomic := AtomicSpec(s, fp, content, env);
    var s1, out := atomic.0, atomic.1;
    if out.Fail? then
      var s2 := if backup.Some? && backup.value in s1.files && !env.restoreFails then Move(s1, backup.value, fp) else s1;
      (s2, Fail(FileOperationError("write", out.error)))
    else
      var s2 := if backup.Some? && backup.value in s1.files && !env.unlinkFails
                then Snapshot(s1.files - {backup.value}, s1.dirs) else s1;
      (s2, Pass)
  }

  /** `write_file(fp, content)` on a snapshot. */
  function WriteSpec(s: Snapshot, fp: Path, content: string, createBackups: bool, backupSuffix: string, env: WriteEnv)
    : (Snapshot, Outcome<Error>)
  {
    if BlockedByFile(s.files, Parent(fp)) then (s, Fail(OSError(FileInTheWay)))
    else
      var s1 := Snapshot(s.files, s.dirs + Prefixes(Parent(fp)));
      if createBackups && Present(s1, fp) then
        var made := CreateBackupSpec(s1, fp, backupSuffix, env.now);
        if made.Err? then (s1, Fail(made.error))
        else Finish(made.value.0, fp, Some(made.value.1), content, env)
      else Finish(s1, fp, None, content, env)
  }

  /** A path that is not a directory is not among the directories `mkdir(parents=True)` creates for its parent. */
  lemma NotAmongParentPrefixes(s: Snapshot, fp: Path)
    requires ValidSnapshot(s) && fp !in s.dirs
    ensures fp !in Prefixes(Parent(fp)) && |fp| >= 1 && Parent(fp) == fp[..|fp| - 1]
  {
    assert fp != [] && fp != ["/"];
    assert |Parent(fp)| < |fp|;
    forall q | q in Prefixes(Parent(fp)) ensures |q| < |fp| {
      var i :| 0 <= i <= |Parent(fp)| && q == Parent(fp)[..i];
    }
  }

  /**
    A successful write leaves the parent directory in place and the new
    text in the target; apart from that (and a backup whose deletion
    failed) no file changes.
   */
  lemma WriteSuccessEffect(s: Snapshot, fp: Path, content: string, createBackups: bool, backupSuffix: string, env: WriteEnv)
    requires ValidSnapshot(s) && fp !in s.dirs
    ensures var w := WriteSpec(s, fp, content, createBackups, backupSuffix, env); var s2, r := w.0, w.1;
      r == Pass ==>
        s2.dirs == s.dirs + Prefixes(Parent(fp))
        && fp in s2.files && s2.files[fp].content == content
        && (!(createBackups && fp in s.files && env.unlinkFails) ==> s2.files == s.files[fp := FileEntry(content, env.now)])
  {
    WriteSuccessTarget(s, fp, content, createBackups, backupSuffix, env);
    if !(createBackups && fp in s.files && env.unlinkFails) {
      WriteSuccessOthers(s, fp, content, createBackups, backupSuffix, env);
    }
  }

  lemma WriteSuccessTarget(s: Snapshot, fp: Path, content: string, createBackups: bool, backupSuffix: string, env: WriteEnv)
    requires ValidSnapshot(s) && fp !in s.dirs
    ensures var w := WriteSpec(s, fp, content, createBackups, backupSuffix, env); var s2, r := w.0, w.1;
      r == Pass ==> s2.dirs == s.dirs + Prefixes(Parent(fp)) && fp in s2.files && s2.files[fp].content == content
  {
    var w := WriteSpec(s, fp, content, createBackups, backupSuffix, env);
    if w.1 == Pass {
      NotAmongParentPrefixes(s, fp);
      var s1 := Snapshot(s.files, s.dirs + Prefixes(Parent(fp)));
      if createBackups && Present(s1, fp) {
        var b := CreateBackupSpec(s1, fp, backupSuffix, env.now).value.1;
        assert Present(s1, fp) && !Present(s1, b);
        assert b != fp;
      }
    }
  }

  lemma WriteSuccessOthers(s: Snapshot, fp: Path, content: string, createBackups: bool, backupSuffix: string, env: WriteEnv)
    requires ValidSnapshot(s) && fp !in s.dirs
    requires !(createBackups && fp in s.files && env.unlinkFails)
    ensures var w := WriteSpec(s, fp, content, createBackups, backupSuffix, env);
      w.1 == Pass ==> w.0.files == s.files[fp := FileEntry(content, env.now)]
  {
    var w := WriteSpec(s, fp, content, createBackups, backupSuffix, env);
    if w.1 == Pass {
      NotAmongParentPrefixes(s, fp);
      var s1 := Snapshot(s.files, s.dirs + Prefixes(Parent(fp)));
      if createBackups && Present(s1, fp) {
        var b := CreateBackupSpec(s1, fp, backupSuffix, env.now).value.1;
        assert Present(s1, fp) && !Present(s1, b);
        assert b != fp;
        assert w.0.files == s.files[b := FileEntry(s.files[fp].content, env.now)][fp := FileEntry(content, env.now)] - {b};
      }
    }
  }

  /**
    When the commit fails after a backup was made and the restore goes
    through, the target holds its old text again and the backup is gone;
    without a backup no file changes at all.
   */
  lemma WriteFailureRestores(s: Snapshot, fp: Path, content: string, createBackups: bool, backupSuffix: string, env: WriteEnv)
    requires ValidSnapshot(s) && fp in s.files
    requires env.commitFailure.Some?
    ensures var w := WriteSpec(s, fp, content, createBackups, backupSuffix, env); var s2, r := w.0, w.1;
      r.Fail?
      && (createBackups && !env.restoreFails && !BlockedByFile(s.files, Parent(fp))
            && CreateBackupSpec(Snapshot(s.files, s.dirs + Prefixes(Parent(fp))), fp, backupSuffix, env.now).Ok?
          ==> s2.files == s.files[fp := FileEntry(s.files[fp].content, env.now)])
      && (!createBackups ==> s2.files == s.files)
  {
    if createBackups && !env.restoreFails && !BlockedByFile(s.files, Parent(fp)) {
      var s1 := Snapshot(s.files, s.dirs + Prefixes(Parent(fp)));
      var made := CreateBackupSpec(s1, fp, backupSuffix, env.now);
      if made.Ok? {
        NotAmongParentPrefixes(s, fp);
        var b := made.value.1;
        assert !Present(s1, b) && b != fp;
        var s2 := WriteSpec(s, fp, content, createBackups, backupSuffix, env).0;
        assert s2.files == (s.files[b := FileEntry(s.files[fp].content, env.now)] - {b})[fp := FileEntry(s.files[fp].content, env.now)];
      }
    }
  }

  /** The backup `write_file` takes before the commit: none, or the one path `_create_backup` returned. */
  function WriteBackup(s: Snapshot, fp: Path, createBackups: bool, backupSuffix: string, now: int): (b: set<Path>)
    ensures |b| <= 1 && (b != {} ==> createBackups && fp in s.files)
    ensures forall p :: p in b ==> p !in s.files && p != fp
  {
    if BlockedByFile(s.files, Parent(fp)) then {}
    else
      var s1 := Snapshot(s.files, s.dirs + Prefixes(Parent(fp)));
      if createBackups && Present(s1, fp) then
        var made := CreateBackupSpec(s1, fp, backupSuffix, now);
        if made.Ok? then {made.value.1} else {}
      else {}
  }

  /**
    A backup that cannot be deleted after a successful commit does not turn
    the write into a failure: the outcome and the directories are those of
    the same write with a working `unlink`, and the only file left over is
    the backup itself.
   */
  lemma UnlinkFailureKeepsOutcome(s: Snapshot, fp: Path, content: string, createBackups: bool, backupSuffix: string,
                                  env: WriteEnv)
    ensures var w := WriteSpec(s, fp, content, createBackups, backupSuffix, env);
      var w' := WriteSpec(s, fp, content, createBackups, backupSuffix, env.(unlinkFails := false));
      w.1 == w'.1 && w.0.dirs == w'.0.dirs
      && (w.1.Fail? ==> w.0 == w'.0)
      && (w.1 == Pass ==> w'.0.files == w.0.files - WriteBackup(s, fp, createBackups, backupSuffix, env.now))
  {
    var env' := env.(unlinkFails := false);
    if !BlockedByFile(s.files, Parent(fp)) {
      var s1 := Snapshot(s.files, s.dirs + Prefixes(Parent(fp)));
      if createBackups && Present(s1, fp) {
        var made := CreateBackupSpec(s1, fp, backupSuffix, env.now);
        if made.Ok? {
          assert AtomicSpec(made.value.0, fp, content, env) == AtomicSpec(made.value.0, fp, content, env');
        }
      } else {
        assert AtomicSpec(s1, fp, content, env) == AtomicSpec(s1, fp, content, env');
      }
    }
  }

  // ---------------------------------------------------------------------------
  // Line utilities

  /** The text `write_file_lines(lines)` writes. */
  function LinesContent(lines: seq<string>): (content: string)
    ensures lines == [] ==> content == ""
    ensures lines != [] ==> EndsWith(content, "\n")
  {
    var joined := Join('\n', lines);
    if lines != [] && !EndsWith(joined, "\n") then joined + "\n" else joined
  }

  /** Each line followed by a newline. */
  function Terminated(lines: seq<string>): string
  {
    if lines == [] then "" else lines[0] + "\n" + Terminated(lines[1..])
  }

  lemma {:induction false} JoinTerminated(lines: seq<string>)
    requires lines != []
    ensures Join('\n', lines) + "\n" == Terminated(lines)
  {
    if |lines| > 1 {
      JoinTerminated(lines[1..]);
      assert Join('\n', lines) + "\n" == lines[0] + "\n" + (Join('\n', lines[1..]) + "\n");
    }
  }

  predicate NoLineBreaks(line: string)
  {
    forall k :: 0 <= k < |line| ==> !IsLineBreak(line[k])
  }

  lemma {:induction false} SplitTerminated(lines: seq<string>)
    requires forall i :: 0 <= i < |lines| ==> NoLineBreaks(lines[i])
    ensures SplitLines(Terminated(lines)) == lines
  {
    if lines != [] {
      var s := Terminated(lines);
      var l := lines[0];
      SplitTerminated(lines[1..]);
      LineEndOf(l, Terminated(lines[1..]));
      assert s[|l|] == '\n' && BreakWidth(s, |l|) == 1;
      assert s[..|l|] == l && s[|l| + 1..] == Terminated(lines[1..]);
    }
  }

  lemma LineEndOf(l: string, rest: string)
    requires NoLineBreaks(l)
    ensures LineEnd(l + "\n" + rest) == |l|
  {
    var s := l + "\n" + rest;
    assert forall k :: 0 <= k < |l| ==> s[k] == l[k];
    assert IsLineBreak(s[|l|]);
  }

  /** Lines without line breaks, the last one non-empty, come back from `splitlines` unchanged. */
  lemma LinesContentRoundTrip(lines: seq<string>)
    requires forall i :: 0 <= i < |lines| ==> NoLineBreaks(lines[i])
    requires lines != [] ==> lines[|lines| - 1] != ""
    ensures SplitLines(LinesContent(lines)) == lines
  {
    if lines != [] {
      JoinTerminated(lines);
      var joined := Join('\n', lines);
      assert !EndsWith(joined, "\n") by {
        JoinLast(lines);
      }
      SplitTerminated(lines);
    }
  }

  /** The last character of a join is the last character of its last part, when that part is not empty. */
  lemma {:induction false} JoinLast(lines: seq<string>)
    requires lines != [] && lines[|lines| - 1] != ""
    ensures var j := Join('\n', lines); |j| >= 1 && j[|j| - 1] == lines[|lines| - 1][|lines[|lines| - 1]| - 1]
  {
    if |lines| > 1 {
      JoinLast(lines[1..]);
      assert lines[1..][|lines[1..]| - 1] == lines[|lines| - 1];
    }
  }

  /** `new_content.splitlines(True)` with a newline added to the last line when it has none. */
  function NewLines(newContent: string): (lines: seq<string>)
    ensures lines != [] ==> EndsWith(lines[|lines| - 1], "\n")
  {
    var parts := SplitLinesKeep(newContent);
    if parts != [] && !EndsWith(parts[|parts| - 1], "\n") then parts[..|parts| - 1] + [parts[|parts| - 1] + "\n"]
    else parts
  }

  /** `lines[:start_idx] + new_lines + lines[end_idx:]` */
  function Splice(lines: seq<string>, startLine: int, endLine: Option<int>, newContent: string): seq<string>
  {
    var head := SliceIndex(StartIndex(startLine), |lines|);
    lines[..head] + NewLines(newContent) + lines[SliceIndex(EndIndex(endLine, |lines|), |lines|)..]
  }

  /**
    The splice keeps the lines before the start line and the lines from
    the end line on, with the new lines between them; without an end line
    nothing follows the new lines.
   */
  lemma SpliceKeepsOutside(lines: seq<string>, startLine: int, endLine: Option<int>, newContent: string)
    ensures var r := Splice(lines, startLine, endLine, newContent);
      var head := SliceIndex(StartIndex(startLine), |lines|);
      var tail := |lines| - SliceIndex(EndIndex(endLine, |lines|), |lines|);
      var n := |NewLines(newContent)|;
      |r| == head + n + tail
      && r[..head] == lines[..head]
      && r[head..head + n] == NewLines(newContent)
      && r[head + n..] == lines[|lines| - tail..]
      && (endLine.None? ==> tail == 0)
      && (startLine <= 1 && endLine.None? ==> r == NewLines(newContent))
  {
  }

  // ---------------------------------------------------------------------------
  // Operations built on write_file

  /** The cause recorded when `update_file_section` wraps an exception of `write_file`. */
  function WrapCause(e: Error): Cause
  {
    if e.OSError? then e.cause else Nested(e)
  }

  /** `update_file_section(fp, new_content, start_line, end_line)` on a snapshot. */
  function UpdateSpec(s: Snapshot, fp: Path, newContent: string, startLine: int, endLine: Option<int>,
                      createBackups: bool, backupSuffix: string, env: WriteEnv): (r: (Snapshot, Outcome<Error>))
    ensures fp in s.dirs ==> r == (s, Fail(FileOperationError("update_section", IsADirectory)))
    ensures !Present(s, fp) ==> r == (s, Fail(FileOperationError("update_section", NotFound)))
    ensures r.1.Fail? ==> r.1.error.FileOperationError? && r.1.error.operation == "update_section"
  {
    if fp in s.dirs then (s, Fail(FileOperationError("update_section", IsADirectory)))
    else if fp !in s.files then (s, Fail(FileOperationError("update_section", NotFound)))
    else
      var lines := ReadLines(TranslateNewlines(s.files[fp].content));
      var w := WriteSpec(s, fp, Concat(Splice(lines, startLine, endLine, newContent)), createBackups, backupSuffix, env);
      if w.1.Fail? then (w.0, Fail(FileOperationError("update_section", WrapCause(w.1.error)))) else w
  }

  /** A successful section update leaves the spliced lines in the file. */
  lemma UpdateSuccessEffect(s: Snapshot, fp: Path, newContent: string, startLine: int, endLine: Option<int>,
                            createBackups: bool, backupSuffix: string, env: WriteEnv)
    requires ValidSnapshot(s)
    ensures var r := UpdateSpec(s, fp, newContent, startLine, endLine, createBackups, backupSuffix, env);
      r.1 == Pass ==>
        fp in s.files && fp in r.0.files
        && r.0.files[fp].content
           == Concat(Splice(ReadLines(TranslateNewlines(s.files[fp].content)), startLine, endLine, newContent))
  {
    if fp in s.files {
      var lines := ReadLines(TranslateNewlines(s.files[fp].content));
      WriteSuccessEffect(s, fp, Concat(Splice(lines, startLine, endLine, newContent)), createBackups, backupSuffix, env);
    }
  }

  /** `create_file_if_not_exists(fp, content)`: `Ok(false)` when the path exists, else the outcome of the write. */
  function CreateIfAbsentSpec(s: Snapshot, fp: Path, content: string, createBackups: bool, backupSuffix: string,
                              env: WriteEnv): (r: (Snapshot, Result<bool, Error>))
    ensures Present(s, fp) <==> r == (s, Ok(false))
  {
    if Present(s, fp) then (s, Ok(false))
    else
      var w := WriteSpec(s, fp, content, createBackups, backupSuffix, env);
      if w.1.Fail? then (w.0, Err(w.1.error)) else (w.0, Ok(true))
  }

  /** Creating a file that does not exist adds exactly that file with its text, and makes no backup. */
  lemma CreateIfAbsentEffect(s: Snapshot, fp: Path, content: string, createBackups: bool, backupSuffix: string,
                             env: WriteEnv)
    requires ValidSnapshot(s)
    ensures var r := CreateIfAbsentSpec(s, fp, content, createBackups, backupSuffix, env);
      r.1 == Ok(true) ==> !Present(s, fp) && r.0.files == s.files[fp := FileEntry(content, env.now)]
  {
    if !Present(s, fp) {
      WriteSuccessEffect(s, fp, content, createBackups, backupSuffix, env);
    }
  }

  /** `delete_file(fp)`: a missing path is left alone; `unlinkFails` stands for an `unlink` the OS refuses. */
  function DeleteSpec(s: Snapshot, fp: Path, unlinkFails: bool): (r: (Snapshot, Outcome<Error>))
    ensures r.1 == Pass <==> fp !in s.dirs && !(fp in s.files && unlinkFails)
    ensures r.1 == Pass ==> r.0 == Snapshot(s.files - {fp}, s.dirs)
    ensures r.1.Fail? ==> r.0 == s && r.1.error.FileOperationError? && r.1.error.operation == "delete"
  {
    if !Present(s, fp) then (s, Pass)
    else if fp in s.dirs then (s, Fail(FileOperationError("delete", IsADirectory)))
    else if unlinkFails then (s, Fail(FileOperationError("delete", IOFailure)))
    else (Snapshot(s.files - {fp}, s.dirs), Pass)
  }

  /** `copy_file(src, dst)`: create the destination's parent, then `shutil.copy2`. */
  function CopySpec(s: Snapshot, src: Path, dst: Path, now: int): (r: (Snapshot, Outcome<Error>))
    ensures r.1.Fail? ==> r.1.error.FileOperationError? && r.1.error.operation == "copy" && r.0.files == s.files
    ensures r.1 == Pass ==>
      src in s.files && r.0.dirs == s.dirs + Prefixes(Parent(dst))
      && r.0.files == s.files[(if dst in r.0.dirs then dst + [Name(src)] else dst) := FileEntry(s.files[src].content, now)]
  {
    if BlockedByFile(s.files, Parent(dst)) then (s, Fail(FileOperationError("copy", FileInTheWay)))
    else
      var dirs := s.dirs + Prefixes(Parent(dst));
      var copy := CopyDestination(s.files, dirs, src, dst);
      if copy.Err? then (Snapshot(s.files, dirs), Fail(FileOperationError("copy", copy.error)))
      else (Snapshot(s.files[copy.value := FileEntry(s.files[src].content, now)], dirs), Pass)
  }

  /**
    Copying a file onto itself, or into the directory that holds it, fails
    and leaves every file as it was; once the parent directory can be
    created, the cause is `SameFileError`.
   */
  lemma CopyOntoItselfFails(s: Snapshot, src: Path, dst: Path, now: int)
    requires ValidSnapshot(s) && src in s.files
    requires dst == src || (dst == Parent(src) && dst in s.dirs)
    ensures var r := CopySpec(s, src, dst, now);
      r.1.Fail? && r.0.files == s.files
      && (!BlockedByFile(s.files, Parent(dst)) ==> r.1.error == FileOperationError("copy", SameFile))
  {
    if !BlockedByFile(s.files, Parent(dst)) {
      var dirs := s.dirs + Prefixes(Parent(dst));
      NotAmongParentPrefixes(s, src);
      if dst == Parent(src) {
        forall q | q in Prefixes(Parent(dst)) ensures |q| < |src| {
          var i :| 0 <= i <= |Parent(dst)| && q == Parent(dst)[..i];
        }
      }
      CopyOntoItself(s.files, dirs, src);
    }
  }

  // ---------------------------------------------------------------------------
  // The writer

  class FileWriter {
    const createBackups: bool
    const backupSuffix: string

    constructor (createBackups: bool, backupSuffix: string)
      ensures this.createBackups == createBackups && this.backupSuffix == backupSuffix
    {
      this.createBackups := createBackups;
      this.backupSuffix := backupSuffix;
    }

    /** The probe loop of `_create_backup`: the first candidate name that does not exist. */
    method ProbeBackupPath(fs: FileSystem, dir: Path, base: string) returns (p: Path)
      ensures p == dir + [Candidate(base, FirstFree(fs.files.Keys + fs.dirs, dir, base, 0))]
    {
      ghost var taken := fs.files.Keys + fs.dirs;
      var original := base;
      p := dir + [original];
      var counter: nat := 1;
      while fs.Exists(p)
        invariant counter >= 1
        invariant CandidatePaths(dir, base, counter - 1) <= taken
        invariant p == dir + [Candidate(base, counter - 1)]
        invariant FirstFree(taken, dir, base, counter - 1) == FirstFree(taken, dir, base, 0)
        decreases |taken - CandidatePaths(dir, base, counter - 1)|
      {
        CandidateFresh(dir, base, counter - 1);
        FewerUntaken(taken, CandidatePaths(dir, base, counter - 1), p);
        WithOwnSuffix(original, "." + Decimal(counter));
        RegroupCandidate(base, Decimal(counter));
        p := dir + [WithSuffix(original, Suffix(original) + ("." + Decimal(counter)))];
        counter := counter + 1;
      }
    }

    /** `_create_backup(fp)` */
    method CreateBackup(fs: FileSystem, fp: Path, now: int) returns (r: Result<Path, Error>)
      modifies fs`files
      ensures var made := CreateBackupSpec(Snapshot(old(fs.files), fs.dirs), fp, backupSuffix, now);
        if made.Err? then r == Err(made.error) && fs.files == old(fs.files)
        else r == Ok(made.value.1) && fs.files == made.value.0.files
    {
      var name := Name(fp);
      var arg := Suffix(name) + backupSuffix;
      if !SuffixAccepted(arg) || name == "" {
        return Err(OtherError);
      }
      var base := WithSuffix(name, arg);
      WithOwnSuffix(name, backupSuffix);
      var backupPath := ProbeBackupPath(fs, Parent(fp), base);
      var copy := CopyDestination(fs.files, fs.dirs, fp, backupPath);
      if copy.Err? {
        return Err(FileOperationError("backup", copy.error));
      }
      fs.files := fs.files[copy.value := FileEntry(fs.files[fp].content, now)];
      r := Ok(backupPath);
    }

    /** `_write_atomic(fp, content)` */
    method WriteAtomic(fs: FileSystem, fp: Path, content: string, env: WriteEnv) returns (r: Outcome<Cause>)
      modifies fs`files
      ensures (Snapshot(fs.files, fs.dirs), r) == AtomicSpec(Snapshot(old(fs.files), fs.dirs), fp, content, env)
    {
      if env.commitFailure.Some? {
        return Fail(env.commitFailure.value);
      }
      var temp := Parent(fp) + [env.tempName];
      if fp in fs.dirs {
        var dst := fp + [env.tempName];
        if fs.Exists(dst) || dst == temp {
          return Fail(IOFailure);
        }
        fs.files := fs.files[dst := FileEntry(content, env.now)];
      } else {
        fs.files := fs.files[fp := FileEntry(content, env.now)];
      }
      r := Pass;
    }

    /** `write_file(fp, content)` */
    method WriteFile(fs: FileSystem, fp: Path, content: string, env: WriteEnv) returns (r: Outcome<Error>)
      requires fs.Valid()
      modifies fs
      ensures fs.Valid()
      ensures (Snapshot(fs.files, fs.dirs), r)
              == WriteSpec(Snapshot(old(fs.files), old(fs.dirs)), fp, content, createBackups, backupSuffix, env)
    {
      var ok := MakeDirs(fs, Parent(fp));
      if !ok {
        return Fail(OSError(FileInTheWay));
      }
      ghost var s1 := Snapshot(fs.files, fs.dirs);
      var backupPath: Option<Path> := None;
      if createBackups && fs.Exists(fp) {
        var made := CreateBackup(fs, fp, now := env.now);
        if made.Err? {
          return Fail(made.error);
        }
        backupPath := Some(made.value);
      }
      ghost var s2 := Snapshot(fs.files, fs.dirs);
      var out := WriteAtomic(fs, fp, content, env);
      if out.Fail? {
        if backupPath.Some? && backupPath.value in fs.files && !env.restoreFails {
          MoveFile(fs, backupPath.value, fp);
        }
        return Fail(FileOperationError("write", out.error));
      }
      if backupPath.Some? && backupPath.value in fs.files && !env.unlinkFails {
        fs.files := fs.files - {backupPath.value};
      }
      r := Pass;
    }

    /** `write_file_lines(fp, lines)` */
    method WriteFileLines(fs: FileSystem, fp: Path, lines: seq<string>, env: WriteEnv) returns (r: Outcome<Error>)
      requires fs.Valid()
      modifies fs
      ensures fs.Valid()
      ensures (Snapshot(fs.files, fs.dirs), r)
              == WriteSpec(Snapshot(old(fs.files), old(fs.dirs)), fp, LinesContent(lines), createBackups, backupSuffix, env)
    {
      var content := Join('\n', lines);
      if lines != [] && !EndsWith(content, "\n") {
        content := content + "\n";
      }
      r := WriteFile(fs, fp, content, env);
    }

    /** `update_file_section(fp, new_content, start_line, end_line)` */
    method UpdateFileSection(fs: FileSystem, fp: Path, newContent: string, startLine: int, endLine: Option<int>,
                             env: WriteEnv) returns (r: Outcome<Error>)
      requires fs.Valid()
      modifies fs
      ensures fs.Valid()
      ensures (Snapshot(fs.files, fs.dirs), r)
              == UpdateSpec(Snapshot(old(fs.files), old(fs.dirs)), fp, newContent, startLine, endLine,
                            createBackups, backupSuffix, env)
    {
      if fp in fs.dirs {
        return Fail(FileOperationError("update_section", IsADirectory));
      }
      if fp !in fs.files {
        return Fail(FileOperationError("update_section", NotFound));
      }
      var lines := ReadLines(TranslateNewlines(fs.files[fp].content));
      var updated := Splice(lines, startLine, endLine, newContent);
      var w := WriteFile(fs, fp, Concat(updated), env);
      if w.Fail? {
        return Fail(FileOperationError("update_section", WrapCause(w.error)));
      }
      r := Pass;
    }

    /** `create_file_if_not_exists(fp, content)` */
    method CreateFileIfNotExists(fs: FileSystem, fp: Path, content: string, env: WriteEnv) returns (r: Result<bool, Error>)
      requires fs.Valid()
      modifies fs
      ensures fs.Valid()
      ensures (Snapshot(fs.files, fs.dirs), r)
              == CreateIfAbsentSpec(Snapshot(old(fs.files), old(fs.dirs)), fp, content, createBackups, backupSuffix, env)
    {
      if fs.Exists(fp) {
        return Ok(false);
      }
      var w := WriteFile(fs, fp, content, env);
      if w.Fail? {
        return Err(w.error);
      }
      r := Ok(true);
    }

    /** `delete_file(fp)` */
    method DeleteFile(fs: FileSystem, fp: Path, unlinkFails: bool) returns (r: Outcome<Error>)
      requires fs.Valid()
      modifies fs`files
      ensures fs.Valid()
      ensures (Snapshot(fs.files, fs.dirs), r) == DeleteSpec(Snapshot(old(fs.files), fs.dirs), fp, unlinkFails)
    {
      if fs.Exists(fp) {
        if fp in fs.dirs {
          return Fail(FileOperationError("delete", IsADirectory));
        }
        if unlinkFails {
          return Fail(FileOperationError("delete", IOFailure));
        }
        fs.files := fs.files - {fp};
      }
      r := Pass;
    }

    /** `copy_file(src, dst)` */
    method CopyFile(fs: FileSystem, src: Path, dst: Path, now: int) returns (r: Outcome<Error>)
      requires fs.Valid()
      modifies fs
      ensures fs.Valid()
      ensures (Snapshot(fs.files, fs.dirs), r) == CopySpec(Snapshot(old(fs.files), old(fs.dirs)), src, dst, now)
    {
      var ok := MakeDirs(fs, Parent(dst));
      if !ok {
        return Fail(FileOperationError("copy", FileInTheWay));
      }
      var copy := CopyDestination(fs.files, fs.dirs, src, dst);
      if copy.Err? {
        return Fail(FileOperationError("copy", copy.error));
      }
      fs.files := fs.files[copy.value := FileEntry(fs.files[src].content, now)];
      r := Pass;
    }

    /** `shutil.move(src, dst)` for a regular file, a failure doing nothing. */
    method MoveFile(fs: FileSystem, src: Path, dst: Path)
      requires src in fs.files
      modifies fs`files
      ensures Snapshot(fs.files, fs.dirs) == Move(Snapshot(old(fs.files), fs.dirs), src, dst)
    {
      var entry := fs.files[src];
      if dst in fs.dirs {
        var target := dst + [Name(src)];
        if !fs.Exists(target) {
          fs.files := (fs.files - {src})[target := entry];
        }
      } else {
        fs.files := (fs.files - {src})[dst := entry];
      }
    }
  }
}
