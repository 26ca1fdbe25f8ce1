/**
  The backup store (`BackupManager`): timestamped copies of files in one
  backup directory, their listing newest first, count-based retention per
  original file, age-based clean-up, restore, and statistics.

  A backup of a file named `n` is named `{stem}_{YYYYMMDD}_{HHMMSS}{suffix}.bak`
  and the original a backup belongs to is recovered from that name alone.
  The recovered original is a bare file name, so a listing filtered by a path
  with a directory part matches no backup at all; the model keeps that
  behaviour (see `NestedFilterMatchesNothing`).
 */
module Backup {
  import opened Wrappers
  import opened Errors
  import opened Text
  import opened Paths
  import opened Storage

  // ---------------------------------------------------------------------------
  // Backup names

  /** A local wall-clock reading, as `datetime.now()` gives it. */
  datatype DateTime = DateTime(year: nat, month: nat, day: nat, hour: nat, minute: nat, second: nat)

  /** Readings `strftime` formats with fixed-width fields. */
  predicate ValidDateTime(t: DateTime)
  {
    1000 <= t.year <= 9999 && 1 <= t.month <= 12 && 1 <= t.day <= 31
    && t.hour < 24 && t.minute < 60 && t.second < 60
  }

  predicate AllDigits(s: string)
  {
    forall k :: 0 <= k < |s| ==> '0' <= s[k] <= '9'
  }

  /** `%Y%m%d` */
  function DatePart(t: DateTime): (s: string)
    ensures |s| == 8 && AllDigits(s)
  {
    ZeroPadded(t.year, 4) + ZeroPadded(t.month, 2) + ZeroPadded(t.day, 2)
  }

  /** `%H%M%S` */
  function TimePart(t: DateTime): (s: string)
    ensures |s| == 6 && AllDigits(s)
  {
    ZeroPadded(t.hour, 2) + ZeroPadded(t.minute, 2) + ZeroPadded(t.second, 2)
  }

  /** `t.strftime("%Y%m%d_%H%M%S")` */
  function Timestamp(t: DateTime): (s: string)
    requires ValidDateTime(t)
    ensures |s| == 15 && s[8] == '_'
    ensures forall k :: 0 <= k < 15 && k != 8 ==> '0' <= s[k] <= '9'
  {
    DatePart(t) + "_" + TimePart(t)
  }

  /** The name `create_backup` gives the backup of a file named `name` taken at `t`. */
  function BackupName(name: string, t: DateTime): (b: string)
    requires ValidDateTime(t)
    ensures EndsWith(b, ".bak") && |b| == |name| + 20
  {
    StemSuffix(name);
    Stem(name) + "_" + Timestamp(t) + Suffix(name) + ".bak"
  }

  /** `_infer_original_path`: the original file name recovered from a backup's file name. */
  function InferOriginalName(backupName: string): string
  {
    var name := Stem(backupName);
    var parts := Split(name, '_');
    if |parts| >= 3 then
      var base := Join('_', parts[..|parts| - 2]);
      if '.' in name then base + Suffix(name) else base
    else name
  }

  function InferOriginalPath(backupName: string): (p: Path)
    ensures |p| <= 1
  {
    PathOfName(InferOriginalName(backupName))
  }

  lemma RegroupStamp(stem: string, d: string, h: string, suf: string)
    ensures stem + "_" + (d + "_" + h) + suf + ".bak" == (stem + "_" + d + "_" + h + suf) + "." + "bak"
  {
  }

  /** The stem of a backup name is the original's stem, the timestamp and the original's suffix. */
  lemma StemOfBackupName(name: string, t: DateTime)
    requires ValidDateTime(t)
    ensures Stem(BackupName(name, t)) == Stem(name) + "_" + DatePart(t) + "_" + TimePart(t) + Suffix(name)
  {
    var inner := Stem(name) + "_" + DatePart(t) + "_" + TimePart(t) + Suffix(name);
    RegroupStamp(Stem(name), DatePart(t), TimePart(t), Suffix(name));
    StemSuffixOfDotted(inner, "bak");
  }

  lemma SplitStamped(stem: string, d: string, rest: string)
    requires '_' !in d && '_' !in rest
    ensures Split(stem + "_" + d + "_" + rest, '_') == Split(stem, '_') + [d, rest]
  {
    assert stem + "_" + d + "_" + rest == stem + ['_'] + (d + ['_'] + rest);
    SplitAround(stem, '_', d + ['_'] + rest);
    SplitAround(d, '_', rest);
    SplitNoSeparator(d, '_');
    SplitNoSeparator(rest, '_');
  }

  lemma SuffixAfter(head: string, suf: string)
    requires |head| >= 1 && suf != "" && IsSuffixShaped(suf)
    ensures '.' in head + suf && Suffix(head + suf) == suf
  {
    assert suf == "." + suf[1..];
    assert head + suf == head + "." + suf[1..];
    StemSuffixOfDotted(head, suf[1..]);
    assert (head + suf)[|head|] == '.';
  }

  lemma NoSuffixAfter(stem: string, rest: string)
    requires '.' !in rest && LastIndexOf(stem, '.') <= 0
    ensures Suffix(stem + rest) == ""
  {
    LastIndexOfAppend(stem, rest, '.');
  }

  /** Inferring from `{stem}_{d}_{rest}.bak`, with `d` and `rest` free of '_', gives back `stem` and a suffix. */
  lemma InferOfStamped(stem: string, d: string, rest: string)
    requires '_' !in d && '_' !in rest
    ensures var inner := stem + "_" + d + "_" + rest;
      InferOriginalName(inner + ".bak") == if '.' in inner then stem + Suffix(inner) else stem
  {
    var inner := stem + "_" + d + "_" + rest;
    assert inner + ".bak" == inner + "." + "bak";
    StemSuffixOfDotted(inner, "bak");
    SplitStamped(stem, d, rest);
    var parts := Split(inner, '_');
    assert parts[..|parts| - 2] == Split(stem, '_');
    JoinSplit(stem, '_');
  }

  lemma Regroup(stem: string, d: string, h: string, suf: string)
    ensures stem + "_" + d + "_" + h + suf + ".bak" == (stem + "_" + d + "_" + (h + suf)) + ".bak"
    ensures stem + "_" + d + "_" + (h + suf) == (stem + "_" + d + "_" + h) + suf
    ensures stem + "_" + d + "_" + h == stem + ("_" + d + "_" + h)
  {
  }

  /** The stem and suffix the inference reassembles are the original's. */
  lemma RecoveredParts(name: string, d: string, h: string)
    requires AllDigits(d) && AllDigits(h)
    requires Suffix(name) != "" || LastIndexOf(name, '.') <= 0
    ensures var inner := Stem(name) + "_" + d + "_" + (h + Suffix(name));
      (if '.' in inner then Stem(name) + Suffix(inner) else Stem(name)) == name
  {
    StemSuffix(name);
    if Suffix(name) != "" {
      StampedKeepsSuffix(Stem(name), d, h, Suffix(name));
    } else {
      StampedWithoutSuffix(Stem(name), d, h);
    }
  }

  lemma StampedKeepsSuffix(stem: string, d: string, h: string, suf: string)
    requires suf != "" && IsSuffixShaped(suf)
    ensures '.' in stem + "_" + d + "_" + (h + suf) && Suffix(stem + "_" + d + "_" + (h + suf)) == suf
  {
    Regroup(stem, d, h, suf);
    SuffixAfter(stem + "_" + d + "_" + h, suf);
  }

  lemma StampedWithoutSuffix(stem: string, d: string, h: string)
    requires AllDigits(d) && AllDigits(h) && LastIndexOf(stem, '.') <= 0
    ensures Suffix(stem + "_" + d + "_" + (h + "")) == ""
  {
    assert stem + "_" + d + "_" + (h + "") == stem + ("_" + d + "_" + h);
    assert '.' !in "_" + d + "_" + h;
    NoSuffixAfter(stem, "_" + d + "_" + h);
  }

  lemma {:induction false} InferInvertsStamped(name: string, d: string, h: string)
    requires AllDigits(d) && AllDigits(h)
    requires '_' !in Suffix(name)
    requires Suffix(name) != "" || LastIndexOf(name, '.') <= 0
    ensures InferOriginalName(Stem(name) + "_" + d + "_" + h + Suffix(name) + ".bak") == name
  {
    var stem, suf := Stem(name), Suffix(name);
    Regroup(stem, d, h, suf);
    assert '_' !in h + suf && '_' !in d;
    InferOfStamped(stem, d, h + suf);
    RecoveredParts(name, d, h);
  }

  /**
    The original name is recovered from its backup's name whenever the
    suffix has no '_' and, for a name without suffix, the name has no dot
    after its first character.
   */
  lemma InferInvertsBackupName(name: string, t: DateTime)
    requires ValidDateTime(t)
    requires '_' !in Suffix(name)
    requires Suffix(name) != "" || LastIndexOf(name, '.') <= 0
    ensures InferOriginalName(BackupName(name, t)) == name
  {
    var d, h := DatePart(t), TimePart(t);
    assert BackupName(name, t) == Stem(name) + "_" + d + "_" + h + Suffix(name) + ".bak";
    InferInvertsStamped(name, d, h);
  }

  /** A name ending in a dot is not recovered: "a." comes back as "a._{timestamp}". */
  lemma TrailingDotNameNotRecovered(t: DateTime)
    requires ValidDateTime(t)
    ensures InferOriginalName(BackupName("a.", t)) != "a."
  {
    var d, h := DatePart(t), TimePart(t);
    TrailingDotParts();
    assert BackupName("a.", t) == ("a" + ".") + "_" + d + "_" + h + ".bak";
    InferTrailingDot("a", d, h);
  }

  lemma TrailingDotParts()
    ensures Stem("a.") == "a." && Suffix("a.") == ""
  {
    assert LastIndexOf("a.", '.') == 1;
  }

  lemma RegroupDot(y: string, d: string, h: string)
    ensures (y + ".") + "_" + d + "_" + h == y + "." + ("_" + d + "_" + h)
  {
  }

  lemma InferTrailingDot(y: string, d: string, h: string)
    requires |y| >= 1 && AllDigits(d) && AllDigits(h)
    ensures InferOriginalName((y + ".") + "_" + d + "_" + h + ".bak") != y + "."
  {
    var tail := "_" + d + "_" + h;
    var inner := (y + ".") + "_" + d + "_" + h;
    assert '_' !in d && '_' !in h && '.' !in tail;
    InferOfStamped(y + ".", d, h);
    RegroupDot(y, d, h);
    StemSuffixOfDotted(y, tail);
    assert '.' in inner by { assert inner[|y|] == '.'; }
    var r := InferOriginalName(inner + ".bak");
    assert r == (y + ".") + Suffix(inner);
    assert Suffix(inner) == "." + tail;
    assert |r| == |y| + 2 + |tail|;
  }

  lemma RegroupTar(stem: string, h: string)
    ensures stem + "_" + (h + ".tar") + "_" + "gz" == (stem + "_" + h) + "." + "tar_gz"
  {
    assert (h + ".tar") + "_" + "gz" == h + ("." + "tar_gz");
  }

  /** A suffix containing '_' is not recovered: "x.tar_gz" comes back as "x_{date}.tar_gz". */
  lemma UnderscoredSuffixNotRecovered(t: DateTime)
    requires ValidDateTime(t)
    ensures InferOriginalName(BackupName("x.tar_gz", t)) != "x.tar_gz"
  {
    var d, h := DatePart(t), TimePart(t);
    StemSuffixOfDotted("x", "tar_gz");
    assert "x.tar_gz" == "x" + "." + "tar_gz";
    var stem := "x" + "_" + d;
    var inner := stem + "_" + (h + ".tar") + "_" + "gz";
    assert BackupName("x.tar_gz", t) == inner + ".bak";
    assert '_' !in h + ".tar";
    InferOfStamped(stem, h + ".tar", "gz");
    RegroupTar(stem, h);
    StemSuffixOfDotted("x" + "_" + d + "_" + h, "tar_gz");
    assert '.' in inner by { assert inner[17] == '.'; }
    assert |InferOriginalName(BackupName("x.tar_gz", t))| == 17;
  }

  // ---------------------------------------------------------------------------
  // Listing

  /** One entry of `list_backups`; `created` is the file's `st_ctime`. */
  datatype BackupInfo = BackupInfo(path: Path, name: string, size: nat, created: int, originalPath: Path)

  lemma ChildPath(dir: Path, a: string, b: string)
    ensures (dir + [a])[|dir|] == a && |dir + [a]| == |dir| + 1 && (dir + [a])[..|dir|] == dir
    ensures dir + [a] == dir + [b] <==> a == b
  {
    assert (dir + [b])[|dir|] == b;
  }

  /** Names of the regular files directly in `dir` that `dir.glob("*.bak")` yields. */
  function BackupNames(dir: Path, files: map<Path, FileEntry>): (names: set<string>)
    ensures forall n :: n in names ==> dir + [n] in files && EndsWith(n, ".bak")
  {
    assert forall p: Path | |p| == |dir| + 1 && p[..|dir|] == dir :: p == dir + [p[|dir|]];
    set p | p in files && |p| == |dir| + 1 && p[..|dir|] == dir && EndsWith(p[|dir|], ".bak") :: p[|dir|]
  }

  lemma BackupNamesComplete(dir: Path, files: map<Path, FileEntry>, n: string)
    requires dir + [n] in files && EndsWith(n, ".bak")
    ensures n in BackupNames(dir, files)
  {
    ChildPath(dir, n, n);
  }

  /** The entry `list_backups` builds for the backup named `n`. */
  function Describe(dir: Path, files: map<Path, FileEntry>, n: string): (b: BackupInfo)
    requires dir + [n] in files
    ensures b.path == dir + [n] && b.name == n && b.originalPath == InferOriginalPath(n)
    ensures b.created == files[dir + [n]].ctime
  {
    var e := files[dir + [n]];
    BackupInfo(dir + [n], n, |e.content|, e.ctime, InferOriginalPath(n))
  }

  /** The backups `list_backups(filter)` reports: all of them, or those whose inferred original is `filter`. */
  function Matching(dir: Path, files: map<Path, FileEntry>, filter: Option<Path>): (names: set<string>)
    ensures names <= BackupNames(dir, files)
  {
    set n | n in BackupNames(dir, files) && (filter.None? || InferOriginalPath(n) == filter.value)
  }

  /** A filter with a directory part (every absolute path among them) matches no backup. */
  lemma NestedFilterMatchesNothing(dir: Path, files: map<Path, FileEntry>, filter: Path)
    requires |filter| >= 2
    ensures Matching(dir, files, Some(filter)) == {}
  {
  }

  function Names(r: seq<BackupInfo>): set<string>
  {
    set i | 0 <= i < |r| :: r[i].name
  }

  predicate DistinctNames(r: seq<BackupInfo>)
  {
    forall i, j :: 0 <= i < j < |r| ==> r[i].name != r[j].name
  }

  predicate NewestFirst(r: seq<BackupInfo>)
  {
    forall i, j :: 0 <= i < j < |r| ==> r[i].created >= r[j].created
  }

  /** `b` is the entry `list_backups` describes for an existing backup file. */
  predicate IsEntry(dir: Path, files: map<Path, FileEntry>, b: BackupInfo)
  {
    dir + [b.name] in files && b == Describe(dir, files, b.name)
  }

  /** What `list_backups(filter)` returns, up to the order of equally old backups. */
  predicate IsListing(dir: Path, files: map<Path, FileEntry>, filter: Option<Path>, r: seq<BackupInfo>)
  {
    NewestFirst(r) && DistinctNames(r) && Names(r) == Matching(dir, files, filter)
    && forall b :: b in r ==> IsEntry(dir, files, b)
  }

  lemma NamesCons(x: BackupInfo, s: seq<BackupInfo>)
    ensures Names([x] + s) == {x.name} + Names(s)
  {
    var r := [x] + s;
    assert r[0].name == x.name;
    forall y | y in Names(r) ensures y in {x.name} + Names(s) {
      var k :| 0 <= k < |r| && r[k].name == y;
      if k > 0 { assert s[k - 1].name == y; }
    }
    forall y | y in Names(s) ensures y in Names(r) {
      var k :| 0 <= k < |s| && s[k].name == y;
      assert r[k + 1].name == y;
    }
  }

  lemma NamesSnoc(s: seq<BackupInfo>, x: BackupInfo)
    ensures Names(s + [x]) == Names(s) + {x.name}
  {
    var r := s + [x];
    assert r[|s|].name == x.name;
    forall y | y in Names(r) ensures y in Names(s) + {x.name} {
      var k :| 0 <= k < |r| && r[k].name == y;
      if k < |s| { assert s[k].name == y; }
    }
    forall y | y in Names(s) ensures y in Names(r) {
      var k :| 0 <= k < |s| && s[k].name == y;
      assert r[k].name == y;
    }
  }

  lemma PermutationNames(r: seq<BackupInfo>, s: seq<BackupInfo>)
    requires multiset(r) == multiset(s)
    ensures Names(r) == Names(s)
  {
    forall y | y in Names(r) ensures y in Names(s) {
      var k :| 0 <= k < |r| && r[k].name == y;
      assert r[k] in multiset(s);
      var j :| 0 <= j < |s| && s[j] == r[k];
    }
    forall y | y in Names(s) ensures y in Names(r) {
      var k :| 0 <= k < |s| && s[k].name == y;
      assert s[k] in multiset(r);
      var j :| 0 <= j < |r| && r[j] == s[k];
    }
  }

  lemma DistinctCons(y: BackupInfo, t: seq<BackupInfo>)
    ensures DistinctNames(t) && y.name !in Names(t) ==> DistinctNames([y] + t)
  {
    var r := [y] + t;
    forall i, j | 0 <= i < j < |r| && DistinctNames(t) && y.name !in Names(t) ensures r[i].name != r[j].name {
      assert r[j] == t[j - 1];
      if i > 0 { assert r[i] == t[i - 1]; }
    }
  }

  lemma DistinctSnoc(s: seq<BackupInfo>, x: BackupInfo)
    requires DistinctNames(s) && x.name !in Names(s)
    ensures DistinctNames(s + [x])
  {
    var r := s + [x];
    forall i, j | 0 <= i < j < |r| ensures r[i].name != r[j].name {
      assert r[i] == s[i];
      if j < |s| { assert r[j] == s[j]; }
    }
  }

  lemma DistinctTail(s: seq<BackupInfo>)
    requires DistinctNames(s) && s != []
    ensures DistinctNames(s[1..]) && s[0].name !in Names(s[1..])
  {
    assert forall k :: 0 <= k < |s[1..]| ==> s[1..][k] == s[k + 1];
  }

  lemma DistinctInit(s: seq<BackupInfo>)
    requires DistinctNames(s) && s != []
    ensures DistinctNames(s[..|s| - 1]) && s[|s| - 1].name !in Names(s[..|s| - 1])
  {
    assert forall k :: 0 <= k < |s| - 1 ==> s[..|s| - 1][k] == s[k];
  }

  lemma PrependNewest(y: BackupInfo, t: seq<BackupInfo>)
    requires NewestFirst(t) && forall k :: 0 <= k < |t| ==> t[k].created <= y.created
    ensures NewestFirst([y] + t)
  {
    var r := [y] + t;
    forall i, j | 0 <= i < j < |r| ensures r[i].created >= r[j].created {
      assert r[j] == t[j - 1];
      if i > 0 { assert r[i] == t[i - 1]; }
    }
  }

  /** The step of `InsertNewestFirst` that keeps the head and inserts into the tail. */
  lemma InsertBehindHead(x: BackupInfo, s: seq<BackupInfo>, t: seq<BackupInfo>)
    requires s != [] && NewestFirst(s) && x.created <= s[0].created
    requires NewestFirst(t) && multiset(t) == multiset(s[1..]) + multiset{x}
    requires DistinctNames(s[1..]) && x.name !in Names(s[1..]) ==> DistinctNames(t)
    ensures NewestFirst([s[0]] + t)
    ensures multiset([s[0]] + t) == multiset(s) + multiset{x}
    ensures DistinctNames(s) && x.name !in Names(s) ==> DistinctNames([s[0]] + t)
  {
    assert s == [s[0]] + s[1..];
    var pool := s[1..] + [x];
    assert multiset(pool) == multiset(t);
    forall k | 0 <= k < |t| ensures t[k].created <= s[0].created {
      assert t[k] in multiset(pool);
      var j :| 0 <= j < |pool| && pool[j] == t[k];
      if j < |s| - 1 { assert pool[j] == s[j + 1]; }
    }
    PrependNewest(s[0], t);
    if DistinctNames(s) && x.name !in Names(s) {
      DistinctTail(s);
      NamesCons(s[0], s[1..]);
      PermutationNames(t, pool);
      NamesSnoc(s[1..], x);
      DistinctCons(s[0], t);
    }
  }

  /** Insertion of one entry into a newest-first list, after the entries as old as it. */
  function InsertNewestFirst(x: BackupInfo, s: seq<BackupInfo>): (r: seq<BackupInfo>)
    requires NewestFirst(s)
    ensures NewestFirst(r)
    ensures multiset(r) == multiset(s) + multiset{x}
    ensures DistinctNames(s) && x.name !in Names(s) ==> DistinctNames(r)
  {
    if s == [] then [x]
    else if x.created > s[0].created then
      PrependNewest(x, s);
      NamesCons(x, []);
      DistinctCons(x, s);
      [x] + s
    else
      var t := InsertNewestFirst(x, s[1..]);
      InsertBehindHead(x, s, t);
      [s[0]] + t
  }

  lemma SortStep(s: seq<BackupInfo>, sorted: seq<BackupInfo>)
    requires s != [] && multiset(sorted) == multiset(s[..|s| - 1])
    ensures DistinctNames(s) ==> DistinctNames(s[..|s| - 1]) && s[|s| - 1].name !in Names(sorted)
  {
    if DistinctNames(s) {
      DistinctInit(s);
      PermutationNames(sorted, s[..|s| - 1]);
    }
  }

  /** `sorted(entries, key=created, reverse=True)` */
  function SortNewestFirst(s: seq<BackupInfo>): (r: seq<BackupInfo>)
    ensures NewestFirst(r)
    ensures multiset(r) == multiset(s)
    ensures DistinctNames(s) ==> DistinctNames(r)
  {
    if s == [] then []
    else
      var init := s[..|s| - 1];
      var x := s[|s| - 1];
      assert s == init + [x];
      var sorted := SortNewestFirst(init);
      SortStep(s, sorted);
      InsertNewestFirst(x, sorted)
  }

  lemma {:induction false} DistinctNamesCount(r: seq<BackupInfo>)
    requires DistinctNames(r)
    ensures |Names(r)| == |r|
  {
    if r != [] {
      var q := r[..|r| - 1];
      DistinctInit(r);
      DistinctNamesCount(q);
      assert r == q + [r[|r| - 1]];
      NamesSnoc(q, r[|r| - 1]);
    }
  }

  /** A listing holds exactly one entry per matching backup. */
  lemma ListingLength(dir: Path, files: map<Path, FileEntry>, filter: Option<Path>, r: seq<BackupInfo>)
    requires IsListing(dir, files, filter, r)
    ensures |r| == |Matching(dir, files, filter)|
  {
    DistinctNamesCount(r);
  }

  /** Distinct entries of a listing are distinct files. */
  /** No two entries share a path. */
  predicate PathsDistinct(r: seq<BackupInfo>)
  {
    forall i, j :: 0 <= i < j < |r| ==> r[i].path != r[j].path
  }

  lemma ListingPathsDistinct(dir: Path, files: map<Path, FileEntry>, filter: Option<Path>, r: seq<BackupInfo>)
    requires IsListing(dir, files, filter, r)
    ensures forall i :: 0 <= i < |r| ==> r[i].path == dir + [r[i].name]
    ensures PathsDistinct(r)
  {
    forall i | 0 <= i < |r| ensures r[i].path == dir + [r[i].name] {
      assert r[i] in r;
    }
    forall i, j | 0 <= i < j < |r| ensures r[i].path != r[j].path {
      ChildPath(dir, r[i].name, r[j].name);
    }
  }

  /** Listing is deterministic up to ties: any two listings of the same store have the same entries. */
  lemma ListingsAgree(dir: Path, files: map<Path, FileEntry>, filter: Option<Path>, r1: seq<BackupInfo>, r2: seq<BackupInfo>)
    requires IsListing(dir, files, filter, r1) && IsListing(dir, files, filter, r2)
    ensures |r1| == |r2|
    ensures forall b :: b in r1 <==> b in r2
  {
    ListingLength(dir, files, filter, r1);
    ListingLength(dir, files, filter, r2);
    forall b | b in r1 ensures b in r2 {
      var i :| 0 <= i < |r1| && r1[i] == b;
      assert b.name in Names(r2);
      var j :| 0 <= j < |r2| && r2[j].name == b.name;
      assert r2[j] in r2;
    }
    forall b | b in r2 ensures b in r1 {
      var i :| 0 <= i < |r2| && r2[i] == b;
      assert b.name in Names(r1);
      var j :| 0 <= j < |r1| && r1[j].name == b.name;
      assert r1[j] in r1;
    }
  }

  /** The state of `list_backups` part-way through the directory: `pending` names are still to visit. */
  predicate Collected(dir: Path, files: map<Path, FileEntry>, filter: Option<Path>, pending: set<string>, found: seq<BackupInfo>)
  {
    pending <= BackupNames(dir, files)
    && (forall b :: b in found ==> IsEntry(dir, files, b))
    && Names(found) == Matching(dir, files, filter) - pending
    && DistinctNames(found)
  }

  lemma CollectStep(dir: Path, files: map<Path, FileEntry>, filter: Option<Path>, pending: set<string>,
                    found: seq<BackupInfo>, n: string)
    requires Collected(dir, files, filter, pending, found) && n in pending
    ensures var info := Describe(dir, files, n);
      if filter.None? || info.originalPath == filter.value
      then Collected(dir, files, filter, pending - {n}, found + [info])
      else Collected(dir, files, filter, pending - {n}, found)
  {
    var info := Describe(dir, files, n);
    NamesSnoc(found, info);
    if filter.None? || info.originalPath == filter.value {
      DistinctSnoc(found, info);
    }
  }

  lemma SortedCollection(dir: Path, files: map<Path, FileEntry>, filter: Option<Path>, found: seq<BackupInfo>, r: seq<BackupInfo>)
    requires Collected(dir, files, filter, {}, found)
    requires r == SortNewestFirst(found)
    ensures IsListing(dir, files, filter, r)
  {
    PermutationNames(r, found);
    assert forall b :: b in r ==> b in multiset(found);
  }

  // ---------------------------------------------------------------------------
  // Retention, age-based clean-up and statistics on listings

  /** The entries count-based retention removes: everything after the first `cap`. */
  function Surplus(r: seq<BackupInfo>, cap: int): (s: seq<BackupInfo>)
    ensures cap > 0 && |r| > cap ==> |s| == |r| - cap
    ensures cap <= 0 || |r| <= cap ==> s == []
  {
    if cap > 0 && |r| > cap then r[cap..] else []
  }

  /** Paths of the entries whose `unlink` does not raise. */
  function Unlinked(s: seq<BackupInfo>, unlinkFails: Path -> bool): set<Path>
  {
    set i | 0 <= i < |s| && !unlinkFails(s[i].path) :: s[i].path
  }

  lemma UnlinkedSnoc(s: seq<BackupInfo>, i: nat, unlinkFails: Path -> bool)
    requires i < |s|
    ensures Unlinked(s[..i + 1], unlinkFails)
            == Unlinked(s[..i], unlinkFails) + (if unlinkFails(s[i].path) then {} else {s[i].path})
  {
    assert forall k :: 0 <= k < i ==> s[..i + 1][k] == s[..i][k];
    assert s[..i + 1][i] == s[i];
  }

  /** Retention keeps the `cap` newest backups: every kept entry is at least as new as every removed one. */
  lemma RetentionKeepsNewest(r: seq<BackupInfo>, cap: int, i: int, j: int)
    requires NewestFirst(r) && cap > 0 && |r| > cap
    requires 0 <= i < cap && 0 <= j < |Surplus(r, cap)|
    ensures r[i].created >= Surplus(r, cap)[j].created
  {
    assert Surplus(r, cap)[j] == r[cap + j];
  }

  /** Removing the paths of exactly the entries from `keep` on leaves the names of the first `keep` entries. */
  lemma MatchingAfterRemoval(dir: Path, files: map<Path, FileEntry>, filter: Option<Path>,
                             r: seq<BackupInfo>, keep: nat, gone: set<Path>)
    requires IsListing(dir, files, filter, r) && keep <= |r|
    requires forall m :: keep <= m < |r| ==> r[m].path in gone
    requires forall m :: 0 <= m < keep ==> r[m].path !in gone
    ensures Matching(dir, files - gone, filter) == Names(r[..keep])
  {
    var after := files - gone;
    var kept := r[..keep];
    forall n | n in Matching(dir, after, filter) ensures n in Names(kept) {
      assert n in Names(r);
      var k :| 0 <= k < |r| && r[k].name == n;
      assert r[k] in r;
      ChildPath(dir, n, n);
      assert kept[k] == r[k];
    }
    forall n | n in Names(kept) ensures n in Matching(dir, after, filter) {
      var k :| 0 <= k < |kept| && kept[k].name == n;
      assert r[k] == kept[k] && r[k] in r;
      assert n in Names(r);
      BackupNamesComplete(dir, after, n);
    }
  }

  /** With distinct paths and no failing unlink, retention removes the paths of exactly the entries from `cap` on. */
  lemma SurplusUnlinked(r: seq<BackupInfo>, cap: int, keep: nat, unlinkFails: Path -> bool)
    requires PathsDistinct(r) && cap > 0 && keep == (if |r| > cap then cap else |r|)
    requires forall p :: !unlinkFails(p)
    ensures forall m :: keep <= m < |r| ==> r[m].path in Unlinked(Surplus(r, cap), unlinkFails)
    ensures forall m :: 0 <= m < keep ==> r[m].path !in Unlinked(Surplus(r, cap), unlinkFails)
  {
    var surplus := Surplus(r, cap);
    forall m | keep <= m < |r| ensures r[m].path in Unlinked(surplus, unlinkFails) {
      assert surplus[m - keep] == r[m];
    }
    forall m | 0 <= m < keep ensures r[m].path !in Unlinked(surplus, unlinkFails) {
      forall j | 0 <= j < |surplus| ensures surplus[j].path != r[m].path {
        assert surplus[j] == r[keep + j];
      }
    }
  }

  /** When every unlink succeeds, retention leaves at most `cap` backups of the file. */
  lemma RetentionLeavesAtMostCap(dir: Path, files: map<Path, FileEntry>, filter: Option<Path>,
                                  r: seq<BackupInfo>, cap: int, unlinkFails: Path -> bool)
    requires IsListing(dir, files, filter, r) && cap > 0
    requires forall p :: !unlinkFails(p)
    ensures |Matching(dir, files - Unlinked(Surplus(r, cap), unlinkFails), filter)|
            == if |r| > cap then cap else |r|
  {
    var keep := if |r| > cap then cap else |r|;
    ListingPathsDistinct(dir, files, filter, r);
    SurplusUnlinked(r, cap, keep, unlinkFails);
    MatchingAfterRemoval(dir, files, filter, r, keep, Unlinked(Surplus(r, cap), unlinkFails));
    assert DistinctNames(r[..keep]);
    DistinctNamesCount(r[..keep]);
  }

  /** Paths of the entries created before `cutoff` whose `unlink` does not raise. */
  function ExpiredAmong(s: seq<BackupInfo>, cutoff: int, unlinkFails: Path -> bool): set<Path>
  {
    set i | 0 <= i < |s| && s[i].created < cutoff && !unlinkFails(s[i].path) :: s[i].path
  }

  lemma ExpiredSnoc(s: seq<BackupInfo>, i: nat, cutoff: int, unlinkFails: Path -> bool)
    requires i < |s|
    ensures ExpiredAmong(s[..i + 1], cutoff, unlinkFails)
            == ExpiredAmong(s[..i], cutoff, unlinkFails)
               + (if s[i].created < cutoff && !unlinkFails(s[i].path) then {s[i].path} else {})
  {
    assert forall k :: 0 <= k < i ==> s[..i + 1][k] == s[..i][k];
    assert s[..i + 1][i] == s[i];
  }

  /** `datetime.now() - timedelta(days=days)` as a timestamp in seconds. */
  function Cutoff(now: int, days: int): int
  {
    now - days * 86400
  }

  /** The backups `cleanup_old_backups(filepath, days)` unlinks: created before the cutoff, unlink not failing. */
  function Expired(dir: Path, files: map<Path, FileEntry>, filter: Option<Path>, cutoff: int,
                   unlinkFails: Path -> bool): (gone: set<Path>)
    ensures forall p :: p in gone ==> p in files && files[p].ctime < cutoff && !unlinkFails(p)
  {
    set n | n in Matching(dir, files, filter) && files[dir + [n]].ctime < cutoff
              && !unlinkFails(dir + [n]) :: dir + [n]
  }

  lemma ExpiredOfListing(dir: Path, files: map<Path, FileEntry>, filter: Option<Path>, r: seq<BackupInfo>,
                         cutoff: int, unlinkFails: Path -> bool)
    requires IsListing(dir, files, filter, r)
    ensures ExpiredAmong(r, cutoff, unlinkFails) == Expired(dir, files, filter, cutoff, unlinkFails)
  {
    ListingPathsDistinct(dir, files, filter, r);
    forall p | p in Expired(dir, files, filter, cutoff, unlinkFails) ensures p in ExpiredAmong(r, cutoff, unlinkFails) {
      var n :| n in Matching(dir, files, filter) && files[dir + [n]].ctime < cutoff
               && !unlinkFails(dir + [n]) && p == dir + [n];
      assert n in Names(r);
      var k :| 0 <= k < |r| && r[k].name == n;
      assert r[k] in r;
    }
    forall p | p in ExpiredAmong(r, cutoff, unlinkFails) ensures p in Expired(dir, files, filter, cutoff, unlinkFails) {
      var k :| 0 <= k < |r| && r[k].created < cutoff && !unlinkFails(r[k].path) && r[k].path == p;
      assert r[k] in r;
      assert r[k].name in Names(r);
    }
  }

  /** With distinct paths, an entry's path is not among the paths of the entries before it. */
  lemma PathFresh(r: seq<BackupInfo>, i: nat, cutoff: int, unlinkFails: Path -> bool)
    requires PathsDistinct(r) && i < |r|
    ensures r[i].path !in ExpiredAmong(r[..i], cutoff, unlinkFails)
  {
    forall k | 0 <= k < i ensures r[..i][k].path != r[i].path {
      assert r[..i][k] == r[k];
    }
  }

  /** The state of `cleanup_old_backups` after visiting the first `i` entries of the listing. */
  predicate Swept(files0: map<Path, FileEntry>, files: map<Path, FileEntry>, r: seq<BackupInfo>, i: nat,
                  cutoff: int, unlinkFails: Path -> bool, count: nat)
    requires i <= |r|
  {
    files == files0 - ExpiredAmong(r[..i], cutoff, unlinkFails)
    && count == |ExpiredAmong(r[..i], cutoff, unlinkFails)|
  }

  lemma SweepStep(files0: map<Path, FileEntry>, r: seq<BackupInfo>, i: nat,
                  cutoff: int, unlinkFails: Path -> bool, files: map<Path, FileEntry>, count: nat)
    requires PathsDistinct(r) && i < |r|
    requires Swept(files0, files, r, i, cutoff, unlinkFails, count)
    ensures r[i].created < cutoff && !unlinkFails(r[i].path) ==>
              Swept(files0, files - {r[i].path}, r, i + 1, cutoff, unlinkFails, count + 1)
    ensures !(r[i].created < cutoff && !unlinkFails(r[i].path)) ==>
              Swept(files0, files, r, i + 1, cutoff, unlinkFails, count)
  {
    ExpiredSnoc(r, i, cutoff, unlinkFails);
    PathFresh(r, i, cutoff, unlinkFails);
    RemoveMore(files0, ExpiredAmong(r[..i], cutoff, unlinkFails), {r[i].path});
  }

  /** The loop of `cleanup_old_backups`: unlink each listed backup created before `cutoff`, counting the successes. */
  method Sweep(fs: FileSystem, r: seq<BackupInfo>, cutoff: int, unlinkFails: Path -> bool) returns (count: nat)
    requires fs.Valid() && PathsDistinct(r)
    modifies fs`files
    ensures fs.Valid()
    ensures fs.files == old(fs.files) - ExpiredAmong(r, cutoff, unlinkFails)
    ensures count == |ExpiredAmong(r, cutoff, unlinkFails)|
  {
    ghost var files0 := fs.files;
    count := 0;
    var i := 0;
    while i < |r|
      invariant 0 <= i <= |r|
      invariant fs.files.Keys <= files0.Keys
      invariant Swept(files0, fs.files, r, i, cutoff, unlinkFails, count)
    {
      var b := r[i];
      SweepStep(files0, r, i, cutoff, unlinkFails, fs.files, count);
      if b.created < cutoff && !unlinkFails(b.path) {
        fs.files := fs.files - {b.path};
        count := count + 1;
      }
      i := i + 1;
    }
    assert r[..i] == r;
  }

  datatype Stats = Stats(totalBackups: nat, totalSize: nat, oldest: Option<int>, newest: Option<int>)

  function SumSizes(r: seq<BackupInfo>): nat
  {
    if r == [] then 0 else r[0].size + SumSizes(r[1..])
  }

  /** The size `stat()` reports for the backup file named `n`, in characters. */
  function SizeOf(dir: Path, files: map<Path, FileEntry>, n: string): nat
    requires dir + [n] in files
  {
    |files[dir + [n]].content|
  }

  /** The summed size of the named backup files, taken in no particular order. */
  ghost function TotalSize(dir: Path, files: map<Path, FileEntry>, names: set<string>): nat
    requires forall n :: n in names ==> dir + [n] in files
  {
    if names == {} then 0
    else var n :| n in names; SizeOf(dir, files, n) + TotalSize(dir, files, names - {n})
  }

  /** Any backup can be taken first: the total does not depend on the order of summation. */
  lemma {:induction false} TotalSizeRemove(dir: Path, files: map<Path, FileEntry>, names: set<string>, x: string)
    requires forall n :: n in names ==> dir + [n] in files
    requires x in names
    ensures TotalSize(dir, files, names) == SizeOf(dir, files, x) + TotalSize(dir, files, names - {x})
    decreases |names|
  {
    var y :| y in names && TotalSize(dir, files, names) == SizeOf(dir, files, y) + TotalSize(dir, files, names - {y});
    if y != x {
      TotalSizeRemove(dir, files, names - {y}, x);
      TotalSizeRemove(dir, files, names - {x}, y);
      assert names - {y} - {x} == names - {x} - {y};
    }
  }

  /** Summing the sizes of a list of entries with distinct names sums the sizes of those files. */
  lemma {:induction false} SumSizesIsTotal(dir: Path, files: map<Path, FileEntry>, r: seq<BackupInfo>)
    requires DistinctNames(r) && forall b :: b in r ==> IsEntry(dir, files, b)
    ensures forall n :: n in Names(r) ==> dir + [n] in files
    ensures SumSizes(r) == TotalSize(dir, files, Names(r))
  {
    forall n | n in Names(r) ensures dir + [n] in files {
      var k :| 0 <= k < |r| && r[k].name == n;
      assert r[k] in r;
    }
    if r == [] {
      assert Names(r) == {};
    } else {
      var t := r[1..];
      assert r == [r[0]] + t;
      NamesCons(r[0], t);
      DistinctTail(r);
      forall b | b in t ensures IsEntry(dir, files, b) {
        assert b in r;
      }
      SumSizesIsTotal(dir, files, t);
      assert Names(r) - {r[0].name} == Names(t);
      assert r[0] in r;
      TotalSizeRemove(dir, files, Names(r), r[0].name);
    }
  }

  function OldestCreated(r: seq<BackupInfo>): (m: int)
    requires r != []
    ensures forall i :: 0 <= i < |r| ==> m <= r[i].created
    ensures exists i :: 0 <= i < |r| && m == r[i].created
  {
    if |r| == 1 then r[0].created
    else
      var rest := OldestCreated(r[1..]);
      assert forall i :: 1 <= i < |r| ==> r[i] == r[1..][i - 1];
      if r[0].created <= rest then r[0].created else rest
  }

  function NewestCreated(r: seq<BackupInfo>): (m: int)
    requires r != []
    ensures forall i :: 0 <= i < |r| ==> m >= r[i].created
    ensures exists i :: 0 <= i < |r| && m == r[i].created
  {
    if |r| == 1 then r[0].created
    else
      var rest := NewestCreated(r[1..]);
      assert forall i :: 1 <= i < |r| ==> r[i] == r[1..][i - 1];
      if r[0].created >= rest then r[0].created else rest
  }

  /** `get_backup_stats` on a listing. */
  function BackupStats(r: seq<BackupInfo>): (s: Stats)
    ensures s.totalBackups == |r| && s.totalSize == SumSizes(r)
    ensures r == [] ==> s == Stats(0, 0, None, None)
    ensures r != [] ==> s.oldest.Some? && s.newest.Some? && s.oldest.value <= s.newest.value
    ensures s.oldest.Some? ==> forall i :: 0 <= i < |r| ==> s.oldest.value <= r[i].created
    ensures s.newest.Some? ==> forall i :: 0 <= i < |r| ==> r[i].created <= s.newest.value
  {
    if r == [] then Stats(0, 0, None, None)
    else Stats(|r|, SumSizes(r), Some(OldestCreated(r)), Some(NewestCreated(r)))
  }

  /** On a newest-first listing the oldest backup is the last entry and the newest the first. */
  lemma StatsOfListing(r: seq<BackupInfo>)
    requires NewestFirst(r) && r != []
    ensures BackupStats(r).oldest == Some(r[|r| - 1].created)
    ensures BackupStats(r).newest == Some(r[0].created)
  {
  }

  /** What the statistics of the backup directory say about the backups in it. */
  ghost predicate IsStatsOf(dir: Path, files: map<Path, FileEntry>, s: Stats)
  {
    var all := BackupNames(dir, files);
    s.totalBackups == |all|
    && s.totalSize == TotalSize(dir, files, all)
    && (s.totalBackups == 0) == s.oldest.None? == s.newest.None?
    && (s.oldest.Some? ==> exists n :: n in all && files[dir + [n]].ctime == s.oldest.value)
    && (s.newest.Some? ==> exists n :: n in all && files[dir + [n]].ctime == s.newest.value)
    && (s.oldest.Some? ==> forall n :: n in all ==> s.oldest.value <= files[dir + [n]].ctime)
    && (s.newest.Some? ==> forall n :: n in all ==> files[dir + [n]].ctime <= s.newest.value)
  }

  /** The statistics of the unfiltered listing describe every backup in the directory. */
  lemma StatsOfFullListing(dir: Path, files: map<Path, FileEntry>, r: seq<BackupInfo>)
    requires IsListing(dir, files, None, r)
    ensures IsStatsOf(dir, files, BackupStats(r))
  {
    var all := BackupNames(dir, files);
    assert Matching(dir, files, None) == all;
    ListingLength(dir, files, None, r);
    SumSizesIsTotal(dir, files, r);
    if r != [] {
      var s := BackupStats(r);
      StatsOfListing(r);
      var first, last := r[0], r[|r| - 1];
      assert first in r && last in r;
      assert first.name in Names(r) && last.name in Names(r);
      forall n | n in all
        ensures s.oldest.value <= files[dir + [n]].ctime <= s.newest.value
      {
        var k :| 0 <= k < |r| && r[k].name == n;
        assert r[k] in r;
      }
    }
  }

  // ---------------------------------------------------------------------------
  // The manager

  /** Where `restore_backup` copies to: the given target, or the original inferred from the name. */
  function RestoreTarget(backupPath: Path, target: Option<Path>): (t: Path)
    ensures target.Some? ==> t == target.value
  {
    if target.Some? then target.value else InferOriginalPath(Name(backupPath))
  }

  /** Restoring without a target puts a backup of a bare file name back at that name. */
  lemma RestoreTargetOfBackup(dir: Path, name: string, t: DateTime)
    requires ValidDateTime(t)
    requires name != "" && name != "."
    requires '_' !in Suffix(name)
    requires Suffix(name) != "" || LastIndexOf(name, '.') <= 0
    ensures RestoreTarget(dir + [BackupName(name, t)], None) == [name]
  {
    var b := BackupName(name, t);
    var p := dir + [b];
    assert p[|p| - 1] == b && b != "/";
    assert p != ["/"] by { assert ["/"][0] == "/"; }
    InferInvertsBackupName(name, t);
  }

  /**
    What `create_backup(filepath)` of a manager on `dir` with cap
    `maxBackups` returns and which files it leaves, given the listing its
    retention step saw: a missing file fails, a failed copy fails and
    changes nothing, and otherwise the copy is made under the timestamped
    name and the surplus of the file's listing is unlinked.
   */
  predicate BackupCreated(dir: Path, maxBackups: int, files: map<Path, FileEntry>, dirs: set<Path>, filepath: Path,
                          stamp: DateTime, now: int, unlinkFails: Path -> bool,
                          r: Result<Path, Error>, listing: seq<BackupInfo>, after: map<Path, FileEntry>)
    requires ValidDateTime(stamp)
  {
    if !(filepath in files || filepath in dirs) then
      r == Err(FileOperationError("backup", NotFound)) && after == files
    else
      var dst := dir + [BackupName(Name(filepath), stamp)];
      var copy := CopyDestination(files, dirs, filepath, dst);
      if copy.Err? then
        r == Err(FileOperationError("backup", copy.error)) && after == files
      else
        var copied := files[copy.value := FileEntry(files[filepath].content, now)];
        r == Ok(dst)
        && (maxBackups <= 0 ==> after == copied)
        && (maxBackups > 0 ==> IsListing(dir, copied, Some(filepath), listing)
                               && after == copied - Unlinked(Surplus(listing, maxBackups), unlinkFails))
  }

  class BackupManager {
    const backupDir: Path
    const maxBackups: int

    /** The manager's configuration; `NewBackupManager` creates the directory first. */
    constructor (backupDir: Path, maxBackups: int)
      ensures this.backupDir == backupDir && this.maxBackups == maxBackups
    {
      this.backupDir := backupDir;
      this.maxBackups := maxBackups;
    }

    /** `list_backups(filepath)`: the matching backups, newest first. */
    method ListBackups(fs: FileSystem, filter: Option<Path>) returns (r: seq<BackupInfo>)
      requires fs.Valid()
      ensures IsListing(backupDir, fs.files, filter, r)
    {
      var pending := BackupNames(backupDir, fs.files);
      var found: seq<BackupInfo> := [];
      while pending != {}
        invariant Collected(backupDir, fs.files, filter, pending, found)
        decreases |pending|
      {
        var n :| n in pending;
        var info := Describe(backupDir, fs.files, n);
        var keep := filter.None? || info.originalPath == filter.value;
        CollectStep(backupDir, fs.files, filter, pending, found, n);
        if keep {
          found := found + [info];
        }
        pending := pending - {n};
      }
      r := SortNewestFirst(found);
      SortedCollection(backupDir, fs.files, filter, found, r);
    }

    /** `get_latest_backup(filepath)`: the newest backup of the file, if any. */
    method GetLatestBackup(fs: FileSystem, filepath: Path) returns (r: Option<Path>)
      requires fs.Valid()
      ensures r.None? <==> Matching(backupDir, fs.files, Some(filepath)) == {}
      ensures r.Some? ==> exists n :: n in Matching(backupDir, fs.files, Some(filepath)) && r.value == backupDir + [n]
      ensures r.Some? ==> forall m :: m in Matching(backupDir, fs.files, Some(filepath))
                            ==> fs.files[backupDir + [m]].ctime <= fs.files[r.value].ctime
    {
      var backups := ListBackups(fs, Some(filepath));
      ListingLength(backupDir, fs.files, Some(filepath), backups);
      if backups == [] {
        r := None;
      } else {
        r := Some(backups[0].path);
        assert backups[0] in backups;
        assert backups[0].name in Names(backups);
        forall m | m in Matching(backupDir, fs.files, Some(filepath))
          ensures fs.files[backupDir + [m]].ctime <= fs.files[r.value].ctime
        {
          var k :| 0 <= k < |backups| && backups[k].name == m;
          assert backups[k] in backups;
        }
      }
    }

    /** `_cleanup_old_backups(filepath)`: keep the `maxBackups` newest backups of the file, unlink the rest. */
    method CleanupOverCap(fs: FileSystem, filepath: Path, unlinkFails: Path -> bool) returns (ghost listing: seq<BackupInfo>)
      requires fs.Valid()
      modifies fs`files
      ensures fs.Valid() && fs.dirs == old(fs.dirs)
      ensures maxBackups <= 0 ==> fs.files == old(fs.files)
      ensures maxBackups > 0 ==> IsListing(backupDir, old(fs.files), Some(filepath), listing)
      ensures maxBackups > 0 ==> fs.files == old(fs.files) - Unlinked(Surplus(listing, maxBackups), unlinkFails)
    {
      listing := [];
      if maxBackups <= 0 {
        return;
      }
      var backups := ListBackups(fs, Some(filepath));
      listing := backups;
      var doomed := Surplus(backups, maxBackups);
      var i := 0;
      while i < |doomed|
        invariant 0 <= i <= |doomed|
        invariant fs.Valid() && fs.dirs == old(fs.dirs)
        invariant fs.files == old(fs.files) - Unlinked(doomed[..i], unlinkFails)
      {
        var p := doomed[i].path;
        UnlinkedSnoc(doomed, i, unlinkFails);
        if !unlinkFails(p) {
          RemoveMore(old(fs.files), Unlinked(doomed[..i], unlinkFails), {p});
          fs.files := fs.files - {p};
        }
        i := i + 1;
      }
      assert doomed[..i] == doomed;
    }

    /** `create_backup(filepath)`: copy the file into the backup directory, then apply retention. */
    method CreateBackup(fs: FileSystem, filepath: Path, stamp: DateTime, now: int, unlinkFails: Path -> bool)
      returns (r: Result<Path, Error>, ghost listing: seq<BackupInfo>)
      requires fs.Valid() && ValidDateTime(stamp)
      modifies fs`files
      ensures fs.Valid() && fs.dirs == old(fs.dirs)
      ensures BackupCreated(backupDir, maxBackups, old(fs.files), old(fs.dirs), filepath, stamp, now, unlinkFails,
                            r, listing, fs.files)
    {
      listing := [];
      if !fs.Exists(filepath) {
        return Err(FileOperationError("backup", NotFound)), listing;
      }
      var dst := backupDir + [BackupName(Name(filepath), stamp)];
      var copy := CopyDestination(fs.files, fs.dirs, filepath, dst);
      if copy.Err? {
        return Err(FileOperationError("backup", copy.error)), listing;
      }
      fs.files := fs.files[copy.value := FileEntry(fs.files[filepath].content, now)];
      listing := CleanupOverCap(fs, filepath, unlinkFails);
      r := Ok(dst);
    }

    /** `restore_backup(backup_path, target_path)`: copy a backup back, creating the target's directories. */
    method RestoreBackup(fs: FileSystem, backupPath: Path, target: Option<Path>, now: int) returns (r: Outcome<Error>)
      requires fs.Valid()
      modifies fs
      ensures fs.Valid()
      ensures !old(fs.Exists(backupPath)) ==>
        r == Fail(FileOperationError("restore", NotFound)) && fs.files == old(fs.files) && fs.dirs == old(fs.dirs)
      ensures old(fs.Exists(backupPath)) ==>
        var t := RestoreTarget(backupPath, target);
        if BlockedByFile(old(fs.files), Parent(t)) then
          r == Fail(FileOperationError("restore", FileInTheWay)) && fs.files == old(fs.files) && fs.dirs == old(fs.dirs)
        else
          fs.dirs == old(fs.dirs) + Prefixes(Parent(t))
          && var copy := CopyDestination(old(fs.files), fs.dirs, backupPath, t);
          if copy.Err? then
            r == Fail(FileOperationError("restore", copy.error)) && fs.files == old(fs.files)
          else
            r == Pass && fs.files == old(fs.files)[copy.value := FileEntry(old(fs.files)[backupPath].content, now)]
      ensures target == Some(backupPath) && backupPath in old(fs.files) ==> r.Fail? && fs.files == old(fs.files)
    {
      if !fs.Exists(backupPath) {
        return Fail(FileOperationError("restore", NotFound));
      }
      var t := RestoreTarget(backupPath, target);
      var ok := MakeDirs(fs, Parent(t));
      if !ok {
        return Fail(FileOperationError("restore", FileInTheWay));
      }
      var copy := CopyDestination(fs.files, fs.dirs, backupPath, t);
      if copy.Err? {
        return Fail(FileOperationError("restore", copy.error));
      }
      fs.files := fs.files[copy.value := FileEntry(fs.files[backupPath].content, now)];
      r := Pass;
    }

    /** `cleanup_old_backups(filepath, days)`: unlink backups older than `days` days; returns how many went. */
    method CleanupOldBackups(fs: FileSystem, filter: Option<Path>, days: int, now: int, unlinkFails: Path -> bool)
      returns (count: nat)
      requires fs.Valid()
      modifies fs`files
      ensures fs.Valid() && fs.dirs == old(fs.dirs)
      ensures fs.files == old(fs.files) - Expired(backupDir, old(fs.files), filter, Cutoff(now, days), unlinkFails)
      ensures count == |Expired(backupDir, old(fs.files), filter, Cutoff(now, days), unlinkFails)|
    {
      var cutoff := Cutoff(now, days);
      var backups := ListBackups(fs, filter);
      ExpiredOfListing(backupDir, fs.files, filter, backups, cutoff, unlinkFails);
      ListingPathsDistinct(backupDir, fs.files, filter, backups);
      count := Sweep(fs, backups, cutoff, unlinkFails);
    }

    /** `get_backup_stats()`: count, total size and the oldest and newest creation times of all backups. */
    method GetBackupStats(fs: FileSystem) returns (s: Stats)
      requires fs.Valid()
      ensures IsStatsOf(backupDir, fs.files, s)
    {
      var backups := ListBackups(fs, None);
      s := BackupStats(backups);
      StatsOfFullListing(backupDir, fs.files, backups);
    }
  }

  /**
    `BackupManager(backup_dir, max_backups)`: `backup_dir.mkdir(exist_ok=True)`
    creates the directory alone, without its parents. A regular file at the
    path raises `FileExistsError`, a regular file among its ancestors
    `NotADirectoryError`, and a missing parent `FileNotFoundError`; none of
    them is caught.
   */
  method NewBackupManager(fs: FileSystem, backupDir: Path, maxBackups: int) returns (r: Result<BackupManager, Error>)
    requires fs.Valid()
    modifies fs`dirs
    ensures fs.Valid() && fs.files == old(fs.files)
    ensures backupDir in old(fs.files) ==> r == Err(OSError(FileInTheWay)) && fs.dirs == old(fs.dirs)
    ensures backupDir !in old(fs.files) && backupDir !in old(fs.dirs) && Parent(backupDir) !in old(fs.dirs) ==>
      r.Err? && fs.dirs == old(fs.dirs)
      && r.error == OSError(if BlockedByFile(old(fs.files), Parent(backupDir)) then FileInTheWay else NotFound)
    ensures r.Ok? <==> backupDir !in old(fs.files) && (backupDir in old(fs.dirs) || Parent(backupDir) in old(fs.dirs))
    ensures r.Ok? ==>
      fresh(r.value) && r.value.backupDir == backupDir && r.value.maxBackups == maxBackups
      && fs.dirs == old(fs.dirs) + {backupDir}
  {
    if backupDir in fs.files {
      return Err(OSError(FileInTheWay));
    }
    if backupDir !in fs.dirs {
      if Parent(backupDir) !in fs.dirs {
        return Err(OSError(if BlockedByFile(fs.files, Parent(backupDir)) then FileInTheWay else NotFound));
      }
      fs.dirs := fs.dirs + {backupDir};
    }
    var m := new BackupManager(backupDir, maxBackups);
    r := Ok(m);
  }
}
