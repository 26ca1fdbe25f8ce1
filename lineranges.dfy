/**
  The line ranges `read_file_lines` and `update_file_section` take: a
  1-based start line and an optional 1-based, inclusive end line, turned
  into Python slice bounds.
 */
module LineRanges {
  import opened Wrappers

  /** `start_idx = max(0, start_line - 1)` */
  function StartIndex(startLine: int): nat
  {
    if startLine - 1 > 0 then startLine - 1 else 0
  }

  /** `end_idx = min(len(lines), end_line) if end_line else len(lines)`: 0, like a missing end, means "to the end". */
  function EndIndex(endLine: Option<int>, count: nat): int
  {
    if endLine.None? || endLine.value == 0 then count
    else if endLine.value < count then endLine.value else count
  }

  /** Where a slice bound `i` of Python's `xs[i:]` or `xs[:i]` lands in a list of `count` items. */
  function SliceIndex(i: int, count: nat): (k: nat)
    ensures k <= count
    ensures 0 <= i <= count ==> k == i
    ensures i < 0 && count + i >= 0 ==> k == count + i
  {
    if i < 0 then (if count + i < 0 then 0 else count + i) else if i > count then count else i
  }

  /** `lines[start_idx:end_idx]` */
  function LineRange(lines: seq<string>, startLine: int, endLine: Option<int>): (r: seq<string>)
    ensures var a := SliceIndex(StartIndex(startLine), |lines|);
      a + |r| <= |lines| && forall i :: 0 <= i < |r| ==> r[i] == lines[a + i]
    ensures endLine.None? ==> r == lines[SliceIndex(StartIndex(startLine), |lines|)..]
  {
    var a := SliceIndex(StartIndex(startLine), |lines|);
    var b := SliceIndex(EndIndex(endLine, |lines|), |lines|);
    if a <= b then lines[a..b] else []
  }

  /**
    Within the file, the range runs from line `startLine` to line
    `endLine`, both included; an end before the start gives no lines.
   */
  lemma LineRangeInclusive(lines: seq<string>, startLine: int, endLine: int)
    requires 1 <= startLine && 1 <= endLine <= |lines|
    ensures var r := LineRange(lines, startLine, Some(endLine));
      (startLine <= endLine ==> r == lines[startLine - 1..endLine] && |r| == endLine - startLine + 1)
      && (startLine > endLine ==> r == [])
  {
  }

  /** From the first line with no end line, or to an end past the last line, the range is the whole file. */
  lemma LineRangeWhole(lines: seq<string>, startLine: int, endLine: Option<int>)
    requires startLine <= 1
    requires endLine.None? || endLine.value >= |lines| || endLine.value == 0
    ensures LineRange(lines, startLine, endLine) == lines
  {
  }
}
