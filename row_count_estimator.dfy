/**
 * The sampling row-count estimator of the CSV bulk decoding format
 * (`CsvBulkDecodingFormat.reportStatistics`).
 *
 * Every file's length is added to the total size. While fewer than 100 lines have
 * been sampled over all files so far, lines are read and each adds its UTF-8 byte
 * length plus one to the sampled size. If fewer than 100 lines were sampled, the
 * sampled size is replaced by the total size. The estimate is
 * `total * min(100, sampled lines) / sampled size`, or unknown when the sampled size
 * is zero or anything threw.
 *
 * A file is abstract: the outcome of asking its status (its length) and the outcome of
 * reading it (the byte lengths of its lines, and whether the reader throws instead of
 * reporting the end of the stream). Integers are unbounded.
 */
module RowCountEstimator {

  /** The number of lines sampled across all files (`totalSampleLineCnt`). */
  const SampleLineCap: nat := 100

  datatype StatResult = StatFailed | Stat(length: nat)

  /**
   * Reading a file: either opening it throws, or it yields its lines (each given by its
   * UTF-8 byte length, without the terminator) and then either the end of the stream or,
   * when `errorAtEnd` holds, an I/O error.
   */
  datatype ReadResult = OpenFailed | Readable(lines: seq<nat>, errorAtEnd: bool)

  datatype SourceFile = SourceFile(stat: StatResult, read: ReadResult)

  /** The statistics reported to the planner. */
  datatype TableStats = Unknown | Estimated(rowCount: int)

  /** One call of `readLine` on an open file after `j` lines. */
  datatype LineRead = Line(byteLength: nat) | EndOfStream | ReadError

  function ReadLine(lines: seq<nat>, errorAtEnd: bool, j: nat): (r: LineRead)
    requires j <= |lines|
    ensures r.Line? <==> j < |lines|
    ensures r.Line? ==> r.byteLength == lines[j]
    ensures r.ReadError? <==> j == |lines| && errorAtEnd
  {
    if j < |lines| then Line(lines[j]) else if errorAtEnd then ReadError else EndOfStream
  }

  function Min(a: int, b: int): int {
    if a <= b then a else b
  }

  // ---------------------------------------------------------------------------
  // The specification: closed forms over the whole file list.
  // ---------------------------------------------------------------------------

  /** The length a file contributes to the total size (irrelevant when its status failed). */
  function LengthOf(f: SourceFile): nat {
    if f.stat.Stat? then f.stat.length else 0
  }

  /** The lines a file would yield if read to the end. */
  function LinesOf(f: SourceFile): seq<nat> {
    if f.read.Readable? then f.read.lines else []
  }

  /** Sum of the lengths of all files. */
  function TotalLength(files: seq<SourceFile>): nat {
    if files == [] then 0 else TotalLength(files[..|files| - 1]) + LengthOf(files[|files| - 1])
  }

  /** All lines of all files, in file order. */
  function AllLines(files: seq<SourceFile>): seq<nat> {
    if files == [] then [] else AllLines(files[..|files| - 1]) + LinesOf(files[|files| - 1])
  }

  /** The sampled size of a run of lines: each line's byte length plus one for its terminator. */
  function SampleBytes(lines: seq<nat>): nat {
    if lines == [] then 0 else SampleBytes(lines[..|lines| - 1]) + lines[|lines| - 1] + 1
  }

  /** The sampled size of consecutive runs of lines adds up. */
  lemma {:induction false} SampleBytesAppend(a: seq<nat>, b: seq<nat>)
    ensures SampleBytes(a + b) == SampleBytes(a) + SampleBytes(b)
    decreases |b|
  {
    if b == [] {
      assert a + b == a;
    } else {
      var b' := b[..|b| - 1];
      assert (a + b)[..|a + b| - 1] == a + b';
      SampleBytesAppend(a, b');
    }
  }

  /** Plain sum of line lengths. */
  function Sum(lines: seq<nat>): nat {
    if lines == [] then 0 else lines[0] + Sum(lines[1..])
  }

  /**
   * Reading file `f` throws when `budget` more lines are wanted from it: opening it
   * fails, or it runs out of lines before the budget and then reports an error.
   */
  predicate ReadFails(f: SourceFile, budget: nat) {
    f.read.OpenFailed? || (f.read.errorAtEnd && |f.read.lines| < budget)
  }

  /**
   * Some operation on `files` throws: a status request, or the reading of a file that
   * is opened because fewer than `SampleLineCap` lines come before it.
   */
  predicate Fails(files: seq<SourceFile>) {
    if files == [] then false
    else
      var init, f := files[..|files| - 1], files[|files| - 1];
      || Fails(init)
      || f.stat.StatFailed?
      || (|AllLines(init)| < SampleLineCap && ReadFails(f, SampleLineCap - |AllLines(init)|))
  }

  /** The number of sampled lines: the first `SampleLineCap` lines over all files. */
  function SampledRowCount(files: seq<SourceFile>): nat {
    Min(SampleLineCap, |AllLines(files)|)
  }

  /** The sampled size of those lines. */
  function SampledRowSize(files: seq<SourceFile>): nat {
    SampleBytes(AllLines(files)[..SampledRowCount(files)])
  }

  /** Extrapolation of the sample to the whole size, with integer division. */
  function Extrapolate(total: nat, sampledLines: nat, sampledSize: nat): int
    requires sampledSize > 0
  {
    total * sampledLines / sampledSize
  }

  /** The estimate `reportStatistics` reports for `files`. */
  function Estimate(files: seq<SourceFile>): TableStats {
    if Fails(files) then Unknown
    else
      var cnt := SampledRowCount(files);
      var total := TotalLength(files);
      var size := if cnt < SampleLineCap then total else SampledRowSize(files);
      if size == 0 then Unknown else Estimated(Extrapolate(total, cnt, size))
  }

  // ---------------------------------------------------------------------------
  // The estimator itself.
  // ---------------------------------------------------------------------------

  /**
   * Reads lines from one opened file while fewer than `SampleLineCap` lines have been
   * sampled, starting from `cnt0` sampled lines of `size0` bytes (the inner loop and
   * its try-with-resources block). `threw` says that `readLine` threw.
   */
  method SampleOpenedFile(lines: seq<nat>, errorAtEnd: bool, cnt0: nat, size0: nat)
    returns (threw: bool, sampledRowCnt: nat, sampledRowSize: nat)
    requires cnt0 < SampleLineCap
    ensures threw <==> errorAtEnd && cnt0 + |lines| < SampleLineCap
    ensures !threw ==> sampledRowCnt == cnt0 + Min(SampleLineCap - cnt0, |lines|)
    ensures !threw ==> sampledRowSize == size0 + SampleBytes(lines[..sampledRowCnt - cnt0])
  {
    sampledRowCnt, sampledRowSize := cnt0, size0;
    var j := 0;
    var eof := false;
    while sampledRowCnt < SampleLineCap && !eof
      invariant j <= |lines|
      invariant sampledRowCnt == cnt0 + j <= SampleLineCap
      invariant sampledRowSize == size0 + SampleBytes(lines[..j])
      invariant eof ==> j == |lines| && !errorAtEnd
      decreases |lines| - j, !eof
    {
      match ReadLine(lines, errorAtEnd, j)
      case ReadError =>
        return true, sampledRowCnt, sampledRowSize;
      case EndOfStream =>
        eof := true;
      case Line(n) =>
        assert lines[..j + 1][..j] == lines[..j];
        sampledRowCnt := sampledRowCnt + 1;
        sampledRowSize := sampledRowSize + n + 1;
        j := j + 1;
    }
    threw := false;
  }

  /**
   * The sampling pass of the estimator (the `for` loop over the files): every file's
   * length is added to the total size, and files are opened and read while fewer than
   * `SampleLineCap` lines were sampled. `threw` says that a status request, an open or a
   * read threw, which ends the pass.
   */
  method SampleFiles(files: seq<SourceFile>)
    returns (threw: bool, totalFileSize: nat, sampledRowCnt: nat, sampledRowSize: nat)
    ensures threw <==> Fails(files)
    ensures !threw ==> totalFileSize == TotalLength(files)
    ensures !threw ==> sampledRowCnt == SampledRowCount(files) && sampledRowSize == SampledRowSize(files)
  {
    totalFileSize, sampledRowCnt, sampledRowSize := 0, 0, 0;
    for i := 0 to |files|
      invariant !Fails(files[..i])
      invariant totalFileSize == TotalLength(files[..i])
      invariant sampledRowCnt == SampledRowCount(files[..i])
      invariant sampledRowSize == SampledRowSize(files[..i])
    {
      var f := files[i];
      if f.stat.StatFailed? {
        FailureAt(files, i);
        return true, totalFileSize, sampledRowCnt, sampledRowSize;
      }
      totalFileSize := totalFileSize + f.stat.length;

      if sampledRowCnt < SampleLineCap {
        if f.read.OpenFailed? {
          FailureAt(files, i);
          return true, totalFileSize, sampledRowCnt, sampledRowSize;
        }
        threw, sampledRowCnt, sampledRowSize :=
          SampleOpenedFile(f.read.lines, f.read.errorAtEnd, sampledRowCnt, sampledRowSize);
        if threw {
          FailureAt(files, i);
          return;
        }
        SampleFileStep(files, i);
      } else {
        SampleFileAfterCap(files, i);
      }
      FileStepSucceeds(files, i);
    }
    assert files[..|files|] == files;
    threw := false;
  }

  /** Samples the files and extrapolates the row count; any exception gives Unknown. */
  method ReportStatistics(files: seq<SourceFile>) returns (stats: TableStats)
    ensures stats == Estimate(files)
  {
    var threw, totalFileSize, sampledRowCnt, sampledRowSize := SampleFiles(files);
    if threw {
      return Unknown;
    }
    // With "\r\n" line breaks the sampled size undercounts; a sample below the cap
    // therefore uses the total size instead.
    if sampledRowCnt < SampleLineCap {
      sampledRowSize := totalFileSize;
    }
    if sampledRowSize == 0 {
      return Unknown;
    }
    var realSampledLineCnt := Min(SampleLineCap, sampledRowCnt);
    stats := Estimated(Extrapolate(totalFileSize, realSampledLineCnt, sampledRowSize));
  }

  /** A file whose status request throws, or whose reading throws before the cap, makes the list fail. */
  lemma FailureAt(files: seq<SourceFile>, i: nat)
    requires i < |files|
    requires
      || files[i].stat.StatFailed?
      || (SampledRowCount(files[..i]) < SampleLineCap && ReadFails(files[i], SampleLineCap - SampledRowCount(files[..i])))
    ensures Fails(files)
  {
    PrefixStep(files, i);
    FailsExtends(files, i + 1);
  }

  /** A file that is read without an exception keeps the list failure-free and adds its length. */
  lemma FileStepSucceeds(files: seq<SourceFile>, i: nat)
    requires i < |files| && !Fails(files[..i]) && files[i].stat.Stat?
    requires SampledRowCount(files[..i]) < SampleLineCap ==>
      !ReadFails(files[i], SampleLineCap - SampledRowCount(files[..i]))
    ensures !Fails(files[..i + 1])
    ensures TotalLength(files[..i + 1]) == TotalLength(files[..i]) + files[i].stat.length
  {
    PrefixStep(files, i);
  }

  /** Sampling one more file below the cap: the sample grows by that file's first lines. */
  lemma SampleFileStep(files: seq<SourceFile>, i: nat)
    requires i < |files| && files[i].read.Readable?
    requires SampledRowCount(files[..i]) < SampleLineCap
    ensures var taken := Min(SampleLineCap - SampledRowCount(files[..i]), |files[i].read.lines|);
      && SampledRowCount(files[..i + 1]) == SampledRowCount(files[..i]) + taken
      && SampledRowSize(files[..i + 1]) == SampledRowSize(files[..i]) + SampleBytes(files[i].read.lines[..taken])
  {
    PrefixStep(files, i);
    SampleLinesStep(AllLines(files[..i]), files[i].read.lines);
  }

  /** The first `SampleLineCap` lines of `before + lines`, when `before` holds fewer. */
  lemma SampleLinesStep(before: seq<nat>, lines: seq<nat>)
    requires |before| < SampleLineCap
    ensures var taken := Min(SampleLineCap - |before|, |lines|);
      && Min(SampleLineCap, |before + lines|) == |before| + taken
      && SampleBytes((before + lines)[..|before| + taken])
         == SampleBytes(before[..Min(SampleLineCap, |before|)]) + SampleBytes(lines[..taken])
  {
    var taken := Min(SampleLineCap - |before|, |lines|);
    assert (before + lines)[..|before| + taken] == before + lines[..taken];
    assert before[..|before|] == before;
    SampleBytesAppend(before, lines[..taken]);
  }

  /** A file met after the cap is not opened and adds nothing to the sample. */
  lemma SampleFileAfterCap(files: seq<SourceFile>, i: nat)
    requires i < |files|
    requires SampledRowCount(files[..i]) >= SampleLineCap
    ensures SampledRowCount(files[..i + 1]) == SampleLineCap
    ensures SampledRowSize(files[..i + 1]) == SampledRowSize(files[..i])
  {
    PrefixStep(files, i);
    var before := AllLines(files[..i]);
    assert (before + LinesOf(files[i]))[..SampleLineCap] == before[..SampleLineCap];
  }

  // ---------------------------------------------------------------------------
  // Properties of the estimate.
  // ---------------------------------------------------------------------------

  /** How each closed form grows by one file. */
  lemma PrefixStep(files: seq<SourceFile>, i: nat)
    requires i < |files|
    ensures AllLines(files[..i + 1]) == AllLines(files[..i]) + LinesOf(files[i])
    ensures TotalLength(files[..i + 1]) == TotalLength(files[..i]) + LengthOf(files[i])
    ensures Fails(files[..i + 1]) <==>
      || Fails(files[..i])
      || files[i].stat.StatFailed?
      || (|AllLines(files[..i])| < SampleLineCap && ReadFails(files[i], SampleLineCap - |AllLines(files[..i])|))
  {
    assert files[..i + 1][..i] == files[..i];
  }

  /** An exception on a prefix of the file list is an exception on the whole list. */
  lemma {:induction false} FailsExtends(files: seq<SourceFile>, k: nat)
    requires k <= |files| && Fails(files[..k])
    ensures Fails(files)
    decreases |files| - k
  {
    if k == |files| {
      assert files[..k] == files;
    } else {
      assert files[..k + 1][..k] == files[..k];
      FailsExtends(files, k + 1);
    }
  }

  /** A file whose status cannot be read makes the estimate Unknown, wherever it is. */
  lemma StatFailureGivesUnknown(files: seq<SourceFile>, k: nat)
    requires k < |files| && files[k].stat.StatFailed?
    ensures Estimate(files) == Unknown
  {
    assert files[..k + 1][..k] == files[..k];
    FailsExtends(files, k + 1);
  }

  /** A file that is opened before the cap is reached and fails to open makes the estimate Unknown. */
  lemma OpenFailureBeforeCapGivesUnknown(files: seq<SourceFile>, k: nat)
    requires k < |files| && files[k].read.OpenFailed?
    requires |AllLines(files[..k])| < SampleLineCap
    ensures Estimate(files) == Unknown
  {
    assert files[..k + 1][..k] == files[..k];
    FailsExtends(files, k + 1);
  }

  /** The lines of a concatenation of file lists. */
  lemma {:induction false} AllLinesAppend(a: seq<SourceFile>, b: seq<SourceFile>)
    ensures AllLines(a + b) == AllLines(a) + AllLines(b)
    decreases |b|
  {
    if b != [] {
      var b' := b[..|b| - 1];
      assert (a + b)[..|a + b| - 1] == a + b';
      AllLinesAppend(a, b');
    } else {
      assert a + b == a;
    }
  }

  /** The total size of a concatenation of file lists. */
  lemma {:induction false} TotalLengthAppend(a: seq<SourceFile>, b: seq<SourceFile>)
    ensures TotalLength(a + b) == TotalLength(a) + TotalLength(b)
    decreases |b|
  {
    if b != [] {
      var b' := b[..|b| - 1];
      assert (a + b)[..|a + b| - 1] == a + b';
      TotalLengthAppend(a, b');
    } else {
      assert a + b == a;
    }
  }

  /** Two file lists whose status requests give the same outcomes, file by file. */
  predicate SameStats(a: seq<SourceFile>, b: seq<SourceFile>) {
    |a| == |b| && forall k :: 0 <= k < |a| ==> a[k].stat == b[k].stat
  }

  /** Some status request in `files` fails. */
  predicate AnyStatFailed(files: seq<SourceFile>) {
    exists k :: 0 <= k < |files| && files[k].stat.StatFailed?
  }

  /**
   * The total size counts every file, also those visited after the cap was reached:
   * it depends on the status outcomes only, never on what reading gives.
   */
  lemma {:induction false} TotalLengthIgnoresReads(a: seq<SourceFile>, b: seq<SourceFile>)
    requires SameStats(a, b)
    ensures TotalLength(a) == TotalLength(b)
    decreases |a|
  {
    if a != [] {
      TotalLengthIgnoresReads(a[..|a| - 1], b[..|b| - 1]);
    }
  }

  /** After the cap is reached, only status failures can still make the list fail. */
  lemma {:induction false} FailsAfterCap(pre: seq<SourceFile>, rest: seq<SourceFile>)
    requires |AllLines(pre)| >= SampleLineCap
    ensures Fails(pre + rest) <==> Fails(pre) || AnyStatFailed(rest)
    decreases |rest|
  {
    if rest == [] {
      assert pre + rest == pre;
    } else {
      var rest' := rest[..|rest| - 1];
      assert (pre + rest)[..|pre + rest| - 1] == pre + rest';
      FailsAfterCap(pre, rest');
      AllLinesAppend(pre, rest');
      if AnyStatFailed(rest) && !AnyStatFailed(rest') {
        assert rest[|rest| - 1].stat.StatFailed?;
      }
      if AnyStatFailed(rest') {
        var k :| 0 <= k < |rest'| && rest'[k].stat.StatFailed?;
        assert rest[k] == rest'[k];
      }
    }
  }

  /**
   * Once the first files hold `SampleLineCap` lines, no later file is opened and no later
   * line is read: whatever reading the later files would give, the estimate is the same.
   */
  lemma CapStopsReading(pre: seq<SourceFile>, rest: seq<SourceFile>, rest': seq<SourceFile>)
    requires |AllLines(pre)| >= SampleLineCap
    requires SameStats(rest, rest')
    ensures Estimate(pre + rest) == Estimate(pre + rest')
  {
    SampleAfterCap(pre, rest);
    SampleAfterCap(pre, rest');
    FailsAfterCap(pre, rest);
    FailsAfterCap(pre, rest');
    SameStatsSameFailures(rest, rest');
    TotalLengthAppend(pre, rest);
    TotalLengthAppend(pre, rest');
    TotalLengthIgnoresReads(rest, rest');
    EstimateCongruence(pre + rest, pre + rest');
  }

  /** Files appended after the cap leave the sample as it was. */
  lemma SampleAfterCap(pre: seq<SourceFile>, rest: seq<SourceFile>)
    requires |AllLines(pre)| >= SampleLineCap
    ensures SampledRowCount(pre + rest) == SampleLineCap
    ensures SampledRowSize(pre + rest) == SampledRowSize(pre)
  {
    AllLinesAppend(pre, rest);
    assert (AllLines(pre) + AllLines(rest))[..SampleLineCap] == AllLines(pre)[..SampleLineCap];
  }

  lemma SameStatsSameFailures(a: seq<SourceFile>, b: seq<SourceFile>)
    requires SameStats(a, b)
    ensures AnyStatFailed(a) <==> AnyStatFailed(b)
  {
    if AnyStatFailed(a) {
      var k :| 0 <= k < |a| && a[k].stat.StatFailed?;
      assert b[k].stat.StatFailed?;
    }
    if AnyStatFailed(b) {
      var k :| 0 <= k < |b| && b[k].stat.StatFailed?;
      assert a[k].stat.StatFailed?;
    }
  }

  /** The estimate depends on the file list only through failure, total size and sample. */
  lemma EstimateCongruence(a: seq<SourceFile>, b: seq<SourceFile>)
    requires Fails(a) == Fails(b) && TotalLength(a) == TotalLength(b)
    requires SampledRowCount(a) == SampledRowCount(b) && SampledRowSize(a) == SampledRowSize(b)
    ensures Estimate(a) == Estimate(b)
  {
  }

  /** At most `SampleLineCap` lines are sampled, and exactly that many when the files hold that many. */
  lemma SampleCountCapped(files: seq<SourceFile>)
    ensures SampledRowCount(files) <= SampleLineCap
    ensures SampledRowCount(files) == SampleLineCap <==> |AllLines(files)| >= SampleLineCap
    ensures SampledRowCount(files) < SampleLineCap ==> SampledRowCount(files) == |AllLines(files)|
  {
  }

  /** The sampled size is the sum of the lines' UTF-8 lengths plus one per line. */
  lemma {:induction false} SampleBytesIsSumPlusCount(lines: seq<nat>)
    ensures SampleBytes(lines) == Sum(lines) + |lines|
    decreases |lines|
  {
    if lines != [] {
      var init := lines[..|lines| - 1];
      SampleBytesIsSumPlusCount(init);
      SumSnoc(init, lines[|lines| - 1]);
      assert init + [lines[|lines| - 1]] == lines;
    }
  }

  lemma {:induction false} SumSnoc(s: seq<nat>, x: nat)
    ensures Sum(s + [x]) == Sum(s) + x
    decreases |s|
  {
    if s != [] {
      assert (s + [x])[1..] == s[1..] + [x];
      SumSnoc(s[1..], x);
    }
  }

  /** Every sampled line counts at least one byte (its terminator). */
  lemma {:induction false} SampleBytesAtLeastCount(lines: seq<nat>)
    ensures SampleBytes(lines) >= |lines|
    decreases |lines|
  {
    if lines != [] {
      SampleBytesAtLeastCount(lines[..|lines| - 1]);
    }
  }

  /** When the cap is hit the sampled size is at least `SampleLineCap`, so never zero. */
  lemma CapHitSizePositive(files: seq<SourceFile>)
    requires |AllLines(files)| >= SampleLineCap
    ensures SampledRowSize(files) >= SampleLineCap
  {
    SampleBytesAtLeastCount(AllLines(files)[..SampleLineCap]);
  }

  /**
   * A reported estimate is never negative, and when the cap was hit it is at most the
   * total size (each sampled row is at least one byte).
   */
  lemma EstimateBounds(files: seq<SourceFile>)
    requires Estimate(files).Estimated?
    ensures Estimate(files).rowCount >= 0
    ensures |AllLines(files)| >= SampleLineCap ==> Estimate(files).rowCount <= TotalLength(files)
  {
    var cnt, total := SampledRowCount(files), TotalLength(files);
    var size := if cnt < SampleLineCap then total else SampledRowSize(files);
    assert Estimate(files).rowCount == Extrapolate(total, cnt, size);
    if |AllLines(files)| >= SampleLineCap {
      CapHitSizePositive(files);
    }
    ExtrapolateBounds(total, cnt, size);
  }

  /** The extrapolation is non-negative, and at most the total when no more lines than bytes were sampled. */
  lemma ExtrapolateBounds(total: nat, cnt: nat, size: nat)
    requires size > 0
    ensures Extrapolate(total, cnt, size) >= 0
    ensures cnt <= size ==> Extrapolate(total, cnt, size) <= total
  {
    MulMonotone(total, 0, cnt);
    if cnt <= size {
      MulMonotone(total, cnt, size);
      DivBound(total * cnt, size, total);
    }
  }

  lemma DivBound(a: nat, d: nat, q: nat)
    requires d > 0 && a <= q * d
    ensures a / d <= q
  {
    var p, r := a / d, a % d;
    assert a == d * p + r && 0 <= r < d;
    if p > q {
      MulMonotone(d, q + 1, p);
      assert false;
    }
  }

  /**
   * When the files hold fewer than `SampleLineCap` lines and some bytes, the sampled size
   * is replaced by the total size, so the estimate is exactly the number of lines read.
   */
  lemma SmallSampleIsExact(files: seq<SourceFile>)
    requires !Fails(files)
    requires |AllLines(files)| < SampleLineCap
    requires TotalLength(files) > 0
    ensures Estimate(files) == Estimated(|AllLines(files)|)
  {
    var total, cnt := TotalLength(files), |AllLines(files)|;
    assert SampledRowCount(files) == cnt;
    MulDivCancel(total, cnt);
  }

  lemma MulDivCancel(t: nat, c: nat)
    requires t > 0
    ensures t * c / t == c
  {
    var q, r := t * c / t, t * c % t;
    assert t * c == t * q + r && 0 <= r < t;
    if q < c {
      MulMonotone(t, q + 1, c);
      assert false;
    } else if q > c {
      MulMonotone(t, c + 1, q);
      assert false;
    }
  }

  lemma MulMonotone(t: nat, a: int, b: int)
    requires a <= b
    ensures t * a <= t * b
  {
    var d: nat := b - a;
    assert t * b == t * a + t * d;
  }

  /** One file of 40 lines of 8 bytes (9 with the terminator), 360 bytes in all: 40 rows. */
  lemma FortyLineFileEstimate()
    ensures Estimate([SourceFile(Stat(360), Readable(seq(40, _ => 8), false))]) == Estimated(40)
  {
    var files := [SourceFile(Stat(360), Readable(seq(40, _ => 8), false))];
    assert files[..0] == [];
    SmallSampleIsExact(files);
  }

  /**
   * Three files of 40 lines of 8 bytes each: sampling stops after 20 lines of the third
   * file, at exactly `SampleLineCap` lines, and the 1080 bytes extrapolate to 120 rows.
   */
  lemma ThreeFilesStopAtCap(f: SourceFile)
    requires f.stat == Stat(360) && f.read.Readable? && !f.read.errorAtEnd
    requires |f.read.lines| == 40 && forall k :: 0 <= k < 40 ==> f.read.lines[k] == 8
    ensures SampledRowCount([f, f, f]) == SampleLineCap
    ensures Estimate([f, f, f]) == Estimated(120)
  {
    var files, lines := [f, f, f], f.read.lines;
    ThreeFilesClosedForms(f);
    var sample := (lines + lines + lines)[..SampleLineCap];
    assert forall k :: 0 <= k < |sample| ==> sample[k] == 8;
    SampleBytesUniform(sample, 8);
    assert SampledRowSize(files) == 900;
  }

  lemma ThreeFilesClosedForms(f: SourceFile)
    requires f.stat == Stat(360) && f.read.Readable? && !f.read.errorAtEnd && |f.read.lines| == 40
    ensures !Fails([f, f, f])
    ensures AllLines([f, f, f]) == f.read.lines + f.read.lines + f.read.lines
    ensures TotalLength([f, f, f]) == 1080
  {
    var files := [f, f, f];
    assert files[..0] == [] && files[..1] == [f] && files[..2] == [f, f] && files[..3] == files;
    PrefixStep(files, 0);
    PrefixStep(files, 1);
    PrefixStep(files, 2);
  }

  /** Lines all of the same length `x` sample `x + 1` bytes each. */
  lemma {:induction false} SampleBytesUniform(lines: seq<nat>, x: nat)
    requires forall k :: 0 <= k < |lines| ==> lines[k] == x
    ensures SampleBytes(lines) == |lines| * (x + 1)
    decreases |lines|
  {
    if lines != [] {
      SampleBytesUniform(lines[..|lines| - 1], x);
    }
  }

  /** No files at all: the sampled size is zero and the estimate Unknown, not a division by zero. */
  lemma NoFilesGivesUnknown()
    ensures Estimate([]) == Unknown
  {
  }

  /** Only empty files: the estimate is Unknown, not a division by zero and not zero rows. */
  lemma {:induction false} EmptyFilesGiveUnknown(files: seq<SourceFile>)
    requires forall k :: 0 <= k < |files| ==> files[k].stat == Stat(0)
    requires forall k :: 0 <= k < |files| && files[k].read.Readable? ==> files[k].read.lines == []
    ensures Estimate(files) == Unknown
  {
    EmptyFilesHaveNothing(files);
  }

  lemma {:induction false} EmptyFilesHaveNothing(files: seq<SourceFile>)
    requires forall k :: 0 <= k < |files| ==> files[k].stat == Stat(0)
    requires forall k :: 0 <= k < |files| && files[k].read.Readable? ==> files[k].read.lines == []
    ensures TotalLength(files) == 0 && AllLines(files) == []
    decreases |files|
  {
    if files != [] {
      EmptyFilesHaveNothing(files[..|files| - 1]);
    }
  }
}
