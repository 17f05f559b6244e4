/** OverViewEntry: the running per-extension aggregate of the overview table
    (file count, size sum/min/max, line sum/min/max, code-line sum). */
module OverView {

  /** Integer.MAX_VALUE, the sentinel both minimum fields start from. */
  const INT_MAX: int := 2147483647

  /** The fields of an OverViewEntry, as a value. */
  datatype EntryStats = EntryStats(
    count: int,
    sizeMin: int,
    sizeSum: int,
    sizeMax: int,
    lines: int,
    linesMin: int,
    linesMax: int,
    linesCode: int)

  /** The field values of a newly created entry. */
  function FreshStats(): EntryStats
  {
    EntryStats(0, INT_MAX, 0, 0, 0, INT_MAX, 0, 0)
  }

  function Min(a: int, b: int): int { if b < a then b else a }

  function Max(a: int, b: int): int { if b > a then b else a }

  /** The effect of addValues(size, totalLines, sourceCodeLines) on the fields. */
  function Added(e: EntryStats, size: int, totalLines: int, sourceCodeLines: int): (r: EntryStats)
    ensures r.count == e.count + 1
    ensures r.sizeSum == e.sizeSum + size && r.lines == e.lines + totalLines
    ensures r.linesCode == e.linesCode + sourceCodeLines
    ensures r.sizeMin <= size <= r.sizeMax && r.linesMin <= totalLines <= r.linesMax
    ensures r.sizeMin <= e.sizeMin && r.sizeMax >= e.sizeMax
    ensures r.linesMin <= e.linesMin && r.linesMax >= e.linesMax
    ensures r.sizeMin in {e.sizeMin, size} && r.sizeMax in {e.sizeMax, size}
    ensures r.linesMin in {e.linesMin, totalLines} && r.linesMax in {e.linesMax, totalLines}
  {
    EntryStats(
      e.count + 1,
      Min(e.sizeMin, size), e.sizeSum + size, Max(e.sizeMax, size),
      e.lines + totalLines, Min(e.linesMin, totalLines), Max(e.linesMax, totalLines),
      e.linesCode + sourceCodeLines)
  }

  /** One file's contribution: its size, its total lines and its code lines. */
  datatype Sample = Sample(size: int, totalLines: int, codeLines: int)

  /** The entry after adding the samples one after another. */
  function AddAll(e: EntryStats, samples: seq<Sample>): EntryStats
    decreases |samples|
  {
    if |samples| == 0 then e
    else
      var last := samples[|samples| - 1];
      Added(AddAll(e, samples[..|samples| - 1]), last.size, last.totalLines, last.codeLines)
  }

  function SumSizes(samples: seq<Sample>): int
    decreases |samples|
  {
    if |samples| == 0 then 0 else SumSizes(samples[..|samples| - 1]) + samples[|samples| - 1].size
  }

  function SumLines(samples: seq<Sample>): int
    decreases |samples|
  {
    if |samples| == 0 then 0 else SumLines(samples[..|samples| - 1]) + samples[|samples| - 1].totalLines
  }

  function SumCode(samples: seq<Sample>): int
    decreases |samples|
  {
    if |samples| == 0 then 0 else SumCode(samples[..|samples| - 1]) + samples[|samples| - 1].codeLines
  }

  /** What an entry built from scratch holds after any run of addValues
      calls: the count of calls and the three sums. */
  lemma {:induction false} AddAllSums(samples: seq<Sample>)
    ensures var r := AddAll(FreshStats(), samples);
      && r.count == |samples|
      && r.sizeSum == SumSizes(samples) && r.lines == SumLines(samples) && r.linesCode == SumCode(samples)
    decreases |samples|
  {
    if |samples| > 0 {
      AddAllSums(samples[..|samples| - 1]);
    }
  }

  /** The minimum and maximum fields bound every sample, and stay on their
      side of the Integer.MAX_VALUE and 0 sentinels. */
  lemma {:induction false} AddAllBounds(samples: seq<Sample>)
    ensures var r := AddAll(FreshStats(), samples);
      && (forall i :: 0 <= i < |samples| ==> r.sizeMin <= samples[i].size <= r.sizeMax)
      && (forall i :: 0 <= i < |samples| ==> r.linesMin <= samples[i].totalLines <= r.linesMax)
      && r.sizeMin <= INT_MAX && r.linesMin <= INT_MAX && r.sizeMax >= 0 && r.linesMax >= 0
    decreases |samples|
  {
    if |samples| > 0 {
      var init := samples[..|samples| - 1];
      AddAllBounds(init);
      assert forall i :: 0 <= i < |init| ==> samples[i] == init[i];
    }
  }

  /** Each minimum is a sample's value unless it is still the
      Integer.MAX_VALUE sentinel, each maximum unless it is still 0. */
  lemma {:induction false} AddAllAttained(samples: seq<Sample>)
    ensures var r := AddAll(FreshStats(), samples);
      && (r.sizeMin == INT_MAX || exists i :: 0 <= i < |samples| && samples[i].size == r.sizeMin)
      && (r.sizeMax == 0 || exists i :: 0 <= i < |samples| && samples[i].size == r.sizeMax)
      && (r.linesMin == INT_MAX || exists i :: 0 <= i < |samples| && samples[i].totalLines == r.linesMin)
      && (r.linesMax == 0 || exists i :: 0 <= i < |samples| && samples[i].totalLines == r.linesMax)
    decreases |samples|
  {
    if |samples| > 0 {
      var n := |samples|;
      var init := samples[..n - 1];
      AddAllAttained(init);
      var p := AddAll(FreshStats(), init);
      var r := AddAll(FreshStats(), samples);
      if r.sizeMin != INT_MAX && r.sizeMin != samples[n - 1].size {
        var i :| 0 <= i < |init| && init[i].size == p.sizeMin;
        assert samples[i] == init[i];
      }
      if r.sizeMax != 0 && r.sizeMax != samples[n - 1].size {
        var i :| 0 <= i < |init| && init[i].size == p.sizeMax;
        assert samples[i] == init[i];
      }
      if r.linesMin != INT_MAX && r.linesMin != samples[n - 1].totalLines {
        var i :| 0 <= i < |init| && init[i].totalLines == p.linesMin;
        assert samples[i] == init[i];
      }
      if r.linesMax != 0 && r.linesMax != samples[n - 1].totalLines {
        var i :| 0 <= i < |init| && init[i].totalLines == p.linesMax;
        assert samples[i] == init[i];
      }
    }
  }

  /** Sum bounds: count * min <= sum <= count * max, for sizes and for lines. */
  lemma {:induction false} SumBetweenExtremes(samples: seq<Sample>)
    ensures var r := AddAll(FreshStats(), samples);
      && r.count * r.sizeMin <= r.sizeSum <= r.count * r.sizeMax
      && r.count * r.linesMin <= r.lines <= r.count * r.linesMax
  {
    AddAllSums(samples);
    AddAllBounds(samples);
    var r := AddAll(FreshStats(), samples);
    SizeSumBounds(samples, r.sizeMin, r.sizeMax);
    LineSumBounds(samples, r.linesMin, r.linesMax);
  }

  lemma {:induction false} SizeSumBounds(samples: seq<Sample>, lo: int, hi: int)
    requires forall i :: 0 <= i < |samples| ==> lo <= samples[i].size <= hi
    ensures |samples| * lo <= SumSizes(samples) <= |samples| * hi
    decreases |samples|
  {
    if |samples| > 0 {
      var n := |samples|;
      var init := samples[..n - 1];
      assert forall i :: 0 <= i < |init| ==> init[i] == samples[i];
      SizeSumBounds(init, lo, hi);
      assert n * lo == (n - 1) * lo + lo && n * hi == (n - 1) * hi + hi;
    }
  }

  lemma {:induction false} LineSumBounds(samples: seq<Sample>, lo: int, hi: int)
    requires forall i :: 0 <= i < |samples| ==> lo <= samples[i].totalLines <= hi
    ensures |samples| * lo <= SumLines(samples) <= |samples| * hi
    decreases |samples|
  {
    if |samples| > 0 {
      var n := |samples|;
      var init := samples[..n - 1];
      assert forall i :: 0 <= i < |init| ==> init[i] == samples[i];
      LineSumBounds(init, lo, hi);
      assert n * lo == (n - 1) * lo + lo && n * hi == (n - 1) * hi + hi;
    }
  }

  /** The integer averages shown in the overview (sizeSum / count and
      lines / count) lie between the matching minimum and maximum. Sizes and
      line counts are never negative, so Java's truncating division agrees
      with Dafny's here. */
  lemma AveragesWithinExtremes(samples: seq<Sample>)
    requires |samples| >= 1
    requires forall i :: 0 <= i < |samples| ==> samples[i].size >= 0 && samples[i].totalLines >= 0
    ensures AddAll(FreshStats(), samples).count == |samples|
    ensures var r := AddAll(FreshStats(), samples);
      && r.sizeMin <= r.sizeSum / r.count <= r.sizeMax
      && r.linesMin <= r.lines / r.count <= r.linesMax
  {
    SumBetweenExtremes(samples);
    AddAllSums(samples);
    var r := AddAll(FreshStats(), samples);
    DivBetween(r.count, r.sizeMin, r.sizeSum, r.sizeMax);
    DivBetween(r.count, r.linesMin, r.lines, r.linesMax);
  }

  lemma DivBetween(n: int, lo: int, sum: int, hi: int)
    requires n >= 1 && n * lo <= sum <= n * hi
    ensures lo <= sum / n <= hi
  {
    var q := sum / n;
    assert sum == n * q + sum % n && 0 <= sum % n < n;
    assert n * (q + 1) == n * q + n && n * (hi + 1) == n * hi + n;
    LessOfProducts(n, lo, q + 1);
    LessOfProducts(n, q, hi + 1);
  }

  /** Multiplying by a positive n preserves strict order in reverse. */
  lemma LessOfProducts(n: int, a: int, b: int)
    requires n >= 1
    ensures n * a < n * b ==> a < b
  {
    if b <= a {
      MulMono(n, b, a);
    }
  }

  lemma MulMono(n: int, a: int, b: int)
    requires n >= 0 && a <= b
    ensures n * a <= n * b
  {
  }

  /** A first add of a size that fits in an int sets both size extremes to it;
      likewise for the line count. */
  lemma FirstAdd(size: int, totalLines: int, sourceCodeLines: int)
    requires 0 <= size <= INT_MAX && 0 <= totalLines <= INT_MAX
    ensures var r := Added(FreshStats(), size, totalLines, sourceCodeLines);
      r.count == 1 && r.sizeMin == r.sizeMax == size && r.linesMin == r.linesMax == totalLines
  {
  }

  /** The long sizeMin starts from the int sentinel, so a file larger than
      Integer.MAX_VALUE bytes never becomes the minimum of a fresh entry. */
  lemma OversizedFileKeepsSentinel(size: int)
    requires size > INT_MAX
    ensures Added(FreshStats(), size, 1, 1).sizeMin == INT_MAX < size
  {
  }

  /** The overview entry object, updated in place as files are parsed. */
  class OverViewEntry {
    var count: int
    var sizeMin: int
    var sizeSum: int
    var sizeMax: int
    var lines: int
    var linesMin: int
    var linesMax: int
    var linesCode: int

    /** The fields, read as one value. */
    function Stats(): EntryStats
      reads this
    {
      EntryStats(count, sizeMin, sizeSum, sizeMax, lines, linesMin, linesMax, linesCode)
    }

    constructor ()
      ensures Stats() == FreshStats()
    {
      count := 0;
      sizeMin := INT_MAX;
      sizeSum := 0;
      sizeMax := 0;
      lines := 0;
      linesMin := INT_MAX;
      linesMax := 0;
      linesCode := 0;
    }

    /** OverViewEntry.addValues */
    method AddValues(size: int, totalLines: int, sourceCodeLines: int)
      modifies this
      ensures Stats() == Added(old(Stats()), size, totalLines, sourceCodeLines)
    {
      count := count + 1;

      sizeSum := sizeSum + size;
      if size < sizeMin {
        sizeMin := size;
      }
      if size > sizeMax {
        sizeMax := size;
      }

      lines := lines + totalLines;
      if totalLines < linesMin {
        linesMin := totalLines;
      }
      if totalLines > linesMax {
        linesMax := totalLines;
      }
      linesCode := linesCode + sourceCodeLines;
    }
  }
}
