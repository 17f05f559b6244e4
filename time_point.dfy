/** TimePoint: one sample of the line-count history (a timestamp, the code and
    total line counts, and a text: the date of a generic sample or the commit
    message of a commit sample), its chart accessors and its tooltip text. */
module TimePoints {
  import opened JavaString

  const MILLISEC_PER_DAY: int := 86400000

  /** LineChartPanel.TimePointMode: which history a sample belongs to. */
  datatype TimePointMode = COMMIT | GENERIC

  /** LineChartPanel.LineCountMode: which count the chart shows. */
  datatype LineCountMode = TOTAL_LINES | CODE_LINES

  /** A sample; the four-argument constructor stores its arguments unchanged,
      which is what the datatype constructor does. */
  datatype TimePoint = TimePoint(timestamp: int, linesCode: int, totalLines: int, text: string)
  {
    /** getX */
    function X(): int
    {
      timestamp
    }

    /** getY, with the chart's line mode as a parameter. */
    function Y(mode: LineCountMode): int
    {
      if mode == CODE_LINES then linesCode else totalLines
    }

    /** toString, with the chart's line mode as a parameter: the text, the
        caption of the shown count and the count in decimal. */
    function ToString(mode: LineCountMode): (r: string)
      ensures r == text + Caption(mode) + IntToString(Y(mode))
    {
      if mode == TOTAL_LINES then text + "| Total Lines:" + IntToString(totalLines)
      else text + "| Code Lines:" + IntToString(linesCode)
    }
  }

  /** The caption toString puts between the text and the count. */
  function Caption(mode: LineCountMode): string
  {
    if mode == TOTAL_LINES then "| Total Lines:" else "| Code Lines:"
  }

  /** The tooltip shows the very count the chart plots: it starts with the
      sample's text, and what follows the text and the caption reads back as Y. */
  lemma ToStringShowsY(p: TimePoint, mode: LineCountMode)
    ensures var shown := p.ToString(mode);
      var start := |p.text| + |Caption(mode)|;
      && start <= |shown|
      && shown[..|p.text|] == p.text
      && DecimalValue(shown[start..]) == p.Y(mode)
  {
    var shown := p.ToString(mode);
    var start := |p.text| + |Caption(mode)|;
    assert shown[start..] == IntToString(p.Y(mode));
    IntToStringRoundTrip(p.Y(mode));
  }

  /** For two samples with the same text, the tooltips are equal exactly when
      the plotted counts are. */
  lemma ToStringDistinguishesY(p: TimePoint, q: TimePoint, mode: LineCountMode)
    requires p.text == q.text
    ensures p.ToString(mode) == q.ToString(mode) <==> p.Y(mode) == q.Y(mode)
  {
    if p.ToString(mode) == q.ToString(mode) {
      ToStringShowsY(p, mode);
      ToStringShowsY(q, mode);
    }
  }

  /** TimePoint.generateMockTimePoints(numPoints). The clock readings the loop
      takes (one per point), the draws of rand.nextInt(450) and
      rand.nextInt(900), and the formatting of a timestamp as a local date are
      parameters. */
  method GenerateMockTimePoints(numPoints: int, clock: seq<int>, codeDraws: seq<int>, totalDraws: seq<int>,
                                dateOf: int -> string)
      returns (mockPoints: seq<TimePoint>)
    requires numPoints <= |clock| && numPoints <= |codeDraws| && numPoints <= |totalDraws|
    requires forall i :: 0 <= i < |codeDraws| ==> 0 <= codeDraws[i] < 450
    requires forall i :: 0 <= i < |totalDraws| ==> 0 <= totalDraws[i] < 900
    ensures numPoints <= 0 ==> mockPoints == []
    ensures numPoints > 0 ==> |mockPoints| == numPoints
    ensures forall i :: 0 <= i < |mockPoints| ==>
      && mockPoints[i].timestamp == clock[i] - i * MILLISEC_PER_DAY
      && mockPoints[i].linesCode == 50 + codeDraws[i]
      && mockPoints[i].totalLines == 100 + totalDraws[i]
      && mockPoints[i].text == dateOf(mockPoints[i].timestamp)
    ensures MockRanges(mockPoints)
  {
    mockPoints := [];
    var i := 0;
    while i < numPoints
      invariant 0 <= i && (numPoints > 0 ==> i <= numPoints) && |mockPoints| == i
      invariant numPoints <= 0 ==> i == 0
      invariant forall k :: 0 <= k < i ==>
        && mockPoints[k].timestamp == clock[k] - k * MILLISEC_PER_DAY
        && mockPoints[k].linesCode == 50 + codeDraws[k]
        && mockPoints[k].totalLines == 100 + totalDraws[k]
        && mockPoints[k].text == dateOf(mockPoints[k].timestamp)
      invariant MockRanges(mockPoints)
    {
      var randomMillisOffset := i * MILLISEC_PER_DAY;
      var timestamp := clock[i] - randomMillisOffset;
      var linesCode := 50 + codeDraws[i];
      var totalLines := 100 + totalDraws[i];
      mockPoints := mockPoints + [TimePoint(timestamp, linesCode, totalLines, dateOf(timestamp))];
      i := i + 1;
    }
  }

  /** Every mock sample has between 50 and 499 code lines and between 100
      and 999 lines in total. */
  predicate MockRanges(points: seq<TimePoint>)
  {
    forall i :: 0 <= i < |points| ==>
      50 <= points[i].linesCode <= 499 && 100 <= points[i].totalLines <= 999
  }

  /** The mock samples go back one day per point: as long as the clock moves
      forward by less than a day between two readings, each timestamp is
      strictly earlier than the one before it. */
  lemma MockTimestampsDecrease(points: seq<TimePoint>, clock: seq<int>)
    requires |points| <= |clock|
    requires forall i :: 0 <= i < |points| ==> points[i].timestamp == clock[i] - i * MILLISEC_PER_DAY
    requires forall i :: 0 <= i < |clock| - 1 ==> clock[i + 1] - clock[i] < MILLISEC_PER_DAY
    ensures forall i, j :: 0 <= i < j < |points| ==> points[j].timestamp < points[i].timestamp
  {
    forall i, j | 0 <= i < j < |points|
      ensures points[j].timestamp < points[i].timestamp
    {
      ClockDrift(clock, i, j);
    }
  }

  lemma {:induction false} ClockDrift(clock: seq<int>, i: int, j: int)
    requires 0 <= i < j < |clock|
    requires forall k :: 0 <= k < |clock| - 1 ==> clock[k + 1] - clock[k] < MILLISEC_PER_DAY
    ensures clock[j] - clock[i] < (j - i) * MILLISEC_PER_DAY
    decreases j - i
  {
    if j > i + 1 {
      ClockDrift(clock, i, j - 1);
    }
  }
}
