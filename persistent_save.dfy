/** PersistentSave: the project's saved settings and the two time-point
    histories (one sample per commit, one generic sample per half day). The
    clock reading and the hour of day a timestamp falls in, which the source
    takes from ZonedDateTime and Calendar, are parameters. */
module Persistence {
  import opened TimePoints

  const MAX_SAVED_TIMEPOINTS: int := 200

  /** The file types excluded by default. */
  const DEFAULT_EXCLUDED_FILE_TYPES: string := "wav;ttf;sql;tmp;dmp;ico;dat;svg;class;svn-base;svn-work;Extra;gif;png;jpg;mp3;jpeg;bmp;tga;tiff;ear;war;zip;jar;iml;iws;ipr;bz2;gz;pyc;rar"

  /** The file types that get a tab of their own by default. */
  const DEFAULT_SEPARATE_TABS_TYPES: string := "java;cpp;c;hpp;h;rs;css;html;js;php;py;cs;go;rb;swift;ts;kt;sql;pl;lua;groovy;asp;aspx;jsp;json;scss;less;sass;sh;bat;ps1;md;f;r;m;asm;ada;scala;dart;jsx;julia"

  /** StandardCharsets.UTF_8.toString() */
  const UTF_8: string := "UTF-8"

  /** A history after enforceSizeLimit: the oldest sample is dropped exactly
      when the list has reached 200 samples. */
  function SizeLimited(points: seq<TimePoint>): (r: seq<TimePoint>)
    ensures |r| <= |points| <= |r| + 1 && r == points[|points| - |r|..]
    ensures |points| == MAX_SAVED_TIMEPOINTS <==> |r| < |points|
  {
    if |points| == MAX_SAVED_TIMEPOINTS then points[1..] else points
  }

  /** isInSameHalfOfDay: both hours before noon, or both from noon on. */
  predicate IsInSameHalfOfDay(time1: int, time2: int, hourOf: int -> int)
  {
    var hour1 := hourOf(time1);
    var hour2 := hourOf(time2);
    (hour1 < 12 && hour2 < 12) || (hour1 >= 12 && hour2 >= 12)
  }

  /** A generic history after enforceGenericLimits at time now: the newest
      sample is dropped exactly when it lies in the same half of day as now. */
  function GenericLimited(points: seq<TimePoint>, now: int, hourOf: int -> int): (r: seq<TimePoint>)
    ensures |r| <= |points| <= |r| + 1 && r == points[..|r|]
    ensures |r| < |points| <==> |points| > 0 && IsInSameHalfOfDay(now, points[|points| - 1].timestamp, hourOf)
  {
    if |points| == 0 then points
    else if IsInSameHalfOfDay(now, points[|points| - 1].timestamp, hourOf) then points[..|points| - 1]
    else points
  }

  /** The history of the given mode after addTimePoint(mode, point) at time now. */
  function AfterAdd(points: seq<TimePoint>, mode: TimePointMode, point: TimePoint, now: int, hourOf: int -> int): seq<TimePoint>
  {
    var kept := if mode == GENERIC then GenericLimited(points, now, hourOf) else points;
    SizeLimited(kept + [point])
  }

  /** The new sample always ends up last, and a history below the cap stays
      below it: at most 199 samples are ever kept. */
  lemma AfterAddKeepsCap(points: seq<TimePoint>, mode: TimePointMode, point: TimePoint, now: int, hourOf: int -> int)
    requires |points| < MAX_SAVED_TIMEPOINTS
    ensures var r := AfterAdd(points, mode, point, now, hourOf);
      |r| < MAX_SAVED_TIMEPOINTS && |r| >= 1 && r[|r| - 1] == point
  {
  }

  /** The cap test is an equality: a history already longer than 200
      samples (from an older save) is never trimmed again. */
  lemma OverlongHistoryGrows(points: seq<TimePoint>, mode: TimePointMode, point: TimePoint, now: int, hourOf: int -> int)
    requires |points| > MAX_SAVED_TIMEPOINTS
    ensures mode == COMMIT ==> AfterAdd(points, mode, point, now, hourOf) == points + [point]
    ensures |AfterAdd(points, mode, point, now, hourOf)| >= |points|
  {
  }

  /** Eviction is first in, first out: what survives is the old history
      minus at most its oldest sample (and, in GENERIC mode, minus at most
      its newest one), in the old order, followed by the new sample. */
  lemma AfterAddIsFifo(points: seq<TimePoint>, mode: TimePointMode, point: TimePoint, now: int, hourOf: int -> int)
    ensures var r := AfterAdd(points, mode, point, now, hourOf);
      exists lo, hi :: 0 <= lo <= 1 && hi <= |points| && lo <= hi && |points| - hi <= 1
        && r == points[lo..hi] + [point]
    ensures mode == COMMIT && |points| != MAX_SAVED_TIMEPOINTS - 1 ==> AfterAdd(points, mode, point, now, hourOf) == points + [point]
  {
    var kept := if mode == GENERIC then GenericLimited(points, now, hourOf) else points;
    var r := AfterAdd(points, mode, point, now, hourOf);
    if |kept + [point]| == MAX_SAVED_TIMEPOINTS {
      assert r == kept[1..] + [point];
      assert r == points[1..|kept|] + [point];
    } else {
      assert r == points[0..|kept|] + [point];
    }
  }

  /** A placeholder hour-of-day function: COMMIT samples never consult it. */
  function NoHour(t: int): int
  {
    0
  }

  /** The commit history a run of commits builds from an empty one. */
  function CommitHistory(points: seq<TimePoint>): seq<TimePoint>
    decreases |points|
  {
    if |points| == 0 then []
    else AfterAdd(CommitHistory(points[..|points| - 1]), COMMIT, points[|points| - 1], 0, NoHour)
  }

  /** How many samples a commit history built from n commits keeps. */
  function Kept(n: int): int
  {
    if n < MAX_SAVED_TIMEPOINTS then n else MAX_SAVED_TIMEPOINTS - 1
  }

  /** Starting from an empty commit history, the saved history is always
      the most recent min(n, 199) commits, oldest first. */
  lemma {:induction false} CommitHistoryKeepsNewest(points: seq<TimePoint>)
    ensures 0 <= Kept(|points|) <= |points|
    ensures CommitHistory(points) == points[|points| - Kept(|points|)..]
    decreases |points|
  {
    if |points| > 0 {
      var n := |points|;
      CommitHistoryKeepsNewest(points[..n - 1]);
      var lo := n - 1 - Kept(n - 1);
      SnocSlice(points, lo);
      CommitAddIsCapped(CommitHistory(points[..n - 1]), points[n - 1], 0, NoHour);
      if n - lo == MAX_SAVED_TIMEPOINTS {
        DropFirst(points, lo);
        assert Kept(n) == MAX_SAVED_TIMEPOINTS - 1;
      } else {
        assert Kept(n) == n - lo;
      }
    }
  }

  /** In COMMIT mode adding a sample is appending it and applying the cap. */
  lemma CommitAddIsCapped(points: seq<TimePoint>, point: TimePoint, now: int, hourOf: int -> int)
    ensures AfterAdd(points, COMMIT, point, now, hourOf) == SizeLimited(points + [point])
  {
  }

  lemma SnocSlice(s: seq<TimePoint>, lo: int)
    requires 0 <= lo < |s|
    ensures s[..|s| - 1][lo..] + [s[|s| - 1]] == s[lo..]
  {
  }

  lemma DropFirst(s: seq<TimePoint>, lo: int)
    requires 0 <= lo < |s|
    ensures s[lo..][1..] == s[lo + 1..]
  {
  }

  /** Whatever its date, a timestamp is in the same half of day as itself;
      the relation is symmetric and transitive, so the generic history keeps
      at most one sample per run of same-half readings. */
  lemma SameHalfIsEquivalence(t1: int, t2: int, t3: int, hourOf: int -> int)
    ensures IsInSameHalfOfDay(t1, t1, hourOf)
    ensures IsInSameHalfOfDay(t1, t2, hourOf) == IsInSameHalfOfDay(t2, t1, hourOf)
    ensures IsInSameHalfOfDay(t1, t2, hourOf) && IsInSameHalfOfDay(t2, t3, hourOf) ==> IsInSameHalfOfDay(t1, t3, hourOf)
  {
  }

  /** For hours of the day 0..23 the test is the same as comparing hour / 12. */
  lemma SameHalfIsSameHalfIndex(t1: int, t2: int, hourOf: int -> int)
    requires 0 <= hourOf(t1) < 24 && 0 <= hourOf(t2) < 24
    ensures IsInSameHalfOfDay(t1, t2, hourOf) <==> hourOf(t1) / 12 == hourOf(t2) / 12
  {
  }

  /** The calendar date plays no part: with hours counted in UTC, a morning
      sample and a morning reading three days later are coalesced. */
  lemma DateIsIgnored(morning: int)
    requires 0 <= morning < 12 * 3600000
    ensures IsInSameHalfOfDay(morning + 3 * MILLISEC_PER_DAY, morning, t => (t / 3600000) % 24)
  {
    var later := morning + 3 * MILLISEC_PER_DAY;
    assert later / 3600000 == 72 + morning / 3600000;
  }

  /** The saved settings and the two histories. */
  class PersistentSave {
    var commitTimePoints: seq<TimePoint>
    var genericTimePoints: seq<TimePoint>
    var excludedFileTypes: string
    var includedFileTypes: string
    var separateTabsTypes: string
    var charSet: string
    var excludeIdea: bool
    var excludeNpm: bool
    var excludeCompiler: bool
    var excludeGit: bool
    var disableAutoUpdate: bool
    var disableTimeLine: bool
    var excludedDirectories: seq<string>

    /** The settings a new project starts from. */
    constructor ()
      ensures commitTimePoints == [] && genericTimePoints == []
      ensures excludedFileTypes == DEFAULT_EXCLUDED_FILE_TYPES
      ensures includedFileTypes == ""
      ensures separateTabsTypes == DEFAULT_SEPARATE_TABS_TYPES
      ensures charSet == UTF_8
      ensures excludeIdea && excludeNpm && excludeCompiler && excludeGit
      ensures !disableAutoUpdate && !disableTimeLine
      ensures excludedDirectories == []
    {
      commitTimePoints := [];
      genericTimePoints := [];
      excludedFileTypes := DEFAULT_EXCLUDED_FILE_TYPES;
      includedFileTypes := "";
      separateTabsTypes := DEFAULT_SEPARATE_TABS_TYPES;
      charSet := UTF_8;
      excludeIdea := true;
      excludeNpm := true;
      excludeCompiler := true;
      excludeGit := true;
      disableAutoUpdate := false;
      disableTimeLine := false;
      excludedDirectories := [];
    }

    /** addTimePoint(mode, point): the history the mode selects is limited
        (GENERIC only), extended by the point and capped; the other history
        and the settings are left alone. */
    method AddTimePoint(mode: TimePointMode, point: TimePoint, now: int, hourOf: int -> int)
      modifies this`commitTimePoints, this`genericTimePoints
      ensures mode == GENERIC ==>
        genericTimePoints == AfterAdd(old(genericTimePoints), GENERIC, point, now, hourOf)
        && commitTimePoints == old(commitTimePoints)
      ensures mode == COMMIT ==>
        commitTimePoints == AfterAdd(old(commitTimePoints), COMMIT, point, now, hourOf)
        && genericTimePoints == old(genericTimePoints)
    {
      var list: seq<TimePoint>;
      if mode == GENERIC {
        list := genericTimePoints;
        list := EnforceGenericLimits(list, now, hourOf);
      } else {
        list := commitTimePoints;
      }
      list := list + [point];
      list := EnforceSizeLimit(list);
      if mode == GENERIC {
        genericTimePoints := list;
      } else {
        commitTimePoints := list;
      }
    }

    /** clearPoints: both histories become empty. */
    method ClearPoints()
      modifies this`commitTimePoints, this`genericTimePoints
      ensures commitTimePoints == [] && genericTimePoints == []
    {
      commitTimePoints := [];
      genericTimePoints := [];
    }
  }

  /** enforceSizeLimit on a list value. */
  method EnforceSizeLimit(points: seq<TimePoint>) returns (r: seq<TimePoint>)
    ensures r == SizeLimited(points)
  {
    r := points;
    if |r| == MAX_SAVED_TIMEPOINTS {
      r := r[1..];
    }
  }

  /** enforceGenericLimits on a list value. */
  method EnforceGenericLimits(points: seq<TimePoint>, now: int, hourOf: int -> int) returns (r: seq<TimePoint>)
    ensures r == GenericLimited(points, now, hourOf)
  {
    r := points;
    if |r| == 0 {
      return;
    }
    var last := r[|r| - 1];
    if IsInSameHalfOfDay(now, last.timestamp, hourOf) {
      r := r[..|r| - 1];
    }
  }
}
