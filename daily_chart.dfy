// DailyTimeTable.tsx: the ratio chart of one day. The clipped items are
// scanned like the list's, but only work and real breaks become slices: a gap
// after a hard stop and a trashed segment take up no share of the chart.
module DailyChart {
  import opened Types
  import opened Sorting
  import opened Clip
  import Metrics
  import Palette
  import Timetable

  /** One slice of the ratio chart. */
  datatype ChartSlice = ChartSlice(
    labelText: string,
    duration: int,
    color: string,
    isBreak: bool,
    isHardStop: bool,
    start: int,
    end: int)

  const ChartBreakFill: string := "#a7f3d0"

  // --- the window --------------------------------------------------------------

  /** Every segment not in the trash, across all sessions, in stored order. */
  function AllLiveSegments(sessions: seq<Session>): (r: seq<TimeSegment>)
    ensures forall i :: 0 <= i < |r| ==> !r[i].IsDeleted()
    ensures forall x :: x in r <==> exists i, j :: LiveAt(sessions, i, j) && sessions[i].segments[j] == x
    decreases |sessions|
  {
    if |sessions| == 0 then []
    else
      var p := sessions[..|sessions| - 1];
      var prev := AllLiveSegments(p);
      AllLiveStep(sessions, p, prev, Metrics.LiveSegments(sessions[|sessions| - 1].segments));
      prev + Metrics.LiveSegments(sessions[|sessions| - 1].segments)
  }

  /** One more session adds exactly its live segments. */
  lemma AllLiveStep(sessions: seq<Session>, p: seq<Session>, prev: seq<TimeSegment>, live: seq<TimeSegment>)
    requires |sessions| > 0 && p == sessions[..|sessions| - 1]
    requires live == Metrics.LiveSegments(sessions[|sessions| - 1].segments)
    requires forall x :: x in prev <==> exists i, j :: LiveAt(p, i, j) && p[i].segments[j] == x
    ensures forall x :: x in prev + live <==>
      exists i, j :: LiveAt(sessions, i, j) && sessions[i].segments[j] == x
  {
    var k := |sessions| - 1;
    forall x | x in prev + live
      ensures exists i, j :: LiveAt(sessions, i, j) && sessions[i].segments[j] == x
    {
      if x in prev {
        var i, j :| LiveAt(p, i, j) && p[i].segments[j] == x;
        assert p[i] == sessions[i];
        assert LiveAt(sessions, i, j);
      } else {
        assert x in sessions[k].segments && !x.IsDeleted();
        var j :| 0 <= j < |sessions[k].segments| && sessions[k].segments[j] == x;
        assert LiveAt(sessions, k, j);
      }
    }
    forall x | exists i, j :: LiveAt(sessions, i, j) && sessions[i].segments[j] == x
      ensures x in prev + live
    {
      var i, j :| LiveAt(sessions, i, j) && sessions[i].segments[j] == x;
      if i < k {
        assert p[i] == sessions[i];
        assert LiveAt(p, i, j);
      } else {
        assert x in live;
      }
    }
  }

  /** Math.min over the starts. */
  function MinSegmentStart(segs: seq<TimeSegment>): (r: int)
    requires |segs| > 0
    ensures forall i :: 0 <= i < |segs| ==> r <= segs[i].start
    ensures exists i :: 0 <= i < |segs| && r == segs[i].start
    decreases |segs|
  {
    var x := segs[|segs| - 1].start;
    if |segs| == 1 then x
    else
      var p := segs[..|segs| - 1];
      var m := MinSegmentStart(p);
      assert forall i :: 0 <= i < |p| ==> p[i] == segs[i];
      if x < m then x else m
  }

  /**
   * The chart window: the earliest start and latest end (or now) of the
   * segments not in the trash, over every passed session and not just the
   * shown group; 09:00 of the target date and now when there are none.
   */
  function ChartWindow(sessions: seq<Session>, targetDate: int, now: int, tz: int): (w: (int, int))
    ensures var live := AllLiveSegments(sessions);
      |live| == 0 ==> w == (Timetable.NineAm(targetDate, tz), now)
    ensures forall i, j :: LiveAt(sessions, i, j) ==>
        w.0 <= sessions[i].segments[j].start && sessions[i].segments[j].EndOr(now) <= w.1
    ensures |AllLiveSegments(sessions)| > 0 ==>
      (exists i, j :: LiveAt(sessions, i, j) && w.0 == sessions[i].segments[j].start)
      && (exists i, j :: LiveAt(sessions, i, j) && w.1 == sessions[i].segments[j].EndOr(now))
  {
    var live := AllLiveSegments(sessions);
    if |live| > 0 then
      var lo := MinSegmentStart(live);
      var hi := Timetable.MaxSegmentEnd(live, now);
      ChartWindowBounds(sessions, live, lo, hi, now);
      (lo, hi)
    else (Timetable.NineAm(targetDate, tz), now)
  }

  /** The window's ends are the least start and the greatest end of the live segments, each reached by one of them. */
  lemma ChartWindowBounds(sessions: seq<Session>, live: seq<TimeSegment>, lo: int, hi: int, now: int)
    requires forall x :: x in live <==> exists i, j :: LiveAt(sessions, i, j) && sessions[i].segments[j] == x
    requires forall k :: 0 <= k < |live| ==> lo <= live[k].start && live[k].EndOr(now) <= hi
    requires exists k :: 0 <= k < |live| && lo == live[k].start
    requires exists k :: 0 <= k < |live| && hi == live[k].EndOr(now)
    ensures forall i, j :: LiveAt(sessions, i, j) ==>
      lo <= sessions[i].segments[j].start && sessions[i].segments[j].EndOr(now) <= hi
    ensures exists i, j :: LiveAt(sessions, i, j) && lo == sessions[i].segments[j].start
    ensures exists i, j :: LiveAt(sessions, i, j) && hi == sessions[i].segments[j].EndOr(now)
  {
    forall i, j | LiveAt(sessions, i, j)
      ensures lo <= sessions[i].segments[j].start && sessions[i].segments[j].EndOr(now) <= hi
    {
      var x := sessions[i].segments[j];
      assert x in live;
      var k :| 0 <= k < |live| && live[k] == x;
    }
    var a :| 0 <= a < |live| && lo == live[a].start;
    assert live[a] in live;
    var b :| 0 <= b < |live| && hi == live[b].EndOr(now);
    assert live[b] in live;
  }

  // --- the scan ------------------------------------------------------------------

  function BreakLabelFor(selectedGroupId: string): string
  {
    if selectedGroupId != "all" then "기타/휴식" else "휴식"
  }

  function ChartColor(s: Session): string
  {
    Palette.TaskPalette[Palette.PaletteIndex(Palette.Hash(s.id + s.name + "chart"))]
  }

  function WorkSlice(it: Item): (sl: ChartSlice)
    ensures !sl.isBreak && sl.start == it.start && sl.end == it.end && sl.duration == it.end - it.start
  {
    ChartSlice(it.session.name, it.end - it.start, ChartColor(it.session), false, false, it.start, it.end)
  }

  /** A break over [from, to] unless it is empty or follows a hard stop; there is no minimum length. */
  function GapSlice(from: int, to: int, lastHardStop: bool, selectedGroupId: string): (r: seq<ChartSlice>)
    ensures |r| == 1 <==> to > from && !lastHardStop
    ensures |r| <= 1
    ensures forall i :: 0 <= i < |r| ==>
      r[i].isBreak && !r[i].isHardStop && r[i].start == from && r[i].end == to && r[i].duration == to - from
      && r[i].labelText == BreakLabelFor(selectedGroupId) && r[i].color == ChartBreakFill
  {
    if to - from > 0 && !lastHardStop then
      [ChartSlice(BreakLabelFor(selectedGroupId), to - from, ChartBreakFill, true, false, from, to)]
    else []
  }

  /** The scan state after some items: the cursor, the last stop reason and the slices so far. */
  datatype Cursor = Cursor(time: int, lastHardStop: bool, slices: seq<ChartSlice>)

  function Step(c: Cursor, it: Item, selectedGroupId: string): Cursor
  {
    var gap := GapSlice(c.time, it.start, c.lastHardStop, selectedGroupId);
    var work := if it.deleted then [] else [WorkSlice(it)];
    Cursor(if c.time > it.end then c.time else it.end, it.hardStop, c.slices + gap + work)
  }

  /** The scan over `items`, left to right, from `startTime`. */
  function Fold(items: seq<Item>, selectedGroupId: string, startTime: int): Cursor
    decreases |items|
  {
    if |items| == 0 then Cursor(startTime, false, [])
    else Step(Fold(items[..|items| - 1], selectedGroupId, startTime), items[|items| - 1], selectedGroupId)
  }

  /** The chart's slices: the scan, then the tail gap up to `endTime`. */
  function ChartSpec(items: seq<Item>, selectedGroupId: string, startTime: int, endTime: int): seq<ChartSlice>
  {
    var c := Fold(items, selectedGroupId, startTime);
    c.slices + GapSlice(c.time, endTime, c.lastHardStop, selectedGroupId)
  }

  /** The loop of chartData's step 3. */
  method ChartScan(items: seq<Item>, selectedGroupId: string, startTime: int, endTime: int)
    returns (slices: seq<ChartSlice>)
    ensures slices == ChartSpec(items, selectedGroupId, startTime, endTime)
  {
    slices := [];
    var currentTime := startTime;
    var lastHardStop := false;
    for k := 0 to |items|
      invariant Cursor(currentTime, lastHardStop, slices) == Fold(items[..k], selectedGroupId, startTime)
    {
      FoldSnoc(items, k, selectedGroupId, startTime);
      currentTime, lastHardStop, slices := ScanItem(items[k], selectedGroupId, currentTime, lastHardStop, slices);
    }
    assert items[..|items|] == items;
    if currentTime < endTime {
      var gap := endTime - currentTime;
      if gap > 0 && !lastHardStop {
        slices := slices + [ChartSlice(BreakLabelFor(selectedGroupId), gap, ChartBreakFill, true, false,
                                       currentTime, endTime)];
      }
    }
  }

  /** One pass of the loop: the gap before the item, the item's own slice, and the moved cursor. */
  method ScanItem(item: Item, selectedGroupId: string, timeIn: int, lastHardStopIn: bool, slicesIn: seq<ChartSlice>)
    returns (currentTime: int, lastHardStop: bool, slices: seq<ChartSlice>)
    ensures Cursor(currentTime, lastHardStop, slices)
      == Step(Cursor(timeIn, lastHardStopIn, slicesIn), item, selectedGroupId)
  {
    currentTime, slices := timeIn, slicesIn;
    if item.start > currentTime {
      var gap := item.start - currentTime;
      if gap > 0 && !lastHardStopIn {
        slices := slices + [ChartSlice(BreakLabelFor(selectedGroupId), gap, ChartBreakFill, true, false,
                                       currentTime, item.start)];
      }
    }
    if !item.deleted {
      var color := Palette.GenerateTaskColor(item.session.id + item.session.name + "chart");
      slices := slices + [ChartSlice(item.session.name, item.end - item.start, color, false, false,
                                     item.start, item.end)];
    }
    currentTime := if currentTime > item.end then currentTime else item.end;
    lastHardStop := item.hardStop;
  }

  lemma FoldSnoc(items: seq<Item>, k: nat, selectedGroupId: string, startTime: int)
    requires k < |items|
    ensures Fold(items[..k + 1], selectedGroupId, startTime)
      == Step(Fold(items[..k], selectedGroupId, startTime), items[k], selectedGroupId)
  {
    assert items[..k + 1][..k] == items[..k];
  }

  // --- what the scan keeps ---------------------------------------------------------

  /** The work slices of a chart, in order. */
  function WorkOf(slices: seq<ChartSlice>): seq<ChartSlice>
    decreases |slices|
  {
    if |slices| == 0 then []
    else if slices[|slices| - 1].isBreak then WorkOf(slices[..|slices| - 1])
    else WorkOf(slices[..|slices| - 1]) + [slices[|slices| - 1]]
  }

  lemma {:induction false} WorkOfAppend(a: seq<ChartSlice>, b: seq<ChartSlice>)
    ensures WorkOf(a + b) == WorkOf(a) + WorkOf(b)
    decreases |b|
  {
    if |b| > 0 {
      assert (a + b)[..|a + b| - 1] == a + b[..|b| - 1];
      WorkOfAppend(a, b[..|b| - 1]);
    } else {
      assert a + b == a;
    }
  }

  /** One work slice per item not in the trash, in item order. */
  function LiveWorkSlices(items: seq<Item>): seq<ChartSlice>
    decreases |items|
  {
    if |items| == 0 then []
    else if items[|items| - 1].deleted then LiveWorkSlices(items[..|items| - 1])
    else LiveWorkSlices(items[..|items| - 1]) + [WorkSlice(items[|items| - 1])]
  }

  /** Every work slice comes from an item outside the trash, and every such item gives one. */
  lemma {:induction false} ChartWorkIsLiveItems(items: seq<Item>, selectedGroupId: string, startTime: int, endTime: int)
    ensures WorkOf(ChartSpec(items, selectedGroupId, startTime, endTime)) == LiveWorkSlices(items)
  {
    var c := Fold(items, selectedGroupId, startTime);
    FoldWork(items, selectedGroupId, startTime);
    WorkOfAppend(c.slices, GapSlice(c.time, endTime, c.lastHardStop, selectedGroupId));
  }

  lemma {:induction false} FoldWork(items: seq<Item>, selectedGroupId: string, startTime: int)
    ensures WorkOf(Fold(items, selectedGroupId, startTime).slices) == LiveWorkSlices(items)
    decreases |items|
  {
    if |items| > 0 {
      var p := items[..|items| - 1];
      var it := items[|items| - 1];
      var c := Fold(p, selectedGroupId, startTime);
      FoldWork(p, selectedGroupId, startTime);
      var gap := GapSlice(c.time, it.start, c.lastHardStop, selectedGroupId);
      var work := if it.deleted then [] else [WorkSlice(it)];
      WorkOfAppend(c.slices + gap, work);
      WorkOfAppend(c.slices, gap);
      assert WorkOf(gap) == [];
    }
  }

  /** Items inside the window, sorted by start (what SortedItems yields). */
  predicate ScanInput(items: seq<Item>, startTime: int)
  {
    (forall i :: 0 <= i < |items| ==> startTime <= items[i].start < items[i].end)
    && (forall i, j :: 0 <= i < j < |items| ==> items[i].start <= items[j].start)
  }

  /** A break slice and an item share no instant. */
  predicate Apart(b: ChartSlice, it: Item)
  {
    b.end <= it.start || it.end <= b.start
  }

  /** What the fold keeps true: the cursor is past every item, breaks lie before it and miss every item. */
  predicate FoldOk(c: Cursor, items: seq<Item>, startTime: int)
  {
    startTime <= c.time
    && (|items| == 0 ==> |c.slices| == 0)
    && (forall i :: 0 <= i < |items| ==> items[i].end <= c.time)
    && (forall j :: 0 <= j < |c.slices| && c.slices[j].isBreak ==>
          startTime <= c.slices[j].start < c.slices[j].end <= c.time
          && (|items| > 0 ==> c.slices[j].end <= items[|items| - 1].start)
          && forall i :: 0 <= i < |items| ==> Apart(c.slices[j], items[i]))
  }

  lemma {:induction false} FoldInvariant(items: seq<Item>, selectedGroupId: string, startTime: int)
    requires ScanInput(items, startTime)
    ensures FoldOk(Fold(items, selectedGroupId, startTime), items, startTime)
    decreases |items|
  {
    if |items| > 0 {
      var p := items[..|items| - 1];
      var it := items[|items| - 1];
      assert ScanInput(p, startTime);
      FoldInvariant(p, selectedGroupId, startTime);
      var c := Fold(p, selectedGroupId, startTime);
      StepKeepsFoldOk(c, p, it, selectedGroupId, startTime);
      assert p + [it] == items;
    }
  }

  lemma StepKeepsFoldOk(c: Cursor, p: seq<Item>, it: Item, selectedGroupId: string, startTime: int)
    requires FoldOk(c, p, startTime)
    requires ScanInput(p + [it], startTime)
    ensures FoldOk(Step(c, it, selectedGroupId), p + [it], startTime)
  {
    var items := p + [it];
    var gap := GapSlice(c.time, it.start, c.lastHardStop, selectedGroupId);
    var work := if it.deleted then [] else [WorkSlice(it)];
    var n := Step(c, it, selectedGroupId);
    assert n.slices == c.slices + gap + work;
    forall i | 0 <= i < |items| ensures items[i] == (if i < |p| then p[i] else it) { }
    assert items[|p|] == it;
    if |p| > 0 {
      assert items[|p| - 1] == p[|p| - 1];
      assert p[|p| - 1].start <= it.start;
    }
    forall j | |c.slices| + |gap| <= j < |n.slices| ensures !n.slices[j].isBreak
    {
      assert n.slices[j] == work[j - |c.slices| - |gap|];
    }
    forall j | 0 <= j < |n.slices| && n.slices[j].isBreak
      ensures startTime <= n.slices[j].start < n.slices[j].end <= n.time
      ensures n.slices[j].end <= it.start
      ensures forall i :: 0 <= i < |items| ==> Apart(n.slices[j], items[i])
    {
      if j < |c.slices| {
        assert n.slices[j] == c.slices[j];
      } else {
        assert n.slices[j] == gap[0];
      }
    }
  }

  /**
   * No break slice overlaps any clipped item, trashed ones included: a
   * trashed segment takes up its time without becoming a break, and breaks
   * are only the stretches where nothing was recorded.
   */
  lemma ChartBreaksAreGaps(items: seq<Item>, selectedGroupId: string, startTime: int, endTime: int)
    requires ScanInput(items, startTime)
    ensures var slices := ChartSpec(items, selectedGroupId, startTime, endTime);
      forall j, i :: 0 <= j < |slices| && slices[j].isBreak && 0 <= i < |items| ==> Apart(slices[j], items[i])
  {
    FoldInvariant(items, selectedGroupId, startTime);
    var c := Fold(items, selectedGroupId, startTime);
    var slices := ChartSpec(items, selectedGroupId, startTime, endTime);
    forall j | 0 <= j < |slices| && slices[j].isBreak
      ensures forall i :: 0 <= i < |items| ==> Apart(slices[j], items[i])
    {
      if j < |c.slices| {
        assert slices[j] == c.slices[j];
      }
    }
  }

  /** Every slice, work or break, has a positive duration equal to its span. */
  lemma {:induction false} ChartSlicesPositive(items: seq<Item>, selectedGroupId: string, startTime: int, endTime: int)
    requires ScanInput(items, startTime)
    ensures var slices := ChartSpec(items, selectedGroupId, startTime, endTime);
      forall j :: 0 <= j < |slices| ==> 0 < slices[j].duration == slices[j].end - slices[j].start
  {
    FoldPositive(items, selectedGroupId, startTime);
    var c := Fold(items, selectedGroupId, startTime);
    var tail := GapSlice(c.time, endTime, c.lastHardStop, selectedGroupId);
    var n := c.slices + tail;
    forall j | 0 <= j < |n| ensures 0 < n[j].duration == n[j].end - n[j].start
    {
      if j < |c.slices| {
        assert n[j] == c.slices[j];
      } else {
        assert |tail| == 1 && n[j] == tail[0];
      }
    }
  }

  lemma {:induction false} FoldPositive(items: seq<Item>, selectedGroupId: string, startTime: int)
    requires ScanInput(items, startTime)
    ensures forall j :: 0 <= j < |Fold(items, selectedGroupId, startTime).slices| ==>
      0 < Fold(items, selectedGroupId, startTime).slices[j].duration
      && Fold(items, selectedGroupId, startTime).slices[j].duration
        == Fold(items, selectedGroupId, startTime).slices[j].end - Fold(items, selectedGroupId, startTime).slices[j].start
    decreases |items|
  {
    if |items| > 0 {
      var p := items[..|items| - 1];
      var it := items[|items| - 1];
      assert ScanInput(p, startTime);
      FoldPositive(p, selectedGroupId, startTime);
      var c := Fold(p, selectedGroupId, startTime);
      var gap := GapSlice(c.time, it.start, c.lastHardStop, selectedGroupId);
      var work := if it.deleted then [] else [WorkSlice(it)];
      var n := c.slices + gap + work;
      forall j | 0 <= j < |n| ensures 0 < n[j].duration == n[j].end - n[j].start
      {
        if j < |c.slices| {
          assert n[j] == c.slices[j];
        } else if j < |c.slices| + |gap| {
          assert |gap| == 1 && n[j] == gap[0];
        } else {
          assert !it.deleted && n[j] == WorkSlice(it);
          assert items[|items| - 1] == it;
        }
      }
    }
  }

  /**
   * The chart and the list disagree on purpose after a hard stop: the list
   * shows the 30-minute gap as a pause slice, the chart drops it and shows
   * only the two pieces of work.
   */
  lemma HardStopGapOnlyInList(s: Session)
    requires |s.segments| == 2
    ensures var a := Item(0, HOUR, s, 0, true, false, false, false);
      var b := Item(HOUR + 30 * MINUTE, 2 * HOUR, s, 1, false, false, false, false);
      ChartSpec([a, b], "all", 0, 2 * HOUR) == [WorkSlice(a), WorkSlice(b)]
      && Timetable.BreakSlice(HOUR, HOUR + 30 * MINUTE, true, HOUR, Some(s.id), 0, 0).Some?
  {
    var a := Item(0, HOUR, s, 0, true, false, false, false);
    var b := Item(HOUR + 30 * MINUTE, 2 * HOUR, s, 1, false, false, false, false);
    assert [a, b][..1] == [a];
    assert Fold([a], "all", 0) == Cursor(HOUR, true, [WorkSlice(a)]);
  }

  // --- totals and percentages ------------------------------------------------------

  function SliceDuration(sl: ChartSlice): int { sl.duration }

  function ChartTotal(slices: seq<ChartSlice>): int
  {
    SumBy(slices, SliceDuration)
  }

  /** totalValidDuration: the reduce over the slices. */
  method SumDurations(slices: seq<ChartSlice>) returns (total: int)
    ensures total == ChartTotal(slices)
  {
    total := 0;
    for i := 0 to |slices|
      invariant total == ChartTotal(slices[..i])
    {
      ChartTotalStep(slices, i);
      total := total + slices[i].duration;
    }
    assert slices[..|slices|] == slices;
  }

  /** The first `i + 1` slices add the duration of slice `i` to the first `i`. */
  lemma ChartTotalStep(slices: seq<ChartSlice>, i: nat)
    requires i < |slices|
    ensures ChartTotal(slices[..i + 1]) == ChartTotal(slices[..i]) + slices[i].duration
  {
    assert slices[..i + 1][..i] == slices[..i];
  }

  /** The share of the ring covered by the first `k` slices. */
  function Share(slices: seq<ChartSlice>, k: nat, safe: int): real
    requires k <= |slices| && safe >= 1
  {
    ChartTotal(slices[..k]) as real / safe as real
  }

  /** A slice placed on the ring, as shares of the chart's total. */
  datatype Placed = Placed(slice: ChartSlice, percent: real, startPercent: real, endPercent: real)

  /** Slice `k` placed on a ring of total `safe`: its share, and where it starts and ends. */
  predicate PlacedAt(p: Placed, slices: seq<ChartSlice>, k: nat, safe: int)
    requires k < |slices| && safe >= 1
  {
    p.slice == slices[k] && p.percent == slices[k].duration as real / safe as real
    && p.startPercent == Share(slices, k, safe) && p.endPercent == Share(slices, k + 1, safe)
  }

  /**
   * Step 5 of chartData: each slice's share and its start and end on the
   * ring, accumulated left to right over `max(1, total)`.
   */
  method PlaceSlices(slices: seq<ChartSlice>) returns (placed: seq<Placed>, total: int)
    ensures total == ChartTotal(slices)
    ensures |placed| == |slices|
    ensures var safe := if total > 1 then total else 1;
      forall i :: 0 <= i < |placed| ==> PlacedAt(placed[i], slices, i, safe)
    ensures |placed| > 0 ==> placed[0].startPercent == 0.0
    ensures forall i :: 0 < i < |placed| ==> placed[i].startPercent == placed[i - 1].endPercent
    ensures var safe := if total > 1 then total else 1;
      |placed| > 0 ==> placed[|placed| - 1].endPercent == total as real / safe as real
  {
    total := SumDurations(slices);
    var safe := if total > 1 then total else 1;
    placed := [];
    var acc := 0;
    for i := 0 to |slices|
      invariant |placed| == i
      invariant acc == ChartTotal(slices[..i])
      invariant forall k :: 0 <= k < i ==> PlacedAt(placed[k], slices, k, safe)
    {
      ChartTotalStep(slices, i);
      var startPercent := acc as real / safe as real;
      var endPercent := (acc + slices[i].duration) as real / safe as real;
      acc := acc + slices[i].duration;
      var p := Placed(slices[i], slices[i].duration as real / safe as real, startPercent, endPercent);
      assert PlacedAt(p, slices, i, safe);
      placed := placed + [p];
    }
    assert slices[..0] == [];
    assert Share(slices, 0, safe) == 0.0;
    assert slices[..|slices|] == slices;
    assert Share(slices, |slices|, safe) == total as real / safe as real;
    if |placed| > 0 {
      assert PlacedAt(placed[0], slices, 0, safe);
      assert PlacedAt(placed[|placed| - 1], slices, |placed| - 1, safe);
    }
    forall i | 0 < i < |placed|
      ensures placed[i].startPercent == placed[i - 1].endPercent
    {
      assert PlacedAt(placed[i], slices, i, safe) && PlacedAt(placed[i - 1], slices, i - 1, safe);
    }
  }

  // --- aggregatedList -------------------------------------------------------------

  /** One row of the per-label list. */
  datatype Aggregate = Aggregate(labelText: string, duration: int, color: string, isBreak: bool,
                                 isHardStop: bool, count: nat)

  function LabelSum(slices: seq<ChartSlice>, l: string): int
    decreases |slices|
  {
    if |slices| == 0 then 0
    else LabelSum(slices[..|slices| - 1], l) + (if slices[|slices| - 1].labelText == l then slices[|slices| - 1].duration else 0)
  }

  function LabelCount(slices: seq<ChartSlice>, l: string): nat
    decreases |slices|
  {
    if |slices| == 0 then 0
    else LabelCount(slices[..|slices| - 1], l) + (if slices[|slices| - 1].labelText == l then 1 else 0)
  }

  /** Where label `l` first occurs. */
  function FirstIndex(s: seq<ChartSlice>, l: string): (r: Option<nat>)
    ensures r.Some? ==> r.value < |s| && s[r.value].labelText == l
    decreases |s|
  {
    if |s| == 0 then None
    else if s[0].labelText == l then Some(0)
    else match FirstIndex(s[1..], l)
      case Some(k) => Some(k + 1)
      case None => None
  }

  /** FirstIndex finds the first occurrence, and finds nothing only when there is none. */
  lemma {:induction false} FirstIndexIsFirst(s: seq<ChartSlice>, l: string)
    ensures FirstIndex(s, l).Some? ==> forall k :: 0 <= k < FirstIndex(s, l).value ==> s[k].labelText != l
    ensures FirstIndex(s, l).None? ==> forall k :: 0 <= k < |s| ==> s[k].labelText != l
    decreases |s|
  {
    if |s| > 0 && s[0].labelText != l {
      FirstIndexIsFirst(s[1..], l);
      assert forall k :: 1 <= k < |s| ==> s[k] == s[1..][k - 1];
    }
  }

  lemma FirstIndexSnoc(s: seq<ChartSlice>, x: ChartSlice, l: string)
    ensures FirstIndex(s + [x], l) ==
      if FirstIndex(s, l).Some? then FirstIndex(s, l)
      else if x.labelText == l then Some(|s|) else None
  {
    var q := FirstIndex(s, l);
    FirstIndexIsFirst(s + [x], l);
    FirstIndexIsFirst(s, l);
    if q.Some? {
      assert (s + [x])[q.value] == s[q.value];
      forall k | 0 <= k < q.value ensures (s + [x])[k].labelText != l
      {
        assert (s + [x])[k] == s[k];
      }
    } else {
      forall k | 0 <= k < |s| ensures (s + [x])[k].labelText != l
      {
        assert (s + [x])[k] == s[k];
      }
      assert (s + [x])[|s|] == x;
    }
  }

  lemma LabelSnoc(s: seq<ChartSlice>, x: ChartSlice, l: string)
    ensures LabelSum(s + [x], l) == LabelSum(s, l) + (if x.labelText == l then x.duration else 0)
    ensures LabelCount(s + [x], l) == LabelCount(s, l) + (if x.labelText == l then 1 else 0)
  {
    assert (s + [x])[..|s|] == s;
  }

  function AggDuration(a: Aggregate): int { a.duration }
  function NegDuration(a: Aggregate): int { -a.duration }

  /** An entry describes its label in `s`: total, count, and the colour and flags of the label's first slice. */
  predicate Describes(e: Aggregate, s: seq<ChartSlice>)
  {
    e.duration == LabelSum(s, e.labelText) && e.count == LabelCount(s, e.labelText) && e.count >= 1
    && FirstIndex(s, e.labelText).Some?
    && var k := FirstIndex(s, e.labelText).value;
    e.color == s[k].color && e.isBreak == s[k].isBreak && e.isHardStop == s[k].isHardStop
  }

  predicate DistinctLabels(entries: seq<Aggregate>)
  {
    forall a, b :: 0 <= a < b < |entries| ==> entries[a].labelText != entries[b].labelText
  }

  /** The last entry with label `l` (the Map lookup). */
  function FindLabel(entries: seq<Aggregate>, l: string): (r: Option<nat>)
    ensures r.Some? ==> r.value < |entries| && entries[r.value].labelText == l
    ensures r.None? ==> forall e :: 0 <= e < |entries| ==> entries[e].labelText != l
    decreases |entries|
  {
    if |entries| == 0 then None
    else if entries[|entries| - 1].labelText == l then Some(|entries| - 1)
    else FindLabel(entries[..|entries| - 1], l)
  }

  function LabelsOf(entries: seq<Aggregate>): set<string>
  {
    set e | e in entries :: e.labelText
  }

  function SliceLabels(s: seq<ChartSlice>): set<string>
  {
    set x | x in s :: x.labelText
  }

  /** Every label of `s` has an entry. */
  predicate Covers(entries: seq<Aggregate>, s: seq<ChartSlice>)
  {
    SliceLabels(s) <= LabelsOf(entries)
  }

  /** The invariant of the Map the list is built in (entries in insertion order). */
  predicate AggOk(entries: seq<Aggregate>, s: seq<ChartSlice>)
  {
    DistinctLabels(entries)
    && (forall e :: 0 <= e < |entries| ==> Describes(entries[e], s))
    && Covers(entries, s)
    && SumBy(entries, AggDuration) == ChartTotal(s)
  }

  lemma DescribesExtend(e: Aggregate, s: seq<ChartSlice>, x: ChartSlice)
    requires Describes(e, s) && x.labelText != e.labelText
    ensures Describes(e, s + [x])
  {
    LabelSnoc(s, x, e.labelText);
    FirstIndexSnoc(s, x, e.labelText);
    assert (s + [x])[FirstIndex(s, e.labelText).value] == s[FirstIndex(s, e.labelText).value];
  }

  lemma DescribesAdd(e: Aggregate, s: seq<ChartSlice>, x: ChartSlice)
    requires Describes(e, s) && x.labelText == e.labelText
    ensures Describes(e.(duration := e.duration + x.duration, count := e.count + 1), s + [x])
  {
    LabelSnoc(s, x, e.labelText);
    FirstIndexSnoc(s, x, e.labelText);
    assert (s + [x])[FirstIndex(s, e.labelText).value] == s[FirstIndex(s, e.labelText).value];
  }

  lemma DescribesNew(s: seq<ChartSlice>, x: ChartSlice)
    requires FirstIndex(s, x.labelText).None?
    ensures Describes(Aggregate(x.labelText, x.duration, x.color, x.isBreak, x.isHardStop, 1), s + [x])
  {
    FirstIndexIsFirst(s, x.labelText);
    LabelAbsent(s, x.labelText);
    LabelSnoc(s, x, x.labelText);
    FirstIndexSnoc(s, x, x.labelText);
  }

  lemma {:induction false} LabelAbsent(s: seq<ChartSlice>, l: string)
    requires forall k :: 0 <= k < |s| ==> s[k].labelText != l
    ensures LabelSum(s, l) == 0 && LabelCount(s, l) == 0
    decreases |s|
  {
    if |s| > 0 {
      LabelAbsent(s[..|s| - 1], l);
    }
  }

  lemma CoversExtend(entries: seq<Aggregate>, n: seq<Aggregate>, s: seq<ChartSlice>, x: ChartSlice)
    requires Covers(entries, s)
    requires LabelsOf(entries) <= LabelsOf(n) && x.labelText in LabelsOf(n)
    ensures Covers(n, s + [x])
  {
    forall l | l in SliceLabels(s + [x]) ensures l in LabelsOf(n)
    {
      var y :| y in s + [x] && y.labelText == l;
      if y in s {
        assert l in SliceLabels(s);
      }
    }
  }

  /** Replacing an entry by one with the same label keeps the label set. */
  lemma LabelsKept(entries: seq<Aggregate>, p: nat, a: Aggregate)
    requires p < |entries| && a.labelText == entries[p].labelText
    ensures LabelsOf(entries) <= LabelsOf(entries[p := a]) && a.labelText in LabelsOf(entries[p := a])
  {
    var n := entries[p := a];
    assert n[p] in n;
    forall l | l in LabelsOf(entries) ensures l in LabelsOf(n)
    {
      var y :| y in entries && y.labelText == l;
      var i :| 0 <= i < |entries| && entries[i] == y;
      assert n[i] in n && n[i].labelText == l;
    }
  }

  lemma LabelsGrow(entries: seq<Aggregate>, a: Aggregate)
    ensures LabelsOf(entries) <= LabelsOf(entries + [a]) && a.labelText in LabelsOf(entries + [a])
  {
    assert a in entries + [a];
    forall l | l in LabelsOf(entries) ensures l in LabelsOf(entries + [a])
    {
      var y :| y in entries && y.labelText == l;
      assert y in entries + [a];
    }
  }

  lemma AggAddExisting(entries: seq<Aggregate>, s: seq<ChartSlice>, x: ChartSlice, p: nat, a: Aggregate)
    requires AggOk(entries, s) && p < |entries| && entries[p].labelText == x.labelText
    requires a == entries[p].(duration := entries[p].duration + x.duration, count := entries[p].count + 1)
    ensures AggOk(entries[p := a], s + [x])
  {
    var n := entries[p := a];
    DescribeAllExisting(entries, s, x, p);
    LabelsKept(entries, p, a);
    CoversExtend(entries, n, s, x);
    SumStep(entries, s, x, p, a);
    DistinctRelabel(entries, n);
  }

  lemma SumStep(entries: seq<Aggregate>, s: seq<ChartSlice>, x: ChartSlice, p: nat, a: Aggregate)
    requires SumBy(entries, AggDuration) == ChartTotal(s)
    requires p < |entries| && a.duration == entries[p].duration + x.duration
    ensures SumBy(entries[p := a], AggDuration) == ChartTotal(s + [x])
  {
    SumByUpdate(entries, p, a, AggDuration);
    assert (s + [x])[..|s|] == s;
  }

  lemma DistinctRelabel(entries: seq<Aggregate>, n: seq<Aggregate>)
    requires DistinctLabels(entries)
    requires |n| == |entries| && forall q :: 0 <= q < |n| ==> n[q].labelText == entries[q].labelText
    ensures DistinctLabels(n)
  {
  }

  lemma DescribeAllExisting(entries: seq<Aggregate>, s: seq<ChartSlice>, x: ChartSlice, p: nat)
    requires DistinctLabels(entries) && forall e :: 0 <= e < |entries| ==> Describes(entries[e], s)
    requires p < |entries| && entries[p].labelText == x.labelText
    ensures var e := entries[p];
      var n := entries[p := e.(duration := e.duration + x.duration, count := e.count + 1)];
      forall q :: 0 <= q < |n| ==> Describes(n[q], s + [x])
  {
    var e := entries[p];
    var n := entries[p := e.(duration := e.duration + x.duration, count := e.count + 1)];
    forall q | 0 <= q < |n| ensures Describes(n[q], s + [x])
    {
      if q == p {
        DescribesAdd(e, s, x);
      } else {
        assert entries[q].labelText != entries[p].labelText by {
          if q < p { assert DistinctLabels(entries); } else { assert DistinctLabels(entries); }
        }
        DescribesExtend(entries[q], s, x);
      }
    }
  }

  lemma AggAddNew(entries: seq<Aggregate>, s: seq<ChartSlice>, x: ChartSlice)
    requires AggOk(entries, s)
    requires FindLabel(entries, x.labelText).None?
    ensures AggOk(entries + [Aggregate(x.labelText, x.duration, x.color, x.isBreak, x.isHardStop, 1)], s + [x])
  {
    var a := Aggregate(x.labelText, x.duration, x.color, x.isBreak, x.isHardStop, 1);
    var n := entries + [a];
    forall k | 0 <= k < |s| ensures s[k].labelText != x.labelText
    {
      assert s[k] in s && s[k].labelText in SliceLabels(s);
      var y :| y in entries && y.labelText == s[k].labelText;
    }
    DescribesNew(s, x);
    forall q | 0 <= q < |n| ensures Describes(n[q], s + [x])
    {
      if q < |entries| { assert n[q] == entries[q]; DescribesExtend(entries[q], s, x); }
    }
    LabelsGrow(entries, a);
    CoversExtend(entries, n, s, x);
    SumNew(entries, s, x, a);
  }

  lemma SumNew(entries: seq<Aggregate>, s: seq<ChartSlice>, x: ChartSlice, a: Aggregate)
    requires SumBy(entries, AggDuration) == ChartTotal(s) && a.duration == x.duration
    ensures SumBy(entries + [a], AggDuration) == ChartTotal(s + [x])
  {
    assert (entries + [a])[..|entries|] == entries;
    assert (s + [x])[..|s|] == s;
  }

  /** Where label `l` first appears among the slices (past the end when it does not). */
  function Seen(s: seq<ChartSlice>, l: string): int
  {
    match FirstIndex(s, l)
    case Some(k) => k
    case None => |s|
  }

  /** The entries are in order of their labels' first appearance: the Map's insertion order. */
  predicate InSeenOrder(entries: seq<Aggregate>, s: seq<ChartSlice>)
  {
    forall a, b :: 0 <= a < b < |entries| ==> Seen(s, entries[a].labelText) < Seen(s, entries[b].labelText)
  }

  /** One more slice keeps the entries in order of first appearance. */
  lemma SeenOrderStep(entries: seq<Aggregate>, done: seq<ChartSlice>, x: ChartSlice, merged: seq<Aggregate>)
    requires AggOk(entries, done) && InSeenOrder(entries, done)
    requires |merged| == |entries| || (|merged| == |entries| + 1 && merged[|entries|].labelText == x.labelText
      && forall e :: 0 <= e < |entries| ==> entries[e].labelText != x.labelText)
    requires forall e :: 0 <= e < |entries| ==> merged[e].labelText == entries[e].labelText
    ensures InSeenOrder(merged, done + [x])
  {
    forall e | 0 <= e < |entries|
      ensures Seen(done + [x], merged[e].labelText) == Seen(done, entries[e].labelText) < |done|
    {
      FirstIndexSnoc(done, x, entries[e].labelText);
    }
    if |merged| == |entries| + 1 {
      FirstIndexSnoc(done, x, x.labelText);
      assert x.labelText !in LabelsOf(entries);
      forall k | 0 <= k < |done| ensures done[k].labelText != x.labelText
      {
        assert done[k] in done;
      }
    }
  }

  /**
   * aggregatedList: the slices merged by label (durations summed, counts
   * added, colour and flags of the label's first slice), then sorted by
   * duration, largest first (stable).
   */
  method AggregateByLabel(slices: seq<ChartSlice>) returns (list: seq<Aggregate>)
    ensures DistinctLabels(list)
    ensures forall e :: 0 <= e < |list| ==> Describes(list[e], slices)
    ensures Covers(list, slices)
    ensures SumBy(list, AggDuration) == ChartTotal(slices)
    ensures forall a, b :: 0 <= a < b < |list| ==> list[a].duration >= list[b].duration
    ensures forall a, b :: 0 <= a < b < |list| && list[a].duration == list[b].duration ==>
      Seen(slices, list[a].labelText) < Seen(slices, list[b].labelText)
  {
    var entries := MergeByLabel(slices);
    list := SortBy(entries, NegDuration);
    SortBySum(entries, NegDuration, AggDuration);
    PermutedAggOk(entries, list, slices);
    var rank := (e: Aggregate) => Seen(slices, e.labelText);
    SortByKeepsTieOrder(entries, NegDuration, rank);
    forall a, b | 0 <= a < b < |list| && list[a].duration == list[b].duration
      ensures Seen(slices, list[a].labelText) < Seen(slices, list[b].labelText)
    {
      assert NegDuration(list[a]) == NegDuration(list[b]);
      assert rank(list[a]) < rank(list[b]);
    }
  }

  /** The Map pass of aggregatedList: one entry per label, in order of first occurrence. */
  method MergeByLabel(slices: seq<ChartSlice>) returns (entries: seq<Aggregate>)
    ensures AggOk(entries, slices)
    ensures InSeenOrder(entries, slices)
  {
    entries := [];
    for i := 0 to |slices|
      invariant AggOk(entries, slices[..i])
      invariant InSeenOrder(entries, slices[..i])
    {
      assert slices[..i + 1] == slices[..i] + [slices[i]];
      entries := MergeSlice(entries, slices[..i], slices[i]);
    }
    assert slices[..|slices|] == slices;
  }

  /** One pass of the loop: add to the entry with the slice's label, or append a new entry. */
  method MergeSlice(entries: seq<Aggregate>, done: seq<ChartSlice>, x: ChartSlice) returns (merged: seq<Aggregate>)
    requires AggOk(entries, done) && InSeenOrder(entries, done)
    ensures AggOk(merged, done + [x])
    ensures InSeenOrder(merged, done + [x])
  {
    match FindLabel(entries, x.labelText) {
      case Some(p) =>
        var e := entries[p];
        var a := e.(duration := e.duration + x.duration, count := e.count + 1);
        AggAddExisting(entries, done, x, p, a);
        merged := entries[p := a];
      case None =>
        AggAddNew(entries, done, x);
        merged := entries + [Aggregate(x.labelText, x.duration, x.color, x.isBreak, x.isHardStop, 1)];
    }
    SeenOrderStep(entries, done, x, merged);
  }

  lemma PermutedAggOk(entries: seq<Aggregate>, list: seq<Aggregate>, slices: seq<ChartSlice>)
    requires AggOk(entries, slices) && multiset(list) == multiset(entries)
    ensures DistinctLabels(list)
    ensures forall e :: 0 <= e < |list| ==> Describes(list[e], slices)
    ensures Covers(list, slices)
  {
    forall e | 0 <= e < |list| ensures list[e] in entries
    {
      assert list[e] in multiset(list);
    }
    forall a, b | 0 <= a < b < |list| ensures list[a].labelText != list[b].labelText
    {
      SortedDistinct(entries, list, a, b);
    }
    forall l | l in LabelsOf(entries) ensures l in LabelsOf(list)
    {
      var y :| y in entries && y.labelText == l;
      assert y in multiset(list);
    }
  }

  /** A permutation of entries with distinct labels has distinct labels. */
  lemma SortedDistinct(entries: seq<Aggregate>, list: seq<Aggregate>, a: nat, b: nat)
    requires DistinctLabels(entries) && multiset(list) == multiset(entries)
    requires a < b < |list|
    ensures list[a].labelText != list[b].labelText
  {
    if list[a].labelText == list[b].labelText {
      assert list[a] in multiset(entries) && list[b] in multiset(entries);
      var i :| 0 <= i < |entries| && entries[i] == list[a];
      var j :| 0 <= j < |entries| && entries[j] == list[b];
      if i == j {
        TwiceInList(list, a, b);
        MultiplicityInDistinct(entries, i);
      }
    }
  }

  lemma TwiceInList(list: seq<Aggregate>, a: nat, b: nat)
    requires a < b < |list| && list[a] == list[b]
    ensures multiset(list)[list[a]] >= 2
  {
    assert list == list[..a] + [list[a]] + list[a + 1..b] + [list[b]] + list[b + 1..];
  }

  /** In a list with distinct labels every entry occurs once. */
  lemma {:induction false} MultiplicityInDistinct(entries: seq<Aggregate>, i: nat)
    requires DistinctLabels(entries) && i < |entries|
    ensures multiset(entries)[entries[i]] == 1
    decreases |entries|
  {
    var n := |entries| - 1;
    var p := entries[..n];
    assert entries == p + [entries[n]];
    assert DistinctLabels(p);
    if i < n {
      assert p[i] == entries[i];
      MultiplicityInDistinct(p, i);
      assert entries[n] != entries[i];
    } else {
      assert forall k :: 0 <= k < n ==> p[k] != entries[n];
      assert entries[n] !in multiset(p);
    }
  }

  // --- chartData -------------------------------------------------------------------

  /**
   * chartData: the window, then the scan of the shown sessions' clipped items
   * and the ring positions. With nothing shown there are no slices.
   */
  method ChartData(sessions: seq<Session>, targetDate: int, selectedGroupId: string, now: int, tz: int)
    returns (placed: seq<Placed>, total: int, startTime: int, endTime: int)
    ensures (startTime, endTime) == ChartWindow(sessions, targetDate, now, tz)
    ensures |GroupFiltered(sessions, selectedGroupId)| == 0 ==> placed == [] && total == 0
    ensures |GroupFiltered(sessions, selectedGroupId)| > 0 ==>
      var slices := ChartSpec(SortedItems(GroupFiltered(sessions, selectedGroupId), startTime, endTime, now),
                              selectedGroupId, startTime, endTime);
      total == ChartTotal(slices) && |placed| == |slices|
      && forall i :: 0 <= i < |placed| ==> placed[i].slice == slices[i]
    ensures |placed| > 0 ==> placed[0].startPercent == 0.0
    ensures forall i :: 0 < i < |placed| ==> placed[i].startPercent == placed[i - 1].endPercent
  {
    var filtered := GroupFiltered(sessions, selectedGroupId);
    var w := ChartWindow(sessions, targetDate, now, tz);
    startTime, endTime := w.0, w.1;
    if |filtered| == 0 {
      return [], 0, startTime, endTime;
    }
    var items := CollectItems(filtered, startTime, endTime, now);
    items := SortBy(items, ItemStart);
    assert items == SortedItems(filtered, startTime, endTime, now);
    var slices := ChartScan(items, selectedGroupId, startTime, endTime);
    placed, total := PlaceSlices(slices);
  }

  // --- dailyStats and selectedTaskStats ----------------------------------------------

  /** Segment `j` of session `i` exists and is not in the trash. */
  predicate LiveAt(sessions: seq<Session>, i: int, j: int)
  {
    0 <= i < |sessions| && 0 <= j < |sessions[i].segments| && !sessions[i].segments[j].IsDeleted()
  }

  /** The span `(end || now) − start` of segment `j` of session `i`. */
  function SpanAt(sessions: seq<Session>, i: nat, j: nat, now: int): int
    requires i < |sessions| && j < |sessions[i].segments|
  {
    sessions[i].segments[j].EndOr(now) - sessions[i].segments[j].start
  }

  /** The longest span of a segment outside the trash, or 0 (the nested forEach of dailyStats). */
  method MaxLiveDuration(sessions: seq<Session>, now: int) returns (maxDuration: int)
    ensures maxDuration >= 0
    ensures forall i, j :: LiveAt(sessions, i, j) ==> SpanAt(sessions, i, j, now) <= maxDuration
    ensures maxDuration == 0 || exists i, j :: LiveAt(sessions, i, j) && SpanAt(sessions, i, j, now) == maxDuration
  {
    maxDuration := 0;
    for i := 0 to |sessions|
      invariant maxDuration >= 0
      invariant forall i', j :: i' < i && LiveAt(sessions, i', j) ==> SpanAt(sessions, i', j, now) <= maxDuration
      invariant maxDuration == 0 || exists i', j :: i' < i && LiveAt(sessions, i', j) && SpanAt(sessions, i', j, now) == maxDuration
    {
      var segs := sessions[i].segments;
      for j := 0 to |segs|
        invariant maxDuration >= 0
        invariant forall i', j' :: i' < i && LiveAt(sessions, i', j') ==> SpanAt(sessions, i', j', now) <= maxDuration
        invariant forall j' :: 0 <= j' < j && !segs[j'].IsDeleted() ==> SpanAt(sessions, i, j', now) <= maxDuration
        invariant maxDuration == 0 || exists i', j' :: i' <= i && LiveAt(sessions, i', j') && SpanAt(sessions, i', j', now) == maxDuration
      {
        if !segs[j].IsDeleted() {
          var dur := segs[j].EndOr(now) - segs[j].start;
          if dur > maxDuration {
            maxDuration := dur;
          }
        }
      }
    }
  }

  datatype DayStats = DayStats(workTime: int, breakTime: int, breakCount: nat, maxDuration: int)

  /**
   * dailyStats: the day's work (sessions created that day), break time with
   * the default one-minute threshold and midnight day start, pauses and the
   * longest segment.
   */
  method DailyStats(filtered: seq<Session>, targetDate: int, now: int, tz: int) returns (st: DayStats)
    ensures st.workTime == Metrics.DailyTotal(filtered, targetDate, now, tz)
    ensures st.breakTime == Metrics.BreakTimeSpec(filtered, 60000, 0, now, tz)
    ensures st.breakCount == Metrics.BreakCount(filtered)
    ensures st.maxDuration >= 0
    ensures forall i, j :: LiveAt(filtered, i, j) ==> SpanAt(filtered, i, j, now) <= st.maxDuration
    ensures st.maxDuration == 0
      || exists i, j :: LiveAt(filtered, i, j) && SpanAt(filtered, i, j, now) == st.maxDuration
  {
    var breakTime := Metrics.BreakTime(filtered, 60000, 0, now, tz);
    var maxDuration := MaxLiveDuration(filtered, now);
    st := DayStats(Metrics.DailyTotal(filtered, targetDate, now, tz), breakTime, Metrics.BreakCount(filtered), maxDuration);
  }

  /** `filteredSessions.filter(s => s.name === activeTaskName)`: every session with the name, in order. */
  function Named(sessions: seq<Session>, name: string): (r: seq<Session>)
    ensures forall i :: 0 <= i < |r| ==> r[i].name == name
    ensures forall x :: x in r <==> x in sessions && x.name == name
    decreases |sessions|
  {
    if |sessions| == 0 then []
    else
      var p := sessions[..|sessions| - 1];
      var prev := Named(p, name);
      assert sessions == p + [sessions[|sessions| - 1]];
      if sessions[|sessions| - 1].name == name then prev + [sessions[|sessions| - 1]] else prev
  }

  /** The filter keeps the stored order: it distributes over concatenation. */
  lemma {:induction false} NamedAppend(a: seq<Session>, b: seq<Session>, name: string)
    ensures Named(a + b, name) == Named(a, name) + Named(b, name)
    decreases |b|
  {
    if |b| == 0 {
      assert a + b == a;
    } else {
      assert (a + b)[..|a + b| - 1] == a + b[..|b| - 1];
      NamedAppend(a, b[..|b| - 1], name);
    }
  }

  /**
   * selectedTaskStats: nothing while no task is highlighted; otherwise the
   * stats of the shown sessions carrying exactly that name.
   */
  method SelectedTaskStats(filtered: seq<Session>, activeTaskName: Option<string>, now: int, tz: int)
    returns (r: Option<DayStats>)
    ensures r.None? <==> activeTaskName.None? || activeTaskName.value == ""
    ensures r.Some? ==> var named := Named(filtered, activeTaskName.value);
      r.value.workTime == Metrics.SessionsWork(named, now)
      && r.value.breakTime == Metrics.BreakTimeSpec(named, 60000, 0, now, tz)
      && r.value.breakCount == Metrics.BreakCount(named)
      && (forall i, j :: LiveAt(named, i, j) ==> SpanAt(named, i, j, now) <= r.value.maxDuration)
      && (r.value.maxDuration == 0
          || exists i, j :: LiveAt(named, i, j) && SpanAt(named, i, j, now) == r.value.maxDuration)
  {
    if activeTaskName.None? || activeTaskName.value == "" {
      return None;
    }
    var named := Named(filtered, activeTaskName.value);
    var breakTime := Metrics.BreakTime(named, 60000, 0, now, tz);
    var maxDuration := MaxLiveDuration(named, now);
    r := Some(DayStats(Metrics.SessionsWork(named, now), breakTime, Metrics.BreakCount(named), maxDuration));
  }
}
