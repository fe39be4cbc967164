// The first stage shared by TimetableList.tsx and DailyTimeTable.tsx: every
// segment of the shown sessions is clipped to the [startTime, endTime]
// window and kept when something of it is left, then the items are sorted
// by their clipped start.
module Clip {
  import opened Types
  import opened Sorting

  /** A clipped segment together with where it came from. */
  datatype Item = Item(
    start: int,
    end: int,
    session: Session,
    segmentIndex: nat,
    hardStop: bool,
    deleted: bool,
    isDeletedGap: bool,
    originalEndNull: bool)

  /**
   * Segment `idx` of `s` clipped to the window: the start is raised to
   * `startTime`, the end (or `now` for an open segment) lowered to `endTime`.
   */
  function ItemOf(s: Session, idx: nat, startTime: int, endTime: int, now: int): Option<Item>
    requires idx < |s.segments|
  {
    var seg := s.segments[idx];
    var st := if seg.start > startTime then seg.start else startTime;
    var e := if seg.end.Some? then (if seg.end.value < endTime then seg.end.value else endTime)
             else (if now < endTime then now else endTime);
    if e > st then
      Some(Item(st, e, s, idx, seg.IsHardStop(), seg.IsDeleted(), seg.isDeletedGap, seg.end.None?))
    else None
  }

  /** The properties every kept item has. */
  predicate WellClipped(it: Item, startTime: int, endTime: int)
  {
    startTime <= it.start < it.end <= endTime
    && it.segmentIndex < |it.session.segments|
    && var seg := it.session.segments[it.segmentIndex];
    it.start == (if seg.start > startTime then seg.start else startTime)
    && it.hardStop == seg.IsHardStop()
    && it.deleted == seg.IsDeleted()
    && it.isDeletedGap == seg.isDeletedGap
    && it.originalEndNull == seg.end.None?
  }

  /** Items of the first `n` segments of `s`, in stored order. */
  function SessionItems(s: Session, n: nat, startTime: int, endTime: int, now: int): (r: seq<Item>)
    requires n <= |s.segments|
    ensures forall i :: 0 <= i < |r| ==> WellClipped(r[i], startTime, endTime) && r[i].session == s
    decreases n
  {
    if n == 0 then []
    else
      var prev := SessionItems(s, n - 1, startTime, endTime, now);
      match ItemOf(s, n - 1, startTime, endTime, now)
      case Some(it) => prev + [it]
      case None => prev
  }

  /** Items of every session in order (the nested forEach that pushes them). */
  function AllItems(sessions: seq<Session>, startTime: int, endTime: int, now: int): (r: seq<Item>)
    ensures forall i :: 0 <= i < |r| ==> WellClipped(r[i], startTime, endTime) && r[i].session in sessions
    decreases |sessions|
  {
    if |sessions| == 0 then []
    else
      var last := sessions[|sessions| - 1];
      AllItems(sessions[..|sessions| - 1], startTime, endTime, now)
        + SessionItems(last, |last.segments|, startTime, endTime, now)
  }

  function ItemStart(it: Item): int { it.start }

  /** The items, sorted by clipped start: what the scans walk through. */
  function SortedItems(sessions: seq<Session>, startTime: int, endTime: int, now: int): (r: seq<Item>)
    ensures forall i :: 0 <= i < |r| ==> WellClipped(r[i], startTime, endTime) && r[i].session in sessions
    ensures forall i, j :: 0 <= i < j < |r| ==> r[i].start <= r[j].start
  {
    var all := AllItems(sessions, startTime, endTime, now);
    var r := SortBy(all, ItemStart);
    PermutedItemsKeep(all, r, sessions, startTime, endTime);
    r
  }

  /** Reordering the items keeps each one clipped and from one of the sessions. */
  lemma PermutedItemsKeep(all: seq<Item>, r: seq<Item>, sessions: seq<Session>, startTime: int, endTime: int)
    requires multiset(r) == multiset(all)
    requires forall i :: 0 <= i < |all| ==> WellClipped(all[i], startTime, endTime) && all[i].session in sessions
    ensures forall i :: 0 <= i < |r| ==> WellClipped(r[i], startTime, endTime) && r[i].session in sessions
  {
    forall i | 0 <= i < |r| ensures WellClipped(r[i], startTime, endTime) && r[i].session in sessions
    {
      assert r[i] in multiset(all);
      var j :| 0 <= j < |all| && all[j] == r[i];
    }
  }

  /** The clipping loops: one pass over the sessions and their segments. */
  method CollectItems(sessions: seq<Session>, startTime: int, endTime: int, now: int) returns (items: seq<Item>)
    ensures items == AllItems(sessions, startTime, endTime, now)
  {
    items := [];
    for k := 0 to |sessions|
      invariant items == AllItems(sessions[..k], startTime, endTime, now)
    {
      var session := sessions[k];
      ghost var before := items;
      for idx := 0 to |session.segments|
        invariant items == before + SessionItems(session, idx, startTime, endTime, now)
      {
        var seg := session.segments[idx];
        var s := if seg.start > startTime then seg.start else startTime;
        var e := if seg.end.Some? then (if seg.end.value < endTime then seg.end.value else endTime)
                 else (if now < endTime then now else endTime);
        if e > s {
          items := items + [Item(s, e, session, idx, seg.IsHardStop(), seg.IsDeleted(), seg.isDeletedGap, seg.end.None?)];
        }
      }
      assert sessions[..k + 1][..k] == sessions[..k];
    }
    assert sessions[..|sessions|] == sessions;
  }

  /** A segment that reaches into the window from inside it is kept, and only such segments are. */
  lemma ItemKeptIff(s: Session, idx: nat, startTime: int, endTime: int, now: int)
    requires idx < |s.segments|
    ensures ItemOf(s, idx, startTime, endTime, now).Some? <==>
      (var seg := s.segments[idx];
       seg.start < endTime && startTime < endTime && seg.EndOr(now) > startTime && seg.EndOr(now) > seg.start)
  {
  }
}
