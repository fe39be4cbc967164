// The trash view of components/TrashModal.tsx: the segment trash gathered
// from the live sessions, the ordering of both lists, the group label of a
// trashed session and the duration shown for it.
module Trash {
  import opened Types
  import opened Sorting
  import opened Metrics
  import Palette

  /** One row of the segment trash: the segment and where it sits. */
  datatype TrashedSegment = TrashedSegment(
    segment: TimeSegment,
    originalSessionId: string,
    originalIndex: nat,
    sessionName: string)

  /** The row for segment `k` of `session`. */
  function EntryAt(session: Session, k: nat): TrashedSegment
    requires k < |session.segments|
  {
    TrashedSegment(session.segments[k], session.id, k, session.name)
  }

  /** The rows for the trashed segments among the first `n` of `session`, in index order. */
  function EntriesUpTo(session: Session, n: nat): (r: seq<TrashedSegment>)
    requires n <= |session.segments|
    decreases n
  {
    if n == 0 then []
    else if session.segments[n - 1].IsDeleted() then EntriesUpTo(session, n - 1) + [EntryAt(session, n - 1)]
    else EntriesUpTo(session, n - 1)
  }

  /** The rows of one session (the inner map-then-filter). */
  function SessionEntries(session: Session): seq<TrashedSegment>
  {
    EntriesUpTo(session, |session.segments|)
  }

  /** The flatMap over the sessions, before sorting. */
  function CollectEntries(sessions: seq<Session>): seq<TrashedSegment>
    decreases |sessions|
  {
    if |sessions| == 0 then []
    else CollectEntries(sessions[..|sessions| - 1]) + SessionEntries(sessions[|sessions| - 1])
  }

  /** `(b.deletedAt || 0) - (a.deletedAt || 0)`: newest deletion first. */
  function DeletedAtOrZero(deletedAt: Option<int>): int
  {
    if deletedAt.Some? then deletedAt.value else 0
  }

  function NewestDeletedFirst(e: TrashedSegment): int { 0 - DeletedAtOrZero(e.segment.deletedAt) }

  /** deletedSegments: every trashed segment of the live sessions, newest deletion first. */
  function DeletedSegments(activeSessions: seq<Session>): seq<TrashedSegment>
  {
    SortBy(CollectEntries(activeSessions), NewestDeletedFirst)
  }

  /** The row names segment `k` of a session with that id, and that segment is the row's. */
  predicate Locates(sessions: seq<Session>, e: TrashedSegment)
  {
    exists j :: 0 <= j < |sessions| && LocatedIn(sessions[j], e)
  }

  predicate LocatedIn(session: Session, e: TrashedSegment)
  {
    session.id == e.originalSessionId && session.name == e.sessionName
    && e.originalIndex < |session.segments| && session.segments[e.originalIndex] == e.segment
  }

  /** Segment `k` of session `j` is in the segment trash. */
  predicate TrashedAt(sessions: seq<Session>, j: int, k: int)
  {
    0 <= j < |sessions| && 0 <= k < |sessions[j].segments| && sessions[j].segments[k].IsDeleted()
  }

  lemma {:induction false} EntriesUpToMeaning(session: Session, n: nat, e: TrashedSegment)
    requires n <= |session.segments|
    ensures e in EntriesUpTo(session, n) <==>
      e.originalIndex < n && LocatedIn(session, e) && e.segment.IsDeleted()
    decreases n
  {
    if n > 0 {
      EntriesUpToMeaning(session, n - 1, e);
    }
  }

  lemma {:induction false} CollectEntriesMeaning(sessions: seq<Session>, e: TrashedSegment)
    ensures e in CollectEntries(sessions) <==> Locates(sessions, e) && e.segment.IsDeleted()
    decreases |sessions|
  {
    if |sessions| > 0 {
      var p := sessions[..|sessions| - 1];
      var last := sessions[|sessions| - 1];
      CollectEntriesMeaning(p, e);
      EntriesUpToMeaning(last, |last.segments|, e);
      if Locates(sessions, e) && e.segment.IsDeleted() {
        var j :| 0 <= j < |sessions| && LocatedIn(sessions[j], e);
        if j < |p| {
          assert p[j] == sessions[j];
        }
      }
      if Locates(p, e) {
        var j :| 0 <= j < |p| && LocatedIn(p[j], e);
        assert sessions[j] == p[j];
      }
    }
  }

  /** How many of `segs` are in the segment trash. */
  function TrashedIn(segs: seq<TimeSegment>): nat
    decreases |segs|
  {
    if |segs| == 0 then 0
    else TrashedIn(segs[..|segs| - 1]) + (if segs[|segs| - 1].IsDeleted() then 1 else 0)
  }

  /** How many segments of all the sessions are in the segment trash. */
  function TrashedCount(sessions: seq<Session>): nat
    decreases |sessions|
  {
    if |sessions| == 0 then 0
    else TrashedCount(sessions[..|sessions| - 1]) + TrashedIn(sessions[|sessions| - 1].segments)
  }

  /** One row per trashed segment among the first `n`. */
  lemma {:induction false} EntriesUpToCount(session: Session, n: nat)
    requires n <= |session.segments|
    ensures |EntriesUpTo(session, n)| == TrashedIn(session.segments[..n])
    decreases n
  {
    if n > 0 {
      EntriesUpToCount(session, n - 1);
      assert session.segments[..n][..n - 1] == session.segments[..n - 1];
    }
  }

  /** One collected row per trashed segment of the sessions. */
  lemma {:induction false} CollectEntriesCount(sessions: seq<Session>)
    ensures |CollectEntries(sessions)| == TrashedCount(sessions)
    decreases |sessions|
  {
    if |sessions| > 0 {
      var last := sessions[|sessions| - 1];
      CollectEntriesCount(sessions[..|sessions| - 1]);
      EntriesUpToCount(last, |last.segments|);
      assert last.segments[..|last.segments|] == last.segments;
    }
  }

  /**
   * The segment trash holds exactly the trashed segments of the sessions
   * passed in; each row names the session and index where its segment sits,
   * and the rows come newest deletion first. There is one row per trashed
   * segment, so the tab's count is the number of trashed segments.
   */
  lemma DeletedSegmentsMeaning(activeSessions: seq<Session>)
    ensures forall e :: e in DeletedSegments(activeSessions) ==>
      e.segment.IsDeleted() && Locates(activeSessions, e)
    ensures forall j, k :: TrashedAt(activeSessions, j, k) ==> EntryAt(activeSessions[j], k) in DeletedSegments(activeSessions)
    ensures forall i, j :: 0 <= i < j < |DeletedSegments(activeSessions)| ==>
      DeletedAtOrZero(DeletedSegments(activeSessions)[i].segment.deletedAt)
      >= DeletedAtOrZero(DeletedSegments(activeSessions)[j].segment.deletedAt)
    ensures multiset(DeletedSegments(activeSessions)) == multiset(CollectEntries(activeSessions))
    ensures |DeletedSegments(activeSessions)| == TrashedCount(activeSessions)
  {
    var all := CollectEntries(activeSessions);
    var r := DeletedSegments(activeSessions);
    CollectEntriesCount(activeSessions);
    forall e | e in r
      ensures e.segment.IsDeleted() && Locates(activeSessions, e)
    {
      SortByMembers(all, NewestDeletedFirst, e);
      CollectEntriesMeaning(activeSessions, e);
    }
    forall j, k | TrashedAt(activeSessions, j, k)
      ensures EntryAt(activeSessions[j], k) in r
    {
      var e := EntryAt(activeSessions[j], k);
      assert LocatedIn(activeSessions[j], e);
      CollectEntriesMeaning(activeSessions, e);
      SortByMembers(all, NewestDeletedFirst, e);
    }
    forall i, j | 0 <= i < j < |r|
      ensures DeletedAtOrZero(r[i].segment.deletedAt) >= DeletedAtOrZero(r[j].segment.deletedAt)
    {
      assert NewestDeletedFirst(r[i]) <= NewestDeletedFirst(r[j]);
    }
  }

  // --- the session trash ---------------------------------------------------

  function SessionNewestDeletedFirst(s: Session): int { 0 - DeletedAtOrZero(s.deletedAt) }

  /** The trashed sessions as listed: a permutation, newest deletion first. */
  function ListedSessions(deletedSessions: seq<Session>): (r: seq<Session>)
    ensures multiset(r) == multiset(deletedSessions)
    ensures forall i, j :: 0 <= i < j < |r| ==> DeletedAtOrZero(r[i].deletedAt) >= DeletedAtOrZero(r[j].deletedAt)
  {
    var r := SortBy(deletedSessions, SessionNewestDeletedFirst);
    assert forall i, j :: 0 <= i < j < |r| ==> SessionNewestDeletedFirst(r[i]) <= SessionNewestDeletedFirst(r[j]);
    r
  }

  /** The label group: the first group with the session's id, else '미지정' in slate. */
  function LabelGroup(groups: seq<Group>, groupId: string): (g: Group)
    ensures (exists i :: 0 <= i < |groups| && groups[i].id == groupId) ==>
      exists i :: 0 <= i < |groups| && g == groups[i] && g.id == groupId
        && forall k :: 0 <= k < i ==> groups[k].id != groupId
    ensures (forall i :: 0 <= i < |groups| ==> groups[i].id != groupId) ==> g.name == "미지정" && g.color == "slate"
    decreases |groups|
  {
    if |groups| == 0 then Group("", "미지정", "slate")
    else if groups[0].id == groupId then groups[0]
    else
      var g := LabelGroup(groups[1..], groupId);
      assert forall i :: 1 <= i < |groups| ==> groups[i] == groups[1..][i - 1];
      assert (exists i :: 0 <= i < |groups| && groups[i].id == groupId)
        ==> exists i :: 0 <= i < |groups[1..]| && groups[1..][i].id == groupId;
      g
  }

  /** A session whose group is gone is labelled '미지정' with the slate classes. */
  lemma UnknownGroupIsSlate(groups: seq<Group>, groupId: string)
    requires forall i :: 0 <= i < |groups| ==> groups[i].id != groupId
    ensures LabelGroup(groups, groupId).name == "미지정"
    ensures Palette.GroupStyle(LabelGroup(groups, groupId).color) == Palette.SlateStyle
  {
  }

  /** The shown duration: every segment, trashed or not, with an open one running to `now`. */
  function ShownDuration(s: Session, now: int): int
  {
    SpanSum(s.segments, now)
  }

  /** The time of the trashed segments alone. */
  function TrashedTime(segs: seq<TimeSegment>, now: int): int
    decreases |segs|
  {
    if |segs| == 0 then 0
    else
      var last := segs[|segs| - 1];
      TrashedTime(segs[..|segs| - 1], now) + (if last.IsDeleted() then last.EndOr(now) - last.start else 0)
  }

  /** The shown duration is the work total plus the time of the trashed segments. */
  lemma {:induction false} ShownDurationSplit(s: Session, now: int)
    ensures ShownDuration(s, now) == TotalDuration(s.segments, now) + TrashedTime(s.segments, now)
  {
    SpanSplit(s.segments, now);
  }

  lemma {:induction false} SpanSplit(segs: seq<TimeSegment>, now: int)
    ensures SpanSum(segs, now) == TotalDuration(segs, now) + TrashedTime(segs, now)
    decreases |segs|
  {
    if |segs| > 0 {
      SpanSplit(segs[..|segs| - 1], now);
    }
  }

  /** With nothing in the segment trash the shown duration is the work total. */
  lemma {:induction false} ShownDurationWithoutTrash(s: Session, now: int)
    requires forall i :: 0 <= i < |s.segments| ==> !s.segments[i].IsDeleted()
    ensures ShownDuration(s, now) == TotalDuration(s.segments, now)
  {
    ShownDurationSplit(s, now);
    NoTrashedTime(s.segments, now);
  }

  lemma {:induction false} NoTrashedTime(segs: seq<TimeSegment>, now: int)
    requires forall i :: 0 <= i < |segs| ==> !segs[i].IsDeleted()
    ensures TrashedTime(segs, now) == 0
    decreases |segs|
  {
    if |segs| > 0 {
      NoTrashedTime(segs[..|segs| - 1], now);
    }
  }
}
