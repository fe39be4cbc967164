// The session history of App.tsx: naming a new session, the edits of the
// history list (move to the trash, restore, delete for good, empty the
// trash), the filtered history list and its grouping by work day.
module History {
  import opened Types
  import opened Text
  import opened Sorting
  import opened Metrics

  // --- auto-naming ---------------------------------------------------------------------

  const BaseName: string := "새로운 작업"

  /** `parseInt` of the last word, kept only when `${num}` gives the word back. */
  function ParseInt(word: string): Option<int>
  {
    if |word| > 0 && word[0] == '-' then
      match ParseNat(word[1..])
      case Some(n) => if n > 0 then Some(0 - n) else None
      case None => None
    else
      match ParseNat(word)
      case Some(n) => Some(n)
      case None => None
  }

  /** The word is read as `n` exactly when it is the rendering of `n`. */
  lemma ParseIntMeaning(word: string, n: int)
    ensures ParseInt(word) == Some(n) <==> word == IntToString(n)
  {
    if n < 0 {
      ParseNegativeMeaning(word, -n);
    } else {
      ParseNonNegativeMeaning(word, n);
    }
  }

  lemma ParseNegativeMeaning(word: string, m: nat)
    requires m > 0
    ensures ParseInt(word) == Some(0 - m) <==> word == "-" + NatToString(m)
  {
    var w := "-" + NatToString(m);
    assert w[0] == '-' && w[1..] == NatToString(m);
    ParseNatRoundTrip(m, NatToString(m));
    if ParseInt(word) == Some(0 - m) {
      assert |word| > 0 && word[0] == '-';
      ParseNatRoundTrip(m, word[1..]);
      assert word == [word[0]] + word[1..];
    }
  }

  lemma ParseNonNegativeMeaning(word: string, n: nat)
    ensures ParseInt(word) == Some(n) <==> word == NatToString(n)
  {
    ParseNatRoundTrip(n, word);
    NatToStringShape(n);
    if |word| > 0 && word[0] == '-' {
      assert word != NatToString(n) by {
        assert IsDigit(NatToString(n)[0]);
      }
    }
  }

  /**
   * The number `n` of a name that is exactly `'새로운 작업 ' + n`, as the
   * startsWith / split / parseInt test of handleStart finds it.
   */
  function NameSuffix(name: string): Option<int>
  {
    var prefix := BaseName + " ";
    if StartsWith(name, prefix) then ParseInt(name[|prefix|..]) else None
  }

  /** A name carries the number `n` exactly when it is the base name, a space and `${n}`. */
  lemma NameSuffixMeaning(name: string, n: int)
    ensures NameSuffix(name) == Some(n) <==> name == BaseName + " " + IntToString(n)
  {
    var prefix := BaseName + " ";
    var full := prefix + IntToString(n);
    assert full[..|prefix|] == prefix && full[|prefix|..] == IntToString(n);
    if StartsWith(name, prefix) {
      var rest := name[|prefix|..];
      assert name == prefix + rest;
      ParseIntMeaning(rest, n);
    } else {
      assert name != full;
    }
  }

  /** `${baseName} ${k}`: the base name numbered `k`. */
  function NumberedName(k: nat): string
  {
    BaseName + " " + NatToString(k)
  }

  /** The largest number carried by a history name, or 0 (`maxNum`). */
  function MaxSuffix(history: seq<Session>): (m: int)
    ensures m >= 0
    decreases |history|
  {
    if |history| == 0 then 0
    else
      var m := MaxSuffix(history[..|history| - 1]);
      match NameSuffix(history[|history| - 1].name)
      case Some(n) => if n > m then n else m
      case None => m
  }

  /** Every number in the history is at most `maxNum`, and `maxNum` is 0 or one of them. */
  lemma {:induction false} MaxSuffixBounds(history: seq<Session>)
    ensures forall i :: 0 <= i < |history| && NameSuffix(history[i].name).Some? ==>
      NameSuffix(history[i].name).value <= MaxSuffix(history)
    ensures MaxSuffix(history) == 0 ||
      exists i :: 0 <= i < |history| && NameSuffix(history[i].name) == Some(MaxSuffix(history))
    decreases |history|
  {
    if |history| > 0 {
      var p := history[..|history| - 1];
      MaxSuffixBounds(p);
      assert forall i :: 0 <= i < |p| ==> p[i] == history[i];
    }
  }

  /** Whether handleStart numbers the name: the trimmed input is blank or the bare base name. */
  predicate NeedsNumber(taskNameInput: string)
  {
    Trim(taskNameInput) == "" || Trim(taskNameInput) == BaseName
  }

  /**
   * The name handleStart gives a session from idle: the trimmed input, or,
   * when that needs a number, the base name numbered one past the largest
   * number in the history.
   */
  function StartName(taskNameInput: string, sessionHistory: seq<Session>): string
  {
    if NeedsNumber(taskNameInput) then NumberedName(MaxSuffix(sessionHistory) + 1)
    else Trim(taskNameInput)
  }

  /** handleStart's naming: the trimmed input, or the base name numbered past the history's largest number. */
  method AutoName(taskNameInput: string, sessionHistory: seq<Session>) returns (taskName: string)
    ensures taskName == StartName(taskNameInput, sessionHistory)
  {
    if NeedsNumber(taskNameInput) {
      var maxNum := MaxNumber(sessionHistory);
      taskName := NumberedName(maxNum + 1);
    } else {
      taskName := Trim(taskNameInput);
    }
  }

  /** The loop of handleStart that finds the largest number carried by a history name (0 when none). */
  method MaxNumber(sessionHistory: seq<Session>) returns (maxNum: int)
    ensures maxNum == MaxSuffix(sessionHistory)
  {
    maxNum := 0;
    for i := 0 to |sessionHistory|
      invariant maxNum == MaxSuffix(sessionHistory[..i])
    {
      MaxSuffixSnoc(sessionHistory, i);
      var num := NameSuffix(sessionHistory[i].name);
      if num.Some? && num.value > maxNum {
        maxNum := num.value;
      }
    }
    assert sessionHistory[..|sessionHistory|] == sessionHistory;
  }

  lemma MaxSuffixSnoc(history: seq<Session>, i: nat)
    requires i < |history|
    ensures MaxSuffix(history[..i + 1]) ==
      match NameSuffix(history[i].name)
      case Some(n) => if n > MaxSuffix(history[..i]) then n else MaxSuffix(history[..i])
      case None => MaxSuffix(history[..i])
  {
    assert history[..i + 1][..i] == history[..i];
  }

  /** The base name numbered `k` carries the number `k`. */
  lemma NumberedNameSuffix(k: nat)
    ensures NameSuffix(NumberedName(k)) == Some(k)
  {
    assert IntToString(k) == NatToString(k);
    NameSuffixMeaning(BaseName + " " + NatToString(k), k);
  }

  /** A numbered auto name is never already in the history, and it is numbered from 1. */
  lemma AutoNameIsFresh(sessionHistory: seq<Session>)
    ensures forall i :: 0 <= i < |sessionHistory| ==>
      sessionHistory[i].name != NumberedName(MaxSuffix(sessionHistory) + 1)
    ensures MaxSuffix(sessionHistory) + 1 >= 1
  {
    forall i | 0 <= i < |sessionHistory|
      ensures sessionHistory[i].name != NumberedName(MaxSuffix(sessionHistory) + 1)
    {
      SuffixAtMostMax(sessionHistory, i);
      NumberAboveIsNew(sessionHistory[i].name, MaxSuffix(sessionHistory), MaxSuffix(sessionHistory) + 1);
    }
  }

  lemma SuffixAtMostMax(history: seq<Session>, i: int)
    requires 0 <= i < |history|
    ensures NameSuffix(history[i].name).Some? ==> NameSuffix(history[i].name).value <= MaxSuffix(history)
  {
    MaxSuffixBounds(history);
  }

  /** A name whose number (if any) is at most `m` is not the base name numbered above `m`. */
  lemma NumberAboveIsNew(name: string, m: int, k: nat)
    requires NameSuffix(name).Some? ==> NameSuffix(name).value <= m
    requires k > m
    ensures name != NumberedName(k)
  {
    NumberedNameSuffix(k);
  }

  // --- the history list ------------------------------------------------------------------

  /** `prev.map(s => s.id === id ? updated : s)`. */
  function ReplaceById(history: seq<Session>, id: string, updated: Session): (r: seq<Session>)
    ensures |r| == |history|
    ensures forall i :: 0 <= i < |history| ==> r[i] == if history[i].id == id then updated else history[i]
  {
    seq(|history|, i requires 0 <= i < |history| => if history[i].id == id then updated else history[i])
  }

  /** `prev.filter(s => s.id !== id)`. */
  function RemoveById(history: seq<Session>, id: string): (r: seq<Session>)
    ensures forall s :: s in r <==> s in history && s.id != id
    decreases |history|
  {
    if |history| == 0 then []
    else
      var p := RemoveById(history[..|history| - 1], id);
      var last := history[|history| - 1];
      assert history == history[..|history| - 1] + [last];
      if last.id == id then p else p + [last]
  }

  /** activeHistory: the sessions that are not in the trash, in order. */
  function ActiveOf(history: seq<Session>): (r: seq<Session>)
    ensures forall s :: s in r <==> s in history && s.deletedAt.None?
    decreases |history|
  {
    if |history| == 0 then []
    else
      var p := ActiveOf(history[..|history| - 1]);
      var last := history[|history| - 1];
      assert history == history[..|history| - 1] + [last];
      if last.deletedAt.None? then p + [last] else p
  }

  /** deletedHistory: the sessions in the trash, in order. */
  function TrashOf(history: seq<Session>): (r: seq<Session>)
    ensures forall s :: s in r <==> s in history && s.deletedAt.Some?
    decreases |history|
  {
    if |history| == 0 then []
    else
      var p := TrashOf(history[..|history| - 1]);
      var last := history[|history| - 1];
      assert history == history[..|history| - 1] + [last];
      if last.deletedAt.Some? then p + [last] else p
  }

  /** Every session is either active or in the trash, never both. */
  lemma {:induction false} ActiveAndTrashPartition(history: seq<Session>)
    ensures |ActiveOf(history)| + |TrashOf(history)| == |history|
    decreases |history|
  {
    if |history| > 0 {
      ActiveAndTrashPartition(history[..|history| - 1]);
    }
  }

  /** Session ids are unique in the history. */
  predicate UniqueIds(history: seq<Session>)
  {
    forall i, j :: 0 <= i < j < |history| ==> history[i].id != history[j].id
  }

  /**
   * handleDeleteRequest on a history session followed by restoreSession
   * gives the history back, when ids are unique and it was not in the trash.
   */
  lemma TrashThenRestoreSession(history: seq<Session>, id: string, now: int)
    requires UniqueIds(history)
    requires FindById(history, id).Some? && FindById(history, id).value.deletedAt.None?
    ensures var s := FindById(history, id).value;
      var trashed := ReplaceById(history, id, s.(deletedAt := Some(now)));
      FindById(trashed, id) == Some(s.(deletedAt := Some(now)))
      && ReplaceById(trashed, id, s.(deletedAt := Some(now)).(deletedAt := None)) == history
  {
    var s := FindById(history, id).value;
    var trashed := ReplaceById(history, id, s.(deletedAt := Some(now)));
    var k :| 0 <= k < |history| && history[k] == s;
    assert trashed[k] == s.(deletedAt := Some(now));
    var back := ReplaceById(trashed, id, s.(deletedAt := None));
    forall i | 0 <= i < |history| ensures back[i] == history[i] {
      if history[i].id == id {
        assert i == k;
      }
    }
  }

  /**
   * emptyTrash leaves a history without trash, so emptying it again changes
   * nothing: the active part of an active history is the whole of it.
   */
  lemma {:induction false} EmptyTrashIdempotent(history: seq<Session>)
    ensures ActiveOf(ActiveOf(history)) == ActiveOf(history)
    ensures TrashOf(ActiveOf(history)) == []
    decreases |history|
  {
    if |history| > 0 {
      var p := history[..|history| - 1];
      var last := history[|history| - 1];
      EmptyTrashIdempotent(p);
      var a := ActiveOf(p);
      if last.deletedAt.None? {
        assert ActiveOf(history) == a + [last];
        assert (a + [last])[..|a + [last]| - 1] == a;
      }
    }
  }

  // --- the filtered history ------------------------------------------------------------------

  /** The history's date range: the chosen first and last days (`None` for an empty string). */
  datatype DateRange = DateRange(start: Option<int>, end: Option<int>)

  /** `s.name.toLowerCase().includes(searchQuery.toLowerCase())`. */
  predicate MatchesSearch(s: Session, searchQuery: string)
  {
    Contains(LowerAscii(s.name), LowerAscii(searchQuery))
  }

  /** The group filter: 'all', the sessions on hold, or one group id. */
  predicate MatchesGroup(s: Session, historyFilterGroupId: string)
  {
    if historyFilterGroupId == "all" then true
    else if historyFilterGroupId == "on-hold" then s.completionStatus == Some(OnHold)
    else s.groupId == historyFilterGroupId
  }

  /**
   * The date test as written: each chosen date string is read as midnight
   * UTC and then moved to the local midnight (or last millisecond) of the
   * local day that instant falls on.
   */
  predicate MatchesDateAsWritten(createdAt: int, range: DateRange, tz: int)
  {
    var sessionDate := DayStart(LocalDay(createdAt, tz), tz);
    (range.start.None? || sessionDate >= DayStart(LocalDay(range.start.value * DAY, tz), tz))
    && (range.end.None? || sessionDate <= DayStart(LocalDay(range.end.value * DAY, tz), tz) + DAY - 1)
  }

  /** The date test with the chosen dates read as local dates. */
  predicate MatchesDate(createdAt: int, range: DateRange, tz: int)
  {
    var sessionDate := DayStart(LocalDay(createdAt, tz), tz);
    (range.start.None? || sessionDate >= DayStart(range.start.value, tz))
    && (range.end.None? || sessionDate <= DayStart(range.end.value, tz) + DAY - 1)
  }

  /** A session matches the range exactly when its local date lies between the chosen dates. */
  lemma MatchesDateMeaning(createdAt: int, range: DateRange, tz: int)
    ensures MatchesDate(createdAt, range, tz) <==>
      (range.start.None? || range.start.value <= LocalDay(createdAt, tz))
      && (range.end.None? || LocalDay(createdAt, tz) <= range.end.value)
  {
  }

  /** East of UTC (and at UTC) the test as written agrees with it. */
  lemma MatchesDateAsWrittenEastOfUtc(createdAt: int, range: DateRange, tz: int)
    requires 0 <= tz < DAY
    ensures MatchesDateAsWritten(createdAt, range, tz) <==> MatchesDate(createdAt, range, tz)
  {
    if range.start.Some? {
      assert LocalDay(range.start.value * DAY, tz) == range.start.value;
    }
    if range.end.Some? {
      assert LocalDay(range.end.value * DAY, tz) == range.end.value;
    }
  }

  /**
   * West of UTC (here UTC-5) the test as written keeps a session from the
   * day before the chosen range: a range of 2024-10-04 (day 20000) alone
   * keeps a session from noon of 2024-10-03.
   */
  lemma MatchesDateAsWrittenShiftsWestOfUtc()
    ensures var tz := -5 * HOUR;
      var createdAt := DayStart(19999, tz) + 12 * HOUR;
      var range := DateRange(Some(20000), Some(20000));
      LocalDay(createdAt, tz) == 19999 && MatchesDateAsWritten(createdAt, range, tz) && !MatchesDate(createdAt, range, tz)
  {
    var tz := -5 * HOUR;
    assert LocalDay(20000 * DAY, tz) == 19999;
  }

  predicate Matches(s: Session, searchQuery: string, historyFilterGroupId: string, range: DateRange, tz: int)
  {
    MatchesSearch(s, searchQuery) && MatchesGroup(s, historyFilterGroupId) && MatchesDate(s.createdAt, range, tz)
  }

  function Filtered(sessions: seq<Session>, searchQuery: string, historyFilterGroupId: string, range: DateRange,
                    tz: int): (r: seq<Session>)
    ensures |r| <= |sessions|
    ensures forall s :: s in r <==> s in sessions && Matches(s, searchQuery, historyFilterGroupId, range, tz)
    decreases |sessions|
  {
    if |sessions| == 0 then []
    else
      var p := Filtered(sessions[..|sessions| - 1], searchQuery, historyFilterGroupId, range, tz);
      var last := sessions[|sessions| - 1];
      assert sessions == sessions[..|sessions| - 1] + [last];
      if Matches(last, searchQuery, historyFilterGroupId, range, tz) then p + [last] else p
  }

  /**
   * filteredHistory: the current session (if any) ahead of the active
   * history, keeping the sessions that match the search, the group filter
   * and the date range.
   */
  function FilteredHistory(currentSession: Option<Session>, sessionHistory: seq<Session>, searchQuery: string,
                           historyFilterGroupId: string, range: DateRange, tz: int): seq<Session>
  {
    var combined := if currentSession.Some? then [currentSession.value] + ActiveOf(sessionHistory) else ActiveOf(sessionHistory);
    Filtered(combined, searchQuery, historyFilterGroupId, range, tz)
  }

  /** The list holds exactly the matching sessions that are current or not in the trash. */
  lemma FilteredHistoryMembers(currentSession: Option<Session>, sessionHistory: seq<Session>, searchQuery: string,
                               historyFilterGroupId: string, range: DateRange, tz: int, s: Session)
    ensures s in FilteredHistory(currentSession, sessionHistory, searchQuery, historyFilterGroupId, range, tz) <==>
      (currentSession == Some(s) || (s in sessionHistory && s.deletedAt.None?))
      && MatchesSearch(s, searchQuery) && MatchesGroup(s, historyFilterGroupId)
      && (range.start.None? || range.start.value <= LocalDay(s.createdAt, tz))
      && (range.end.None? || LocalDay(s.createdAt, tz) <= range.end.value)
  {
    MatchesDateMeaning(s.createdAt, range, tz);
  }

  /** An empty search matches every name. */
  lemma EmptySearchMatchesAll(s: Session)
    ensures MatchesSearch(s, "")
  {
    assert LowerAscii("") == "";
    assert StartsWith(LowerAscii(s.name), "");
  }

  // --- grouping by work day -------------------------------------------------------------------

  /** One day of the grouped history. */
  datatype HistoryGroup = HistoryGroup(day: int, sessions: seq<Session>, totalTime: int, breakTime: int)

  /** The work day a session belongs to (getAdjustedDateStr of its creation). */
  function DayOf(s: Session, dayStartHour: int, tz: int): int
  {
    AdjustedDay(s.createdAt, tz, dayStartHour)
  }

  /** The sessions of one work day, in order. */
  function OnDay(sessions: seq<Session>, day: int, dayStartHour: int, tz: int): seq<Session>
    decreases |sessions|
  {
    if |sessions| == 0 then []
    else
      var p := OnDay(sessions[..|sessions| - 1], day, dayStartHour, tz);
      if DayOf(sessions[|sessions| - 1], dayStartHour, tz) == day then p + [sessions[|sessions| - 1]] else p
  }

  /** `groups.find(g => g.dateStr === dateStr)`: the index of the first group of that day, or |groups|. */
  function FindDay(groups: seq<HistoryGroup>, day: int): (r: nat)
    ensures r <= |groups|
    ensures forall j :: 0 <= j < r ==> groups[j].day != day
    ensures r < |groups| ==> groups[r].day == day
    decreases |groups|
  {
    if |groups| == 0 then 0
    else if groups[0].day == day then 0
    else
      var r := FindDay(groups[1..], day);
      assert forall j :: 1 <= j < |groups| ==> groups[j] == groups[1..][j - 1];
      1 + r
  }

  /** One step of the forEach: into the day's group, opened at the end when there is none. */
  function AddSession(groups: seq<HistoryGroup>, s: Session, dayStartHour: int, now: int, tz: int): seq<HistoryGroup>
  {
    var day := DayOf(s, dayStartHour, tz);
    var i := FindDay(groups, day);
    var gs := if i == |groups| then groups + [HistoryGroup(day, [], 0, 0)] else groups;
    gs[i := gs[i].(sessions := gs[i].sessions + [s], totalTime := gs[i].totalTime + TotalDuration(s.segments, now))]
  }

  /** The groups after the forEach over `sessions`, before break times are set. */
  function Collect(sessions: seq<Session>, dayStartHour: int, now: int, tz: int): seq<HistoryGroup>
    decreases |sessions|
  {
    if |sessions| == 0 then []
    else AddSession(Collect(sessions[..|sessions| - 1], dayStartHour, now, tz), sessions[|sessions| - 1], dayStartHour, now, tz)
  }

  function GroupDay(g: HistoryGroup): int { g.day }

  function NewestFirst(g: HistoryGroup): int { -g.day }

  /** What the forEach builds for one day: all of its sessions, in order, and their summed time. */
  predicate Collected(g: HistoryGroup, sessions: seq<Session>, dayStartHour: int, now: int, tz: int)
  {
    g.sessions == OnDay(sessions, g.day, dayStartHour, tz) && g.sessions != []
    && g.totalTime == SessionsWork(g.sessions, now) && g.breakTime == 0
  }

  /** What the forEach has built after `sessions`: one group per day, each complete, none missing. */
  predicate CollectInv(g: seq<HistoryGroup>, sessions: seq<Session>, dayStartHour: int, now: int, tz: int)
  {
    DistinctKeys(g, GroupDay)
    && (forall i :: 0 <= i < |g| ==> Collected(g[i], sessions, dayStartHour, now, tz))
    && (forall k :: 0 <= k < |sessions| ==> FindDay(g, DayOf(sessions[k], dayStartHour, tz)) < |g|)
  }

  /** One step of the forEach keeps the invariant. */
  lemma AddSessionKeeps(g: seq<HistoryGroup>, sessions: seq<Session>, dayStartHour: int, now: int, tz: int)
    requires |sessions| > 0
    requires CollectInv(g, sessions[..|sessions| - 1], dayStartHour, now, tz)
    ensures CollectInv(AddSession(g, sessions[|sessions| - 1], dayStartHour, now, tz), sessions, dayStartHour, now, tz)
  {
    AddSessionCollects(g, sessions, dayStartHour, now, tz);
    AddSessionFinds(g, sessions, dayStartHour, now, tz);
  }

  /** After one step the days are still distinct and every group is still complete. */
  lemma AddSessionCollects(g: seq<HistoryGroup>, sessions: seq<Session>, dayStartHour: int, now: int, tz: int)
    requires |sessions| > 0
    requires CollectInv(g, sessions[..|sessions| - 1], dayStartHour, now, tz)
    ensures var r := AddSession(g, sessions[|sessions| - 1], dayStartHour, now, tz);
      DistinctKeys(r, GroupDay) && forall j :: 0 <= j < |r| ==> Collected(r[j], sessions, dayStartHour, now, tz)
  {
    var p := sessions[..|sessions| - 1];
    var s := sessions[|sessions| - 1];
    assert sessions == p + [s];
    var day := DayOf(s, dayStartHour, tz);
    var i := FindDay(g, day);
    var r := AddSession(g, s, dayStartHour, now, tz);
    if i == |g| {
      OnDayAbsent(p, day, dayStartHour, tz, g);
    }
    assert forall j :: 0 <= j < |r| && j != i ==> r[j] == g[j];
    assert DistinctKeys(r, GroupDay);
    forall j | 0 <= j < |r| ensures Collected(r[j], sessions, dayStartHour, now, tz) {
      if j == i {
        assert OnDay(sessions, day, dayStartHour, tz) == OnDay(p, day, dayStartHour, tz) + [s];
        SessionsWorkSnoc(r[j].sessions, now);
      } else {
        assert OnDay(sessions, g[j].day, dayStartHour, tz) == OnDay(p, g[j].day, dayStartHour, tz);
      }
    }
  }

  /** After one step every session seen so far, the new one included, finds its day's group. */
  lemma AddSessionFinds(g: seq<HistoryGroup>, sessions: seq<Session>, dayStartHour: int, now: int, tz: int)
    requires |sessions| > 0
    requires CollectInv(g, sessions[..|sessions| - 1], dayStartHour, now, tz)
    ensures var r := AddSession(g, sessions[|sessions| - 1], dayStartHour, now, tz);
      forall k :: 0 <= k < |sessions| ==> FindDay(r, DayOf(sessions[k], dayStartHour, tz)) < |r|
  {
    var p := sessions[..|sessions| - 1];
    var s := sessions[|sessions| - 1];
    var day := DayOf(s, dayStartHour, tz);
    var i := FindDay(g, day);
    var r := AddSession(g, s, dayStartHour, now, tz);
    assert forall j :: 0 <= j < |r| && j != i ==> r[j].day == g[j].day;
    forall k | 0 <= k < |sessions| ensures FindDay(r, DayOf(sessions[k], dayStartHour, tz)) < |r| {
      var d := DayOf(sessions[k], dayStartHour, tz);
      if k < |sessions| - 1 {
        assert p[k] == sessions[k];
        var m := FindDay(g, d);
        assert r[m].day == d;
      } else {
        assert r[i].day == day;
      }
    }
  }

  /**
   * The forEach opens one group per work day, each holding exactly that
   * day's sessions in order with their summed time, and every session's
   * day has its group.
   */
  lemma {:induction false} CollectMeaning(sessions: seq<Session>, dayStartHour: int, now: int, tz: int)
    ensures CollectInv(Collect(sessions, dayStartHour, now, tz), sessions, dayStartHour, now, tz)
    decreases |sessions|
  {
    if |sessions| > 0 {
      var p := sessions[..|sessions| - 1];
      CollectMeaning(p, dayStartHour, now, tz);
      AddSessionKeeps(Collect(p, dayStartHour, now, tz), sessions, dayStartHour, now, tz);
    }
  }

  /** A day with no group yet has no sessions so far. */
  lemma OnDayAbsent(p: seq<Session>, day: int, dayStartHour: int, tz: int, g: seq<HistoryGroup>)
    requires forall k :: 0 <= k < |p| ==> FindDay(g, DayOf(p[k], dayStartHour, tz)) < |g|
    requires FindDay(g, day) == |g|
    ensures OnDay(p, day, dayStartHour, tz) == []
  {
    forall k | 0 <= k < |p| ensures DayOf(p[k], dayStartHour, tz) != day {
    }
    OnDayNone(p, day, dayStartHour, tz);
  }

  lemma {:induction false} OnDayNone(p: seq<Session>, day: int, dayStartHour: int, tz: int)
    requires forall k :: 0 <= k < |p| ==> DayOf(p[k], dayStartHour, tz) != day
    ensures OnDay(p, day, dayStartHour, tz) == []
    decreases |p|
  {
    if |p| > 0 {
      OnDayNone(p[..|p| - 1], day, dayStartHour, tz);
    }
  }

  lemma SessionsWorkSnoc(ss: seq<Session>, now: int)
    requires |ss| > 0
    ensures SessionsWork(ss, now) == SessionsWork(ss[..|ss| - 1], now) + TotalDuration(ss[|ss| - 1].segments, now)
  {
  }

  /** The groups with their break times (calculateBreakTime over each day's sessions). */
  function WithBreaks(groups: seq<HistoryGroup>, dayStartHour: int, now: int, tz: int): (r: seq<HistoryGroup>)
    ensures |r| == |groups|
  {
    seq(|groups|, i requires 0 <= i < |groups| =>
      groups[i].(breakTime := BreakTimeSpec(groups[i].sessions, 60000, dayStartHour, now, tz)))
  }

  /** groupedHistory: the groups with their break times, newest day first. */
  function GroupedSpec(sessions: seq<Session>, dayStartHour: int, now: int, tz: int): seq<HistoryGroup>
  {
    SortBy(WithBreaks(Collect(sessions, dayStartHour, now, tz), dayStartHour, now, tz), NewestFirst)
  }

  /**
   * The forEach of groupedHistory: each session goes into the group of its
   * work day, found by a scan or opened at the end, with its time added.
   */
  method CollectGroups(filteredHistory: seq<Session>, dayStartHour: int, now: int, tz: int)
    returns (groups: seq<HistoryGroup>)
    ensures groups == Collect(filteredHistory, dayStartHour, now, tz)
  {
    groups := [];
    for k := 0 to |filteredHistory|
      invariant groups == Collect(filteredHistory[..k], dayStartHour, now, tz)
    {
      assert filteredHistory[..k + 1][..k] == filteredHistory[..k];
      var session := filteredHistory[k];
      var day := AdjustedDay(session.createdAt, tz, dayStartHour);
      var i := FindGroup(groups, day);
      if i == |groups| {
        groups := groups + [HistoryGroup(day, [], 0, 0)];
      }
      groups := groups[i := groups[i].(sessions := groups[i].sessions + [session],
                                       totalTime := groups[i].totalTime + TotalDuration(session.segments, now))];
    }
    assert filteredHistory[..|filteredHistory|] == filteredHistory;
  }

  /** `groups.find(g => g.dateStr === dateStr)`: the index of the first group of the day, or the length. */
  method FindGroup(groups: seq<HistoryGroup>, day: int) returns (i: nat)
    ensures i == FindDay(groups, day)
  {
    i := 0;
    while i < |groups| && groups[i].day != day
      invariant 0 <= i <= |groups|
      invariant forall j :: 0 <= j < i ==> groups[j].day != day
    {
      i := i + 1;
    }
    FirstDayIndex(groups, day, i);
  }

  /** FindDay is the only index with no group of the day before it that is the length or holds the day. */
  lemma FirstDayIndex(groups: seq<HistoryGroup>, day: int, i: nat)
    requires i <= |groups| && forall j :: 0 <= j < i ==> groups[j].day != day
    requires i < |groups| ==> groups[i].day == day
    ensures i == FindDay(groups, day)
  {
  }

  /** The second forEach of groupedHistory: each group's break time over its own sessions. */
  method SetBreakTimes(collected: seq<HistoryGroup>, dayStartHour: int, now: int, tz: int)
    returns (groups: seq<HistoryGroup>)
    ensures groups == WithBreaks(collected, dayStartHour, now, tz)
  {
    groups := collected;
    for i := 0 to |groups|
      invariant |groups| == |collected|
      invariant forall j :: 0 <= j < i ==> groups[j] == WithBreaks(collected, dayStartHour, now, tz)[j]
      invariant forall j :: i <= j < |groups| ==> groups[j] == collected[j]
    {
      var breakTime := BreakTime(groups[i].sessions, 60000, dayStartHour, now, tz);
      groups := groups[i := groups[i].(breakTime := breakTime)];
    }
  }

  /**
   * groupedHistory: the groups of the forEach, with their break times,
   * sorted by date string, newest first.
   */
  method GroupedHistory(filteredHistory: seq<Session>, dayStartHour: int, now: int, tz: int)
    returns (groups: seq<HistoryGroup>)
    ensures groups == GroupedSpec(filteredHistory, dayStartHour, now, tz)
  {
    var collected := CollectGroups(filteredHistory, dayStartHour, now, tz);
    groups := SetBreakTimes(collected, dayStartHour, now, tz);
    groups := SortBy(groups, NewestFirst);
  }

  /** Every group of the result, with its break time. */
  predicate GroupMeaning(g: HistoryGroup, sessions: seq<Session>, dayStartHour: int, now: int, tz: int)
  {
    g.sessions == OnDay(sessions, g.day, dayStartHour, tz) && g.sessions != []
    && g.totalTime == SessionsWork(g.sessions, now)
    && g.breakTime == BreakTimeSpec(g.sessions, 60000, dayStartHour, now, tz)
  }

  /**
   * The grouped history runs strictly from the newest work day to the
   * oldest, one group per day; each group holds exactly that day's
   * sessions in order, their summed time and their break time; and every
   * session appears under its own day.
   */
  lemma GroupedHistoryMeaning(sessions: seq<Session>, dayStartHour: int, now: int, tz: int)
    ensures var r := GroupedSpec(sessions, dayStartHour, now, tz);
      forall i, j :: 0 <= i < j < |r| ==> r[i].day > r[j].day
    ensures var r := GroupedSpec(sessions, dayStartHour, now, tz);
      forall g :: g in r ==> GroupMeaning(g, sessions, dayStartHour, now, tz)
    ensures var r := GroupedSpec(sessions, dayStartHour, now, tz);
      forall k :: 0 <= k < |sessions| ==> exists g :: g in r && g.day == DayOf(sessions[k], dayStartHour, tz)
  {
    var c := Collect(sessions, dayStartHour, now, tz);
    CollectMeaning(sessions, dayStartHour, now, tz);
    var w := WithBreaks(c, dayStartHour, now, tz);
    WithBreaksMeaning(c, sessions, dayStartHour, now, tz);
    SortByDistinct(w, NewestFirst);
    var r := SortBy(w, NewestFirst);
    forall g | g in r ensures GroupMeaning(g, sessions, dayStartHour, now, tz) {
      SortByMembers(w, NewestFirst, g);
    }
    forall k | 0 <= k < |sessions| ensures exists g :: g in r && g.day == DayOf(sessions[k], dayStartHour, tz) {
      var j := FindDay(c, DayOf(sessions[k], dayStartHour, tz));
      SortByMembers(w, NewestFirst, w[j]);
    }
  }

  /** Setting the break times keeps the days and completes each group's meaning. */
  lemma WithBreaksMeaning(c: seq<HistoryGroup>, sessions: seq<Session>, dayStartHour: int, now: int, tz: int)
    requires CollectInv(c, sessions, dayStartHour, now, tz)
    ensures DistinctKeys(WithBreaks(c, dayStartHour, now, tz), NewestFirst)
    ensures forall g :: g in WithBreaks(c, dayStartHour, now, tz) ==> GroupMeaning(g, sessions, dayStartHour, now, tz)
    ensures forall j :: 0 <= j < |c| ==> WithBreaks(c, dayStartHour, now, tz)[j].day == c[j].day
  {
    var w := WithBreaks(c, dayStartHour, now, tz);
    forall g | g in w ensures GroupMeaning(g, sessions, dayStartHour, now, tz) {
      var j :| 0 <= j < |w| && w[j] == g;
      assert Collected(c[j], sessions, dayStartHour, now, tz);
    }
  }
}
