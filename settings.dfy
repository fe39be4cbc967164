// The settings dialogs: workflow-timer/components/SettingsModal.tsx and
// its older twin components/SettingsModal.tsx. Both build new group lists
// and notification settings from the old ones; they differ in how a new
// group's colour is chosen and in what an edit may change.
module Settings {
  import opened Types
  import opened Text
  import Palette

  // --- notification settings -------------------------------------------------

  /** One `[key]: value` update of handleNotificationChange. */
  datatype SettingChange =
    | SetWorkEnabled(b: bool)
    | SetWorkInterval(n: int)
    | SetBreakEnabled(b: bool)
    | SetBreakInterval(n: int)
    | SetSoundEnabled(b: bool)
    | SetNativeNotificationEnabled(b: bool)
    | SetCustomSound(sound: Option<string>)
    | SetShortcutEnabled(b: bool)
    | SetDayStartHour(n: int)

  datatype SettingKey =
    WorkEnabled | WorkInterval | BreakEnabled | BreakInterval | SoundEnabled
    | NativeNotificationEnabled | CustomSound | ShortcutEnabled | DayStartHour

  /** A field's value, whatever its type. */
  datatype SettingValue = Flag(b: bool) | Number(n: int) | Sound(sound: Option<string>)

  function KeyOf(c: SettingChange): SettingKey
  {
    match c
    case SetWorkEnabled(_) => WorkEnabled
    case SetWorkInterval(_) => WorkInterval
    case SetBreakEnabled(_) => BreakEnabled
    case SetBreakInterval(_) => BreakInterval
    case SetSoundEnabled(_) => SoundEnabled
    case SetNativeNotificationEnabled(_) => NativeNotificationEnabled
    case SetCustomSound(_) => CustomSound
    case SetShortcutEnabled(_) => ShortcutEnabled
    case SetDayStartHour(_) => DayStartHour
  }

  function ValueOf(c: SettingChange): SettingValue
  {
    match c
    case SetWorkEnabled(b) => Flag(b)
    case SetWorkInterval(n) => Number(n)
    case SetBreakEnabled(b) => Flag(b)
    case SetBreakInterval(n) => Number(n)
    case SetSoundEnabled(b) => Flag(b)
    case SetNativeNotificationEnabled(b) => Flag(b)
    case SetCustomSound(s) => Sound(s)
    case SetShortcutEnabled(b) => Flag(b)
    case SetDayStartHour(n) => Number(n)
  }

  /** Reads one field of the settings. */
  function Get(s: NotificationSettings, k: SettingKey): SettingValue
  {
    match k
    case WorkEnabled => Flag(s.workEnabled)
    case WorkInterval => Number(s.workInterval)
    case BreakEnabled => Flag(s.breakEnabled)
    case BreakInterval => Number(s.breakInterval)
    case SoundEnabled => Flag(s.soundEnabled)
    case NativeNotificationEnabled => Flag(s.nativeNotificationEnabled)
    case CustomSound => Sound(s.customSound)
    case ShortcutEnabled => Flag(s.shortcutEnabled)
    case DayStartHour => Number(s.dayStartHour)
  }

  /** handleNotificationChange: the old settings spread, with one key overwritten. */
  function ApplyChange(s: NotificationSettings, c: SettingChange): NotificationSettings
  {
    match c
    case SetWorkEnabled(b) => s.(workEnabled := b)
    case SetWorkInterval(n) => s.(workInterval := n)
    case SetBreakEnabled(b) => s.(breakEnabled := b)
    case SetBreakInterval(n) => s.(breakInterval := n)
    case SetSoundEnabled(b) => s.(soundEnabled := b)
    case SetNativeNotificationEnabled(b) => s.(nativeNotificationEnabled := b)
    case SetCustomSound(snd) => s.(customSound := snd)
    case SetShortcutEnabled(b) => s.(shortcutEnabled := b)
    case SetDayStartHour(n) => s.(dayStartHour := n)
  }

  /** The changed key reads the new value; every other key reads what it read before. */
  lemma ChangeTouchesOnlyKey(s: NotificationSettings, c: SettingChange, k: SettingKey)
    ensures Get(ApplyChange(s, c), KeyOf(c)) == ValueOf(c)
    ensures k != KeyOf(c) ==> Get(ApplyChange(s, c), k) == Get(s, k)
  {
  }

  /** Two settings that agree on every key are the same settings. */
  lemma {:induction false} SettingsByKeys(s: NotificationSettings, t: NotificationSettings)
    requires forall k :: Get(s, k) == Get(t, k)
    ensures s == t
  {
    assert Get(s, WorkEnabled) == Get(t, WorkEnabled);
    assert Get(s, WorkInterval) == Get(t, WorkInterval);
    assert Get(s, BreakEnabled) == Get(t, BreakEnabled);
    assert Get(s, BreakInterval) == Get(t, BreakInterval);
    assert Get(s, SoundEnabled) == Get(t, SoundEnabled);
    assert Get(s, NativeNotificationEnabled) == Get(t, NativeNotificationEnabled);
    assert Get(s, CustomSound) == Get(t, CustomSound);
    assert Get(s, ShortcutEnabled) == Get(t, ShortcutEnabled);
    assert Get(s, DayStartHour) == Get(t, DayStartHour);
  }

  /** Writing back a key's current value changes nothing. */
  lemma {:induction false} ChangeToCurrentValueIsIdentity(s: NotificationSettings, c: SettingChange)
    requires Get(s, KeyOf(c)) == ValueOf(c)
    ensures ApplyChange(s, c) == s
  {
    forall k
      ensures Get(ApplyChange(s, c), k) == Get(s, k)
    {
      ChangeTouchesOnlyKey(s, c, k);
    }
    SettingsByKeys(ApplyChange(s, c), s);
  }

  // --- option lists --------------------------------------------------------

  /** TimeSelect's options: `(i + 1) * 5` for i in 0..23. */
  function IntervalOptions(): (r: seq<int>)
    ensures |r| == 24
  {
    seq(24, i => (i + 1) * 5)
  }

  /** The interval options are exactly the multiples of five from 5 to 120, ascending. */
  lemma IntervalOptionsMeaning(x: int)
    ensures x in IntervalOptions() <==> 5 <= x <= 120 && x % 5 == 0
    ensures forall i, j :: 0 <= i < j < 24 ==> IntervalOptions()[i] < IntervalOptions()[j]
  {
    if 5 <= x <= 120 && x % 5 == 0 {
      assert IntervalOptions()[x / 5 - 1] == x;
    }
  }

  /** HourSelect's options: i for i in 0..23. */
  function HourOptions(): (r: seq<int>)
    ensures |r| == 24
  {
    seq(24, i => i)
  }

  lemma HourOptionsMeaning(x: int)
    ensures x in HourOptions() <==> 0 <= x <= 23
  {
    if 0 <= x <= 23 {
      assert HourOptions()[x] == x;
    }
  }

  // --- custom sound upload -------------------------------------------------

  const MaxSoundBytes: int := 1024 * 1024

  datatype UploadVerdict = FileTooLarge | NotAudio | ReadFile

  /** handleFileUpload's checks, in order: size first, then the MIME type. */
  function CheckUpload(size: int, mimeType: string): (v: UploadVerdict)
    ensures v == ReadFile <==> size <= 1048576 && StartsWith(mimeType, "audio/")
    ensures v == FileTooLarge <==> size > 1048576
  {
    if size > MaxSoundBytes then FileTooLarge
    else if !StartsWith(mimeType, "audio/") then NotAudio
    else ReadFile
  }

  const MaxSoundSeconds: real := 20.0

  /**
   * handleFileUpload end to end. The audio decoder is a parameter:
   * `decoded` is the `audio.duration` reported by `onloadedmetadata`, or
   * None when `onerror` fires. Only a read file that decodes to at most
   * 20 seconds becomes the custom sound; every other path leaves the
   * settings as they were.
   */
  function SettingsAfterUpload(s: NotificationSettings, size: int, mimeType: string, data: string, decoded: Option<real>): (r: NotificationSettings)
    ensures CheckUpload(size, mimeType) != ReadFile ==> r == s
    ensures decoded.None? ==> r == s
    ensures decoded.Some? && decoded.value > 20.0 ==> r == s
    ensures CheckUpload(size, mimeType) == ReadFile && decoded.Some? && decoded.value <= 20.0 ==>
      r.customSound == Some(data) && forall k :: k != CustomSound ==> Get(r, k) == Get(s, k)
  {
    if CheckUpload(size, mimeType) == ReadFile && decoded.Some? && decoded.value <= MaxSoundSeconds then
      var r := ApplyChange(s, SetCustomSound(Some(data)));
      assert forall k :: k != CustomSound ==> Get(r, k) == Get(s, k) by {
        forall k | k != CustomSound
          ensures Get(r, k) == Get(s, k)
        {
          ChangeTouchesOnlyKey(s, SetCustomSound(Some(data)), k);
        }
      }
      r
    else s
  }

  // --- groups --------------------------------------------------------------

  /** The group name field, once trimmed, is not blank. */
  predicate HasName(name: string) { Trim(name) != "" }

  /** handleAddGroup: a blank name adds nothing; otherwise one group is appended. */
  function AddGroup(groups: seq<Group>, newGroupName: string, newId: string, color: string): (r: Option<seq<Group>>)
    ensures r.None? <==> !HasName(newGroupName)
    ensures r.Some? ==>
      |r.value| == |groups| + 1 && r.value[..|groups|] == groups && r.value[|groups|] == Group(newId, Trim(newGroupName), color)
  {
    if !HasName(newGroupName) then None
    else
      var r := groups + [Group(newId, Trim(newGroupName), color)];
      assert r[..|groups|] == groups;
      Some(r)
  }

  /** An added group's name is non-empty and has no whitespace at either end. */
  lemma AddedNameIsTrimmed(groups: seq<Group>, newGroupName: string, newId: string, color: string)
    requires HasName(newGroupName)
    ensures var g := AddGroup(groups, newGroupName, newId, color).value[|groups|];
      |g.name| > 0 && !IsJsWhitespace(g.name[0]) && !IsJsWhitespace(g.name[|g.name| - 1])
  {
    var t := TrimStart(newGroupName);
    var r := TrimEnd(t);
    assert r == t[..|r|];
    assert r[0] == t[0];
  }

  /** `COLORS.findIndex(c => c.key === color)`: -1 when absent. */
  function ColorIndex(color: string): (i: int)
    ensures -1 <= i < |Palette.GroupColorKeys|
    ensures i >= 0 ==> Palette.GroupColorKeys[i] == color
    ensures i == -1 <==> color !in Palette.GroupColorKeys
  {
    if color == "blue" then 0
    else if color == "emerald" then 1
    else if color == "violet" then 2
    else if color == "amber" then 3
    else if color == "rose" then 4
    else if color == "cyan" then 5
    else if color == "slate" then 6
    else -1
  }

  /** The colour selected after an add: the next entry of COLORS, cyclically (blue for an unknown key). */
  function NextColor(selectedColor: string): (c: string)
    ensures c in Palette.GroupColorKeys
  {
    Palette.GroupColorKeys[(ColorIndex(selectedColor) + 1) % 7]
  }

  /** Each key of COLORS is found at its own position. */
  lemma KeyIndex(k: int)
    requires 0 <= k < 7
    ensures ColorIndex(Palette.GroupColorKeys[k]) == k
  {
    var key := Palette.GroupColorKeys[k];
    if k == 0 { assert key == "blue"; }
    else if k == 1 { assert key == "emerald"; }
    else if k == 2 { assert key == "violet"; }
    else if k == 3 { assert key == "amber" && key[0] != "rose"[0] && key[0] != "cyan"[0] && key[0] != "slate"[0]; }
    else if k == 4 { assert key == "rose" && key[0] != "cyan"[0] && key[0] != "slate"[0] && key[0] != "blue"[0]; }
    else if k == 5 { assert key == "cyan" && key[0] != "slate"[0] && key[0] != "blue"[0] && key[0] != "rose"[0]; }
    else { assert key == "slate" && key[0] != "amber"[0]; }
  }

  /**
   * From a key of COLORS the next selection is the following key, wrapping
   * round after the seventh; from an unknown key it is the first.
   */
  lemma NextColorOfKey(k: int, other: string)
    requires 0 <= k < 7
    requires other !in Palette.GroupColorKeys
    ensures NextColor(Palette.GroupColorKeys[k]) == Palette.GroupColorKeys[(k + 1) % 7]
    ensures NextColor(Palette.GroupColorKeys[6]) == Palette.GroupColorKeys[0]
    ensures NextColor(other) == "blue"
  {
    assert ColorIndex(other) == -1;
    KeyIndex(6);
    assert NextColor(Palette.GroupColorKeys[6]) == Palette.GroupColorKeys[0];
    KeyIndex(k);
  }

  /** The older dialog's colour for a new group: `colors[groups.length % 7]`. */
  function ColorForCount(count: nat): (c: string)
    ensures c in Palette.GroupColorKeys
  {
    Palette.GroupColorKeys[count % 7]
  }

  /** Groups added one after another take seven different colours before one repeats. */
  lemma ColorForCountCycle(count: nat, later: nat)
    requires count < later
    ensures ColorForCount(count) == ColorForCount(later) <==> (later - count) % 7 == 0
  {
    KeyIndex(count % 7);
    KeyIndex(later % 7);
    SameResidue(count, later);
  }

  lemma SameResidue(a: nat, b: nat)
    requires a < b
    ensures (b - a) % 7 == 0 <==> a % 7 == b % 7
  {
    var q, r := a / 7, a % 7;
    var q2, r2 := b / 7, b % 7;
    assert b - a == 7 * (q2 - q) + (r2 - r);
  }

  /** The older dialog's add: the colour is picked by the current number of groups. */
  function AddGroupByCount(groups: seq<Group>, newGroupName: string, newId: string): (r: Option<seq<Group>>)
    ensures r == AddGroup(groups, newGroupName, newId, ColorForCount(|groups|))
    ensures r.Some? ==> r.value[|groups|].color == Palette.GroupColorKeys[|groups| % 7]
  {
    AddGroup(groups, newGroupName, newId, ColorForCount(|groups|))
  }

  /** `groups.filter(g => g.id !== id)`. */
  function WithoutGroup(groups: seq<Group>, id: string): (r: seq<Group>)
    ensures |r| <= |groups|
    ensures forall g :: g in r <==> g in groups && g.id != id
    decreases |groups|
  {
    if |groups| == 0 then []
    else
      var p := WithoutGroup(groups[..|groups| - 1], id);
      var last := groups[|groups| - 1];
      assert groups == groups[..|groups| - 1] + [last];
      if last.id == id then p else p + [last]
  }

  /** Filtering commutes with concatenation, so the remaining groups keep their order. */
  lemma {:induction false} WithoutGroupAppend(a: seq<Group>, b: seq<Group>, id: string)
    ensures WithoutGroup(a + b, id) == WithoutGroup(a, id) + WithoutGroup(b, id)
    decreases |b|
  {
    if |b| == 0 {
      assert a + b == a;
    } else {
      var b' := b[..|b| - 1];
      assert (a + b)[..|a + b| - 1] == a + b';
      WithoutGroupAppend(a, b', id);
    }
  }

  /** Deleting an id that no group has changes nothing. */
  lemma {:induction false} WithoutAbsentGroup(groups: seq<Group>, id: string)
    requires forall i :: 0 <= i < |groups| ==> groups[i].id != id
    ensures WithoutGroup(groups, id) == groups
    decreases |groups|
  {
    if |groups| > 0 {
      WithoutAbsentGroup(groups[..|groups| - 1], id);
      assert groups == groups[..|groups| - 1] + [groups[|groups| - 1]];
    }
  }

  /** handleDeleteGroup: refused (None, with an alert) unless there are at least two groups. */
  function DeleteGroup(groups: seq<Group>, id: string): (r: Option<seq<Group>>)
    ensures r.None? <==> |groups| <= 1
    ensures r.Some? ==> forall g :: g in r.value <==> g in groups && g.id != id
  {
    if |groups| <= 1 then None else Some(WithoutGroup(groups, id))
  }

  /** `editingGroupId && editingName.trim()`: an id is chosen (and not empty) and the name is not blank. */
  predicate CanSave(editingGroupId: Option<string>, editingName: string)
  {
    editingGroupId.Some? && editingGroupId.value != "" && HasName(editingName)
  }

  /** The save applies to `g`: it is the group being edited. */
  predicate Edits(editingGroupId: Option<string>, editingName: string, g: Group)
  {
    CanSave(editingGroupId, editingName) && g.id == editingGroupId.value
  }

  /** saveEditingGroup (newer dialog): the edited group gets the trimmed name and the chosen colour. */
  function SaveEditingGroup(groups: seq<Group>, editingGroupId: Option<string>, editingName: string,
                            editingColor: string): (r: seq<Group>)
    ensures |r| == |groups|
    ensures forall i :: 0 <= i < |r| ==> r[i].id == groups[i].id
    ensures forall i :: 0 <= i < |r| && !Edits(editingGroupId, editingName, groups[i]) ==> r[i] == groups[i]
    ensures forall i :: 0 <= i < |r| && Edits(editingGroupId, editingName, groups[i]) ==>
      r[i].name == Trim(editingName) && r[i].color == editingColor
  {
    if CanSave(editingGroupId, editingName) then
      seq(|groups|, i requires 0 <= i < |groups| =>
        if groups[i].id == editingGroupId.value then groups[i].(name := Trim(editingName), color := editingColor)
        else groups[i])
    else groups
  }

  /** saveEditingGroup (older dialog): only the name of the edited group changes. */
  function SaveRenamedGroup(groups: seq<Group>, editingGroupId: Option<string>, editingName: string): (r: seq<Group>)
    ensures |r| == |groups|
    ensures forall i :: 0 <= i < |r| ==> r[i].id == groups[i].id && r[i].color == groups[i].color
    ensures forall i :: 0 <= i < |r| && !Edits(editingGroupId, editingName, groups[i]) ==> r[i] == groups[i]
    ensures forall i :: 0 <= i < |r| && Edits(editingGroupId, editingName, groups[i]) ==> r[i].name == Trim(editingName)
  {
    if CanSave(editingGroupId, editingName) then
      seq(|groups|, i requires 0 <= i < |groups| =>
        if groups[i].id == editingGroupId.value then groups[i].(name := Trim(editingName)) else groups[i])
    else groups
  }

  /** A rename is the newer dialog's edit with the group's own colour chosen. */
  lemma {:induction false} RenameIsEditKeepingColor(groups: seq<Group>, id: string, editingName: string, color: string)
    requires forall i :: 0 <= i < |groups| && groups[i].id == id ==> groups[i].color == color
    ensures SaveRenamedGroup(groups, Some(id), editingName) == SaveEditingGroup(groups, Some(id), editingName, color)
  {
    var a := SaveRenamedGroup(groups, Some(id), editingName);
    var b := SaveEditingGroup(groups, Some(id), editingName, color);
    assert |a| == |b|;
    forall i | 0 <= i < |a|
      ensures a[i] == b[i]
    {
    }
  }

  /** Saving the same edit twice is the same as saving it once. */
  lemma {:induction false} SaveEditingIdempotent(groups: seq<Group>, editingGroupId: Option<string>, editingName: string,
                                                 editingColor: string)
    ensures var once := SaveEditingGroup(groups, editingGroupId, editingName, editingColor);
      SaveEditingGroup(once, editingGroupId, editingName, editingColor) == once
  {
    var once := SaveEditingGroup(groups, editingGroupId, editingName, editingColor);
    var twice := SaveEditingGroup(once, editingGroupId, editingName, editingColor);
    assert |twice| == |once|;
    forall i | 0 <= i < |once|
      ensures twice[i] == once[i]
    {
    }
  }
}
