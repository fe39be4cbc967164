// Colours of utils.ts: the group colour classes with their slate fallback,
// and the deterministic task colour picked by a 32-bit string hash.
module Palette {
  import opened Types

  datatype ColorStyle = ColorStyle(bg: string, text: string, border: string, dot: string)

  /** GROUP_COLORS, by key. */
  function GroupColor(color: string): Option<ColorStyle>
  {
    if color == "blue" then
      Some(ColorStyle("bg-blue-50 dark:bg-blue-900/30", "text-blue-600 dark:text-blue-300",
                      "border-blue-200 dark:border-blue-800", "bg-blue-500"))
    else if color == "emerald" then
      Some(ColorStyle("bg-emerald-50 dark:bg-emerald-900/30", "text-emerald-600 dark:text-emerald-300",
                      "border-emerald-200 dark:border-emerald-800", "bg-emerald-500"))
    else if color == "violet" then
      Some(ColorStyle("bg-violet-50 dark:bg-violet-900/30", "text-violet-600 dark:text-violet-300",
                      "border-violet-200 dark:border-violet-800", "bg-violet-500"))
    else if color == "amber" then
      Some(ColorStyle("bg-amber-50 dark:bg-amber-900/30", "text-amber-600 dark:text-amber-300",
                      "border-amber-200 dark:border-amber-800", "bg-amber-500"))
    else if color == "rose" then
      Some(ColorStyle("bg-rose-50 dark:bg-rose-900/30", "text-rose-600 dark:text-rose-300",
                      "border-rose-200 dark:border-rose-800", "bg-rose-500"))
    else if color == "cyan" then
      Some(ColorStyle("bg-cyan-50 dark:bg-cyan-900/30", "text-cyan-600 dark:text-cyan-300",
                      "border-cyan-200 dark:border-cyan-800", "bg-cyan-500"))
    else if color == "slate" then Some(SlateStyle)
    else None
  }

  const SlateStyle: ColorStyle :=
    ColorStyle("bg-slate-100 dark:bg-slate-800", "text-slate-600 dark:text-slate-400",
               "border-slate-200 dark:border-slate-700", "bg-slate-500")

  const GroupColorKeys: seq<string> := ["blue", "emerald", "violet", "amber", "rose", "cyan", "slate"]

  /** getGroupStyle: the entry for a known colour key, slate for anything else. */
  function GroupStyle(color: string): ColorStyle
  {
    match GroupColor(color)
    case Some(st) => st
    case None => SlateStyle
  }

  /** Each key of GROUP_COLORS has an entry; only the last, slate, has the slate classes. */
  lemma KnownKeyStyle(i: int)
    requires 0 <= i < |GroupColorKeys|
    ensures GroupColor(GroupColorKeys[i]).Some?
    ensures GroupStyle(GroupColorKeys[i]) == SlateStyle <==> i == 6
  {
    var key := GroupColorKeys[i];
    if i == 0 { assert key == "blue"; }
    else if i == 1 { assert key == "emerald"; }
    else if i == 2 { assert key == "violet"; }
    else if i == 3 { assert key == "amber"; }
    else if i == 4 { assert key == "rose"; }
    else if i == 5 { assert key == "cyan"; }
    else { assert key == "slate"; }
  }

  /** The slate classes are shown exactly for "slate" and for unknown keys. */
  lemma GroupStyleFallback(color: string)
    ensures GroupColor(color).Some? <==> color in GroupColorKeys
    ensures GroupStyle(color) == SlateStyle <==> color == "slate" || color !in GroupColorKeys
  {
    if color in GroupColorKeys {
      var i :| 0 <= i < |GroupColorKeys| && GroupColorKeys[i] == color;
      KnownKeyStyle(i);
      assert i == 6 <==> color == "slate";
    } else {
      assert color != "blue" && color != "emerald" && color != "violet" && color != "amber";
      assert color != "rose" && color != "cyan" && color != "slate";
    }
  }

  // --- generateTaskColor ---------------------------------------------------

  const TaskPalette: seq<string> := [
    "#ef4444", "#f97316", "#f59e0b", "#06b6d4", "#0ea5e9", "#3b82f6",
    "#6366f1", "#8b5cf6", "#d946ef", "#ec4899", "#f43f5e"
  ]

  const TWO32: int := 0x1_0000_0000
  const TWO31: int := 0x8000_0000

  /** ECMAScript ToInt32 on an integer value. */
  function ToInt32(x: int): (r: int)
    ensures -TWO31 <= r < TWO31
    ensures (r - x) % TWO32 == 0
  {
    var m := x % TWO32;
    if m >= TWO31 then m - TWO32 else m
  }

  /**
   * The UTF-16 code units of one character: itself below U+10000, else its
   * high and low surrogates. Reading the pair back gives the character.
   */
  function Units(c: char): (r: seq<int>)
    ensures 1 <= |r| <= 2 && forall k :: 0 <= k < |r| ==> 0 <= r[k] < 0x1_0000
    ensures |r| == 1 <==> (c as int) < 0x1_0000
    ensures |r| == 1 ==> r[0] == c as int
    ensures |r| == 2 ==> 0xD800 <= r[0] < 0xDC00 && 0xDC00 <= r[1] < 0xE000
    ensures |r| == 2 ==> 0x1_0000 + (r[0] - 0xD800) * 0x400 + (r[1] - 0xDC00) == c as int
  {
    var v := c as int;
    if v < 0x1_0000 then [v]
    else [0xD800 + (v - 0x1_0000) / 0x400, 0xDC00 + (v - 0x1_0000) % 0x400]
  }

  /** The string as JavaScript stores it: `str.length` code units, `charCodeAt(i)` the i-th. */
  function CodeUnits(s: string): (r: seq<int>)
    ensures |s| <= |r| <= 2 * |s|
    ensures forall k :: 0 <= k < |r| ==> 0 <= r[k] < 0x1_0000
    decreases |s|
  {
    if |s| == 0 then [] else CodeUnits(s[..|s| - 1]) + Units(s[|s| - 1])
  }

  /** One step of `hash = c + ((hash << 5) - hash)`; the sum is exact. */
  function HashStep(hash: int, unit: int): int
  {
    unit + (ToInt32(ToInt32(hash) * 32) - hash)
  }

  /** The hash of a sequence of code units, folded from the left. */
  function HashUnits(u: seq<int>): int
    decreases |u|
  {
    if |u| == 0 then 0 else HashStep(HashUnits(u[..|u| - 1]), u[|u| - 1])
  }

  /** The hash of a string, over its UTF-16 code units. */
  function Hash(s: string): int
  {
    HashUnits(CodeUnits(s))
  }

  function PaletteIndex(hash: int): (i: nat)
    ensures i < |TaskPalette|
  {
    (if hash < 0 then -hash else hash) % |TaskPalette|
  }

  /**
   * Every step adds a code unit and a 32-bit value, so the hash grows by
   * less than 2^32 per unit: below 2^20 characters it stays under 2^53,
   * where the double arithmetic of the original is exact.
   */
  lemma {:induction false} HashUnitsBound(u: seq<int>)
    requires forall k :: 0 <= k < |u| ==> 0 <= u[k] < 0x1_0000
    ensures -TWO32 * |u| <= HashUnits(u) <= TWO32 * |u|
    decreases |u|
  {
    if |u| > 0 {
      HashUnitsBound(u[..|u| - 1]);
    }
  }

  lemma HashBound(s: string)
    ensures -2 * TWO32 * |s| <= Hash(s) <= 2 * TWO32 * |s|
  {
    HashUnitsBound(CodeUnits(s));
  }

  /** generateTaskColor: folds the hash over the code units and picks a palette entry. */
  method GenerateTaskColor(str: string) returns (color: string)
    ensures color in TaskPalette
    ensures color == TaskPalette[PaletteIndex(Hash(str))]
  {
    var units := CodeUnits(str);
    var hash := 0;
    for i := 0 to |units|
      invariant hash == HashUnits(units[..i])
    {
      assert units[..i + 1][..i] == units[..i];
      hash := units[i] + (ToInt32(ToInt32(hash) * 32) - hash);
    }
    assert units[..|units|] == units;
    var index := (if hash < 0 then -hash else hash) % |TaskPalette|;
    color := TaskPalette[index];
  }

  /** The empty string hashes to 0 and gets the first palette entry. */
  lemma TaskColorOfEmpty()
    ensures TaskPalette[PaletteIndex(Hash(""))] == "#ef4444"
  {
  }

  /** Below 2^31 the 32-bit wrap changes nothing. */
  lemma ToInt32Small(x: int)
    requires 0 <= x < TWO31
    ensures ToInt32(x) == x
  {
  }

  /** A single code unit hashes to itself, a pair `[a, b]` to `b + 31 * a`. */
  lemma HashOfUnits(a: int, b: int)
    requires 0 <= a < 0x1_0000
    ensures HashUnits([a]) == a
    ensures HashUnits([a, b]) == b + 31 * a
  {
    ToInt32Small(0);
    assert [a][..0] == [];
    assert HashUnits([a]) == HashStep(0, a);
    assert [a, b][..1] == [a];
    ToInt32Small(a);
    ToInt32Small(a * 32);
    assert HashUnits([a, b]) == HashStep(a, b);
  }

  /**
   * A one-character string hashes to its own code below U+10000; above it,
   * charCodeAt sees the two surrogates and the hash is `low + 31 * high`.
   */
  lemma HashOfOneChar(c: char)
    ensures (c as int) < 0x1_0000 ==> Hash([c]) == c as int
    ensures (c as int) >= 0x1_0000 ==> var u := Units(c); Hash([c]) == u[1] + 31 * u[0]
  {
    assert [c][..0] == [];
    var u := Units(c);
    assert CodeUnits([c]) == u;
    if |u| == 2 {
      HashOfUnits(u[0], u[1]);
      assert u == [u[0], u[1]];
    } else {
      HashOfUnits(u[0], 0);
      assert u == [u[0]];
    }
  }
}
