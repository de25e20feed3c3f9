/**
 * What the registry promises: first-match selection, no change without a
 * focused window, slot independence, last write wins, goto reads the slot,
 * and, over any sequence of key presses, each slot holds the window of its
 * last effective pick.
 */
module HarpoonProperties {
  import opened Wrappers
  import opened Harpoon

  // ---------------------------------------------------------------------
  // One pick
  // ---------------------------------------------------------------------

  /** A pick stores the first focused window in list order; later focused windows are ignored. */
  lemma PickStoresFirstFocused(slots: Slots, i: SlotIndex, windows: seq<WindowDesc>, k: nat)
    requires |slots| == SlotCount
    requires k < |windows| && windows[k].focus
    requires forall j :: 0 <= j < k ==> !windows[j].focus
    ensures AfterPick(slots, i, windows)[i] == Some(windows[k])
  {
  }

  /** A pick over a list without a focused window, the empty list included, changes nothing. */
  lemma PickWithoutFocusKeepsSlots(slots: Slots, i: SlotIndex, windows: seq<WindowDesc>)
    requires |slots| == SlotCount
    requires forall k :: 0 <= k < |windows| ==> !windows[k].focus
    ensures AfterPick(slots, i, windows) == slots
  {
  }

  /** A pick into slot `i` leaves the number of slots and every other slot as they were. */
  lemma PickTouchesOnlyItsSlot(slots: Slots, i: SlotIndex, windows: seq<WindowDesc>)
    requires |slots| == SlotCount
    ensures |AfterPick(slots, i, windows)| == SlotCount
    ensures forall j :: 0 <= j < SlotCount && j != i ==> AfterPick(slots, i, windows)[j] == slots[j]
  {
  }

  /** Of two picks into one slot, the second wins outright when its list has a focused window. */
  lemma PickLastWriteWins(slots: Slots, i: SlotIndex, first: seq<WindowDesc>, second: seq<WindowDesc>)
    requires |slots| == SlotCount
    requires exists k :: 0 <= k < |second| && second[k].focus
    ensures AfterPick(AfterPick(slots, i, first), i, second) == AfterPick(slots, i, second)
  {
  }

  /**
   * The notification after a pick names the picked window's class; without
   * a focused window it names the window the slot already held, and it
   * throws when that slot is still empty.
   */
  lemma PickAnnouncement(slots: Slots, i: SlotIndex, windows: seq<WindowDesc>)
    requires |slots| == SlotCount
    ensures FirstFocused(windows).Some? ==>
      Announcement(AfterPick(slots, i, windows)[i])
        == Success("Picked window " + FirstFocused(windows).value.wmClass)
    ensures FirstFocused(windows).None? && slots[i].Some? ==>
      Announcement(AfterPick(slots, i, windows)[i]) == Success("Picked window " + slots[i].value.wmClass)
    ensures FirstFocused(windows).None? && slots[i].None? ==>
      Announcement(AfterPick(slots, i, windows)[i]) == Failure(TypeError)
  {
  }

  // ---------------------------------------------------------------------
  // Goto
  // ---------------------------------------------------------------------

  /** Right after `enable`, no goto activates anything. */
  lemma GotoAfterEnableActivatesNothing(i: SlotIndex)
    ensures |EmptySlots| == SlotCount && JumpTarget(EmptySlots, i) == None
  {
  }

  /** A goto after a pick that found a focused window activates that window's id. */
  lemma GotoAfterPick(slots: Slots, i: SlotIndex, windows: seq<WindowDesc>, k: nat)
    requires |slots| == SlotCount
    requires k < |windows| && windows[k].focus
    requires forall j :: 0 <= j < k ==> !windows[j].focus
    ensures JumpTarget(AfterPick(slots, i, windows), i) == Some(windows[k].id)
  {
  }

  // ---------------------------------------------------------------------
  // Any sequence of key presses while the extension is enabled
  // ---------------------------------------------------------------------

  /** A key press delivered to one of the eight callbacks registered by `enable`. */
  datatype KeyPress = PickPress(slot: SlotIndex, windows: seq<WindowDesc>) | GotoPress(slot: SlotIndex)

  /** The slots after one key press; a goto reads the registry and leaves it as it is. */
  function Step(slots: Slots, key: KeyPress): (r: Slots)
    requires |slots| == SlotCount
    ensures |r| == SlotCount
    ensures key.GotoPress? ==> r == slots
  {
    match key
    case PickPress(i, windows) => AfterPick(slots, i, windows)
    case GotoPress(_) => slots
  }

  /** The slots after the key presses `keys`, in order. */
  function Replay(slots: Slots, keys: seq<KeyPress>): (r: Slots)
    requires |slots| == SlotCount
    ensures |r| == SlotCount
    decreases |keys|
  {
    if keys == [] then slots
    else Step(Replay(slots, keys[..|keys| - 1]), keys[|keys| - 1])
  }

  /**
   * Reference definition, read backwards: the window chosen by the last
   * pick into slot `i` whose window list had a focused window.
   */
  function LastPicked(keys: seq<KeyPress>, i: SlotIndex): Option<WindowDesc>
    decreases |keys|
  {
    if keys == [] then None
    else
      var key := keys[|keys| - 1];
      if key.PickPress? && key.slot == i && FirstFocused(key.windows).Some?
      then FirstFocused(key.windows)
      else LastPicked(keys[..|keys| - 1], i)
  }

  /** Each slot holds the window of its last effective pick, or what it held before. */
  lemma {:induction false} ReplaySlot(slots: Slots, keys: seq<KeyPress>, i: SlotIndex)
    requires |slots| == SlotCount
    ensures Replay(slots, keys)[i] == if LastPicked(keys, i).Some? then LastPicked(keys, i) else slots[i]
    decreases |keys|
  {
    if keys != [] {
      ReplaySlot(slots, keys[..|keys| - 1], i);
    }
  }

  /**
   * From `enable` on, a goto on slot `i` activates the window of the last
   * pick into `i` that found a focused window, and nothing if there was none.
   */
  lemma GotoAfterKeyPresses(keys: seq<KeyPress>, i: SlotIndex)
    ensures JumpTarget(Replay(EmptySlots, keys), i)
              == if LastPicked(keys, i).Some? then Some(LastPicked(keys, i).value.id) else None
  {
  }

  /** Presses on the other slots never change slot `i`. */
  lemma {:induction false} OtherSlotsIndependent(slots: Slots, keys: seq<KeyPress>, i: SlotIndex)
    requires |slots| == SlotCount
    requires forall k :: 0 <= k < |keys| ==> keys[k].slot != i
    ensures Replay(slots, keys)[i] == slots[i]
    decreases |keys|
  {
    if keys != [] {
      OtherSlotsIndependent(slots, keys[..|keys| - 1], i);
    }
  }

  // ---------------------------------------------------------------------
  // Keybinding names
  // ---------------------------------------------------------------------

  /** The eight keybinding names registered by `enable` are pairwise distinct. */
  lemma KeyNamesDistinct(i: SlotIndex, j: SlotIndex)
    ensures PickKey(i) == PickKey(j) ==> i == j
    ensures GotoKey(i) == GotoKey(j) ==> i == j
    ensures PickKey(i) != GotoKey(j)
  {
    assert PickKey(i)[0] == 'p' && GotoKey(j)[0] == 'g';
    assert PickKey(i)[12] == Letters[i] && PickKey(j)[12] == Letters[j];
    assert GotoKey(i)[12] == Letters[i] && GotoKey(j)[12] == Letters[j];
  }

  // ---------------------------------------------------------------------
  // The extension object, driven as the shell drives it
  // ---------------------------------------------------------------------

  /** A kitty window without focus and a focused firefox window: pick into "c", then goto "c". */
  method PickThenGotoScenario() returns (picked: Result<string, JsError>, jumped: Result<Option<int>, JsError>)
    ensures picked == Success("Picked window firefox")
    ensures jumped == Success(Some(2))
  {
    var ext := new HarpoonExtension();
    ext.Enable();
    var windows := [WindowDesc(1, "kitty", false), WindowDesc(2, "firefox", true)];
    PickStoresFirstFocused(ext.windows[..], 2, windows, 1);
    picked := ext.Pick(2, windows);
    assert ext.windows[2] == ext.windows[..][2] == Some(windows[1]);
    assert "Picked window " + "firefox" == "Picked window firefox";
    jumped := ext.Goto(2);
  }

  /** A pick over an empty window list into an empty slot keeps the slot empty and throws on the notification. */
  method PickEmptyListScenario() returns (picked: Result<string, JsError>, jumped: Result<Option<int>, JsError>)
    ensures picked == Failure(TypeError)
    ensures jumped == Success(None)
  {
    var ext := new HarpoonExtension();
    ext.Enable();
    picked := ext.Pick(0, []);
    jumped := ext.Goto(0);
  }

  /** After `disable`, both callbacks of a slot throw, whatever the slot held before. */
  method AfterDisableScenario() returns (picked: Result<string, JsError>, jumped: Result<Option<int>, JsError>)
    ensures picked == Failure(TypeError)
    ensures jumped == Failure(TypeError)
  {
    var ext := new HarpoonExtension();
    ext.Enable();
    picked := ext.Pick(1, [WindowDesc(7, "kitty", true)]);
    ext.Disable();
    picked := ext.Pick(1, [WindowDesc(7, "kitty", true)]);
    jumped := ext.Goto(1);
  }
}
