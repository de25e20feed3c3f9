/**
 * The harpoon window registry of extension.js: four slots, "a" to "d",
 * each filled by a "pick" key with the focused window and read by a
 * "goto" key that activates the window stored there.
 */
module Harpoon {
  import opened Wrappers

  /** One entry of the window list: the fields of a window the registry uses. */
  datatype WindowDesc = WindowDesc(id: int, wmClass: string, focus: bool)

  /** The only exception the registry itself can raise: a property read on `null`. */
  datatype JsError = TypeError

  /** The registry has one slot per letter. */
  const Letters: seq<char> := ['a', 'b', 'c', 'd']
  const SlotCount: nat := |Letters|

  type SlotIndex = i: int | 0 <= i < 4

  type Slots = seq<Option<WindowDesc>>

  /** The keybinding names registered for slot `i`. */
  function PickKey(i: SlotIndex): string
  {
    "pick-window-" + [Letters[i]]
  }

  function GotoKey(i: SlotIndex): string
  {
    "goto-window-" + [Letters[i]]
  }

  // ---------------------------------------------------------------------
  // Array.prototype.find
  // ---------------------------------------------------------------------

  /** The position of the first element of `s` that satisfies `p`, if any. */
  function FirstIndex<T>(s: seq<T>, p: T -> bool): (r: Option<nat>)
    ensures r.None? <==> forall k :: 0 <= k < |s| ==> !p(s[k])
    ensures r.Some? ==> r.value < |s| && p(s[r.value])
    ensures r.Some? ==> forall j :: 0 <= j < r.value ==> !p(s[j])
    decreases |s|
  {
    if |s| == 0 then None
    else if p(s[0]) then Some(0)
    else match FirstIndex(s[1..], p)
      case None => None
      case Some(k) => Some(k + 1)
  }

  /** `s.find(p)`: the first element of `s` that satisfies `p`, or nothing. */
  function Find<T>(s: seq<T>, p: T -> bool): (r: Option<T>)
    ensures r.None? <==> forall k :: 0 <= k < |s| ==> !p(s[k])
    ensures r.Some? ==> exists k :: 0 <= k < |s| && s[k] == r.value && p(r.value)
                          && forall j :: 0 <= j < k ==> !p(s[j])
  {
    match FirstIndex(s, p)
    case None => None
    case Some(k) => Some(s[k])
  }

  /**
   * `_get_window_by_wid`: the first window of the window list whose id is
   * `winid`, or nothing when no window has that id.
   */
  function FindById(actors: seq<WindowDesc>, winid: int): (r: Option<WindowDesc>)
    ensures r.None? <==> forall k :: 0 <= k < |actors| ==> actors[k].id != winid
    ensures r.Some? ==> exists k :: 0 <= k < |actors| && actors[k] == r.value && r.value.id == winid
                          && forall j :: 0 <= j < k ==> actors[j].id != winid
  {
    Find(actors, (w: WindowDesc) => w.id == winid)
  }

  // ---------------------------------------------------------------------
  // The registry, as values
  // ---------------------------------------------------------------------

  predicate HasFocus(w: WindowDesc)
  {
    w.focus
  }

  /** The window the pick loop selects: the first one in list order that has focus. */
  function FirstFocused(windows: seq<WindowDesc>): (r: Option<WindowDesc>)
    ensures r.None? <==> forall k :: 0 <= k < |windows| ==> !windows[k].focus
    ensures r.Some? ==> exists k :: 0 <= k < |windows| && windows[k] == r.value && r.value.focus
                          && forall j :: 0 <= j < k ==> !windows[j].focus
  {
    Find(windows, HasFocus)
  }

  /** The slots after a pick into slot `i` over the window list `windows`. */
  function AfterPick(slots: Slots, i: SlotIndex, windows: seq<WindowDesc>): Slots
    requires |slots| == SlotCount
  {
    match FirstFocused(windows)
    case None => slots
    case Some(w) => slots[i := Some(w)]
  }

  /** The id a goto on slot `i` hands to `Activate`, or nothing when the slot is empty. */
  function JumpTarget(slots: Slots, i: SlotIndex): Option<int>
    requires |slots| == SlotCount
  {
    match slots[i]
    case None => None
    case Some(w) => Some(w.id)
  }

  /** The notification a pick shows, read from the slot after the loop. */
  function Announcement(slot: Option<WindowDesc>): Result<string, JsError>
  {
    match slot
    case None => Failure(TypeError)
    case Some(w) => Success("Picked window " + w.wmClass)
  }

  const EmptySlots: Slots := [None, None, None, None]

  // ---------------------------------------------------------------------
  // The registry, as the extension object holds it
  // ---------------------------------------------------------------------

  class HarpoonExtension {
    /** `this.windows`: `null` while the extension is disabled. */
    var windows: array?<Option<WindowDesc>>

    ghost predicate Valid()
      reads this
    {
      windows != null ==> windows.Length == SlotCount
    }

    /** The extension object as the shell creates it, before `enable`. */
    constructor ()
      ensures Valid() && windows == null
    {
      windows := null;
    }

    /** `enable`: a fresh registry of four empty slots. */
    method Enable()
      modifies this
      ensures Valid() && windows != null && fresh(windows)
      ensures windows[..] == EmptySlots
    {
      windows := new Option<WindowDesc>[] [None, None, None, None];
    }

    /** `disable`: the registry is dropped. */
    method Disable()
      modifies this
      ensures Valid() && windows == null
    {
      windows := null;
    }

    /**
     * The pick callback for slot `index`, given the window list: stores the
     * first focused window, then announces what the slot holds.
     */
    method Pick(index: SlotIndex, list: seq<WindowDesc>) returns (r: Result<string, JsError>)
      requires Valid()
      modifies windows
      ensures Valid() && windows == old(windows)
      ensures windows == null ==> r == Failure(TypeError)
      ensures windows != null ==> windows[..] == AfterPick(old(windows[..]), index, list)
      ensures windows != null ==> r == Announcement(windows[index])
    {
      var i := 0;
      while i < |list|
        invariant 0 <= i <= |list|
        invariant forall k :: 0 <= k < i ==> !list[k].focus
        invariant windows != null ==> windows[..] == old(windows[..])
      {
        if list[i].focus {
          if windows == null {
            // the assignment into `null` throws
            return Failure(TypeError);
          }
          windows[index] := Some(list[i]);
          break;
        }
        i := i + 1;
      }
      if windows == null {
        // the notification reads a slot of `null`
        return Failure(TypeError);
      }
      r := Announcement(windows[index]);
    }

    /** The goto callback for slot `index`: the id handed to `Activate`, if any. */
    method Goto(index: SlotIndex) returns (r: Result<Option<int>, JsError>)
      requires Valid()
      ensures windows == null ==> r == Failure(TypeError)
      ensures windows != null ==> r == Success(JumpTarget(windows[..], index))
    {
      if windows == null {
        return Failure(TypeError);
      }
      var slot := windows[index];
      if slot.Some? {
        r := Success(Some(slot.value.id));
      } else {
        r := Success(None);
      }
    }
  }
}
