/**
 * The selection tracker (SelectionService): which component currently owns
 * the pointer gesture, whether a gesture is in progress, and the selection
 * recorded for every component id. Positions are `size_t`, hence `nat`.
 */
module SelectionTracking {
  import opened Wrappers

  /** One map entry: the two gesture positions and a text to cut from. */
  datatype Selection = Selection(start: nat, end: nat, text: string)

  /** A normalised range, as `getSelectionRange` returns it. */
  datatype Range = Range(lo: nat, hi: nat)

  /** A `std::string` result, or the `std::out_of_range` that `substr` throws. */
  datatype Result<T> = Ok(value: T) | OutOfRange

  function Min(a: nat, b: nat): nat { if a <= b then a else b }

  function Max(a: nat, b: nat): nat { if a <= b then b else a }

  /** The (min, max) pair of an entry's two positions. */
  function Normalize(s: Selection): (r: Range)
    ensures r.lo <= r.hi
    ensures multiset{r.lo, r.hi} == multiset{s.start, s.end}
  {
    Range(Min(s.start, s.end), Max(s.start, s.end))
  }

  /**
   * `std::string::substr(pos, count)`: throws when `pos` is past the end,
   * otherwise the at most `count` characters that start at `pos`.
   */
  function Substr(s: string, pos: nat, count: nat): (r: Result<string>)
    ensures r.OutOfRange? <==> pos > |s|
    ensures r.Ok? ==> |r.value| == Min(count, |s| - pos)
    ensures r.Ok? ==> forall i :: 0 <= i < |r.value| ==> r.value[i] == s[pos + i]
  {
    if pos > |s| then OutOfRange else Ok(s[pos .. pos + Min(count, |s| - pos)])
  }

  /**
   * `selections_[id]`: the stored entry, or the value-initialised one that
   * `operator[]` inserts for a missing key.
   */
  function EntryOrDefault(m: map<string, Selection>, id: string): Selection
  {
    if id in m then m[id] else Selection(0, 0, "")
  }

  class SelectionService {
    /** At most one entry per component id: the keys of a map are unique. */
    var selections: map<string, Selection>
    /** The one active component id; the empty string means none. */
    var activeComponentId: string
    var isSelecting: bool

    constructor ()
      ensures selections == map[] && activeComponentId == "" && !isSelecting
    {
      selections := map[];
      activeComponentId := "";
      isSelecting := false;
    }

    /** The entry of the active component, when there is one. */
    function ActiveEntry(): Option<Selection>
      reads this
    {
      if activeComponentId != "" && activeComponentId in selections
      then Some(selections[activeComponentId])
      else None
    }

    /**
     * Makes `componentId` the active component and (re)starts its entry as an
     * empty range at `position` with an empty text; other entries survive.
     */
    method StartSelection(componentId: string, position: nat)
      modifies this
      ensures activeComponentId == componentId && isSelecting
      ensures componentId in selections && selections[componentId] == Selection(position, position, "")
      ensures selections.Keys == old(selections).Keys + {componentId}
      ensures forall id | id in old(selections) && id != componentId :: selections[id] == old(selections)[id]
    {
      activeComponentId := componentId;
      selections := selections[componentId := Selection(position, position, "")];
      isSelecting := true;
    }

    /**
     * Moves the end of the active entry. Does nothing unless a gesture is in
     * progress on a non-empty id; a missing entry is first default-inserted.
     */
    method UpdateSelection(position: nat)
      modifies this`selections
      ensures !old(isSelecting) || activeComponentId == "" ==> selections == old(selections)
      ensures isSelecting && activeComponentId != "" ==>
        && activeComponentId in selections
        && selections[activeComponentId].end == position
        && selections[activeComponentId].start == EntryOrDefault(old(selections), activeComponentId).start
        && selections[activeComponentId].text == EntryOrDefault(old(selections), activeComponentId).text
        && selections.Keys == old(selections).Keys + {activeComponentId}
        && forall id | id in old(selections) && id != activeComponentId :: selections[id] == old(selections)[id]
    {
      if !isSelecting || activeComponentId == "" {
        return;
      }
      var selection := EntryOrDefault(selections, activeComponentId);
      selections := selections[activeComponentId := selection.(end := position)];
    }

    /** Ends the gesture; the active id and every entry are kept. */
    method EndSelection()
      modifies this`isSelecting
      ensures !isSelecting
    {
      isSelecting := false;
    }

    /** Sets the text of an existing entry; an unknown id creates nothing. */
    method SetComponentText(componentId: string, text: string)
      modifies this`selections
      ensures selections.Keys == old(selections).Keys
      ensures componentId in selections ==>
        selections[componentId] == old(selections)[componentId].(text := text)
      ensures forall id | id in selections && id != componentId :: selections[id] == old(selections)[id]
    {
      if componentId in selections {
        var selection := selections[componentId];
        selections := selections[componentId := selection.(text := text)];
      }
    }

    /**
     * The active entry's text cut to its normalised range, clipped at the end
     * of the text; `""` when nothing is active; out of range when the range
     * starts past the end of the text.
     */
    function GetSelectedText(): (r: Result<string>)
      reads this
      ensures ActiveEntry().None? ==> r == Ok("")
      ensures ActiveEntry().Some? ==>
        var e := ActiveEntry().value;
        && (r.OutOfRange? <==> Normalize(e).lo > |e.text|)
        && (r.Ok? ==> r.value == e.text[Normalize(e).lo .. Min(Normalize(e).hi, |e.text|)])
    {
      if activeComponentId != "" && activeComponentId in selections then
        var selection := selections[activeComponentId];
        var start := Min(selection.start, selection.end);
        var end := Max(selection.start, selection.end);
        Substr(selection.text, start, end - start)
      else
        Ok("")
    }

    /**
     * Whether `componentId` has an entry whose two positions differ, which is
     * the same as a non-empty normalised range.
     */
    function HasSelection(componentId: string): (b: bool)
      reads this
      ensures b <==> componentId in selections && Normalize(selections[componentId]).lo < Normalize(selections[componentId]).hi
    {
      componentId in selections && selections[componentId].start != selections[componentId].end
    }

    /** The active entry's (min, max), or (0, 0) when nothing is active. */
    function GetSelectionRange(): (r: Range)
      reads this
      ensures r.lo <= r.hi
      ensures ActiveEntry().None? ==> r == Range(0, 0)
      ensures ActiveEntry().Some? ==> r == Normalize(ActiveEntry().value)
      ensures ActiveEntry().Some? ==> (HasSelection(activeComponentId) <==> r.lo < r.hi)
    {
      if activeComponentId != "" && activeComponentId in selections then
        var selection := selections[activeComponentId];
        Range(Min(selection.start, selection.end), Max(selection.start, selection.end))
      else
        Range(0, 0)
    }

    method ClearSelections()
      modifies this`selections
      ensures selections == map[]
    {
      selections := map[];
    }
  }

  /**
   * Selection isolation: starting on "B" after "A" keeps A's entry; A's
   * range is empty (a press alone), B's range follows the update.
   */
  method IsolationScenario() returns (entryA: Selection, hasA: bool, hasB: bool, range: Range)
    ensures entryA == Selection(5, 5, "") && !hasA
    ensures hasB && range == Range(2, 9)
  {
    var tracker := new SelectionService();
    tracker.StartSelection("A", 5);
    tracker.StartSelection("B", 2);
    tracker.UpdateSelection(9);
    entryA := tracker.selections["A"];
    hasA := tracker.HasSelection("A");
    hasB := tracker.HasSelection("B");
    range := tracker.GetSelectionRange();
  }

  /**
   * A right-to-left drag followed by release: the range is normalised and the
   * queries still answer after `endSelection`.
   */
  method ReleasedDragScenario(id: string, from: nat, to: nat, text: string) returns (range: Range, selected: Result<string>)
    requires id != ""
    requires to < from <= |text|
    ensures range == Range(to, from)
    ensures selected == Ok(text[to .. from])
  {
    var tracker := new SelectionService();
    tracker.StartSelection(id, from);
    tracker.UpdateSelection(to);
    tracker.SetComponentText(id, text);
    tracker.EndSelection();
    range := tracker.GetSelectionRange();
    selected := tracker.GetSelectedText();
  }
}
