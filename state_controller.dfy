/**
 * The layout's model, as far as the layout adapter sees it. The controller
 * that owns the model is not part of this model: its layout assembly (frames
 * and content height from the sections) is the function `Assemble` passed to
 * every operation that changes sections, and its diff algorithm is a function
 * parameter of the adapter. What is modelled here are the item and section
 * values the adapter builds and the controller's visible transitions.
 */
module StateController {
  import opened Wrappers
  import opened Geometry
  import opened LayoutTypes

  /** One header, cell or footer: how it is aligned, its estimate and its measured size. */
  datatype ItemModel = ItemModel(alignment: ChatItemAlignment, preferredSize: Size, calculatedSize: Option<Size>) {

    /** The size the layout uses: the measured one once there is one, else the estimate. */
    function EffectiveSize(): (s: Size)
      ensures calculatedSize.Some? ==> s == calculatedSize.value
      ensures calculatedSize.None? ==> s == preferredSize
    {
      calculatedSize.GetOr(preferredSize)
    }

    /** Forget the measurement, so that the item is estimated again. */
    function ResetSize(): (r: ItemModel)
      ensures r.calculatedSize.None? && r.alignment == alignment && r.preferredSize == preferredSize
      ensures r.EffectiveSize() == preferredSize
    {
      ItemModel(alignment, preferredSize, None)
    }
  }

  datatype SectionModel = SectionModel(header: Option<ItemModel>, items: seq<ItemModel>, footer: Option<ItemModel>)

  /** The address of an element in one state of the model. */
  datatype ItemKey = ItemKey(kind: ItemKind, path: ItemPath)

  /** What the controller's assembly computes from the sections. */
  datatype Assembly = Assembly(contentHeight: real, frames: map<ItemKey, Rect>)

  type Assemble = seq<SectionModel> -> Assembly

  datatype LayoutModel = LayoutModel(sections: seq<SectionModel>, geometry: Assembly)

  /** The controller's state: the model before and after the batch update in flight, and its offsets. */
  datatype Controller = Controller(
    models: PerState<LayoutModel>,
    proposedCompensatingOffset: real,
    totalProposedCompensatingOffset: real,
    batchUpdateCompensatingOffset: real,
    isAnimatedBoundsChange: bool)

  function Assembled(sections: seq<SectionModel>, assemble: Assemble): (m: LayoutModel)
    ensures m.sections == sections && m.geometry == assemble(sections)
  {
    LayoutModel(sections, assemble(sections))
  }

  /** A controller with no sections in either state and no pending offsets. */
  function Initial(assemble: Assemble): (c: Controller)
    ensures c.models.before.sections == [] && c.models.after.sections == []
    ensures c.proposedCompensatingOffset == 0.0 && c.totalProposedCompensatingOffset == 0.0
    ensures c.batchUpdateCompensatingOffset == 0.0 && !c.isAnimatedBoundsChange
  {
    var empty := Assembled([], assemble);
    Controller(PerState(empty, empty), 0.0, 0.0, 0.0, false)
  }

  function ContentHeight(c: Controller, state: ModelState): real
  {
    c.models.At(state).geometry.contentHeight
  }

  function NumberOfSections(c: Controller, state: ModelState): nat
  {
    |c.models.At(state).sections|
  }

  /** The frame of an element in a state, if the element exists there. */
  function ItemFrame(c: Controller, key: ItemKey, state: ModelState): (r: Option<Rect>)
    ensures r.Some? <==> key in c.models.At(state).geometry.frames
    ensures r.Some? ==> r.value == c.models.At(state).geometry.frames[key]
  {
    var frames := c.models.At(state).geometry.frames;
    if key in frames then Some(frames[key]) else None
  }

  /** The frames of every element in a state. */
  function Frames(c: Controller, state: ModelState): map<ItemKey, Rect>
  {
    c.models.At(state).geometry.frames
  }

  /** The elements of a state whose frames overlap `rect`. */
  function ElementsIn(c: Controller, rect: Rect, state: ModelState): (r: set<ItemKey>)
    ensures r <= Frames(c, state).Keys
    ensures forall k :: k in r <==> k in Frames(c, state) && Intersects(Frames(c, state)[k], rect)
  {
    var frames := Frames(c, state);
    set k | k in frames && Intersects(frames[k], rect)
  }

  /** Whether the content in a state is taller than the visible part of the view. */
  predicate IsLayoutBiggerThanVisibleBounds(c: Controller, state: ModelState, visibleHeight: real)
  {
    ContentHeight(c, state) > visibleHeight
  }

  /**
   * Replace the sections of one state and reassemble it; the other state
   * and the offsets stay as they are.
   */
  function Set(c: Controller, sections: seq<SectionModel>, state: ModelState, assemble: Assemble): (r: Controller)
    ensures r.models.At(state).sections == sections
    ensures r.models.At(state).geometry == assemble(sections)
    ensures forall other: ModelState :: other != state ==> r.models.At(other) == c.models.At(other)
    ensures r.(models := c.models) == c
  {
    c.(models := c.models.With(state, Assembled(sections, assemble)))
  }

  /**
   * The end of a batch: the after-update model becomes the model, and the
   * compensating offsets are used up.
   */
  function Commit(c: Controller): (r: Controller)
    ensures r.models.before == c.models.after && r.models.after == c.models.after
    ensures r.proposedCompensatingOffset == 0.0 && r.totalProposedCompensatingOffset == 0.0
    ensures r.batchUpdateCompensatingOffset == 0.0
    ensures r.isAnimatedBoundsChange == c.isAnimatedBoundsChange
  {
    Controller(PerState(c.models.after, c.models.after), 0.0, 0.0, 0.0, c.isAnimatedBoundsChange)
  }

  /** The element at an address, if there is one. */
  function ItemAt(sections: seq<SectionModel>, key: ItemKey): (r: Option<ItemModel>)
    ensures key.path.section >= |sections| ==> r.None?
    ensures key.kind == Cell && key.path.section < |sections| ==>
      (r.Some? <==> key.path.item < |sections[key.path.section].items|)
  {
    if key.path.section >= |sections| then None
    else
      var section := sections[key.path.section];
      match key.kind
      case Header => section.header
      case Footer => section.footer
      case Cell => if key.path.item < |section.items| then Some(section.items[key.path.item]) else None
  }

  /**
   * Whether two addresses name the same element: headers and footers are
   * addressed by their section alone.
   */
  predicate SameElement(a: ItemKey, b: ItemKey)
  {
    a.kind == b.kind && a.path.section == b.path.section && (a.kind == Cell ==> a.path.item == b.path.item)
  }

  /** Put `item` at an address that holds an element. */
  function WithItem(sections: seq<SectionModel>, key: ItemKey, item: ItemModel): (r: seq<SectionModel>)
    requires ItemAt(sections, key).Some?
    ensures |r| == |sections|
  {
    var s := key.path.section;
    var section := sections[s];
    var updated := match key.kind
      case Header => section.(header := Some(item))
      case Footer => section.(footer := Some(item))
      case Cell => section.(items := section.items[key.path.item := item]);
    sections[s := updated]
  }

  /** After `WithItem`, the address holds the new element and every other address what it held. */
  lemma WithItemAt(sections: seq<SectionModel>, key: ItemKey, item: ItemModel, other: ItemKey)
    requires ItemAt(sections, key).Some?
    ensures ItemAt(WithItem(sections, key, item), key) == Some(item)
    ensures SameElement(other, key) ==> ItemAt(WithItem(sections, key, item), other) == Some(item)
    ensures !SameElement(other, key) ==> ItemAt(WithItem(sections, key, item), other) == ItemAt(sections, other)
  {
    var r := WithItem(sections, key, item);
    var s, t := key.path.section, other.path.section;
    if t < |sections| {
      if t != s {
        assert r[t] == sections[t];
      } else if other.kind == Cell && key.kind == Cell && other.path.item != key.path.item {
        assert r[t].items == sections[t].items[key.path.item := item];
      }
    }
  }

  /** The controller's item lookup in one state. */
  function Item(c: Controller, key: ItemKey, state: ModelState): Option<ItemModel>
  {
    ItemAt(c.models.At(state).sections, key)
  }

  /**
   * Change one element's alignment in a state and reassemble that state; a
   * missing element leaves the controller as it is.
   */
  function UpdateAlignment(c: Controller, alignment: ChatItemAlignment, key: ItemKey, state: ModelState,
                           assemble: Assemble): (r: Controller)
    ensures Item(c, key, state).None? ==> r == c
    ensures Item(c, key, state).Some? ==> Item(r, key, state) == Some(Item(c, key, state).value.(alignment := alignment))
  {
    match Item(c, key, state)
    case None => c
    case Some(item) =>
      var sections := c.models.At(state).sections;
      WithItemAt(sections, key, item.(alignment := alignment), key);
      Set(c, WithItem(sections, key, item.(alignment := alignment)), state, assemble)
  }

  /**
   * Record an element's measured size in a state and reassemble that state; a
   * missing element leaves the controller as it is.
   */
  function UpdatePreferredSize(c: Controller, size: Size, key: ItemKey, state: ModelState,
                               assemble: Assemble): (r: Controller)
    ensures Item(c, key, state).None? ==> r == c
    ensures Item(c, key, state).Some? ==>
      Item(r, key, state) == Some(Item(c, key, state).value.(calculatedSize := Some(size)))
  {
    match Item(c, key, state)
    case None => c
    case Some(item) =>
      var sections := c.models.At(state).sections;
      WithItemAt(sections, key, item.(calculatedSize := Some(size)), key);
      Set(c, WithItem(sections, key, item.(calculatedSize := Some(size))), state, assemble)
  }

  /**
   * Recording a self-sized element (its measured size, then its alignment)
   * changes that element and nothing else of the state.
   */
  lemma MeasureThenAlign(c: Controller, size: Size, alignment: ChatItemAlignment, key: ItemKey, state: ModelState,
                         assemble: Assemble)
    ensures var r := UpdateAlignment(UpdatePreferredSize(c, size, key, state, assemble), alignment, key, state, assemble);
      && (Item(c, key, state).None? ==> r == c)
      && (Item(c, key, state).Some? ==>
            Item(r, key, state) == Some(Item(c, key, state).value.(calculatedSize := Some(size), alignment := alignment)))
      && (forall other :: !SameElement(other, key) ==> Item(r, other, state) == Item(c, other, state))
      && (forall s: ModelState :: s != state ==> r.models.At(s) == c.models.At(s))
      && (Item(c, key, state).Some? ==> r.models.At(state).geometry == assemble(r.models.At(state).sections))
      && r.(models := c.models) == c
  {
    var measured := UpdatePreferredSize(c, size, key, state, assemble);
    UpdatesAreLocalAcrossStates(c, alignment, size, key, state, assemble);
    UpdatesAreLocalAcrossStates(measured, alignment, size, key, state, assemble);
    forall other | !SameElement(other, key)
      ensures Item(UpdateAlignment(measured, alignment, key, state, assemble), other, state) == Item(c, other, state)
    {
      UpdatesAreLocal(c, alignment, size, key, other, state, assemble);
      UpdatesAreLocal(measured, alignment, size, key, other, state, assemble);
    }
  }

  /** Updating one element leaves every other element of that state, and the other state, alone. */
  lemma UpdatesAreLocal(c: Controller, alignment: ChatItemAlignment, size: Size, key: ItemKey, other: ItemKey,
                        state: ModelState, assemble: Assemble)
    requires !SameElement(other, key)
    ensures Item(UpdateAlignment(c, alignment, key, state, assemble), other, state) == Item(c, other, state)
    ensures Item(UpdatePreferredSize(c, size, key, state, assemble), other, state) == Item(c, other, state)
  {
    var sections := c.models.At(state).sections;
    if Item(c, key, state).Some? {
      var item := Item(c, key, state).value;
      WithItemAt(sections, key, item.(alignment := alignment), other);
      WithItemAt(sections, key, item.(calculatedSize := Some(size)), other);
    }
  }

  /**
   * Updating one element in a state leaves the other state as it was, and
   * the updated state is reassembled from its new sections.
   */
  lemma UpdatesAreLocalAcrossStates(c: Controller, alignment: ChatItemAlignment, size: Size, key: ItemKey,
                                    state: ModelState, assemble: Assemble)
    ensures forall s: ModelState :: s != state ==>
      UpdateAlignment(c, alignment, key, state, assemble).models.At(s) == c.models.At(s)
    ensures forall s: ModelState :: s != state ==>
      UpdatePreferredSize(c, size, key, state, assemble).models.At(s) == c.models.At(s)
    ensures Item(c, key, state).Some? ==>
      var r := UpdateAlignment(c, alignment, key, state, assemble);
      r.models.At(state).geometry == assemble(r.models.At(state).sections)
    ensures Item(c, key, state).Some? ==>
      var r := UpdatePreferredSize(c, size, key, state, assemble);
      r.models.At(state).geometry == assemble(r.models.At(state).sections)
  {
  }
}
