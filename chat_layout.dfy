/**
 * The layout adapter: the object the collection view drives through its
 * layout lifecycle (invalidate, prepare, query attributes, announce a batch
 * update, finalize). It keeps which preparation work is pending, which copy
 * of the model is current, whether attributes may be returned, and the caches
 * it compares the view against; it turns self-sizing answers, position
 * snapshots and pending compensations into content-offset adjustments.
 *
 * The collection view is a value (`HostView`) that the host replaces between
 * calls. The layout controller's assembly is the `assemble` function and its
 * diff is the `process` function: both are fixed when the layout is created.
 */
module ChatLayoutEngine {
  import opened Wrappers
  import opened Geometry
  import opened LayoutTypes
  import opened StateController
  import opened UpdateItems
  import opened ContentOffset

  /**
   * The questions the layout asks its delegate. The size question also gets
   * the layout frame's width, which is what a delegate reads off the layout.
   */
  datatype LayoutDelegate = LayoutDelegate(
    shouldPresentHeader: nat -> bool,
    shouldPresentFooter: nat -> bool,
    sizeForItem: (ItemKind, ItemPath, real) -> ItemSize,
    alignmentForItem: (ItemKind, ItemPath) -> ChatItemAlignment)

  datatype ChatLayoutSettings = ChatLayoutSettings(estimatedItemSize: Option<Size>, additionalInsets: Insets)

  const DefaultSettings := ChatLayoutSettings(None, ZeroInsets)

  /** What the layout reads off the collection view. `numberOfItems[s]` is the item count of section `s`. */
  datatype HostView = HostView(
    numberOfItems: seq<nat>,
    bounds: Rect,
    frame: Rect,
    adjustedContentInset: Insets,
    contentOffset: Point,
    isDragging: bool,
    isDecelerating: bool,
    isPrefetchingEnabled: bool)

  /** The work `Prepare` still has to do, one flag per kind of work. */
  datatype PrepareActions = PrepareActions(
    recreateSectionModels: bool,
    updateLayoutMetrics: bool,
    cachePreviousWidth: bool,
    cachePreviousContentInsets: bool,
    switchStates: bool)
  {
    predicate IsEmpty() {
      !recreateSectionModels && !updateLayoutMetrics && !cachePreviousWidth && !cachePreviousContentInsets && !switchStates
    }
  }

  const NoPrepareActions := PrepareActions(false, false, false, false, false)

  /** A one-shot request to invalidate on the next bounds change. */
  datatype InvalidationAction = ShouldInvalidateOnBoundsChange

  /** What an invalidation asks for. */
  datatype InvalidationContext = InvalidationContext(
    invalidateEverything: bool,
    invalidateDataSourceCounts: bool,
    invalidateLayoutMetrics: bool,
    contentOffsetAdjustment: Point,
    contentSizeAdjustment: Size)

  /** A new layout context: re-measure, nothing else, no adjustment. */
  const FreshContext := InvalidationContext(false, false, true, ZeroPoint, ZeroSize)

  /** An element and how far it was from one edge of the visible area. */
  datatype PositionSnapshot = PositionSnapshot(key: ItemKey, edge: Edge, offset: real)

  /** An element's starting size, and its exact size when the delegate fixed one. */
  datatype SizeEstimate = SizeEstimate(estimated: Size, exact: Option<Size>)

  /** The estimated height used when neither the settings nor the delegate give one. */
  const DefaultEstimatedHeight: real := 40.0

  /** Every element kind, in declaration order. */
  const ItemKindCases: seq<ItemKind> := [Header, Cell, Footer]

  /**
   * The element nearest the edge among `ks`: the smallest bottom for the top
   * edge, the largest bottom for the bottom edge.
   */
  predicate Extremal(edge: Edge, frames: map<ItemKey, Rect>, ks: set<ItemKey>, k: ItemKey)
    requires ks <= frames.Keys
  {
    k in ks &&
    forall j :: j in ks ==>
      (if edge == Top then frames[k].MaxY() <= frames[j].MaxY() else frames[j].MaxY() <= frames[k].MaxY())
  }

  /** A non-empty set of elements has an element nearest to either edge. */
  lemma {:induction false} ExtremalExists(edge: Edge, frames: map<ItemKey, Rect>, ks: set<ItemKey>)
    requires ks != {} && ks <= frames.Keys
    ensures exists k :: Extremal(edge, frames, ks, k)
    decreases ks
  {
    var x :| x in ks;
    var rest := ks - {x};
    if rest == {} {
      assert ks == {x};
      assert Extremal(edge, frames, ks, x);
    } else {
      ExtremalExists(edge, frames, rest);
      var y :| Extremal(edge, frames, rest, y);
      if (edge == Top && frames[x].MaxY() <= frames[y].MaxY()) || (edge == Bottom && frames[y].MaxY() <= frames[x].MaxY()) {
        assert Extremal(edge, frames, ks, x);
      } else {
        assert Extremal(edge, frames, ks, y);
      }
    }
  }

  class ChatLayout {
    var delegate: Option<LayoutDelegate>
    var settings: ChatLayoutSettings
    var keepContentOffsetAtBottomOnBatchUpdates: bool
    var collectionView: Option<HostView>

    /** The controller's layout assembly and its batch-update diff. */
    const assemble: Assemble
    const process: (Controller, seq<UpdateItem>) -> Controller

    var controller: Controller
    var state: ModelState
    var prepareActions: PrepareActions
    var invalidationActions: set<InvalidationAction>
    var cachedCollectionViewSize: Option<Size>
    var cachedCollectionViewInset: Option<Insets>
    var attributesForPendingAnimations: map<ItemKind, map<ItemPath, Rect>>
    var invalidatedAttributes: map<ItemKind, set<ItemPath>>
    var dontReturnAttributes: bool
    var currentPositionSnapshot: Option<PositionSnapshot>

    /** A detached layout: no view, no delegate, an empty model, and no attributes returned until prepared. */
    constructor(assemble: Assemble, process: (Controller, seq<UpdateItem>) -> Controller)
      ensures this.assemble == assemble && this.process == process
      ensures delegate.None? && settings == DefaultSettings && !keepContentOffsetAtBottomOnBatchUpdates
      ensures collectionView.None?
      ensures controller == Initial(assemble) && state == BeforeUpdate
      ensures prepareActions == NoPrepareActions && invalidationActions == {}
      ensures cachedCollectionViewSize.None? && cachedCollectionViewInset.None?
      ensures NoPendingAnimations()
      ensures NoInvalidatedAttributes()
      ensures dontReturnAttributes && currentPositionSnapshot.None?
    {
      this.assemble := assemble;
      this.process := process;
      delegate := None;
      settings := DefaultSettings;
      keepContentOffsetAtBottomOnBatchUpdates := false;
      collectionView := None;
      controller := Initial(assemble);
      state := BeforeUpdate;
      prepareActions := NoPrepareActions;
      invalidationActions := {};
      cachedCollectionViewSize := None;
      cachedCollectionViewInset := None;
      attributesForPendingAnimations := map[];
      invalidatedAttributes := map[];
      dontReturnAttributes := true;
      currentPositionSnapshot := None;
      new;
      ResetAttributesForPendingAnimations();
      ResetInvalidatedAttributes();
    }

    // -------------------------------------------------------------------------
    // What the layout reads off the view

    /** The view's adjusted content insets, or none while the layout is detached. */
    function AdjustedContentInset(): (r: Insets)
      reads this`collectionView
      ensures collectionView.None? ==> r == ZeroInsets
      ensures collectionView.Some? ==> r == collectionView.value.adjustedContentInset
    {
      match collectionView
      case None => ZeroInsets
      case Some(view) => view.adjustedContentInset
    }

    /** The part of the content the user sees: the bounds less the insets, at the current offset. */
    function VisibleBounds(): (r: Rect)
      reads this`collectionView
      ensures collectionView.Some? ==>
        var view := collectionView.value;
        && r.MinY() == VisibleTop(view.contentOffset.y, view.adjustedContentInset)
        && r.size.height == VisibleHeight(view.bounds.size.height, view.adjustedContentInset)
        && r.MaxY() == VisibleBottom(view.contentOffset.y, view.bounds.size.height, view.adjustedContentInset)
      ensures collectionView.Some? ==>
        var view := collectionView.value;
        && r.origin.x == view.adjustedContentInset.left
        && r.size.width == view.bounds.size.width - view.adjustedContentInset.left - view.adjustedContentInset.right
      ensures collectionView.None? ==> r == ZeroRect
    {
      match collectionView
      case None => ZeroRect
      case Some(view) =>
        var inset := view.adjustedContentInset;
        Rect(Point(inset.left, VisibleTop(view.contentOffset.y, inset)),
             Size(view.bounds.size.width - inset.left - inset.right, VisibleHeight(view.bounds.size.height, inset)))
    }

    /** The width the elements are aligned in: the bounds less the view's and the additional insets. */
    function LayoutFrameWidth(): (w: real)
      reads this`collectionView, this`settings
      ensures collectionView.None? ==> w == 0.0
      ensures collectionView.Some? ==>
        w == VisibleBounds().size.width - settings.additionalInsets.left - settings.additionalInsets.right
    {
      match collectionView
      case None => 0.0
      case Some(view) =>
        var inset := view.adjustedContentInset;
        var extra := settings.additionalInsets;
        view.bounds.size.width - extra.left - extra.right - inset.left - inset.right
    }

    function BoundsSize(): Option<Size>
      reads this`collectionView
    {
      match collectionView
      case None => None
      case Some(view) => Some(view.bounds.size)
    }

    /** Whether the user is dragging the content or it is still moving after a drag. */
    predicate IsUserInitiatedScrolling()
      reads this`collectionView
      ensures collectionView.None? ==> !IsUserInitiatedScrolling()
      ensures collectionView.Some? ==>
        (IsUserInitiatedScrolling() <==> collectionView.value.isDragging || collectionView.value.isDecelerating)
    {
      collectionView.Some? && (collectionView.value.isDragging || collectionView.value.isDecelerating)
    }

    /** The largest vertical offset for the current state's content. */
    function MaxPossibleContentOffset(): (p: Point)
      reads this
      ensures p.x == 0.0
      ensures collectionView.Some? ==> p.y >= -collectionView.value.adjustedContentInset.top
      ensures collectionView.Some? ==>
        p.y == MaxPossibleContentOffsetY(ContentHeight(controller, state), collectionView.value.frame.size.height,
                                         collectionView.value.adjustedContentInset)
      ensures collectionView.None? ==> p == ZeroPoint
    {
      match collectionView
      case None => ZeroPoint
      case Some(view) =>
        Point(0.0, MaxPossibleContentOffsetY(ContentHeight(controller, state), view.frame.size.height,
                                             view.adjustedContentInset))
    }

    // -------------------------------------------------------------------------
    // Element configuration

    /**
     * The size an element starts with when neither the delegate nor the
     * element says otherwise: the settings' estimate, else the layout frame's
     * width by the default height, else nothing while detached.
     */
    function EstimatedItemSize(): (s: Size)
      reads this`collectionView, this`settings
      ensures settings.estimatedItemSize.Some? ==> s == settings.estimatedItemSize.value
      ensures settings.estimatedItemSize.None? && collectionView.None? ==> s == ZeroSize
      ensures settings.estimatedItemSize.None? && collectionView.Some? ==>
        s == Size(LayoutFrameWidth(), DefaultEstimatedHeight)
    {
      match settings.estimatedItemSize
      case Some(size) => size
      case None => if collectionView.None? then ZeroSize else Size(LayoutFrameWidth(), DefaultEstimatedHeight)
    }

    /**
     * An element's starting size: an automatic answer (or no delegate) gives
     * the default estimate; an estimate is taken as it is; an exact size is
     * both the estimate and the measured size.
     */
    function EstimatedSize(kind: ItemKind, path: ItemPath): (r: SizeEstimate)
      reads this`delegate, this`collectionView, this`settings
      ensures r.exact.Some? <==> delegate.Some? && delegate.value.sizeForItem(kind, path, LayoutFrameWidth()).Exact?
      ensures r.exact.Some? ==> r.exact.value == r.estimated
      ensures delegate.None? || delegate.value.sizeForItem(kind, path, LayoutFrameWidth()).Auto? ==>
        r == SizeEstimate(EstimatedItemSize(), None)
      ensures delegate.Some? && !delegate.value.sizeForItem(kind, path, LayoutFrameWidth()).Auto? ==>
        r.estimated == delegate.value.sizeForItem(kind, path, LayoutFrameWidth()).size
    {
      match delegate
      case None => SizeEstimate(EstimatedItemSize(), None)
      case Some(d) =>
        match d.sizeForItem(kind, path, LayoutFrameWidth())
        case Auto => SizeEstimate(EstimatedItemSize(), None)
        case Estimated(size) => SizeEstimate(size, None)
        case Exact(size) => SizeEstimate(size, Some(size))
    }

    /** An element's alignment: the delegate's answer, or full width without a delegate. */
    function Alignment(kind: ItemKind, path: ItemPath): (r: ChatItemAlignment)
      reads this`delegate
      ensures delegate.None? ==> r == FullWidth
      ensures delegate.Some? ==> r == delegate.value.alignmentForItem(kind, path)
    {
      match delegate
      case None => FullWidth
      case Some(d) => d.alignmentForItem(kind, path)
    }

    /**
     * A new element model. It is measured from the start exactly when the
     * delegate fixes its size, and its effective size is then that size.
     */
    function Configuration(kind: ItemKind, path: ItemPath): (m: ItemModel)
      reads this`delegate, this`collectionView, this`settings
      ensures m.alignment == Alignment(kind, path)
      ensures m.calculatedSize.Some? <==> delegate.Some? && delegate.value.sizeForItem(kind, path, LayoutFrameWidth()).Exact?
      ensures m.EffectiveSize() == EstimatedSize(kind, path).estimated
      ensures m.preferredSize == EstimatedSize(kind, path).estimated && m.calculatedSize == EstimatedSize(kind, path).exact
    {
      var size := EstimatedSize(kind, path);
      ItemModel(Alignment(kind, path), size.estimated, size.exact)
    }

    /** The size a self-sized element ends up with: the delegate's exact size wins over the measured one. */
    function ItemSizeWith(kind: ItemKind, path: ItemPath, preferredSize: Size): (s: Size)
      reads this`delegate, this`collectionView, this`settings
      ensures delegate.Some? && delegate.value.sizeForItem(kind, path, LayoutFrameWidth()).Exact? ==>
        s == delegate.value.sizeForItem(kind, path, LayoutFrameWidth()).size
      ensures !(delegate.Some? && delegate.value.sizeForItem(kind, path, LayoutFrameWidth()).Exact?) ==>
        s == preferredSize
    {
      match delegate
      case Some(d) =>
        (match d.sizeForItem(kind, path, LayoutFrameWidth())
         case Exact(size) => size
         case Auto => preferredSize
         case Estimated(_) => preferredSize)
      case None => preferredSize
    }

    /** Whether section `sectionIndex` gets a header: only when a delegate asks for one. */
    predicate ShouldPresentHeader(sectionIndex: nat)
      reads this`delegate
      ensures delegate.None? ==> !ShouldPresentHeader(sectionIndex)
      ensures delegate.Some? ==> (ShouldPresentHeader(sectionIndex) <==> delegate.value.shouldPresentHeader(sectionIndex))
    {
      delegate.Some? && delegate.value.shouldPresentHeader(sectionIndex)
    }

    /** Whether section `sectionIndex` gets a footer: only when a delegate asks for one. */
    predicate ShouldPresentFooter(sectionIndex: nat)
      reads this`delegate
      ensures delegate.None? ==> !ShouldPresentFooter(sectionIndex)
      ensures delegate.Some? ==> (ShouldPresentFooter(sectionIndex) <==> delegate.value.shouldPresentFooter(sectionIndex))
    {
      delegate.Some? && delegate.value.shouldPresentFooter(sectionIndex)
    }

    // -------------------------------------------------------------------------
    // Building the model from the view

    /** The first `n` item models of section `s`, as a rebuild creates them. */
    function ItemConfigurations(s: nat, n: nat): seq<ItemModel>
      reads this`delegate, this`collectionView, this`settings
    {
      if n == 0 then [] else ItemConfigurations(s, n - 1) + [Configuration(Cell, ItemPath(n - 1, s))]
    }

    /** Section `s` as a rebuild creates it from the view's item count and the delegate. */
    function RecreatedSection(s: nat): SectionModel
      reads this`delegate, this`collectionView, this`settings
      requires collectionView.Some? && s < |collectionView.value.numberOfItems|
    {
      SectionModel(
        if ShouldPresentHeader(s) then Some(Configuration(Header, ItemPath(0, s))) else None,
        ItemConfigurations(s, collectionView.value.numberOfItems[s]),
        if ShouldPresentFooter(s) then Some(Configuration(Footer, ItemPath(0, s))) else None)
    }

    /** The first `n` sections of a rebuild. */
    function RecreatedSectionsUpTo(n: nat): seq<SectionModel>
      reads this`delegate, this`collectionView, this`settings
      requires collectionView.Some? && n <= |collectionView.value.numberOfItems|
    {
      if n == 0 then [] else RecreatedSectionsUpTo(n - 1) + [RecreatedSection(n - 1)]
    }

    function RecreatedSections(): seq<SectionModel>
      reads this`delegate, this`collectionView, this`settings
      requires collectionView.Some?
    {
      RecreatedSectionsUpTo(|collectionView.value.numberOfItems|)
    }

    lemma {:induction false} ItemConfigurationsAt(s: nat, n: nat)
      ensures |ItemConfigurations(s, n)| == n
      ensures forall i :: 0 <= i < n ==> ItemConfigurations(s, n)[i] == Configuration(Cell, ItemPath(i, s))
    {
      if n > 0 {
        ItemConfigurationsAt(s, n - 1);
      }
    }

    lemma {:induction false} RecreatedSectionsUpToAt(n: nat)
      requires collectionView.Some? && n <= |collectionView.value.numberOfItems|
      ensures |RecreatedSectionsUpTo(n)| == n
      ensures forall s :: 0 <= s < n ==> RecreatedSectionsUpTo(n)[s] == RecreatedSection(s)
    {
      if n > 0 {
        RecreatedSectionsUpToAt(n - 1);
      }
    }

    /**
     * A rebuild has one section per section of the view and one item per item
     * of it, each configured at its own path; a section has a header or
     * footer exactly when the delegate asks for one.
     */
    lemma RecreatedSectionsMirrorTheView(s: nat, i: nat)
      requires collectionView.Some? && s < |collectionView.value.numberOfItems|
      ensures |RecreatedSections()| == |collectionView.value.numberOfItems|
      ensures |RecreatedSections()[s].items| == collectionView.value.numberOfItems[s]
      ensures i < collectionView.value.numberOfItems[s] ==>
        RecreatedSections()[s].items[i] == Configuration(Cell, ItemPath(i, s))
      ensures RecreatedSections()[s].header.Some? <==> ShouldPresentHeader(s)
      ensures RecreatedSections()[s].footer.Some? <==> ShouldPresentFooter(s)
      ensures RecreatedSections()[s].header.Some? ==> RecreatedSections()[s].header.value == Configuration(Header, ItemPath(0, s))
      ensures RecreatedSections()[s].footer.Some? ==> RecreatedSections()[s].footer.value == Configuration(Footer, ItemPath(0, s))
    {
      RecreatedSectionsUpToAt(|collectionView.value.numberOfItems|);
      ItemConfigurationsAt(s, collectionView.value.numberOfItems[s]);
    }

    /** Rebuild every section from the view. */
    method RecreateSections(view: HostView) returns (sections: seq<SectionModel>)
      requires collectionView == Some(view)
      ensures sections == RecreatedSections()
    {
      sections := [];
      var sectionIndex := 0;
      while sectionIndex < |view.numberOfItems|
        invariant sectionIndex <= |view.numberOfItems|
        invariant sections == RecreatedSectionsUpTo(sectionIndex)
      {
        var header := if ShouldPresentHeader(sectionIndex) then Some(Configuration(Header, ItemPath(0, sectionIndex))) else None;
        var items := [];
        var itemIndex := 0;
        while itemIndex < view.numberOfItems[sectionIndex]
          invariant itemIndex <= view.numberOfItems[sectionIndex]
          invariant items == ItemConfigurations(sectionIndex, itemIndex)
        {
          items := items + [Configuration(Cell, ItemPath(itemIndex, sectionIndex))];
          itemIndex := itemIndex + 1;
        }
        var footer := if ShouldPresentFooter(sectionIndex) then Some(Configuration(Footer, ItemPath(0, sectionIndex))) else None;
        sections := sections + [SectionModel(header, items, footer)];
        sectionIndex := sectionIndex + 1;
      }
    }

    /** The first `n` items with their measurements forgotten. */
    function ResetItems(items: seq<ItemModel>, n: nat): seq<ItemModel>
      requires n <= |items|
    {
      if n == 0 then [] else ResetItems(items, n - 1) + [items[n - 1].ResetSize()]
    }

    /**
     * Section `s` re-measured: headers and footers stay only where the
     * delegate still asks for them, and every element forgets its measured
     * size.
     */
    function ResetSection(section: SectionModel, s: nat): SectionModel
      reads this`delegate
    {
      SectionModel(
        if ShouldPresentHeader(s) then (match section.header case None => None case Some(h) => Some(h.ResetSize())) else None,
        ResetItems(section.items, |section.items|),
        if ShouldPresentFooter(s) then (match section.footer case None => None case Some(f) => Some(f.ResetSize())) else None)
    }

    function ResetSectionsUpTo(sections: seq<SectionModel>, n: nat): seq<SectionModel>
      reads this`delegate
      requires n <= |sections|
    {
      if n == 0 then [] else ResetSectionsUpTo(sections, n - 1) + [ResetSection(sections[n - 1], n - 1)]
    }

    lemma {:induction false} ResetItemsAt(items: seq<ItemModel>, n: nat)
      requires n <= |items|
      ensures |ResetItems(items, n)| == n
      ensures forall i :: 0 <= i < n ==> ResetItems(items, n)[i] == items[i].ResetSize()
    {
      if n > 0 {
        ResetItemsAt(items, n - 1);
      }
    }

    lemma {:induction false} ResetSectionsUpToAt(sections: seq<SectionModel>, n: nat)
      requires n <= |sections|
      ensures |ResetSectionsUpTo(sections, n)| == n
      ensures forall s :: 0 <= s < n ==> ResetSectionsUpTo(sections, n)[s] == ResetSection(sections[s], s)
    {
      if n > 0 {
        ResetSectionsUpToAt(sections, n - 1);
      }
    }

    /**
     * Re-measuring keeps every section and item where it was, with its
     * alignment and estimate, and leaves none of them measured.
     */
    lemma ResetKeepsStructure(sections: seq<SectionModel>, s: nat, i: nat)
      requires s < |sections|
      ensures |ResetSectionsUpTo(sections, |sections|)| == |sections|
      ensures |ResetSectionsUpTo(sections, |sections|)[s].items| == |sections[s].items|
      ensures i < |sections[s].items| ==>
        var item := ResetSectionsUpTo(sections, |sections|)[s].items[i];
        && item.calculatedSize.None?
        && item.alignment == sections[s].items[i].alignment
        && item.preferredSize == sections[s].items[i].preferredSize
      ensures ResetSectionsUpTo(sections, |sections|)[s].header.Some? <==>
        ShouldPresentHeader(s) && sections[s].header.Some?
      ensures ResetSectionsUpTo(sections, |sections|)[s].header.Some? ==>
        ResetSectionsUpTo(sections, |sections|)[s].header.value.calculatedSize.None?
      ensures ResetSectionsUpTo(sections, |sections|)[s].header.Some? ==>
        ResetSectionsUpTo(sections, |sections|)[s].header.value == sections[s].header.value.ResetSize()
      ensures ResetSectionsUpTo(sections, |sections|)[s].footer.Some? <==>
        ShouldPresentFooter(s) && sections[s].footer.Some?
      ensures ResetSectionsUpTo(sections, |sections|)[s].footer.Some? ==>
        ResetSectionsUpTo(sections, |sections|)[s].footer.value == sections[s].footer.value.ResetSize()
    {
      ResetSectionsUpToAt(sections, |sections|);
      ResetItemsAt(sections[s].items, |sections[s].items|);
    }

    /** Forget every measurement of the current model, section by section. */
    method ResetLayoutMetrics(sections: seq<SectionModel>) returns (reset: seq<SectionModel>)
      ensures reset == ResetSectionsUpTo(sections, |sections|)
    {
      reset := [];
      var sectionIndex := 0;
      while sectionIndex < |sections|
        invariant sectionIndex <= |sections|
        invariant reset == ResetSectionsUpTo(sections, sectionIndex)
      {
        var section := sections[sectionIndex];
        var header := if ShouldPresentHeader(sectionIndex) then
          (match section.header case None => None case Some(h) => Some(h.ResetSize())) else None;
        var items := [];
        var rowIndex := 0;
        while rowIndex < |section.items|
          invariant rowIndex <= |section.items|
          invariant items == ResetItems(section.items, rowIndex)
        {
          items := items + [section.items[rowIndex].ResetSize()];
          rowIndex := rowIndex + 1;
        }
        var footer := if ShouldPresentFooter(sectionIndex) then
          (match section.footer case None => None case Some(f) => Some(f.ResetSize())) else None;
        reset := reset + [SectionModel(header, items, footer)];
        sectionIndex := sectionIndex + 1;
      }
    }

    /** No element of any kind has a frame copy kept for an animation. */
    predicate NoPendingAnimations()
      reads this`attributesForPendingAnimations
    {
      forall k: ItemKind :: k in attributesForPendingAnimations && attributesForPendingAnimations[k] == map[]
    }

    /** No element of any kind is recorded as re-measured. */
    predicate NoInvalidatedAttributes()
      reads this`invalidatedAttributes
    {
      forall k: ItemKind :: k in invalidatedAttributes && invalidatedAttributes[k] == {}
    }

    /** Empty the copies kept for insert and delete animations, for every element kind. */
    method ResetAttributesForPendingAnimations()
      modifies this`attributesForPendingAnimations
      ensures NoPendingAnimations()
    {
      for i := 0 to |ItemKindCases|
        invariant forall j :: 0 <= j < i ==>
          ItemKindCases[j] in attributesForPendingAnimations && attributesForPendingAnimations[ItemKindCases[j]] == map[]
      {
        attributesForPendingAnimations := attributesForPendingAnimations[ItemKindCases[i] := map[]];
      }
      forall k: ItemKind ensures k in attributesForPendingAnimations && attributesForPendingAnimations[k] == map[] {
        var j := match k case Header => 0 case Cell => 1 case Footer => 2;
        assert ItemKindCases[j] == k;
      }
    }

    /** Empty the sets of elements re-measured during a batch, for every element kind. */
    method ResetInvalidatedAttributes()
      modifies this`invalidatedAttributes
      ensures NoInvalidatedAttributes()
    {
      for i := 0 to |ItemKindCases|
        invariant forall j :: 0 <= j < i ==>
          ItemKindCases[j] in invalidatedAttributes && invalidatedAttributes[ItemKindCases[j]] == {}
      {
        invalidatedAttributes := invalidatedAttributes[ItemKindCases[i] := {}];
      }
      forall k: ItemKind ensures k in invalidatedAttributes && invalidatedAttributes[k] == {} {
        var j := match k case Header => 0 case Cell => 1 case Footer => 2;
        assert ItemKindCases[j] == k;
      }
    }

    /**
     * Do the pending preparation work, in order: commit a finished batch,
     * rebuild the model or re-measure it, and cache the view's insets and
     * size. With no view or nothing pending, nothing happens; otherwise
     * nothing is pending afterwards. A view that prefetches cells is not
     * supported.
     */
    method Prepare()
      requires collectionView.Some? && !prepareActions.IsEmpty() ==> !collectionView.value.isPrefetchingEnabled
      modifies this`controller, this`state, this`attributesForPendingAnimations, this`invalidatedAttributes,
               this`cachedCollectionViewSize, this`cachedCollectionViewInset, this`prepareActions
      ensures old(collectionView.None? || prepareActions.IsEmpty()) ==>
        && controller == old(controller) && state == old(state) && prepareActions == old(prepareActions)
        && attributesForPendingAnimations == old(attributesForPendingAnimations)
        && invalidatedAttributes == old(invalidatedAttributes)
        && cachedCollectionViewSize == old(cachedCollectionViewSize)
        && cachedCollectionViewInset == old(cachedCollectionViewInset)
      ensures old(collectionView.Some? && !prepareActions.IsEmpty()) ==> prepareActions.IsEmpty()
      // switching states: the committed model becomes current and the per-batch bookkeeping is emptied
      ensures old(collectionView.Some? && prepareActions.switchStates) ==>
        && state == BeforeUpdate
        && NoPendingAnimations()
        && NoInvalidatedAttributes()
      ensures old(!prepareActions.switchStates) ==>
        && state == old(state)
        && attributesForPendingAnimations == old(attributesForPendingAnimations)
        && invalidatedAttributes == old(invalidatedAttributes)
      // the model: rebuilt from the view, or re-measured in the current state, on top of the commit
      ensures old(collectionView.Some? && prepareActions.recreateSectionModels) ==>
        controller == Set(old(CommittedController()), old(RecreatedSections()), BeforeUpdate, assemble)
      ensures old(collectionView.Some? && prepareActions.updateLayoutMetrics && !prepareActions.recreateSectionModels) ==>
        var sections := old(CommittedController()).models.At(state).sections;
        controller == Set(old(CommittedController()), ResetSectionsUpTo(sections, |sections|), state, assemble)
      ensures old(collectionView.Some? && !prepareActions.IsEmpty()
                  && !prepareActions.updateLayoutMetrics && !prepareActions.recreateSectionModels) ==>
        controller == old(CommittedController())
      // the caches
      ensures old(collectionView.Some? && prepareActions.cachePreviousContentInsets) ==>
        cachedCollectionViewInset == Some(old(AdjustedContentInset()))
      ensures old(!prepareActions.cachePreviousContentInsets) ==> cachedCollectionViewInset == old(cachedCollectionViewInset)
      ensures old(collectionView.Some? && prepareActions.cachePreviousWidth) ==>
        cachedCollectionViewSize == old(BoundsSize())
      ensures old(!prepareActions.cachePreviousWidth) ==> cachedCollectionViewSize == old(cachedCollectionViewSize)
    {
      if collectionView.None? || prepareActions.IsEmpty() {
        return;
      }
      var view := collectionView.value;
      SwitchStatesIfPending();
      RebuildModelIfPending(view);
      CacheViewIfPending(view);
      prepareActions := NoPrepareActions;
    }

    /** The controller once a pending switch of states is committed. */
    function CommittedController(): (c: Controller)
      reads this`prepareActions, this`controller
      ensures prepareActions.switchStates ==> c.models.before == controller.models.after
      ensures !prepareActions.switchStates ==> c == controller
    {
      if prepareActions.switchStates then Commit(controller) else controller
    }

    /** The first step of `Prepare`: commit a finished batch and make its model current. */
    method SwitchStatesIfPending()
      modifies this`controller, this`state, this`attributesForPendingAnimations, this`invalidatedAttributes
      ensures controller == old(CommittedController())
      ensures prepareActions.switchStates ==>
        && state == BeforeUpdate
        && NoPendingAnimations()
        && NoInvalidatedAttributes()
      ensures !prepareActions.switchStates ==>
        && state == old(state)
        && attributesForPendingAnimations == old(attributesForPendingAnimations)
        && invalidatedAttributes == old(invalidatedAttributes)
    {
      if prepareActions.switchStates {
        controller := Commit(controller);
        state := BeforeUpdate;
        ResetAttributesForPendingAnimations();
        ResetInvalidatedAttributes();
      }
    }

    /** The second step of `Prepare`: rebuild the model from the view, or re-measure the current state. */
    method RebuildModelIfPending(view: HostView)
      requires collectionView == Some(view)
      modifies this`controller
      ensures prepareActions.recreateSectionModels ==>
        controller == Set(old(controller), RecreatedSections(), BeforeUpdate, assemble)
      ensures prepareActions.updateLayoutMetrics && !prepareActions.recreateSectionModels ==>
        var sections := old(controller).models.At(state).sections;
        controller == Set(old(controller), ResetSectionsUpTo(sections, |sections|), state, assemble)
      ensures !prepareActions.updateLayoutMetrics && !prepareActions.recreateSectionModels ==>
        controller == old(controller)
    {
      if prepareActions.recreateSectionModels {
        var sections := RecreateSections(view);
        controller := Set(controller, sections, BeforeUpdate, assemble);
      }

      if prepareActions.updateLayoutMetrics && !prepareActions.recreateSectionModels {
        var sections := ResetLayoutMetrics(controller.models.At(state).sections);
        controller := Set(controller, sections, state, assemble);
      }
    }

    /** The last step of `Prepare`: remember the insets and the size the layout was prepared for. */
    method CacheViewIfPending(view: HostView)
      requires collectionView == Some(view)
      modifies this`cachedCollectionViewSize, this`cachedCollectionViewInset
      ensures prepareActions.cachePreviousContentInsets ==> cachedCollectionViewInset == Some(AdjustedContentInset())
      ensures !prepareActions.cachePreviousContentInsets ==> cachedCollectionViewInset == old(cachedCollectionViewInset)
      ensures prepareActions.cachePreviousWidth ==> cachedCollectionViewSize == BoundsSize()
      ensures !prepareActions.cachePreviousWidth ==> cachedCollectionViewSize == old(cachedCollectionViewSize)
    {
      if prepareActions.cachePreviousContentInsets {
        cachedCollectionViewInset := Some(AdjustedContentInset());
      }

      if prepareActions.cachePreviousWidth {
        cachedCollectionViewSize := Some(view.bounds.size);
      }
    }

    // -------------------------------------------------------------------------
    // Attribute queries

    /**
     * The elements overlapping `rect` in the current state, or nothing at all
     * between a change of the data source's counts and the announcement of the
     * batch update.
     */
    function LayoutAttributesForElements(rect: Rect): (r: Option<set<ItemKey>>)
      reads this`dontReturnAttributes, this`controller, this`state
      ensures r.None? <==> dontReturnAttributes
      ensures r.Some? ==> forall k :: k in r.value <==>
        ItemFrame(controller, k, state).Some? && Intersects(ItemFrame(controller, k, state).value, rect)
    {
      if dontReturnAttributes then None else Some(ElementsIn(controller, rect, state))
    }

    /** A cell's frame in the current state; nothing while attributes are withheld or the cell does not exist. */
    function LayoutAttributesForItem(path: ItemPath): (r: Option<Rect>)
      reads this`dontReturnAttributes, this`controller, this`state
      ensures dontReturnAttributes ==> r.None?
      ensures r.Some? <==> !dontReturnAttributes && ItemKey(Cell, path) in Frames(controller, state)
      ensures r.Some? ==> r.value == Frames(controller, state)[ItemKey(Cell, path)]
    {
      if dontReturnAttributes then None else ItemFrame(controller, ItemKey(Cell, path), state)
    }

    /** A header's or footer's frame in the current state, withheld in the same situations as a cell's. */
    function LayoutAttributesForSupplementaryView(kind: ItemKind, path: ItemPath): (r: Option<Rect>)
      reads this`dontReturnAttributes, this`controller, this`state
      ensures dontReturnAttributes ==> r.None?
      ensures r.Some? <==> !dontReturnAttributes && ItemKey(kind, path) in Frames(controller, state)
      ensures r.Some? ==> r.value == Frames(controller, state)[ItemKey(kind, path)]
    {
      if dontReturnAttributes then None else ItemFrame(controller, ItemKey(kind, path), state)
    }

    // -------------------------------------------------------------------------
    // Position snapshots

    /**
     * The elements a snapshot may anchor to: those overlapping the visible
     * area widened by one view height on either side, and, for the top edge,
     * starting at or below the visible top; for the bottom edge, starting at
     * or above the visible bottom.
     */
    function SnapshotCandidates(edge: Edge): (ks: set<ItemKey>)
      reads this`collectionView, this`controller, this`state
      requires collectionView.Some?
      ensures ks <= Frames(controller, state).Keys
    {
      var vb := VisibleBounds();
      var h := collectionView.value.frame.size.height;
      var search := Rect(Point(vb.origin.x, vb.origin.y - h), Size(vb.size.width, vb.size.height + 2.0 * h));
      var frames := Frames(controller, state);
      set k | k in ElementsIn(controller, search, state) &&
              (if edge == Top then frames[k].MinY() >= vb.MinY() else frames[k].MinY() <= vb.MaxY())
    }

    /**
     * A snapshot of the element nearest `edge` and its distance from it; none
     * without a view or when no element qualifies. Equally near elements may
     * be chosen in any order.
     */
    method GetContentOffsetSnapshot(edge: Edge) returns (snapshot: Option<PositionSnapshot>)
      ensures collectionView.None? ==> snapshot.None?
      ensures collectionView.Some? ==> (snapshot.None? <==> SnapshotCandidates(edge) == {})
      ensures snapshot.Some? ==>
        var view := collectionView.value;
        var s := snapshot.value;
        && s.edge == edge
        && Extremal(edge, Frames(controller, state), SnapshotCandidates(edge), s.key)
        && s.offset == SnapshotOffset(edge, Frames(controller, state)[s.key], view.contentOffset.y,
                                      view.bounds.size.height, view.adjustedContentInset, settings.additionalInsets)
    {
      if collectionView.None? {
        return None;
      }
      var view := collectionView.value;
      var candidates := SnapshotCandidates(edge);
      if candidates == {} {
        return None;
      }
      var frames := Frames(controller, state);
      ExtremalExists(edge, frames, candidates);
      var key :| Extremal(edge, frames, candidates, key);
      var vb := VisibleBounds();
      var offset := match edge
        case Top => frames[key].MinY() - vb.MinY() - settings.additionalInsets.top
        case Bottom => vb.MaxY() - frames[key].MaxY() - settings.additionalInsets.bottom;
      snapshot := Some(PositionSnapshot(key, edge, offset));
    }

    /**
     * The content-offset adjustment that brings a snapshot's element back to
     * its recorded distance from the edge. There is one only when the
     * element exists and the content is not empty and taller than the visible
     * area. For the top edge it puts the element's top back exactly; for the
     * bottom edge the new offset is the element's bottom at its recorded
     * distance, clamped to the range a restore may use.
     */
    function SnapshotAdjustment(snapshot: PositionSnapshot): (r: Option<real>)
      reads this`collectionView, this`controller, this`state, this`settings
      ensures r.Some? <==>
        && collectionView.Some?
        && ItemFrame(controller, snapshot.key, state).Some?
        && ContentHeight(controller, state) != 0.0
        && ContentHeight(controller, state) > VisibleBounds().size.height
      ensures r.Some? && snapshot.edge == Top ==>
        r.value + collectionView.value.contentOffset.y ==
          TopEdgeDesiredOffset(ItemFrame(controller, snapshot.key, state).value, snapshot.offset,
                               collectionView.value.adjustedContentInset, settings.additionalInsets)
      ensures r.Some? && snapshot.edge == Bottom ==>
        var view := collectionView.value;
        r.value + view.contentOffset.y ==
          BottomEdgeDesiredOffset(ItemFrame(controller, snapshot.key, state).value, snapshot.offset,
                                  ContentHeight(controller, state), view.frame.size.height, view.bounds.size.height,
                                  view.adjustedContentInset, settings.additionalInsets)
    {
      if collectionView.None? then None
      else
        var view := collectionView.value;
        var contentHeight := ContentHeight(controller, state);
        match ItemFrame(controller, snapshot.key, state)
        case None => None
        case Some(frame) =>
          if contentHeight != 0.0 && contentHeight > VisibleBounds().size.height then
            var desired := match snapshot.edge
              case Top => TopEdgeDesiredOffset(frame, snapshot.offset, view.adjustedContentInset, settings.additionalInsets)
              case Bottom =>
                BottomEdgeDesiredOffset(frame, snapshot.offset, contentHeight, view.frame.size.height,
                                        view.bounds.size.height, view.adjustedContentInset, settings.additionalInsets);
            Some(desired - view.contentOffset.y)
          else None
    }

    /**
     * A snapshot moves the content only when its element exists and the
     * content is not empty and taller than the visible area. For the top
     * edge the element's top goes back exactly to its recorded distance; for
     * the bottom edge the new offset never lies above the top inset and, with
     * a non-negative top inset, never past the largest allowed offset.
     */
    lemma SnapshotAdjustmentBounds(snapshot: PositionSnapshot)
      ensures var r := SnapshotAdjustment(snapshot);
        r.Some? <==>
          && collectionView.Some?
          && ItemFrame(controller, snapshot.key, state).Some?
          && ContentHeight(controller, state) != 0.0
          && ContentHeight(controller, state) > VisibleBounds().size.height
      ensures var r := SnapshotAdjustment(snapshot);
        r.Some? && snapshot.edge == Top ==>
          var inset := collectionView.value.adjustedContentInset;
          r.value + collectionView.value.contentOffset.y ==
            ItemFrame(controller, snapshot.key, state).value.MinY() - snapshot.offset - inset.top
              - settings.additionalInsets.top
      ensures var r := SnapshotAdjustment(snapshot);
        r.Some? && snapshot.edge == Bottom ==>
          var view := collectionView.value;
          var desired := r.value + view.contentOffset.y;
          && desired >= -view.adjustedContentInset.top
          && (view.adjustedContentInset.top >= 0.0 ==>
                desired <= MaxAllowedOffset(ContentHeight(controller, state), view.frame.size.height,
                                            view.adjustedContentInset))
    {
      if collectionView.Some? && ItemFrame(controller, snapshot.key, state).Some? {
        var view := collectionView.value;
        BottomEdgeDesiredOffsetInRange(ItemFrame(controller, snapshot.key, state).value, snapshot.offset,
                                       ContentHeight(controller, state), view.frame.size.height,
                                       view.bounds.size.height, view.adjustedContentInset, settings.additionalInsets);
      }
    }

    /**
     * Restoring a snapshot taken now, before anything moved, leaves the
     * content where it is (for the bottom edge, when the current offset is
     * one a restore may produce).
     */
    lemma FreshSnapshotRestoresInPlace(snapshot: PositionSnapshot)
      requires collectionView.Some? && snapshot.key in Frames(controller, state)
      requires snapshot.offset == SnapshotOffset(snapshot.edge, Frames(controller, state)[snapshot.key],
                                                 collectionView.value.contentOffset.y,
                                                 collectionView.value.bounds.size.height,
                                                 collectionView.value.adjustedContentInset, settings.additionalInsets)
      requires snapshot.edge == Bottom ==>
        var view := collectionView.value;
        -view.adjustedContentInset.top <= view.contentOffset.y <=
          MaxAllowedOffset(ContentHeight(controller, state), view.frame.size.height, view.adjustedContentInset)
      ensures SnapshotAdjustment(snapshot).None? || SnapshotAdjustment(snapshot) == Some(0.0)
    {
      var view := collectionView.value;
      var frame := Frames(controller, state)[snapshot.key];
      if snapshot.edge == Top {
        TopSnapshotRoundTrip(frame, view.contentOffset.y, view.bounds.size.height, view.adjustedContentInset,
                             settings.additionalInsets);
      } else {
        BottomSnapshotRoundTrip(frame, view.contentOffset.y, ContentHeight(controller, state), view.frame.size.height,
                                view.bounds.size.height, view.adjustedContentInset, settings.additionalInsets);
      }
    }

    // -------------------------------------------------------------------------
    // Invalidation

    /** The context after the pending snapshot, if any, has set its content-offset adjustment. */
    function WithSnapshotAdjustment(context: InvalidationContext): (r: InvalidationContext)
      reads this`currentPositionSnapshot, this`collectionView, this`controller, this`state, this`settings
      ensures r.(contentOffsetAdjustment := context.contentOffsetAdjustment) == context
      ensures r.contentOffsetAdjustment.x == context.contentOffsetAdjustment.x
      ensures currentPositionSnapshot.None? ==> r == context
      ensures currentPositionSnapshot.Some? && SnapshotAdjustment(currentPositionSnapshot.value).None? ==> r == context
      ensures currentPositionSnapshot.Some? && SnapshotAdjustment(currentPositionSnapshot.value).Some? ==>
        r.contentOffsetAdjustment.y == SnapshotAdjustment(currentPositionSnapshot.value).value
    {
      match currentPositionSnapshot
      case None => context
      case Some(snapshot) =>
        match SnapshotAdjustment(snapshot)
        case None => context
        case Some(dy) => context.(contentOffsetAdjustment := Point(context.contentOffsetAdjustment.x, dy))
    }

    /**
     * The preparation work an invalidation schedules: a rebuild when
     * everything is invalid; caching the size when the width is adjusted or
     * the view's size differs from the cached one; caching the insets when
     * they differ from the cached ones; re-measuring when metrics are invalid
     * and the counts are not. Work already pending stays pending.
     */
    method SchedulePreparation(context: InvalidationContext)
      modifies this`prepareActions
      ensures prepareActions.recreateSectionModels == (old(prepareActions.recreateSectionModels) || context.invalidateEverything)
      ensures prepareActions.updateLayoutMetrics ==
        (old(prepareActions.updateLayoutMetrics) || (context.invalidateLayoutMetrics && !context.invalidateDataSourceCounts))
      ensures prepareActions.cachePreviousWidth == (old(prepareActions.cachePreviousWidth)
        || context.contentSizeAdjustment.width != 0.0 || cachedCollectionViewSize != BoundsSize())
      ensures prepareActions.cachePreviousContentInsets ==
        (old(prepareActions.cachePreviousContentInsets) || cachedCollectionViewInset != Some(AdjustedContentInset()))
      ensures prepareActions.switchStates == old(prepareActions.switchStates)
    {
      if context.invalidateEverything {
        prepareActions := prepareActions.(recreateSectionModels := true);
      }
      if context.contentSizeAdjustment.width != 0.0 || cachedCollectionViewSize != BoundsSize() {
        prepareActions := prepareActions.(cachePreviousWidth := true);
      }
      if cachedCollectionViewInset != Some(AdjustedContentInset()) {
        prepareActions := prepareActions.(cachePreviousContentInsets := true);
      }
      if context.invalidateLayoutMetrics && !context.invalidateDataSourceCounts {
        prepareActions := prepareActions.(updateLayoutMetrics := true);
      }
    }

    /**
     * Invalidate with a context: attributes are withheld exactly when the
     * data source's counts changed without everything being invalid, the
     * context's work is scheduled, and a pending snapshot sets the
     * content-offset adjustment. Returns the context as it was applied.
     */
    method InvalidateLayout(context: InvalidationContext) returns (applied: InvalidationContext)
      modifies this`dontReturnAttributes, this`prepareActions
      ensures dontReturnAttributes == (context.invalidateDataSourceCounts && !context.invalidateEverything)
      ensures prepareActions.recreateSectionModels == (old(prepareActions.recreateSectionModels) || context.invalidateEverything)
      ensures prepareActions.updateLayoutMetrics ==
        (old(prepareActions.updateLayoutMetrics) || (context.invalidateLayoutMetrics && !context.invalidateDataSourceCounts))
      ensures prepareActions.cachePreviousWidth == (old(prepareActions.cachePreviousWidth)
        || context.contentSizeAdjustment.width != 0.0 || cachedCollectionViewSize != BoundsSize())
      ensures prepareActions.cachePreviousContentInsets ==
        (old(prepareActions.cachePreviousContentInsets) || cachedCollectionViewInset != Some(AdjustedContentInset()))
      ensures prepareActions.switchStates == old(prepareActions.switchStates)
      ensures applied == WithSnapshotAdjustment(context)
    {
      dontReturnAttributes := context.invalidateDataSourceCounts && !context.invalidateEverything;
      SchedulePreparation(context);
      applied := context;
      if currentPositionSnapshot.Some? && collectionView.Some? {
        var adjustment := SnapshotAdjustment(currentPositionSnapshot.value);
        if adjustment.Some? {
          applied := applied.(contentOffsetAdjustment := Point(applied.contentOffsetAdjustment.x, adjustment.value));
        }
      }
    }

    /**
     * Invalidate so that `snapshot`'s element returns to its recorded
     * distance from the edge, without re-measuring anything.
     */
    method RestoreContentOffset(snapshot: PositionSnapshot) returns (applied: InvalidationContext)
      modifies this`currentPositionSnapshot, this`dontReturnAttributes, this`prepareActions
      ensures currentPositionSnapshot.None?
      ensures !dontReturnAttributes
      ensures applied.contentOffsetAdjustment.y == SnapshotAdjustment(snapshot).GetOr(0.0)
      ensures prepareActions.updateLayoutMetrics == old(prepareActions.updateLayoutMetrics)
      ensures prepareActions.recreateSectionModels == old(prepareActions.recreateSectionModels)
      ensures prepareActions.switchStates == old(prepareActions.switchStates)
      ensures prepareActions.cachePreviousWidth == (old(prepareActions.cachePreviousWidth) || cachedCollectionViewSize != BoundsSize())
      ensures prepareActions.cachePreviousContentInsets ==
        (old(prepareActions.cachePreviousContentInsets) || cachedCollectionViewInset != Some(AdjustedContentInset()))
    {
      currentPositionSnapshot := Some(snapshot);
      var context := FreshContext.(invalidateLayoutMetrics := false);
      applied := InvalidateLayout(context);
      currentPositionSnapshot := None;
    }

    /**
     * Whether a bounds change needs a new layout: the size or the insets
     * differ from the cached ones, or a one-shot request is pending. The
     * request is used up either way.
     */
    method ShouldInvalidateLayoutForBoundsChange(newBounds: Rect) returns (b: bool)
      modifies this`invalidationActions
      ensures b <==> (cachedCollectionViewSize != Some(newBounds.size)
                      || cachedCollectionViewInset != Some(AdjustedContentInset())
                      || ShouldInvalidateOnBoundsChange in old(invalidationActions))
      ensures invalidationActions == old(invalidationActions) - {ShouldInvalidateOnBoundsChange}
    {
      b := cachedCollectionViewSize != Some(newBounds.size)
        || cachedCollectionViewInset != Some(AdjustedContentInset())
        || ShouldInvalidateOnBoundsChange in invalidationActions;
      invalidationActions := invalidationActions - {ShouldInvalidateOnBoundsChange};
    }

    /**
     * The context for a bounds change: the elements keep their measurements,
     * so invalidating with it never schedules a rebuild or a re-measurement.
     */
    function BoundsChangeContext(newBounds: Rect): (context: InvalidationContext)
      ensures !context.invalidateLayoutMetrics && !context.invalidateEverything
    {
      FreshContext.(invalidateLayoutMetrics := false)
    }

    /**
     * The offset to scroll to after an animated change: with a pending
     * compensation and a view, the proposal moved by it and kept within the
     * scrollable range, the compensation used up and a new layout requested
     * on the next bounds change; otherwise the proposal itself.
     */
    method TargetContentOffset(proposed: Point) returns (target: Point)
      modifies this`controller, this`invalidationActions
      ensures old(controller.proposedCompensatingOffset != 0.0 && collectionView.Some?) ==>
        var inset := collectionView.value.adjustedContentInset;
        && target == Point(proposed.x, CompensatedOffsetY(proposed.y, old(controller.proposedCompensatingOffset),
                                                         -inset.top, old(MaxPossibleContentOffset()).y))
        && -inset.top <= target.y <= old(MaxPossibleContentOffset()).y
        && controller == old(controller).(proposedCompensatingOffset := 0.0)
        && invalidationActions == old(invalidationActions) + {ShouldInvalidateOnBoundsChange}
      ensures !old(controller.proposedCompensatingOffset != 0.0 && collectionView.Some?) ==>
        target == proposed && controller == old(controller) && invalidationActions == old(invalidationActions)
    {
      if controller.proposedCompensatingOffset != 0.0 && collectionView.Some? {
        var view := collectionView.value;
        var minPossibleContentOffset := -view.adjustedContentInset.top;
        var maxY := MaxPossibleContentOffset().y;
        CompensatedOffsetInRange(proposed.y, controller.proposedCompensatingOffset, minPossibleContentOffset, maxY);
        target := Point(proposed.x, CompensatedOffsetY(proposed.y, controller.proposedCompensatingOffset,
                                                       minPossibleContentOffset, maxY));
        controller := controller.(proposedCompensatingOffset := 0.0);
        invalidationActions := invalidationActions + {ShouldInvalidateOnBoundsChange};
      } else {
        target := proposed;
      }
    }

    // -------------------------------------------------------------------------
    // Self-sizing

    /**
     * Whether a self-sized element needs a new layout: it does when the
     * element is unknown or not measured yet, or when its alignment changed,
     * in which case the new alignment is recorded.
     */
    method ShouldInvalidateLayoutForPreferred(key: ItemKey, preferredAlignment: ChatItemAlignment) returns (b: bool)
      modifies this`controller
      ensures var item := Item(old(controller), key, state);
        b <==> item.None? || item.value.calculatedSize.None? || item.value.alignment != preferredAlignment
      ensures var item := Item(old(controller), key, state);
        item.Some? && item.value.alignment != preferredAlignment ==>
          controller == UpdateAlignment(old(controller), preferredAlignment, key, state, assemble)
      ensures var item := Item(old(controller), key, state);
        item.None? || item.value.alignment == preferredAlignment ==> controller == old(controller)
    {
      var item := Item(controller, key, state);
      if item.None? {
        return true;
      }
      b := item.value.calculatedSize.None?;
      if item.value.alignment != preferredAlignment {
        controller := UpdateAlignment(controller, preferredAlignment, key, state, assemble);
        b := true;
      }
    }

    /**
     * Record a self-sized element's size and alignment and describe the new
     * layout: the content moves by exactly the height difference when the
     * element starts above the visible bottom and either the content is kept
     * at the bottom and (with the change) taller than the visible area, or
     * the user is scrolling; a new layout is then requested on the next
     * bounds change. The elements keep their other measurements.
     */
    method InvalidationContextForPreferred(key: ItemKey, preferredSize: Size, preferredAlignment: ChatItemAlignment,
                                           originalFrame: Rect) returns (context: InvalidationContext)
      modifies this`controller, this`invalidatedAttributes, this`invalidationActions
      ensures var newItemSize := ItemSizeWith(key.kind, key.path, preferredSize);
        var item := Item(old(controller), key, state);
        && (item.None? ==> Item(controller, key, state).None?)
        && (item.Some? ==>
              Item(controller, key, state) ==
                Some(item.value.(calculatedSize := Some(newItemSize), alignment := preferredAlignment)))
      ensures forall other :: !SameElement(other, key) ==> Item(controller, other, state) == Item(old(controller), other, state)
      ensures forall s: ModelState :: s != state ==> controller.models.At(s) == old(controller).models.At(s)
      ensures Item(old(controller), key, state).Some? ==>
        controller.models.At(state).geometry == assemble(controller.models.At(state).sections)
      ensures controller.(models := old(controller).models,
                          totalProposedCompensatingOffset := old(controller).totalProposedCompensatingOffset) == old(controller)
      ensures Item(old(controller), key, state).None? ==> controller.models == old(controller).models
      ensures controller.models ==
        UpdateAlignment(UpdatePreferredSize(old(controller), ItemSizeWith(key.kind, key.path, preferredSize), key, state,
                                            assemble), preferredAlignment, key, state, assemble).models
      ensures var heightDifference := ItemSizeWith(key.kind, key.path, preferredSize).height - originalFrame.size.height;
        && context.contentOffsetAdjustment == Point(0.0,
             SelfSizingAdjustment(heightDifference, originalFrame.MinY(), VisibleBounds().MaxY(),
                                  keepContentOffsetAtBottomOnBatchUpdates, ContentHeight(controller, state),
                                  VisibleBounds().size.height, IsUserInitiatedScrolling()))
        && controller.totalProposedCompensatingOffset ==
             old(controller.totalProposedCompensatingOffset)
               + (if ItemFrame(controller, key, state).Some? then heightDifference else 0.0)
      ensures ShouldInvalidateOnBoundsChange in invalidationActions <==>
        ShouldInvalidateOnBoundsChange in old(invalidationActions) || context.contentOffsetAdjustment.y != 0.0
      ensures !context.invalidateLayoutMetrics && !context.invalidateEverything && !context.invalidateDataSourceCounts
      ensures state == AfterUpdate && key.kind in old(invalidatedAttributes) ==>
        invalidatedAttributes == old(invalidatedAttributes)[key.kind := old(invalidatedAttributes)[key.kind] + {key.path}]
      ensures !(state == AfterUpdate && key.kind in old(invalidatedAttributes)) ==>
        invalidatedAttributes == old(invalidatedAttributes)
    {
      MarkInvalidated(key);
      var newItemSize := ItemSizeWith(key.kind, key.path, preferredSize);
      RecordSelfSizedItem(key, newItemSize, preferredAlignment);

      var heightDifference := newItemSize.height - originalFrame.size.height;
      context := SelfSizingContext(heightDifference, originalFrame);

      ProposeCompensation(key, heightDifference);
      context := context.(invalidateLayoutMetrics := false);
    }

    /** During a batch update, remember that the element's attributes were invalidated. */
    method MarkInvalidated(key: ItemKey)
      modifies this`invalidatedAttributes
      ensures state == AfterUpdate && key.kind in old(invalidatedAttributes) ==>
        invalidatedAttributes == old(invalidatedAttributes)[key.kind := old(invalidatedAttributes)[key.kind] + {key.path}]
      ensures !(state == AfterUpdate && key.kind in old(invalidatedAttributes)) ==>
        invalidatedAttributes == old(invalidatedAttributes)
    {
      if state == AfterUpdate && key.kind in invalidatedAttributes {
        invalidatedAttributes := invalidatedAttributes[key.kind := invalidatedAttributes[key.kind] + {key.path}];
      }
    }

    /**
     * Store a self-sized element's measured size and alignment in the current
     * state; every other element, the other state and the offsets stay.
     */
    method RecordSelfSizedItem(key: ItemKey, size: Size, alignment: ChatItemAlignment)
      modifies this`controller
      ensures var item := Item(old(controller), key, state);
        && (item.None? ==> controller == old(controller))
        && (item.Some? ==> Item(controller, key, state) == Some(item.value.(calculatedSize := Some(size), alignment := alignment)))
      ensures forall other :: !SameElement(other, key) ==> Item(controller, other, state) == Item(old(controller), other, state)
      ensures forall s: ModelState :: s != state ==> controller.models.At(s) == old(controller).models.At(s)
      ensures Item(old(controller), key, state).Some? ==>
        controller.models.At(state).geometry == assemble(controller.models.At(state).sections)
      ensures controller.(models := old(controller).models) == old(controller)
      ensures controller == UpdateAlignment(UpdatePreferredSize(old(controller), size, key, state, assemble),
                                            alignment, key, state, assemble)
    {
      MeasureThenAlign(controller, size, alignment, key, state, assemble);
      controller := UpdatePreferredSize(controller, size, key, state, assemble);
      controller := UpdateAlignment(controller, alignment, key, state, assemble);
    }

    /** A height change of an element that has a frame adds to the compensation the next layout applies. */
    method ProposeCompensation(key: ItemKey, heightDifference: real)
      modifies this`controller
      ensures controller.models == old(controller).models
      ensures controller == old(controller).(totalProposedCompensatingOffset :=
        old(controller).totalProposedCompensatingOffset
          + (if ItemFrame(old(controller), key, state).Some? then heightDifference else 0.0))
    {
      if ItemFrame(controller, key, state).Some? {
        controller := controller.(totalProposedCompensatingOffset := controller.totalProposedCompensatingOffset + heightDifference);
      }
    }

    /**
     * The context a self-sizing change starts from: the content moves by the
     * height difference exactly when the change calls for it, and a new
     * layout is then requested on the next bounds change.
     */
    method SelfSizingContext(heightDifference: real, originalFrame: Rect) returns (context: InvalidationContext)
      modifies this`invalidationActions
      ensures context == FreshContext.(contentOffsetAdjustment := Point(0.0,
        SelfSizingAdjustment(heightDifference, originalFrame.MinY(), VisibleBounds().MaxY(),
                             keepContentOffsetAtBottomOnBatchUpdates, ContentHeight(controller, state),
                             VisibleBounds().size.height, IsUserInitiatedScrolling())))
      ensures ShouldInvalidateOnBoundsChange in invalidationActions <==>
        ShouldInvalidateOnBoundsChange in old(invalidationActions) || context.contentOffsetAdjustment.y != 0.0
    {
      context := FreshContext;
      var visibleBounds := VisibleBounds();
      if SelfSizingMovesContent(heightDifference, originalFrame.MinY(), visibleBounds.MaxY(),
                                keepContentOffsetAtBottomOnBatchUpdates, ContentHeight(controller, state),
                                visibleBounds.size.height, IsUserInitiatedScrolling()) {
        context := context.(contentOffsetAdjustment :=
          Point(context.contentOffsetAdjustment.x, context.contentOffsetAdjustment.y + heightDifference));
        invalidationActions := invalidationActions + {ShouldInvalidateOnBoundsChange};
      }
    }

    // -------------------------------------------------------------------------
    // Batch updates and animated bounds changes

    /**
     * Announce a batch update: the controller applies the update items in
     * order of their after-update item index, the after-update model becomes
     * current, and attributes are returned again.
     */
    method PrepareForCollectionViewUpdates(updateItems: seq<UpdateItem>)
      modifies this`controller, this`state, this`dontReturnAttributes
      ensures controller == process(old(controller), SortedByAfterItem(updateItems))
      ensures state == AfterUpdate && !dontReturnAttributes
    {
      var sorted := SortedByAfterItem(updateItems);
      controller := process(controller, sorted);
      state := AfterUpdate;
      dontReturnAttributes := false;
    }

    /**
     * Finish a batch update: the pending compensation is dropped; when the
     * content is kept at the bottom, is taller than the visible area and the
     * batch accumulated a compensation, the content moves by that
     * compensation (or to the very bottom, when the content before the
     * update fit in the visible area). The states are switched on the next
     * preparation.
     */
    method FinalizeCollectionViewUpdates() returns (applied: InvalidationContext)
      modifies this`controller, this`dontReturnAttributes, this`prepareActions
      ensures controller == old(controller).(proposedCompensatingOffset := 0.0, batchUpdateCompensatingOffset := 0.0)
      ensures prepareActions.switchStates
      ensures prepareActions.updateLayoutMetrics && !dontReturnAttributes
      ensures prepareActions.recreateSectionModels == old(prepareActions.recreateSectionModels)
      ensures prepareActions.cachePreviousWidth == (old(prepareActions.cachePreviousWidth) || cachedCollectionViewSize != BoundsSize())
      ensures prepareActions.cachePreviousContentInsets ==
        (old(prepareActions.cachePreviousContentInsets) || cachedCollectionViewInset != Some(AdjustedContentInset()))
      ensures var visibleHeight := VisibleBounds().size.height;
        var compensates := keepContentOffsetAtBottomOnBatchUpdates
          && IsLayoutBiggerThanVisibleBounds(old(controller), state, visibleHeight)
          && old(controller.batchUpdateCompensatingOffset) != 0.0 && collectionView.Some?;
        var adjustment :=
          if !compensates then 0.0
          else if ContentHeight(old(controller), BeforeUpdate) > visibleHeight then old(controller.batchUpdateCompensatingOffset)
          else MaxPossibleContentOffset().y - collectionView.value.contentOffset.y;
        var expected := FreshContext.(
          contentOffsetAdjustment := Point(0.0, adjustment),
          contentSizeAdjustment := Size(0.0, if compensates then
            ContentHeight(old(controller), AfterUpdate) - ContentHeight(old(controller), BeforeUpdate) else 0.0));
        applied == WithSnapshotAdjustment(expected)
    {
      controller := controller.(proposedCompensatingOffset := 0.0);
      var context;
      var visibleHeight := VisibleBounds().size.height;
      if keepContentOffsetAtBottomOnBatchUpdates && IsLayoutBiggerThanVisibleBounds(controller, state, visibleHeight)
         && controller.batchUpdateCompensatingOffset != 0.0 && collectionView.Some? {
        var compensatingOffset;
        if ContentHeight(controller, BeforeUpdate) > visibleHeight {
          compensatingOffset := controller.batchUpdateCompensatingOffset;
        } else {
          compensatingOffset := MaxPossibleContentOffset().y - collectionView.value.contentOffset.y;
        }
        controller := controller.(batchUpdateCompensatingOffset := 0.0);
        context := FreshContext.(
          contentOffsetAdjustment := Point(0.0, compensatingOffset),
          contentSizeAdjustment := Size(0.0, ContentHeight(controller, AfterUpdate) - ContentHeight(controller, BeforeUpdate)));
      } else {
        controller := controller.(batchUpdateCompensatingOffset := 0.0);
        context := FreshContext;
      }
      applied := InvalidateLayout(context);
      prepareActions := prepareActions.(switchStates := true);
    }

    /**
     * Begin an animated bounds change: the controller processes an empty
     * update, the after-update model becomes current and no state switch is
     * pending. When the width changes while the content is kept at the bottom
     * and is taller than the visible area, the pending compensation grows by
     * the height lost and the distance the origin moved up.
     */
    method PrepareForAnimatedBoundsChange(oldBounds: Rect)
      modifies this`controller, this`state, this`prepareActions
      ensures state == AfterUpdate
      ensures prepareActions == old(prepareActions).(switchStates := false)
      ensures var processed := process(old(controller).(isAnimatedBoundsChange := true), []);
        var compensates := collectionView.Some? && oldBounds.size.width != collectionView.value.bounds.size.width
          && keepContentOffsetAtBottomOnBatchUpdates
          && IsLayoutBiggerThanVisibleBounds(processed, AfterUpdate, VisibleBounds().size.height);
        && (compensates ==>
              var newBounds := collectionView.value.bounds;
              controller == processed.(proposedCompensatingOffset := processed.proposedCompensatingOffset
                + (oldBounds.size.height - newBounds.size.height) + (oldBounds.origin.y - newBounds.origin.y)))
        && (!compensates ==> controller == processed)
    {
      controller := controller.(isAnimatedBoundsChange := true);
      controller := process(controller, []);
      state := AfterUpdate;
      prepareActions := prepareActions.(switchStates := false);
      if collectionView.Some? && oldBounds.size.width != collectionView.value.bounds.size.width
         && keepContentOffsetAtBottomOnBatchUpdates
         && IsLayoutBiggerThanVisibleBounds(controller, state, VisibleBounds().size.height) {
        var newBounds := collectionView.value.bounds;
        var heightDifference := oldBounds.size.height - newBounds.size.height;
        controller := controller.(proposedCompensatingOffset :=
          controller.proposedCompensatingOffset + heightDifference + (oldBounds.origin.y - newBounds.origin.y));
      }
    }

    /**
     * End an animated bounds change, if one is in progress: its offsets are
     * dropped, the after-update model is committed and becomes current, and
     * the per-batch bookkeeping is emptied.
     */
    method FinalizeAnimatedBoundsChange()
      modifies this`controller, this`state, this`attributesForPendingAnimations, this`invalidatedAttributes
      ensures old(controller.isAnimatedBoundsChange) ==>
        && controller == Commit(old(controller).(isAnimatedBoundsChange := false, proposedCompensatingOffset := 0.0,
                                                 batchUpdateCompensatingOffset := 0.0))
        && state == BeforeUpdate
        && NoPendingAnimations()
        && NoInvalidatedAttributes()
      ensures !old(controller.isAnimatedBoundsChange) ==>
        && controller == old(controller) && state == old(state)
        && attributesForPendingAnimations == old(attributesForPendingAnimations)
        && invalidatedAttributes == old(invalidatedAttributes)
      ensures !controller.isAnimatedBoundsChange
    {
      if controller.isAnimatedBoundsChange {
        controller := controller.(isAnimatedBoundsChange := false, proposedCompensatingOffset := 0.0,
                                  batchUpdateCompensatingOffset := 0.0);
        controller := Commit(controller);
        state := BeforeUpdate;
        ResetAttributesForPendingAnimations();
        ResetInvalidatedAttributes();
      }
    }
  }
}
