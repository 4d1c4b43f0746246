/**
 * The scroll-offset arithmetic of the layout: how far the view may scroll,
 * how a proposed offset is corrected by a pending compensation, where an
 * anchored element's snapshot puts the view back, and when a self-sizing
 * element moves the content. All values are vertical coordinates (`real`
 * for CGFloat); the platform's rounding before two of the comparisons is not
 * modelled.
 */
module ContentOffset {
  import opened Geometry

  /**
   * The largest vertical offset: the content's bottom at the view's bottom
   * edge, but never above the top inset.
   */
  function MaxPossibleContentOffsetY(contentHeight: real, frameHeight: real, inset: Insets): (y: real)
    ensures y >= -inset.top
    ensures y >= contentHeight - frameHeight + inset.bottom
    ensures y == -inset.top || y == contentHeight - frameHeight + inset.bottom
  {
    Max(0.0 - inset.top, contentHeight - frameHeight + inset.bottom)
  }

  /** A proposed offset moved by the pending compensation and clamped to what the view allows. */
  function CompensatedOffsetY(proposedY: real, compensation: real, minY: real, maxY: real): (y: real)
  {
    Max(minY, Min(proposedY + compensation, maxY))
  }

  /**
   * The clamp keeps the offset in range, and is exact whenever the
   * compensated offset is already in range.
   */
  lemma CompensatedOffsetInRange(proposedY: real, compensation: real, minY: real, maxY: real)
    requires minY <= maxY
    ensures var y := CompensatedOffsetY(proposedY, compensation, minY, maxY);
      && minY <= y <= maxY
      && (minY <= proposedY + compensation <= maxY ==> y == proposedY + compensation)
      && (proposedY + compensation < minY ==> y == minY)
      && (proposedY + compensation > maxY ==> y == maxY)
  {
  }

  /** The target offset after a compensation always lies between the top inset and the largest offset. */
  lemma TargetOffsetWithinScrollRange(proposedY: real, compensation: real, contentHeight: real, frameHeight: real,
                                      inset: Insets)
    ensures var maxY := MaxPossibleContentOffsetY(contentHeight, frameHeight, inset);
      var y := CompensatedOffsetY(proposedY, compensation, -inset.top, maxY);
      -inset.top <= y <= maxY
  {
    var maxY := MaxPossibleContentOffsetY(contentHeight, frameHeight, inset);
    CompensatedOffsetInRange(proposedY, compensation, -inset.top, maxY);
  }

  // ---------------------------------------------------------------------------
  // Position snapshots

  /** The edge of the view an element is anchored to. */
  datatype Edge = Top | Bottom

  /**
   * Where the view's visible part lies: below the top inset and above the
   * bottom inset.
   */
  function VisibleTop(contentOffsetY: real, inset: Insets): real
  {
    contentOffsetY + inset.top
  }

  function VisibleHeight(boundsHeight: real, inset: Insets): real
  {
    boundsHeight - inset.top - inset.bottom
  }

  function VisibleBottom(contentOffsetY: real, boundsHeight: real, inset: Insets): real
  {
    VisibleTop(contentOffsetY, inset) + VisibleHeight(boundsHeight, inset)
  }

  /**
   * A snapshot's offset: for the top edge, how far the element's top is below
   * the visible top (less the additional top inset); for the bottom edge, how
   * far the element's bottom is above the visible bottom (less the additional
   * bottom inset).
   */
  function SnapshotOffset(edge: Edge, frame: Rect, contentOffsetY: real, boundsHeight: real,
                          inset: Insets, additionalInsets: Insets): real
  {
    match edge
    case Top => frame.MinY() - VisibleTop(contentOffsetY, inset) - additionalInsets.top
    case Bottom => VisibleBottom(contentOffsetY, boundsHeight, inset) - frame.MaxY() - additionalInsets.bottom
  }

  /** The offset that puts an element anchored at the top back where its snapshot saw it. */
  function TopEdgeDesiredOffset(frame: Rect, snapshotOffset: real, inset: Insets, additionalInsets: Insets): real
  {
    frame.MinY() - snapshotOffset - inset.top - additionalInsets.top
  }

  /** The largest offset a bottom-anchored restore may use. */
  function MaxAllowedOffset(contentHeight: real, frameHeight: real, inset: Insets): (y: real)
    ensures y >= 0.0 && y >= contentHeight - frameHeight + inset.bottom
  {
    Max(0.0, contentHeight - frameHeight + inset.bottom)
  }

  /**
   * The offset that puts an element anchored at the bottom back where its
   * snapshot saw it, capped at the largest allowed offset and then raised to
   * the top inset if it lies above it (so with a negative top inset it may
   * exceed the largest allowed offset).
   */
  function BottomEdgeDesiredOffset(frame: Rect, snapshotOffset: real, contentHeight: real, frameHeight: real,
                                   boundsHeight: real, inset: Insets, additionalInsets: Insets): real
  {
    var maxAllowed := MaxAllowedOffset(contentHeight, frameHeight, inset);
    Max(Min(maxAllowed, frame.MaxY() + snapshotOffset - boundsHeight + inset.bottom + additionalInsets.bottom),
        -inset.top)
  }

  /**
   * The bottom-edge restore never scrolls above the top inset, and, when the
   * top inset is not negative, never past the largest allowed offset.
   */
  lemma BottomEdgeDesiredOffsetInRange(frame: Rect, snapshotOffset: real, contentHeight: real, frameHeight: real,
                                       boundsHeight: real, inset: Insets, additionalInsets: Insets)
    ensures var d := BottomEdgeDesiredOffset(frame, snapshotOffset, contentHeight, frameHeight, boundsHeight,
                                             inset, additionalInsets);
      && d >= -inset.top
      && (inset.top >= 0.0 ==> d <= MaxAllowedOffset(contentHeight, frameHeight, inset))
  {
  }

  /**
   * Round trip, top edge: restoring a snapshot taken at offset `y` while the
   * element has not moved gives back exactly `y`.
   */
  lemma TopSnapshotRoundTrip(frame: Rect, contentOffsetY: real, boundsHeight: real, inset: Insets,
                             additionalInsets: Insets)
    ensures TopEdgeDesiredOffset(frame,
              SnapshotOffset(Top, frame, contentOffsetY, boundsHeight, inset, additionalInsets),
              inset, additionalInsets) == contentOffsetY
  {
  }

  /**
   * Round trip, bottom edge: restoring a snapshot taken at offset `y` while
   * the element has not moved gives back `y`, as long as `y` is a position
   * the restore allows.
   */
  lemma BottomSnapshotRoundTrip(frame: Rect, contentOffsetY: real, contentHeight: real, frameHeight: real,
                                boundsHeight: real, inset: Insets, additionalInsets: Insets)
    requires -inset.top <= contentOffsetY <= MaxAllowedOffset(contentHeight, frameHeight, inset)
    ensures BottomEdgeDesiredOffset(frame,
              SnapshotOffset(Bottom, frame, contentOffsetY, boundsHeight, inset, additionalInsets),
              contentHeight, frameHeight, boundsHeight, inset, additionalInsets) == contentOffsetY
  {
    var s := SnapshotOffset(Bottom, frame, contentOffsetY, boundsHeight, inset, additionalInsets);
    assert frame.MaxY() + s - boundsHeight + inset.bottom + additionalInsets.bottom == contentOffsetY;
  }

  // ---------------------------------------------------------------------------
  // Self-sizing

  /**
   * Whether a self-sizing element's height change moves the content: the
   * height changed, the element starts above the visible bottom, and either
   * the layout keeps the content at the bottom and the content (with the
   * change) is taller than the visible part, or the user is scrolling.
   */
  predicate SelfSizingMovesContent(heightDifference: real, elementMinY: real, visibleMaxY: real,
                                   keepContentOffsetAtBottom: bool, contentHeight: real, visibleHeight: real,
                                   isUserInitiatedScrolling: bool)
  {
    && heightDifference != 0.0
    && ((keepContentOffsetAtBottom && contentHeight + heightDifference > visibleHeight) || isUserInitiatedScrolling)
    && elementMinY <= visibleMaxY
  }

  /**
   * The content-offset adjustment a self-sizing change asks for: exactly the
   * height difference when the content moves, nothing otherwise.
   */
  function SelfSizingAdjustment(heightDifference: real, elementMinY: real, visibleMaxY: real,
                                keepContentOffsetAtBottom: bool, contentHeight: real, visibleHeight: real,
                                isUserInitiatedScrolling: bool): (dy: real)
    ensures dy != 0.0 <==> SelfSizingMovesContent(heightDifference, elementMinY, visibleMaxY,
                                                  keepContentOffsetAtBottom, contentHeight, visibleHeight,
                                                  isUserInitiatedScrolling)
    ensures dy == 0.0 || dy == heightDifference
  {
    if SelfSizingMovesContent(heightDifference, elementMinY, visibleMaxY, keepContentOffsetAtBottom,
                              contentHeight, visibleHeight, isUserInitiatedScrolling)
    then heightDifference else 0.0
  }

  /**
   * An element below the visible bottom never moves the content, so growing
   * content further down leaves what the user sees in place.
   */
  lemma ElementsBelowTheViewDoNotMoveContent(heightDifference: real, elementMinY: real, visibleMaxY: real,
                                             keepContentOffsetAtBottom: bool, contentHeight: real,
                                             visibleHeight: real, isUserInitiatedScrolling: bool)
    requires elementMinY > visibleMaxY
    ensures SelfSizingAdjustment(heightDifference, elementMinY, visibleMaxY, keepContentOffsetAtBottom,
                                 contentHeight, visibleHeight, isUserInitiatedScrolling) == 0.0
  {
  }
}
