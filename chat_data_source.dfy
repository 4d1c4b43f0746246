/**
 * The example application's answers to the layout's delegate questions: no
 * headers or footers, an estimated size per cell variant and an alignment per
 * element, plus the choice between an animated update and a full reload.
 *
 * The layout frame's width is a parameter; the cell at an index path is
 * passed in directly (the data source looks it up in its current sections).
 */
module ChatDataSource {
  import opened Geometry
  import opened LayoutTypes
  import opened Wrappers
  import opened ChatModel
  import ChatViewModel
  import ChatLayoutEngine

  /** How the collection view applies a new set of sections. */
  datatype ViewTransition = Animated | Reload

  /** Estimated heights of the cell variants. */
  const TextHeight: real := 36.0
  const DownloadedImageHeight: real := 120.0
  const PendingImageHeight: real := 80.0
  const DownloadedUrlHeight: real := 60.0
  const PendingUrlHeight: real := 36.0
  const DateHeight: real := 18.0
  const TypingIndicatorSize: Size := Size(60.0, 36.0)
  const TitleHeight: real := 18.0
  const DeliveryStatusHeight: real := 18.0

  /** No section ever gets a header. */
  predicate ShouldPresentHeader(sectionIndex: nat)
    ensures !ShouldPresentHeader(sectionIndex)
  {
    false
  }

  /** No section ever gets a footer. */
  predicate ShouldPresentFooter(sectionIndex: nat)
    ensures !ShouldPresentFooter(sectionIndex)
  {
    false
  }

  /** The estimated height of a message's content. */
  function MessageHeight(data: MessageData): (h: real)
    ensures data.Text? ==> h == TextHeight
    ensures data.Image? ==> h == (if data.isLocallyStored then DownloadedImageHeight else PendingImageHeight)
    ensures data.Url? ==> h == (if data.isLocallyStored then DownloadedUrlHeight else PendingUrlHeight)
    ensures h > 0.0
  {
    match data
    case Text(_) => TextHeight
    case Image(_, isDownloaded) => if isDownloaded then DownloadedImageHeight else PendingImageHeight
    case Url(_, isDownloaded) => if isDownloaded then DownloadedUrlHeight else PendingUrlHeight
  }

  /**
   * The size the data source asks for. Headers and footers size themselves;
   * every cell gets an estimate, never an exact size. Cells the layout
   * stretches or centres are estimated as wide as the layout frame, and every
   * estimate has a positive height.
   */
  function SizeForItem(kind: ItemKind, item: Cell, layoutWidth: real): (r: ItemSize)
    ensures !r.Exact?
    ensures kind != ItemKind.Cell <==> r.Auto?
    ensures kind == ItemKind.Cell && item.MessageCell? ==> r == Estimated(Size(layoutWidth, MessageHeight(item.message.data)))
    ensures kind == ItemKind.Cell && item.DateCell? ==> r == Estimated(Size(layoutWidth, DateHeight))
    ensures kind == ItemKind.Cell && item.TypingIndicatorCell? ==> r == Estimated(TypingIndicatorSize)
    ensures kind == ItemKind.Cell && item.MessageGroupCell? ==> r == Estimated(Size(layoutWidth / 3.0, TitleHeight))
    ensures kind == ItemKind.Cell && item.DeliveryStatusCell? ==> r == Estimated(Size(layoutWidth, DeliveryStatusHeight))
    ensures kind == ItemKind.Cell && AlignmentForItem(kind, item) in {FullWidth, Center} ==>
      r.Estimated? && r.size.width == layoutWidth
    ensures layoutWidth >= 0.0 && r.Estimated? ==> r.size.width >= 0.0 && r.size.height > 0.0
  {
    match kind
    case Cell =>
      (match item
       case MessageCell(message, _) => Estimated(Size(layoutWidth, MessageHeight(message.data)))
       case DateCell(_) => Estimated(Size(layoutWidth, DateHeight))
       case TypingIndicatorCell => Estimated(TypingIndicatorSize)
       case MessageGroupCell(_) => Estimated(Size(layoutWidth / 3.0, TitleHeight))
       case DeliveryStatusCell => Estimated(Size(layoutWidth, DeliveryStatusHeight)))
    case Footer => Auto
    case Header => Auto
  }

  /** Where each element sits horizontally. */
  function AlignmentForItem(kind: ItemKind, item: Cell): (r: ChatItemAlignment)
    ensures kind == Header ==> r == Center
    ensures kind == Footer ==> r == Trailing
    ensures kind == ItemKind.Cell ==> (r == FullWidth <==> item.MessageCell? || item.DeliveryStatusCell?)
    ensures kind == ItemKind.Cell ==> (r == Center <==> item.DateCell?)
    ensures kind == ItemKind.Cell ==> (r == Leading <==> item.MessageGroupCell? || item.TypingIndicatorCell?)
    ensures kind == ItemKind.Cell ==> r != Trailing
  {
    match kind
    case Header => Center
    case Cell =>
      (match item
       case DateCell(_) => Center
       case MessageCell(_, _) => FullWidth
       case DeliveryStatusCell => FullWidth
       case MessageGroupCell(_) => Leading
       case TypingIndicatorCell => Leading)
    case Footer => Trailing
  }

  /**
   * The transition for the next update, read off what the collection view
   * shows now: `itemCounts[s]` is the number of items of section `s`. The
   * update is animated when section 0 exists and holds an item, and a full
   * reload otherwise.
   */
  function DecideViewTransition(itemCounts: seq<nat>): (r: ViewTransition)
    ensures r == Animated <==> |itemCounts| > 0 && itemCounts[0] > 0
    ensures |itemCounts| == 0 ==> r == Reload
  {
    var isInitialLoad := |itemCounts| > 0 && itemCounts[0] > 0;
    if isInitialLoad then Animated else Reload
  }

  /** The item counts the collection view reports once it shows `sections`. */
  function ItemCounts(sections: seq<Section>): (counts: seq<nat>)
    ensures |counts| == |sections|
    ensures forall s :: 0 <= s < |sections| ==> counts[s] == |sections[s].cells|
  {
    seq(|sections|, s requires 0 <= s < |sections| => |sections[s].cells|)
  }

  /**
   * Once the screen shows the transformed messages, the next update is
   * animated exactly when there was at least one message.
   */
  lemma NextTransitionAnimatedIffMessages(raws: seq<RawMessage>, sameHour: ChatViewModel.SameHour)
    ensures DecideViewTransition(ItemCounts(ChatViewModel.TransformedSections(ToMessages(raws), sameHour))) == Animated
        <==> |raws| > 0
  {
    var ms := ToMessages(raws);
    var cells := ChatViewModel.TransformedSections(ms, sameHour)[0].cells;
    ChatViewModel.EveryMessageOnceInOrder(raws, sameHour);
    if |cells| == 0 {
      assert ChatViewModel.MessagesOf(cells) == [];
    }
  }

  /**
   * The data source as the layout's delegate: its header, footer, size and
   * alignment answers, each asked about the cell at the index path.
   */
  function AsLayoutDelegate(cellAt: ItemPath -> Cell): (d: ChatLayoutEngine.LayoutDelegate)
    ensures forall s: nat :: !d.shouldPresentHeader(s) && !d.shouldPresentFooter(s)
    ensures forall kind, path, width :: d.sizeForItem(kind, path, width) == SizeForItem(kind, cellAt(path), width)
    ensures forall kind, path :: d.alignmentForItem(kind, path) == AlignmentForItem(kind, cellAt(path))
  {
    ChatLayoutEngine.LayoutDelegate(
      ShouldPresentHeader,
      ShouldPresentFooter,
      (kind, path, width) => SizeForItem(kind, cellAt(path), width),
      (kind, path) => AlignmentForItem(kind, cellAt(path)))
  }

  /**
   * A layout driven by this data source builds sections without headers or
   * footers, and never starts an element as measured: every element begins
   * with an estimate (the data source's for cells, the layout's default
   * otherwise) and is sized by the cell itself.
   */
  lemma DataSourceNeverFixesSizes(layout: ChatLayoutEngine.ChatLayout, cellAt: ItemPath -> Cell,
                                  kind: ItemKind, path: ItemPath, s: nat)
    requires layout.delegate == Some(AsLayoutDelegate(cellAt))
    ensures !layout.ShouldPresentHeader(s) && !layout.ShouldPresentFooter(s)
    ensures layout.Configuration(kind, path).calculatedSize.None?
    ensures layout.Configuration(kind, path).alignment == AlignmentForItem(kind, cellAt(path))
    ensures kind != ItemKind.Cell ==> layout.Configuration(kind, path).preferredSize == layout.EstimatedItemSize()
    ensures kind == ItemKind.Cell ==>
      layout.Configuration(kind, path).preferredSize == SizeForItem(kind, cellAt(path), layout.LayoutFrameWidth()).size
  {
  }
}
