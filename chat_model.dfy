/**
 * The example application's message and cell values: what the view model
 * turns raw messages into and what the data source hands to the layout.
 */
module ChatModel {

  /** A message identifier (a UUID in the application). */
  type MessageId = nat

  /** A point in time; only compared through the "same hour" predicate. */
  type Date = int

  /** The user whose messages are shown as outgoing. */
  const OutgoingUserId: int := 1

  datatype MessageStatus = Sent | Received | Read

  datatype ImageSource = LocalImage | ImageUrl(url: string)

  /**
   * Raw message content. `cached` is the answer of the application's metadata
   * or image cache for the URL, which the model takes as given.
   */
  datatype RawData =
    | RawText(text: string)
    | RawUrl(url: string, cached: bool)
    | RawImage(source: ImageSource, cached: bool)

  datatype RawMessage = RawMessage(id: MessageId, date: Date, data: RawData, userId: int, status: MessageStatus)

  datatype User = User(id: int)

  datatype MessageType = Incoming | Outgoing

  datatype MessageData =
    | Text(text: string)
    | Url(url: string, isLocallyStored: bool)
    | Image(source: ImageSource, isLocallyStored: bool)

  datatype Message = Message(id: MessageId, date: Date, data: MessageData, owner: User, messageType: MessageType, status: MessageStatus)

  datatype BubbleType = Normal | Tailed

  datatype DateGroup = DateGroup(id: MessageId, date: Date)

  /** A title cell naming a message's sender (its text is the owner's name). */
  datatype MessageGroup = MessageGroup(id: MessageId, owner: User, messageType: MessageType)

  datatype Cell =
    | MessageCell(message: Message, bubbleType: BubbleType)
    | MessageGroupCell(group: MessageGroup)
    | DateCell(dateGroup: DateGroup)
    | TypingIndicatorCell
    | DeliveryStatusCell

  datatype Section = Section(id: int, title: string, cells: seq<Cell>)

  /** Whether a piece of content is available without downloading it. */
  function Convert(data: RawData): (r: MessageData)
    ensures data.RawText? <==> r.Text?
    ensures data.RawText? ==> r == Text(data.text)
    ensures data.RawUrl? ==> r == Url(data.url, data.cached)
    ensures data.RawImage? ==> r.Image? && r.source == data.source
    ensures data.RawImage? ==> (r.isLocallyStored <==> data.source.LocalImage? || data.cached)
  {
    match data
    case RawUrl(url, cached) => Url(url, cached)
    case RawImage(source, cached) =>
      var present := match source
        case LocalImage => true
        case ImageUrl(_) => cached;
      Image(source, present)
    case RawText(text) => Text(text)
  }

  /** The message a raw message becomes; it is outgoing exactly when user 1 sent it. */
  function ToMessage(raw: RawMessage): (m: Message)
    ensures m.id == raw.id && m.date == raw.date && m.owner == User(raw.userId) && m.status == raw.status
    ensures m.messageType == Outgoing <==> raw.userId == OutgoingUserId
    ensures m.data == Convert(raw.data)
  {
    Message(raw.id, raw.date, Convert(raw.data), User(raw.userId),
            if raw.userId == OutgoingUserId then Outgoing else Incoming, raw.status)
  }

  function ToMessages(raws: seq<RawMessage>): (ms: seq<Message>)
    ensures |ms| == |raws|
    ensures forall i :: 0 <= i < |raws| ==> ms[i] == ToMessage(raws[i])
  {
    seq(|raws|, i requires 0 <= i < |raws| => ToMessage(raws[i]))
  }
}
