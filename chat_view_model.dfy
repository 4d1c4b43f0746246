/**
 * `transformSections`: turns the raw message list into the single section of
 * cells the chat screen shows. Messages are split into runs that fall in the
 * same hour; each run is introduced by a date cell, incoming messages get a
 * sender title when the sender changes, and each message's bubble is tailed
 * unless the next message of its run has the same sender.
 *
 * "Same hour" is a calendar query of the platform; here it is the parameter
 * `sameHour(previousDate, date)`, about which nothing is assumed.
 */
module ChatViewModel {
  import opened Wrappers
  import opened ChatModel

  type SameHour = (Date, Date) -> bool

  const SectionTitle: string := "Loading..."

  // ---------------------------------------------------------------------------
  // Splitting into same-hour runs (the `reduce(into:)` of the source)

  /** One step of the reduction: extend the last run or open a new one. */
  function GroupStep(result: seq<seq<Message>>, message: Message, sameHour: SameHour): seq<seq<Message>>
  {
    if |result| == 0 || |result[|result| - 1]| == 0 then
      result + [[message]]
    else
      var section := result[|result| - 1];
      var prevMessage := section[|section| - 1];
      if sameHour(prevMessage.date, message.date) then
        result[|result| - 1 := section + [message]]
      else
        result + [[message]]
  }

  /** Number of messages in the first `g` runs. */
  function Base(gs: seq<seq<Message>>, g: nat): nat
    requires g <= |gs|
    decreases g
  {
    if g == 0 then 0 else Base(gs, g - 1) + |gs[g - 1]|
  }

  /** Message `k` opens a run: it is the first, or not in the same hour as its predecessor. */
  predicate StartsGroup(ms: seq<Message>, k: nat, sameHour: SameHour)
    requires k < |ms|
  {
    k == 0 || !sameHour(ms[k - 1].date, ms[k].date)
  }

  // ---------------------------------------------------------------------------
  // The reference: the cells each message contributes, read off the flat list

  /** Tailed unless the next message is in the same run and has the same sender. */
  function BubbleOf(ms: seq<Message>, k: nat, sameHour: SameHour): BubbleType
    requires k < |ms|
  {
    if k + 1 < |ms| && sameHour(ms[k].date, ms[k + 1].date) && ms[k + 1].owner == ms[k].owner
    then Normal else Tailed
  }

  /** An incoming message gets a title when it is the first message or the sender changed. */
  predicate NeedsTitle(ms: seq<Message>, k: nat)
    requires k < |ms|
  {
    ms[k].messageType != Outgoing && (k == 0 || ms[k - 1].owner != ms[k].owner)
  }

  function DateCellOf(m: Message): Cell { DateCell(DateGroup(m.id, m.date)) }

  function TitleCellOf(m: Message): Cell { MessageGroupCell(MessageGroup(m.id, m.owner, m.messageType)) }

  /** The title (if any) and the message cell of message `k`. */
  function BodyPiece(ms: seq<Message>, k: nat, sameHour: SameHour): seq<Cell>
    requires k < |ms|
  {
    (if NeedsTitle(ms, k) then [TitleCellOf(ms[k])] else []) + [MessageCell(ms[k], BubbleOf(ms, k, sameHour))]
  }

  /** Everything message `k` contributes: a date cell when it opens a run, then its body. */
  function Piece(ms: seq<Message>, k: nat, sameHour: SameHour): seq<Cell>
    requires k < |ms|
  {
    (if StartsGroup(ms, k, sameHour) then [DateCellOf(ms[k])] else []) + BodyPiece(ms, k, sameHour)
  }

  /** The cells of the first `n` messages. */
  function FlatCells(ms: seq<Message>, n: nat, sameHour: SameHour): seq<Cell>
    requires n <= |ms|
    decreases n
  {
    if n == 0 then [] else FlatCells(ms, n - 1, sameHour) + Piece(ms, n - 1, sameHour)
  }

  /** The bodies of messages `lo` up to `hi`. */
  function Bodies(ms: seq<Message>, lo: nat, hi: nat, sameHour: SameHour): seq<Cell>
    requires lo <= hi <= |ms|
    decreases hi
  {
    if hi == lo then [] else Bodies(ms, lo, hi - 1, sameHour) + BodyPiece(ms, hi - 1, sameHour)
  }

  /** The section the screen shows for `ms`. */
  function TransformedSections(ms: seq<Message>, sameHour: SameHour): seq<Section>
  {
    [Section(0, SectionTitle, FlatCells(ms, |ms|, sameHour))]
  }

  // ---------------------------------------------------------------------------
  // The algorithm as the source runs it

  method TransformSections(raws: seq<RawMessage>, sameHour: SameHour) returns (sections: seq<Section>)
    ensures sections == TransformedSections(ToMessages(raws), sameHour)
    ensures |sections| == 1 && sections[0].id == 0 && sections[0].title == SectionTitle
    ensures raws == [] ==> sections[0].cells == []
  {
    var messages := ToMessages(raws);
    var result := SplitMessages(messages, sameHour);
    var cells := CellsOfRuns(messages, result, sameHour);
    sections := [Section(0, SectionTitle, cells)];
  }

  /** The `reduce(into:)` of the source: split the messages into maximal same-hour runs. */
  method SplitMessages(messages: seq<Message>, sameHour: SameHour) returns (result: seq<seq<Message>>)
    ensures IsSplit(messages, result, sameHour)
  {
    result := [];
    var i := 0;
    while i < |messages|
      invariant 0 <= i <= |messages|
      invariant IsSplit(messages[..i], result, sameHour)
    {
      var message := messages[i];
      ghost var before := result;
      if |result| == 0 || |result[|result| - 1]| == 0 {
        result := result + [[message]];
      } else {
        var section := result[|result| - 1];
        var prevMessage := section[|section| - 1];
        if sameHour(prevMessage.date, message.date) {
          section := section + [message];
          result := result[|result| - 1 := section];
        } else {
          result := result + [[message]];
        }
      }
      assert result == GroupStep(before, message, sameHour);
      assert messages[..i + 1] == messages[..i] + [message];
      GroupStepSplits(messages[..i], message, messages[..i + 1], before, sameHour);
      i := i + 1;
    }
    assert messages[..i] == messages;
  }

  /**
   * The `map` over the runs followed by `joined()`: each run's cells, one run
   * after the other, with the cursor `lastMessageStorage` shared by all runs.
   */
  method CellsOfRuns(messages: seq<Message>, result: seq<seq<Message>>, sameHour: SameHour) returns (cells: seq<Cell>)
    requires IsSplit(messages, result, sameHour)
    ensures cells == FlatCells(messages, |messages|, sameHour)
  {
    var lastMessageStorage: Option<Message> := None;
    cells := [];
    var g := 0;
    while g < |result|
      invariant 0 <= g <= |result|
      invariant Base(result, g) <= |messages|
      invariant cells == FlatCells(messages, Base(result, g), sameHour)
      invariant lastMessageStorage == if Base(result, g) == 0 then None else Some(messages[Base(result, g) - 1])
    {
      cells, lastMessageStorage := AppendRun(messages, result, g, cells, lastMessageStorage, sameHour);
      g := g + 1;
    }
  }

  /** One pass of the loop above: run `g`'s cells after those of the runs before it. */
  method AppendRun(ghost ms: seq<Message>, gs: seq<seq<Message>>, g: nat, cellsIn: seq<Cell>,
                   lastIn: Option<Message>, sameHour: SameHour)
    returns (cells: seq<Cell>, lastMessageStorage: Option<Message>)
    requires IsSplit(ms, gs, sameHour) && g < |gs| && Base(gs, g) <= |ms|
    requires cellsIn == FlatCells(ms, Base(gs, g), sameHour)
    requires lastIn == if Base(gs, g) == 0 then None else Some(ms[Base(gs, g) - 1])
    ensures 0 < Base(gs, g + 1) <= |ms|
    ensures cells == FlatCells(ms, Base(gs, g + 1), sameHour)
    ensures lastMessageStorage == Some(ms[Base(gs, g + 1) - 1])
  {
    RunOfSplit(ms, gs, g, sameHour);
    var lo := Base(gs, g);
    var groupCells;
    groupCells, lastMessageStorage := RunCells(ms, lo, gs[g], lastIn, sameHour);
    CellsOfRunStep(ms, lo, lo + |gs[g]|, cellsIn, groupCells, sameHour);
    cells := cellsIn + groupCells;
  }

  /**
   * The cells of one run (the per-run closure of the source): a title and a
   * message cell per message, then the run's date cell put in front. The
   * cursor `lastMessageStorage` carries the previously processed message in
   * and out.
   */
  method RunCells(ghost ms: seq<Message>, ghost lo: nat, messages: seq<Message>,
                  lastIn: Option<Message>, sameHour: SameHour)
    returns (cells: seq<Cell>, lastMessageStorage: Option<Message>)
    requires lo + |messages| <= |ms| && messages == ms[lo..lo + |messages|]
    requires forall k :: lo < k < lo + |messages| ==> !StartsGroup(ms, k, sameHour)
    requires lo + |messages| < |ms| ==> StartsGroup(ms, lo + |messages|, sameHour)
    requires lastIn == if lo == 0 then None else Some(ms[lo - 1])
    ensures |messages| == 0 ==> cells == [] && lastMessageStorage == lastIn
    ensures |messages| > 0 ==> cells == [DateCellOf(ms[lo])] + Bodies(ms, lo, lo + |messages|, sameHour)
    ensures |messages| > 0 ==> lastMessageStorage == Some(ms[lo + |messages| - 1])
  {
    lastMessageStorage := lastIn;
    cells := [];
    var index := 0;
    while index < |messages|
      invariant 0 <= index <= |messages|
      invariant cells == Bodies(ms, lo, lo + index, sameHour)
      invariant lastMessageStorage == if lo + index == 0 then None else Some(ms[lo + index - 1])
    {
      var piece;
      piece, lastMessageStorage := MessagePiece(ms, lo, messages, index, lastMessageStorage, sameHour);
      cells := cells + piece;
      index := index + 1;
    }
    if |messages| > 0 {
      var firstMessage := messages[0];
      assert firstMessage == ms[lo];
      var dateCell := DateCell(DateGroup(firstMessage.id, firstMessage.date));
      cells := [dateCell] + cells;
    }
  }

  /**
   * One pass of the loop above: message `index` of the run gets a title when
   * it is incoming and the sender changed, then its message cell, whose
   * bubble has a tail unless the next message of the run has the same sender.
   */
  method MessagePiece(ghost ms: seq<Message>, ghost lo: nat, messages: seq<Message>, index: nat,
                      lastIn: Option<Message>, sameHour: SameHour)
    returns (piece: seq<Cell>, lastMessageStorage: Option<Message>)
    requires lo + |messages| <= |ms| && messages == ms[lo..lo + |messages|] && index < |messages|
    requires forall k :: lo < k < lo + |messages| ==> !StartsGroup(ms, k, sameHour)
    requires lo + |messages| < |ms| ==> StartsGroup(ms, lo + |messages|, sameHour)
    requires lastIn == if lo + index == 0 then None else Some(ms[lo + index - 1])
    ensures piece == BodyPiece(ms, lo + index, sameHour)
    ensures lastMessageStorage == Some(ms[lo + index])
  {
    lastMessageStorage := lastIn;
    var message := messages[index];
    assert message == ms[lo + index];
    var bubble: BubbleType;
    if index < |messages| - 1 {
      var nextMessage := messages[index + 1];
      bubble := if nextMessage.owner == message.owner then Normal else Tailed;
    } else {
      bubble := Tailed;
    }
    assert bubble == BubbleOf(ms, lo + index, sameHour) by {
      if index < |messages| - 1 {
        assert messages[index + 1] == ms[lo + index + 1];
        assert !StartsGroup(ms, lo + index + 1, sameHour);
      }
    }
    if message.messageType == Outgoing {
      lastMessageStorage := Some(message);
      piece := [MessageCell(message, bubble)];
    } else {
      var titleCell := MessageGroupCell(MessageGroup(message.id, message.owner, message.messageType));
      if lastMessageStorage.Some? {
        if lastMessageStorage.value.owner != message.owner {
          lastMessageStorage := Some(message);
          piece := [titleCell, MessageCell(message, bubble)];
        } else {
          lastMessageStorage := Some(message);
          piece := [MessageCell(message, bubble)];
        }
      } else {
        lastMessageStorage := Some(message);
        piece := [titleCell, MessageCell(message, bubble)];
      }
    }
  }

  // ---------------------------------------------------------------------------
  // What the split is

  /**
   * Run `g` is non-empty and is the slice of `ms` from `Base(gs, g)` on; its
   * first message opens a run and none of its others does.
   */
  predicate RunFacts(ms: seq<Message>, gs: seq<seq<Message>>, g: nat, sameHour: SameHour)
    requires g < |gs|
  {
    && |gs[g]| > 0
    && Base(gs, g + 1) <= |ms|
    && gs[g] == ms[Base(gs, g)..Base(gs, g + 1)]
    && StartsGroup(ms, Base(gs, g), sameHour)
    && forall k :: Base(gs, g) < k < Base(gs, g + 1) ==> !StartsGroup(ms, k, sameHour)
  }

  /** `gs` splits `ms` into maximal same-hour runs, in order and covering every message. */
  predicate IsSplit(ms: seq<Message>, gs: seq<seq<Message>>, sameHour: SameHour)
  {
    Base(gs, |gs|) == |ms| && forall g :: 0 <= g < |gs| ==> RunFacts(ms, gs, g, sameHour)
  }

  /**
   * One step of the reduction keeps the split: if `gs` splits `p`, then
   * `GroupStep(gs, m)` splits `p + [m]`.
   */
  lemma GroupStepSplits(p: seq<Message>, m: Message, ms: seq<Message>, gs': seq<seq<Message>>, sameHour: SameHour)
    requires ms == p + [m]
    requires IsSplit(p, gs', sameHour)
    ensures IsSplit(ms, GroupStep(gs', m, sameHour), sameHour)
  {
    var gs := GroupStep(gs', m, sameHour);
    SplitNonEmpty(p, gs', sameHour);
    if |p| == 0 {
      SplitOpen(p, m, ms, gs', gs, sameHour);
    } else {
      var c := |gs'| - 1;
      assert RunFacts(p, gs', c, sameHour);
      var last := gs'[c];
      assert last[|last| - 1] == p[|p| - 1] == ms[|p| - 1];
      if sameHour(last[|last| - 1].date, m.date) {
        SplitExtend(p, m, ms, gs', gs, sameHour);
      } else {
        SplitOpen(p, m, ms, gs', gs, sameHour);
      }
    }
  }

  /** A split has runs exactly when there are messages. */
  lemma SplitNonEmpty(ms: seq<Message>, gs: seq<seq<Message>>, sameHour: SameHour)
    requires IsSplit(ms, gs, sameHour)
    ensures |gs| > 0 <==> |ms| > 0
  {
    if |gs| > 0 {
      assert RunFacts(ms, gs, |gs| - 1, sameHour);
    }
  }

  /** `Base` only looks at the runs before `g`. */
  lemma {:induction false} BaseAgree(gs: seq<seq<Message>>, gs': seq<seq<Message>>, g: nat)
    requires g <= |gs| && g <= |gs'|
    requires forall i :: 0 <= i < g ==> gs[i] == gs'[i]
    ensures Base(gs, g) == Base(gs', g)
    decreases g
  {
    if g > 0 {
      BaseAgree(gs, gs', g - 1);
    }
  }

  /** Case of the reduction that opens a new run with the new message. */
  lemma SplitOpen(p: seq<Message>, m: Message, ms: seq<Message>, gs': seq<seq<Message>>, gs: seq<seq<Message>>, sameHour: SameHour)
    requires ms == p + [m]
    requires IsSplit(p, gs', sameHour)
    requires StartsGroup(ms, |p|, sameHour)
    requires gs == gs' + [[m]]
    ensures IsSplit(ms, gs, sameHour)
  {
    var c := |gs'|;
    BaseAgree(gs, gs', c);
    forall g | 0 <= g < c ensures RunFacts(ms, gs, g, sameHour) {
      assert RunFacts(p, gs', g, sameHour);
      RunExtends(p, m, ms, gs', gs, g, sameHour);
    }
    assert gs[c] == [m] == ms[|p|..|ms|];
    assert RunFacts(ms, gs, c, sameHour);
  }

  /** Case of the reduction that appends the new message to the last run. */
  lemma SplitExtend(p: seq<Message>, m: Message, ms: seq<Message>, gs': seq<seq<Message>>, gs: seq<seq<Message>>, sameHour: SameHour)
    requires ms == p + [m]
    requires IsSplit(p, gs', sameHour) && |gs'| > 0
    requires !StartsGroup(ms, |p|, sameHour)
    requires gs == gs'[|gs'| - 1 := gs'[|gs'| - 1] + [m]]
    ensures IsSplit(ms, gs, sameHour)
  {
    var c := |gs'| - 1;
    BaseAgree(gs, gs', c);
    forall g | 0 <= g < c ensures RunFacts(ms, gs, g, sameHour) {
      assert RunFacts(p, gs', g, sameHour);
      RunExtends(p, m, ms, gs', gs, g, sameHour);
    }
    assert RunFacts(p, gs', c, sameHour);
    ExtendLastRun(p, m, ms, gs', gs, sameHour);
  }

  /** Whether a message opens a run does not depend on the messages after it. */
  lemma StartsGroupOfPrefix(p: seq<Message>, m: Message, ms: seq<Message>, k: nat, sameHour: SameHour)
    requires ms == p + [m] && k < |p|
    ensures StartsGroup(ms, k, sameHour) == StartsGroup(p, k, sameHour)
  {
    assert ms[k] == p[k];
    if k > 0 { assert ms[k - 1] == p[k - 1]; }
  }

  /** A run of the prefix's split that the new split keeps is still a run. */
  lemma RunExtends(p: seq<Message>, m: Message, ms: seq<Message>, gs': seq<seq<Message>>, gs: seq<seq<Message>>, g: nat, sameHour: SameHour)
    requires ms == p + [m]
    requires g < |gs'| && g < |gs|
    requires forall i :: 0 <= i <= g ==> gs[i] == gs'[i]
    requires RunFacts(p, gs', g, sameHour)
    ensures RunFacts(ms, gs, g, sameHour)
  {
    BaseAgree(gs, gs', g + 1);
    var lo, hi := Base(gs, g), Base(gs, g + 1);
    assert ms[lo..hi] == p[lo..hi];
    StartsGroupOfPrefix(p, m, ms, lo, sameHour);
    forall k | lo < k < hi ensures !StartsGroup(ms, k, sameHour) {
      StartsGroupOfPrefix(p, m, ms, k, sameHour);
    }
  }

  /** Appending a same-hour message to the last run keeps it a run. */
  lemma ExtendLastRun(p: seq<Message>, m: Message, ms: seq<Message>, gs': seq<seq<Message>>, gs: seq<seq<Message>>, sameHour: SameHour)
    requires ms == p + [m]
    requires |gs'| > 0 && Base(gs', |gs'|) == |p| && RunFacts(p, gs', |gs'| - 1, sameHour)
    requires !StartsGroup(ms, |p|, sameHour)
    requires gs == gs'[|gs'| - 1 := gs'[|gs'| - 1] + [m]]
    requires Base(gs, |gs| - 1) == Base(gs', |gs'| - 1)
    ensures Base(gs, |gs|) == |ms|
    ensures RunFacts(ms, gs, |gs| - 1, sameHour)
  {
    var c := |gs'| - 1;
    var b := Base(gs', c);
    RunGrows(p, m, ms, b, gs'[c], sameHour);
    assert gs[c] == gs'[c] + [m];
  }

  /** The last run of `p`, with the new message appended, is the last run of `ms`. */
  lemma RunGrows(p: seq<Message>, m: Message, ms: seq<Message>, b: nat, run: seq<Message>, sameHour: SameHour)
    requires ms == p + [m]
    requires b < |p| && run == p[b..|p|]
    requires StartsGroup(p, b, sameHour) && forall k :: b < k < |p| ==> !StartsGroup(p, k, sameHour)
    requires !StartsGroup(ms, |p|, sameHour)
    ensures run + [m] == ms[b..|ms|]
    ensures StartsGroup(ms, b, sameHour) && forall k :: b < k < |ms| ==> !StartsGroup(ms, k, sameHour)
  {
    assert ms[b..|ms|] == p[b..|p|] + [m];
    StartsGroupOfPrefix(p, m, ms, b, sameHour);
    forall k | b < k < |ms| ensures !StartsGroup(ms, k, sameHour) {
      if k < |p| {
        StartsGroupOfPrefix(p, m, ms, k, sameHour);
      }
    }
  }

  /** Run `g` as a slice of the input, and the message after it opens the next run. */
  lemma RunOfSplit(ms: seq<Message>, gs: seq<seq<Message>>, g: nat, sameHour: SameHour)
    requires IsSplit(ms, gs, sameHour) && g < |gs|
    ensures RunFacts(ms, gs, g, sameHour)
    ensures Base(gs, g + 1) < |ms| ==> StartsGroup(ms, Base(gs, g + 1), sameHour)
  {
    assert RunFacts(ms, gs, g, sameHour);
    if g + 1 < |gs| {
      assert RunFacts(ms, gs, g + 1, sameHour);
    }
  }

  /** Appending run `g`'s cells to those of the runs before it gives the cells of the first `g + 1` runs. */
  lemma CellsOfRunStep(ms: seq<Message>, lo: nat, hi: nat, cells: seq<Cell>, groupCells: seq<Cell>, sameHour: SameHour)
    requires lo < hi <= |ms|
    requires StartsGroup(ms, lo, sameHour) && forall k :: lo < k < hi ==> !StartsGroup(ms, k, sameHour)
    requires cells == FlatCells(ms, lo, sameHour)
    requires groupCells == [DateCellOf(ms[lo])] + Bodies(ms, lo, hi, sameHour)
    ensures cells + groupCells == FlatCells(ms, hi, sameHour)
  {
    FlatCellsOfRun(ms, lo, hi, sameHour);
    var body := Bodies(ms, lo, hi, sameHour);
    assert cells + ([DateCellOf(ms[lo])] + body) == (cells + [DateCellOf(ms[lo])]) + body;
  }

  lemma {:induction false} FlatCellsOfRun(ms: seq<Message>, lo: nat, hi: nat, sameHour: SameHour)
    requires lo < hi <= |ms|
    requires StartsGroup(ms, lo, sameHour)
    requires forall k :: lo < k < hi ==> !StartsGroup(ms, k, sameHour)
    ensures FlatCells(ms, hi, sameHour) == FlatCells(ms, lo, sameHour) + [DateCellOf(ms[lo])] + Bodies(ms, lo, hi, sameHour)
    decreases hi
  {
    if hi == lo + 1 {
      assert Bodies(ms, lo, hi, sameHour) == [] + BodyPiece(ms, lo, sameHour);
      assert Piece(ms, lo, sameHour) == [DateCellOf(ms[lo])] + BodyPiece(ms, lo, sameHour);
    } else {
      FlatCellsOfRun(ms, lo, hi - 1, sameHour);
      var before := FlatCells(ms, lo, sameHour) + [DateCellOf(ms[lo])];
      var body := Bodies(ms, lo, hi - 1, sameHour);
      var last := BodyPiece(ms, hi - 1, sameHour);
      assert !StartsGroup(ms, hi - 1, sameHour);
      assert Piece(ms, hi - 1, sameHour) == [] + last;
      calc {
        FlatCells(ms, hi, sameHour);
        FlatCells(ms, hi - 1, sameHour) + last;
        (before + body) + last;
        before + (body + last);
      }
    }
  }

  // ---------------------------------------------------------------------------
  // What the screen shows

  /** The messages of the message cells, in order. */
  function MessagesOf(cells: seq<Cell>): seq<Message>
    decreases |cells|
  {
    if |cells| == 0 then []
    else MessagesOf(cells[..|cells| - 1]) + (if cells[|cells| - 1].MessageCell? then [cells[|cells| - 1].message] else [])
  }

  /** The number of date cells. */
  function DateCount(cells: seq<Cell>): nat
    decreases |cells|
  {
    if |cells| == 0 then 0
    else DateCount(cells[..|cells| - 1]) + (if cells[|cells| - 1].DateCell? then 1 else 0)
  }

  /** Every title cell is followed by the message cell of the same incoming message. */
  predicate TitlesPrecedeTheirMessage(cells: seq<Cell>)
  {
    forall i :: 0 <= i < |cells| && cells[i].MessageGroupCell? ==>
      && i + 1 < |cells|
      && cells[i + 1].MessageCell?
      && cells[i + 1].message.id == cells[i].group.id
      && cells[i + 1].message.owner == cells[i].group.owner
      && cells[i + 1].message.messageType == Incoming
  }

  lemma {:induction false} MessagesOfAppend(a: seq<Cell>, b: seq<Cell>)
    ensures MessagesOf(a + b) == MessagesOf(a) + MessagesOf(b)
    decreases |b|
  {
    if |b| == 0 {
      assert a + b == a;
    } else {
      var b' := b[..|b| - 1];
      assert (a + b)[..|a + b| - 1] == a + b';
      MessagesOfAppend(a, b');
    }
  }

  lemma {:induction false} DateCountAppend(a: seq<Cell>, b: seq<Cell>)
    ensures DateCount(a + b) == DateCount(a) + DateCount(b)
    decreases |b|
  {
    if |b| == 0 {
      assert a + b == a;
    } else {
      var b' := b[..|b| - 1];
      assert (a + b)[..|a + b| - 1] == a + b';
      DateCountAppend(a, b');
    }
  }

  /** The message cells of the first `n` messages show exactly those messages, in order. */
  lemma {:induction false} FlatCellsMessages(ms: seq<Message>, n: nat, sameHour: SameHour)
    requires n <= |ms|
    ensures MessagesOf(FlatCells(ms, n, sameHour)) == ms[..n]
    decreases n
  {
    if n > 0 {
      FlatCellsMessages(ms, n - 1, sameHour);
      var k := n - 1;
      PieceMessages(ms, k, sameHour);
      MessagesOfAppendOne(FlatCells(ms, k, sameHour), Piece(ms, k, sameHour), ms, k);
    }
  }

  /** Cells showing the first `k` messages followed by cells showing message `k` show the first `k + 1`. */
  lemma MessagesOfAppendOne(prefix: seq<Cell>, piece: seq<Cell>, ms: seq<Message>, k: nat)
    requires k < |ms|
    requires MessagesOf(prefix) == ms[..k] && MessagesOf(piece) == [ms[k]]
    ensures MessagesOf(prefix + piece) == ms[..k + 1]
  {
    MessagesOfAppend(prefix, piece);
    assert ms[..k + 1] == ms[..k] + [ms[k]];
  }

  /** A message's own cells show that message and no other. */
  lemma PieceMessages(ms: seq<Message>, k: nat, sameHour: SameHour)
    requires k < |ms|
    ensures MessagesOf(Piece(ms, k, sameHour)) == [ms[k]]
  {
    var date: seq<Cell> := if StartsGroup(ms, k, sameHour) then [DateCellOf(ms[k])] else [];
    var title: seq<Cell> := if NeedsTitle(ms, k) then [TitleCellOf(ms[k])] else [];
    var cell := MessageCell(ms[k], BubbleOf(ms, k, sameHour));
    assert MessagesOf(date + title) == [] by {
      MessagesOfAppend(date, title);
      assert MessagesOf(date) == [] by { if date != [] { assert date[..0] == []; } }
      assert MessagesOf(title) == [] by { if title != [] { assert title[..0] == []; } }
    }
    assert MessagesOf([cell]) == [ms[k]] by { assert [cell][..0] == []; }
    assert Piece(ms, k, sameHour) == (date + title) + [cell];
    MessagesOfAppend(date + title, [cell]);
  }

  /** Every message is shown exactly once, and in the order it was received. */
  lemma EveryMessageOnceInOrder(raws: seq<RawMessage>, sameHour: SameHour)
    ensures MessagesOf(TransformedSections(ToMessages(raws), sameHour)[0].cells) == ToMessages(raws)
  {
    var ms := ToMessages(raws);
    FlatCellsMessages(ms, |ms|, sameHour);
    assert ms[..|ms|] == ms;
  }

  /** The bodies of a run hold no date cell. */
  lemma {:induction false} BodiesHaveNoDate(ms: seq<Message>, lo: nat, hi: nat, sameHour: SameHour)
    requires lo <= hi <= |ms|
    ensures DateCount(Bodies(ms, lo, hi, sameHour)) == 0
    decreases hi
  {
    if hi > lo {
      BodiesHaveNoDate(ms, lo, hi - 1, sameHour);
      var k := hi - 1;
      var title: seq<Cell> := if NeedsTitle(ms, k) then [TitleCellOf(ms[k])] else [];
      var cell := MessageCell(ms[k], BubbleOf(ms, k, sameHour));
      assert DateCount(title) == 0 by { if title != [] { assert title[..0] == []; } }
      assert DateCount([cell]) == 0 by { assert [cell][..0] == []; }
      DateCountAppend(title, [cell]);
      DateCountAppend(Bodies(ms, lo, k, sameHour), BodyPiece(ms, k, sameHour));
    }
  }

  /** The cells of the first `g` runs hold `g` date cells. */
  lemma {:induction false} DateCellsOfRuns(ms: seq<Message>, gs: seq<seq<Message>>, g: nat, sameHour: SameHour)
    requires IsSplit(ms, gs, sameHour) && g <= |gs|
    ensures Base(gs, g) <= |ms| && DateCount(FlatCells(ms, Base(gs, g), sameHour)) == g
    decreases g
  {
    if g > 0 {
      DateCellsOfRuns(ms, gs, g - 1, sameHour);
      RunOfSplit(ms, gs, g - 1, sameHour);
      var lo, hi := Base(gs, g - 1), Base(gs, g);
      FlatCellsOfRun(ms, lo, hi, sameHour);
      BodiesHaveNoDate(ms, lo, hi, sameHour);
      var date := [DateCellOf(ms[lo])];
      assert DateCount(date) == 1 by { assert date[..0] == []; }
      DateCountAppend(FlatCells(ms, lo, sameHour), date);
      DateCountAppend(FlatCells(ms, lo, sameHour) + date, Bodies(ms, lo, hi, sameHour));
    }
  }

  /** There is one date cell per same-hour run. */
  lemma OneDateCellPerRun(ms: seq<Message>, gs: seq<seq<Message>>, sameHour: SameHour)
    requires IsSplit(ms, gs, sameHour)
    ensures DateCount(TransformedSections(ms, sameHour)[0].cells) == |gs|
  {
    DateCellsOfRuns(ms, gs, |gs|, sameHour);
  }

  lemma TitlesAppend(a: seq<Cell>, b: seq<Cell>)
    requires TitlesPrecedeTheirMessage(a) && TitlesPrecedeTheirMessage(b)
    ensures TitlesPrecedeTheirMessage(a + b)
  {
    var c := a + b;
    forall i | 0 <= i < |c| && c[i].MessageGroupCell?
      ensures i + 1 < |c| && c[i + 1].MessageCell? && c[i + 1].message.id == c[i].group.id
      ensures c[i + 1].message.owner == c[i].group.owner && c[i + 1].message.messageType == Incoming
    {
      if i < |a| {
        assert a[i].MessageGroupCell?;
      } else {
        assert b[i - |a|].MessageGroupCell?;
      }
    }
  }

  /** A message's title, if it has one, is followed by its own message cell. */
  lemma PieceTitles(ms: seq<Message>, k: nat, sameHour: SameHour)
    requires k < |ms|
    ensures TitlesPrecedeTheirMessage(Piece(ms, k, sameHour))
  {
    var date: seq<Cell> := if StartsGroup(ms, k, sameHour) then [DateCellOf(ms[k])] else [];
    var title: seq<Cell> := if NeedsTitle(ms, k) then [TitleCellOf(ms[k])] else [];
    var cell := MessageCell(ms[k], BubbleOf(ms, k, sameHour));
    assert TitlesPrecedeTheirMessage(title + [cell]);
    TitlesAppend(date, title + [cell]);
    assert Piece(ms, k, sameHour) == date + (title + [cell]);
  }

  /** In the cells of the first `n` messages, every title introduces its own incoming message. */
  lemma {:induction false} FlatCellsTitles(ms: seq<Message>, n: nat, sameHour: SameHour)
    requires n <= |ms|
    ensures TitlesPrecedeTheirMessage(FlatCells(ms, n, sameHour))
    decreases n
  {
    if n > 0 {
      FlatCellsTitles(ms, n - 1, sameHour);
      var k := n - 1;
      PieceTitles(ms, k, sameHour);
      TitlesAppend(FlatCells(ms, k, sameHour), Piece(ms, k, sameHour));
    }
  }

  /** Every sender title on the screen sits right above the first message of that sender. */
  lemma TitlesIntroduceIncomingMessages(ms: seq<Message>, sameHour: SameHour)
    ensures TitlesPrecedeTheirMessage(TransformedSections(ms, sameHour)[0].cells)
  {
    FlatCellsTitles(ms, |ms|, sameHour);
  }

  /** The cells of fewer messages are a prefix of the cells of more. */
  lemma {:induction false} FlatCellsPrefix(ms: seq<Message>, n: nat, m: nat, sameHour: SameHour)
    requires n <= m <= |ms|
    ensures FlatCells(ms, n, sameHour) <= FlatCells(ms, m, sameHour)
    decreases m
  {
    if n < m {
      FlatCellsPrefix(ms, n, m - 1, sameHour);
    }
  }

  /** Where message `k`'s message cell sits among the cells. */
  function CellIndex(ms: seq<Message>, k: nat, sameHour: SameHour): int
    requires k < |ms|
  {
    |FlatCells(ms, k + 1, sameHour)| - 1
  }

  /** The cells of a non-empty prefix end with a message cell. */
  lemma FlatCellsEndWithMessage(ms: seq<Message>, n: nat, sameHour: SameHour)
    requires 0 < n <= |ms|
    ensures var cells := FlatCells(ms, n, sameHour);
      |cells| > 0 && cells[|cells| - 1] == MessageCell(ms[n - 1], BubbleOf(ms, n - 1, sameHour))
  {
    var piece := Piece(ms, n - 1, sameHour);
    assert piece[|piece| - 1] == MessageCell(ms[n - 1], BubbleOf(ms, n - 1, sameHour));
  }

  /**
   * Message `k`'s cell shows it with its bubble, and the cell right above it
   * is a sender title exactly when the message needs one; that title is the
   * message's own.
   */
  lemma MessageCellPosition(ms: seq<Message>, k: nat, sameHour: SameHour)
    requires k < |ms|
    ensures var cells := TransformedSections(ms, sameHour)[0].cells; var i := CellIndex(ms, k, sameHour);
      && 0 <= i < |cells|
      && cells[i] == MessageCell(ms[k], BubbleOf(ms, k, sameHour))
      && (0 < i && cells[i - 1].MessageGroupCell? <==> NeedsTitle(ms, k))
      && (NeedsTitle(ms, k) ==> 0 < i && cells[i - 1] == TitleCellOf(ms[k]))
  {
    var cells := FlatCells(ms, |ms|, sameHour);
    var upTo := FlatCells(ms, k + 1, sameHour);
    FlatCellsPrefix(ms, k + 1, |ms|, sameHour);
    LastCellsOfMessage(ms, k, sameHour);
    var i := |upTo| - 1;
    assert cells[i] == upTo[i];
    if 0 < i {
      assert cells[i - 1] == upTo[i - 1];
    }
  }

  /** The same, within the cells of the messages up to `k`. */
  lemma LastCellsOfMessage(ms: seq<Message>, k: nat, sameHour: SameHour)
    requires k < |ms|
    ensures var upTo := FlatCells(ms, k + 1, sameHour); var i := |upTo| - 1;
      && 0 <= i
      && upTo[i] == MessageCell(ms[k], BubbleOf(ms, k, sameHour))
      && (0 < i && upTo[i - 1].MessageGroupCell? <==> NeedsTitle(ms, k))
      && (NeedsTitle(ms, k) ==> 0 < i && upTo[i - 1] == TitleCellOf(ms[k]))
  {
    var upTo := FlatCells(ms, k + 1, sameHour);
    var before := FlatCells(ms, k, sameHour);
    var date: seq<Cell> := if StartsGroup(ms, k, sameHour) then [DateCellOf(ms[k])] else [];
    var title: seq<Cell> := if NeedsTitle(ms, k) then [TitleCellOf(ms[k])] else [];
    var cell := MessageCell(ms[k], BubbleOf(ms, k, sameHour));
    assert upTo == before + date + title + [cell];
    var i := |upTo| - 1;
    if title != [] {
      assert upTo[i - 1] == TitleCellOf(ms[k]);
    } else if date != [] {
      assert upTo[i - 1] == DateCellOf(ms[k]);
    } else {
      FlatCellsEndWithMessage(ms, k, sameHour);
      assert upTo[i - 1] == before[|before| - 1];
    }
  }

  /**
   * In terms of the runs: a message's bubble is normal exactly when the next
   * message of its run has the same sender, so the last message of every run
   * is tailed.
   */
  lemma BubbleInRun(ms: seq<Message>, gs: seq<seq<Message>>, g: nat, j: nat, sameHour: SameHour)
    requires IsSplit(ms, gs, sameHour) && g < |gs| && j < |gs[g]|
    ensures Base(gs, g) + j < |ms| && ms[Base(gs, g) + j] == gs[g][j]
    ensures BubbleOf(ms, Base(gs, g) + j, sameHour) == Normal <==> j + 1 < |gs[g]| && gs[g][j + 1].owner == gs[g][j].owner
  {
    RunOfSplit(ms, gs, g, sameHour);
    var k := Base(gs, g) + j;
    assert ms[k] == gs[g][j];
    if j + 1 < |gs[g]| {
      assert ms[k + 1] == gs[g][j + 1];
      assert !StartsGroup(ms, k + 1, sameHour);
    } else if k + 1 < |ms| {
      assert StartsGroup(ms, k + 1, sameHour);
    }
  }

  /**
   * In terms of the runs: the cells of run `g` are one date cell carrying the
   * run's first message id and date, then the bodies of the run's messages,
   * which hold no further date cell.
   */
  lemma RunStartsWithDate(ms: seq<Message>, gs: seq<seq<Message>>, g: nat, sameHour: SameHour)
    requires IsSplit(ms, gs, sameHour) && g < |gs|
    ensures Base(gs, g) < Base(gs, g + 1) <= |ms| && |gs[g]| > 0
    ensures FlatCells(ms, Base(gs, g + 1), sameHour)
         == FlatCells(ms, Base(gs, g), sameHour)
            + [DateCell(DateGroup(gs[g][0].id, gs[g][0].date))]
            + Bodies(ms, Base(gs, g), Base(gs, g + 1), sameHour)
    ensures DateCount(Bodies(ms, Base(gs, g), Base(gs, g + 1), sameHour)) == 0
  {
    RunOfSplit(ms, gs, g, sameHour);
    var lo, hi := Base(gs, g), Base(gs, g + 1);
    assert gs[g][0] == ms[lo];
    FlatCellsOfRun(ms, lo, hi, sameHour);
    BodiesHaveNoDate(ms, lo, hi, sameHour);
  }
}
