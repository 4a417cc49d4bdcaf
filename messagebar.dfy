/** The transient status-message row of the editor: a message that is meant to
    be shown for five seconds after it is posted, and the redraw bookkeeping that
    decides when the row has to be written again.

    The wall clock is an explicit reading `now` in milliseconds, and drawing
    returns the row write it would hand to the terminal instead of performing it. */
module Messagebar {

  /** The expiry threshold of a message, in milliseconds (five seconds). */
  const DefaultDuration: nat := 5000

  /** A posted notification: its text and the clock reading when it was posted. */
  datatype Message = Message(text: string, time: nat)
  {
    /** Time passed since posting. Like `Instant::duration_since`, a reading
        earlier than the posting time gives zero rather than a negative span. */
    function Elapsed(now: nat): nat {
      if now >= time then now - time else 0
    }

    /** More than DefaultDuration has passed since posting; the boundary is strict. */
    predicate IsExpired(now: nat)
      ensures IsExpired(now) <==> time + DefaultDuration < now
    {
      Elapsed(now) > DefaultDuration
    }
  }

  /** The message a fresh bar holds: empty text, stamped with the creation time. */
  function DefaultMessage(now: nat): Message {
    Message("", now)
  }

  /** One call of the terminal's row printer: the row and the text written there. */
  datatype RowWrite = RowWrite(row: nat, text: string)

  /** A snapshot of the bar's three fields. */
  datatype BarState = BarState(message: Message, needsRedraw: bool, clearAfterExpiry: bool)
  {
    /** The renderer's poll: the one-time expiry trigger or the explicit flag. */
    predicate NeedsRedraw(now: nat) {
      (!clearAfterExpiry && message.IsExpired(now)) || needsRedraw
    }

    /** The text a draw at time `now` writes: nothing once the message has expired. */
    function Text(now: nat): string {
      if message.IsExpired(now) then "" else message.text
    }
  }

  /** The state of a bar created at time `now`. */
  function DefaultBar(now: nat): BarState {
    BarState(DefaultMessage(now), false, false)
  }

  /** The operations of the bar, with the clock readings each one takes.
      `Draw` reads the clock twice: `first` decides the flag, `second` the text. */
  datatype Op =
    | UpdateMessage(text: string, at: nat)
    | SetNeedsRedraw(value: bool)
    | SetSize
    | Draw(origin: nat, first: nat, second: nat)

  /** The state after a sequence of operations and the rows they wrote, in order. */
  datatype Outcome = Outcome(state: BarState, writes: seq<RowWrite>)

  /** The effect of one operation on the bar. */
  function Step(s: BarState, op: Op): Outcome {
    match op
    case UpdateMessage(text, at) =>
      Outcome(BarState(Message(text, at), true, true), [])
    case SetNeedsRedraw(value) =>
      Outcome(s.(needsRedraw := value), [])
    case SetSize =>
      Outcome(s, [])
    case Draw(origin, first, second) =>
      var cleared := if s.message.IsExpired(first) then s.(clearAfterExpiry := true) else s;
      Outcome(cleared, [RowWrite(origin, s.Text(second))])
  }

  /** The effect of running `ops` one after another from `s`. */
  function Run(s: BarState, ops: seq<Op>): Outcome
    decreases |ops|
  {
    if ops == [] then Outcome(s, [])
    else
      var head := Step(s, ops[0]);
      var tail := Run(head.state, ops[1..]);
      Outcome(tail.state, head.writes + tail.writes)
  }

  /** No message is posted in `ops`. */
  predicate NoUpdate(ops: seq<Op>) {
    forall i :: 0 <= i < |ops| ==> !ops[i].UpdateMessage?
  }

  /** Nobody resets the explicit flag in `ops`. */
  predicate NoReset(ops: seq<Op>) {
    forall i :: 0 <= i < |ops| ==> ops[i] != SetNeedsRedraw(false)
  }

  /** Nobody requests a redraw explicitly in `ops`. */
  predicate NoRequest(ops: seq<Op>) {
    forall i :: 0 <= i < |ops| ==> ops[i] != SetNeedsRedraw(true)
  }

  /** The clock readings in `ops` never go backwards and start no earlier than `t`,
      as a monotone clock guarantees. */
  predicate ClockFrom(ops: seq<Op>, t: nat)
    decreases |ops|
  {
    ops == [] ||
    match ops[0]
    case UpdateMessage(_, at) => t <= at && ClockFrom(ops[1..], at)
    case Draw(_, first, second) => t <= first <= second && ClockFrom(ops[1..], second)
    case _ => ClockFrom(ops[1..], t)
  }

  // ---------------------------------------------------------------------------
  // The widget as the source keeps it: one object whose fields are updated in place.

  class MessageBar {
    var currentMessage: Message
    var needsRedraw: bool
    var clearAfterExpiry: bool

    /** The bar's fields as a value. */
    function State(): BarState
      reads this
    {
      BarState(currentMessage, needsRedraw, clearAfterExpiry)
    }

    /** A bar created at time `now`: empty text stamped `now`, both flags clear. */
    constructor (now: nat)
      ensures currentMessage == Message("", now)
      ensures !needsRedraw && !clearAfterExpiry
      ensures State() == DefaultBar(now)
    {
      currentMessage := DefaultMessage(now);
      needsRedraw := false;
      clearAfterExpiry := false;
    }

    /** Post `newMessage` at time `now`. */
    method UpdateMessage(newMessage: string, now: nat)
      modifies this
      ensures currentMessage == Message(newMessage, now)
      ensures clearAfterExpiry && needsRedraw
      ensures State() == Step(old(State()), Op.UpdateMessage(newMessage, now)).state
    {
      currentMessage := Message(newMessage, now);
      clearAfterExpiry := true;
      SetNeedsRedraw(true);
    }

    /** Set the explicit redraw flag, and nothing else. */
    method SetNeedsRedraw(value: bool)
      modifies this`needsRedraw
      ensures needsRedraw == value
      ensures State() == Step(old(State()), Op.SetNeedsRedraw(value)).state
    {
      needsRedraw := value;
    }

    /** Whether the renderer has to draw this row at time `now`. */
    predicate NeedsRedraw(now: nat)
      reads this
      ensures NeedsRedraw(now) <==>
                needsRedraw || (!clearAfterExpiry && currentMessage.time + DefaultDuration < now)
    {
      State().NeedsRedraw(now)
    }

    /** The bar occupies one row whatever the terminal size; resizing changes nothing. */
    method SetSize(height: nat, width: nat)
      ensures unchanged(this)
      ensures State() == Step(old(State()), Op.SetSize).state
    {
    }

    /** Draw the row at `origin`, reading the clock at `first` and then at `second`.
        Returns the write handed to the terminal. */
    method Draw(origin: nat, first: nat, second: nat) returns (w: RowWrite)
      modifies this`clearAfterExpiry
      ensures w.row == origin
      ensures w.text == if old(currentMessage).IsExpired(second) then "" else currentMessage.text
      ensures clearAfterExpiry == (old(clearAfterExpiry) || currentMessage.IsExpired(first))
      ensures currentMessage == old(currentMessage) && needsRedraw == old(needsRedraw)
      ensures var o := Step(old(State()), Op.Draw(origin, first, second));
              State() == o.state && [w] == o.writes
    {
      if currentMessage.IsExpired(first) {
        clearAfterExpiry := true;
      }
      var message := if currentMessage.IsExpired(second) then "" else currentMessage.text;
      w := RowWrite(origin, message);
    }
  }

  // ---------------------------------------------------------------------------
  // Properties of the bar across sequences of operations.

  /** Expiry is permanent under a monotone clock. */
  lemma ExpiryIsPermanent(m: Message, t: nat, u: nat)
    requires t <= u && m.IsExpired(t)
    ensures m.IsExpired(u)
  {
  }

  /** A message is visible for the whole five seconds after it is posted and
      expired at every later reading. */
  lemma ExpiryBoundary(m: Message, now: nat)
    ensures m.time <= now <= m.time + DefaultDuration ==> !m.IsExpired(now)
    ensures m.time + DefaultDuration < now ==> m.IsExpired(now)
  {
  }

  /** With one clock reading, drawing clears the row and marks the clearing done
      exactly when the message has expired, and shows the text otherwise. With two
      monotone readings it never marks the clearing done while showing the text. */
  lemma DrawOutcome(s: BarState, origin: nat, first: nat, second: nat)
    ensures var o := Step(s, Draw(origin, first, second));
            first <= second && o.state.clearAfterExpiry && !s.clearAfterExpiry ==>
              o.writes == [RowWrite(origin, "")]
    ensures var o := Step(s, Draw(origin, first, first));
            o.writes == [RowWrite(origin, if s.message.IsExpired(first) then "" else s.message.text)] &&
            o.state.clearAfterExpiry == (s.clearAfterExpiry || s.message.IsExpired(first)) &&
            o.state.message == s.message && o.state.needsRedraw == s.needsRedraw
  {
  }

  /** Only posting a message replaces it. */
  lemma {:induction false} MessageKeptWithoutUpdate(s: BarState, ops: seq<Op>)
    requires NoUpdate(ops)
    ensures Run(s, ops).state.message == s.message
    decreases |ops|
  {
    if ops != [] {
      assert NoUpdate(ops[1..]) by {
        forall i | 0 <= i < |ops[1..]| ensures !ops[1..][i].UpdateMessage? {
          assert ops[1..][i] == ops[i + 1];
        }
      }
      MessageKeptWithoutUpdate(Step(s, ops[0]).state, ops[1..]);
    }
  }

  /** Once set, the clearing mark is never taken back: no operation of the bar
      resets it. */
  lemma {:induction false} ClearAfterExpirySticks(s: BarState, ops: seq<Op>)
    requires s.clearAfterExpiry
    ensures Run(s, ops).state.clearAfterExpiry
    decreases |ops|
  {
    if ops != [] {
      ClearAfterExpirySticks(Step(s, ops[0]).state, ops[1..]);
    }
  }

  /** A redraw stays owed, at every time, until somebody resets the explicit flag. */
  lemma {:induction false} RedrawOwedUntilReset(s: BarState, ops: seq<Op>, now: nat)
    requires s.needsRedraw && NoReset(ops)
    ensures Run(s, ops).state.needsRedraw
    ensures Run(s, ops).state.NeedsRedraw(now)
    decreases |ops|
  {
    if ops != [] {
      assert ops[0] != SetNeedsRedraw(false);
      assert NoReset(ops[1..]) by {
        forall i | 0 <= i < |ops[1..]| ensures ops[1..][i] != SetNeedsRedraw(false) {
          assert ops[1..][i] == ops[i + 1];
        }
      }
      RedrawOwedUntilReset(Step(s, ops[0]).state, ops[1..], now);
    }
  }

  /** Posting a message requests a redraw that is owed at every later time until the
      flag is reset; and as long as nothing else is posted, a draw within the next
      five seconds writes exactly its text. */
  lemma PostedMessageIsShown(s: BarState, text: string, at: nat, ops: seq<Op>, now: nat,
                             origin: nat, first: nat, second: nat)
    ensures NoReset(ops) ==> Run(s, [UpdateMessage(text, at)] + ops).state.NeedsRedraw(now)
    ensures NoUpdate(ops) && at <= second <= at + DefaultDuration ==>
              Step(Run(s, [UpdateMessage(text, at)] + ops).state, Draw(origin, first, second)).writes
                == [RowWrite(origin, text)]
  {
    var posted := Step(s, UpdateMessage(text, at)).state;
    assert ([UpdateMessage(text, at)] + ops)[1..] == ops;
    if NoReset(ops) {
      RedrawOwedUntilReset(posted, ops, now);
    }
    if NoUpdate(ops) {
      MessageKeptWithoutUpdate(posted, ops);
    }
  }

  /** A bar with the clearing mark set and no explicit request stays quiet however
      much time passes, as long as nobody posts a message or requests a redraw. */
  lemma {:induction false} QuietStaysQuiet(s: BarState, ops: seq<Op>, now: nat)
    requires s.clearAfterExpiry && !s.needsRedraw
    requires NoUpdate(ops) && NoRequest(ops)
    ensures !Run(s, ops).state.needsRedraw
    ensures !Run(s, ops).state.NeedsRedraw(now)
    decreases |ops|
  {
    if ops != [] {
      assert !ops[0].UpdateMessage? && ops[0] != SetNeedsRedraw(true);
      assert NoUpdate(ops[1..]) && NoRequest(ops[1..]) by {
        forall i | 0 <= i < |ops[1..]|
          ensures !ops[1..][i].UpdateMessage? && ops[1..][i] != SetNeedsRedraw(true)
        {
          assert ops[1..][i] == ops[i + 1];
        }
      }
      QuietStaysQuiet(Step(s, ops[0]).state, ops[1..], now);
    }
  }

  /** After a message is posted the expiry trigger never fires again, whatever
      follows: every later poll answers with the explicit flag alone. So a posted
      message is blanked only when some other request makes the renderer redraw. */
  lemma PostedMessageNeverTriggersExpiry(s: BarState, text: string, at: nat, ops: seq<Op>, now: nat)
    ensures var r := Run(s, [UpdateMessage(text, at)] + ops).state;
            r.NeedsRedraw(now) == r.needsRedraw
  {
    var posted := Step(s, UpdateMessage(text, at)).state;
    ClearAfterExpirySticks(posted, ops);
    assert ([UpdateMessage(text, at)] + ops)[1..] == ops;
  }

  /** Once the current message has expired, every further draw writes an empty row,
      as long as the clock does not go back and no new message is posted. */
  lemma {:induction false} ExpiredDrawsBlank(s: BarState, ops: seq<Op>, t: nat)
    requires s.message.IsExpired(t)
    requires NoUpdate(ops) && ClockFrom(ops, t)
    ensures forall i :: 0 <= i < |Run(s, ops).writes| ==> Run(s, ops).writes[i].text == ""
    decreases |ops|
  {
    if ops != [] {
      var head := Step(s, ops[0]);
      var next := if ops[0].Draw? then ops[0].second else t;
      assert !ops[0].UpdateMessage?;
      assert NoUpdate(ops[1..]) by {
        forall i | 0 <= i < |ops[1..]| ensures !ops[1..][i].UpdateMessage? {
          assert ops[1..][i] == ops[i + 1];
        }
      }
      assert head.state.message == s.message;
      ExpiredDrawsBlank(head.state, ops[1..], next);
      forall i | 0 <= i < |head.writes| ensures head.writes[i].text == "" {
      }
    }
  }

  /** The life of a bar that never receives a message: quiet for five seconds, then
      a redraw is owed once; after one draw the bar is quiet for good and every
      further draw writes an empty row. */
  lemma DefaultBarClearsOnce(created: nat, now: nat, origin: nat, ops: seq<Op>, later: nat)
    requires created + DefaultDuration < now
    requires NoUpdate(ops) && NoRequest(ops) && ClockFrom(ops, now)
    ensures forall t :: created <= t <= created + DefaultDuration ==> !DefaultBar(created).NeedsRedraw(t)
    ensures DefaultBar(created).NeedsRedraw(now)
    ensures var o := Run(DefaultBar(created), [Draw(origin, now, now)] + ops);
            o.writes[0] == RowWrite(origin, "") &&
            (forall i :: 0 <= i < |o.writes| ==> o.writes[i].text == "") &&
            !o.state.NeedsRedraw(later)
  {
    var s := DefaultBar(created);
    var all := [Draw(origin, now, now)] + ops;
    assert all[1..] == ops;
    var drawn := Step(s, all[0]).state;
    assert drawn.clearAfterExpiry && !drawn.needsRedraw;
    QuietStaysQuiet(drawn, ops, later);
    assert NoUpdate(all) && ClockFrom(all, now);
    ExpiredDrawsBlank(s, all, now);
  }

  /** "Saved." posted at time 0 on a bar created then: the post owes a redraw, the
      draw shows the text, and once the renderer resets the flag the bar stays quiet
      at three seconds and also at six. At six seconds a draw would write an empty
      row, but none is requested, so the last write on screen is still "Saved.". */
  lemma SavedScenario(origin: nat)
    ensures Run(DefaultBar(0), [UpdateMessage("Saved.", 0)]).state.NeedsRedraw(0)
    ensures var o := Run(DefaultBar(0), [UpdateMessage("Saved.", 0), Draw(origin, 0, 0), SetNeedsRedraw(false)]);
            o.writes == [RowWrite(origin, "Saved.")] &&
            !o.state.NeedsRedraw(3000) && !o.state.NeedsRedraw(6000) && o.state.Text(6000) == ""
  {
    var ops := [UpdateMessage("Saved.", 0), Draw(origin, 0, 0), SetNeedsRedraw(false)];
    var posted := BarState(Message("Saved.", 0), true, true);
    var reset := posted.(needsRedraw := false);
    assert Step(DefaultBar(0), ops[0]).state == posted;
    assert Step(posted, ops[1]) == Outcome(posted, [RowWrite(origin, "Saved.")]);
    assert Run(reset, ops[3..]) == Outcome(reset, []);
    assert Run(posted, ops[2..]) == Outcome(reset, []);
    assert Run(posted, ops[1..]) == Outcome(reset, [RowWrite(origin, "Saved.")]);
  }
}
