/** The topic publisher over one channel of the broker. What the channel is asked and
    what it answers is kept as a sequence of frames; every answer may turn out any
    way. A publication succeeds only on the broker's acknowledgement of the very
    message, sent in confirm mode. */
module Publisher {

  type MessageId = nat

  /** The delivery tag under which the channel confirms a message. */
  type Tag = nat

  datatype Frame =
    | ConfirmSelected
    | ConfirmRefused
    | SendFailed(message: MessageId)
    | SentUntracked(message: MessageId)
    | Sent(message: MessageId, tag: Tag)
    | WaitFailed(tag: Tag)
    | Nacked(tag: Tag)
    | Acked(tag: Tag)

  /** How a wait for a confirmation ends: an error or the deadline, or an answer. */
  datatype Waiting = NoAnswer | Nack | Ack

  /** How a send ends: an error, no deferred confirmation, or one to wait for. */
  datatype Sending = SendError | NoConfirmation | Deferred(wait: Waiting)

  /** What the channel answers during one publication. */
  datatype Answers = Answers(confirm: bool, sending: Sending)

  /** The publisher's flag and everything that happened on its channel. */
  datatype Conn = Conn(confirmed: bool, frames: seq<Frame>)

  const Opened := Conn(false, [])

  datatype Published = Published(conn: Conn, ok: bool)

  /** Tags number the messages of a channel. */
  function NextTag(frames: seq<Frame>): Tag
    decreases |frames|
  {
    if frames == [] then 1
    else
      var last := frames[|frames| - 1];
      NextTag(frames[..|frames| - 1]) + if last.Sent? || last.SentUntracked? then 1 else 0
  }

  function EnsureConfirmMode(c: Conn, confirm: bool): Conn {
    if c.confirmed then c
    else if confirm then Conn(true, c.frames + [ConfirmSelected])
    else c.(frames := c.frames + [ConfirmRefused])
  }

  function Send(c: Conn, message: MessageId, sending: Sending): Conn {
    match sending
    case SendError => c.(frames := c.frames + [SendFailed(message)])
    case NoConfirmation => c.(frames := c.frames + [SentUntracked(message)])
    case Deferred(_) => c.(frames := c.frames + [Sent(message, NextTag(c.frames))])
  }

  function Wait(c: Conn, tag: Tag, wait: Waiting): Conn {
    match wait
    case NoAnswer => c.(frames := c.frames + [WaitFailed(tag)])
    case Nack => c.(frames := c.frames + [Nacked(tag)])
    case Ack => c.(frames := c.frames + [Acked(tag)])
  }

  /** PublishJSON. */
  function Publish(c: Conn, message: MessageId, a: Answers): Published {
    var ready := EnsureConfirmMode(c, a.confirm);
    if !ready.confirmed then Published(ready, false)
    else
      var sent := Send(ready, message, a.sending);
      if !a.sending.Deferred? then Published(sent, false)
      else Published(Wait(sent, NextTag(ready.frames), a.sending.wait), a.sending.wait == Ack)
  }

  // ------------------------------------------------------------- what success means

  /** The flag tells whether the channel is in confirm mode. */
  predicate InStep(c: Conn) {
    c.confirmed <==> ConfirmSelected in c.frames
  }

  /** At or after `from` the message was sent in confirm mode, and the broker then
      acknowledged it under its own tag. */
  predicate Confirmed(frames: seq<Frame>, from: nat, message: MessageId) {
    exists i, j :: from <= i < j < |frames| && AckedLater(frames, i, j, message)
  }

  predicate AckedLater(frames: seq<Frame>, i: nat, j: nat, message: MessageId)
    requires i < j < |frames|
  {
    frames[i].Sent? && frames[i].message == message && frames[j] == Acked(frames[i].tag) && ConfirmSelected in frames[..i]
  }

  lemma ModeKeepsInStep(c: Conn, confirm: bool)
    requires InStep(c)
    ensures c.frames <= EnsureConfirmMode(c, confirm).frames && InStep(EnsureConfirmMode(c, confirm))
  {
    if !c.confirmed {
      assert EnsureConfirmMode(c, confirm).frames[|c.frames|] == if confirm then ConfirmSelected else ConfirmRefused;
    }
  }

  /** A publication that ended before or at its send, or whose wait did not end in an
      acknowledgement, left no acknowledgement on the channel. */
  lemma FailureAcksNothing(c: Conn, message: MessageId, a: Answers)
    requires InStep(c) && !Publish(c, message, a).ok
    ensures var frames := Publish(c, message, a).conn.frames;
            forall j :: |c.frames| <= j < |frames| ==> !frames[j].Acked?
  {
  }

  lemma PublishExtends(c: Conn, message: MessageId, a: Answers)
    requires InStep(c)
    ensures c.frames <= Publish(c, message, a).conn.frames && InStep(Publish(c, message, a).conn)
  {
    ModeKeepsInStep(c, a.confirm);
    var ready := EnsureConfirmMode(c, a.confirm);
    if ready.confirmed {
      assert Publish(c, message, a).conn.frames[..|ready.frames|] == ready.frames;
    }
  }

  /** A publication reports success if and only if, during this call, this message was
      sent in confirm mode and its own confirmation was an acknowledgement: not after
      a refused confirm mode, a failed send, a missing confirmation, an error or a
      timeout of the wait, or a negative answer. */
  lemma SuccessIffConfirmed(c: Conn, message: MessageId, a: Answers)
    requires InStep(c)
    ensures var p := Publish(c, message, a);
            && c.frames <= p.conn.frames && InStep(p.conn)
            && (p.ok <==> Confirmed(p.conn.frames, |c.frames|, message))
  {
    var p := Publish(c, message, a);
    PublishExtends(c, message, a);
    if p.ok {
      ModeKeepsInStep(c, a.confirm);
      var ready := EnsureConfirmMode(c, a.confirm);
      var n := |ready.frames|;
      assert p.conn.frames[..n] == ready.frames;
      assert AckedLater(p.conn.frames, n, n + 1, message);
    } else {
      FailureAcksNothing(c, message, a);
    }
  }

  // ------------------------------------------------------------------ whole sessions

  /** The publications of one publisher, one after the other: its lock orders them. */
  function Session(messages: seq<MessageId>, answers: seq<Answers>): Conn
    requires |messages| == |answers|
    decreases |messages|
  {
    if messages == [] then Opened
    else
      var n := |messages| - 1;
      Publish(Session(messages[..n], answers[..n]), messages[n], answers[n]).conn
  }

  /** Every tag is smaller than the next one, and no two messages have the same. */
  predicate TagsDiffer(frames: seq<Frame>) {
    && (forall i :: 0 <= i < |frames| && frames[i].Sent? ==> frames[i].tag < NextTag(frames))
    && (forall i, j :: 0 <= i < j < |frames| && frames[i].Sent? && frames[j].Sent? ==> frames[i].tag != frames[j].tag)
  }

  lemma FrameKeepsTagsDiffer(frames: seq<Frame>, f: Frame)
    requires TagsDiffer(frames) && (f.Sent? ==> f.tag == NextTag(frames))
    ensures TagsDiffer(frames + [f])
  {
    assert (frames + [f])[..|frames|] == frames;
  }

  lemma SendKeepsTagsDiffer(c: Conn, message: MessageId, sending: Sending)
    requires TagsDiffer(c.frames)
    ensures TagsDiffer(Send(c, message, sending).frames)
  {
    FrameKeepsTagsDiffer(c.frames, Send(c, message, sending).frames[|c.frames|]);
  }

  lemma WaitKeepsTagsDiffer(c: Conn, tag: Tag, wait: Waiting)
    requires TagsDiffer(c.frames)
    ensures TagsDiffer(Wait(c, tag, wait).frames)
  {
    FrameKeepsTagsDiffer(c.frames, Wait(c, tag, wait).frames[|c.frames|]);
  }

  lemma PublishKeepsTagsDiffer(c: Conn, message: MessageId, a: Answers)
    requires TagsDiffer(c.frames)
    ensures TagsDiffer(Publish(c, message, a).conn.frames)
  {
    var ready := EnsureConfirmMode(c, a.confirm);
    if !c.confirmed {
      FrameKeepsTagsDiffer(c.frames, if a.confirm then ConfirmSelected else ConfirmRefused);
    }
    if ready.confirmed {
      SendKeepsTagsDiffer(ready, message, a.sending);
      if a.sending.Deferred? {
        WaitKeepsTagsDiffer(Send(ready, message, a.sending), NextTag(ready.frames), a.sending.wait);
      }
    }
  }

  /** Over a whole session the flag is true to the channel, and a confirmation belongs
      to one message only. */
  lemma {:induction false} ConfirmationsBelongToOneMessage(messages: seq<MessageId>, answers: seq<Answers>)
    requires |messages| == |answers|
    ensures InStep(Session(messages, answers)) && TagsDiffer(Session(messages, answers).frames)
    decreases |messages|
  {
    if messages != [] {
      var n := |messages| - 1;
      var before := Session(messages[..n], answers[..n]);
      ConfirmationsBelongToOneMessage(messages[..n], answers[..n]);
      SuccessIffConfirmed(before, messages[n], answers[n]);
      PublishKeepsTagsDiffer(before, messages[n], answers[n]);
    }
  }

  // ------------------------------------------------------------------- as it runs

  class TopicPublisher {
    var confirmed: bool
    ghost var frames: seq<Frame>
    ghost var tag: Tag

    ghost function Value(): Conn
      reads this
    {
      Conn(confirmed, frames)
    }

    ghost predicate Valid()
      reads this
    {
      InStep(Value()) && tag == NextTag(frames)
    }

    constructor ()
      ensures Valid() && Value() == Opened
    {
      confirmed, frames, tag := false, [], 1;
    }

    /** One more thing that happened on the channel. */
    ghost method Note(f: Frame)
      requires tag == NextTag(frames)
      modifies `frames, `tag
      ensures frames == old(frames) + [f] && tag == NextTag(frames)
    {
      assert (frames + [f])[..|frames|] == frames;
      tag := tag + if f.Sent? || f.SentUntracked? then 1 else 0;
      frames := frames + [f];
    }

    /** The channel's confirm.select. */
    method SelectConfirm() returns (ok: bool)
      requires tag == NextTag(frames)
      modifies `frames, `tag
      ensures frames == old(frames) + [if ok then ConfirmSelected else ConfirmRefused] && tag == NextTag(frames)
    {
      ok := *;
      Note(if ok then ConfirmSelected else ConfirmRefused);
    }

    /** PublishWithDeferredConfirmWithContext of the channel. */
    method SendDeferred(message: MessageId) returns (err: bool, deferred: bool, ghost confirmation: Tag)
      requires tag == NextTag(frames)
      modifies `frames, `tag
      ensures err ==> !deferred
      ensures confirmation == NextTag(old(frames)) && tag == NextTag(frames)
      ensures frames == old(frames) + [if err then SendFailed(message)
                                       else if deferred then Sent(message, confirmation)
                                       else SentUntracked(message)]
    {
      confirmation := tag;
      err := *;
      deferred := *;
      deferred := deferred && !err;
      Note(if err then SendFailed(message) else if deferred then Sent(message, confirmation) else SentUntracked(message));
    }

    /** WaitContext of a deferred confirmation. */
    method AwaitAnswer(ghost confirmation: Tag) returns (err: bool, acked: bool)
      requires tag == NextTag(frames)
      modifies `frames, `tag
      ensures frames == old(frames) + [if err then WaitFailed(confirmation)
                                       else if acked then Acked(confirmation)
                                       else Nacked(confirmation)]
      ensures tag == NextTag(frames)
    {
      err := *;
      acked := *;
      Note(if err then WaitFailed(confirmation) else if acked then Acked(confirmation) else Nacked(confirmation));
    }

    method TurnOnConfirms() returns (ok: bool)
      requires Valid()
      modifies this
      ensures Valid() && Value() == EnsureConfirmMode(old(Value()), ok) && (ok <==> confirmed)
    {
      if confirmed {
        return true;
      }
      ok := SelectConfirm();
      assert frames[..|old(frames)|] == old(frames) && frames[|old(frames)|] == if ok then ConfirmSelected else ConfirmRefused;
      if ok {
        confirmed := true;
      }
    }

    /** PublishJSON: `a` records what the channel answered. */
    method PublishJSON(message: MessageId) returns (ok: bool, ghost a: Answers)
      requires Valid()
      modifies this
      ensures Valid() && Published(Value(), ok) == Publish(old(Value()), message, a)
      ensures old(frames) <= frames && (ok <==> Confirmed(frames, |old(frames)|, message))
    {
      ghost var before := Value();
      a := Answers(false, SendError);
      ok := TurnOnConfirms();
      a := Answers(ok, SendError);
      if ok {
        ok, a := SendAndWait(message);
      }
      SuccessIffConfirmed(before, message, a);
    }

    method SendAndWait(message: MessageId) returns (ok: bool, ghost a: Answers)
      requires Valid() && confirmed
      modifies `frames, `tag
      ensures tag == NextTag(frames) && a.confirm
      ensures Published(Value(), ok) == Publish(old(Value()), message, a)
    {
      a := Answers(true, SendError);
      ok := false;
      var err, deferred, confirmation := SendDeferred(message);
      if err {
        return;
      }
      if !deferred {
        a := Answers(true, NoConfirmation);
        return;
      }
      var failed, acked := AwaitAnswer(confirmation);
      a := Answers(true, Deferred(if failed then NoAnswer else if acked then Ack else Nack));
      ok := !failed && acked;
    }
  }
}
