/**
 The routing decision the relay makes for one inbound frame.

 `Dispatch` is a closed switch on the frame's `event` tag. It decides where the
 answer goes (back to the sending connection, or to the mailbox of an
 identity named in the frame), which event name the recipient sees, and how
 the payload is relabelled. It has no state: delivery is done by the relay.
 */
module Dispatcher {
  import opened Wire

  /** One output of a dispatch: a frame for the sending connection itself, or
      a payload for every connection in the mailbox of `roomId`. */
  datatype Output =
    | Reply(frame: Frame)
    | Forward(roomId: Identity, event: string, payload: map<string, Json>)
  {
    /** The frame a recipient of this output is written. */
    function FrameOf(): Frame
    {
      match this
      case Reply(f) => f
      case Forward(_, e, p) => Frame(e, Obj(p))
    }
  }

  /** The outcome of a dispatch. `Panic(field)` stands for the unchecked type
      assertion on a required string field that is absent or not a string:
      the handler does not drop such a frame, it panics. */
  datatype Dispatched =
    | Outputs(outs: seq<Output>)
    | Panic(field: string)

  /** The inbound events that are forwarded to a mailbox. */
  predicate IsForwarded(event: string)
  {
    event == "call" || event == "answerCall" || event == "callEnding" || event == "ICEcandidate"
  }

  /** The field of an inbound forwarded event that names the target mailbox. */
  function TargetField(event: string): string
  {
    if event == "call" || event == "ICEcandidate" then "calleeId" else "callerId"
  }

  /** The routing decision for `msg` sent by the connection whose identity is `sender`. */
  function Dispatch(sender: Identity, msg: Message): (d: Dispatched)
    // at most one output per frame, and ping is the only event answered on the sender's own connection
    ensures d.Outputs? ==> |d.outs| <= 1
    ensures d.Outputs? && |d.outs| == 1 ==> (d.outs[0].Reply? <==> EventOf(msg) == Some("ping"))
    // only the four forwarded events can panic, and only on the field that names their target
    ensures d.Panic? <==> EventOf(msg).Some? && IsForwarded(EventOf(msg).value)
                          && StringField(msg, TargetField(EventOf(msg).value)).None?
    ensures d.Panic? ==> d.field == TargetField(EventOf(msg).value)
  {
    match EventOf(msg)
    case None => Outputs([])
    case Some(event) =>
      if event == "ping" then
        Outputs([Reply(Frame("pong", Field(msg, "data")))])
      else if event == "call" then
        match StringField(msg, "calleeId")
        case None => Panic("calleeId")
        case Some(calleeId) =>
          Outputs([Forward(calleeId, "newCall",
                           map["callerId" := Str(sender), "rtcMessage" := Field(msg, "rtcMessage")])])
      else if event == "answerCall" then
        match StringField(msg, "callerId")
        case None => Panic("callerId")
        case Some(callerId) =>
          Outputs([Forward(callerId, "callAnswered",
                           map["callee" := Str(sender), "rtcMessage" := Field(msg, "rtcMessage")])])
      else if event == "callEnding" then
        match StringField(msg, "callerId")
        case None => Panic("callerId")
        case Some(callerId) => Outputs([Forward(callerId, "callEnd", map[])])
      else if event == "ICEcandidate" then
        match StringField(msg, "calleeId")
        case None => Panic("calleeId")
        case Some(calleeId) =>
          Outputs([Forward(calleeId, "ICEcandidate",
                           map["sender" := Str(sender), "rtcMessage" := Field(msg, "rtcMessage")])])
      else
        Outputs([])
  }

  /** Whether handling `msg` panics. */
  predicate Panics(sender: Identity, msg: Message)
  {
    Dispatch(sender, msg).Panic?
  }

  // ---------------------------------------------------------------------------
  // A recipient's reading of a forwarded frame. It is written independently of
  // `Dispatch`, from the point of view of the peer that receives the frame: the
  // lemma ForwardIdentifiesSender shows that the relabelling loses nothing.
  // ---------------------------------------------------------------------------

  /** The payload field in which a recipient finds who sent a forwarded event. */
  function OriginField(event: string): Option<string>
  {
    if event == "newCall" then Some("callerId")
    else if event == "callAnswered" then Some("callee")
    else if event == "ICEcandidate" then Some("sender")
    else None
  }

  /** The identity a recipient reads as the originator of a frame, if the frame names one. */
  function Originator(f: Frame): Option<Identity>
  {
    match (f.data, OriginField(f.event))
    case (Obj(p), Some(key)) => StringField(p, key)
    case _ => None
  }

  /** The session-negotiation payload a recipient reads from a frame. */
  function RtcMessage(f: Frame): Json
  {
    match f.data
    case Obj(p) => Field(p, "rtcMessage")
    case _ => Null
  }

  /** The inbound event a forwarded event answers to. */
  function InboundEvent(forwarded: string): Option<string>
  {
    if forwarded == "newCall" then Some("call")
    else if forwarded == "callAnswered" then Some("answerCall")
    else if forwarded == "callEnd" then Some("callEnding")
    else if forwarded == "ICEcandidate" then Some("ICEcandidate")
    else None
  }

  // ---------------------------------------------------------------------------
  // Properties of the routing decision, one per event.
  // ---------------------------------------------------------------------------

  /** `ping` yields exactly one `pong`, for the sending connection only, echoing `data` unchanged
      (null when the frame had none). */
  lemma PingEchoes(sender: Identity, msg: Message)
    requires EventOf(msg) == Some("ping")
    ensures Dispatch(sender, msg) == Outputs([Reply(Frame("pong", Field(msg, "data")))])
    ensures "data" in msg ==> Dispatch(sender, msg).outs[0].FrameOf().data == msg["data"]
  {
  }

  /** `call` goes to the callee's mailbox as `newCall`, naming the sender as `callerId`. */
  lemma CallRoutesToCallee(sender: Identity, msg: Message, callee: Identity)
    requires EventOf(msg) == Some("call") && StringField(msg, "calleeId") == Some(callee)
    ensures Dispatch(sender, msg) == Outputs([Forward(callee, "newCall",
              map["callerId" := Str(sender), "rtcMessage" := Field(msg, "rtcMessage")])])
  {
  }

  /** `answerCall` goes to the caller's mailbox as `callAnswered`, naming the sender as `callee`. */
  lemma AnswerRoutesToCaller(sender: Identity, msg: Message, caller: Identity)
    requires EventOf(msg) == Some("answerCall") && StringField(msg, "callerId") == Some(caller)
    ensures Dispatch(sender, msg) == Outputs([Forward(caller, "callAnswered",
              map["callee" := Str(sender), "rtcMessage" := Field(msg, "rtcMessage")])])
  {
  }

  /** `callEnding` goes to the caller's mailbox as `callEnd` with an empty payload. */
  lemma EndingRoutesToCaller(sender: Identity, msg: Message, caller: Identity)
    requires EventOf(msg) == Some("callEnding") && StringField(msg, "callerId") == Some(caller)
    ensures Dispatch(sender, msg) == Outputs([Forward(caller, "callEnd", map[])])
    ensures Dispatch(sender, msg).outs[0].FrameOf() == Frame("callEnd", Obj(map[]))
  {
  }

  /** `ICEcandidate` goes to the callee's mailbox under the same name, naming the sender as `sender`. */
  lemma IceRoutesToCallee(sender: Identity, msg: Message, callee: Identity)
    requires EventOf(msg) == Some("ICEcandidate") && StringField(msg, "calleeId") == Some(callee)
    ensures Dispatch(sender, msg) == Outputs([Forward(callee, "ICEcandidate",
              map["sender" := Str(sender), "rtcMessage" := Field(msg, "rtcMessage")])])
  {
  }

  /** A frame without a string `event`, or with an event outside the fixed set, produces nothing. */
  lemma UnknownIsIgnored(sender: Identity, msg: Message)
    requires EventOf(msg).None? || (EventOf(msg).value != "ping" && !IsForwarded(EventOf(msg).value))
    ensures Dispatch(sender, msg) == Outputs([])
  {
  }

  /** Every forwarded frame is addressed to the identity named by the inbound event's target field,
      and its recipient can read back the sender's identity (except for `callEnd`, which carries
      nothing) and the unchanged `rtcMessage`. */
  lemma ForwardIdentifiesSender(sender: Identity, msg: Message)
    requires Dispatch(sender, msg).Outputs? && |Dispatch(sender, msg).outs| == 1
    requires Dispatch(sender, msg).outs[0].Forward?
    ensures var o := Dispatch(sender, msg).outs[0];
      && InboundEvent(o.event) == EventOf(msg)
      && StringField(msg, TargetField(EventOf(msg).value)) == Some(o.roomId)
      && (o.event != "callEnd" ==>
            Originator(o.FrameOf()) == Some(sender) && RtcMessage(o.FrameOf()) == Field(msg, "rtcMessage"))
      && (o.event == "callEnd" ==> o.payload == map[] && Originator(o.FrameOf()) == None)
  {
  }
}
