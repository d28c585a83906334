/**
  Event types, callback records and the epoll event mask computed from them.

  A mask is the set of event types whose bit is set in the 32-bit epoll word.
 */
module Events {
  import opened Wrappers

  type Fd = int
  type CallbackId = nat
  type Mask = set<EventType>

  datatype EventType = Err | Hup | In | Out | RdHup | Pri

  // Dispatch order: errors and hang-ups are handled first.
  const EVENT_TYPES: seq<EventType> := [Err, Hup, In, Out, RdHup, Pri]

  /** A record of optional callbacks; `None` stands for an empty std::function. */
  datatype Callbacks = Callbacks(
    inputAvailable: Option<CallbackId>,
    outputPossible: Option<CallbackId>,
    priorityData: Option<CallbackId>,
    readSideHangUp: Option<CallbackId>,
    hangUp: Option<CallbackId>,
    errorOccurred: Option<CallbackId>)

  const NO_CALLBACKS := Callbacks(None, None, None, None, None, None)

  function CbFunc(cbs: Callbacks, e: EventType): Option<CallbackId> {
    match e
    case In => cbs.inputAvailable
    case Out => cbs.outputPossible
    case RdHup => cbs.readSideHangUp
    case Pri => cbs.priorityData
    case Err => cbs.errorOccurred
    case Hup => cbs.hangUp
  }

  /** The mask under which a callback record is registered with the kernel. */
  function EventMask(cbs: Callbacks): Mask {
    set e: EventType | CbFunc(cbs, e).Some?
  }

  /** Accumulates the bits of the set callbacks, in dispatch order. */
  method CalculateEvents(cbs: Callbacks) returns (events: Mask)
    ensures events == EventMask(cbs)
    ensures In in events <==> cbs.inputAvailable.Some?
    ensures Out in events <==> cbs.outputPossible.Some?
    ensures Pri in events <==> cbs.priorityData.Some?
    ensures RdHup in events <==> cbs.readSideHangUp.Some?
    ensures Hup in events <==> cbs.hangUp.Some?
    ensures Err in events <==> cbs.errorOccurred.Some?
  {
    events := {};
    for k := 0 to |EVENT_TYPES|
      invariant events == set e | e in EVENT_TYPES[..k] && CbFunc(cbs, e).Some?
    {
      var eventType := EVENT_TYPES[k];
      assert EVENT_TYPES[..k + 1] == EVENT_TYPES[..k] + [eventType];
      if CbFunc(cbs, eventType).Some? {
        events := events + {eventType};
      }
    }
    assert EVENT_TYPES[..|EVENT_TYPES|] == EVENT_TYPES;
    EveryTypeListed();
  }

  /** The dispatch list names every event type, each exactly once. */
  lemma EveryTypeListed()
    ensures forall e :: e in EVENT_TYPES
    ensures forall i, j :: 0 <= i < j < |EVENT_TYPES| ==> EVENT_TYPES[i] != EVENT_TYPES[j]
  {
    forall e: EventType ensures e in EVENT_TYPES {
      match e {
        case Err => assert EVENT_TYPES[0] == e;
        case Hup => assert EVENT_TYPES[1] == e;
        case In => assert EVENT_TYPES[2] == e;
        case Out => assert EVENT_TYPES[3] == e;
        case RdHup => assert EVENT_TYPES[4] == e;
        case Pri => assert EVENT_TYPES[5] == e;
      }
    }
  }
}
