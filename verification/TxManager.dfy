/** The transmission manager and the flags of the device manager as the objects whose handlers
    and threads take the steps of the protocol. */
module TxManager {
  import opened Options
  import opened Protocol

  class DeviceFlags {
    var cmdOpcodeWait: Option<nat>
    var cmdComplete: bool
    var cmdResponse: Option<Response>

    constructor ()
      ensures View() == Waiter(None, false, None)
    {
      cmdOpcodeWait, cmdComplete, cmdResponse := None, false, None;
    }

    function View(): Waiter
      reads this
    {
      Waiter(cmdOpcodeWait, cmdComplete, cmdResponse)
    }

    method DevEventHandler(e: Evt)
      modifies this
      ensures View() == Protocol.DevEventHandler(old(View()), e)
    {
      if e.Rsp? {
        if e.r.opcode != PACKET_SEND {
          if cmdOpcodeWait == Some(e.r.opcode) {
            cmdResponse := Some(e.r);
            cmdComplete := true;
          }
        } else if cmdOpcodeWait == Some(PACKET_SEND) {
          cmdResponse := Some(e.r);
          cmdComplete := true;
        }
      }
    }

    /** The first half of sending a command and waiting for its response. */
    method Begin(opcode: nat)
      modifies this
      ensures View() == old(View()).(opcode := Some(opcode), complete := false)
    {
      cmdComplete := false;
      cmdOpcodeWait := Some(opcode);
    }
  }

  class Manager {
    const flags: DeviceFlags
    var permits: nat
    var pending: set<nat>
    var sendQueue: seq<Item>
    var lowPriorityQueue: seq<Item>

    constructor (flags: DeviceFlags)
      ensures this.flags == flags
      ensures View() == INITIAL.tx && sendQueue == [] && lowPriorityQueue == []
    {
      this.flags := flags;
      permits, pending := PERMITS, {};
      sendQueue, lowPriorityQueue := [], [];
    }

    function View(): Tx
      reads this
    {
      Tx(permits, pending)
    }

    method RspHandler(e: Evt)
      modifies this`permits, this`pending
      ensures View() == Protocol.RspHandler(old(View()), e)
    {
      if e.Rsp? && e.r.opcode == PACKET_SEND {
        if e.r.result == 0 {
          pending := pending + {e.r.token};
        } else {
          permits := permits + 1;
        }
      }
    }

    method SentHandler(e: Evt)
      modifies this`permits, this`pending
      ensures View() == Protocol.SentHandler(old(View()), e)
    {
      if e.TxComplete? && e.token in pending {
        pending := pending - {e.token};
        permits := permits + 1;
      }
    }

    /** The event thread hands an event to its handlers: what the protocol's dispatch does to
        the gateway. */
    method Dispatch(e: Evt)
      modifies this`permits, this`pending, flags
      ensures View() == Protocol.SentHandler(Protocol.RspHandler(old(View()), e), e)
      ensures flags.View() == Protocol.DevEventHandler(old(flags.View()), e)
    {
      RspHandler(e);
      SentHandler(e);
      flags.DevEventHandler(e);
    }

    method Send(item: Item)
      modifies this`sendQueue, this`lowPriorityQueue
      ensures forall s: State | s.sendQueue == old(sendQueue) && s.lowQueue == old(lowPriorityQueue) ::
                var r := Step(s, Enqueue(item)); r.sendQueue == sendQueue && r.lowQueue == lowPriorityQueue
    {
      if item.low {
        lowPriorityQueue := lowPriorityQueue + [item];
      } else {
        sendQueue := sendQueue + [item];
      }
    }

    /** One round of the thread's loop up to the semaphore: low priority messages wait for an
        empty send queue. */
    method Next() returns (item: Option<Item>)
      modifies this`sendQueue, this`lowPriorityQueue
      ensures item.None? <==> old(sendQueue) == [] && old(lowPriorityQueue) == []
      ensures forall s: State |
                s.thread.Idle? && s.sendQueue == old(sendQueue) && s.lowQueue == old(lowPriorityQueue) && item.Some? ::
                var r := Step(s, TakeNext);
                r.sendQueue == sendQueue && r.lowQueue == lowPriorityQueue && r.thread == Taken(item.value)
      ensures item.None? ==> sendQueue == [] && lowPriorityQueue == []
    {
      if sendQueue != [] {
        item := Some(sendQueue[0]);
        sendQueue := sendQueue[1..];
      } else if lowPriorityQueue != [] {
        item := Some(lowPriorityQueue[0]);
        lowPriorityQueue := lowPriorityQueue[1..];
      } else {
        item := None;
      }
    }

    method AcquirePermit() returns (ok: bool)
      modifies this`permits
      ensures ok <==> old(permits) > 0
      ensures View() == if ok then old(View()).(permits := old(permits) - 1) else old(View())
    {
      ok := permits > 0;
      if ok {
        permits := permits - 1;
      }
    }
  }
}
