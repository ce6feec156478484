/** Nodes of the mesh and the tasks the gateway queues for them. */
module Tasks {

  /** A node of the mesh. The source compares nodes by MAC address and reads the board
      identifier from the UUID of the same node. */
  datatype Node = Node(mac: nat, boardId: nat)

  /** Prometeo, Thor and Rhea boards; every other board, unknown ones included, is low power. */
  const MAINS_BOARDS: set<nat> := {6, 7, 20, 25, 30, 31, 32, 33, 34}

  predicate IsLowPower(n: Node) {
    n.boardId !in MAINS_BOARDS
  }

  const MAX_RETRIES: nat := 4
  /** Task opcodes of the node firmware that the scheduler itself uses. */
  const TASK_OP_CONF: nat := 0x01
  const TASK_OP_UPDATE: nat := 0x07

  datatype Kind =
    | Wake
    | Sleep
    | Alive
    | Reset
    | New(opcode: nat, period: nat)
    | Change(opcode: nat, period: nat)
    | DeleteOp(opcode: nat)
    | Ota(ack: nat)   // its success queues the reboot task of the node
    | Other(ack: nat) // every other retrying task, named by the event that acknowledges it

  datatype EventType =
    | WakeReset
    | WakeNotify(conf: NotifyConf)
    | WakeAckWait
    | WakeAckSleep
    | WakeAckAlive
    | NodeReset
    | TaskTimeout
    | TaskAck
    | TaskChangeAck
    | TaskDeleteOpAck
    | OtaAck(ack: nat, status: nat)
    | OtherAck(ack: nat)
    | ConfigurationTimeout

  /** A notification of old firmware has no configuration field. */
  datatype NotifyConf = Legacy | NotConfigured | Configured

  /** A task object: its identity, its class with the constructor arguments, and how many
      times it has been executed. A retrying task sets its timeout and counts a retry in the
      same call, so it has a timeout exactly when `retries` is positive. */
  datatype Task = Task(id: nat, kind: Kind, retries: nat)

  predicate Retrying(k: Kind) {
    !k.Wake? && !k.Sleep? && !k.Alive? && !k.Reset?
  }

  /** The tasks that end the conversation with a node: the queue is dropped with them. */
  predicate Terminal(k: Kind) {
    k.Sleep? || k.Alive? || k.Reset?
  }

  predicate Succeeds(k: Kind, e: EventType) {
    match k
    case Wake => e.WakeAckWait?
    case Sleep => e.WakeAckSleep? || e.TaskTimeout?
    case Alive => e.WakeAckAlive? || e.TaskTimeout?
    case Reset => e.NodeReset? || e.TaskTimeout?
    case New(_, _) => e.TaskAck?
    case Change(_, _) => e.TaskChangeAck?
    case DeleteOp(_) => e.TaskDeleteOpAck?
    case Ota(ack) => e.OtaAck? && e.ack == ack
    case Other(ack) => e.OtherAck? && e.ack == ack
  }

  predicate Fails(k: Kind, e: EventType) {
    if Retrying(k) then e.TaskTimeout? else e.WakeNotify?
  }
}
