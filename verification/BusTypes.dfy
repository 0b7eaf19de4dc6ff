/** Identifiers and messages shared by the models of the bus daemon's files. */
module BusTypes {

  datatype Option<+T> = None | Some(value: T)

  // A `DBusConnection *`, a `BusTransaction *` and a `BusPendingReply *`: only the identity matters.
  type ConnId = nat
  type TxId = nat
  type PendingId = nat

  // A message serial; the wire format reserves 0 for "not a reply".
  type Serial = nat

  // Microseconds since the epoch.
  type Time = nat

  datatype MessageType = MethodCall | MethodReturn | Error | Signal | Unknown

  /** How a message fails; a silent refusal returns failure with no error set. */
  datatype Failure = OutOfMemory | Refused | RefusedSilently

  /** A failure whose error is set. */
  type Loud = f: Failure | f != RefusedSilently witness OutOfMemory

  /** What the bus reads of a message; `body` stands for everything it only carries. */
  datatype Message = Message(kind: MessageType, serial: Serial, replySerial: Serial, noReply: bool, hasFds: bool,
                             body: string)
}
