/**
 * The message registry of lib_messages: a closed enumeration of message
 * types with the sentinel NONE first and NO_OF_MSG_TYPES last, and the
 * immutable message object every publish carries.
 */
module Messages {

  /** `Message_t`: the enumerators numbered from NONE = 0 to NO_OF_MSG_TYPES = 14. */
  newtype MessageType = x: int | 0 <= x <= 14

  const NONE: MessageType := 0
  const PUB_SUB: MessageType := 1
  const PUB_SUB0: MessageType := 2
  const PUB_SUB9: MessageType := 11
  const OPEN_DOOR: MessageType := 12
  const CLOSE_DOOR: MessageType := 13
  const NO_OF_MSG_TYPES: MessageType := 14

  /** A type that may be subscribed to: neither of the two sentinels. */
  predicate IsUserType(t: MessageType) {
    t != NONE && t != NO_OF_MSG_TYPES
  }

  /**
   * A published message. `body` stands for the derived message class's
   * payload and for the identity of the shared object.
   */
  datatype Message = Message(msgType: MessageType, body: nat)

  /** The executor's shared `noneMsg`, a message of type NONE. */
  const NoneMsg: Message := Message(NONE, 0)
}
