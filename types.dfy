/** The message record and its author role (types.ts). */
module Types {
  import opened Wrappers

  /** Who wrote a message. */
  datatype Role = User | Model

  /**
   * A message identifier. The mount-time greeting carries the literal id 'init-1';
   * every other id is the decimal string of a millisecond clock reading, modelled
   * here by the reading itself. The two kinds never coincide, because 'init-1' is
   * not the decimal spelling of any number.
   */
  datatype MessageId = InitId | Stamp(n: nat)

  /**
   * One transcript entry. `isStreaming` is optional, as in the source: absent on
   * user, greeting and error messages, `Some(true)` on a fresh placeholder and
   * `Some(false)` once the placeholder has been finalised. The creation timestamp
   * is not modelled.
   */
  datatype Message = Message(id: MessageId, role: Role, text: string, isStreaming: Option<bool>)
}
