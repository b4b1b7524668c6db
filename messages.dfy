/** A chat message as both clients receive it: a dictionary whose `role` and
    `content` keys may each be absent. */
module Messages {
  import opened Wrappers

  datatype Message = Message(role: Option<string>, content: Option<string>)

  /** `m.get("role") == "system"`. */
  predicate IsSystem(m: Message) {
    m.role == Some("system")
  }
}
