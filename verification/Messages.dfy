/** Conversation messages, shared by the models of the daemon's sessions. */
module Messages {
  datatype Role = System | User | Assistant | Tool

  /** A message with its content parts already rendered. */
  datatype Message = Message(id: string, session: string, role: Role, parts: seq<string>)
}
