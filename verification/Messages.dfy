/** The conversation messages of `pkg/providers`, reduced to what the history code looks at. */
module Messages {

  datatype Role = System | User | Assistant | Tool | Other(name: string)

  /**
   `toolCalls` are the ids an assistant asks for; `toolCallID` is the id a tool message answers.
   `callNames` are the tool names and thought signatures of the calls, which are not part of the
   JSON form of a message.
   */
  datatype Message = Message(role: Role, content: string, toolCalls: seq<string>, toolCallID: string, callNames: string)

  predicate IsTool(m: Message) {
    m.role == Tool
  }

  predicate IsUser(m: Message) {
    m.role == User
  }

  /** An assistant message with at least one tool call. */
  predicate IsCaller(m: Message) {
    m.role == Assistant && m.toolCalls != []
  }

  function UserMessage(content: string): Message {
    Message(User, content, [], "", "")
  }

  function AssistantMessage(content: string, calls: seq<string>): Message {
    Message(Assistant, content, calls, "", "")
  }

  function ToolMessage(content: string, id: string): Message {
    Message(Tool, content, [], id, "")
  }
}
