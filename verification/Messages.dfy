/** The messages of a conversation (cognix/core/context.py:13-21). */
module Messages {

  datatype ToolCall = ToolCall(id: string, name: string, args: string)

  datatype Part = TextPart(text: string) | OtherPart

  datatype Content = Plain(text: string) | Parts(parts: seq<Part>) | Absent

  datatype Message = Message(role: string, content: Content, name: string, callId: string, calls: seq<ToolCall>)
}
