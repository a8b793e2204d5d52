/** The chat-turn shape shared by the browser client, the web server and the command-line chat:
    a list of `{role, content}` objects sent to the model. */
module Conversation {

  datatype Role = System | User | Assistant

  datatype Turn = Turn(role: Role, content: string)
}
