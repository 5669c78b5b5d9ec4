/** The full-page component advisor: the shared chat logic with its own
    greeting and a shorter system prompt. */
module AIAssistant {
  import opened Wrappers
  import Text
  import Chat
  import Numerals

  const Greeting: string := "\U{00A1}Hola! Puedo ayudarte a encontrar componentes para tus proyectos. Intenta preguntar algo como \"Quiero construir una red local\" o \"Necesito arreglar una l\U{00E1}mpara\"."

  /** The system prompt up to the inventory context, and after it. */
  const PromptHead: string := "\n        Eres un asistente experto en componentes electr\U{00F3}nicos y ventas para el sistema \"ElectroMonitor\".\n        Tu objetivo es verificar inventario y sugerir componentes.\n        \n        INVENTARIO ACTUAL:\n        "
  const PromptTail: string := "\n        \n        INSTRUCCIONES:\n        1. Responde bas\U{00E1}ndote PRIMORDIALMENTE en el inventario actual.\n        2. Indica qu\U{00E9} tenemos en stock y qu\U{00E9} falta para el proyecto del usuario.\n        "

  const Advisor: Chat.Persona := Chat.Persona(Greeting, PromptHead, PromptTail)

  /** The transcript on mount: exactly one message, the assistant's greeting. */
  function Start(): (s: Chat.ChatState)
    ensures |s.messages| == 1
    ensures s.messages[0] == Chat.Message("1", Chat.Assistant, Greeting)
    ensures s.input == ""
    ensures Chat.Alternating(s.messages)
  {
    Chat.InitialAlternates(Advisor);
    Chat.Initial(Advisor)
  }

  /** `handleSend` of this widget. Blank input changes nothing and sends
      nothing; otherwise the request opens with this widget's system prompt,
      which carries the inventory context verbatim, and the transcript gains
      the user message and then one assistant message. */
  function HandleSend(s: Chat.ChatState, sentAt: nat, repliedAt: nat,
                      rows: Option<seq<Chat.StockRow>>, reply: Chat.Reply): (r: Chat.SendResult)
    ensures Text.IsBlank(s.input) ==> r.state == s && r.request.None?
    ensures !Text.IsBlank(s.input) ==>
      && r.request.Some?
      && |r.request.value| == |s.messages| + 2
      && r.request.value[0] == Chat.WireMessage("system", PromptHead + Chat.InventoryContext(rows) + PromptTail)
      && (forall i | 0 <= i < |s.messages| ::
            r.request.value[i + 1] == Chat.WireMessage(Chat.RoleName(s.messages[i].role), s.messages[i].content))
      && r.request.value[|s.messages| + 1] == Chat.WireMessage("user", s.input)
      && r.state.input == ""
      && |r.state.messages| == |s.messages| + 2
      && r.state.messages[..|s.messages|] == s.messages
      && r.state.messages[|s.messages|] == Chat.Message(Numerals.IntToString(sentAt), Chat.User, s.input)
      && r.state.messages[|s.messages| + 1].role == Chat.Assistant
      && r.state.messages[|s.messages| + 1].content == Chat.ReplyText(reply)
  {
    Chat.Send(Advisor, s, sentAt, repliedAt, rows, reply)
  }
}
