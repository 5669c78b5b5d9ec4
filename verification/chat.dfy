/** The transcript logic both assistant widgets share: the blank-input guard,
    the inventory context put into the system prompt, the message list sent to
    the completion service, and the one assistant message every send appends.
    The widgets differ only in their greeting and prompt text (a `Persona`). */
module Chat {
  import opened Wrappers
  import Text
  import Numerals

  datatype Role = User | Assistant

  datatype Message = Message(id: string, role: Role, content: string)

  /** A message as the request body carries it: `{ role, content }`. */
  datatype WireMessage = WireMessage(role: string, content: string)

  /** What the widget holds: the transcript and the text in the input box. */
  datatype ChatState = ChatState(messages: seq<Message>, input: string)

  /** The product columns read for context: name, stock, price in cents, category. */
  datatype StockRow = StockRow(name: string, stock: int, price: int, category: string)

  /** How the completion request went, reduced to what the widget reads of it:
      the content of the first choice when the response has no `error`; the
      `error.message` when it has one; or the message of whatever was thrown
      on the way (network failure, undecodable body, no `choices`). */
  datatype Reply =
    | Completion(content: Option<string>)
    | ApiError(message: Option<string>)
    | Thrown(message: Option<string>)

  /** The text that tells the two widgets apart. */
  datatype Persona = Persona(greeting: string, promptHead: string, promptTail: string)

  const NoInventory: string := "No hay productos en el inventario."
  const Fallback: string := "Lo siento, no pude procesar tu solicitud."
  const ApiErrorDefault: string := "Error en la API"
  const UnknownError: string := "Error desconocido"
  const ErrorPrefix: string := "Error: "
  const ErrorSuffix: string := ". (Verifica tu API Key)"

  /** JavaScript's `s || fallback` on an optional string: absent and empty
      are both falsy. */
  function OrElse(s: Option<string>, fallback: string): (r: string)
    ensures s.Some? && s.value != "" ==> r == s.value
    ensures s.None? || s.value == "" ==> r == fallback
  {
    match s
    case Some(v) => if v != "" then v else fallback
    case None => fallback
  }

  /** The transcript a widget starts with: its greeting from the assistant, id "1". */
  function Initial(p: Persona): ChatState {
    ChatState([Message("1", Assistant, p.greeting)], "")
  }

  /** One context line: `- name (Stock: n, Precio: $p, Categoria: c)`, whose
      figures `parseInt` and `parseFloat` read back as the row's stock and price. */
  function ContextLine(row: StockRow): (r: string)
    ensures "- " + row.name + " (Stock: " <= r
    ensures var tail := ", Categoria: " + row.category + ")"; |tail| <= |r| && r[|r| - |tail|..] == tail
    ensures exists stock: string, price: string ::
      && r == "- " + row.name + " (Stock: " + (stock + ", Precio: $" + price) + (", Categoria: " + row.category + ")")
      && Numerals.ParseInt(stock) == Some(row.stock)
      && Numerals.ParsePriceCents(price) == Some(row.price)
  {
    var stock := Numerals.IntToString(row.stock);
    var price := Numerals.CentsToString(row.price);
    Numerals.ParseIntOfIntToString(row.stock);
    Numerals.ParsePriceOfCentsToString(row.price);
    var r := "- " + row.name + " (Stock: " + (stock + ", Precio: $" + price) + (", Categoria: " + row.category + ")");
    LineEnds("- " + row.name + " (Stock: ", stock + ", Precio: $" + price, ", Categoria: " + row.category + ")", r);
    r
  }

  /** A line made of an opening, figures and a closing starts with the
      opening and ends with the closing. */
  lemma LineEnds(head: string, figures: string, tail: string, r: string)
    requires r == head + figures + tail
    ensures head <= r
    ensures |tail| <= |r| && r[|r| - |tail|..] == tail
  {
    assert r == head + (figures + tail) && r == (head + figures) + tail;
  }

  function ContextLines(rows: seq<StockRow>): seq<string> {
    seq(|rows|, i requires 0 <= i < |rows| => ContextLine(rows[i]))
  }

  /** The inventory context: the product lines joined by newlines, or a fixed
      sentence when the query returned no data. An empty (but present) list is
      truthy in JavaScript and joins to the empty string. */
  function InventoryContext(rows: Option<seq<StockRow>>): (r: string)
    ensures rows.None? ==> r == NoInventory
    ensures rows == Some([]) ==> r == ""
  {
    match rows
    case None => NoInventory
    case Some(ps) => Text.Join(ContextLines(ps), "\n")
  }

  predicate NoNewlines(row: StockRow) {
    '\n' !in row.name && '\n' !in row.category
  }

  lemma ContextLineHasNoNewline(row: StockRow)
    requires NoNewlines(row)
    ensures '\n' !in ContextLine(row)
  {
    var stock := Numerals.IntToString(row.stock);
    var price := Numerals.CentsToString(row.price);
    assert '\n' !in stock;
    assert '\n' !in price;
    LineHasNoNewline(row, stock, price, ContextLine(row));
  }

  lemma LineHasNoNewline(row: StockRow, stock: string, price: string, r: string)
    requires NoNewlines(row) && '\n' !in stock && '\n' !in price
    requires r == "- " + row.name + " (Stock: " + (stock + ", Precio: $" + price) + (", Categoria: " + row.category + ")")
    ensures '\n' !in r
  {
    var head := "- " + row.name + " (Stock: ";
    var figures := stock + ", Precio: $" + price;
    var tail := ", Categoria: " + row.category + ")";
    assert '\n' !in head && '\n' !in figures && '\n' !in tail;
    assert r == head + figures + tail;
  }

  /** Each product gives exactly one line of the context, in order: splitting
      the context on newlines gives the product lines back. */
  lemma InventoryContextLines(rows: seq<StockRow>)
    requires |rows| > 0
    requires forall i | 0 <= i < |rows| :: NoNewlines(rows[i])
    ensures Text.Split(InventoryContext(Some(rows)), '\n') == ContextLines(rows)
    ensures |Text.Split(InventoryContext(Some(rows)), '\n')| == |rows|
  {
    var lines := ContextLines(rows);
    forall i | 0 <= i < |lines|
      ensures '\n' !in lines[i]
    {
      ContextLineHasNoNewline(rows[i]);
    }
    Text.SplitJoin(lines, '\n');
  }

  /** The system prompt: the persona's text around the inventory context. */
  function SystemPrompt(p: Persona, context: string): string {
    p.promptHead + context + p.promptTail
  }

  predicate IsErrorText(t: string) {
    && |t| > |ErrorPrefix| + |ErrorSuffix|
    && t[..|ErrorPrefix|] == ErrorPrefix
    && t[|t| - |ErrorSuffix|..] == ErrorSuffix
  }

  /** The assistant text a send ends with: the completion when it is non-empty,
      the apology sentence when it is missing or empty, and an
      `Error: ... (Verifica tu API Key)` line for an API error or a throw. */
  function ReplyText(reply: Reply): (r: string)
    ensures r != ""
    ensures reply.Completion? ==> r == Fallback || (reply.content == Some(r))
    ensures reply.Completion? ==> (r == Fallback <==> reply.content.None? || reply.content.value == "" || reply.content.value == Fallback)
    ensures !reply.Completion? ==> IsErrorText(r)
  {
    match reply
    case Completion(content) => OrElse(content, Fallback)
    case ApiError(message) => ErrorPrefix + OrElse(message, ApiErrorDefault) + ErrorSuffix
    case Thrown(message) => ErrorPrefix + OrElse(message, UnknownError) + ErrorSuffix
  }

  /** The assistant message's id: `ai-` or `error-` followed by the clock
      reading. It starts with a letter, so it never equals a user message's
      id, which is the clock reading alone. */
  function ReplyId(reply: Reply, at: nat): (r: string)
    ensures |r| > 0 && !Numerals.IsDecimalDigit(r[0]) && r[0] != '-'
    ensures r[0] == 'a' <==> reply.Completion?
    ensures forall n: int :: r != Numerals.IntToString(n)
    ensures var clock := Numerals.IntToString(at); |clock| < |r| && r[|r| - |clock|..] == clock
  {
    var clock := Numerals.IntToString(at);
    var r := (if reply.Completion? then "ai-" else "error-") + clock;
    assert r[|r| - |clock|..] == clock;
    r
  }

  function RoleName(r: Role): string {
    match r
    case User => "user"
    case Assistant => "assistant"
  }

  function ToWire(m: Message): WireMessage {
    WireMessage(RoleName(m.role), m.content)
  }

  /** The `messages` of the request: the system prompt, the transcript as it
      was before the send, then the new user text. */
  function Outgoing(prompt: string, prior: seq<Message>, content: string): (r: seq<WireMessage>)
    ensures |r| == |prior| + 2
    ensures r[0] == WireMessage("system", prompt)
    ensures forall i | 0 <= i < |prior| :: r[i + 1].role == RoleName(prior[i].role) && r[i + 1].content == prior[i].content
    ensures r[|r| - 1] == WireMessage("user", content)
  {
    [WireMessage("system", prompt)]
    + seq(|prior|, i requires 0 <= i < |prior| => ToWire(prior[i]))
    + [WireMessage("user", content)]
  }

  function CountUserMessages(ms: seq<Message>): nat {
    if |ms| == 0 then 0
    else CountUserMessages(ms[..|ms| - 1]) + (if ms[|ms| - 1].role == User then 1 else 0)
  }

  function CountWireRole(ws: seq<WireMessage>, role: string): nat {
    if |ws| == 0 then 0
    else CountWireRole(ws[..|ws| - 1], role) + (if ws[|ws| - 1].role == role then 1 else 0)
  }

  lemma {:induction false} CountWireRoleAppend(a: seq<WireMessage>, b: seq<WireMessage>, role: string)
    ensures CountWireRole(a + b, role) == CountWireRole(a, role) + CountWireRole(b, role)
    decreases |b|
  {
    if |b| == 0 {
      assert a + b == a;
    } else {
      assert (a + b)[..|a + b| - 1] == a + b[..|b| - 1];
      CountWireRoleAppend(a, b[..|b| - 1], role);
    }
  }

  lemma {:induction false} WireUsersMatchTranscript(prior: seq<Message>)
    ensures CountWireRole(seq(|prior|, i requires 0 <= i < |prior| => ToWire(prior[i])), "user")
      == CountUserMessages(prior)
    decreases |prior|
  {
    if |prior| > 0 {
      var init := prior[..|prior| - 1];
      var wire := seq(|prior|, i requires 0 <= i < |prior| => ToWire(prior[i]));
      assert wire[..|prior| - 1] == seq(|init|, i requires 0 <= i < |init| => ToWire(init[i]));
      WireUsersMatchTranscript(init);
    }
  }

  /** The request carries the new user text exactly once on top of the user
      messages already in the transcript, and exactly one system message. */
  lemma OutgoingCounts(prompt: string, prior: seq<Message>, content: string)
    ensures CountWireRole(Outgoing(prompt, prior, content), "user") == CountUserMessages(prior) + 1
    ensures CountWireRole(Outgoing(prompt, prior, content), "system") == 1
  {
    var sys := [WireMessage("system", prompt)];
    var mid := seq(|prior|, i requires 0 <= i < |prior| => ToWire(prior[i]));
    var last := [WireMessage("user", content)];
    assert Outgoing(prompt, prior, content) == sys + mid + last;
    CountWireRoleAppend(sys + mid, last, "user");
    CountWireRoleAppend(sys, mid, "user");
    CountWireRoleAppend(sys + mid, last, "system");
    CountWireRoleAppend(sys, mid, "system");
    WireUsersMatchTranscript(prior);
    assert sys[..0] == [] && last[..0] == [];
    NoSystemInTranscript(prior);
  }

  lemma {:induction false} NoSystemInTranscript(prior: seq<Message>)
    ensures CountWireRole(seq(|prior|, i requires 0 <= i < |prior| => ToWire(prior[i])), "system") == 0
    decreases |prior|
  {
    if |prior| > 0 {
      var init := prior[..|prior| - 1];
      var wire := seq(|prior|, i requires 0 <= i < |prior| => ToWire(prior[i]));
      assert wire[..|prior| - 1] == seq(|init|, i requires 0 <= i < |init| => ToWire(init[i]));
      NoSystemInTranscript(init);
    }
  }

  /** The result of pressing send: the new widget state, and the request
      message list when a request went out. */
  datatype SendResult = SendResult(state: ChatState, request: Option<seq<WireMessage>>)

  /** `handleSend`. `sentAt` and `repliedAt` are the clock readings that name
      the two new messages; `rows` is the product query's data; `reply` is how
      the completion request went. Blank input does nothing. Otherwise the
      user message and then exactly one assistant message are appended, the
      input is cleared, and the request is the one `Outgoing` assembles. */
  function Send(p: Persona, s: ChatState, sentAt: nat, repliedAt: nat,
                rows: Option<seq<StockRow>>, reply: Reply): (r: SendResult)
    ensures Text.IsBlank(s.input) ==> r == SendResult(s, None)
    ensures !Text.IsBlank(s.input) ==>
      && r.state.input == ""
      && |r.state.messages| == |s.messages| + 2
      && r.state.messages[..|s.messages|] == s.messages
      && r.state.messages[|s.messages|] == Message(Numerals.IntToString(sentAt), User, s.input)
      && r.state.messages[|s.messages| + 1].role == Assistant
      && r.state.messages[|s.messages| + 1].content == ReplyText(reply)
      && r.state.messages[|s.messages| + 1].id == ReplyId(reply, repliedAt)
      && r.state.messages[|s.messages| + 1].id != r.state.messages[|s.messages|].id
      && r.request == Some(Outgoing(SystemPrompt(p, InventoryContext(rows)), s.messages, s.input))
  {
    Text.TrimEmptyIffBlank(s.input);
    if Text.Trim(s.input) == "" then SendResult(s, None)
    else
      var user := Message(Numerals.IntToString(sentAt), User, s.input);
      var request := Outgoing(SystemPrompt(p, InventoryContext(rows)), s.messages, s.input);
      var answer := Message(ReplyId(reply, repliedAt), Assistant, ReplyText(reply));
      SendResult(ChatState(s.messages + [user, answer], ""), Some(request))
  }

  /** The transcript shape every send keeps: the greeting, then user and
      assistant messages in turn. */
  predicate Alternating(ms: seq<Message>) {
    && |ms| % 2 == 1
    && forall i | 0 <= i < |ms| :: ms[i].role == (if i % 2 == 0 then Assistant else User)
  }

  lemma InitialAlternates(p: Persona)
    ensures Alternating(Initial(p).messages)
    ensures |Initial(p).messages| == 1 && Initial(p).messages[0].role == Assistant
    ensures Initial(p).messages[0].content == p.greeting
  {
  }

  lemma AppendTurnKeepsAlternating(ms: seq<Message>, question: Message, answer: Message)
    requires Alternating(ms) && question.role == User && answer.role == Assistant
    ensures Alternating(ms + [question, answer])
  {
    var r := ms + [question, answer];
    var n := |ms|;
    forall i | 0 <= i < |r|
      ensures r[i].role == (if i % 2 == 0 then Assistant else User)
    {
      if i < n {
        assert r[i] == ms[i];
      } else if i == n {
        assert r[i] == question;
      } else {
        assert r[i] == answer;
      }
    }
  }

  lemma SendKeepsAlternating(p: Persona, s: ChatState, sentAt: nat, repliedAt: nat,
                             rows: Option<seq<StockRow>>, reply: Reply)
    requires Alternating(s.messages)
    ensures Alternating(Send(p, s, sentAt, repliedAt, rows, reply).state.messages)
  {
    var r := Send(p, s, sentAt, repliedAt, rows, reply);
    if !Text.IsBlank(s.input) {
      OneMoreTurn(s.messages, r.state.messages);
    }
  }

  /** A transcript that extends an alternating one by a user message and then
      an assistant message alternates too. */
  lemma OneMoreTurn(prior: seq<Message>, ms: seq<Message>)
    requires Alternating(prior)
    requires |ms| == |prior| + 2 && ms[..|prior|] == prior
    requires ms[|prior|].role == User && ms[|prior| + 1].role == Assistant
    ensures Alternating(ms)
  {
    var n := |prior|;
    assert ms == prior + [ms[n], ms[n + 1]];
    AppendTurnKeepsAlternating(prior, ms[n], ms[n + 1]);
  }
}
