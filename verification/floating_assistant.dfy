/** The floating assistant: the shared chat logic behind a launcher button,
    plus a panel that can be minimised and resized by dragging its top-left
    corner. */
module FloatingAssistant {
  import opened Wrappers
  import Text
  import Chat

  const Greeting: string := "\U{00A1}Hola! Soy tu asistente de Manu-Shop. \U{00BF}En qu\U{00E9} te puedo ayudar hoy? Puedo verificar tu stock y recomendarte componentes para tus proyectos."

  /** The system prompt up to the inventory context, and after it. */
  const PromptHead: string := "\n        Eres un asistente experto en componentes electr\U{00F3}nicos y ventas para el sistema \"ElectroMonitor\".\n        Tu objetivo es ayudar al usuario (vendedor o administrador) a encontrar componentes para proyectos, verificar stock y sugerir materiales faltantes.\n        \n        INVENTARIO ACTUAL:\n        "
  const PromptTail: string := "\n        \n        INSTRUCCIONES:\n        1. Responde bas\U{00E1}ndote PRIMORDIALMENTE en el inventario actual.\n        2. Si el usuario pide componentes para un proyecto (ej. \"cableado de casa\"):\n           - Lista los materiales necesarios.\n           - Indica cu\U{00E1}les TENEMOS en stock (con cantidad y precio).\n           - Indica cu\U{00E1}les FALTAN en el inventario y recomi\U{00E9}ndalos agregar.\n        3. S\U{00E9} amable, conciso y profesional.\n        4. Si te preguntan por algo que no es de electr\U{00F3}nica, trata de relacionarlo o indica amablemente tu funci\U{00F3}n.\n      "

  const Shop: Chat.Persona := Chat.Persona(Greeting, PromptHead, PromptTail)

  const MinWidth: int := 300
  const MaxWidth: int := 800
  const MinHeight: int := 400
  const MaxHeight: int := 900

  datatype Point = Point(x: int, y: int)

  datatype Size = Size(width: int, height: int)

  /** The panel's size when minimised, whatever size is stored. */
  const MinimizedSize: Size := Size(300, 64)

  /** Everything the widget keeps: the open and minimised flags, whether a
      drag is in progress and where the cursor last was, the stored size, the
      chat, and the greeting and prompt it was built with. */
  datatype Widget = Widget(
    isOpen: bool, isMinimized: bool, resizing: bool, lastPos: Point, size: Size, chat: Chat.ChatState,
    persona: Chat.Persona)

  /** Closed, not minimised, 400 by 600, with the greeting. */
  function Initial(): Widget {
    Widget(false, false, false, Point(0, 0), Size(400, 600), Chat.Initial(Shop), Shop)
  }

  /** `Math.max(lo, Math.min(hi, v))`. */
  function Clamp(lo: int, hi: int, v: int): (r: int)
    requires lo <= hi
    ensures lo <= r <= hi
    ensures lo <= v <= hi ==> r == v
    ensures v < lo ==> r == lo
    ensures v > hi ==> r == hi
  {
    var capped := if hi <= v then hi else v;
    if lo >= capped then lo else capped
  }

  predicate InBounds(s: Size) {
    MinWidth <= s.width <= MaxWidth && MinHeight <= s.height <= MaxHeight
  }

  /** `handleMouseMove`: while a drag is on, moving left or up grows the panel
      by the distance moved since the last event, held within 300..800 by
      400..900, and the cursor position is remembered; otherwise nothing
      happens. */
  function MouseMove(w: Widget, clientX: int, clientY: int): (r: Widget)
    ensures !w.resizing ==> r == w
    ensures w.resizing ==> InBounds(r.size) && r.lastPos == Point(clientX, clientY)
    ensures w.resizing ==> r == w.(size := r.size, lastPos := r.lastPos)
    ensures w.resizing && MinWidth <= w.size.width + (w.lastPos.x - clientX) <= MaxWidth ==>
      r.size.width == w.size.width + (w.lastPos.x - clientX)
    ensures w.resizing && MinHeight <= w.size.height + (w.lastPos.y - clientY) <= MaxHeight ==>
      r.size.height == w.size.height + (w.lastPos.y - clientY)
  {
    if !w.resizing then w
    else
      var dx := w.lastPos.x - clientX;
      var dy := w.lastPos.y - clientY;
      w.(size := Size(Clamp(MinWidth, MaxWidth, w.size.width + dx),
                      Clamp(MinHeight, MaxHeight, w.size.height + dy)),
         lastPos := Point(clientX, clientY))
  }

  /** `startResizing`: a press on the corner handle starts a drag there. */
  function StartResizing(w: Widget, clientX: int, clientY: int): (r: Widget)
    ensures r.resizing && r.lastPos == Point(clientX, clientY)
    ensures r.(resizing := w.resizing, lastPos := w.lastPos) == w
  {
    w.(resizing := true, lastPos := Point(clientX, clientY))
  }

  /** `handleMouseUp`: releasing the button anywhere ends the drag. */
  function MouseUp(w: Widget): (r: Widget)
    ensures !r.resizing && r.(resizing := w.resizing) == w
  {
    w.(resizing := false)
  }

  function ToggleOpen(w: Widget): (r: Widget)
    ensures r.isOpen != w.isOpen && r.(isOpen := w.isOpen) == w
  {
    w.(isOpen := !w.isOpen)
  }

  /** The close button as the component wires it: its click runs `toggleOpen`
      and then bubbles up to the header, whose handler minimises a panel that
      was not minimised. */
  function CloseAsWritten(w: Widget): (r: Widget)
    requires w.isOpen
    ensures !r.isOpen && r.isMinimized
    ensures r.(isOpen := w.isOpen, isMinimized := w.isMinimized) == w
  {
    HeaderClick(ToggleOpen(w))
  }

  /** The close button with the click kept from the header, as the minimise
      button already does: it only closes. */
  function Close(w: Widget): (r: Widget)
    ensures !r.isOpen && r.(isOpen := w.isOpen) == w
  {
    w.(isOpen := false)
  }

  function ToggleMinimize(w: Widget): (r: Widget)
    ensures r.isMinimized != w.isMinimized && r.(isMinimized := w.isMinimized) == w
  {
    w.(isMinimized := !w.isMinimized)
  }

  /** A click on the header minimises an expanded panel and does nothing to a
      minimised one. */
  function HeaderClick(w: Widget): (r: Widget)
    ensures r.isMinimized
    ensures r.(isMinimized := w.isMinimized) == w
  {
    if !w.isMinimized then w.(isMinimized := true) else w
  }

  /** The corner handle, the transcript and the input form exist only while
      the panel is open and not minimised. */
  predicate Expanded(w: Widget) {
    w.isOpen && !w.isMinimized
  }

  /** The panel's rendered size; `None` while only the launcher is shown. */
  function RenderedSize(w: Widget): (r: Option<Size>)
    ensures r.None? <==> !w.isOpen
    ensures w.isOpen && w.isMinimized ==> r == Some(MinimizedSize)
    ensures Expanded(w) ==> r == Some(w.size)
  {
    if !w.isOpen then None
    else if w.isMinimized then Some(MinimizedSize)
    else Some(w.size)
  }

  /** What the user can do. Mouse moves and releases are listened for on the
      whole document; the other events need the element they land on to be
      on screen. */
  datatype Event =
    | PressHandle(x: int, y: int)
    | Move(x: int, y: int)
    | Release
    | Launcher
    | CloseButton
    | Minimize
    | Header
    | Type(text: string)
    | Submit(sentAt: nat, repliedAt: nat, rows: Option<seq<Chat.StockRow>>, reply: Chat.Reply)

  /** Which close button the panel has: the one the component wires, whose
      click also reaches the header, or one that keeps its click to itself. */
  datatype Wiring = AsWritten | Corrected

  function CloseWith(wiring: Wiring, w: Widget): (r: Widget)
    requires w.isOpen
    ensures !r.isOpen
  {
    match wiring
    case AsWritten => CloseAsWritten(w)
    case Corrected => Close(w)
  }

  /** One event. Only the launcher does anything while the panel is closed,
      apart from the document-wide drag listeners; the chat changes only
      through the expanded panel, and the size only through a drag. */
  function Step(wiring: Wiring, w: Widget, e: Event): (r: Widget)
    ensures !w.isOpen && !e.Launcher? ==>
      !r.isOpen && r == w.(resizing := r.resizing, lastPos := r.lastPos, size := r.size)
    ensures r.chat != w.chat ==> Expanded(w)
    ensures r.persona == w.persona
    ensures r.size != w.size ==> w.resizing && e.Move?
    ensures e.CloseButton? && w.isOpen ==> !r.isOpen && r.size == w.size && r.chat == w.chat
    ensures e.CloseButton? && w.isOpen && wiring == AsWritten ==> r.isMinimized
    ensures e.CloseButton? && wiring == Corrected ==> r.isMinimized == w.isMinimized
  {
    match e
    case PressHandle(x, y) => if Expanded(w) then StartResizing(w, x, y) else w
    case Move(x, y) => MouseMove(w, x, y)
    case Release => MouseUp(w)
    case Launcher => if !w.isOpen then ToggleOpen(w) else w
    case CloseButton => if w.isOpen then CloseWith(wiring, w) else w
    case Minimize => if w.isOpen then ToggleMinimize(w) else w
    case Header => if w.isOpen then HeaderClick(w) else w
    case Type(text) => if Expanded(w) then w.(chat := w.chat.(input := text)) else w
    case Submit(sentAt, repliedAt, rows, reply) =>
      if Expanded(w) then w.(chat := Chat.Send(w.persona, w.chat, sentAt, repliedAt, rows, reply).state) else w
  }

  /** A run of events. A closed panel stays closed, with its chat untouched,
      until the launcher is pressed; the greeting and prompt never change. */
  function Run(wiring: Wiring, w: Widget, events: seq<Event>): (r: Widget)
    ensures !w.isOpen && (forall i | 0 <= i < |events| :: !events[i].Launcher?) ==>
      !r.isOpen && r.chat == w.chat && r.isMinimized == w.isMinimized
    ensures r.persona == w.persona
    decreases |events|
  {
    if |events| == 0 then w else Run(wiring, Step(wiring, w, events[0]), events[1..])
  }

  /** What holds of every widget the user can reach. */
  predicate Invariant(w: Widget) {
    InBounds(w.size) && Chat.Alternating(w.chat.messages)
  }

  lemma InitialInvariant()
    ensures Invariant(Initial())
    ensures !Initial().isOpen && !Initial().isMinimized && !Initial().resizing
    ensures Initial().size == Size(400, 600)
    ensures Initial().persona == Shop
  {
    Chat.InitialAlternates(Shop);
  }

  lemma StepKeepsInvariant(wiring: Wiring, w: Widget, e: Event)
    requires Invariant(w)
    ensures Invariant(Step(wiring, w, e))
  {
    match e
    case Submit(sentAt, repliedAt, rows, reply) =>
      Chat.SendKeepsAlternating(w.persona, w.chat, sentAt, repliedAt, rows, reply);
    case _ =>
  }

  /** Whatever the user does, with either close button, the stored size stays
      within 300..800 by 400..900 and the transcript stays greeting, then
      question and answer in turn. */
  lemma {:induction false} RunKeepsInvariant(wiring: Wiring, w: Widget, events: seq<Event>)
    requires Invariant(w)
    ensures Invariant(Run(wiring, w, events))
    decreases |events|
  {
    if |events| > 0 {
      StepKeepsInvariant(wiring, w, events[0]);
      RunKeepsInvariant(wiring, Step(wiring, w, events[0]), events[1..]);
    }
  }

  /** As written, closing an expanded panel and opening it again brings it back
      minimised, at 300 by 64, instead of at the size it had. */
  lemma CloseAsWrittenReopensMinimized(w: Widget)
    requires Expanded(w) && Invariant(w)
    ensures RenderedSize(Run(AsWritten, w, [CloseButton, Launcher])) == Some(MinimizedSize)
    ensures RenderedSize(Run(AsWritten, w, [CloseButton, Launcher])) != RenderedSize(w)
  {
    assert [CloseButton, Launcher][1..] == [Launcher];
    assert [Launcher][1..] == [];
  }

  /** With the corrected button, closing and reopening gives back the same
      panel, chat and size included. */
  lemma CloseThenReopenRestores(w: Widget)
    requires w.isOpen
    ensures Run(Corrected, w, [CloseButton, Launcher]) == w
  {
    assert [CloseButton, Launcher][1..] == [Launcher];
    assert [Launcher][1..] == [];
  }

  /** Without a press on the handle, no sequence of moves changes anything. */
  lemma {:induction false} MovesAloneDoNothing(wiring: Wiring, w: Widget, events: seq<Event>)
    requires !w.resizing
    requires forall i | 0 <= i < |events| :: events[i].Move?
    ensures Run(wiring, w, events) == w
    decreases |events|
  {
    if |events| > 0 {
      MovesAloneDoNothing(wiring, w, events[1..]);
    }
  }
}
