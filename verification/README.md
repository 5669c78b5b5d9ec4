# Manu-Shop dashboard: a Dafny model of its screen logic

The Manu-Shop / ElectroMonitor dashboard is a React front end over a hosted
database and a hosted chat-completion service. Each handler on its screens
mixes a small piece of pure state logic with a remote call. This project
takes out that pure logic and proves what it does:

- **Sales** (`sales.dfy`). The point-of-sale cart is a sequence of lines
  `(product, cartQuantity)`. The model covers `addToCart`, `updateQuantity`,
  `removeFromCart`, the running `total`, and the rows and stock updates that
  `handleCheckout` writes.
- **Chat** (`chat.dfy`), with `floating_assistant.dfy` and `ai_assistant.dfy`
  for the two widgets:
  - the blank-input guard;
  - one user message and then exactly one assistant message per send (the
    reply, the apology sentence, or an `Error: … (Verifica tu API Key)` line);
  - the message list sent to the completion service;
  - the inventory-context text.
- **Floating assistant** (`floating_assistant.dfy`). The resize clamp, the
  open, minimised and resizing flags, and the size the panel is drawn at.
  Its event machine `Step`/`Run` takes a `Wiring`: `AsWritten` is the close
  button as the component wires it (see Findings), `Corrected` is the same
  button with its click kept from the header. The invariants are proved for
  both.
- **Notifications** (`notifications.dfy`). `markAsRead`, the realtime
  insert, the low-stock selection (`stock_quantity < 5`, see
  `stock_level.dfy`), the empty state, and the read control.
- **Inventory** (`inventory.dfy`). The add/edit form:
  - `handleEdit` and `resetForm`;
  - whether a submit updates or inserts;
  - the titles;
  - the low-stock badge;
  - the text round trip of stock and price.
- **Dashboard** (`dashboard.dfy`). The daily, monthly and yearly fold of
  `fetchStats`, and the chart series.

The JavaScript built-ins these rely on are modelled with their JavaScript
meaning:

- `trim`, `join` and single-character `split` (`text.dfy`);
- string `>=` (`lex_order.dfy`);
- `Number.prototype.toString`, `parseInt` and `parseFloat` on the values the
  screens use (`numerals.dfy`).

Money is held as whole cents (`int`). Every remote call is an input to the
operation that uses it:

- product lists and query data;
- the outcome of the sale-header insert (`Result<string, string>`);
- the completion reply (`Chat.Reply`: content, API error, or a thrown error);
- the dashboard query (`Result<Option<seq<Sale>>, string>`).

`Date.now()` readings become `nat` parameters, and the date boundaries of the
dashboard become string parameters.

## Model

| member | source | states |
|---|---|---|
| Sales.FindLine | src/components/Sales.tsx:33 | `find` by id: `None` exactly when no line has the id; otherwise the first line with it |
| Sales.ProductIndex | src/components/Sales.tsx:46 | where `products.find` stops: `None` exactly when no listed product has the id; otherwise the first position holding it |
| Sales.FindProduct | src/components/Sales.tsx:46 | `products.find`: `None` exactly when no listed product has the id; otherwise the first listed product with that id |
| Sales.AddToCart | src/components/Sales.tsx:31-40 | a new product is appended once with quantity 1 after the unchanged lines; for a product already in the cart the length stays the same and other products' lines are untouched; if the first line is at or above the stock, nothing changes; otherwise every line for the product gains exactly one unit |
| Sales.AddToCartTotalNew | src/components/Sales.tsx:38 | appending a new product raises `total` by its price |
| Sales.AddToCartTotalExisting | src/components/Sales.tsx:34-36 | with distinct ids, an add that changes the cart raises `total` by exactly the matching line's unit price |
| Sales.AddExistingIsReplace | src/components/Sales.tsx:36 | with distinct ids, the `map` of an add replaces just the matching line with itself plus one unit |
| Sales.AddToCartKeepsIdsUnique | src/components/Sales.tsx:31-40 | `addToCart` keeps cart ids pairwise distinct |
| Sales.AddToCartKeepsWithinStock | src/components/Sales.tsx:27-40 | with the product list as fetched (stock above zero), adding a listed product keeps every line between 1 and its listed stock |
| Sales.UpdateQuantity | src/components/Sales.tsx:42-52 | the length and all products are unchanged, and other ids' lines are untouched; each target line becomes `max(1, q + delta)` unless that exceeds the listed stock, in which case it stays as it was; a changed line never drops below 1 |
| Sales.UpdateQuantityKeepsInvariant | src/components/Sales.tsx:42-52 | distinct ids, and quantities between 1 and the listed stock, survive `updateQuantity` |
| Sales.RemoveFromCart | src/components/Sales.tsx:54-56 | a line is in the result exactly when it was in the cart and has another id |
| Sales.RemoveFromCartDistributes | src/components/Sales.tsx:55 | `filter` works line by line: removing from a concatenation is concatenating the removals, so kept lines stay in order |
| Sales.RemoveFromCartAbsent | src/components/Sales.tsx:55 | removing an id the cart does not hold is the identity |
| Sales.RemoveFromCartUndoesAdd | src/components/Sales.tsx:31-56 | removing a product just added to a cart without it gives the original cart back |
| Sales.RemoveFromCartKeepsInvariant | src/components/Sales.tsx:54-56 | distinct ids and per-line stock bounds survive removal |
| Sales.RemoveBeforeIsBefore | src/components/Sales.tsx:55 | with distinct ids, every line before position j of the filtered cart has a different id from line j |
| Sales.RemoveFromCartTotal | src/components/Sales.tsx:54-58 | with distinct ids, removal lowers `total` by exactly the removed line's price × quantity, and by nothing for an absent id |
| Sales.Total | src/components/Sales.tsx:58 | the `reduce` total of an empty cart is 0, and it is never negative when prices and quantities are not |
| Sales.TotalAppend | src/components/Sales.tsx:58 | the `reduce` total is additive over concatenation |
| Sales.TotalReplaceLine | src/components/Sales.tsx:58 | replacing one line changes the total by the difference of the two lines' amounts |
| Sales.CurrentStock | src/components/Sales.tsx:84 | `find(...)?.stock_quantity \|\| 0`: the stock of the first listed product with the id, and 0 when none is listed |
| Sales.Checkout | src/components/Sales.tsx:60-101 | an empty cart does nothing; otherwise the header carries `total`; a failed header keeps the cart and writes nothing more; on success, each line in order gets a sale row (sale id, product, `cartQuantity`, `price`) and a stock write `currentStock − cartQuantity` (0 for an unlisted product), and the cart is emptied |
| Sales.SaleItemsTotal | src/components/Sales.tsx:75-81 | the sale rows' quantity × unit price adds up to the cart's total |
| Sales.CheckoutRowsMatchHeader | src/components/Sales.tsx:66-81 | the total recorded on the sale header equals what its rows add up to |
| Sales.CheckoutKeepsStockNonNegative | src/components/Sales.tsx:84-87 | when every line is listed and within its listed stock, no stock write goes below zero |
| Sales.CheckoutUnlistedLineGoesNegative | src/components/Sales.tsx:84-87 | a line whose product is missing from the list is written as a negative stock |
| Chat.OrElse | src/components/FloatingAIAssistant.tsx:133 | `x \|\| fallback` on an optional string: the value when present and non-empty, else the fallback |
| Chat.InventoryContext | src/components/FloatingAIAssistant.tsx:89-91 | no data gives the fixed "No hay productos…" sentence; an empty list joins to "" |
| Chat.ContextLine | src/components/FloatingAIAssistant.tsx:90 | a product's context line is `- name (Stock: s, Precio: $p, Categoria: c)` with the row's name and category, where `parseInt(s)` is the row's stock and `parseFloat(p)` its price |
| Chat.ContextLineHasNoNewline | src/components/FloatingAIAssistant.tsx:90 | a product line has no newline when its name and category have none (stock and price text never do) |
| Chat.InventoryContextLines | src/components/FloatingAIAssistant.tsx:89-91 | splitting the context on `\n` gives back exactly one line per product, in order |
| Chat.ReplyText | src/components/FloatingAIAssistant.tsx:127-143 | never empty; a completion shows its non-empty content, and the apology sentence exactly when the content is missing, empty, or that sentence itself; an API error or a throw shows `Error: ` … `. (Verifica tu API Key)` |
| Chat.Outgoing | src/components/FloatingAIAssistant.tsx:119-123 | the request is the system prompt, then each prior message's role and content in order, then the new user text; length = transcript + 2 |
| Chat.OutgoingCounts | src/components/FloatingAIAssistant.tsx:119-123 | the request holds exactly one system message, and exactly one user message more than the transcript |
| Chat.WireUsersMatchTranscript | src/components/FloatingAIAssistant.tsx:121 | mapping the transcript to the wire keeps the number of user messages |
| Chat.NoSystemInTranscript | src/components/FloatingAIAssistant.tsx:121 | the mapped transcript holds no system message |
| Chat.ReplyId | src/components/FloatingAIAssistant.tsx:135-140 | the assistant message's id starts with `a` exactly for a completion (`ai-`) and ends with the clock reading; it starts with a letter, so it is never the id of a user message (`Date.now()` alone) |
| Chat.Send | src/components/FloatingAIAssistant.tsx:76-147 | blank input (trim empty) changes nothing and sends nothing; otherwise the user message (id from the send clock) and then one assistant message with `ReplyText` and `ReplyId` are appended, the two ids differ, the earlier transcript is a prefix, the input is cleared, and the request is `Outgoing` of the prompt around the context |
| Chat.InitialAlternates | src/components/FloatingAIAssistant.tsx:15-17 | the initial transcript is one assistant greeting, and it alternates |
| Chat.AppendTurnKeepsAlternating | src/components/FloatingAIAssistant.tsx:81-143 | a user message followed by an assistant message keeps a transcript alternating |
| Chat.SendKeepsAlternating | src/components/FloatingAIAssistant.tsx:76-147 | every send keeps the transcript as greeting, then question and answer in turn |
| FloatingAssistant.Clamp | src/components/FloatingAIAssistant.tsx:41-42 | `max(lo, min(hi, v))` lies in `[lo, hi]`, equals v inside the range, and equals the crossed bound outside it |
| FloatingAssistant.MouseMove | src/components/FloatingAIAssistant.tsx:34-46 | nothing changes unless a drag is on; during a drag the size stays within 300..800 × 400..900, grows by `last − client` when that stays in range, and the cursor position is remembered, with nothing else changed |
| FloatingAssistant.StartResizing | src/components/FloatingAIAssistant.tsx:62-68 | turns the drag on at the cursor position, changing nothing else |
| FloatingAssistant.MouseUp | src/components/FloatingAIAssistant.tsx:48-51 | turns the drag off, changing nothing else |
| FloatingAssistant.ToggleOpen | src/components/FloatingAIAssistant.tsx:70 | flips the open flag only |
| FloatingAssistant.ToggleMinimize | src/components/FloatingAIAssistant.tsx:71-74 | flips the minimised flag only |
| FloatingAssistant.HeaderClick | src/components/FloatingAIAssistant.tsx:183 | the header click only ever sets minimised, never clears it |
| FloatingAssistant.CloseAsWritten | src/components/FloatingAIAssistant.tsx:181-202 | the close button as wired: the panel closes and ends up minimised, nothing else changes |
| FloatingAssistant.Close | src/components/FloatingAIAssistant.tsx:200 | the close button with its click kept from the header: it only closes |
| FloatingAssistant.RenderedSize | src/components/FloatingAIAssistant.tsx:149-167 | launcher only (no panel) exactly when closed; 300×64 when minimised whatever the stored size; the stored size otherwise |
| FloatingAssistant.Step | src/components/FloatingAIAssistant.tsx:34-247 | one event, for either close button: a closed panel reacts only to the launcher, apart from the document-wide drag listeners; the chat changes only while expanded (a send completes within one event); the size changes only by a move during a drag; the close button closes without touching size or chat, and leaves the panel minimised as wired, or minimised as it was when corrected |
| FloatingAssistant.Run | src/components/FloatingAIAssistant.tsx:149-247 | without the launcher, a closed panel stays closed with its chat and minimised flag unchanged (a send completes within one event) |
| FloatingAssistant.InitialInvariant | src/components/FloatingAIAssistant.tsx:12-22 | the widget starts closed, not minimised, not resizing, 400×600, with an alternating transcript |
| FloatingAssistant.StepKeepsInvariant | src/components/FloatingAIAssistant.tsx:34-247 | every event, with the close button as wired or corrected, keeps the size in bounds and the transcript alternating |
| FloatingAssistant.RunKeepsInvariant | src/components/FloatingAIAssistant.tsx:34-247 | so does any sequence of events, under either wiring |
| FloatingAssistant.MovesAloneDoNothing | src/components/FloatingAIAssistant.tsx:35 | without a press on the handle, any run of mouse moves changes nothing |
| FloatingAssistant.CloseAsWrittenReopensMinimized | src/components/FloatingAIAssistant.tsx:181-202 | as wired, the events close-then-launcher on an expanded panel draw a 300×64 bar, not the panel it was |
| FloatingAssistant.CloseThenReopenRestores | src/components/FloatingAIAssistant.tsx:149-202 | with the corrected close button, the events close-then-launcher give back the same widget |
| AIAssistant.Start | src/components/AIAssistant.tsx:14-16 | the transcript starts as exactly one assistant greeting, id "1", with an empty input |
| AIAssistant.HandleSend | src/components/AIAssistant.tsx:26-91 | blank input changes nothing; otherwise the request is this widget's system prompt around the inventory context, then each prior message's role and content in order, then the user text; the input is cleared; the earlier transcript is kept as a prefix and gains the user message (id from the send clock, the typed text) and then an assistant message showing `ReplyText` of the reply |
| Notifications.MarkAsRead | src/components/Notifications.tsx:50-53 | entries with the id become read; other entries, the order and the length are unchanged |
| Notifications.MarkAsReadIdempotent | src/components/Notifications.tsx:52 | marking twice is marking once |
| Notifications.MarkAsReadCommutes | src/components/Notifications.tsx:52 | marks for two ids can be applied in either order |
| Notifications.MarkAsReadUnreadCount | src/components/Notifications.tsx:50-53 | the unread count drops by exactly the number of unread entries with the id, and none of them stays unread |
| Notifications.OnInsert | src/components/Notifications.tsx:24-27 | a realtime insert puts the new entry first and keeps the old list after it |
| Notifications.MarkAsReadAfterInsert | src/components/Notifications.tsx:26-52 | an insert for another id does not interfere with marking as read |
| Notifications.OnFetch | src/components/Notifications.tsx:39-40 | a fetch replaces the list only when it returned data |
| Notifications.LowStock | src/components/Notifications.tsx:42-48 | a product is selected exactly when it is in the table with stock below 5 |
| Notifications.LowStockDistributes | src/components/Notifications.tsx:46 | the selection works row by row: it distributes over concatenation |
| Notifications.LowStockIdempotent | src/components/Notifications.tsx:46 | selecting from a selection selects nothing new |
| Notifications.MarkAsReadWithdrawsControl | src/components/Notifications.tsx:90-98 | after marking an id, an entry offers the read control exactly when it did before and has another id |
| Notifications.Cards | src/components/Notifications.tsx:61-100 | the panel lists one stock alert per low-stock product, then exactly "No hay notificaciones" when both lists are empty and one card per notification, in order, otherwise; the empty message never appears beside another card |
| Notifications.InsertClearsEmptyState | src/components/Notifications.tsx:78 | a live insert always clears "No hay notificaciones" |
| Inventory.LowStockBadgeBelowFive | src/components/Inventory.tsx:178-180 | a row shows the badge and icon exactly when its stock is below 5 |
| Inventory.HandleEdit | src/components/Inventory.tsx:65-77 | the form opens editing the product's id, with its name and category; `parseInt` and `parseFloat` read the written stock and price back to the product's values; a null image URL becomes "" |
| Inventory.ResetForm | src/components/Inventory.tsx:86-90 | the form is closed, edits nothing, and all five inputs are empty |
| Inventory.SubmitWrite | src/components/Inventory.tsx:31-57 | an update of the edited id exactly when `editingId` is truthy, an insert otherwise; text fields are sent as typed, the price as `parseFloat` and the stock as `parseInt` of the typed text |
| Inventory.AfterSubmit | src/components/Inventory.tsx:59-62 | the form resets only when the write returned no error, and stays as it was otherwise |
| Inventory.EditThenSubmitRoundTrip | src/components/Inventory.tsx:34-73 | editing a product and submitting unchanged sends that product back as an update of its own row |
| Inventory.FormTitle | src/components/Inventory.tsx:108 | "Editar Producto" exactly when editing, "Nuevo Producto" exactly when not |
| Inventory.SubmitLabel | src/components/Inventory.tsx:148 | "Actualizar Producto" exactly when editing, "Guardar Producto" exactly when not |
| Inventory.Step | src/components/Inventory.tsx:86-193 | a closed form ignores everything except the add and edit buttons; an edit opens the form on that product's id; typing never opens, closes or retargets the form; the target row changes only by an edit, a cancel or a successful submit; a submit with an empty name, price or stock (the `required` inputs) changes nothing (a submit's write and reset are one event) |
| Inventory.BlankSubmitKeepsFormOpen | src/components/Inventory.tsx:96-138 | adding and then submitting the blank form leaves it open, empty, and still inserting |
| Inventory.RunKeepsClosedBlank | src/components/Inventory.tsx:86-150 | along any run of the screen's events, a closed form edits nothing and holds no text |
| Inventory.AddOpensBlankNewForm | src/components/Inventory.tsx:96-108 | the add button opens an empty "Nuevo Producto" form whose submit inserts |
| Dashboard.FoldStats | src/components/Dashboard.tsx:30-40 | the `forEach` fold gives each bucket the sum of the amounts of exactly the sales in it |
| Dashboard.FetchStats | src/components/Dashboard.tsx:15-47 | a query error or null data leaves the stats as they were (the zeros of line 8 on mount); otherwise the stats are the three bucket sums |
| Dashboard.BucketSumAppend | src/components/Dashboard.tsx:32-39 | bucket sums are additive over concatenated data |
| Dashboard.SingleSaleContribution | src/components/Dashboard.tsx:36-38 | one sale adds its whole amount to a bucket or nothing |
| Dashboard.OneMoreSale | src/components/Dashboard.tsx:32-39 | one more sale adds its amount to exactly the buckets it falls in |
| Dashboard.BucketSumSwap | src/components/Dashboard.tsx:32-39 | the totals do not depend on the order of the rows |
| Dashboard.NoSalesNoTotals | src/components/Dashboard.tsx:31-40 | with no sales all three totals are 0 |
| Dashboard.MonthlyAtMostYearly | src/components/Dashboard.tsx:37-38 | when the year starts no later than the month and no amount is negative, monthly ≤ yearly |
| Dashboard.DailySalesStartWithToday | src/components/Dashboard.tsx:33-36 | a sale counted for today has `today` as a prefix of its timestamp |
| Dashboard.ChartData | src/components/Dashboard.tsx:49-56 | six points: the five fixed months, then June at the monthly total |
| Dashboard.ChartOnlyJuneMoves | src/components/Dashboard.tsx:49-56 | two charts share their first five points and are equal exactly when the monthly totals are |
| Numerals.NatToString | src/components/Inventory.tsx:70 | `toString` of a natural number is decimal digits with no leading zero, one digit exactly below 10 |
| Numerals.IntToString | src/components/Inventory.tsx:70 | a minus sign exactly for negatives, then digits |
| Numerals.NatToStringValue | src/components/Inventory.tsx:70 | the digits written denote the number |
| Numerals.ParseMagnitude | src/components/Inventory.tsx:38 | `parseInt` after the sign: a number only when the text starts with a digit, and always when it starts with a digit and no `0x` prefix |
| Numerals.ParseInt | src/components/Inventory.tsx:38 | `parseInt` of text without a single decimal digit is NaN |
| Numerals.ParseIntOfIntToString | src/components/Inventory.tsx:38 | `parseInt(n.toString())` gives back n for every integer |
| Numerals.CentsToString | src/components/Inventory.tsx:69 | a price's text is non-empty, starts with '-' exactly for negatives, and holds only digits and a point after that |
| Numerals.ParsePriceCents | src/components/Inventory.tsx:37 | `parseFloat` of text without a single decimal digit gives no price, and a negative price only comes from text whose first non-blank character is `-` |
| Numerals.PriceMagnitudeOfCents | src/components/Inventory.tsx:37 | the unsigned text of m cents reads back as m |
| Numerals.ParsePriceOfCentsToString | src/components/Inventory.tsx:37 | `parseFloat(price.toString())` gives back the price, in cents, for every whole-cent price |
| Text.TrimStart | src/components/FloatingAIAssistant.tsx:78 | the result is a suffix; the dropped prefix is whitespace; the result does not start with whitespace |
| Text.TrimEnd | src/components/FloatingAIAssistant.tsx:78 | the result is a prefix; the dropped suffix is whitespace; the result does not end with whitespace |
| Text.Trim | src/components/FloatingAIAssistant.tsx:78 | `trim()` is a piece of the input with whitespace only before and after it, and neither starts nor ends with whitespace |
| Text.TrimEmptyIffBlank | src/components/FloatingAIAssistant.tsx:78 | `trim()` is empty exactly when the input is all whitespace |
| Text.Split | src/components/Dashboard.tsx:33 | `split` gives at least one piece, and no piece contains the separator |
| Text.FirstSegment | src/components/Dashboard.tsx:33 | `split(c)[0]` is the longest prefix without c |
| Text.Join | src/components/FloatingAIAssistant.tsx:90 | `join(sep)` of no lines is ""; otherwise it starts with the first line and is as long as all lines plus one separator between each two |
| Text.SplitJoin | src/components/FloatingAIAssistant.tsx:90 | splitting a join on a separator that occurs in no piece gives the pieces back |
| Text.JoinSplit | src/components/FloatingAIAssistant.tsx:90 | joining a split with the same separator restores the string |
| LexOrder.LexLeq | src/components/Dashboard.tsx:37-38 | string `<=`: a prefix is always `<=`, and only the empty string is `<=` the empty string |
| LexOrder.LexLeqIsPrefixOrSmaller | src/components/Dashboard.tsx:37-38 | string `<=` holds exactly when a is a prefix of b or is smaller at the first difference |
| LexOrder.LexLeqTransitive | src/components/Dashboard.tsx:37-38 | string `<=` is transitive |
| LexOrder.LexLeqTotal | src/components/Dashboard.tsx:37-38 | any two strings are comparable |
| LexOrder.LexLeqAntisymmetric | src/components/Dashboard.tsx:37-38 | strings `<=` each other are equal |

## Left out

- Every database call is left out as behaviour. This covers selects, inserts, updates and deletes, the `.order` clause, and the realtime channel and its unsubscription. Their results are inputs, or their writes are returned records. The `.gt('stock_quantity', 0)` filter of the sales product list and the `.lt('stock_quantity', 5)` filter of the low-stock query are modelled as `Sales.AllInStock` and `Notifications.LowStock`.
- Query order is left out. The server orders notifications by `created_at`. The low-stock rows and the product lists are taken in the order given.
- The completion service is left out: the `fetch` request, JSON parsing, the API key and model name, and the model's output. The reply is an input (`Chat.Reply`).
- Checkout atomicity and the order of remote writes are left out. The per-line inserts and updates are neither awaited for errors nor transactional. The model returns the values written, not their interleaving.
- The repeated `setCart([])` and `fetchProducts()` after checkout are not modelled, and nor is the refresh of the product list after checkout, submit or delete.
- `handleDelete` is left out. It is a confirm dialog followed by a remote delete.
- The `loading` flags, the disabled states they drive, and concurrent sends are left out. Sends are modelled one after another.
- FloatingAssistant.Step: a send (`Submit`) completes, reply included, within the one event. In the component the assistant message is appended after the awaits, while the header, minimise and close buttons stay live, so "send, then close" can land the reply in a closed or minimised panel's transcript. The clause that the chat changes only while expanded holds only under this atomic send.
- FloatingAssistant.Run: for the same reason, "a closed panel keeps its chat" does not cover a reply still pending when the panel was closed.
- Inventory.Step: a submit's write and the reset after it happen within one `Submitted` event. In the component the write is awaited first and `resetForm()` runs only when it returns, while the form, its submit button and the table's edit buttons stay live. Three things follow that the model cannot produce: a required field cleared before the write returns, with the form still reset afterwards; an edit of another product opened meanwhile, which the first write's reset then closes; and two presses during one write, which send two writes. The clause that a submit with an empty required field changes nothing holds only under this one-event submit.
- Inventory.Step: of the browser's constraint validation only the `required` check (a non-empty name, price and stock) is modelled. A price that is not a multiple of `step="0.01"`, or number inputs holding text the browser rejects, still reach the submit handler here, while the browser would block them.
- React effects, scroll-to-bottom, `document.body.style.cursor`, `window.scrollTo`, `alert` and `console.error` are left out.
- `Date`, `toISOString` and time zones in the dashboard are left out. `today`, `startOfMonth` and `startOfYear` are parameters. `Date.now()` message ids are `nat` clock readings.
- Floating-point money is left out. Prices and totals are whole cents. `toFixed(2)` display and `Number(total_amount)` are not modelled.
- Numerals.ParsePriceCents: models `parseFloat` only on the text a whole-cent price prints as: digits with at most two fractional digits, with a sign and leading whitespace. Other numeric text (exponents, more decimals, `Infinity`) is `None` rather than a float, because prices are whole cents.
- Numerals.IntToString: does not model `toString`'s exponent form for magnitudes of 10^21 and above, or the loss of precision past 2^53, because integers are unbounded here.
- Numerals.ParseMagnitude: the magnitude is unbounded, whereas JavaScript rounds large values to a double.
- LexOrder.LexLeq: compares Dafny characters (code points), while JavaScript compares UTF-16 code units. The two differ only for characters outside the Basic Multilingual Plane, which ISO-8601 timestamps do not contain.
- `src/components/Layout.tsx` is not part of this model. It is a navigation shell.
- The prices shown on the sales and inventory cards are left out. They are display only.

## Findings

| source | as written | input that shows it | evidently intended | confidence | as-written member | corrected member |
|---|---|---|---|---|---|---|
| src/components/FloatingAIAssistant.tsx:181-202 | the close button sits inside the header and does not stop its click, so the header's handler also runs and minimises the panel | open, expanded panel; click the close button, then the launcher | reopening shows the panel as it was; the minimise button next to it stops propagation for exactly this reason | medium, not executed | FloatingAssistant.CloseAsWritten (FloatingAssistant.CloseAsWrittenReopensMinimized) | FloatingAssistant.Close (FloatingAssistant.CloseThenReopenRestores) |
