/** The notification centre: a list of stored notifications kept current by
    a live insert feed, a list of products low on stock, and a per-entry
    "mark as read" control. */
module Notifications {
  import opened Wrappers
  import StockLevel

  datatype Kind = System | Stock

  datatype Notification = Notification(
    id: string, message: string, createdAt: string, isRead: bool, kind: Option<Kind>)

  /** The product columns the low-stock query reads. */
  datatype ProductRow = ProductRow(id: string, name: string, stock: int)

  /** The two lists the screen shows. */
  datatype Feed = Feed(notifications: seq<Notification>, lowStock: seq<ProductRow>)

  function MarkOne(n: Notification, id: string): Notification {
    if n.id == id then n.(isRead := true) else n
  }

  /** `markAsRead`, locally: entries with this id become read; every other
      entry, the order and the length stay as they were. The stored update is
      sent first and its outcome is not looked at. */
  function MarkAsRead(ns: seq<Notification>, id: string): (r: seq<Notification>)
    ensures |r| == |ns|
    ensures forall i | 0 <= i < |ns| :: ns[i].id != id ==> r[i] == ns[i]
    ensures forall i | 0 <= i < |ns| :: ns[i].id == id ==> r[i] == ns[i].(isRead := true)
  {
    seq(|ns|, i requires 0 <= i < |ns| => MarkOne(ns[i], id))
  }

  /** Marking twice is marking once. */
  lemma MarkAsReadIdempotent(ns: seq<Notification>, id: string)
    ensures MarkAsRead(MarkAsRead(ns, id), id) == MarkAsRead(ns, id)
  {
  }

  /** Marks for different ids can be applied in either order. */
  lemma MarkAsReadCommutes(ns: seq<Notification>, a: string, b: string)
    ensures MarkAsRead(MarkAsRead(ns, a), b) == MarkAsRead(MarkAsRead(ns, b), a)
  {
  }

  function UnreadCount(ns: seq<Notification>): nat {
    if |ns| == 0 then 0 else UnreadCount(ns[..|ns| - 1]) + (if ns[|ns| - 1].isRead then 0 else 1)
  }

  function CountId(ns: seq<Notification>, id: string, unreadOnly: bool): nat {
    if |ns| == 0 then 0
    else CountId(ns[..|ns| - 1], id, unreadOnly)
         + (if ns[|ns| - 1].id == id && (!unreadOnly || !ns[|ns| - 1].isRead) then 1 else 0)
  }

  /** Marking an id read lowers the unread count by exactly the number of
      unread entries with that id, and leaves none of them unread. */
  lemma {:induction false} MarkAsReadUnreadCount(ns: seq<Notification>, id: string)
    ensures UnreadCount(MarkAsRead(ns, id)) == UnreadCount(ns) - CountId(ns, id, true)
    ensures CountId(MarkAsRead(ns, id), id, true) == 0
    decreases |ns|
  {
    if |ns| > 0 {
      var init := ns[..|ns| - 1];
      assert MarkAsRead(ns, id)[..|ns| - 1] == MarkAsRead(init, id);
      MarkAsReadUnreadCount(init, id);
    }
  }

  /** A realtime insert: the new notification goes in front of the list. */
  function OnInsert(ns: seq<Notification>, n: Notification): (r: seq<Notification>)
    ensures |r| == |ns| + 1 && r[0] == n && r[1..] == ns
  {
    [n] + ns
  }

  /** An insert for another id does not interfere with marking as read. */
  lemma MarkAsReadAfterInsert(ns: seq<Notification>, n: Notification, id: string)
    requires n.id != id
    ensures MarkAsRead(OnInsert(ns, n), id) == OnInsert(MarkAsRead(ns, id), n)
  {
  }

  /** A fetch replaces the list only when it returned data. */
  function OnFetch<T>(current: seq<T>, data: Option<seq<T>>): (r: seq<T>)
    ensures data.None? ==> r == current
    ensures data.Some? ==> r == data.value
  {
    match data
    case Some(rows) => rows
    case None => current
  }

  /** The products the low-stock query selects, in table order. */
  function LowStock(products: seq<ProductRow>): (r: seq<ProductRow>)
    ensures |r| <= |products|
    ensures forall p :: p in r <==> p in products && StockLevel.IsLowStock(p.stock)
  {
    if |products| == 0 then []
    else (if StockLevel.IsLowStock(products[0].stock) then [products[0]] else [])
         + LowStock(products[1..])
  }

  lemma {:induction false} LowStockDistributes(a: seq<ProductRow>, b: seq<ProductRow>)
    ensures LowStock(a + b) == LowStock(a) + LowStock(b)
  {
    if |a| == 0 {
      assert a + b == b;
    } else {
      assert (a + b)[1..] == a[1..] + b;
      LowStockDistributes(a[1..], b);
    }
  }

  /** Selecting twice selects nothing new. */
  lemma {:induction false} LowStockIdempotent(products: seq<ProductRow>)
    ensures LowStock(LowStock(products)) == LowStock(products)
  {
    if |products| > 0 {
      var head := if StockLevel.IsLowStock(products[0].stock) then [products[0]] else [];
      LowStockDistributes(head, LowStock(products[1..]));
      LowStockIdempotent(products[1..]);
      assert LowStock(head) == head by {
        if |head| == 1 {
          assert LowStock(head) == head + LowStock(head[1..]);
        }
      }
    }
  }

  /** "No hay notificaciones" shows exactly when both lists are empty. */
  predicate ShowsEmptyState(f: Feed) {
    |f.notifications| == 0 && |f.lowStock| == 0
  }

  /** What the panel lists, top to bottom. */
  datatype Card = LowStockCard(product: ProductRow) | NotificationCard(entry: Notification) | EmptyMessage

  /** The panel: a stock alert per low-stock product, then either the empty
      message, when both lists are empty, or one card per notification. */
  function Cards(f: Feed): (r: seq<Card>)
    ensures r == [EmptyMessage] <==> ShowsEmptyState(f)
    ensures EmptyMessage in r ==> r == [EmptyMessage]
    ensures !ShowsEmptyState(f) ==> |r| == |f.lowStock| + |f.notifications|
    ensures forall i | 0 <= i < |f.lowStock| :: r[i] == LowStockCard(f.lowStock[i])
    ensures !ShowsEmptyState(f) ==>
      forall i | 0 <= i < |f.notifications| :: r[|f.lowStock| + i] == NotificationCard(f.notifications[i])
  {
    var alerts := seq(|f.lowStock|, i requires 0 <= i < |f.lowStock| => LowStockCard(f.lowStock[i]));
    if ShowsEmptyState(f) then alerts + [EmptyMessage]
    else
      var entries := seq(|f.notifications|, i requires 0 <= i < |f.notifications| => NotificationCard(f.notifications[i]));
      var r := alerts + entries;
      assert forall i | 0 <= i < |r| :: !r[i].EmptyMessage? by {
        forall i | 0 <= i < |r| ensures !r[i].EmptyMessage? {
          if i < |alerts| { assert r[i] == alerts[i]; } else { assert r[i] == entries[i - |alerts|]; }
        }
      }
      assert r[0] in r;
      r
  }

  /** The read control is offered on unread entries only. */
  predicate OffersMarkAsRead(n: Notification) {
    !n.isRead
  }

  /** After marking an id, no entry with it offers the control any more, and
      each entry that offered it before and has another id still does. */
  lemma MarkAsReadWithdrawsControl(ns: seq<Notification>, id: string)
    ensures forall i | 0 <= i < |ns| ::
      OffersMarkAsRead(MarkAsRead(ns, id)[i]) <==> OffersMarkAsRead(ns[i]) && ns[i].id != id
  {
  }

  /** A live insert always clears the empty state. */
  lemma InsertClearsEmptyState(f: Feed, n: Notification)
    ensures !ShowsEmptyState(f.(notifications := OnInsert(f.notifications, n)))
  {
  }
}
