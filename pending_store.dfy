/**
 * The bot's durable queue of pending messages and orders (bot.py, "DATA STORAGE
 * FUNCTIONS", `restore_pending_data` and the counts of `/status`).
 *
 * Each JSON file is a list of records that every operation loads whole, changes and
 * writes back whole. A `Store` holds both files: whether each exists, its records,
 * and how many times it has been rewritten. A missing file loads as the empty list.
 * Records are never removed; the only change after an append is a `processed` flag
 * going from false to true.
 */
module PendingStore {
  import opened Wrappers
  import opened Delivery

  /** A record of `pending_messages.json`. */
  datatype MessageRecord = MessageRecord(
    userId: int, username: Option<string>, text: string, timestamp: string, processed: bool)

  /** The dictionary the web-app handler passes to `save_pending_order`. */
  datatype OrderData = OrderData(
    username: Option<string>, userId: int, cart: seq<CartItem>, total: int, deliveryTime: string)

  /**
   * A record of `pending_orders.json`: the order data plus `timestamp` and `processed`.
   * `processed` is `None` for a record without that key, which `mark_order_processed`
   * reads as already processed and on which `restore_pending_data` and `/status` fail.
   */
  datatype OrderRecord = OrderRecord(data: OrderData, timestamp: string, processed: Option<bool>)

  // ---------------------------------------------------------------------------
  // Specification functions on the file contents

  /** The message records whose `processed` flag is false, in file order. */
  function PendingMessages(rs: seq<MessageRecord>): (ps: seq<MessageRecord>)
    ensures |ps| <= |rs|
    ensures forall i :: 0 <= i < |ps| ==> !ps[i].processed
  {
    if rs == [] then [] else (if rs[0].processed then [] else [rs[0]]) + PendingMessages(rs[1..])
  }

  /**
   * The number of message records whose `processed` flag is false, counted as `/status`
   * counts them: the number of pending messages.
   */
  function PendingMessageCount(rs: seq<MessageRecord>): (n: nat)
    ensures n == |PendingMessages(rs)|
  {
    if rs == [] then 0 else (if rs[0].processed then 0 else 1) + PendingMessageCount(rs[1..])
  }

  /** Every order record has a `processed` key, so `order['processed']` does not raise. */
  predicate AllFlagged(rs: seq<OrderRecord>) {
    forall i :: 0 <= i < |rs| ==> rs[i].processed.Some?
  }

  /** The order records whose `processed` value is false, in file order. */
  function PendingOrders(rs: seq<OrderRecord>): (ps: seq<OrderRecord>)
    ensures |ps| <= |rs|
    ensures forall i :: 0 <= i < |ps| ==> ps[i].processed == Some(false)
  {
    if rs == [] then [] else (if rs[0].processed == Some(false) then [rs[0]] else []) + PendingOrders(rs[1..])
  }

  /**
   * The number of pending order records as `/status` counts them: `None` exactly when a
   * record lacks the `processed` key, and otherwise the number of pending orders.
   */
  function PendingOrderCount(rs: seq<OrderRecord>): (n: Option<nat>)
    ensures n.Some? <==> AllFlagged(rs)
    ensures n.Some? ==> n.value == |PendingOrders(rs)|
  {
    OrdersTail(rs);
    if rs == [] then Some(0)
    else if rs[0].processed.None? then None
    else match PendingOrderCount(rs[1..])
      case None => None
      case Some(n) => Some((if rs[0].processed == Some(false) then 1 else 0) + n)
  }

  /** The records after the first are those of `rs[1..]`, one position further on. */
  lemma OrdersTail(rs: seq<OrderRecord>)
    ensures forall i :: 1 <= i < |rs| ==> rs[i] == rs[1..][i - 1]
  {
  }

  /** The records after `mark_message_processed(userId, text)`. */
  function MarkedMessages(rs: seq<MessageRecord>, userId: int, text: string): (out: seq<MessageRecord>)
    ensures |out| == |rs|
    ensures forall i :: 0 <= i < |rs| ==> out[i].(processed := rs[i].processed) == rs[i]
    ensures forall i :: 0 <= i < |rs| ==>
              out[i].processed == (rs[i].processed || (rs[i].userId == userId && rs[i].text == text))
  {
    seq(|rs|, i requires 0 <= i < |rs| =>
      if rs[i].userId == userId && rs[i].text == text && !rs[i].processed
      then rs[i].(processed := true) else rs[i])
  }

  /** The records after `mark_order_processed(d)`. */
  function MarkedOrders(rs: seq<OrderRecord>, d: OrderData): (out: seq<OrderRecord>)
    ensures |out| == |rs|
    ensures forall i :: 0 <= i < |rs| ==> out[i].(processed := rs[i].processed) == rs[i]
    ensures forall i :: 0 <= i < |rs| ==>
              out[i].processed ==
                (if rs[i].processed == Some(false) && rs[i].data.total == d.total && rs[i].data.cart == d.cart
                 then Some(true) else rs[i].processed)
  {
    seq(|rs|, i requires 0 <= i < |rs| =>
      if rs[i].data.total == d.total && rs[i].data.cart == d.cart && rs[i].processed == Some(false)
      then rs[i].(processed := Some(true)) else rs[i])
  }

  /** The message records after a completed restore: every one processed, nothing else changed. */
  function RestoredMessages(rs: seq<MessageRecord>): (out: seq<MessageRecord>)
    ensures |out| == |rs|
    ensures forall i :: 0 <= i < |rs| ==> out[i].(processed := rs[i].processed) == rs[i] && out[i].processed
  {
    seq(|rs|, i requires 0 <= i < |rs| => rs[i].(processed := true))
  }

  /**
   * The order records after a completed restore: every record with a `processed` key is
   * processed (the pending ones are flipped, the others already were), nothing else changed.
   */
  function RestoredOrders(rs: seq<OrderRecord>): (out: seq<OrderRecord>)
    ensures |out| == |rs|
    ensures forall i :: 0 <= i < |rs| ==> out[i].(processed := rs[i].processed) == rs[i]
    ensures forall i :: 0 <= i < |rs| && rs[i].processed.Some? ==> out[i].processed == Some(true)
  {
    seq(|rs|, i requires 0 <= i < |rs| =>
      if rs[i].processed.Some? then rs[i].(processed := Some(true)) else rs[i])
  }

  // ---------------------------------------------------------------------------
  // The store

  class Store {
    var messagesFileExists: bool
    var messages: seq<MessageRecord>
    var messageWrites: nat
    var ordersFileExists: bool
    var orders: seq<OrderRecord>
    var orderWrites: nat

    /** A file that does not exist holds no records. */
    ghost predicate Valid()
      reads this
    {
      && (!messagesFileExists ==> messages == [])
      && (!ordersFileExists ==> orders == [])
    }

    /** The store as found at start-up. */
    constructor (messagesFileExists: bool, messages: seq<MessageRecord>,
                 ordersFileExists: bool, orders: seq<OrderRecord>)
      requires messagesFileExists || messages == []
      requires ordersFileExists || orders == []
      ensures Valid()
      ensures this.messagesFileExists == messagesFileExists && this.messages == messages
      ensures this.ordersFileExists == ordersFileExists && this.orders == orders
      ensures messageWrites == 0 && orderWrites == 0
    {
      this.messagesFileExists := messagesFileExists;
      this.messages := messages;
      this.ordersFileExists := ordersFileExists;
      this.orders := orders;
      messageWrites := 0;
      orderWrites := 0;
    }

    /** `save_pending_message`: load (empty when missing), append an unprocessed record, write. */
    method SavePendingMessage(userId: int, username: Option<string>, text: string, timestamp: string)
      requires Valid()
      modifies this`messagesFileExists, this`messages, this`messageWrites
      ensures Valid()
      ensures messagesFileExists
      ensures messages == old(messages) + [MessageRecord(userId, username, text, timestamp, false)]
      ensures messageWrites == old(messageWrites) + 1
    {
      var loaded := if messagesFileExists then messages else [];
      loaded := loaded + [MessageRecord(userId, username, text, timestamp, false)];
      messages := loaded;
      messagesFileExists := true;
      messageWrites := messageWrites + 1;
    }

    /** `save_pending_order`: load (empty when missing), append the order unprocessed, write. */
    method SavePendingOrder(d: OrderData, timestamp: string)
      requires Valid()
      modifies this`ordersFileExists, this`orders, this`orderWrites
      ensures Valid()
      ensures ordersFileExists
      ensures orders == old(orders) + [OrderRecord(d, timestamp, Some(false))]
      ensures orderWrites == old(orderWrites) + 1
    {
      var loaded := if ordersFileExists then orders else [];
      loaded := loaded + [OrderRecord(d, timestamp, Some(false))];
      orders := loaded;
      ordersFileExists := true;
      orderWrites := orderWrites + 1;
    }

    /**
     * `mark_message_processed`: nothing at all when the file is missing; otherwise every
     * unprocessed record of that user with that text is flagged and the file is rewritten.
     */
    method MarkMessageProcessed(userId: int, text: string)
      requires Valid()
      modifies this`messages, this`messageWrites
      ensures Valid()
      ensures messages == MarkedMessages(old(messages), userId, text)
      ensures messageWrites == old(messageWrites) + (if messagesFileExists then 1 else 0)
    {
      if !messagesFileExists {
        return;
      }
      var loaded := messages;
      for i := 0 to |loaded|
        invariant |loaded| == |messages|
        invariant forall k :: 0 <= k < i ==> loaded[k] == MarkedMessages(messages, userId, text)[k]
        invariant forall k :: i <= k < |loaded| ==> loaded[k] == messages[k]
      {
        var msg := loaded[i];
        if msg.userId == userId && msg.text == text && !msg.processed {
          loaded := loaded[i := msg.(processed := true)];
        }
      }
      messages := loaded;
      messageWrites := messageWrites + 1;
    }

    /**
     * `mark_order_processed`: nothing at all when the file is missing; otherwise every
     * unprocessed record with the same total and cart is flagged and the file is rewritten.
     */
    method MarkOrderProcessed(d: OrderData)
      requires Valid()
      modifies this`orders, this`orderWrites
      ensures Valid()
      ensures orders == MarkedOrders(old(orders), d)
      ensures orderWrites == old(orderWrites) + (if ordersFileExists then 1 else 0)
    {
      if !ordersFileExists {
        return;
      }
      var loaded := orders;
      for i := 0 to |loaded|
        invariant |loaded| == |orders|
        invariant forall k :: 0 <= k < i ==> loaded[k] == MarkedOrders(orders, d)[k]
        invariant forall k :: i <= k < |loaded| ==> loaded[k] == orders[k]
      {
        var order := loaded[i];
        if order.data.total == d.total && order.data.cart == d.cart && order.processed == Some(false) {
          loaded := loaded[i := order.(processed := Some(true))];
        }
      }
      orders := loaded;
      orderWrites := orderWrites + 1;
    }

    /**
     * The message half of `restore_pending_data`. When the file exists, something is
     * pending and an operator is configured, one notification per pending record is sent
     * in file order and each record is flagged, then the file is rewritten. The send
     * numbered `failAt` (counting from 0), if it happens, raises: the loop stops and the
     * file is not rewritten, so every record stays as it was; `raised` reports it.
     * `sent` holds the records whose notifications went out.
     */
    method RestoreMessages(adminSet: bool, failAt: Option<nat>) returns (sent: seq<MessageRecord>, raised: bool)
      requires Valid()
      modifies this`messages, this`messageWrites
      ensures Valid()
      ensures var pending := PendingMessages(old(messages));
              var attempted := messagesFileExists && pending != [] && adminSet;
              && raised == (attempted && failAt.Some? && failAt.value < |pending|)
              && (!attempted ==> sent == [] && messages == old(messages) && messageWrites == old(messageWrites))
              && (raised ==> sent == pending[..failAt.value] && messages == old(messages) && messageWrites == old(messageWrites))
              && (attempted && !raised ==>
                    sent == pending && messages == RestoredMessages(old(messages)) && messageWrites == old(messageWrites) + 1)
    {
      sent, raised := [], false;
      if !messagesFileExists {
        return;
      }
      var loaded := messages;
      var pending := PendingMessages(loaded);
      if pending == [] || !adminSet {
        return;
      }
      // The comprehension's records are the loaded dictionaries themselves, so walking the
      // loaded list and acting on the unprocessed ones sends and flags the same records in
      // the same order.
      var i := 0;
      while i < |loaded|
        invariant 0 <= i <= |loaded| == |messages|
        invariant messages == old(messages) && messageWrites == old(messageWrites)
        invariant sent == PendingMessages(messages[..i])
        invariant failAt.None? || failAt.value >= |sent|
        invariant MessagesRestoredUpTo(loaded, messages, i)
      {
        PendingMessagesStep(messages, i);
        MessageRestoreStep(loaded, messages, i);
        if !loaded[i].processed {
          if failAt == Some(|sent|) {
            PendingPrefix(messages, i);
            raised := true;
            return;
          }
          sent := sent + [loaded[i]];
          loaded := loaded[i := loaded[i].(processed := true)];
        }
        i := i + 1;
      }
      assert messages[..i] == messages;
      MessagesRestoredAll(loaded, messages);
      messages := loaded;
      messageWrites := messageWrites + 1;
    }

    /**
     * The order half of `restore_pending_data`, with the same shape as `RestoreMessages`.
     * A record without a `processed` key makes the comprehension raise before anything is
     * sent; that too leaves the file as it was and reports `raised`.
     */
    method RestoreOrders(adminSet: bool, failAt: Option<nat>) returns (sent: seq<OrderRecord>, raised: bool)
      requires Valid()
      modifies this`orders, this`orderWrites
      ensures Valid()
      ensures ordersFileExists && !AllFlagged(old(orders)) ==>
                raised && sent == [] && orders == old(orders) && orderWrites == old(orderWrites)
      ensures var pending := PendingOrders(old(orders));
              var attempted := ordersFileExists && AllFlagged(old(orders)) && pending != [] && adminSet;
              var failed := attempted && failAt.Some? && failAt.value < |pending|;
              && (!attempted && AllFlagged(old(orders)) ==>
                    !raised && sent == [] && orders == old(orders) && orderWrites == old(orderWrites))
              && (failed ==> raised && sent == pending[..failAt.value] && orders == old(orders) && orderWrites == old(orderWrites))
              && (attempted && !failed ==>
                    !raised && sent == pending && orders == RestoredOrders(old(orders)) && orderWrites == old(orderWrites) + 1)
    {
      sent, raised := [], false;
      if !ordersFileExists {
        return;
      }
      var loaded := orders;
      if !AllFlagged(loaded) {
        raised := true;
        return;
      }
      var pending := PendingOrders(loaded);
      if pending == [] || !adminSet {
        return;
      }
      var i := 0;
      while i < |loaded|
        invariant 0 <= i <= |loaded| == |orders|
        invariant orders == old(orders) && orderWrites == old(orderWrites) && AllFlagged(orders)
        invariant sent == PendingOrders(orders[..i])
        invariant failAt.None? || failAt.value >= |sent|
        invariant OrdersRestoredUpTo(loaded, orders, i)
      {
        PendingOrdersStep(orders, i);
        OrderRestoreStep(loaded, orders, i);
        if loaded[i].processed == Some(false) {
          if failAt == Some(|sent|) {
            PendingOrderPrefix(orders, i);
            raised := true;
            return;
          }
          sent := sent + [loaded[i]];
          loaded := loaded[i := loaded[i].(processed := Some(true))];
        }
        i := i + 1;
      }
      assert orders[..i] == orders;
      OrdersRestoredAll(loaded, orders);
      orders := loaded;
      orderWrites := orderWrites + 1;
    }

    /**
     * `restore_pending_data`: messages first, then orders, inside one `try`; an exception
     * in the message half skips the order half.
     */
    method RestorePendingData(adminSet: bool, messageFailAt: Option<nat>, orderFailAt: Option<nat>)
      returns (sentMessages: seq<MessageRecord>, sentOrders: seq<OrderRecord>)
      requires Valid()
      modifies this`messages, this`messageWrites, this`orders, this`orderWrites
      ensures Valid()
      ensures !adminSet ==>
                && sentMessages == [] && sentOrders == []
                && messages == old(messages) && messageWrites == old(messageWrites)
                && orders == old(orders) && orderWrites == old(orderWrites)
      ensures var pending := PendingMessages(old(messages));
              messagesFileExists && adminSet && messageFailAt.Some? && messageFailAt.value < |pending| ==>
                && sentMessages == pending[..messageFailAt.value]
                && messages == old(messages) && messageWrites == old(messageWrites)
                && sentOrders == [] && orders == old(orders) && orderWrites == old(orderWrites)
      ensures && adminSet
                && (messageFailAt.None? || messageFailAt.value >= |PendingMessages(old(messages))|)
                && (orderFailAt.None? || orderFailAt.value >= |PendingOrders(old(orders))|)
                && AllFlagged(old(orders)) ==>
                && sentMessages == PendingMessages(old(messages))
                && sentOrders == PendingOrders(old(orders))
                && messages == RestoredMessages(old(messages))
                && orders == RestoredOrders(old(orders))
                && messageWrites == old(messageWrites) + (if PendingMessages(old(messages)) != [] then 1 else 0)
                && orderWrites == old(orderWrites) + (if PendingOrders(old(orders)) != [] then 1 else 0)
                && PendingMessages(messages) == [] && PendingOrders(orders) == []
    {
      var raised;
      sentMessages, raised := RestoreMessages(adminSet, messageFailAt);
      sentOrders := [];
      if !raised {
        sentOrders, raised := RestoreOrders(adminSet, orderFailAt);
      }
      if && adminSet
         && (messageFailAt.None? || messageFailAt.value >= |PendingMessages(old(messages))|)
         && (orderFailAt.None? || orderFailAt.value >= |PendingOrders(old(orders))|)
         && AllFlagged(old(orders)) {
        RestoreLeavesNothingPending(old(messages), old(orders));
        NothingPendingMessagesRestored(old(messages));
        NothingPendingOrdersRestored(old(orders));
      }
    }

    /** The two counts of `/status`; `None` when counting orders raises. */
    function Status(): (r: Option<(nat, nat)>)
      reads this
      ensures r.Some? <==> AllFlagged(orders)
      ensures r.Some? ==> r.value == (|PendingMessages(messages)|, |PendingOrders(orders)|)
    {
      match PendingOrderCount(orders)
      case None => None
      case Some(n) => Some((PendingMessageCount(messages), n))
    }
  }

  // ---------------------------------------------------------------------------
  // Lemmas

  /** Filtering the pending records distributes over concatenation. */
  lemma {:induction false} PendingMessagesAppend(a: seq<MessageRecord>, b: seq<MessageRecord>)
    ensures PendingMessages(a + b) == PendingMessages(a) + PendingMessages(b)
  {
    if a == [] {
      assert a + b == b;
    } else {
      var head := if a[0].processed then [] else [a[0]];
      assert (a + b)[0] == a[0];
      assert (a + b)[1..] == a[1..] + b;
      PendingMessagesAppend(a[1..], b);
      calc {
        PendingMessages(a + b);
        head + PendingMessages(a[1..] + b);
        head + (PendingMessages(a[1..]) + PendingMessages(b));
        (head + PendingMessages(a[1..])) + PendingMessages(b);
        PendingMessages(a) + PendingMessages(b);
      }
    }
  }

  lemma {:induction false} PendingOrdersAppend(a: seq<OrderRecord>, b: seq<OrderRecord>)
    ensures PendingOrders(a + b) == PendingOrders(a) + PendingOrders(b)
  {
    if a == [] {
      assert a + b == b;
    } else {
      var head := if a[0].processed == Some(false) then [a[0]] else [];
      assert (a + b)[0] == a[0];
      assert (a + b)[1..] == a[1..] + b;
      PendingOrdersAppend(a[1..], b);
      calc {
        PendingOrders(a + b);
        head + PendingOrders(a[1..] + b);
        head + (PendingOrders(a[1..]) + PendingOrders(b));
        (head + PendingOrders(a[1..])) + PendingOrders(b);
        PendingOrders(a) + PendingOrders(b);
      }
    }
  }

  /** One record further into the list: it joins the pending prefix exactly when it is pending. */
  lemma PendingMessagesStep(rs: seq<MessageRecord>, i: nat)
    requires i < |rs|
    ensures PendingMessages(rs[..i + 1]) == PendingMessages(rs[..i]) + (if rs[i].processed then [] else [rs[i]])
  {
    PendingMessagesAppend(rs[..i], [rs[i]]);
    assert rs[..i + 1] == rs[..i] + [rs[i]];
  }

  lemma PendingOrdersStep(rs: seq<OrderRecord>, i: nat)
    requires i < |rs|
    ensures PendingOrders(rs[..i + 1]) == PendingOrders(rs[..i]) + (if rs[i].processed == Some(false) then [rs[i]] else [])
  {
    PendingOrdersAppend(rs[..i], [rs[i]]);
    assert rs[..i + 1] == rs[..i] + [rs[i]];
  }

  /** `loaded` is `rs` with its first `i` records as a completed restore leaves them, and the rest as they were. */
  ghost predicate MessagesRestoredUpTo(loaded: seq<MessageRecord>, rs: seq<MessageRecord>, i: nat) {
    && |loaded| == |rs| && i <= |rs|
    && (forall k :: 0 <= k < i ==> loaded[k] == RestoredMessages(rs)[k])
    && (forall k :: i <= k < |rs| ==> loaded[k] == rs[k])
  }

  /** Flagging record `i` of the loaded list, when it is pending, restores one more record. */
  lemma MessageRestoreStep(loaded: seq<MessageRecord>, rs: seq<MessageRecord>, i: nat)
    requires MessagesRestoredUpTo(loaded, rs, i) && i < |rs|
    ensures loaded[i] == rs[i]
    ensures !loaded[i].processed ==> MessagesRestoredUpTo(loaded[i := loaded[i].(processed := true)], rs, i + 1)
    ensures loaded[i].processed ==> MessagesRestoredUpTo(loaded, rs, i + 1)
  {
  }

  lemma MessagesRestoredAll(loaded: seq<MessageRecord>, rs: seq<MessageRecord>)
    requires MessagesRestoredUpTo(loaded, rs, |rs|)
    ensures loaded == RestoredMessages(rs)
  {
  }

  /** `loaded` is `rs` with its first `i` records as a completed restore leaves them, and the rest as they were. */
  ghost predicate OrdersRestoredUpTo(loaded: seq<OrderRecord>, rs: seq<OrderRecord>, i: nat) {
    && |loaded| == |rs| && i <= |rs|
    && (forall k :: 0 <= k < i ==> loaded[k] == RestoredOrders(rs)[k])
    && (forall k :: i <= k < |rs| ==> loaded[k] == rs[k])
  }

  /** Flagging order record `i` of the loaded list, when it is pending, restores one more record. */
  lemma OrderRestoreStep(loaded: seq<OrderRecord>, rs: seq<OrderRecord>, i: nat)
    requires OrdersRestoredUpTo(loaded, rs, i) && i < |rs| && AllFlagged(rs)
    ensures loaded[i] == rs[i]
    ensures loaded[i].processed == Some(false) ==>
              OrdersRestoredUpTo(loaded[i := loaded[i].(processed := Some(true))], rs, i + 1)
    ensures loaded[i].processed != Some(false) ==> OrdersRestoredUpTo(loaded, rs, i + 1)
  {
    if loaded[i].processed != Some(false) {
      assert rs[i].processed.Some? && rs[i].processed.value;
    }
  }

  lemma OrdersRestoredAll(loaded: seq<OrderRecord>, rs: seq<OrderRecord>)
    requires OrdersRestoredUpTo(loaded, rs, |rs|)
    ensures loaded == RestoredOrders(rs)
  {
  }

  /** A send that fails at a pending record `i` fails strictly inside the pending list. */
  lemma PendingPrefix(rs: seq<MessageRecord>, i: nat)
    requires i < |rs| && !rs[i].processed
    ensures |PendingMessages(rs[..i])| < |PendingMessages(rs)|
    ensures PendingMessages(rs)[..|PendingMessages(rs[..i])|] == PendingMessages(rs[..i])
  {
    PendingMessagesAppend(rs[..i], rs[i..]);
    assert rs == rs[..i] + rs[i..];
    assert rs[i..][0] == rs[i];
  }

  lemma PendingOrderPrefix(rs: seq<OrderRecord>, i: nat)
    requires i < |rs| && rs[i].processed == Some(false)
    ensures |PendingOrders(rs[..i])| < |PendingOrders(rs)|
    ensures PendingOrders(rs)[..|PendingOrders(rs[..i])|] == PendingOrders(rs[..i])
  {
    PendingOrdersAppend(rs[..i], rs[i..]);
    assert rs == rs[..i] + rs[i..];
    assert rs[i..][0] == rs[i];
  }

  /** After an append, the pending records are the earlier pending ones, in order, then the new one. */
  lemma SavedMessageIsPendingLast(rs: seq<MessageRecord>, r: MessageRecord)
    requires !r.processed
    ensures PendingMessages(rs + [r]) == PendingMessages(rs) + [r]
    ensures PendingMessageCount(rs + [r]) == PendingMessageCount(rs) + 1
  {
    PendingMessagesAppend(rs, [r]);
  }

  lemma SavedOrderIsPendingLast(rs: seq<OrderRecord>, r: OrderRecord)
    requires r.processed == Some(false)
    ensures PendingOrders(rs + [r]) == PendingOrders(rs) + [r]
  {
    PendingOrdersAppend(rs, [r]);
  }

  /** Marking twice with the same user and text is marking once. */
  lemma MarkMessagesIdempotent(rs: seq<MessageRecord>, userId: int, text: string)
    ensures MarkedMessages(MarkedMessages(rs, userId, text), userId, text) == MarkedMessages(rs, userId, text)
  {
  }

  /** Marking twice with the same order data is marking once. */
  lemma MarkOrdersIdempotent(rs: seq<OrderRecord>, d: OrderData)
    ensures MarkedOrders(MarkedOrders(rs, d), d) == MarkedOrders(rs, d)
  {
  }

  /**
   * After `mark_message_processed(userId, text)` the pending records are the earlier pending
   * ones without those of that user with that text, in the same order.
   */
  lemma {:induction false} PendingAfterMarkMessages(rs: seq<MessageRecord>, userId: int, text: string)
    ensures PendingMessages(MarkedMessages(rs, userId, text)) ==
            OtherPendingMessages(PendingMessages(rs), userId, text)
  {
    if rs != [] {
      var marked := MarkedMessages(rs, userId, text);
      assert marked[1..] == MarkedMessages(rs[1..], userId, text);
      PendingAfterMarkMessages(rs[1..], userId, text);
      var head := if rs[0].processed then [] else [rs[0]];
      assert PendingMessages(rs) == head + PendingMessages(rs[1..]);
      OtherPendingMessagesAppend(head, PendingMessages(rs[1..]), userId, text);
    }
  }

  /** The records of a list that are not from `userId` with `text`. */
  function OtherPendingMessages(ps: seq<MessageRecord>, userId: int, text: string): seq<MessageRecord> {
    if ps == [] then []
    else (if ps[0].userId == userId && ps[0].text == text then [] else [ps[0]])
         + OtherPendingMessages(ps[1..], userId, text)
  }

  lemma {:induction false} OtherPendingMessagesAppend(a: seq<MessageRecord>, b: seq<MessageRecord>, userId: int, text: string)
    ensures OtherPendingMessages(a + b, userId, text) ==
            OtherPendingMessages(a, userId, text) + OtherPendingMessages(b, userId, text)
  {
    if a == [] {
      assert a + b == b;
    } else {
      var head := if a[0].userId == userId && a[0].text == text then [] else [a[0]];
      assert (a + b)[0] == a[0];
      assert (a + b)[1..] == a[1..] + b;
      OtherPendingMessagesAppend(a[1..], b, userId, text);
      calc {
        OtherPendingMessages(a + b, userId, text);
        head + OtherPendingMessages(a[1..] + b, userId, text);
        head + (OtherPendingMessages(a[1..], userId, text) + OtherPendingMessages(b, userId, text));
        (head + OtherPendingMessages(a[1..], userId, text)) + OtherPendingMessages(b, userId, text);
      }
    }
  }

  lemma {:induction false} OtherPendingOrdersAppend(a: seq<OrderRecord>, b: seq<OrderRecord>, d: OrderData)
    ensures OtherPendingOrders(a + b, d) == OtherPendingOrders(a, d) + OtherPendingOrders(b, d)
  {
    if a == [] {
      assert a + b == b;
    } else {
      var head := if a[0].data.total == d.total && a[0].data.cart == d.cart then [] else [a[0]];
      assert (a + b)[0] == a[0];
      assert (a + b)[1..] == a[1..] + b;
      OtherPendingOrdersAppend(a[1..], b, d);
      calc {
        OtherPendingOrders(a + b, d);
        head + OtherPendingOrders(a[1..] + b, d);
        head + (OtherPendingOrders(a[1..], d) + OtherPendingOrders(b, d));
        (head + OtherPendingOrders(a[1..], d)) + OtherPendingOrders(b, d);
      }
    }
  }

  /** The order records of a list that do not have this total and this cart. */
  function OtherPendingOrders(ps: seq<OrderRecord>, d: OrderData): seq<OrderRecord> {
    if ps == [] then []
    else (if ps[0].data.total == d.total && ps[0].data.cart == d.cart then [] else [ps[0]])
         + OtherPendingOrders(ps[1..], d)
  }

  /**
   * After `mark_order_processed(d)` the pending orders are the earlier pending ones without
   * those with `d`'s total and cart; records without a `processed` key stay as they were.
   */
  lemma {:induction false} PendingAfterMarkOrders(rs: seq<OrderRecord>, d: OrderData)
    ensures PendingOrders(MarkedOrders(rs, d)) == OtherPendingOrders(PendingOrders(rs), d)
    ensures forall i :: 0 <= i < |rs| && rs[i].processed.None? ==> MarkedOrders(rs, d)[i] == rs[i]
  {
    if rs != [] {
      var marked := MarkedOrders(rs, d);
      assert marked[1..] == MarkedOrders(rs[1..], d);
      PendingAfterMarkOrders(rs[1..], d);
      var head := if rs[0].processed == Some(false) then [rs[0]] else [];
      assert PendingOrders(rs) == head + PendingOrders(rs[1..]);
      OtherPendingOrdersAppend(head, PendingOrders(rs[1..]), d);
    }
  }

  /** A message list with nothing pending is its own restored form. */
  lemma {:induction false} NothingPendingMessagesRestored(rs: seq<MessageRecord>)
    ensures PendingMessages(rs) == [] ==> RestoredMessages(rs) == rs
  {
    if rs != [] && PendingMessages(rs) == [] {
      assert PendingMessages(rs[1..]) == [];
      NothingPendingMessagesRestored(rs[1..]);
      assert RestoredMessages(rs)[0] == rs[0];
      assert RestoredMessages(rs)[1..] == RestoredMessages(rs[1..]);
      assert rs == [rs[0]] + rs[1..];
    }
  }

  /** An order list in which every record has the key and none is pending is its own restored form. */
  lemma {:induction false} NothingPendingOrdersRestored(rs: seq<OrderRecord>)
    ensures AllFlagged(rs) && PendingOrders(rs) == [] ==> RestoredOrders(rs) == rs
  {
    if rs != [] && AllFlagged(rs) && PendingOrders(rs) == [] {
      var first := rs[0];
      assert first.processed.Some?;
      var head := if first.processed == Some(false) then [first] else [];
      assert PendingOrders(rs) == head + PendingOrders(rs[1..]);
      assert |head| == 0;
      assert rs[0].processed != Some(false);
      assert rs[0].processed == Some(rs[0].processed.value) && rs[0].processed.value;
      assert PendingOrders(rs[1..]) == [];
      assert AllFlagged(rs[1..]) by {
        forall i | 0 <= i < |rs[1..]| ensures rs[1..][i].processed.Some? {
          assert rs[1..][i] == rs[i + 1];
        }
      }
      NothingPendingOrdersRestored(rs[1..]);
      assert RestoredOrders(rs)[0] == rs[0];
      assert RestoredOrders(rs)[1..] == RestoredOrders(rs[1..]);
      assert rs == [rs[0]] + rs[1..];
    }
  }

  /** After a completed restore nothing is pending, in either file. */
  lemma {:induction false} RestoreLeavesNothingPending(ms: seq<MessageRecord>, os: seq<OrderRecord>)
    requires AllFlagged(os)
    ensures PendingMessages(RestoredMessages(ms)) == []
    ensures PendingOrders(RestoredOrders(os)) == []
    decreases |ms| + |os|
  {
    if ms != [] {
      assert RestoredMessages(ms)[1..] == RestoredMessages(ms[1..]);
      RestoreLeavesNothingPending(ms[1..], os);
    }
    if os != [] {
      assert RestoredOrders(os)[1..] == RestoredOrders(os[1..]);
      RestoreLeavesNothingPending(ms, os[1..]);
    }
  }
}
