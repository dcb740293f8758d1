/** Orders, tickets and the discount ledger: backend/app/services/order_service.py. */
module Orders {
  import opened Arithmetic
  import opened Counting
  import opened Discounts
  import opened Registrations
  import opened Wrappers

  datatype Pricing = Free | Paid | Donation

  datatype Ticket = Ticket(eventId: nat, price: nat, pricing: Pricing, total: Option<nat>, sold: int, earlyBird: bool)

  datatype Session = Session(eventId: nat, capacity: Option<int>)

  datatype OrderStatus = Pending | Completed

  datatype Payment = NotRequired | PaymentPending | SimulatedPaid

  datatype Order = Order(userId: nat, eventId: nat, status: OrderStatus, subtotal: int, discount: int, total: int,
                         codeId: Option<nat>, platformId: Option<nat>, payment: Payment, completedAt: Option<int>)

  datatype Item = Item(orderId: nat, ticketId: nat, sessionId: nat, quantity: int, unitPrice: int, lineTotal: int)

  datatype Registration = Registration(itemId: nat, userId: nat, eventId: nat, sessionId: nat, status: RegStatus,
                                       ticketCode: string, checkedInAt: Option<int>, checkedInBy: Option<nat>)

  /** What organisers and administrators maintain; events map to "is published". */
  datatype Catalogue = Catalogue(tickets: map<nat, Ticket>, sessions: map<nat, Session>, events: map<nat, bool>,
                                 codes: Table, platform: Table)

  datatype Ledger = Ledger(cat: Catalogue, orders: map<nat, Order>, items: map<nat, Item>, regs: map<nat, Registration>,
                           nextOrder: nat, nextItem: nat, nextReg: nat)

  datatype OrderError =
    | TicketNotFound | SessionInvalid | EventNotOpen | EarlyBirdOver | SoldOut | SessionFull | InvalidCode
    | OrderNotFound | NotPending | TicketCodeTaken | RegistrationNotFound | NotConfirmed | UnknownTicketCode
    | AlreadyCancelled | AlreadyCheckedIn

  datatype Basket = Basket(ticketId: nat, sessionId: nat, code: Option<string>)

  // ------------------------------------------------------------------------- service

  predicate IsSoldOut(t: Ticket) {
    t.total.Some? && t.sold >= t.total.value
  }

  function ConfirmedIn(regs: map<nat, Registration>, sessionId: nat): set<nat> {
    set r | r in regs && regs[r].sessionId == sessionId && regs[r].status == Confirmed
  }

  /** The refusals of create_order, in the program's order. */
  function RefusalOf(l: Ledger, b: Basket, earlyBirdOpen: bool): Option<OrderError> {
    var c := l.cat;
    if b.ticketId !in c.tickets then Some(TicketNotFound) else
    var t := c.tickets[b.ticketId];
    if b.sessionId !in c.sessions || c.sessions[b.sessionId].eventId != t.eventId then Some(SessionInvalid) else
    if t.eventId !in c.events || !c.events[t.eventId] then Some(EventNotOpen) else
    if t.earlyBird && !earlyBirdOpen then Some(EarlyBirdOver) else
    if IsSoldOut(t) then Some(SoldOut) else
    var cap := c.sessions[b.sessionId].capacity;
    if cap.Some? && |ConfirmedIn(l.regs, b.sessionId)| >= cap.value then Some(SessionFull) else None
  }

  /** The rows a lookup of the basket's code returns are matching rows, if there are any. */
  predicate LookupOk(c: Catalogue, b: Basket, picks: Picks) {
    b.ticketId in c.tickets && b.code.Some? ==>
      PicksOk(c.codes, c.platform, c.tickets[b.ticketId].eventId, b.code.value, picks)
  }

  /** No code given, a usable code, or none. */
  function Lookup(c: Catalogue, code: Option<string>, picks: Picks, now: int): Option<Found> {
    if code.None? || code.value == "" then Some(NoCode) else
    var f := FindValidDiscount(c.codes, c.platform, picks, now);
    if f.NoCode? then None else Some(f)
  }

  function DiscountOf(c: Catalogue, f: Found, subtotal: int): int {
    match f
    case NoCode => 0
    case EventLevel(id) => if id in c.codes then DiscountAmount(subtotal, c.codes[id]) else 0
    case PlatformLevel(id) => if id in c.platform then DiscountAmount(subtotal, c.platform[id]) else 0
  }

  function NewOrder(l: Ledger, userId: nat, b: Basket, f: Found): Order
    requires b.ticketId in l.cat.tickets
  {
    var t := l.cat.tickets[b.ticketId];
    var discount := DiscountOf(l.cat, f, t.price);
    Order(userId, t.eventId, Pending, t.price, discount, t.price - discount,
          if f.EventLevel? then Some(f.id) else None, if f.PlatformLevel? then Some(f.id) else None,
          if t.pricing.Free? then NotRequired else PaymentPending, None)
  }

  function CreateOrder(l: Ledger, userId: nat, b: Basket, picks: Picks, earlyBirdOpen: bool, now: int)
    : (Ledger, Result<nat, OrderError>)
  {
    var refusal := RefusalOf(l, b, earlyBirdOpen);
    if refusal.Some? then (l, Failure(refusal.value)) else
    var f := Lookup(l.cat, b.code, picks, now);
    if f.None? then (l, Failure(InvalidCode)) else
    (Place(l, NewOrder(l, userId, b, f.value), b), Success(l.nextOrder))
  }

  /** The ledger with one more order and its item. */
  function Place(l: Ledger, o: Order, b: Basket): Ledger {
    l.(orders := l.orders[l.nextOrder := o],
       items := l.items[l.nextItem := Item(l.nextOrder, b.ticketId, b.sessionId, 1, o.subtotal, o.total)],
       nextOrder := l.nextOrder + 1, nextItem := l.nextItem + 1)
  }

  predicate IsItemOf(items: map<nat, Item>, i: nat, o: nat) {
    i in items && items[i].orderId == o
  }

  ghost predicate HasItem(items: map<nat, Item>, o: nat) {
    exists i :: IsItemOf(items, i, o)
  }

  ghost function ItemOf(items: map<nat, Item>, o: nat): (i: nat)
    requires HasItem(items, o)
    ensures IsItemOf(items, i, o)
  {
    var i :| IsItemOf(items, i, o); i
  }

  function UseCode(t: Table, id: Option<nat>): Table {
    if id.Some? && id.value in t then t[id.value := t[id.value].(usesCount := t[id.value].usesCount + 1)] else t
  }

  function CompletedOrder(o: Order, now: int): Order {
    o.(status := Completed, completedAt := Some(now),
       payment := if o.payment == PaymentPending then SimulatedPaid else o.payment)
  }

  /** The ledger after order `o` with item `i` has been completed. */
  function Complete(l: Ledger, o: nat, i: nat, ticketCode: string, now: int): Ledger
    requires o in l.orders && i in l.items && l.items[i].ticketId in l.cat.tickets
  {
    var order, item := l.orders[o], l.items[i];
    var t := l.cat.tickets[item.ticketId];
    l.(cat := l.cat.(tickets := l.cat.tickets[item.ticketId := t.(sold := t.sold + 1)],
                     codes := UseCode(l.cat.codes, order.codeId),
                     platform := UseCode(l.cat.platform, order.platformId)),
       orders := l.orders[o := CompletedOrder(order, now)],
       regs := l.regs[l.nextReg := Registration(i, order.userId, order.eventId, item.sessionId, Confirmed, ticketCode, None, None)],
       nextReg := l.nextReg + 1)
  }

  predicate IsTaken(regs: map<nat, Registration>, ticketCode: string) {
    exists r :: r in regs && regs[r].ticketCode == ticketCode
  }

  /** The rows that other rows refer to exist. */
  ghost predicate LinksOk(l: Ledger) {
    && (forall o {:trigger HasItem(l.items, o)} :: o in l.orders ==> HasItem(l.items, o))
    && (forall i :: i in l.items ==> l.items[i].ticketId in l.cat.tickets)
    && (forall r :: r in l.regs ==> l.regs[r].itemId in l.items)
  }

  ghost function CompleteOrder(l: Ledger, o: nat, ticketCode: string, now: int): (Ledger, Result<nat, OrderError>)
    requires LinksOk(l)
  {
    if o !in l.orders then (l, Failure(OrderNotFound)) else
    if l.orders[o].status != Pending then (l, Failure(NotPending)) else
    assert HasItem(l.items, o);
    var i := ItemOf(l.items, o);
    if IsSoldOut(l.cat.tickets[l.items[i].ticketId]) then (l, Failure(SoldOut)) else
    if IsTaken(l.regs, ticketCode) then (l, Failure(TicketCodeTaken)) else
    (Complete(l, o, i, ticketCode, now), Success(l.nextReg))
  }

  ghost function CancelRegistration(l: Ledger, r: nat): (Ledger, Result<nat, OrderError>)
    requires LinksOk(l)
  {
    if r !in l.regs then (l, Failure(RegistrationNotFound)) else
    if l.regs[r].status != Confirmed then (l, Failure(NotConfirmed)) else
    (MarkCancelled(l, r, l.items[l.regs[r].itemId].ticketId), Success(r))
  }

  predicate HasCode(regs: map<nat, Registration>, r: nat, eventId: nat, ticketCode: string) {
    r in regs && regs[r].eventId == eventId && regs[r].ticketCode == ticketCode
  }

  ghost function FindReg(regs: map<nat, Registration>, eventId: nat, ticketCode: string): (r: Option<nat>)
    ensures r.Some? ==> HasCode(regs, r.value, eventId, ticketCode)
    ensures r.None? ==> forall q :: !HasCode(regs, q, eventId, ticketCode)
  {
    if exists r :: HasCode(regs, r, eventId, ticketCode) then
      var r :| HasCode(regs, r, eventId, ticketCode);
      Some(r)
    else None
  }

  ghost function CheckIn(l: Ledger, eventId: nat, ticketCode: string, staff: nat, now: int): (Ledger, Result<nat, OrderError>) {
    var found := FindReg(l.regs, eventId, ticketCode);
    if found.None? then (l, Failure(UnknownTicketCode)) else
    var r := found.value;
    if l.regs[r].status == Cancelled then (l, Failure(AlreadyCancelled)) else
    if l.regs[r].status == CheckedIn then (l, Failure(AlreadyCheckedIn)) else
    (MarkCheckedIn(l, r, staff, now), Success(r))
  }

  function MarkCheckedIn(l: Ledger, r: nat, staff: nat, now: int): Ledger
    requires r in l.regs
  {
    l.(regs := l.regs[r := l.regs[r].(status := CheckedIn, checkedInAt := Some(now), checkedInBy := Some(staff))])
  }

  function MarkCancelled(l: Ledger, r: nat, place: nat): Ledger
    requires r in l.regs && place in l.cat.tickets
  {
    var t := l.cat.tickets[place];
    l.(regs := l.regs[r := l.regs[r].(status := Cancelled)],
       cat := l.cat.(tickets := l.cat.tickets[place := t.(sold := Max(0, t.sold - 1))]))
  }

  // ------------------------------------------------------------------------- invariant

  type OrderRows = map<nat, Order>
  type ItemRows = map<nat, Item>
  type RegRows = map<nat, Registration>

  predicate Holds(regs: RegRows, items: ItemRows, r: nat, ticketId: nat) {
    && r in regs && regs[r].status != Cancelled
    && regs[r].itemId in items && items[regs[r].itemId].ticketId == ticketId
  }

  /** The registrations that hold a place of the ticket type. */
  ghost function Holding(regs: RegRows, items: ItemRows, ticketId: nat): set<nat> {
    set r | r in regs && Holds(regs, items, r, ticketId)
  }

  /** The two tables of discount codes. */
  datatype Level = EventCodes | PlatformCodes

  function CodeOf(o: Order, level: Level): Option<nat> {
    if level.EventCodes? then o.codeId else o.platformId
  }

  function CodesAt(c: Catalogue, level: Level): Table {
    if level.EventCodes? then c.codes else c.platform
  }

  ghost function WithCode(orders: OrderRows, level: Level, codeId: nat, status: OrderStatus): set<nat> {
    set o | o in orders && CodeOf(orders[o], level) == Some(codeId) && orders[o].status == status
  }

  ghost predicate IdsFresh(l: Ledger) {
    && (forall o :: o in l.orders ==> o < l.nextOrder)
    && (forall i :: i in l.items ==> i < l.nextItem)
    && (forall r :: r in l.regs ==> r < l.nextReg)
  }

  /** Every order has exactly one item, of an existing ticket type. */
  ghost predicate ItemsOk(orders: OrderRows, items: ItemRows, tickets: set<nat>) {
    && (forall i :: i in items ==> items[i].orderId in orders && items[i].ticketId in tickets)
    && (forall i, j :: i in items && j in items && items[i].orderId == items[j].orderId ==> i == j)
    && (forall o {:trigger HasItem(items, o)} :: o in orders ==> HasItem(items, o))
  }

  /** The amounts add up, there is at most one code, and an order is completed exactly if it is dated,
      and then paid if it had to be. */
  predicate OrderMoneyOk(o: Order) {
    && 0 <= o.discount <= o.subtotal && o.total == o.subtotal - o.discount
    && (o.status == Completed <==> o.completedAt.Some?)
    && (o.payment == PaymentPending ==> o.status == Pending) && (o.payment == SimulatedPaid ==> o.status == Completed)
    && (o.codeId.None? || o.platformId.None?)
  }

  ghost predicate MoneyOk(orders: OrderRows, items: ItemRows) {
    && (forall o :: o in orders ==> OrderMoneyOk(orders[o]))
    && (forall i :: i in items && items[i].orderId in orders ==>
          && items[i].quantity == 1
          && items[i].unitPrice == orders[items[i].orderId].subtotal
          && items[i].lineTotal == orders[items[i].orderId].total)
  }

  /** `sold` counts the places held and never exceeds the number on sale. */
  ghost predicate SalesOk(tickets: map<nat, Ticket>, regs: RegRows, items: ItemRows) {
    forall t :: t in tickets ==>
      && tickets[t].sold == |Holding(regs, items, t)|
      && (tickets[t].total.Some? ==> tickets[t].sold <= tickets[t].total.value)
  }

  predicate IsRegOf(regs: RegRows, r: nat, i: nat) {
    r in regs && regs[r].itemId == i
  }

  ghost predicate HasReg(regs: RegRows, i: nat) {
    exists r :: IsRegOf(regs, r, i)
  }

  predicate IsComplete(orders: OrderRows, items: ItemRows, i: nat) {
    i in items && items[i].orderId in orders && orders[items[i].orderId].status == Completed
  }

  /** A registration belongs to a completed order and repeats its user, event and session. */
  predicate RegMatches(orders: OrderRows, items: ItemRows, reg: Registration) {
    && IsComplete(orders, items, reg.itemId)
    && var item := items[reg.itemId];
       && reg.sessionId == item.sessionId
       && reg.userId == orders[item.orderId].userId && reg.eventId == orders[item.orderId].eventId
  }

  ghost predicate TicketCodesUnique(regs: RegRows) {
    forall r, q :: r in regs && q in regs && regs[r].ticketCode == regs[q].ticketCode ==> r == q
  }

  /** Registrations correspond one to one to completed orders, through the order's item. */
  ghost predicate RegsOk(orders: OrderRows, items: ItemRows, regs: RegRows) {
    && (forall r :: r in regs ==> RegMatches(orders, items, regs[r]))
    && (forall r, q :: r in regs && q in regs && regs[r].itemId == regs[q].itemId ==> r == q)
    && (forall i {:trigger HasReg(regs, i)} {:trigger IsComplete(orders, items, i)} :: IsComplete(orders, items, i) ==> HasReg(regs, i))
    && TicketCodesUnique(regs)
  }

  /** `usesCount` counts the completed orders that carry the code. */
  ghost predicate UsesOk(orders: OrderRows, level: Level, codes: Table) {
    && (forall c :: c in codes ==> codes[c].usesCount == |WithCode(orders, level, c, Completed)|)
    && (forall o :: o in orders ==> CodeKnown(orders[o], level, codes))
  }

  predicate CodeKnown(o: Order, level: Level, codes: Table) {
    CodeOf(o, level).Some? ==> CodeOf(o, level).value in codes
  }

  ghost predicate Valid(l: Ledger)
    ensures Valid(l) ==> LinksOk(l)
  {
    && IdsFresh(l)
    && ItemsOk(l.orders, l.items, l.cat.tickets.Keys)
    && MoneyOk(l.orders, l.items)
    && SalesOk(l.cat.tickets, l.regs, l.items)
    && RegsOk(l.orders, l.items, l.regs)
    && UsesOk(l.orders, EventCodes, l.cat.codes)
    && UsesOk(l.orders, PlatformCodes, l.cat.platform)
  }

  // ------------------------------------------------------------------ places held

  lemma HoldingAfterAdding(regs: RegRows, items: ItemRows, r: nat, reg: Registration, t: nat)
    requires r !in regs && reg.itemId in items && reg.status == Confirmed
    ensures Holding(regs[r := reg], items, t)
            == Holding(regs, items, t) + (if items[reg.itemId].ticketId == t then {r} else {})
  {
    forall q | q in regs ensures Holds(regs[r := reg], items, q, t) == Holds(regs, items, q, t) {
    }
  }

  lemma HoldingAfterStatus(regs: RegRows, items: ItemRows, r: nat, reg: Registration, t: nat)
    requires r in regs && reg.itemId == regs[r].itemId && regs[r].status == Confirmed && reg.itemId in items
    ensures Holding(regs[r := reg], items, t)
            == Holding(regs, items, t) - (if reg.status == Cancelled && items[reg.itemId].ticketId == t then {r} else {})
  {
    forall q | q in regs && q != r ensures Holds(regs[r := reg], items, q, t) == Holds(regs, items, q, t) {
    }
  }

  lemma HoldingIgnoresNewItem(regs: RegRows, items: ItemRows, i: nat, item: Item, t: nat)
    requires i !in items && forall r :: r in regs ==> regs[r].itemId in items
    ensures Holding(regs, items[i := item], t) == Holding(regs, items, t)
  {
    forall q | q in regs ensures Holds(regs, items[i := item], q, t) == Holds(regs, items, q, t) {
    }
  }

  // ------------------------------------------------------------------ creating an order

  lemma PlaceKeepsItems(l: Ledger, o: Order, b: Basket)
    requires IdsFresh(l) && ItemsOk(l.orders, l.items, l.cat.tickets.Keys) && b.ticketId in l.cat.tickets
    ensures var l' := Place(l, o, b); IdsFresh(l') && ItemsOk(l'.orders, l'.items, l'.cat.tickets.Keys)
  {
    var l' := Place(l, o, b);
    forall p | p in l'.orders ensures HasItem(l'.items, p) {
      if p == l.nextOrder {
        assert IsItemOf(l'.items, l.nextItem, p);
      } else {
        assert HasItem(l.items, p);
        assert IsItemOf(l'.items, ItemOf(l.items, p), p);
      }
    }
  }

  lemma PlaceKeepsMoney(l: Ledger, o: Order, b: Basket)
    requires IdsFresh(l) && ItemsOk(l.orders, l.items, l.cat.tickets.Keys) && MoneyOk(l.orders, l.items) && OrderMoneyOk(o)
    ensures MoneyOk(Place(l, o, b).orders, Place(l, o, b).items)
  {
  }

  lemma PlaceKeepsSales(l: Ledger, o: Order, b: Basket)
    requires IdsFresh(l) && RegsOk(l.orders, l.items, l.regs) && SalesOk(l.cat.tickets, l.regs, l.items)
    ensures SalesOk(l.cat.tickets, l.regs, Place(l, o, b).items)
  {
    forall t: nat ensures Holding(l.regs, Place(l, o, b).items, t) == Holding(l.regs, l.items, t) {
      HoldingIgnoresNewItem(l.regs, l.items, l.nextItem, Place(l, o, b).items[l.nextItem], t);
    }
  }

  lemma PlaceKeepsRegs(l: Ledger, o: Order, b: Basket)
    requires IdsFresh(l) && ItemsOk(l.orders, l.items, l.cat.tickets.Keys) && RegsOk(l.orders, l.items, l.regs) && o.status == Pending
    ensures RegsOk(Place(l, o, b).orders, Place(l, o, b).items, l.regs)
  {
    var l' := Place(l, o, b);
    forall i | IsComplete(l'.orders, l'.items, i) ensures HasReg(l.regs, i) {
      assert IsComplete(l.orders, l.items, i);
    }
  }

  lemma PlaceKeepsUses(orders: OrderRows, level: Level, codes: Table, id: nat, o: Order)
    requires UsesOk(orders, level, codes) && id !in orders && o.status == Pending && CodeKnown(o, level, codes)
    ensures UsesOk(orders[id := o], level, codes)
  {
    forall c: nat ensures WithCode(orders[id := o], level, c, Completed) == WithCode(orders, level, c, Completed) {
    }
  }

  lemma NewOrderIsOk(l: Ledger, userId: nat, b: Basket, picks: Picks, now: int)
    requires b.ticketId in l.cat.tickets && Lookup(l.cat, b.code, picks, now).Some?
    ensures var o := NewOrder(l, userId, b, Lookup(l.cat, b.code, picks, now).value);
            && OrderMoneyOk(o) && o.status == Pending
            && (forall level :: CodeKnown(o, level, CodesAt(l.cat, level)))
            && (forall level :: CodeOf(o, level).Some? ==> !Exhausted(CodesAt(l.cat, level)[CodeOf(o, level).value]))
  {
  }

  lemma PlacedIsValid(l: Ledger, o: Order, b: Basket)
    requires Valid(l) && OrderMoneyOk(o) && o.status == Pending && b.ticketId in l.cat.tickets
    requires forall level :: CodeKnown(o, level, CodesAt(l.cat, level))
    ensures Valid(Place(l, o, b))
  {
    PlaceKeepsItems(l, o, b);
    PlaceKeepsMoney(l, o, b);
    PlaceKeepsSales(l, o, b);
    PlaceKeepsRegs(l, o, b);
    assert CodeKnown(o, EventCodes, CodesAt(l.cat, EventCodes)) && CodeKnown(o, PlatformCodes, CodesAt(l.cat, PlatformCodes));
    PlaceKeepsUses(l.orders, EventCodes, l.cat.codes, l.nextOrder, o);
    PlaceKeepsUses(l.orders, PlatformCodes, l.cat.platform, l.nextOrder, o);
  }

  lemma CreateKeepsValid(l: Ledger, userId: nat, b: Basket, picks: Picks, earlyBirdOpen: bool, now: int)
    requires Valid(l)
    ensures Valid(CreateOrder(l, userId, b, picks, earlyBirdOpen, now).0)
  {
    if CreateOrder(l, userId, b, picks, earlyBirdOpen, now).1.Success? {
      NewOrderIsOk(l, userId, b, picks, now);
      PlacedIsValid(l, NewOrder(l, userId, b, Lookup(l.cat, b.code, picks, now).value), b);
    }
  }

  // ------------------------------------------------------------------ completing an order

  lemma OrderUpdateKeepsItems(orders: OrderRows, items: ItemRows, tickets: set<nat>, o: nat, done: Order)
    requires ItemsOk(orders, items, tickets) && o in orders
    ensures ItemsOk(orders[o := done], items, tickets)
  {
    assert orders[o := done].Keys == orders.Keys;
    assert forall p :: p in orders ==> HasItem(items, p);
  }

  lemma OrderUpdateKeepsMoney(orders: OrderRows, items: ItemRows, o: nat, done: Order)
    requires MoneyOk(orders, items) && o in orders && OrderMoneyOk(done)
    requires done.subtotal == orders[o].subtotal && done.total == orders[o].total
    ensures MoneyOk(orders[o := done], items)
  {
  }

  lemma NewRegKeepsSales(tickets: map<nat, Ticket>, regs: RegRows, items: ItemRows, r: nat, reg: Registration, place: nat)
    requires SalesOk(tickets, regs, items) && r !in regs && reg.status == Confirmed
    requires reg.itemId in items && items[reg.itemId].ticketId == place && place in tickets && !IsSoldOut(tickets[place])
    ensures SalesOk(tickets[place := tickets[place].(sold := tickets[place].sold + 1)], regs[r := reg], items)
  {
    forall t: nat ensures |Holding(regs[r := reg], items, t)| == |Holding(regs, items, t)| + (if place == t then 1 else 0) {
      HoldingAfterAdding(regs, items, r, reg, t);
      assert r !in Holding(regs, items, t);
    }
  }

  lemma NewRegKeepsRegs(orders: OrderRows, items: ItemRows, regs: RegRows, i: nat, done: Order, r: nat, reg: Registration)
    requires RegsOk(orders, items, regs) && i in items && items[i].orderId in orders
    requires forall j :: j in items && items[j].orderId == items[i].orderId ==> j == i
    requires orders[items[i].orderId].status == Pending && done.status == Completed
    requires r !in regs && reg.itemId == i && RegMatches(orders[items[i].orderId := done], items, reg)
    requires forall q :: q in regs ==> regs[q].ticketCode != reg.ticketCode
    ensures RegsOk(orders[items[i].orderId := done], items, regs[r := reg])
  {
    var orders', regs' := orders[items[i].orderId := done], regs[r := reg];
    forall j | IsComplete(orders', items, j) ensures HasReg(regs', j) {
      if j == i {
        assert IsRegOf(regs', r, j);
      } else {
        assert IsComplete(orders, items, j);
        var q :| IsRegOf(regs, q, j);
        assert IsRegOf(regs', q, j);
      }
    }
    forall q | q in regs ensures regs[q].itemId != i && RegMatches(orders', items, regs[q]) {
      assert RegMatches(orders, items, regs[q]);
    }
  }

  lemma UsesAfterCompleting(orders: OrderRows, level: Level, o: nat, done: Order, c: nat)
    requires o in orders && orders[o].status == Pending && done.status == Completed
    requires CodeOf(done, level) == CodeOf(orders[o], level)
    ensures WithCode(orders[o := done], level, c, Completed)
            == WithCode(orders, level, c, Completed) + (if CodeOf(done, level) == Some(c) then {o} else {})
    ensures WithCode(orders[o := done], level, c, Pending)
            == WithCode(orders, level, c, Pending) - (if CodeOf(done, level) == Some(c) then {o} else {})
  {
  }

  lemma CompleteKeepsUses(orders: OrderRows, level: Level, codes: Table, o: nat, done: Order)
    requires UsesOk(orders, level, codes) && o in orders && orders[o].status == Pending && done.status == Completed
    requires CodeOf(done, level) == CodeOf(orders[o], level)
    ensures UsesOk(orders[o := done], level, UseCode(codes, CodeOf(done, level)))
  {
    assert CodeKnown(orders[o], level, codes);
    var orders', codes' := orders[o := done], UseCode(codes, CodeOf(done, level));
    forall c | c in codes' ensures codes'[c].usesCount == |WithCode(orders', level, c, Completed)| {
      UsesAfterCompleting(orders, level, o, done, c);
    }
    forall p | p in orders' ensures CodeKnown(orders'[p], level, codes') {
      assert CodeKnown(orders[p], level, codes);
    }
  }

  /** Order `o`, through its item `i`, can be completed with this ticket code. */
  ghost predicate Completable(l: Ledger, o: nat, i: nat, ticketCode: string) {
    && o in l.orders && IsItemOf(l.items, i, o) && l.orders[o].status == Pending
    && l.items[i].ticketId in l.cat.tickets && !IsSoldOut(l.cat.tickets[l.items[i].ticketId])
    && !IsTaken(l.regs, ticketCode)
  }

  lemma CompletedOrdersOk(l: Ledger, o: nat, i: nat, ticketCode: string, now: int)
    requires IdsFresh(l) && ItemsOk(l.orders, l.items, l.cat.tickets.Keys) && MoneyOk(l.orders, l.items)
    requires Completable(l, o, i, ticketCode)
    ensures var l' := Complete(l, o, i, ticketCode, now);
            IdsFresh(l') && ItemsOk(l'.orders, l'.items, l'.cat.tickets.Keys) && MoneyOk(l'.orders, l'.items)
  {
    var l' := Complete(l, o, i, ticketCode, now);
    assert l'.cat.tickets.Keys == l.cat.tickets.Keys;
    OrderUpdateKeepsItems(l.orders, l.items, l.cat.tickets.Keys, o, l'.orders[o]);
    OrderUpdateKeepsMoney(l.orders, l.items, o, l'.orders[o]);
  }

  lemma CompletedPlacesOk(l: Ledger, o: nat, i: nat, ticketCode: string, now: int)
    requires IdsFresh(l) && ItemsOk(l.orders, l.items, l.cat.tickets.Keys)
    requires SalesOk(l.cat.tickets, l.regs, l.items) && RegsOk(l.orders, l.items, l.regs)
    requires Completable(l, o, i, ticketCode)
    ensures var l' := Complete(l, o, i, ticketCode, now);
            SalesOk(l'.cat.tickets, l'.regs, l'.items) && RegsOk(l'.orders, l'.items, l'.regs)
  {
    var l' := Complete(l, o, i, ticketCode, now);
    NewRegKeepsSales(l.cat.tickets, l.regs, l.items, l.nextReg, l'.regs[l.nextReg], l.items[i].ticketId);
    NewRegKeepsRegs(l.orders, l.items, l.regs, i, l'.orders[o], l.nextReg, l'.regs[l.nextReg]);
  }

  lemma CompletedUsesOk(l: Ledger, o: nat, i: nat, ticketCode: string, now: int)
    requires UsesOk(l.orders, EventCodes, l.cat.codes) && UsesOk(l.orders, PlatformCodes, l.cat.platform)
    requires Completable(l, o, i, ticketCode)
    ensures var l' := Complete(l, o, i, ticketCode, now);
            UsesOk(l'.orders, EventCodes, l'.cat.codes) && UsesOk(l'.orders, PlatformCodes, l'.cat.platform)
  {
    var l' := Complete(l, o, i, ticketCode, now);
    CompleteKeepsUses(l.orders, EventCodes, l.cat.codes, o, l'.orders[o]);
    CompleteKeepsUses(l.orders, PlatformCodes, l.cat.platform, o, l'.orders[o]);
  }

  /** A completion either fails and changes nothing, or is that of the order's item. */
  lemma CompleteShape(l: Ledger, o: nat, ticketCode: string, now: int)
    requires LinksOk(l)
    ensures var (l', r) := CompleteOrder(l, o, ticketCode, now);
            if r.Success? then
              && r.value == l.nextReg && HasItem(l.items, o) && Completable(l, o, ItemOf(l.items, o), ticketCode)
              && l' == Complete(l, o, ItemOf(l.items, o), ticketCode, now)
            else l' == l
  {
  }

  lemma CompletedIsValid(l: Ledger, o: nat, i: nat, ticketCode: string, now: int)
    requires Valid(l) && Completable(l, o, i, ticketCode)
    ensures Valid(Complete(l, o, i, ticketCode, now))
  {
    CompletedOrdersOk(l, o, i, ticketCode, now);
    CompletedPlacesOk(l, o, i, ticketCode, now);
    CompletedUsesOk(l, o, i, ticketCode, now);
  }

  lemma CompleteKeepsValid(l: Ledger, o: nat, ticketCode: string, now: int)
    requires Valid(l)
    ensures Valid(CompleteOrder(l, o, ticketCode, now).0)
  {
    CompleteShape(l, o, ticketCode, now);
    if CompleteOrder(l, o, ticketCode, now).1.Success? {
      CompletedIsValid(l, o, ItemOf(l.items, o), ticketCode, now);
    }
  }

  // ------------------------------------------------------------------ changing a registration

  /** The clamp at zero never fires: a confirmed registration is one of the places counted. */
  lemma CancelFreesOnePlace(l: Ledger, r: nat)
    requires Valid(l) && r in l.regs && l.regs[r].status == Confirmed
    ensures var (l', res) := CancelRegistration(l, r);
            var t := l.items[l.regs[r].itemId].ticketId;
            && res == Success(r)
            && l.cat.tickets[t].sold >= 1
            && l'.cat.tickets[t].sold == l.cat.tickets[t].sold - 1
            && Holding(l'.regs, l'.items, t) == Holding(l.regs, l.items, t) - {r}
  {
    assert RegMatches(l.orders, l.items, l.regs[r]);
    var t := l.items[l.regs[r].itemId].ticketId;
    assert Holds(l.regs, l.items, r, t);
    SubsetIsNoLarger({r}, Holding(l.regs, l.items, t));
    HoldingAfterStatus(l.regs, l.items, r, l.regs[r].(status := Cancelled), t);
  }

  lemma CancelKeepsSales(tickets: map<nat, Ticket>, regs: RegRows, items: ItemRows, r: nat, reg: Registration, place: nat)
    requires SalesOk(tickets, regs, items) && Holds(regs, items, r, place) && regs[r].status == Confirmed
    requires reg.status == Cancelled && reg.itemId == regs[r].itemId && place in tickets
    ensures SalesOk(tickets[place := tickets[place].(sold := Max(0, tickets[place].sold - 1))], regs[r := reg], items)
  {
    SubsetIsNoLarger({r}, Holding(regs, items, place));
    assert r in Holding(regs, items, place);
    forall t: nat ensures Holding(regs[r := reg], items, t) == Holding(regs, items, t) - (if place == t then {r} else {}) {
      HoldingAfterStatus(regs, items, r, reg, t);
    }
  }

  lemma StatusKeepsRegs(orders: OrderRows, items: ItemRows, regs: RegRows, r: nat, reg: Registration)
    requires RegsOk(orders, items, regs) && r in regs
    requires reg == regs[r].(status := reg.status, checkedInAt := reg.checkedInAt, checkedInBy := reg.checkedInBy)
    ensures RegsOk(orders, items, regs[r := reg])
  {
    forall i | IsComplete(orders, items, i) ensures HasReg(regs[r := reg], i) {
      var q :| IsRegOf(regs, q, i);
      assert IsRegOf(regs[r := reg], q, i);
    }
    var regs' := regs[r := reg];
    forall q | q in regs' ensures RegMatches(orders, items, regs'[q]) {
      assert RegMatches(orders, items, regs[q]);
    }
  }

  lemma CheckInKeepsSales(l: Ledger, r: nat, reg: Registration)
    requires SalesOk(l.cat.tickets, l.regs, l.items) && r in l.regs && l.regs[r].itemId in l.items
    requires l.regs[r].status == Confirmed && reg.status == CheckedIn && reg.itemId == l.regs[r].itemId
    ensures SalesOk(l.cat.tickets, l.regs[r := reg], l.items)
  {
    forall t: nat ensures Holding(l.regs[r := reg], l.items, t) == Holding(l.regs, l.items, t) {
      HoldingAfterStatus(l.regs, l.items, r, reg, t);
    }
  }

  lemma CancelledPlacesOk(l: Ledger, r: nat, place: nat)
    requires SalesOk(l.cat.tickets, l.regs, l.items) && RegsOk(l.orders, l.items, l.regs)
    requires Holds(l.regs, l.items, r, place) && l.regs[r].status == Confirmed && place in l.cat.tickets
    ensures var l' := MarkCancelled(l, r, place);
            && SalesOk(l'.cat.tickets, l'.regs, l'.items) && RegsOk(l'.orders, l'.items, l'.regs)
            && l'.cat.tickets.Keys == l.cat.tickets.Keys && l'.regs.Keys == l.regs.Keys
  {
    var reg := l.regs[r].(status := Cancelled);
    StatusKeepsRegs(l.orders, l.items, l.regs, r, reg);
    CancelKeepsSales(l.cat.tickets, l.regs, l.items, r, reg, place);
  }

  lemma CancelledIsValid(l: Ledger, r: nat, place: nat)
    requires Valid(l) && Holds(l.regs, l.items, r, place) && l.regs[r].status == Confirmed && place in l.cat.tickets
    ensures Valid(MarkCancelled(l, r, place))
  {
    CancelledPlacesOk(l, r, place);
  }

  lemma CancelKeepsValid(l: Ledger, r: nat)
    requires Valid(l)
    ensures Valid(CancelRegistration(l, r).0)
  {
    if r in l.regs && l.regs[r].status == Confirmed {
      assert RegMatches(l.orders, l.items, l.regs[r]);
      CancelFreesOnePlace(l, r);
      CancelledIsValid(l, r, l.items[l.regs[r].itemId].ticketId);
    }
  }

  lemma CheckedInIsValid(l: Ledger, r: nat, staff: nat, now: int)
    requires Valid(l) && r in l.regs && l.regs[r].status == Confirmed
    ensures Valid(MarkCheckedIn(l, r, staff, now))
  {
    var reg := MarkCheckedIn(l, r, staff, now).regs[r];
    assert RegMatches(l.orders, l.items, l.regs[r]);
    StatusKeepsRegs(l.orders, l.items, l.regs, r, reg);
    CheckInKeepsSales(l, r, reg);
  }

  lemma CheckInChecksInConfirmed(l: Ledger, eventId: nat, ticketCode: string, staff: nat, now: int)
    ensures var found := FindReg(l.regs, eventId, ticketCode);
            CheckIn(l, eventId, ticketCode, staff, now).0
            == if found.Some? && l.regs[found.value].status == Confirmed
               then MarkCheckedIn(l, found.value, staff, now) else l
  {
  }

  lemma CheckInKeepsValid(l: Ledger, eventId: nat, ticketCode: string, staff: nat, now: int)
    requires Valid(l)
    ensures Valid(CheckIn(l, eventId, ticketCode, staff, now).0)
  {
    var found := FindReg(l.regs, eventId, ticketCode);
    CheckInChecksInConfirmed(l, eventId, ticketCode, staff, now);
    if found.Some? && l.regs[found.value].status == Confirmed {
      CheckedInIsValid(l, found.value, staff, now);
    }
  }

  // ------------------------------------------------------------------------------ runs

  datatype Op =
    | Create(userId: nat, basket: Basket, picks: Picks, earlyBirdOpen: bool, now: int)
    | CompleteOp(order: nat, ticketCode: string, now: int)
    | Cancel(reg: nat)
    | CheckInOp(eventId: nat, ticketCode: string, staff: nat, now: int)
    | Maintain(cat: Catalogue)

  /** Catalogue maintenance adds ticket types and codes, and changes events and sessions at will. */
  predicate MaintenanceOk(c: Catalogue, d: Catalogue) {
    && c.tickets.Keys <= d.tickets.Keys && c.codes.Keys <= d.codes.Keys && c.platform.Keys <= d.platform.Keys
    && (forall t :: t in d.tickets ==> if t in c.tickets then d.tickets[t] == c.tickets[t] else d.tickets[t].sold == 0)
    && (forall x :: x in d.codes ==> if x in c.codes then d.codes[x] == c.codes[x] else d.codes[x].usesCount == 0)
    && (forall x :: x in d.platform ==> if x in c.platform then d.platform[x] == c.platform[x] else d.platform[x].usesCount == 0)
  }

  ghost function Step(l: Ledger, op: Op): Ledger
    requires LinksOk(l)
  {
    match op
    case Create(u, b, picks, early, now) => if LookupOk(l.cat, b, picks) then CreateOrder(l, u, b, picks, early, now).0 else l
    case CompleteOp(o, code, now) => CompleteOrder(l, o, code, now).0
    case Cancel(r) => CancelRegistration(l, r).0
    case CheckInOp(e, code, staff, now) => CheckIn(l, e, code, staff, now).0
    case Maintain(cat) => if MaintenanceOk(l.cat, cat) then l.(cat := cat) else l
  }

  lemma MaintainKeepsValid(l: Ledger, cat: Catalogue)
    requires Valid(l) && MaintenanceOk(l.cat, cat)
    ensures Valid(l.(cat := cat))
  {
    forall t | t in cat.tickets && t !in l.cat.tickets ensures Holding(l.regs, l.items, t) == {} {
    }
    MaintainKeepsUses(l.orders, EventCodes, l.cat.codes, cat.codes);
    MaintainKeepsUses(l.orders, PlatformCodes, l.cat.platform, cat.platform);
  }

  lemma MaintainKeepsUses(orders: OrderRows, level: Level, codes: Table, more: Table)
    requires UsesOk(orders, level, codes) && codes.Keys <= more.Keys
    requires forall c :: c in more ==> if c in codes then more[c] == codes[c] else more[c].usesCount == 0
    ensures UsesOk(orders, level, more)
  {
    forall o | o in orders ensures CodeKnown(orders[o], level, more) {
      assert CodeKnown(orders[o], level, codes);
    }
    forall c | c in more && c !in codes ensures WithCode(orders, level, c, Completed) == {} {
      assert forall o :: o in orders ==> CodeKnown(orders[o], level, codes);
    }
  }

  lemma StepKeepsValid(l: Ledger, op: Op)
    requires Valid(l)
    ensures Valid(Step(l, op))
  {
    match op
    case Create(u, b, picks, early, now) => CreateKeepsValid(l, u, b, picks, early, now);
    case CompleteOp(o, code, now) => CompleteKeepsValid(l, o, code, now);
    case Cancel(r) => CancelKeepsValid(l, r);
    case CheckInOp(e, code, staff, now) => CheckInKeepsValid(l, e, code, staff, now);
    case Maintain(cat) => if MaintenanceOk(l.cat, cat) { MaintainKeepsValid(l, cat); }
  }

  /** Every reachable ledger is consistent: conservation, no overselling and order integrity. */
  ghost function Run(l: Ledger, ops: seq<Op>): (l': Ledger)
    requires Valid(l)
    ensures Valid(l')
    decreases |ops|
  {
    if ops == [] then l else
    StepKeepsValid(l, ops[0]);
    Run(Step(l, ops[0]), ops[1..])
  }

  // ------------------------------------------------------------------------ consequences

  /** A completed order has exactly one registration, a pending order none. */
  lemma OrderHasItsRegistration(l: Ledger, o: nat) returns (i: nat)
    requires Valid(l) && o in l.orders
    ensures IsItemOf(l.items, i, o) && forall j :: IsItemOf(l.items, j, o) ==> j == i
    ensures l.orders[o].status == Pending ==> forall r :: !IsRegOf(l.regs, r, i)
    ensures l.orders[o].status == Completed ==>
              exists r :: && IsRegOf(l.regs, r, i) && RegMatches(l.orders, l.items, l.regs[r])
                          && forall q :: IsRegOf(l.regs, q, i) ==> q == r
  {
    assert HasItem(l.items, o);
    i := ItemOf(l.items, o);
    if l.orders[o].status == Completed {
      assert IsComplete(l.orders, l.items, i);
      var r :| IsRegOf(l.regs, r, i);
      assert RegMatches(l.orders, l.items, l.regs[r]);
    } else {
      forall r ensures !IsRegOf(l.regs, r, i) {
        assert r in l.regs ==> RegMatches(l.orders, l.items, l.regs[r]);
      }
    }
  }

  /** The ticket can be bought for that session: the event is open and neither is full. */
  ghost predicate OnSale(l: Ledger, b: Basket, earlyBirdOpen: bool) {
    && b.ticketId in l.cat.tickets && b.sessionId in l.cat.sessions
    && var t, session := l.cat.tickets[b.ticketId], l.cat.sessions[b.sessionId];
       && session.eventId == t.eventId && t.eventId in l.cat.events && l.cat.events[t.eventId]
       && (t.earlyBird ==> earlyBirdOpen)
       && (t.total.Some? ==> |Holding(l.regs, l.items, b.ticketId)| < t.total.value)
       && (session.capacity.Some? ==>
             |set r | r in l.regs && l.regs[r].sessionId == b.sessionId && l.regs[r].status == Confirmed| < session.capacity.value)
  }

  lemma RefusedUnlessOnSale(l: Ledger, b: Basket, earlyBirdOpen: bool)
    requires SalesOk(l.cat.tickets, l.regs, l.items)
    ensures RefusalOf(l, b, earlyBirdOpen).None? <==> OnSale(l, b, earlyBirdOpen)
  {
    assert ConfirmedIn(l.regs, b.sessionId) == set r | r in l.regs && l.regs[r].sessionId == b.sessionId && l.regs[r].status == Confirmed;
  }

  /** The reason given for a refusal is true. */
  lemma RefusalIsTrue(l: Ledger, b: Basket, earlyBirdOpen: bool)
    requires SalesOk(l.cat.tickets, l.regs, l.items)
    ensures var r, c := RefusalOf(l, b, earlyBirdOpen), l.cat;
            r.Some? ==>
              match r.value
              case TicketNotFound => b.ticketId !in c.tickets
              case SessionInvalid => b.ticketId in c.tickets && (b.sessionId in c.sessions ==> c.sessions[b.sessionId].eventId != c.tickets[b.ticketId].eventId)
              case EventNotOpen => b.ticketId in c.tickets && (c.tickets[b.ticketId].eventId in c.events ==> !c.events[c.tickets[b.ticketId].eventId])
              case EarlyBirdOver => b.ticketId in c.tickets && c.tickets[b.ticketId].earlyBird && !earlyBirdOpen
              case SoldOut => b.ticketId in c.tickets && c.tickets[b.ticketId].total == Some(|Holding(l.regs, l.items, b.ticketId)|)
              case SessionFull =>
                && b.sessionId in c.sessions && c.sessions[b.sessionId].capacity.Some?
                && |set q | q in l.regs && l.regs[q].sessionId == b.sessionId && l.regs[q].status == Confirmed|
                   >= c.sessions[b.sessionId].capacity.value
              case _ => false
  {
    assert ConfirmedIn(l.regs, b.sessionId) == set q | q in l.regs && l.regs[q].sessionId == b.sessionId && l.regs[q].status == Confirmed;
  }

  /** An order is placed exactly when the ticket is on sale and a given code is usable. */
  lemma OrderIsPlacedIff(l: Ledger, userId: nat, b: Basket, picks: Picks, earlyBirdOpen: bool, now: int)
    requires Valid(l) && LookupOk(l.cat, b, picks)
    ensures CreateOrder(l, userId, b, picks, earlyBirdOpen, now).1 == Success(l.nextOrder)
            <==> && OnSale(l, b, earlyBirdOpen)
                 && (b.code.Some? && b.code.value != "" ==>
                       || (picks.event.Some? && IsUsable(l.cat.codes[picks.event.value], now))
                       || (picks.platform.Some? && IsUsable(l.cat.platform[picks.platform.value], now)))
  {
    RefusedUnlessOnSale(l, b, earlyBirdOpen);
  }

  /** Completion succeeds exactly when the order is pending and its ticket type still has a place. */
  lemma OrderCompletesIff(l: Ledger, o: nat, ticketCode: string, now: int)
    requires Valid(l)
    ensures CompleteOrder(l, o, ticketCode, now).1.Success? <==> exists i :: Completable(l, o, i, ticketCode)
  {
    if o in l.orders {
      assert HasItem(l.items, o);
      var i := ItemOf(l.items, o);
      assert forall j :: IsItemOf(l.items, j, o) ==> j == i;
      if CompleteOrder(l, o, ticketCode, now).1.Success? {
        assert Completable(l, o, i, ticketCode);
      }
    }
  }

  // What each call does to a registration that is no longer confirmed: nothing.

  lemma CreateSparesRegs(l: Ledger, userId: nat, b: Basket, picks: Picks, earlyBirdOpen: bool, now: int)
    ensures CreateOrder(l, userId, b, picks, earlyBirdOpen, now).0.regs == l.regs
  {
  }

  lemma CompleteSparesRegs(l: Ledger, o: nat, ticketCode: string, now: int, r: nat)
    requires LinksOk(l) && r in l.regs && r < l.nextReg
    ensures var l' := CompleteOrder(l, o, ticketCode, now).0; r in l'.regs && l'.regs[r] == l.regs[r]
  {
  }

  lemma CancelSparesSettled(l: Ledger, q: nat, r: nat)
    requires LinksOk(l) && r in l.regs && l.regs[r].status != Confirmed
    ensures var l' := CancelRegistration(l, q).0; r in l'.regs && l'.regs[r] == l.regs[r]
  {
  }

  lemma CheckInSparesSettled(l: Ledger, eventId: nat, ticketCode: string, staff: nat, now: int, r: nat)
    requires r in l.regs && l.regs[r].status != Confirmed
    ensures var l' := CheckIn(l, eventId, ticketCode, staff, now).0; r in l'.regs && l'.regs[r] == l.regs[r]
  {
    CheckInChecksInConfirmed(l, eventId, ticketCode, staff, now);
  }

  lemma SettledStep(l: Ledger, op: Op, r: nat)
    requires LinksOk(l) && r in l.regs && r < l.nextReg && l.regs[r].status != Confirmed
    ensures var l' := Step(l, op); r in l'.regs && l'.regs[r] == l.regs[r]
  {
    match op
    case Create(u, b, picks, early, now) => CreateSparesRegs(l, u, b, picks, early, now);
    case CompleteOp(o, code, now) => CompleteSparesRegs(l, o, code, now, r);
    case Cancel(q) => CancelSparesSettled(l, q, r);
    case CheckInOp(e, code, staff, now) => CheckInSparesSettled(l, e, code, staff, now, r);
    case Maintain(_) =>
  }

  /** A registration that has been cancelled or checked in never changes again. */
  lemma {:induction false} SettledForever(l: Ledger, ops: seq<Op>, r: nat)
    requires Valid(l) && r in l.regs && l.regs[r].status != Confirmed
    ensures var l' := Run(l, ops); r in l'.regs && l'.regs[r] == l.regs[r]
    decreases |ops|
  {
    if ops != [] {
      StepKeepsValid(l, ops[0]);
      SettledStep(l, ops[0], r);
      SettledForever(Step(l, ops[0]), ops[1..], r);
    }
  }

  lemma SettledIsRefused(l: Ledger, r: nat, eventId: nat, ticketCode: string, staff: nat, now: int)
    requires Valid(l) && r in l.regs && l.regs[r].ticketCode == ticketCode && l.regs[r].status != Confirmed
    ensures CheckIn(l, eventId, ticketCode, staff, now).1.Failure? && CancelRegistration(l, r).1 == Failure(NotConfirmed)
  {
    var found := FindReg(l.regs, eventId, ticketCode);
    assert found.Some? ==> found.value == r;
  }

  lemma CheckInSettles(l: Ledger, eventId: nat, ticketCode: string, staff: nat, now: int)
    requires CheckIn(l, eventId, ticketCode, staff, now).1.Success?
    ensures var (m, res) := CheckIn(l, eventId, ticketCode, staff, now);
            res.value in m.regs && m.regs[res.value].status == CheckedIn && m.regs[res.value].ticketCode == ticketCode
  {
  }

  /** A ticket admits at most once: after a check-in its code is refused in every later state, at
      every event, and the place can no longer be cancelled. */
  lemma TicketAdmitsOnce(l: Ledger, eventId: nat, ticketCode: string, staff: nat, now: int, ops: seq<Op>,
                         otherEvent: nat, otherStaff: nat, later: int)
    requires Valid(l) && CheckIn(l, eventId, ticketCode, staff, now).1.Success?
    ensures Valid(CheckIn(l, eventId, ticketCode, staff, now).0)
    ensures var (m, res) := CheckIn(l, eventId, ticketCode, staff, now);
            && CheckIn(Run(m, ops), otherEvent, ticketCode, otherStaff, later).1.Failure?
            && CancelRegistration(Run(m, ops), res.value).1 == Failure(NotConfirmed)
  {
    CheckInKeepsValid(l, eventId, ticketCode, staff, now);
    CheckInSettles(l, eventId, ticketCode, staff, now);
    var (m, res) := CheckIn(l, eventId, ticketCode, staff, now);
    SettledForever(m, ops, res.value);
    SettledIsRefused(Run(m, ops), res.value, otherEvent, ticketCode, otherStaff, later);
  }

  // ------------------------------------------------------------------ what the calls write

  /** The code an order stores, if any, names the given text, was good, and gave the discount it advertises. */
  ghost predicate IsCharged(c: Catalogue, o: Order, price: nat, eventId: nat, code: Option<string>, now: int) {
    match (o.codeId, o.platformId)
    case (None, None) => (code == None || code == Some("")) && o.discount == 0
    case (Some(id), None) =>
      && id in c.codes && c.codes[id].eventId == Some(eventId) && Some(c.codes[id].code) == code && IsGood(c.codes[id], now)
      && (0.0 <= c.codes[id].value ==> IsAdvertised(price, c.codes[id], o.discount))
    case (None, Some(id)) =>
      && id in c.platform && c.platform[id].eventId == None && Some(c.platform[id].code) == code && IsGood(c.platform[id], now)
      && (0.0 <= c.platform[id].value ==> IsAdvertised(price, c.platform[id], o.discount))
    case (Some(_), Some(_)) => false
  }

  lemma NewOrderIsCharged(l: Ledger, userId: nat, b: Basket, picks: Picks, now: int)
    requires b.ticketId in l.cat.tickets && LookupOk(l.cat, b, picks) && Lookup(l.cat, b.code, picks, now).Some?
    ensures var t, o := l.cat.tickets[b.ticketId], NewOrder(l, userId, b, Lookup(l.cat, b.code, picks, now).value);
            IsCharged(l.cat, o, t.price, t.eventId, b.code, now)
  {
    var t, f := l.cat.tickets[b.ticketId], Lookup(l.cat, b.code, picks, now).value;
    if !f.NoCode? {
      FoundCodeIsGood(l.cat.codes, l.cat.platform, t.eventId, b.code.value, picks, now);
      var c := if f.EventLevel? then l.cat.codes[f.id] else l.cat.platform[f.id];
      if 0.0 <= c.value {
        AmountIsAsAdvertised(t.price, c);
      }
    }
  }

  /** A new order stores its user, the event and price of the ticket, and the discount of its code; it
      is to be paid unless the ticket is free; its item names ticket and session. */
  lemma PlacementWrites(l: Ledger, userId: nat, b: Basket, picks: Picks, earlyBirdOpen: bool, now: int)
    requires LookupOk(l.cat, b, picks) && CreateOrder(l, userId, b, picks, earlyBirdOpen, now).1.Success?
    ensures var l', t := CreateOrder(l, userId, b, picks, earlyBirdOpen, now).0, l.cat.tickets[b.ticketId];
            && l'.cat == l.cat && l'.regs == l.regs
            && l.nextOrder in l'.orders && l'.orders == l.orders[l.nextOrder := l'.orders[l.nextOrder]]
            && l.nextItem in l'.items && l'.items == l.items[l.nextItem := l'.items[l.nextItem]]
            && var o, item := l'.orders[l.nextOrder], l'.items[l.nextItem];
               && o.userId == userId && o.eventId == t.eventId && o.status == Pending && o.completedAt == None
               && o.subtotal == t.price && o.total == t.price - o.discount
               && o.payment == (if t.pricing == Free then NotRequired else PaymentPending)
               && IsCharged(l.cat, o, t.price, t.eventId, b.code, now)
               && item == Item(l.nextOrder, b.ticketId, b.sessionId, 1, t.price, o.total)
  {
    NewOrderIsCharged(l, userId, b, picks, now);
  }

  /** A completion dates the order, settles its payment if one is due, counts the place and the code,
      and registers the user under the new ticket code; nothing else changes. */
  lemma CompletionWrites(l: Ledger, o: nat, ticketCode: string, now: int)
    requires Valid(l) && CompleteOrder(l, o, ticketCode, now).1.Success?
    ensures var (l', r) := CompleteOrder(l, o, ticketCode, now);
            && o in l.orders && o in l'.orders && r.value in l'.regs && r.value !in l.regs
            && var a, z, reg := l.orders[o], l'.orders[o], l'.regs[r.value];
               && l'.orders == l.orders[o := z] && l'.items == l.items && l'.regs == l.regs[r.value := reg]
               && z == a.(status := Completed, completedAt := Some(now), payment := z.payment)
               && z.payment == (if a.payment == NotRequired then NotRequired else SimulatedPaid)
               && reg.status == Confirmed && reg.ticketCode == ticketCode && reg.checkedInAt == None && reg.checkedInBy == None
               && RegMatches(l'.orders, l'.items, reg) && l.items[reg.itemId].orderId == o
  {
    CompleteShape(l, o, ticketCode, now);
    assert OrderMoneyOk(l.orders[o]);
    FreshIsMatched(l, o, ItemOf(l.items, o), ticketCode, now);
  }

  lemma FreshIsMatched(l: Ledger, o: nat, i: nat, ticketCode: string, now: int)
    requires Completable(l, o, i, ticketCode)
    ensures var m := Complete(l, o, i, ticketCode, now);
            l.nextReg in m.regs && RegMatches(m.orders, m.items, m.regs[l.nextReg]) && l.items[m.regs[l.nextReg].itemId].orderId == o
  {
  }

  /** A cancellation succeeds exactly for a confirmed registration, and changes its status and the
      number of places sold of its ticket type, nothing else. */
  lemma CancellationWrites(l: Ledger, r: nat)
    requires Valid(l)
    ensures var (l', res) := CancelRegistration(l, r);
            && (res.Success? <==> r in l.regs && l.regs[r].status == Confirmed)
            && (res.Failure? ==> l' == l)
            && (res.Success? ==>
                  var t := l.items[l.regs[r].itemId].ticketId;
                  && l'.regs == l.regs[r := l.regs[r].(status := Cancelled)]
                  && l'.cat.tickets == l.cat.tickets[t := l.cat.tickets[t].(sold := l.cat.tickets[t].sold - 1)]
                  && l'.cat == l.cat.(tickets := l'.cat.tickets) && l'.orders == l.orders && l'.items == l.items)
  {
    if r in l.regs && l.regs[r].status == Confirmed {
      CancelFreesOnePlace(l, r);
      CancelOfConfirmed(l, r);
    }
  }

  lemma FoundIffNamed(regs: RegRows, eventId: nat, ticketCode: string)
    requires TicketCodesUnique(regs)
    ensures forall r: nat :: FindReg(regs, eventId, ticketCode) == Some(r)
              <==> r in regs && regs[r].eventId == eventId && regs[r].ticketCode == ticketCode
  {
    forall r: nat ensures HasCode(regs, r, eventId, ticketCode) <==> FindReg(regs, eventId, ticketCode) == Some(r) {
    }
  }

  /** A ticket code admits exactly at the event of its confirmed registration; checking in records
      when and by whom, and changes nothing else. */
  lemma CheckInSucceedsIff(l: Ledger, eventId: nat, ticketCode: string, staff: nat, now: int)
    requires TicketCodesUnique(l.regs)
    ensures var (l', res) := CheckIn(l, eventId, ticketCode, staff, now);
            && (forall r :: res == Success(r) <==>
                  r in l.regs && l.regs[r].eventId == eventId && l.regs[r].ticketCode == ticketCode && l.regs[r].status == Confirmed)
            && (res.Failure? ==> l' == l)
            && (res.Success? ==>
                  && res.value in l.regs
                  && l' == l.(regs := l.regs[res.value := l.regs[res.value].(
                                        status := CheckedIn, checkedInAt := Some(now), checkedInBy := Some(staff))]))
  {
    FoundIffNamed(l.regs, eventId, ticketCode);
  }

  lemma MarkCancelledUndoesComplete(l: Ledger, o: nat, i: nat, ticketCode: string, now: int)
    requires o in l.orders && i in l.items && l.items[i].ticketId in l.cat.tickets && 0 <= l.cat.tickets[l.items[i].ticketId].sold
    ensures var m := Complete(l, o, i, ticketCode, now);
            var l' := MarkCancelled(m, l.nextReg, l.items[i].ticketId);
            && l'.cat.tickets == l.cat.tickets && l'.cat.codes == m.cat.codes && l'.cat.platform == m.cat.platform
            && l'.orders == m.orders && l'.items == m.items
  {
  }

  lemma FreshIsConfirmed(l: Ledger, o: nat, i: nat, ticketCode: string, now: int)
    requires Completable(l, o, i, ticketCode)
    ensures var m := Complete(l, o, i, ticketCode, now);
            l.nextReg in m.regs && m.regs[l.nextReg].status == Confirmed && m.regs[l.nextReg].itemId == i && m.items == l.items
  {
  }

  lemma CancelOfConfirmed(l: Ledger, r: nat)
    requires LinksOk(l) && r in l.regs && l.regs[r].status == Confirmed
    ensures CancelRegistration(l, r) == (MarkCancelled(l, r, l.items[l.regs[r].itemId].ticketId), Success(r))
  {
  }

  lemma SoldIsNatural(l: Ledger, t: nat)
    requires SalesOk(l.cat.tickets, l.regs, l.items) && t in l.cat.tickets
    ensures 0 <= l.cat.tickets[t].sold
  {
  }

  /** Cancelling the registration of a fresh completion gives the place back; the order stays
      completed and the code's use is not given back. */
  lemma CancelUndoesCompletion(l: Ledger, o: nat, ticketCode: string, now: int)
    requires Valid(l) && CompleteOrder(l, o, ticketCode, now).1.Success?
    ensures Valid(CompleteOrder(l, o, ticketCode, now).0)
    ensures var (m, r) := CompleteOrder(l, o, ticketCode, now);
            var (l', res) := CancelRegistration(m, r.value);
            && res == Success(r.value)
            && l'.cat.tickets == l.cat.tickets
            && l'.cat.codes == m.cat.codes && l'.cat.platform == m.cat.platform && l'.orders == m.orders
  {
    CompleteShape(l, o, ticketCode, now);
    CompleteKeepsValid(l, o, ticketCode, now);
    var i := ItemOf(l.items, o);
    var m := Complete(l, o, i, ticketCode, now);
    FreshIsConfirmed(l, o, i, ticketCode, now);
    CancelOfConfirmed(m, l.nextReg);
    SoldIsNatural(l, l.items[i].ticketId);
    MarkCancelledUndoesComplete(l, o, i, ticketCode, now);
  }
}
