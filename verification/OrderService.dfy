/** The order service as the program runs it: each call updates the rows one field at a time.
    Every method is tied to the ledger transition of module Orders that it implements. */
module OrderService {
  import opened Arithmetic
  import opened Discounts
  import opened Orders
  import opened Registrations
  import opened Wrappers

  class Database {
    var tickets: map<nat, Ticket>
    var sessions: map<nat, Session>
    var events: map<nat, bool>
    var codes: Table
    var platform: Table
    var orders: map<nat, Order>
    var items: map<nat, Item>
    var regs: map<nat, Registration>
    var nextOrder: nat
    var nextItem: nat
    var nextReg: nat

    ghost function State(): Ledger
      reads this
    {
      Ledger(Catalogue(tickets, sessions, events, codes, platform), orders, items, regs, nextOrder, nextItem, nextReg)
    }

    // What the updates below need of the stored rows; all of it follows from Orders.Valid(State()).

    ghost predicate OneItemPerOrder()
      reads this
    {
      forall i, j :: i in items && j in items && items[i].orderId == items[j].orderId ==> i == j
    }

    ghost predicate CodesKnown()
      reads this
    {
      forall o :: o in orders ==> CodeKnown(orders[o], EventCodes, codes) && CodeKnown(orders[o], PlatformCodes, platform)
    }

    lemma ValidSuffices()
      requires Valid(State())
      ensures LinksOk(State()) && OneItemPerOrder() && CodesKnown() && TicketCodesUnique(regs)
    {
    }

    constructor ()
      ensures Valid(State())
      ensures State() == Ledger(Catalogue(map[], map[], map[], map[], map[]), map[], map[], map[], 1, 1, 1)
    {
      tickets, sessions, events, codes, platform := map[], map[], map[], map[], map[];
      orders, items, regs := map[], map[], map[];
      nextOrder, nextItem, nextReg := 1, 1, 1;
    }

    /** The checks of create_order, one after the other. */
    method Refuse(b: Basket, earlyBirdOpen: bool) returns (r: Option<OrderError>)
      requires SalesOk(tickets, regs, items)
      ensures r == RefusalOf(State(), b, earlyBirdOpen)
      ensures r.None? <==> OnSale(State(), b, earlyBirdOpen)
    {
      RefusedUnlessOnSale(State(), b, earlyBirdOpen);
      if b.ticketId !in tickets {
        return Some(TicketNotFound);
      }
      var ticket := tickets[b.ticketId];
      if b.sessionId !in sessions || sessions[b.sessionId].eventId != ticket.eventId {
        return Some(SessionInvalid);
      }
      if ticket.eventId !in events || !events[ticket.eventId] {
        return Some(EventNotOpen);
      }
      if ticket.earlyBird && !earlyBirdOpen {
        return Some(EarlyBirdOver);
      }
      if ticket.total.Some? && ticket.sold >= ticket.total.value {
        return Some(SoldOut);
      }
      var capacity := sessions[b.sessionId].capacity;
      if capacity.Some? && |ConfirmedIn(regs, b.sessionId)| >= capacity.value {
        return Some(SessionFull);
      }
      r := None;
    }

    method FindCode(b: Basket, now: int) returns (f: Option<Found>, ghost picks: Picks)
      requires b.ticketId in tickets
      ensures LookupOk(State().cat, b, picks) && f == Lookup(State().cat, b.code, picks, now)
      ensures b.code.None? || b.code.value == "" ==> f == Some(NoCode)
      ensures f.Some? && f.value.EventLevel? ==>
                Matches(codes, f.value.id, Some(tickets[b.ticketId].eventId), b.code.value) && IsUsable(codes[f.value.id], now)
      ensures f.Some? && f.value.PlatformLevel? ==>
                Matches(platform, f.value.id, None, b.code.value) && IsUsable(platform[f.value.id], now)
    {
      if b.code.None? || b.code.value == "" {
        picks := AnyPicks(b);
        return Some(NoCode), picks;
      }
      var found;
      found, picks := FindDiscount(codes, platform, tickets[b.ticketId].eventId, b.code.value, now);
      f := if found.NoCode? then None else Some(found);
    }

    lemma AnyPicks(b: Basket) returns (picks: Picks)
      ensures LookupOk(State().cat, b, picks)
    {
      picks := Picks(None, None);
      if b.ticketId in tickets && b.code.Some? {
        SomeRowIsFirst(codes, Some(tickets[b.ticketId].eventId), b.code.value);
        SomeRowIsFirst(platform, None, b.code.value);
        var e :| IsFirst(codes, Some(tickets[b.ticketId].eventId), b.code.value, e);
        var p :| IsFirst(platform, None, b.code.value, p);
        picks := Picks(e, p);
      }
    }

    method PlaceOrder(userId: nat, b: Basket, earlyBirdOpen: bool, now: int)
      returns (r: Result<nat, OrderError>, ghost picks: Picks)
      requires Valid(State())
      modifies this
      ensures LookupOk(old(State().cat), b, picks)
      ensures (State(), r) == CreateOrder(old(State()), userId, b, picks, earlyBirdOpen, now)
      ensures Valid(State())
    {
      var refusal := Refuse(b, earlyBirdOpen);
      if refusal.Some? {
        picks := AnyPicks(b);
        return Failure(refusal.value), picks;
      }
      var f;
      f, picks := FindCode(b, now);
      if f.None? {
        return Failure(InvalidCode), picks;
      }
      r := Success(nextOrder);
      CreateKeepsValid(State(), userId, b, picks, earlyBirdOpen, now);
      var order := NewOrderRow(userId, b, f.value);
      Insert(order, b);
    }

    method ApplyCode(f: Found, subtotal: int) returns (discount: int, codeId: Option<nat>, platformId: Option<nat>)
      requires (f.EventLevel? ==> f.id in codes) && (f.PlatformLevel? ==> f.id in platform)
      ensures discount == DiscountOf(State().cat, f, subtotal)
      ensures codeId == (if f.EventLevel? then Some(f.id) else None) && platformId == if f.PlatformLevel? then Some(f.id) else None
    {
      discount, codeId, platformId := 0, None, None;
      match f {
        case NoCode =>
        case EventLevel(id) =>
          discount := DiscountAmount(subtotal, codes[id]);
          codeId := Some(id);
        case PlatformLevel(id) =>
          discount := DiscountAmount(subtotal, platform[id]);
          platformId := Some(id);
      }
    }

    method NewOrderRow(userId: nat, b: Basket, f: Found) returns (order: Order)
      requires b.ticketId in tickets && (f.EventLevel? ==> f.id in codes) && (f.PlatformLevel? ==> f.id in platform)
      ensures order == NewOrder(State(), userId, b, f)
    {
      var ticket := tickets[b.ticketId];
      var subtotal := ticket.price;
      var discount, codeId, platformId := ApplyCode(f, subtotal);
      var total := subtotal - discount;
      var payment := if ticket.pricing.Free? then NotRequired else PaymentPending;
      order := Order(userId, ticket.eventId, Pending, subtotal, discount, total, codeId, platformId, payment, None);
    }

    /** The updates of create_order. */
    method Insert(order: Order, b: Basket)
      modifies this`orders, this`items, this`nextOrder, this`nextItem
      ensures State() == Place(old(State()), order, b)
    {
      orders := orders[nextOrder := order];
      items := items[nextItem := Item(nextOrder, b.ticketId, b.sessionId, 1, order.subtotal, order.total)];
      nextOrder, nextItem := nextOrder + 1, nextItem + 1;
    }

    method CountUse(orderId: nat)
      requires orderId in orders
      requires CodeKnown(orders[orderId], EventCodes, codes) && CodeKnown(orders[orderId], PlatformCodes, platform)
      modifies this`codes, this`platform
      ensures codes == UseCode(old(codes), orders[orderId].codeId)
      ensures platform == UseCode(old(platform), orders[orderId].platformId)
    {
      var order := orders[orderId];
      if order.codeId.Some? {
        var c := order.codeId.value;
        codes := codes[c := codes[c].(usesCount := codes[c].usesCount + 1)];
      }
      if order.platformId.Some? {
        var c := order.platformId.value;
        platform := platform[c := platform[c].(usesCount := platform[c].usesCount + 1)];
      }
    }

    method FinishOrder(orderId: nat, ticketCode: string, now: int) returns (r: Result<nat, OrderError>)
      requires Valid(State())
      modifies this
      ensures (State(), r) == CompleteOrder(old(State()), orderId, ticketCode, now)
      ensures Valid(State())
    {
      ValidSuffices();
      CompleteKeepsValid(State(), orderId, ticketCode, now);
      if orderId !in orders {
        return Failure(OrderNotFound);
      }
      if orders[orderId].status != Pending {
        return Failure(NotPending);
      }
      assert HasItem(items, orderId);
      var itemId :| itemId in items && IsItemOf(items, itemId, orderId);
      var ticket := tickets[items[itemId].ticketId];
      if ticket.total.Some? && ticket.sold >= ticket.total.value {
        return Failure(SoldOut);
      }
      if IsTaken(regs, ticketCode) {
        return Failure(TicketCodeTaken);
      }
      r := Success(nextReg);
      Record(orderId, itemId, ticketCode, now);
    }

    method MarkPaid(orderId: nat, now: int)
      requires orderId in orders
      modifies this`orders
      ensures orders == old(orders)[orderId := CompletedOrder(old(orders)[orderId], now)]
    {
      if orders[orderId].payment == PaymentPending {
        orders := orders[orderId := orders[orderId].(payment := SimulatedPaid)];
      }
      orders := orders[orderId := orders[orderId].(status := Completed)];
      orders := orders[orderId := orders[orderId].(completedAt := Some(now))];
    }

    /** The updates of complete_order. */
    method Record(orderId: nat, itemId: nat, ticketCode: string, now: int)
      requires orderId in orders && itemId in items && items[itemId].ticketId in tickets && CodesKnown()
      modifies this
      ensures State() == Complete(old(State()), orderId, itemId, ticketCode, now)
    {
      var ticketId := items[itemId].ticketId;
      tickets := tickets[ticketId := tickets[ticketId].(sold := tickets[ticketId].sold + 1)];
      MarkPaid(orderId, now);
      CountUse(orderId);
      Register(orderId, itemId, ticketCode);
    }

    method Register(orderId: nat, itemId: nat, ticketCode: string)
      requires orderId in orders && itemId in items
      modifies this`regs, this`nextReg
      ensures regs == old(regs)[old(nextReg) := Registration(itemId, orders[orderId].userId, orders[orderId].eventId,
                                                             items[itemId].sessionId, Confirmed, ticketCode, None, None)]
      ensures nextReg == old(nextReg) + 1
    {
      var order := orders[orderId];
      regs := regs[nextReg := Registration(itemId, order.userId, order.eventId, items[itemId].sessionId, Confirmed, ticketCode, None, None)];
      nextReg := nextReg + 1;
    }

    method CancelPlace(regId: nat) returns (r: Result<nat, OrderError>)
      requires Valid(State())
      modifies this`regs, this`tickets
      ensures (State(), r) == CancelRegistration(old(State()), regId)
      ensures Valid(State())
    {
      CancelKeepsValid(State(), regId);
      if regId !in regs {
        return Failure(RegistrationNotFound);
      }
      if regs[regId].status != Confirmed {
        return Failure(NotConfirmed);
      }
      FreePlace(regId);
      r := Success(regId);
    }

    /** The updates of cancel_registration. */
    method FreePlace(regId: nat)
      requires regId in regs && regs[regId].itemId in items && items[regs[regId].itemId].ticketId in tickets
      modifies this`regs, this`tickets
      ensures State() == MarkCancelled(old(State()), regId, items[old(regs)[regId].itemId].ticketId)
    {
      regs := regs[regId := regs[regId].(status := Cancelled)];
      var ticketId := items[regs[regId].itemId].ticketId;
      tickets := tickets[ticketId := tickets[ticketId].(sold := Max(0, tickets[ticketId].sold - 1))];
    }

    method FindRegistration(eventId: nat, ticketCode: string) returns (found: Option<nat>)
      requires TicketCodesUnique(regs)
      ensures found == FindReg(regs, eventId, ticketCode)
    {
      if id :| id in regs && HasCode(regs, id, eventId, ticketCode) {
        found := Some(id);
      } else {
        found := None;
      }
    }

    method CheckInTicket(eventId: nat, ticketCode: string, staff: nat, now: int) returns (r: Result<nat, OrderError>)
      requires Valid(State())
      modifies this`regs
      ensures (State(), r) == CheckIn(old(State()), eventId, ticketCode, staff, now)
      ensures Valid(State())
    {
      ValidSuffices();
      CheckInKeepsValid(State(), eventId, ticketCode, staff, now);
      var found := FindRegistration(eventId, ticketCode);
      if found.None? {
        return Failure(UnknownTicketCode);
      }
      var regId := found.value;
      if regs[regId].status == Cancelled {
        return Failure(AlreadyCancelled);
      }
      if regs[regId].status == CheckedIn {
        return Failure(AlreadyCheckedIn);
      }
      Admit(regId, staff, now);
      r := Success(regId);
    }

    /** The updates of check_in_registration. */
    method Admit(regId: nat, staff: nat, now: int)
      requires regId in regs
      modifies this`regs
      ensures State() == MarkCheckedIn(old(State()), regId, staff, now)
    {
      regs := regs[regId := regs[regId].(status := CheckedIn)];
      regs := regs[regId := regs[regId].(checkedInAt := Some(now))];
      regs := regs[regId := regs[regId].(checkedInBy := Some(staff))];
    }
  }
}
