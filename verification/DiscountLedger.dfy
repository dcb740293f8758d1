/** The uses of discount codes over runs of the order service: backend/app/services/order_service.py. */
module DiscountLedger {
  import opened Discounts
  import opened Orders
  import opened Wrappers

  // ------------------------------------------------------------------ what one step does

  predicate SameOrdersAndCodes(l: Ledger, l': Ledger) {
    l'.orders == l.orders && l'.cat.codes == l.cat.codes && l'.cat.platform == l.cat.platform
  }

  lemma CancelSparesOrders(l: Ledger, r: nat)
    requires LinksOk(l)
    ensures SameOrdersAndCodes(l, CancelRegistration(l, r).0)
  {
  }

  lemma CheckInSparesOrders(l: Ledger, eventId: nat, ticketCode: string, staff: nat, now: int)
    ensures SameOrdersAndCodes(l, CheckIn(l, eventId, ticketCode, staff, now).0)
  {
    CheckInChecksInConfirmed(l, eventId, ticketCode, staff, now);
  }

  /** A step that completes an order carrying the code. */
  ghost predicate Uses(l: Ledger, op: Op, level: Level, c: nat)
    requires LinksOk(l)
  {
    && op.CompleteOp? && CompleteOrder(l, op.order, op.ticketCode, op.now).1.Success?
    && op.order in l.orders && CodeOf(l.orders[op.order], level) == Some(c)
  }

  lemma UsesAfterCompletion(l: Ledger, o: nat, i: nat, ticketCode: string, now: int, level: Level, c: nat)
    requires o in l.orders && i in l.items && l.items[i].ticketId in l.cat.tickets && c in CodesAt(l.cat, level)
    ensures var codes, codes' := CodesAt(l.cat, level), CodesAt(Complete(l, o, i, ticketCode, now).cat, level);
            && c in codes'
            && codes'[c] == codes[c].(usesCount := codes[c].usesCount + (if CodeOf(l.orders[o], level) == Some(c) then 1 else 0))
  {
  }

  /** Only the use count of a code ever changes: it counts exactly the steps that use the code. */
  lemma UsesAfterStep(l: Ledger, op: Op, level: Level, c: nat)
    requires LinksOk(l) && c in CodesAt(l.cat, level)
    ensures var codes, codes' := CodesAt(l.cat, level), CodesAt(Step(l, op).cat, level);
            && c in codes'
            && codes'[c] == codes[c].(usesCount := codes[c].usesCount + (if Uses(l, op, level, c) then 1 else 0))
  {
    match op
    case Create(_, _, _, _, _) =>
    case CompleteOp(o, code, now) =>
      CompleteShape(l, o, code, now);
      if CompleteOrder(l, o, code, now).1.Success? {
        UsesAfterCompletion(l, o, ItemOf(l.items, o), code, now, level, c);
      }
    case Cancel(r) => CancelSparesOrders(l, r);
    case CheckInOp(e, code, staff, now) => CheckInSparesOrders(l, e, code, staff, now);
    case Maintain(_) =>
  }

  // ------------------------------------------------------------------ exhausted codes

  /** Uses made and uses still promised by pending orders. */
  ghost function Committed(l: Ledger, level: Level, c: nat): int
    requires c in CodesAt(l.cat, level)
  {
    CodesAt(l.cat, level)[c].usesCount + |WithCode(l.orders, level, c, Pending)|
  }

  ghost predicate IsExhausted(l: Ledger, level: Level, c: nat) {
    c in CodesAt(l.cat, level) && Exhausted(CodesAt(l.cat, level)[c])
  }

  lemma CreateSparesExhausted(
      l: Ledger, userId: nat, b: Basket, picks: Picks, earlyBirdOpen: bool, now: int, level: Level, c: nat)
    requires l.nextOrder !in l.orders && IsExhausted(l, level, c)
    ensures var l' := CreateOrder(l, userId, b, picks, earlyBirdOpen, now).0;
            l'.cat == l.cat && WithCode(l'.orders, level, c, Pending) == WithCode(l.orders, level, c, Pending)
  {
    if CreateOrder(l, userId, b, picks, earlyBirdOpen, now).1.Success? {
      NewOrderIsOk(l, userId, b, picks, now);
    }
  }

  lemma CompleteKeepsPromises(l: Ledger, o: nat, ticketCode: string, now: int, level: Level, c: nat)
    requires LinksOk(l) && CompleteOrder(l, o, ticketCode, now).1.Success?
    ensures o in l.orders
    ensures |WithCode(CompleteOrder(l, o, ticketCode, now).0.orders, level, c, Pending)|
            == |WithCode(l.orders, level, c, Pending)| - (if CodeOf(l.orders[o], level) == Some(c) then 1 else 0)
  {
    CompleteShape(l, o, ticketCode, now);
    UsesAfterCompleting(l.orders, level, o, CompletedOrder(l.orders[o], now), c);
  }

  lemma ExhaustedStep(l: Ledger, op: Op, level: Level, c: nat)
    requires LinksOk(l) && l.nextOrder !in l.orders && IsExhausted(l, level, c)
    ensures var l' := Step(l, op); IsExhausted(l', level, c) && Committed(l', level, c) == Committed(l, level, c)
  {
    UsesAfterStep(l, op, level, c);
    match op
    case Create(u, b, picks, early, now) => CreateSparesExhausted(l, u, b, picks, early, now, level, c);
    case CompleteOp(o, code, now) =>
      CompleteShape(l, o, code, now);
      if CompleteOrder(l, o, code, now).1.Success? {
        CompleteKeepsPromises(l, o, code, now, level, c);
      }
    case Cancel(r) => CancelSparesOrders(l, r);
    case CheckInOp(e, code, staff, now) => CheckInSparesOrders(l, e, code, staff, now);
    case Maintain(_) =>
  }

  /** Once a code has reached its maximum, uses plus pending orders with the code never change again,
      so the final overrun is at most the orders that were already pending. */
  lemma {:induction false} ExhaustedCodeIsFrozen(l: Ledger, ops: seq<Op>, level: Level, c: nat)
    requires Valid(l) && IsExhausted(l, level, c)
    ensures var l' := Run(l, ops);
            && IsExhausted(l', level, c)
            && Committed(l', level, c) == Committed(l, level, c)
            && CodesAt(l'.cat, level)[c].usesCount <= Committed(l, level, c)
    decreases |ops|
  {
    if ops != [] {
      StepKeepsValid(l, ops[0]);
      ExhaustedStep(l, ops[0], level, c);
      ExhaustedCodeIsFrozen(Step(l, ops[0]), ops[1..], level, c);
    }
  }

  // ------------------------------------------------------------------ when the maximum holds

  ghost predicate WithinCap(l: Ledger, level: Level, c: nat) {
    c in CodesAt(l.cat, level)
    && var code := CodesAt(l.cat, level)[c];
       code.maxUses.Some? ==> code.usesCount <= code.maxUses.value
  }

  /** A step that completes an order carrying the code while the code is exhausted. */
  ghost predicate Overuses(l: Ledger, op: Op, level: Level, c: nat)
    requires LinksOk(l)
  {
    Uses(l, op, level, c) && IsExhausted(l, level, c)
  }

  /** One step keeps a code within its maximum if and only if it does not overuse it. */
  lemma CapHoldsIff(l: Ledger, op: Op, level: Level, c: nat)
    requires LinksOk(l) && WithinCap(l, level, c)
    ensures WithinCap(Step(l, op), level, c) <==> !Overuses(l, op, level, c)
  {
    UsesAfterStep(l, op, level, c);
  }

  ghost predicate NeverOveruses(l: Ledger, ops: seq<Op>, level: Level, c: nat)
    requires Valid(l)
    decreases |ops|
  {
    ops == []
    || (!Overuses(l, ops[0], level, c)
        && (StepKeepsValid(l, ops[0]); NeverOveruses(Step(l, ops[0]), ops[1..], level, c)))
  }

  ghost predicate AlwaysWithinCap(l: Ledger, ops: seq<Op>, level: Level, c: nat)
    requires Valid(l)
    decreases |ops|
  {
    WithinCap(l, level, c)
    && (ops == [] || (StepKeepsValid(l, ops[0]); AlwaysWithinCap(Step(l, ops[0]), ops[1..], level, c)))
  }

  lemma {:induction false} OverrunLasts(l: Ledger, ops: seq<Op>, level: Level, c: nat)
    requires Valid(l) && c in CodesAt(l.cat, level) && !WithinCap(l, level, c)
    ensures !WithinCap(Run(l, ops), level, c)
    decreases |ops|
  {
    if ops != [] {
      StepKeepsValid(l, ops[0]);
      UsesAfterStep(l, ops[0], level, c);
      OverrunLasts(Step(l, ops[0]), ops[1..], level, c);
    }
  }

  /** In every run the maximum of a code holds, throughout and at the end, if and only if no step of
      the run completes an order that carries the code while the code is exhausted. */
  lemma {:induction false} MaxUsesHoldsIffNeverOverused(l: Ledger, ops: seq<Op>, level: Level, c: nat)
    requires Valid(l) && WithinCap(l, level, c)
    ensures AlwaysWithinCap(l, ops, level, c) <==> NeverOveruses(l, ops, level, c)
    ensures WithinCap(Run(l, ops), level, c) <==> NeverOveruses(l, ops, level, c)
    decreases |ops|
  {
    if ops != [] {
      StepKeepsValid(l, ops[0]);
      CapHoldsIff(l, ops[0], level, c);
      if Overuses(l, ops[0], level, c) {
        UsesAfterStep(l, ops[0], level, c);
        OverrunLasts(Step(l, ops[0]), ops[1..], level, c);
      } else {
        MaxUsesHoldsIffNeverOverused(Step(l, ops[0]), ops[1..], level, c);
      }
    }
  }

  // ------------------------------------------------------------------ a run that exceeds it

  const Empty: Ledger := Ledger(Catalogue(map[], map[], map[], map[], map[]), map[], map[], map[], 1, 1, 1)

  const Coupon: Code := Code(Some(1), "OFF", Percent, 10.0, Some(1), 0, None, None, true)

  /** One published event with one session, two places and a code that may be used once. */
  const Sale: Catalogue := Catalogue(map[1 := Ticket(1, 100, Paid, Some(2), 0, false)], map[1 := Session(1, None)],
                                     map[1 := true], map[1 := Coupon], map[])

  const Choice: Basket := Basket(1, 1, Some("OFF"))

  const Pick: Picks := Picks(Some(1), None)

  lemma RunCons(l: Ledger, op: Op, ops: seq<Op>)
    requires Valid(l)
    ensures Valid(Step(l, op)) && Run(l, [op] + ops) == Run(Step(l, op), ops)
  {
    StepKeepsValid(l, op);
    assert ([op] + ops)[1..] == ops;
  }

  /** An order of the choice, carrying the coupon. */
  predicate IsChoice(o: Order) {
    o.status == Pending && o.codeId == Some(1) && o.platformId == None
  }

  lemma ChoiceIsPlaced(l: Ledger, userId: nat) returns (o: Order)
    requires l.cat == Sale && l.regs == map[]
    ensures IsChoice(o) && LookupOk(l.cat, Choice, Pick)
    ensures CreateOrder(l, userId, Choice, Pick, true, 0).0 == Place(l, o, Choice)
  {
    assert IsUsable(Coupon, 0);
    assert RefusalOf(l, Choice, true) == None;
    o := NewOrder(l, userId, Choice, EventLevel(1));
  }

  /** Two orders for the sale, both placed before either is completed. */
  function TwoOrders(a: Order, b: Order): Ledger {
    Place(Place(Empty.(cat := Sale), a, Choice), b, Choice)
  }

  lemma FirstCompletes(a: Order, b: Order)
    requires IsChoice(a) && IsChoice(b) && Valid(TwoOrders(a, b))
    ensures CompleteOrder(TwoOrders(a, b), 1, "A", 0).0 == Complete(TwoOrders(a, b), 1, 1, "A", 0)
    ensures Uses(TwoOrders(a, b), CompleteOp(1, "A", 0), EventCodes, 1)
  {
    var l := TwoOrders(a, b);
    assert IsItemOf(l.items, 1, 1) && forall i :: IsItemOf(l.items, i, 1) ==> i == 1;
    assert Completable(l, 1, 1, "A");
    OrderCompletesIff(l, 1, "A", 0);
    CompleteShape(l, 1, "A", 0);
  }

  lemma SecondIsCompletable(a: Order, b: Order)
    requires IsChoice(a) && IsChoice(b)
    ensures Completable(Complete(TwoOrders(a, b), 1, 1, "A", 0), 2, 2, "B")
  {
    var l := TwoOrders(a, b);
    var m := Complete(l, 1, 1, "A", 0);
    assert IsItemOf(m.items, 2, 2);
    assert m.regs.Keys == {1} && m.regs[1].ticketCode == "A";
    assert "A"[0] != "B"[0];
  }

  lemma SecondCompletes(a: Order, b: Order)
    requires IsChoice(a) && IsChoice(b) && Valid(Complete(TwoOrders(a, b), 1, 1, "A", 0))
    ensures Uses(Complete(TwoOrders(a, b), 1, 1, "A", 0), CompleteOp(2, "B", 0), EventCodes, 1)
  {
    SecondIsCompletable(a, b);
    OrderCompletesIff(Complete(TwoOrders(a, b), 1, 1, "A", 0), 2, "B", 0);
  }

  lemma EmptyIsValid()
    ensures Valid(Empty)
  {
  }

  /** The empty ledger, the sale, and two orders for it. */
  function TwoOrdersThen(ops: seq<Op>): seq<Op> {
    [Maintain(Sale)] + ([Create(1, Choice, Pick, true, 0)] + ([Create(2, Choice, Pick, true, 0)] + ops))
  }

  function Completions(): seq<Op> {
    [CompleteOp(1, "A", 0)] + ([CompleteOp(2, "B", 0)] + [])
  }

  lemma OneIsPlaced(l: Ledger, userId: nat, ops: seq<Op>) returns (o: Order)
    requires Valid(l) && l.cat == Sale && l.regs == map[]
    ensures IsChoice(o) && Valid(Place(l, o, Choice))
    ensures Run(l, [Create(userId, Choice, Pick, true, 0)] + ops) == Run(Place(l, o, Choice), ops)
  {
    o := ChoiceIsPlaced(l, userId);
    RunCons(l, Create(userId, Choice, Pick, true, 0), ops);
  }

  lemma SaleIsAllowed()
    ensures MaintenanceOk(Empty.cat, Sale)
  {
  }

  lemma MaintainIs(l: Ledger, cat: Catalogue)
    requires LinksOk(l) && MaintenanceOk(l.cat, cat)
    ensures Step(l, Maintain(cat)) == l.(cat := cat)
  {
  }

  lemma SaleOpens(ops: seq<Op>)
    ensures Valid(Empty) && Valid(Empty.(cat := Sale))
    ensures Run(Empty, [Maintain(Sale)] + ops) == Run(Empty.(cat := Sale), ops)
  {
    EmptyIsValid();
    SaleIsAllowed();
    MaintainIs(Empty, Sale);
    RunCons(Empty, Maintain(Sale), ops);
  }

  lemma BothArePlaced(ops: seq<Op>) returns (a: Order, b: Order)
    ensures IsChoice(a) && IsChoice(b) && Valid(Empty) && Valid(TwoOrders(a, b))
    ensures Run(Empty, TwoOrdersThen(ops)) == Run(TwoOrders(a, b), ops)
  {
    var second := [Create(2, Choice, Pick, true, 0)] + ops;
    SaleOpens([Create(1, Choice, Pick, true, 0)] + second);
    a := OneIsPlaced(Empty.(cat := Sale), 1, second);
    b := OneIsPlaced(Place(Empty.(cat := Sale), a, Choice), 2, ops);
  }

  lemma CouponIsUsed(l: Ledger, op: Op, ops: seq<Op>)
    requires Valid(l) && 1 in l.cat.codes && Uses(l, op, EventCodes, 1)
    ensures Valid(Step(l, op)) && Run(l, [op] + ops) == Run(Step(l, op), ops)
    ensures 1 in Step(l, op).cat.codes
    ensures Step(l, op).cat.codes[1] == l.cat.codes[1].(usesCount := l.cat.codes[1].usesCount + 1)
  {
    RunCons(l, op, ops);
    UsesAfterStep(l, op, EventCodes, 1);
  }

  lemma BothComplete(a: Order, b: Order)
    requires IsChoice(a) && IsChoice(b) && Valid(TwoOrders(a, b))
    ensures var codes := Run(TwoOrders(a, b), Completions()).cat.codes; 1 in codes && codes[1] == Coupon.(usesCount := 2)
  {
    var l, second := TwoOrders(a, b), CompleteOp(2, "B", 0);
    FirstCompletes(a, b);
    CouponIsUsed(l, CompleteOp(1, "A", 0), [second] + []);
    SecondCompletes(a, b);
    CouponIsUsed(Complete(l, 1, 1, "A", 0), second, []);
  }

  /** `maxUses` is not a hard cap: two orders placed while one use is left can both be completed. */
  lemma CompletionIgnoresMaxUses()
    ensures Valid(Empty)
    ensures var codes := Run(Empty, TwoOrdersThen(Completions())).cat.codes;
            1 in codes && codes[1].maxUses == Some(1) && codes[1].usesCount == 2
  {
    var a, b := BothArePlaced(Completions());
    BothComplete(a, b);
  }
}
