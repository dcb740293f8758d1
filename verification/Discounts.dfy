/** Discount codes on two levels: backend/app/services/discount_service.py. */
module Discounts {
  import opened Arithmetic
  import opened Rounding
  import opened Wrappers

  datatype Kind = Percent | Fixed

  /** A row of either table; `eventId` is None for a platform-wide code. */
  datatype Code = Code(eventId: Option<nat>, code: string, kind: Kind, value: real,
                       maxUses: Option<nat>, usesCount: nat,
                       validFrom: Option<int>, validUntil: Option<int>, active: bool)

  type Table = map<nat, Code>

  predicate Exhausted(c: Code) {
    c.maxUses.Some? && c.usesCount >= c.maxUses.value
  }

  predicate IsUsable(c: Code, now: int) {
    && c.active
    && (c.validFrom.Some? ==> c.validFrom.value <= now)
    && (c.validUntil.Some? ==> now <= c.validUntil.value)
    && !Exhausted(c)
  }

  predicate Matches(t: Table, id: nat, eventId: Option<nat>, code: string) {
    id in t && t[id].eventId == eventId && t[id].code == code
  }

  /** What a lookup may return: some matching row, unspecified when there are several. */
  predicate IsFirst(t: Table, eventId: Option<nat>, code: string, r: Option<nat>) {
    if r.Some? then Matches(t, r.value, eventId, code) else forall id :: id in t ==> !Matches(t, id, eventId, code)
  }

  method First(t: Table, eventId: Option<nat>, code: string) returns (r: Option<nat>)
    ensures IsFirst(t, eventId, code, r)
  {
    if id :| id in t && Matches(t, id, eventId, code) {
      r := Some(id);
    } else {
      r := None;
    }
  }

  /** The rows the two lookups return. */
  datatype Picks = Picks(event: Option<nat>, platform: Option<nat>)

  predicate PicksOk(events: Table, platform: Table, eventId: nat, code: string, picks: Picks) {
    IsFirst(events, Some(eventId), code, picks.event) && IsFirst(platform, None, code, picks.platform)
  }

  datatype Found = NoCode | EventLevel(id: nat) | PlatformLevel(id: nat)

  function FindValidDiscount(events: Table, platform: Table, picks: Picks, now: int): Found {
    var e, p := picks.event, picks.platform;
    if e.Some? && e.value in events && IsUsable(events[e.value], now) then EventLevel(e.value) else
    if p.Some? && p.value in platform && IsUsable(platform[p.value], now) then PlatformLevel(p.value) else NoCode
  }

  lemma SomeRowIsFirst(t: Table, eventId: Option<nat>, code: string)
    ensures exists r :: IsFirst(t, eventId, code, r)
  {
    assert IsFirst(t, eventId, code, None) || exists id :: id in t && Matches(t, id, eventId, code);
    if id :| id in t && Matches(t, id, eventId, code) {
      assert IsFirst(t, eventId, code, Some(id));
    }
  }

  /** A lookup on this level can come back without a usable row. */
  predicate MayMiss(t: Table, eventId: Option<nat>, code: string, now: int) {
    IsFirst(t, eventId, code, None) || exists id :: id in t && Matches(t, id, eventId, code) && !IsUsable(t[id], now)
  }

  /** The platform table is consulted only when the event level yields no usable code. */
  method FindDiscount(events: Table, platform: Table, eventId: nat, code: string, now: int)
    returns (f: Found, ghost picks: Picks)
    ensures PicksOk(events, platform, eventId, code, picks)
    ensures f == FindValidDiscount(events, platform, picks, now)
    ensures f.EventLevel? ==> Matches(events, f.id, Some(eventId), code) && IsUsable(events[f.id], now)
    ensures f.PlatformLevel? ==> Matches(platform, f.id, None, code) && IsUsable(platform[f.id], now)
    ensures !f.EventLevel? ==> MayMiss(events, Some(eventId), code, now)
    ensures f.NoCode? ==> MayMiss(platform, None, code, now)
  {
    var e := First(events, Some(eventId), code);
    if e.Some? && IsUsable(events[e.value], now) {
      SomeRowIsFirst(platform, None, code);
      ghost var any :| IsFirst(platform, None, code, any);
      return EventLevel(e.value), Picks(e, any);
    }
    var p := First(platform, None, code);
    f := if p.Some? && IsUsable(platform[p.value], now) then PlatformLevel(p.value) else NoCode;
    picks := Picks(e, p);
  }

  /** Where a code names at most one row per level, a code is found exactly when some level has it
      usable, and the event's own code takes precedence. */
  lemma LookupIsComplete(events: Table, platform: Table, eventId: nat, code: string, picks: Picks, now: int)
    requires PicksOk(events, platform, eventId, code, picks)
    requires forall a, b :: Matches(events, a, Some(eventId), code) && Matches(events, b, Some(eventId), code) ==> a == b
    requires forall a, b :: Matches(platform, a, None, code) && Matches(platform, b, None, code) ==> a == b
    ensures forall id :: FindValidDiscount(events, platform, picks, now) == EventLevel(id)
              <==> Matches(events, id, Some(eventId), code) && IsUsable(events[id], now)
    ensures forall id :: FindValidDiscount(events, platform, picks, now) == PlatformLevel(id)
              <==> && Matches(platform, id, None, code) && IsUsable(platform[id], now)
                   && forall e :: Matches(events, e, Some(eventId), code) ==> !IsUsable(events[e], now)
  {
    var e, p := picks.event, picks.platform;
    assert forall id: nat :: Matches(events, id, Some(eventId), code) <==> e == Some(id);
    assert forall id: nat :: Matches(platform, id, None, code) <==> p == Some(id);
  }

  /** `value` per cent of the subtotal, before rounding. */
  function Share(subtotal: int, value: real): real {
    subtotal as real * value / 100.0
  }

  function RawAmount(subtotal: int, c: Code): int {
    match c.kind
    case Percent => RoundHalfEven(Share(subtotal, c.value))
    case Fixed => RoundHalfEven(c.value)
  }

  function DiscountAmount(subtotal: int, c: Code): (d: int)
    ensures 0 <= subtotal ==> 0 <= d <= subtotal
  {
    Max(0, Min(RawAmount(subtotal, c), subtotal))
  }

  lemma ProductIsMonotone(a: real, b: real, v: real)
    requires a <= b && 0.0 <= v
    ensures a * v <= b * v
  {
    assert (b - a) * v >= 0.0;
  }

  lemma ShareGrows(s: int, t: int, v: real, w: real)
    requires 0 <= s <= t && v <= w && (s == t || 0.0 <= v)
    ensures Share(s, v) <= Share(t, w)
  {
    if 0.0 <= v {
      ProductIsMonotone(s as real, t as real, v);
    }
    ProductIsMonotone(v, w, t as real);
    assert s as real * v <= t as real * v <= t as real * w;
  }

  lemma PartOfIncrease(d: real, v: real)
    requires 0.0 < d && v < 100.0
    ensures d * v / 100.0 < d
  {
    assert d * v < 100.0 * d;
  }

  lemma ProductSplits(x: real, y: real, d: real, v: real)
    requires y == x + d
    ensures y * v == x * v + d * v
  {
  }

  lemma AddPart(p: real, q: real, r: real, d: real)
    requires p == q + r && r / 100.0 < d
    ensures p / 100.0 < q / 100.0 + d
  {
  }

  lemma PartOfSumGrowsSlowly(x: real, y: real, d: real, v: real)
    requires 0.0 < d && v < 100.0 && y == x + d
    ensures y * v / 100.0 < x * v / 100.0 + d
  {
    PartOfIncrease(d, v);
    ProductSplits(x, y, d, v);
    AddPart(y * v, x * v, d * v, d);
  }

  /** A share of less than the whole grows by less than the subtotal does. */
  lemma ShareGrowsSlowly(s: int, t: int, v: real)
    requires 0 <= s < t && 0.0 <= v < 100.0
    ensures Share(t, v) < Share(s, v) + (t - s) as real
  {
    PartOfSumGrowsSlowly(s as real, t as real, (t - s) as real, v);
  }

  lemma ClampIsMonotone(a: int, b: int, s: int, t: int)
    requires a <= b && s <= t
    ensures Max(0, Min(a, s)) <= Max(0, Min(b, t))
  {
  }

  /** A dearer ticket never gets a smaller discount. */
  lemma DiscountGrowsWithSubtotal(s: int, t: int, c: Code)
    requires 0 <= s <= t && 0.0 <= c.value
    ensures DiscountAmount(s, c) <= DiscountAmount(t, c)
  {
    ShareGrows(s, t, c.value, c.value);
    RoundIsMonotone(Share(s, c.value), Share(t, c.value));
    ClampIsMonotone(RawAmount(s, c), RawAmount(t, c), s, t);
  }

  /** A larger code value never gives a smaller discount. */
  lemma DiscountGrowsWithValue(s: int, c: Code, d: Code)
    requires 0 <= s && c.kind == d.kind && c.value <= d.value
    ensures DiscountAmount(s, c) <= DiscountAmount(s, d)
  {
    ShareGrows(s, s, c.value, d.value);
    RoundIsMonotone(Share(s, c.value), Share(s, d.value));
    RoundIsMonotone(c.value, d.value);
    ClampIsMonotone(RawAmount(s, c), RawAmount(s, d), s, s);
  }

  /** Despite rounding, the price left to pay never falls when the ticket gets dearer. */
  lemma PriceLeftGrowsWithSubtotal(s: int, t: int, c: Code)
    requires 0 <= s <= t && 0.0 <= c.value
    ensures s - DiscountAmount(s, c) <= t - DiscountAmount(t, c)
  {
    if c.kind.Percent? && s < t {
      ShareGrows(0, s, c.value, c.value);
      RoundIsMonotone(Share(0, c.value), Share(s, c.value));
      if c.value < 100.0 {
        ShareGrowsSlowly(s, t, c.value);
        RoundGrowsSlowly(Share(s, c.value), Share(t, c.value), t - s);
      } else {
        ShareGrows(s, s, 100.0, c.value);
        RoundIsMonotone(Share(s, 100.0), Share(s, c.value));
      }
    }
  }

  /** What is a discount of `d` on the subtotal by this code: a percentage of the subtotal or a fixed
      amount, each to the nearest unit and never more than the subtotal. */
  predicate IsAdvertised(subtotal: int, c: Code, d: int) {
    match c.kind
    case Percent => if 100.0 <= c.value then d == subtotal else -0.5 <= d as real - subtotal as real * c.value / 100.0 <= 0.5
    case Fixed => if subtotal as real <= c.value then d == subtotal else -0.5 <= d as real - c.value <= 0.5
  }

  lemma ShareIsPart(subtotal: int, v: real)
    requires 0 <= subtotal && 0.0 <= v <= 100.0
    ensures 0.0 <= Share(subtotal, v) <= subtotal as real
  {
    ProductIsMonotone(0.0, subtotal as real, v);
    ProductIsMonotone(v, 100.0, subtotal as real);
  }

  lemma ClampIsIdle(a: int, subtotal: int)
    requires 0 <= a <= subtotal
    ensures Max(0, Min(a, subtotal)) == a
  {
  }

  lemma PercentIsShare(subtotal: int, c: Code)
    requires 0 <= subtotal && c.kind.Percent? && 0.0 <= c.value <= 100.0
    ensures -0.5 <= DiscountAmount(subtotal, c) as real - subtotal as real * c.value / 100.0 <= 0.5
  {
    ShareIsPart(subtotal, c.value);
    RoundIsMonotone(0.0, Share(subtotal, c.value));
    RoundIsMonotone(Share(subtotal, c.value), subtotal as real);
    assert RoundHalfEven(subtotal as real) == subtotal && RoundHalfEven(0.0) == 0;
    ClampIsIdle(RoundHalfEven(Share(subtotal, c.value)), subtotal);
  }

  lemma FixedIsValue(subtotal: int, c: Code)
    requires 0 <= subtotal && c.kind.Fixed? && 0.0 <= c.value
    ensures if subtotal as real <= c.value then DiscountAmount(subtotal, c) == subtotal
            else -0.5 <= DiscountAmount(subtotal, c) as real - c.value <= 0.5
  {
    RoundIsMonotone(0.0, c.value);
    assert RoundHalfEven(subtotal as real) == subtotal && RoundHalfEven(0.0) == 0;
    if subtotal as real <= c.value {
      RoundIsMonotone(subtotal as real, c.value);
    } else {
      RoundIsMonotone(c.value, subtotal as real);
    }
  }

  /** The amount means what the kind of the code says. */
  lemma AmountIsAsAdvertised(subtotal: int, c: Code)
    requires 0 <= subtotal && 0.0 <= c.value
    ensures IsAdvertised(subtotal, c, DiscountAmount(subtotal, c))
  {
    if c.kind.Fixed? {
      FixedIsValue(subtotal, c);
    } else if c.value < 100.0 {
      PercentIsShare(subtotal, c);
    } else {
      ShareGrows(subtotal, subtotal, 100.0, c.value);
      assert Share(subtotal, 100.0) == subtotal as real;
      RoundIsMonotone(Share(subtotal, 100.0), Share(subtotal, c.value));
      assert RoundHalfEven(subtotal as real) == subtotal;
    }
  }

  /** What makes a code good at a time: it is switched on, the time lies in its span, and it has a use left. */
  predicate IsGood(c: Code, now: int) {
    && c.active
    && (c.validFrom == None || c.validFrom.value <= now) && (c.validUntil == None || now <= c.validUntil.value)
    && (c.maxUses == None || c.usesCount < c.maxUses.value)
  }

  /** A code that the lookup yields names the given text, belongs to the event or to the platform, and is good. */
  lemma FoundCodeIsGood(events: Table, platform: Table, eventId: nat, code: string, picks: Picks, now: int)
    requires PicksOk(events, platform, eventId, code, picks)
    ensures var f := FindValidDiscount(events, platform, picks, now);
            match f
            case NoCode => true
            case EventLevel(id) =>
              id in events && events[id].eventId == Some(eventId) && events[id].code == code && IsGood(events[id], now)
            case PlatformLevel(id) =>
              id in platform && platform[id].eventId == None && platform[id].code == code && IsGood(platform[id], now)
  {
  }

  /** A good code that is the only one of its text is found, the event's own before the platform's. */
  lemma GoodCodeIsFound(events: Table, platform: Table, eventId: nat, code: string, picks: Picks, now: int, id: nat)
    requires PicksOk(events, platform, eventId, code, picks)
    ensures && id in events && events[id].eventId == Some(eventId) && events[id].code == code && IsGood(events[id], now)
            && (forall j :: j in events && events[j].eventId == Some(eventId) && events[j].code == code ==> j == id)
            ==> FindValidDiscount(events, platform, picks, now) == EventLevel(id)
    ensures && id in platform && platform[id].eventId == None && platform[id].code == code && IsGood(platform[id], now)
            && (forall j :: j in platform && platform[j].eventId == None && platform[j].code == code ==> j == id)
            && (forall j :: j in events && events[j].eventId == Some(eventId) && events[j].code == code ==> !IsGood(events[j], now))
            ==> FindValidDiscount(events, platform, picks, now) == PlatformLevel(id)
  {
    assert forall j: nat :: Matches(events, j, Some(eventId), code)
             <==> j in events && events[j].eventId == Some(eventId) && events[j].code == code;
    assert forall j: nat :: Matches(platform, j, None, code)
             <==> j in platform && platform[j].eventId == None && platform[j].code == code;
  }
}
