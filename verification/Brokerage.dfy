/** Order execution: average-cost positions and buying power. */
module Brokerage {
  import opened Prelude
  import opened Money
  import opened RealArithmetic

  // ---------------------------------------------------------------------------------------------
  // One position
  // ---------------------------------------------------------------------------------------------

  datatype Position = Position(
    portfolioId: int, symbol: string, shares: real, costBasis: real, currentValue: real, realizedGains: real)

  datatype Side = Buy | Sell

  datatype Fill = Fill(side: Side, quantity: real, price: real)

  function Gross(price: real, quantity: real): real {
    price * quantity
  }

  function Amount(f: Fill): real {
    Gross(f.price, f.quantity)
  }

  function AverageCost(p: Position): real {
    if p.shares > 0.0 then p.costBasis / p.shares else 0.0
  }

  function NewPosition(portfolioId: int, symbol: string, f: Fill): Position {
    Position(portfolioId, symbol, f.quantity, Amount(f), Amount(f), 0.0)
  }

  /** What is held before the fill that creates a position. */
  function Nothing(portfolioId: int, symbol: string): Position {
    Position(portfolioId, symbol, 0.0, 0.0, 0.0, 0.0)
  }

  function Bought(p: Position, f: Fill): Position {
    p.(shares := p.shares + f.quantity,
       costBasis := p.costBasis + Amount(f),
       currentValue := Gross(p.shares + f.quantity, f.price))
  }

  function Sold(p: Position, f: Fill): Position {
    var average := AverageCost(p);
    p.(shares := p.shares - f.quantity,
       costBasis := p.costBasis - Gross(average, f.quantity),
       currentValue := Gross(p.shares - f.quantity, f.price),
       realizedGains := p.realizedGains + Gross(f.price - average, f.quantity))
  }

  /** A position after a run of fills. */
  function Held(origin: Position, fills: seq<Fill>): Position {
    if fills == [] then origin
    else
      var n := |fills| - 1;
      var p := Held(origin, fills[..n]);
      if fills[n].side.Buy? then Bought(p, fills[n]) else Sold(p, fills[n])
  }

  /** Total of `price * quantity`, and of `quantity`, over the fills of one side. */
  function Value(side: Side, fills: seq<Fill>): real {
    if fills == [] then 0.0
    else
      var f := fills[|fills| - 1];
      Value(side, fills[..|fills| - 1]) + if f.side == side then Amount(f) else 0.0
  }

  function Quantity(side: Side, fills: seq<Fill>): real {
    if fills == [] then 0.0
    else
      var f := fills[|fills| - 1];
      Quantity(side, fills[..|fills| - 1]) + if f.side == side then f.quantity else 0.0
  }

  lemma FillMovesAmount(p: Position, f: Fill)
    ensures Bought(p, f).costBasis - Bought(p, f).realizedGains == p.costBasis - p.realizedGains + Amount(f)
    ensures Sold(p, f).costBasis - Sold(p, f).realizedGains == p.costBasis - p.realizedGains - Amount(f)
    ensures Bought(p, f).shares == p.shares + f.quantity && Sold(p, f).shares == p.shares - f.quantity
  {
    var a := AverageCost(p);
    hide AverageCost;
    assert (f.price - a) * f.quantity == Amount(f) - a * f.quantity;
  }

  /** Cost basis plus proceeds grows by purchases plus realized gains, and shares by those bought less those sold. */
  lemma {:induction false} PositionLedger(origin: Position, fills: seq<Fill>)
    ensures var p := Held(origin, fills);
      && p.costBasis - origin.costBasis + Value(Sell, fills) == Value(Buy, fills) + (p.realizedGains - origin.realizedGains)
      && p.shares - origin.shares == Quantity(Buy, fills) - Quantity(Sell, fills)
  {
    hide Bought, Sold, Amount;
    if fills != [] {
      var n := |fills| - 1;
      PositionLedger(origin, fills[..n]);
      FillMovesAmount(Held(origin, fills[..n]), fills[n]);
    }
  }

  /** A position is created as if its first fill had been bought on top of nothing. */
  lemma CreatedFromNothing(portfolioId: int, symbol: string, f: Fill)
    ensures NewPosition(portfolioId, symbol, f) == Bought(Nothing(portfolioId, symbol), f)
  {
    hide Gross;
    GrossCommutes(f.quantity, f.price);
  }

  /** The current value is the shares held at the latest fill price. */
  lemma ValuedAtLatestPrice(origin: Position, fills: seq<Fill>)
    requires fills != []
    ensures Held(origin, fills).currentValue == Gross(Held(origin, fills).shares, fills[|fills| - 1].price)
  {
    hide AverageCost, Gross;
  }

  // What the sells of a run realize and take off the cost, each at the average cost held just before it.

  function UnitCostHeld(origin: Position, fills: seq<Fill>, k: nat): real
    requires k <= |fills|
  {
    var p := Held(origin, fills[..k]);
    if p.shares > 0.0 then p.costBasis / p.shares else 0.0
  }

  function Realized(origin: Position, fills: seq<Fill>, n: nat): real
    requires n <= |fills|
  {
    if n == 0 then 0.0
    else
      var f := fills[n - 1];
      Realized(origin, fills, n - 1)
      + if f.side.Sell? then Gross(f.price - UnitCostHeld(origin, fills, n - 1), f.quantity) else 0.0
  }

  function CostSold(origin: Position, fills: seq<Fill>, n: nat): real
    requires n <= |fills|
  {
    if n == 0 then 0.0
    else
      var f := fills[n - 1];
      CostSold(origin, fills, n - 1) + if f.side.Sell? then Gross(UnitCostHeld(origin, fills, n - 1), f.quantity) else 0.0
  }

  /** The two sums, and the value bought, over a run with one more fill. */
  lemma SumsOfPrefix(origin: Position, fills: seq<Fill>, n: nat)
    requires n < |fills|
    ensures Held(origin, fills[..n + 1]) ==
            if fills[n].side.Buy? then Bought(Held(origin, fills[..n]), fills[n]) else Sold(Held(origin, fills[..n]), fills[n])
    ensures Value(Buy, fills[..n + 1]) == Value(Buy, fills[..n]) + if fills[n].side.Buy? then Amount(fills[n]) else 0.0
    ensures UnitCostHeld(origin, fills, n) == AverageCost(Held(origin, fills[..n]))
  {
    hide Bought, Sold, Amount;
    assert fills[..n + 1][..n] == fills[..n];
  }

  /**
   * Gains are realized at sells alone, each time the quantity at the price less the average cost held
   * just before; and the cost basis is all that was bought less the average cost of what was sold.
   */
  lemma {:induction false} GainsComeFromSales(origin: Position, fills: seq<Fill>, n: nat)
    requires n <= |fills|
    ensures var p := Held(origin, fills[..n]);
      && p.realizedGains - origin.realizedGains == Realized(origin, fills, n)
      && p.costBasis - origin.costBasis == Value(Buy, fills[..n]) - CostSold(origin, fills, n)
  {
    if n > 0 {
      GainsComeFromSales(origin, fills, n - 1);
      SumsOfPrefix(origin, fills, n - 1);
      hide Held, AverageCost, UnitCostHeld, Gross, Value;
    }
  }

  /** So buys alone realize nothing, and the cost basis grows by exactly the value bought. */
  lemma {:induction false} BuysOnlyAddCost(origin: Position, fills: seq<Fill>, n: nat)
    requires n <= |fills| && forall f <- fills :: f.side.Buy?
    ensures Realized(origin, fills, n) == CostSold(origin, fills, n) == Value(Sell, fills[..n]) == 0.0
    ensures var p := Held(origin, fills[..n]);
      p.realizedGains == origin.realizedGains && p.costBasis == origin.costBasis + Value(Buy, fills[..n])
  {
    if n > 0 {
      BuysOnlyAddCost(origin, fills, n - 1);
      assert fills[..n][..n - 1] == fills[..n - 1];
      hide Held;
    }
    GainsComeFromSales(origin, fills, n);
  }

  /** The average cost moves at buys alone: to the mean of the old one and the price, weighted by shares. */
  lemma BuyAveragesCost(p: Position, f: Fill)
    requires p.shares > 0.0 && f.quantity >= 0.0
    ensures Gross(AverageCost(Bought(p, f)), p.shares + f.quantity) == Gross(AverageCost(p), p.shares) + Gross(f.price, f.quantity)
    ensures AverageCost(p) <= f.price ==> AverageCost(p) <= AverageCost(Bought(p, f)) <= f.price
    ensures f.price <= AverageCost(p) ==> f.price <= AverageCost(Bought(p, f)) <= AverageCost(p)
  {
    var before, after := AverageCost(p), AverageCost(Bought(p, f));
    assert before * p.shares == p.costBasis;
    assert after * (p.shares + f.quantity) == p.costBasis + Amount(f);
    WeightedMean(before, p.shares, f.price, f.quantity, after);
  }

  lemma WeightedMean(x: real, a: real, y: real, b: real, mean: real)
    requires a > 0.0 && b >= 0.0 && mean * (a + b) == x * a + y * b
    ensures x <= y ==> x <= mean <= y
    ensures y <= x ==> y <= mean <= x
  {
    assert (mean - x) * (a + b) == (y - x) * b;
    assert (y - mean) * (a + b) == (y - x) * a;
    SameSign(mean - x, a + b, y - x, b);
    SameSign(y - mean, a + b, y - x, a);
  }

  lemma SameSign(u: real, c: real, v: real, d: real)
    requires c > 0.0 && d >= 0.0 && u * c == v * d
    ensures v >= 0.0 ==> u >= 0.0
    ensures v <= 0.0 ==> u <= 0.0
  {
    if v >= 0.0 {
      assert v * d >= 0.0;
    } else {
      assert -v * d >= 0.0;
    }
  }

  lemma GrossCommutes(x: real, y: real)
    ensures Gross(x, y) == Gross(y, x)
  {
  }

  /** A partial sale keeps the average cost; selling everything brings the cost basis to exactly 0;
      selling more leaves cost basis 0 only if the position cost nothing. */
  lemma SalePreservesAverageCost(p: Position, f: Fill)
    requires p.shares > 0.0
    ensures f.quantity < p.shares ==> Sold(p, f).shares > 0.0 && AverageCost(Sold(p, f)) == AverageCost(p)
    ensures Sold(p, f).costBasis == 0.0 <==> f.quantity == p.shares || p.costBasis == 0.0
  {
    var a := AverageCost(p);
    var s := p.shares - f.quantity;
    assert a * p.shares == p.costBasis;
    assert Sold(p, f).costBasis == a * s;
    if f.quantity < p.shares {
      assert a * s / s == a;
    }
  }

  /** When a position is closed out, what it realized is proceeds less purchases and less what it had cost before. */
  lemma FullLiquidationRealizesAll(origin: Position, fills: seq<Fill>)
    requires fills != [] && fills[|fills| - 1].side.Sell?
    requires var p := Held(origin, fills[..|fills| - 1]);
      p.shares > 0.0 && fills[|fills| - 1].quantity == p.shares
    ensures var p := Held(origin, fills);
      && p.shares == 0.0 && p.costBasis == 0.0
      && p.realizedGains - origin.realizedGains == Value(Sell, fills) - Value(Buy, fills) - origin.costBasis
  {
    PositionLedger(origin, fills);
    SalePreservesAverageCost(Held(origin, fills[..|fills| - 1]), fills[|fills| - 1]);
  }

  // ---------------------------------------------------------------------------------------------
  // The list of positions refines one ledger per portfolio and symbol
  // ---------------------------------------------------------------------------------------------

  datatype Key = Key(portfolioId: int, symbol: string)

  datatype KeyedFill = KeyedFill(key: Key, fill: Fill)

  function KeyOf(p: Position): Key {
    Key(p.portfolioId, p.symbol)
  }

  function ApplyFill(book: seq<Position>, k: KeyedFill): seq<Position> {
    var i := FirstWith(book, KeyOf, k.key);
    if k.fill.side.Buy? then
      if i < |book| then book[i := Bought(book[i], k.fill)]
      else book + [NewPosition(k.key.portfolioId, k.key.symbol, k.fill)]
    else if i == |book| then book
    else
      var p := Sold(book[i], k.fill);
      if p.shares <= 0.0 then book[..i] + book[i + 1..] else book[i := p]
  }

  /** The book after a run of fills over a book that may already hold positions. */
  function RunFills(book: seq<Position>, kfs: seq<KeyedFill>): seq<Position> {
    if kfs == [] then book else ApplyFill(RunFills(book, kfs[..|kfs| - 1]), kfs[|kfs| - 1])
  }

  /** A position that was there, or nothing if it was created, and the fills on it since, the creating one included. */
  datatype Life = Life(origin: Position, fills: seq<Fill>)

  /** The life of the present position of `key`, if there is one. */
  ghost function Lifetime(book: seq<Position>, kfs: seq<KeyedFill>, key: Key): Option<Life> {
    if kfs == [] then if Lookup(book, key).Some? then Some(Life(Lookup(book, key).value, [])) else None
    else
      var life, k := Lifetime(book, kfs[..|kfs| - 1], key), kfs[|kfs| - 1];
      if k.key != key then life
      else if k.fill.side.Buy? then
        if life.None? then Some(Life(Nothing(key.portfolioId, key.symbol), [k.fill]))
        else Some(Life(life.value.origin, life.value.fills + [k.fill]))
      else if life.None? || Held(life.value.origin, life.value.fills).shares - k.fill.quantity <= 0.0 then None
      else Some(Life(life.value.origin, life.value.fills + [k.fill]))
  }

  ghost predicate UniqueKeys(book: seq<Position>) {
    forall i, j :: 0 <= i < j < |book| ==> KeyOf(book[i]) != KeyOf(book[j])
  }

  ghost function Lookup(book: seq<Position>, key: Key): Option<Position> {
    if FirstWith(book, KeyOf, key) < |book| then Some(book[FirstWith(book, KeyOf, key)]) else None
  }

  lemma LookupUnique(book: seq<Position>, key: Key, i: nat)
    requires UniqueKeys(book) && i < |book| && KeyOf(book[i]) == key
    ensures Lookup(book, key) == Some(book[i])
  {
  }

  lemma LookupAbsent(book: seq<Position>, key: Key)
    requires forall i: nat :: i < |book| ==> KeyOf(book[i]) != key
    ensures Lookup(book, key) == None
  {
  }

  lemma FillKeepsKeysUnique(book: seq<Position>, k: KeyedFill)
    requires UniqueKeys(book)
    ensures UniqueKeys(ApplyFill(book, k))
  {
    KeysKept(book, k);
    hide Bought, Sold, NewPosition;
  }

  ghost predicate Removes(book: seq<Position>, k: KeyedFill) {
    var i := FirstWith(book, KeyOf, k.key);
    i < |book| && k.fill.side.Sell? && Sold(book[i], k.fill).shares <= 0.0
  }

  lemma FillLeavesOtherKeys(book: seq<Position>, k: KeyedFill, key: Key)
    requires UniqueKeys(book) && k.key != key
    ensures Lookup(ApplyFill(book, k), key) == Lookup(book, key)
  {
    FillKeepsKeysUnique(book, k);
    KeysKept(book, k);
    hide Bought, Sold, NewPosition, UniqueKeys, Lookup;
    var i, j, after := FirstWith(book, KeyOf, k.key), FirstWith(book, KeyOf, key), ApplyFill(book, k);
    if j < |book| {
      LookupUnique(book, key, j);
      LookupUnique(after, key, if Removes(book, k) && j > i then j - 1 else j);
    } else {
      LookupAbsent(book, key);
      LookupAbsent(after, key);
    }
  }

  /** A fill changes the entry of its own key only, and keys stay unique. */
  lemma FillChangesOwnKey(book: seq<Position>, k: KeyedFill, key: Key)
    requires UniqueKeys(book)
    ensures UniqueKeys(ApplyFill(book, k))
    ensures Lookup(ApplyFill(book, k), key) ==
            if k.key != key then Lookup(book, key)
            else
              match Lookup(book, key)
              case None => if k.fill.side.Buy? then Some(NewPosition(key.portfolioId, key.symbol, k.fill)) else None
              case Some(p) =>
                if k.fill.side.Buy? then Some(Bought(p, k.fill))
                else if Sold(p, k.fill).shares <= 0.0 then None
                else Some(Sold(p, k.fill))
  {
    FillKeepsKeysUnique(book, k);
    if k.key != key {
      FillLeavesOtherKeys(book, k, key);
    } else {
      FillUpdatesKey(book, k);
    }
    hide Bought, Sold, NewPosition, UniqueKeys, ApplyFill;
  }

  lemma FillUpdatesKey(book: seq<Position>, k: KeyedFill)
    requires UniqueKeys(book)
    ensures var i, after := FirstWith(book, KeyOf, k.key), Lookup(ApplyFill(book, k), k.key);
      if i == |book| then
        after == if k.fill.side.Buy? then Some(NewPosition(k.key.portfolioId, k.key.symbol, k.fill)) else None
      else
        after == if k.fill.side.Buy? then Some(Bought(book[i], k.fill))
                 else if Removes(book, k) then None else Some(Sold(book[i], k.fill))
  {
    FillKeepsKeysUnique(book, k);
    KeysKept(book, k);
    hide Bought, Sold, NewPosition, UniqueKeys, Lookup;
    var i, after := FirstWith(book, KeyOf, k.key), ApplyFill(book, k);
    if (i == |book| && k.fill.side.Sell?) || Removes(book, k) {
      AllOthers(book, k.key);
      LookupAbsent(after, k.key);
    } else {
      LookupUnique(after, k.key, i);
    }
  }

  lemma AllOthers(book: seq<Position>, key: Key)
    requires UniqueKeys(book)
    ensures forall j: nat :: j < |book| && j != FirstWith(book, KeyOf, key) ==> KeyOf(book[j]) != key
  {
  }

  lemma KeysKept(book: seq<Position>, k: KeyedFill)
    ensures forall p <- book :: KeyOf(Bought(p, k.fill)) == KeyOf(p) && KeyOf(Sold(p, k.fill)) == KeyOf(p)
    ensures KeyOf(NewPosition(k.key.portfolioId, k.key.symbol, k.fill)) == k.key
  {
  }

  lemma HeldGrows(origin: Position, fills: seq<Fill>, f: Fill)
    ensures Held(origin, fills + [f]) == if f.side.Buy? then Bought(Held(origin, fills), f) else Sold(Held(origin, fills), f)
  {
    hide Bought, Sold;
    assert (fills + [f])[..|fills|] == fills;
  }

  /** Whatever the interleaving of fills on other keys, each position is the ledger of its own lifetime. */
  lemma {:induction false} BookIsLedgers(book: seq<Position>, kfs: seq<KeyedFill>, key: Key)
    requires UniqueKeys(book)
    ensures UniqueKeys(RunFills(book, kfs))
    ensures var life := Lifetime(book, kfs, key);
      Lookup(RunFills(book, kfs), key) == if life.None? then None else Some(Held(life.value.origin, life.value.fills))
  {
    hide Bought, ApplyFill, UniqueKeys, Lookup, Held;
    if kfs == [] {
      if Lookup(book, key).Some? {
        HeldStart(Lookup(book, key).value);
      }
    } else {
      var before, k := kfs[..|kfs| - 1], kfs[|kfs| - 1];
      BookIsLedgers(book, before, key);
      FillChangesOwnKey(RunFills(book, before), k, key);
      var life := Lifetime(book, before, key);
      if life.Some? {
        HeldGrows(life.value.origin, life.value.fills, k.fill);
      }
      if k.fill.side.Buy? {
        HeldFirst(key, k.fill);
      }
    }
  }

  lemma HeldStart(origin: Position)
    ensures Held(origin, []) == origin
  {
  }

  lemma HeldFirst(key: Key, f: Fill)
    requires f.side.Buy?
    ensures Held(Nothing(key.portfolioId, key.symbol), [f]) == NewPosition(key.portfolioId, key.symbol, f)
  {
    CreatedFromNothing(key.portfolioId, key.symbol, f);
    HeldGrows(Nothing(key.portfolioId, key.symbol), [], f);
    assert [] + [f] == [f];
    hide Bought, NewPosition, Gross;
  }

  /** The fills on one key. */
  function FillsOn(kfs: seq<KeyedFill>, key: Key): seq<Fill> {
    if kfs == [] then []
    else
      var k := kfs[|kfs| - 1];
      FillsOn(kfs[..|kfs| - 1], key) + if k.key == key then [k.fill] else []
  }

  /** A life begins with a stored position or with nothing and a buy, and holds the latest of `all` fills on its key. */
  ghost predicate Begins(book: seq<Position>, key: Key, all: seq<Fill>, life: Life) {
    var o, fills := life.origin, life.fills;
    && |fills| <= |all| && all[|all| - |fills|..] == fills
    && (if o == Nothing(key.portfolioId, key.symbol) && fills != [] && fills[0].side.Buy? then true
        else Lookup(book, key) == Some(o) && fills == all)
  }

  lemma LifeGoesOn(book: seq<Position>, key: Key, all: seq<Fill>, life: Life, f: Fill)
    requires Begins(book, key, all, life)
    ensures Begins(book, key, all + [f], Life(life.origin, life.fills + [f]))
  {
    hide Lookup;
    var n := |all| - |life.fills|;
    assert (all + [f])[n..] == all[n..] + [f];
  }

  lemma LifeStarts(book: seq<Position>, key: Key, all: seq<Fill>, f: Fill)
    requires f.side.Buy?
    ensures Begins(book, key, all + [f], Life(Nothing(key.portfolioId, key.symbol), [f]))
  {
    hide Lookup;
    assert (all + [f])[|all|..] == [f];
  }

  lemma StoredLifeStarts(book: seq<Position>, key: Key)
    ensures Lookup(book, key).Some? ==> Begins(book, key, [], Life(Lookup(book, key).value, []))
  {
    hide Lookup;
  }

  lemma {:induction false} LivesBegin(book: seq<Position>, kfs: seq<KeyedFill>, key: Key)
    ensures Lifetime(book, kfs, key).Some? ==> Begins(book, key, FillsOn(kfs, key), Lifetime(book, kfs, key).value)
  {
    hide Lookup, Held, Begins;
    if kfs == [] {
      StoredLifeStarts(book, key);
    } else {
      var before, k := kfs[..|kfs| - 1], kfs[|kfs| - 1];
      LivesBegin(book, before, key);
      var life, all := Lifetime(book, before, key), FillsOn(before, key);
      assert all + [] == all;
      if life.Some? {
        LifeGoesOn(book, key, all, life.value, k.fill);
      }
      if k.fill.side.Buy? {
        LifeStarts(book, key, all, k.fill);
      }
    }
  }

  /**
   * What a listed position holds, from the fill that created it on, that fill included: shares bought
   * less sold, gains realized at its sells, and the value bought less the average cost of what was
   * sold. A position that was there before adds the same to what it held.
   */
  lemma ListedPositionIs(book: seq<Position>, kfs: seq<KeyedFill>, key: Key)
    requires UniqueKeys(book) && Lookup(RunFills(book, kfs), key).Some?
    ensures Lifetime(book, kfs, key).Some?
    ensures var p, life := Lookup(RunFills(book, kfs), key).value, Lifetime(book, kfs, key).value;
      var o, fills := life.origin, life.fills;
      && Begins(book, key, FillsOn(kfs, key), life)
      && p.shares == o.shares + Quantity(Buy, fills) - Quantity(Sell, fills)
      && p.realizedGains == o.realizedGains + Realized(o, fills, |fills|)
      && p.costBasis == o.costBasis + Value(Buy, fills) - CostSold(o, fills, |fills|)
      && (fills != [] ==> p.currentValue == Gross(p.shares, fills[|fills| - 1].price))
  {
    hide *;
    BookIsLedgers(book, kfs, key);
    LivesBegin(book, kfs, key);
    HeldIs(Lifetime(book, kfs, key).value.origin, Lifetime(book, kfs, key).value.fills);
  }

  lemma HeldIs(o: Position, fills: seq<Fill>)
    ensures var p := Held(o, fills);
      && p.shares == o.shares + Quantity(Buy, fills) - Quantity(Sell, fills)
      && p.realizedGains == o.realizedGains + Realized(o, fills, |fills|)
      && p.costBasis == o.costBasis + Value(Buy, fills) - CostSold(o, fills, |fills|)
      && (fills != [] ==> p.currentValue == Gross(p.shares, fills[|fills| - 1].price))
  {
    hide *;
    PositionLedger(o, fills);
    assert fills[..|fills|] == fills;
    GainsComeFromSales(o, fills, |fills|);
    if fills != [] {
      ValuedAtLatestPrice(o, fills);
    }
  }

  // ---------------------------------------------------------------------------------------------
  // Orders and buying power
  // ---------------------------------------------------------------------------------------------

  datatype OrderType = Market | Limit | Other

  datatype OrderData = OrderData(
    accountId: int, symbol: string, crypto: bool, orderType: OrderType, side: Side, quantity: real, limitPrice: Option<real>)

  datatype Account = Account(id: int, userId: int, buyingPower: real, balance: real)

  datatype Portfolio = Portfolio(id: int, accountId: int)

  datatype OrderError = AccountNotFound | InsufficientBuyingPower

  datatype Order = Order(id: nat, data: OrderData, commission: real, filled: bool, filledQuantity: real, fillPrice: Option<real>)

  /** The two prices a symbol is quoted at on a given day, from its unrounded price `raw` that day. */
  function LastPrice(raw: real): real {
    Round2(raw)
  }

  function AskPrice(raw: real): real {
    Round2(raw * 1.001)
  }

  function Commission(o: OrderData): real {
    if o.crypto then o.quantity * 0.01 else 0.0
  }

  function EstimatedCost(o: OrderData, raw: real): real {
    var price :=
      if o.orderType.Market? then AskPrice(raw)
      else if o.orderType.Limit? && o.limitPrice.Some? && o.limitPrice.value != 0.0 then o.limitPrice.value
      else LastPrice(raw);
    Gross(price, o.quantity) + Commission(o)
  }

  /** What the fill of a market order moves between cash and position. */
  function FillCost(o: OrderData, raw: real): real {
    Gross(LastPrice(raw), o.quantity) + Commission(o)
  }

  function OwnedKey(a: Account): (int, int) {
    (a.id, a.userId)
  }

  function AccountKey(a: Account): int {
    a.id
  }

  function PortfolioKey(p: Portfolio): int {
    p.accountId
  }

  /** Buys need the estimate as buying power; sells are accepted whatever is held. */
  function Refusal(accounts: seq<Account>, userId: int, o: OrderData, raw: real): Option<OrderError> {
    var i := FirstWith(accounts, OwnedKey, (o.accountId, userId));
    if i == |accounts| then Some(AccountNotFound)
    else if o.side.Buy? && EstimatedCost(o, raw) > accounts[i].buyingPower then Some(InsufficientBuyingPower)
    else None
  }

  function Settle(a: Account, o: OrderData, raw: real): Account {
    if !o.orderType.Market? then a
    else if o.side.Buy? then a.(buyingPower := a.buyingPower - FillCost(o, raw), balance := a.balance - FillCost(o, raw))
    else a.(buyingPower := a.buyingPower + FillCost(o, raw), balance := a.balance + FillCost(o, raw))
  }

  /** The accounts after one call of `place_order`. */
  function Placed(accounts: seq<Account>, userId: int, o: OrderData, raw: real): seq<Account> {
    var i := FirstWith(accounts, AccountKey, o.accountId);
    if Refusal(accounts, userId, o, raw).Some? || i == |accounts| then accounts
    else accounts[i := Settle(accounts[i], o, raw)]
  }

  /** What a market order does to the positions of a portfolio. */
  function FillOf(portfolio: Portfolio, o: OrderData, raw: real): KeyedFill {
    KeyedFill(Key(portfolio.id, o.symbol), Fill(o.side, o.quantity, LastPrice(raw)))
  }

  /** The positions after one call of `place_order`; an account without a portfolio holds none. */
  function Repositioned(
      accounts: seq<Account>, portfolios: seq<Portfolio>, positions: seq<Position>, userId: int, o: OrderData, raw: real)
    : seq<Position>
  {
    var i := FirstWith(portfolios, PortfolioKey, o.accountId);
    if Refusal(accounts, userId, o, raw).Some? || !o.orderType.Market? || i == |portfolios| then positions
    else ApplyFill(positions, FillOf(portfolios[i], o, raw))
  }

  lemma AskCoversLast(raw: real)
    requires raw >= 0.0
    ensures 0.0 <= LastPrice(raw) <= AskPrice(raw)
    ensures -0.011 < AskPrice(raw) - LastPrice(raw) * 1.001 < 0.011
  {
    Round2Faithful(raw, raw * 1.001);
    Round2Faithful(0.0, raw);
  }

  lemma EstimateCoversFill(o: OrderData, raw: real, buyingPower: real)
    requires raw >= 0.0 && o.orderType.Market? && EstimatedCost(o, raw) <= buyingPower && buyingPower >= 0.0
    ensures FillCost(o, raw) <= buyingPower
  {
    AskCoversLast(raw);
    hide LastPrice, AskPrice;
    DominatedProduct(LastPrice(raw), AskPrice(raw), o.quantity);
    hide Gross;
  }

  /** An accepted buy with a limit is covered at every price up to the limit, and only such a buy is accepted;
      any other buy that is not at the market - a stop order, or a limit order without a price - only
      needs cover at prices up to the last one. */
  lemma RestingBuyIsCovered(o: OrderData, raw: real, buyingPower: real)
    requires o.side.Buy? && !o.orderType.Market? && o.quantity >= 0.0
    ensures var limited := o.orderType.Limit? && o.limitPrice.Some? && o.limitPrice.value != 0.0;
      EstimatedCost(o, raw) <= buyingPower <==>
        forall price: real :: price <= (if limited then o.limitPrice.value else Round2(raw)) ==>
          Gross(price, o.quantity) + Commission(o) <= buyingPower
  {
    var bound := if o.orderType.Limit? && o.limitPrice.Some? && o.limitPrice.value != 0.0 then o.limitPrice.value else Round2(raw);
    assert EstimatedCost(o, raw) == Gross(bound, o.quantity) + Commission(o);
    hide Commission, EstimatedCost;
    forall price: real | price <= bound
      ensures Gross(price, o.quantity) <= Gross(bound, o.quantity)
    {
      GrossMonotone(price, bound, o.quantity);
    }
  }

  lemma GrossMonotone(x: real, y: real, q: real)
    requires x <= y && q >= 0.0
    ensures Gross(x, q) <= Gross(y, q)
  {
    assert (y - x) * q >= 0.0;
  }

  /** An order is refused iff the user owns no such account, or it is a buy that the first such account cannot cover. */
  lemma RefusedIff(accounts: seq<Account>, userId: int, o: OrderData, raw: real)
    requires UniqueIds(accounts)
    ensures Refusal(accounts, userId, o, raw) == Some(AccountNotFound) <==>
              forall a <- accounts :: a.id != o.accountId || a.userId != userId
    ensures Refusal(accounts, userId, o, raw) == Some(InsufficientBuyingPower) <==>
              o.side.Buy? && exists a <- accounts :: a.id == o.accountId && a.userId == userId && EstimatedCost(o, raw) > a.buyingPower
  {
    hide EstimatedCost;
    var i := FirstWith(accounts, OwnedKey, (o.accountId, userId));
    if i < |accounts| {
      assert OwnedKey(accounts[i]) == (o.accountId, userId);
      forall a <- accounts | a.id == o.accountId
        ensures a == accounts[i]
      {
      }
    } else {
      forall a <- accounts
        ensures a.id != o.accountId || a.userId != userId
      {
        var j :| 0 <= j < |accounts| && accounts[j] == a;
        assert OwnedKey(accounts[j]) != (o.accountId, userId);
      }
    }
  }

  lemma DominatedProduct(last: real, ask: real, q: real)
    requires 0.0 <= last <= ask
    ensures if q >= 0.0 then 0.0 <= Gross(last, q) <= Gross(ask, q) else Gross(last, q) <= 0.0
  {
    if q >= 0.0 {
      assert (ask - last) * q >= 0.0;
    } else {
      assert last * -q >= 0.0;
    }
  }

  ghost predicate Solvent(accounts: seq<Account>) {
    forall a <- accounts :: a.buyingPower >= 0.0
  }

  ghost predicate UniqueIds(accounts: seq<Account>) {
    forall i, j :: 0 <= i < j < |accounts| ==> accounts[i].id != accounts[j].id
  }

  /** What one unit of a market order moves: its price and its share of the commission. */
  function UnitCost(o: OrderData, raw: real): real {
    LastPrice(raw) + if o.crypto then 0.01 else 0.0
  }

  lemma CostPerUnit(o: OrderData, raw: real)
    ensures FillCost(o, raw) == Gross(UnitCost(o, raw), o.quantity)
  {
    hide LastPrice;
  }

  lemma GrossNonNegative(x: real, y: real)
    requires x >= 0.0 && y >= 0.0
    ensures Gross(x, y) >= 0.0
  {
  }

  /** A sale of `quantity` at `unit` each takes more than `power` exactly below this quantity. */
  lemma OverdrawThreshold(unit: real, quantity: real, power: real)
    requires unit >= 0.0 && power >= 0.0
    ensures Gross(unit, quantity) < -power <==> unit > 0.0 && quantity < -(power / unit)
  {
    if unit > 0.0 {
      ThresholdProduct(unit, quantity, power, power / unit);
    }
  }

  lemma ThresholdProduct(unit: real, quantity: real, power: real, threshold: real)
    requires unit > 0.0 && threshold * unit == power
    ensures Gross(unit, quantity) < -power <==> quantity < -threshold
  {
    ScaledComparison(unit, quantity, -threshold);
    assert unit * -threshold == -power;
  }

  /**
   * An accepted order leaves the account solvent unless it is a market sale of a negative quantity,
   * larger than the buying power divided by what a unit moves: buys never overdraw, as the ask
   * covers the last price.
   */
  lemma AcceptedOrderOverdrawsIff(a: Account, o: OrderData, raw: real)
    requires raw >= 0.0 && a.buyingPower >= 0.0
    requires o.side.Buy? ==> EstimatedCost(o, raw) <= a.buyingPower
    ensures Settle(a, o, raw).buyingPower < 0.0 <==>
              o.orderType.Market? && o.side.Sell? && UnitCost(o, raw) > 0.0 && o.quantity < -(a.buyingPower / UnitCost(o, raw))
    ensures o.side.Sell? && o.quantity >= 0.0 ==> FillCost(o, raw) >= 0.0
  {
    if o.orderType.Market? && o.side.Buy? {
      EstimateCoversFill(o, raw, a.buyingPower);
    }
    AskCoversLast(raw);
    CostPerUnit(o, raw);
    assert UnitCost(o, raw) >= 0.0;
    hide LastPrice, AskPrice, Gross, FillCost, EstimatedCost, UnitCost;
    OverdrawThreshold(UnitCost(o, raw), o.quantity, a.buyingPower);
    if o.quantity >= 0.0 {
      GrossNonNegative(UnitCost(o, raw), o.quantity);
    }
  }

  /** Selling -1 share at 100 from an account with buying power 10 overdraws it by 90. */
  lemma NegativeSaleOverdraws(a: Account, o: OrderData)
    requires a.buyingPower == 10.0 && o.orderType.Market? && o.side.Sell? && o.quantity == -1.0 && !o.crypto
    ensures Settle(a, o, 100.0).buyingPower == -90.0
  {
    assert (100.0 * 100.0).Floor == 10000;
    assert LastPrice(100.0) == 100.0;
    hide LastPrice;
  }

  /** A sale pays the commission back: buying and selling the same quantity at one price costs nothing. */
  lemma RoundTripIsFree(a: Account, buy: OrderData, sell: OrderData, raw: real)
    requires buy.orderType.Market? && buy.side.Buy? && sell == buy.(side := Sell)
    ensures Settle(Settle(a, buy, raw), sell, raw) == a
  {
    hide LastPrice;
  }

  lemma QuotientNonNegative(x: real, y: real)
    requires x >= 0.0 && y > 0.0
    ensures x / y >= 0.0
  {
  }

  lemma OrderKeepsSolvent(accounts: seq<Account>, userId: int, o: OrderData, raw: real)
    requires Solvent(accounts) && UniqueIds(accounts) && raw >= 0.0 && (o.side.Sell? ==> o.quantity >= 0.0)
    ensures Solvent(Placed(accounts, userId, o, raw)) && UniqueIds(Placed(accounts, userId, o, raw))
  {
    var i, j := FirstWith(accounts, OwnedKey, (o.accountId, userId)), FirstWith(accounts, AccountKey, o.accountId);
    hide EstimatedCost, FillCost;
    if Refusal(accounts, userId, o, raw).None? && j < |accounts| {
      assert i == j;
      assert accounts[i] in accounts;
      AcceptedOrderOverdrawsIff(accounts[i], o, raw);
      if o.side.Sell? && UnitCost(o, raw) > 0.0 {
        QuotientNonNegative(accounts[i].buyingPower, UnitCost(o, raw));
      }
    }
  }

  /** One call of `place_order`; `raw` is the day's price of the symbol when it is made. */
  datatype Placement = Placement(userId: int, order: OrderData, raw: real)

  function RunOrders(accounts: seq<Account>, ps: seq<Placement>): seq<Account> {
    if ps == [] then accounts
    else
      var last := ps[|ps| - 1];
      Placed(RunOrders(accounts, ps[..|ps| - 1]), last.userId, last.order, last.raw)
  }

  /** No run of orders overdraws any account, provided the quantities sold are not negative. */
  lemma {:induction false} NoRunOverdraws(accounts: seq<Account>, ps: seq<Placement>)
    requires Solvent(accounts) && UniqueIds(accounts)
    requires forall p <- ps :: p.raw >= 0.0 && (p.order.side.Sell? ==> p.order.quantity >= 0.0)
    ensures Solvent(RunOrders(accounts, ps)) && UniqueIds(RunOrders(accounts, ps))
  {
    if ps != [] {
      var last := ps[|ps| - 1];
      NoRunOverdraws(accounts, ps[..|ps| - 1]);
      hide Solvent, UniqueIds, Placed;
      OrderKeepsSolvent(RunOrders(accounts, ps[..|ps| - 1]), last.userId, last.order, last.raw);
    }
  }

  /** Orders move balance and buying power of an account together, and touch nothing else of it. */
  lemma {:induction false} BalanceFollowsBuyingPower(accounts: seq<Account>, ps: seq<Placement>, i: nat)
    requires i < |accounts|
    ensures var after := RunOrders(accounts, ps);
      && |after| == |accounts|
      && after[i].id == accounts[i].id && after[i].userId == accounts[i].userId
      && after[i].balance - after[i].buyingPower == accounts[i].balance - accounts[i].buyingPower
  {
    if ps != [] {
      BalanceFollowsBuyingPower(accounts, ps[..|ps| - 1], i);
      hide FillCost, Refusal;
    }
  }

  /** An order moves the account it is for, and only if the user owns it. */
  lemma OrderMovesOwnAccount(accounts: seq<Account>, userId: int, o: OrderData, raw: real, i: nat)
    requires UniqueIds(accounts) && i < |accounts|
    ensures UniqueIds(Placed(accounts, userId, o, raw)) && |Placed(accounts, userId, o, raw)| == |accounts|
    ensures o.accountId != accounts[i].id || userId != accounts[i].userId ==> Placed(accounts, userId, o, raw)[i] == accounts[i]
  {
    hide EstimatedCost, FillCost;
  }

  // ---------------------------------------------------------------------------------------------
  // Cash and positions together
  // ---------------------------------------------------------------------------------------------

  /** Accounts, positions, and what removed positions had cost less what they had realized. */
  datatype Firm = Firm(accounts: seq<Account>, positions: seq<Position>, closed: real)

  function Cash(accounts: seq<Account>): real {
    if accounts == [] then 0.0 else Cash(accounts[..|accounts| - 1]) + accounts[|accounts| - 1].balance
  }

  /** What a position cost less what it has realized. */
  function Invested(p: Position): real {
    p.costBasis - p.realizedGains
  }

  function TotalInvested(book: seq<Position>): real {
    if book == [] then 0.0 else TotalInvested(book[..|book| - 1]) + Invested(book[|book| - 1])
  }

  /** Cash plus cost basis less realized gains, of positions held and removed. */
  function Wealth(f: Firm): real {
    Cash(f.accounts) + TotalInvested(f.positions) + f.closed
  }

  /** What a fill removes from the book. */
  function ClosedBy(book: seq<Position>, k: KeyedFill): real {
    var i := FirstWith(book, KeyOf, k.key);
    if i < |book| && k.fill.side.Sell? && Sold(book[i], k.fill).shares <= 0.0 then Invested(Sold(book[i], k.fill)) else 0.0
  }

  function PlacedAll(f: Firm, portfolios: seq<Portfolio>, p: Placement): Firm {
    var i := FirstWith(portfolios, PortfolioKey, p.order.accountId);
    Firm(Placed(f.accounts, p.userId, p.order, p.raw),
         Repositioned(f.accounts, portfolios, f.positions, p.userId, p.order, p.raw),
         f.closed + if Refusal(f.accounts, p.userId, p.order, p.raw).Some? || !p.order.orderType.Market? || i == |portfolios|
                    then 0.0 else ClosedBy(f.positions, FillOf(portfolios[i], p.order, p.raw)))
  }

  /** Whether a position takes the other side of the fill: one is created by a buy if need be, but
      not by a sale, and not for an account without a portfolio. */
  predicate Booked(f: Firm, portfolios: seq<Portfolio>, o: OrderData) {
    var i := FirstWith(portfolios, PortfolioKey, o.accountId);
    i < |portfolios| && (o.side.Buy? || FirstWith(f.positions, KeyOf, Key(portfolios[i].id, o.symbol)) < |f.positions|)
  }

  /** What an order takes out of the firm: the commission if a position takes the other side, else all it moves. */
  function Leak(f: Firm, portfolios: seq<Portfolio>, p: Placement): real {
    if Refusal(f.accounts, p.userId, p.order, p.raw).Some? || !p.order.orderType.Market? then 0.0
    else
      var moved := if Booked(f, portfolios, p.order) then Commission(p.order) else FillCost(p.order, p.raw);
      if p.order.side.Buy? then moved else -moved
  }

  lemma {:induction false} CashUpdate(accounts: seq<Account>, i: nat, a: Account)
    requires i < |accounts|
    ensures Cash(accounts[i := a]) == Cash(accounts) - accounts[i].balance + a.balance
  {
    var n := |accounts| - 1;
    if i < n {
      CashUpdate(accounts[..n], i, a);
      assert accounts[i := a][..n] == accounts[..n][i := a];
    } else {
      assert accounts[i := a][..n] == accounts[..n];
    }
  }

  lemma {:induction false} InvestedConcat(xs: seq<Position>, ys: seq<Position>)
    ensures TotalInvested(xs + ys) == TotalInvested(xs) + TotalInvested(ys)
  {
    hide Invested;
    if ys == [] {
      assert xs + ys == xs;
    } else {
      var n := |ys| - 1;
      assert (xs + ys)[..|xs| + n] == xs + ys[..n];
      InvestedConcat(xs, ys[..n]);
    }
  }

  lemma InvestedSplit(book: seq<Position>, i: nat, p: Position)
    requires i < |book|
    ensures TotalInvested(book) == TotalInvested(book[..i] + book[i + 1..]) + Invested(book[i])
    ensures TotalInvested(book[i := p]) == TotalInvested(book) - Invested(book[i]) + Invested(p)
  {
    hide Invested;
    InvestedOne(book[i]);
    InvestedOne(p);
    hide TotalInvested;
    InvestedConcat(book[..i], book[i + 1..]);
    InvestedConcat(book[..i], [book[i]]);
    InvestedConcat(book[..i] + [book[i]], book[i + 1..]);
    InvestedConcat(book[..i], [p]);
    InvestedConcat(book[..i] + [p], book[i + 1..]);
    assert book == (book[..i] + [book[i]]) + book[i + 1..];
    assert book[i := p] == (book[..i] + [p]) + book[i + 1..];
  }

  lemma InvestedOne(p: Position)
    ensures TotalInvested([p]) == Invested(p)
  {
    assert [p][..0] == [];
  }

  /** A fill moves its amount into or out of the book, counting what it removes. */
  lemma FillMovesInvested(book: seq<Position>, k: KeyedFill)
    ensures TotalInvested(ApplyFill(book, k)) + ClosedBy(book, k) - TotalInvested(book) ==
            if k.fill.side.Buy? then Amount(k.fill)
            else if FirstWith(book, KeyOf, k.key) < |book| then -Amount(k.fill) else 0.0
  {
    var i := FirstWith(book, KeyOf, k.key);
    hide Bought, Sold, Amount, TotalInvested, FirstWith;
    if i < |book| {
      FillMovesAmount(book[i], k.fill);
      InvestedSplit(book, i, if k.fill.side.Buy? then Bought(book[i], k.fill) else Sold(book[i], k.fill));
    } else {
      InvestedConcat(book, [NewPosition(k.key.portfolioId, k.key.symbol, k.fill)]);
      InvestedOne(NewPosition(k.key.portfolioId, k.key.symbol, k.fill));
    }
  }

  lemma OwnedExists(accounts: seq<Account>, userId: int, o: OrderData, raw: real)
    requires Refusal(accounts, userId, o, raw).None?
    ensures FirstWith(accounts, AccountKey, o.accountId) < |accounts|
  {
    hide EstimatedCost;
    var i := FirstWith(accounts, OwnedKey, (o.accountId, userId));
    assert AccountKey(accounts[i]) == o.accountId;
  }

  lemma SettleMoves(a: Account, o: OrderData, raw: real)
    ensures Settle(a, o, raw).balance - a.balance ==
            if !o.orderType.Market? then 0.0 else if o.side.Buy? then -FillCost(o, raw) else FillCost(o, raw)
  {
    hide FillCost;
  }

  /** One order moves cash and position against each other, but for its leak. */
  lemma OrderConserves(f: Firm, portfolios: seq<Portfolio>, p: Placement)
    ensures Wealth(PlacedAll(f, portfolios, p)) == Wealth(f) - Leak(f, portfolios, p)
  {
    hide EstimatedCost, LastPrice, Commission, Gross, Cash, TotalInvested, FirstWith, ApplyFill, ClosedBy, Settle;
    if Refusal(f.accounts, p.userId, p.order, p.raw).None? {
      OwnedExists(f.accounts, p.userId, p.order, p.raw);
      var j := FirstWith(f.accounts, AccountKey, p.order.accountId);
      CashUpdate(f.accounts, j, Settle(f.accounts[j], p.order, p.raw));
      SettleMoves(f.accounts[j], p.order, p.raw);
      var i := FirstWith(portfolios, PortfolioKey, p.order.accountId);
      if p.order.orderType.Market? && i < |portfolios| {
        FillMovesInvested(f.positions, FillOf(portfolios[i], p.order, p.raw));
      }
    }
  }

  ghost predicate UniquePortfolios(portfolios: seq<Portfolio>) {
    forall i, j :: 0 <= i < j < |portfolios| ==> portfolios[i].id != portfolios[j].id
  }

  /** An order moves positions of its own account's portfolio alone, and only if the user owns the account. */
  lemma OrderMovesOwnPositions(f: Firm, portfolios: seq<Portfolio>, p: Placement, i: nat, j: nat, symbol: string)
    requires UniqueIds(f.accounts) && UniqueKeys(f.positions) && UniquePortfolios(portfolios)
    requires i < |f.accounts| && j < |portfolios| && portfolios[j].accountId == f.accounts[i].id
    ensures UniqueKeys(PlacedAll(f, portfolios, p).positions)
    ensures p.order.accountId != f.accounts[i].id || p.userId != f.accounts[i].userId || p.order.symbol != symbol ==>
              Lookup(PlacedAll(f, portfolios, p).positions, Key(portfolios[j].id, symbol))
              == Lookup(f.positions, Key(portfolios[j].id, symbol))
  {
    hide EstimatedCost, Lookup, UniqueKeys, ApplyFill, ClosedBy, LastPrice, Placed;
    var k := FirstWith(portfolios, PortfolioKey, p.order.accountId);
    if Refusal(f.accounts, p.userId, p.order, p.raw).None? && k < |portfolios| {
      var key := Key(portfolios[j].id, symbol);
      assert p.order.accountId == f.accounts[i].id ==> p.userId == f.accounts[i].userId;
      FillChangesOwnKey(f.positions, FillOf(portfolios[k], p.order, p.raw), key);
    }
  }

  /** Over any run without orders of its owner, an account's record and positions stay as they are. */
  lemma {:induction false} OnlyOwnersTrade(f: Firm, portfolios: seq<Portfolio>, ps: seq<Placement>, i: nat, j: nat, symbol: string)
    requires UniqueIds(f.accounts) && UniqueKeys(f.positions) && UniquePortfolios(portfolios)
    requires i < |f.accounts| && j < |portfolios| && portfolios[j].accountId == f.accounts[i].id
    requires forall p <- ps :: p.order.accountId != f.accounts[i].id || p.userId != f.accounts[i].userId
    ensures var after := RunFirm(f, portfolios, ps);
      && UniqueIds(after.accounts) && UniqueKeys(after.positions) && |after.accounts| == |f.accounts|
      && after.accounts[i] == f.accounts[i]
      && Lookup(after.positions, Key(portfolios[j].id, symbol)) == Lookup(f.positions, Key(portfolios[j].id, symbol))
  {
    hide UniqueIds, UniqueKeys, UniquePortfolios, Lookup, Placed, Repositioned, ClosedBy;
    if ps != [] {
      var before, last := RunFirm(f, portfolios, ps[..|ps| - 1]), ps[|ps| - 1];
      OnlyOwnersTrade(f, portfolios, ps[..|ps| - 1], i, j, symbol);
      OrderMovesOwnAccount(before.accounts, last.userId, last.order, last.raw, i);
      OrderMovesOwnPositions(before, portfolios, last, i, j, symbol);
    }
  }

  function RunFirm(f: Firm, portfolios: seq<Portfolio>, ps: seq<Placement>): Firm {
    if ps == [] then f else PlacedAll(RunFirm(f, portfolios, ps[..|ps| - 1]), portfolios, ps[|ps| - 1])
  }

  function Leaks(f: Firm, portfolios: seq<Portfolio>, ps: seq<Placement>): real {
    if ps == [] then 0.0
    else Leaks(f, portfolios, ps[..|ps| - 1]) + Leak(RunFirm(f, portfolios, ps[..|ps| - 1]), portfolios, ps[|ps| - 1])
  }

  /**
   * Over any run of orders, cash plus cost basis less realized gains changes only by commissions and
   * by what moves for orders that no position answers: sales of symbols not held, and orders of
   * accounts without a portfolio.
   */
  lemma {:induction false} RunConserves(f: Firm, portfolios: seq<Portfolio>, ps: seq<Placement>)
    ensures RunFirm(f, portfolios, ps).accounts == RunOrders(f.accounts, ps)
    ensures Wealth(RunFirm(f, portfolios, ps)) == Wealth(f) - Leaks(f, portfolios, ps)
  {
    hide Wealth, Leak, Placed, Repositioned, ClosedBy;
    if ps != [] {
      RunConserves(f, portfolios, ps[..|ps| - 1]);
      OrderConserves(RunFirm(f, portfolios, ps[..|ps| - 1]), portfolios, ps[|ps| - 1]);
    }
  }

  // ---------------------------------------------------------------------------------------------
  // The investment manager
  // ---------------------------------------------------------------------------------------------

  class InvestmentManager {
    var accounts: seq<Account>
    var portfolios: seq<Portfolio>
    var orders: seq<Order>
    var positions: seq<Position>

    constructor (accounts: seq<Account>, portfolios: seq<Portfolio>, positions: seq<Position>)
      ensures this.accounts == accounts && this.portfolios == portfolios && orders == [] && this.positions == positions
    {
      this.accounts, this.portfolios, orders, this.positions := accounts, portfolios, [], positions;
    }

    method PlaceOrder(userId: int, o: OrderData, raw: real) returns (r: Result<Order, OrderError>)
      modifies this`accounts, this`orders, this`positions
      ensures accounts == Placed(old(accounts), userId, o, raw)
      ensures positions == Repositioned(old(accounts), portfolios, old(positions), userId, o, raw)
      ensures match Refusal(old(accounts), userId, o, raw)
        case Some(error) => r == Failure(error) && orders == old(orders)
        case None =>
          && r.Success? && orders == old(orders) + [r.value]
          && r.value == (if o.orderType.Market?
                         then Order(|orders|, o, Commission(o), true, o.quantity, Some(LastPrice(raw)))
                         else Order(|orders|, o, Commission(o), false, 0.0, None))
    {
      hide EstimatedCost, FillCost, ApplyFill;
      var i := FirstWith(accounts, OwnedKey, (o.accountId, userId));
      if i == |accounts| {
        return Failure(AccountNotFound);
      }
      if o.side == Buy {
        var estimatedCost := EstimatedCost(o, raw);
        if estimatedCost > accounts[i].buyingPower {
          return Failure(InsufficientBuyingPower);
        }
      }
      var order := Order(|orders| + 1, o, Commission(o), false, 0.0, None);
      if o.orderType == Market {
        order := ExecuteOrder(order, raw);
      }
      orders := orders + [order];
      return Success(order);
    }

    /** Fill a market order at the last price; the account with the order's id exists. */
    method ExecuteOrder(order: Order, raw: real) returns (filled: Order)
      requires order.data.orderType.Market? && FirstWith(accounts, AccountKey, order.data.accountId) < |accounts|
      requires order.commission == Commission(order.data)
      modifies this`accounts, this`positions
      ensures filled == order.(filled := true, filledQuantity := order.data.quantity, fillPrice := Some(LastPrice(raw)))
      ensures var i := FirstWith(old(accounts), AccountKey, order.data.accountId);
        accounts == old(accounts)[i := Settle(old(accounts)[i], order.data, raw)]
      ensures var o, i := order.data, FirstWith(portfolios, PortfolioKey, order.data.accountId);
        positions == if i == |portfolios| then old(positions)
                     else ApplyFill(old(positions), FillOf(portfolios[i], o, raw))
    {
      hide LastPrice, Commission, Gross;
      var o, fillPrice := order.data, LastPrice(raw);
      filled := order.(filled := true, filledQuantity := o.quantity, fillPrice := Some(fillPrice));
      var i := FirstWith(accounts, AccountKey, o.accountId);
      var account := accounts[i];
      var totalCost := Gross(fillPrice, o.quantity) + order.commission;
      assert totalCost == FillCost(o, raw);
      hide FillCost;
      if o.side == Buy {
        accounts := accounts[i := account.(buyingPower := account.buyingPower - totalCost, balance := account.balance - totalCost)];
      } else {
        accounts := accounts[i := account.(buyingPower := account.buyingPower + totalCost, balance := account.balance + totalCost)];
      }
      var p := FirstWith(portfolios, PortfolioKey, o.accountId);
      if p < |portfolios| {
        var k := KeyedFill(Key(portfolios[p].id, o.symbol), Fill(o.side, o.quantity, fillPrice));
        if o.side == Buy {
          UpdateOrCreatePosition(k);
        } else {
          UpdatePositionForSell(k);
        }
      }
    }

    method UpdateOrCreatePosition(k: KeyedFill)
      requires k.fill.side.Buy?
      modifies this`positions
      ensures positions == ApplyFill(old(positions), k)
    {
      hide Gross;
      var i := FirstWith(positions, KeyOf, k.key);
      if i < |positions| {
        var p := positions[i];
        var newQuantity := p.shares + k.fill.quantity;
        var newCost := p.costBasis + Amount(k.fill);
        p := p.(shares := newQuantity, costBasis := newCost, currentValue := Gross(newQuantity, k.fill.price));
        assert p == Bought(positions[i], k.fill);
        hide Bought;
        positions := positions[i := p];
      } else {
        positions := positions + [Position(k.key.portfolioId, k.key.symbol, k.fill.quantity, Amount(k.fill), Amount(k.fill), 0.0)];
      }
    }

    method UpdatePositionForSell(k: KeyedFill)
      requires k.fill.side.Sell?
      modifies this`positions
      ensures positions == ApplyFill(old(positions), k)
    {
      var i := FirstWith(positions, KeyOf, k.key);
      if i == |positions| {
        return;
      }
      var p := positions[i];
      var averageCost := if p.shares > 0.0 then p.costBasis / p.shares else 0.0;
      hide Gross;
      var realizedGain := Gross(k.fill.price - averageCost, k.fill.quantity);
      p := p.(shares := p.shares - k.fill.quantity, costBasis := p.costBasis - Gross(averageCost, k.fill.quantity));
      p := p.(currentValue := Gross(p.shares, k.fill.price), realizedGains := p.realizedGains + realizedGain);
      assert p == Sold(positions[i], k.fill);
      hide Sold;
      if p.shares <= 0.0 {
        positions := positions[..i] + positions[i + 1..];
      } else {
        positions := positions[i := p];
      }
    }
  }

}
