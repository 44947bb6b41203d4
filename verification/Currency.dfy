/** The cross-rate table with its spread, and chains of conversions through it. */
module Currencies {
  import opened Prelude
  import opened Money
  import opened RealArithmetic

  /** Rates by code or by pair key. */
  type Rates = map<string, real>

  datatype Kind = Fiat | Crypto | Virtual

  datatype Currency = Currency(code: string, kind: Kind)

  datatype RateInfo = RateInfo(rate: real, bid: real, ask: real, spread: real, effectiveRate: real)

  datatype Quote = Quote(
    userId: int, from: string, to: string, fromAmount: real, toAmount: real, exchangeRate: real, feeAmount: real, totalCost: real)

  /** The built-in list of currencies, used when there is no other. */
  const SUPPORTED: seq<Currency> := [
    Currency("USD", Fiat), Currency("EUR", Fiat), Currency("GBP", Fiat), Currency("JPY", Fiat), Currency("CNY", Fiat),
    Currency("MXN", Fiat), Currency("BRL", Fiat), Currency("ARS", Fiat), Currency("COP", Fiat), Currency("VES", Fiat),
    Currency("BTC", Crypto), Currency("ETH", Crypto), Currency("USDT", Crypto), Currency("USDC", Crypto),
    Currency("VIRT", Virtual)]

  /** Units per US dollar. */
  const BASE_RATES: Rates := map[
    "USD" := 1.0, "EUR" := 0.85, "GBP" := 0.73, "JPY" := 110.0, "CNY" := 6.45, "MXN" := 20.0, "BRL" := 5.2, "ARS" := 98.0,
    "COP" := 3800.0, "VES" := 4000000.0, "BTC" := 0.000023, "ETH" := 0.00032, "USDT" := 1.0, "USDC" := 1.0, "VIRT" := 1.0]

  function SlashKey(a: string, b: string): string {
    a + "/" + b
  }

  function UnderscoreKey(a: string, b: string): string {
    a + "_" + b
  }

  function CodeOf(c: Currency): string {
    c.code
  }

  /** The first supported currency with the code. */
  function FindCurrency(supported: seq<Currency>, code: string): Option<Currency> {
    var i := FirstWith(supported, CodeOf, code);
    if i < |supported| then Some(supported[i]) else None
  }

  /** The slash key is tried first; a missing or zero rate falls through. */
  function MidRate(rates: Rates, a: string, b: string): Option<real> {
    var slash, underscore := SlashKey(a, b), UnderscoreKey(a, b);
    if slash in rates && rates[slash] != 0.0 then Some(rates[slash])
    else if underscore in rates && rates[underscore] != 0.0 then Some(rates[underscore])
    else None
  }

  function Spread(a: Currency, b: Currency): real {
    if a.kind.Crypto? || b.kind.Crypto? then 0.015 else 0.02
  }

  function GetExchangeRate(rates: Rates, supported: seq<Currency>, from: string, to: string): Option<RateInfo> {
    var rate, a, b := MidRate(rates, from, to), FindCurrency(supported, from), FindCurrency(supported, to);
    if rate.None? || a.None? || b.None? then None
    else
      var baseSpread := Spread(a.value, b.value);
      var spread := rate.value * baseSpread;
      Some(RateInfo(rate.value, rate.value - spread, rate.value + spread, baseSpread, rate.value - spread))
  }

  // ---------------------------------------------------------------------------------------------
  // Filling the table
  // ---------------------------------------------------------------------------------------------

  /** Codes are free of '/' and rates positive. */
  ghost predicate GoodBase(base: Rates) {
    forall c <- base :: '/' !in c && base[c] > 0.0
  }

  /** The table entry for a pair of codes. */
  ghost predicate HasCross(rates: Rates, base: Rates, a: string, b: string) {
    a in base && b in base && base[a] != 0.0 && SlashKey(a, b) in rates && rates[SlashKey(a, b)] == base[b] / base[a]
  }

  /** Every pair of distinct codes is priced at the quotient of the base rates. */
  ghost predicate CrossTable(rates: Rates, base: Rates) {
    forall a, b :: a in base && b in base && a != b ==> HasCross(rates, base, a, b)
  }

  ghost predicate IsCrossKey(base: Rates, k: string) {
    exists a, b :: a in base && b in base && a != b && k == SlashKey(a, b)
  }

  /** Only cross rates are new or changed. */
  ghost predicate OthersKept(before: Rates, after: Rates, base: Rates) {
    && (forall k <- before :: k in after && (after[k] == before[k] || IsCrossKey(base, k)))
    && (forall k <- after :: k in before || IsCrossKey(base, k))
  }

  lemma SlashKeyInjective(a: string, b: string, c: string, d: string)
    requires '/' !in a && '/' !in c && SlashKey(a, b) == SlashKey(c, d)
    ensures a == c && b == d
  {
    var k := SlashKey(a, b);
    assert k[|a|] == '/' && k[|c|] == '/';
    assert forall i :: 0 <= i < |a| ==> k[i] == a[i] && a[i] in a;
    assert forall i :: 0 <= i < |c| ==> k[i] == c[i] && c[i] in c;
    assert k[..|a|] == a && k[..|c|] == c && k[|a| + 1..] == b && k[|c| + 1..] == d;
  }

  /** The built-in rates meet the conditions. */
  lemma BuiltInBaseIsGood()
    ensures GoodBase(BASE_RATES)
  {
    assert forall c <- BASE_RATES :: BASE_RATES[c] > 0.0;
  }

  /** Setting one pair leaves every other pair, as keys determine their codes. */
  lemma OneEntry(before: Rates, after: Rates, base: Rates, from: string, to: string)
    requires GoodBase(base) && from in base && to in base && from != to
    requires after == before[SlashKey(from, to) := base[to] / base[from]]
    ensures HasCross(after, base, from, to) && IsCrossKey(base, SlashKey(from, to))
    ensures forall a, b :: HasCross(before, base, a, b) ==> HasCross(after, base, a, b)
  {
    forall a, b | HasCross(before, base, a, b)
      ensures HasCross(after, base, a, b)
    {
      if SlashKey(a, b) == SlashKey(from, to) {
        SlashKeyInjective(a, b, from, to);
      }
    }
  }

  // ---------------------------------------------------------------------------------------------
  // What a hop pays
  // ---------------------------------------------------------------------------------------------

  predicate IsCrypto(supported: seq<Currency>, code: string) {
    var c := FindCurrency(supported, code);
    c.Some? && c.value.kind.Crypto?
  }

  /** What a hop keeps after the spread. */
  function Kept(supported: seq<Currency>, a: string, b: string): real {
    if IsCrypto(supported, a) || IsCrypto(supported, b) then 0.985 else 0.98
  }

  function Mid(rates: Rates, a: string, b: string): real {
    var mid := MidRate(rates, a, b);
    if mid.Some? then mid.value else 0.0
  }

  function EffectiveRate(rates: Rates, supported: seq<Currency>, a: string, b: string): real {
    var info := GetExchangeRate(rates, supported, a, b);
    if info.Some? then info.value.effectiveRate else 0.0
  }

  /** The mid rate from `a` to `b` according to the base rates. */
  function CrossRate(base: Rates, a: string, b: string): real
    requires a in base && b in base
  {
    if base[a] == 0.0 then 0.0 else base[b] / base[a]
  }

  /** A pair of distinct codes of the base rates. */
  predicate OnTable(base: Rates, a: string, b: string) {
    a in base && b in base && a != b
  }

  /** Any pair that is quoted at all pays the mid rate less the spread, with bid and ask evenly around it. */
  lemma HopRate(rates: Rates, supported: seq<Currency>, a: string, b: string)
    ensures GetExchangeRate(rates, supported, a, b).Some? <==>
              MidRate(rates, a, b).Some? && FindCurrency(supported, a).Some? && FindCurrency(supported, b).Some?
    ensures GetExchangeRate(rates, supported, a, b).Some? ==>
      var info := GetExchangeRate(rates, supported, a, b).value;
      && info.rate == Mid(rates, a, b) != 0.0
      && info.effectiveRate == info.bid == info.rate * Kept(supported, a, b)
      && info.bid + info.ask == 2.0 * info.rate
      && info.spread == 1.0 - Kept(supported, a, b)
      && (info.rate > 0.0 ==> 0.0 < info.bid < info.rate < info.ask)
  {
    hide FindCurrency;
  }

  /** A pair of distinct base codes has the quotient of its base rates as mid rate, whatever else the table holds. */
  lemma TableRate(rates: Rates, base: Rates, a: string, b: string)
    requires GoodBase(base) && CrossTable(rates, base) && OnTable(base, a, b)
    ensures MidRate(rates, a, b) == Some(CrossRate(base, a, b)) && CrossRate(base, a, b) > 0.0
  {
    assert HasCross(rates, base, a, b);
    assert base[b] / base[a] > 0.0;
  }

  lemma CrossRatePositive(base: Rates, a: string, b: string)
    requires GoodBase(base) && a in base && b in base
    ensures CrossRate(base, a, b) > 0.0 && CrossRate(base, a, a) == 1.0
  {
    assert base[a] > 0.0 && base[b] > 0.0;
    assert base[b] / base[a] > 0.0;
  }

  // ---------------------------------------------------------------------------------------------
  // Chains of conversions
  // ---------------------------------------------------------------------------------------------

  /** A path along which every hop is quoted. */
  predicate Quoted(rates: Rates, supported: seq<Currency>, path: seq<string>) {
    var n := |path| - 1;
    n >= 0 && (n == 0 || (Quoted(rates, supported, path[..n]) && GetExchangeRate(rates, supported, path[n - 1], path[n]).Some?))
  }

  lemma QuotedIsPath(rates: Rates, supported: seq<Currency>, path: seq<string>)
    requires Quoted(rates, supported, path)
    ensures path != []
  {
  }

  /** What one unit becomes along the path, hop by hop at the rate the customer receives. */
  function ChainRate(rates: Rates, supported: seq<Currency>, path: seq<string>): real {
    var n := |path| - 1;
    if n <= 0 then 1.0
    else ChainRate(rates, supported, path[..n]) * EffectiveRate(rates, supported, path[n - 1], path[n])
  }

  /** What the spreads leave of one unit along the path. */
  function ChainKept(supported: seq<Currency>, path: seq<string>): real {
    var n := |path| - 1;
    if n <= 0 then 1.0 else ChainKept(supported, path[..n]) * Kept(supported, path[n - 1], path[n])
  }

  /** The mid rates of the hops, multiplied. */
  function MidProduct(rates: Rates, path: seq<string>): real {
    var n := |path| - 1;
    if n <= 0 then 1.0 else MidProduct(rates, path[..n]) * Mid(rates, path[n - 1], path[n])
  }

  /** Units of a code per US dollar; any positive number serves for a code without a base rate. */
  function Worth(base: Rates, c: string): real {
    if c in base && base[c] > 0.0 then base[c] else 1.0
  }

  /** How far the mid rate of a hop lies from the quotient of what its ends are worth. */
  function HopDrift(rates: Rates, base: Rates, a: string, b: string): real {
    Mid(rates, a, b) * (Worth(base, a) / Worth(base, b))
  }

  function Drift(rates: Rates, base: Rates, path: seq<string>): real {
    var n := |path| - 1;
    if n <= 0 then 1.0 else Drift(rates, base, path[..n]) * HopDrift(rates, base, path[n - 1], path[n])
  }

  /** Every hop finds its slash key. */
  predicate StaysOnTable(base: Rates, path: seq<string>) {
    var n := |path| - 1;
    n >= 0 && (n == 0 || (StaysOnTable(base, path[..n]) && OnTable(base, path[n - 1], path[n])))
  }

  /** The hops of a path that touch a cryptocurrency. */
  function CryptoHops(supported: seq<Currency>, path: seq<string>): nat {
    var n := |path| - 1;
    if n <= 0 then 0
    else CryptoHops(supported, path[..n]) + if IsCrypto(supported, path[n - 1]) || IsCrypto(supported, path[n]) then 1 else 0
  }

  /** A path that begins and ends at base codes. */
  predicate Joins(base: Rates, s: seq<string>) {
    s != [] && s[0] in base && s[|s| - 1] in base
  }

  lemma ProductStep(m: real, k: real, mid: real, kept: real)
    ensures (m * k) * (mid * kept) == (m * mid) * (k * kept)
  {
  }

  /** A quoted chain pays the product of its mid rates, times what the spreads leave. */
  lemma {:induction false} ChainIsMidsTimesKept(rates: Rates, supported: seq<Currency>, path: seq<string>)
    requires Quoted(rates, supported, path)
    ensures ChainRate(rates, supported, path) == MidProduct(rates, path) * ChainKept(supported, path)
  {
    hide EffectiveRate, Kept, GetExchangeRate, Mid;
    var n := |path| - 1;
    if n > 0 {
      ChainIsMidsTimesKept(rates, supported, path[..n]);
      EffectiveIs(rates, supported, path[n - 1], path[n]);
      ProductStep(MidProduct(rates, path[..n]), ChainKept(supported, path[..n]), Mid(rates, path[n - 1], path[n]),
                  Kept(supported, path[n - 1], path[n]));
    }
  }

  lemma EffectiveIs(rates: Rates, supported: seq<Currency>, a: string, b: string)
    requires GetExchangeRate(rates, supported, a, b).Some?
    ensures EffectiveRate(rates, supported, a, b) == Mid(rates, a, b) * Kept(supported, a, b)
  {
    HopRate(rates, supported, a, b);
    hide GetExchangeRate, Kept, Mid;
  }

  /** The quotient `to / from` of two positive worths. */
  function Quotient(from: real, to: real): real {
    if from == 0.0 then 0.0 else to / from
  }

  lemma QuotientStep(first: real, a: real, b: real, drift: real, mid: real)
    requires first > 0.0 && a > 0.0 && b > 0.0
    ensures (Quotient(first, a) * drift) * mid == Quotient(first, b) * (drift * (mid * (a / b)))
  {
    var x, y := a / first, a / b;
    assert x * first == a && y * b == a;
    var z := b / first;
    assert z * first == b;
    assert (z * y) * first == a;
    assert z * y == x;
    assert z * (drift * (mid * y)) == (z * y) * drift * mid;
  }

  /** The product of the mid rates telescopes: what is left is the worth of the ends and the drift. */
  lemma {:induction false} MidsTelescope(rates: Rates, base: Rates, path: seq<string>)
    requires path != []
    ensures MidProduct(rates, path) ==
            Quotient(Worth(base, path[0]), Worth(base, path[|path| - 1])) * Drift(rates, base, path)
  {
    hide *;
    var n := |path| - 1;
    WorthPositive(base, path[0]);
    LastMid(rates, path);
    LastHop(rates, base, path);
    if n > 0 {
      MidsTelescope(rates, base, path[..n]);
      WorthPositive(base, path[n - 1]);
      WorthPositive(base, path[n]);
      HopDriftIs(rates, base, path[n - 1], path[n]);
      QuotientStep(Worth(base, path[0]), Worth(base, path[n - 1]), Worth(base, path[n]),
                   Drift(rates, base, path[..n]), Mid(rates, path[n - 1], path[n]));
    }
  }

  lemma LastMid(rates: Rates, path: seq<string>)
    requires path != []
    ensures var n := |path| - 1;
      MidProduct(rates, path) == if n == 0 then 1.0 else MidProduct(rates, path[..n]) * Mid(rates, path[n - 1], path[n])
  {
    hide Mid;
  }

  lemma LastHop(rates: Rates, base: Rates, path: seq<string>)
    requires path != []
    ensures var n := |path| - 1;
      Drift(rates, base, path) ==
        if n == 0 then 1.0 else Drift(rates, base, path[..n]) * HopDrift(rates, base, path[n - 1], path[n])
  {
    hide HopDrift;
  }

  lemma HopDriftIs(rates: Rates, base: Rates, a: string, b: string)
    ensures Worth(base, b) > 0.0 && HopDrift(rates, base, a, b) == Mid(rates, a, b) * (Worth(base, a) / Worth(base, b))
  {
    hide Mid;
  }

  lemma WorthPositive(base: Rates, c: string)
    ensures Worth(base, c) > 0.0 && Quotient(Worth(base, c), Worth(base, c)) == 1.0
  {
  }

  lemma TableHasNoDrift(rates: Rates, base: Rates, a: string, b: string)
    requires GoodBase(base) && CrossTable(rates, base) && OnTable(base, a, b)
    ensures HopDrift(rates, base, a, b) == 1.0
  {
    TableRate(rates, base, a, b);
    Inverses(base[a], base[b]);
    hide MidRate, CrossTable;
  }

  lemma Inverses(a: real, b: real)
    requires a > 0.0 && b > 0.0
    ensures (b / a) * (a / b) == 1.0
  {
    var x, y := b / a, a / b;
    assert x * a == b && y * b == a;
    assert (x * y) * b == x * (y * b);
    assert (x * y - 1.0) * b == 0.0;
  }

  /** Drift comes only from hops off the table. */
  lemma {:induction false} OnTableNoDrift(rates: Rates, base: Rates, path: seq<string>)
    requires GoodBase(base) && CrossTable(rates, base) && StaysOnTable(base, path)
    ensures Drift(rates, base, path) == 1.0
  {
    hide HopDrift, CrossTable, OnTable;
    var n := |path| - 1;
    if n > 0 {
      OnTableNoDrift(rates, base, path[..n]);
      TableHasNoDrift(rates, base, path[n - 1], path[n]);
    }
  }

  /** Drifts multiply where one path continues another. */
  lemma {:induction false} DriftSplits(rates: Rates, base: Rates, p: seq<string>, q: seq<string>)
    requires p != [] && q != [] && p[|p| - 1] == q[0]
    ensures Drift(rates, base, p + q[1..]) == Drift(rates, base, p) * Drift(rates, base, q)
  {
    hide *;
    var n, r := |q| - 1, p + q[1..];
    LastHop(rates, base, q);
    if n == 0 {
      assert r == p;
    } else {
      DriftSplits(rates, base, p, q[..n]);
      LastHop(rates, base, r);
      assert r[..|r| - 1] == p + q[..n][1..];
      assert r[|r| - 1] == q[n] && r[|r| - 2] == q[n - 1];
      Associate(Drift(rates, base, p), Drift(rates, base, q[..n]), HopDrift(rates, base, q[n - 1], q[n]));
    }
  }

  lemma Associate(x: real, y: real, z: real)
    ensures (x * y) * z == x * (y * z)
  {
  }

  /** Whatever is quoted and however: a chain pays the worth of its ends, times its drift, times what the spreads leave. */
  lemma ChainFactors(rates: Rates, supported: seq<Currency>, base: Rates, path: seq<string>)
    requires Quoted(rates, supported, path)
    ensures ChainRate(rates, supported, path) ==
            Quotient(Worth(base, path[0]), Worth(base, path[|path| - 1])) * (Drift(rates, base, path) * ChainKept(supported, path))
  {
    hide *;
    QuotedIsPath(rates, supported, path);
    ChainIsMidsTimesKept(rates, supported, path);
    MidsTelescope(rates, base, path);
    Associate(Quotient(Worth(base, path[0]), Worth(base, path[|path| - 1])), Drift(rates, base, path), ChainKept(supported, path));
  }

  // ---------------------------------------------------------------------------------------------
  // What the spreads leave
  // ---------------------------------------------------------------------------------------------

  lemma {:induction false} CryptoHopsBound(supported: seq<Currency>, path: seq<string>)
    ensures CryptoHops(supported, path) <= if path == [] then 0 else |path| - 1
  {
    hide IsCrypto;
    if |path| > 1 {
      CryptoHopsBound(supported, path[..|path| - 1]);
    }
  }

  /** Each hop costs exactly 1.5% if it touches a cryptocurrency and 2% otherwise. */
  lemma {:induction false} ChainKeptExactly(supported: seq<Currency>, path: seq<string>)
    requires path != []
    ensures CryptoHops(supported, path) <= |path| - 1
    ensures var c := CryptoHops(supported, path);
      ChainKept(supported, path) == Pow(0.985, c) * Pow(0.98, |path| - 1 - c)
  {
    hide IsCrypto, Pow;
    var n := |path| - 1;
    CryptoHopsBound(supported, path);
    if n <= 0 {
      PowersMultiply(0, 0);
    } else {
      ChainKeptExactly(supported, path[..n]);
      var c := CryptoHops(supported, path[..n]);
      PowersMultiply(c, n - 1 - c);
    }
  }

  lemma PowersMultiply(c: nat, d: nat)
    ensures Pow(0.985, c) * Pow(0.98, d) * 0.985 == Pow(0.985, c + 1) * Pow(0.98, d)
    ensures Pow(0.985, c) * Pow(0.98, d) * 0.98 == Pow(0.985, c) * Pow(0.98, d + 1)
    ensures c == d == 0 ==> Pow(0.985, c) * Pow(0.98, d) == 1.0
  {
  }

  lemma BoundedProduct(lo: real, x: real, hi: real, kept: real)
    requires 0.0 <= lo <= x <= hi && 0.98 <= kept <= 0.985
    ensures 0.98 * lo <= x * kept <= 0.985 * hi
  {
    MulNonNegative(x, kept - 0.98);
    MulNonNegative(x, 0.985 - kept);
    assert x * (kept - 0.98) == x * kept - 0.98 * x;
    assert x * (0.985 - kept) == 0.985 * x - x * kept;
  }

  lemma {:induction false} ChainKeptBounds(supported: seq<Currency>, path: seq<string>)
    requires path != []
    ensures 0.0 < Pow(0.98, |path| - 1) <= ChainKept(supported, path) <= Pow(0.985, |path| - 1)
    ensures |path| > 1 ==> Pow(0.985, |path| - 1) < 1.0
  {
    hide IsCrypto;
    var n := |path| - 1;
    if n > 0 {
      ChainKeptBounds(supported, path[..n]);
      BoundedProduct(Pow(0.98, n - 1), ChainKept(supported, path[..n]), Pow(0.985, n - 1), Kept(supported, path[n - 1], path[n]));
      PowPositive(0.985, n);
    }
  }

  // ---------------------------------------------------------------------------------------------
  // Which chains win
  // ---------------------------------------------------------------------------------------------

  /** What a chain is measured against: the direct mid rate, or 1 for a round trip. */
  function Direct(rates: Rates, path: seq<string>): real
    requires path != []
  {
    if path[0] == path[|path| - 1] then 1.0 else Mid(rates, path[0], path[|path| - 1])
  }

  /** How far the direct mid rate itself lies from the worth of the ends. */
  function DirectDrift(rates: Rates, base: Rates, path: seq<string>): real
    requires path != []
  {
    if path[0] == path[|path| - 1] then 1.0 else HopDrift(rates, base, path[0], path[|path| - 1])
  }

  /** The quotient of what the ends are worth. */
  function WorthRate(base: Rates, path: seq<string>): real
    requires path != []
  {
    Quotient(Worth(base, path[0]), Worth(base, path[|path| - 1]))
  }

  lemma WorthRateIs(base: Rates, path: seq<string>)
    requires path != []
    ensures WorthRate(base, path) > 0.0
    ensures GoodBase(base) && Joins(base, path) ==> WorthRate(base, path) == CrossRate(base, path[0], path[|path| - 1])
  {
    WorthPositive(base, path[0]);
    WorthPositive(base, path[|path| - 1]);
    hide Worth;
    QuotientPositive(Worth(base, path[0]), Worth(base, path[|path| - 1]));
    if GoodBase(base) && Joins(base, path) {
      WorthOfBase(base, path[0]);
      WorthOfBase(base, path[|path| - 1]);
    }
  }

  lemma QuotientPositive(from: real, to: real)
    requires from > 0.0 && to > 0.0
    ensures Quotient(from, to) > 0.0
  {
    assert to / from * from == to;
  }

  lemma WorthOfBase(base: Rates, c: string)
    requires GoodBase(base) && c in base
    ensures Worth(base, c) == base[c]
  {
  }

  /** The direct mid rate is the worth of the ends times its own drift. */
  lemma DirectFactors(rates: Rates, base: Rates, path: seq<string>)
    requires path != []
    ensures Direct(rates, path) == WorthRate(base, path) * DirectDrift(rates, base, path)
  {
    hide Mid, Worth, HopDrift;
    var a, b := path[0], path[|path| - 1];
    WorthPositive(base, a);
    WorthPositive(base, b);
    HopDriftIs(rates, base, a, b);
    if a != b {
      var there, back, mid := WorthRate(base, path), Worth(base, a) / Worth(base, b), Mid(rates, a, b);
      QuotientsCancel(Worth(base, a), Worth(base, b));
      UnitProduct(there, back, mid);
    }
  }

  lemma QuotientsCancel(a: real, b: real)
    requires a > 0.0 && b > 0.0
    ensures Quotient(a, b) * (a / b) == 1.0
  {
    Inverses(a, b);
  }

  lemma UnitProduct(x: real, y: real, mid: real)
    requires x * y == 1.0
    ensures x * (mid * y) == mid
  {
    assert x * (mid * y) == (x * y) * mid;
  }

  /** It does not drift for a round trip, or between distinct built-in codes. */
  lemma DirectIs(rates: Rates, base: Rates, path: seq<string>)
    requires GoodBase(base) && CrossTable(rates, base) && Joins(base, path)
    ensures DirectDrift(rates, base, path) == 1.0
    ensures Direct(rates, path) == CrossRate(base, path[0], path[|path| - 1]) > 0.0
  {
    hide HopDrift;
    CrossRatePositive(base, path[0], path[|path| - 1]);
    if path[0] != path[|path| - 1] {
      TableRate(rates, base, path[0], path[|path| - 1]);
      TableHasNoDrift(rates, base, path[0], path[|path| - 1]);
    }
  }

  /** What drift and spreads make of the worth of the ends. */
  function Net(rates: Rates, supported: seq<Currency>, base: Rates, path: seq<string>): real {
    Drift(rates, base, path) * ChainKept(supported, path)
  }

  lemma NetIs(rates: Rates, supported: seq<Currency>, base: Rates, path: seq<string>)
    ensures Net(rates, supported, base, path) == Drift(rates, base, path) * ChainKept(supported, path)
  {
    hide Drift, ChainKept;
  }

  lemma ChainPaysWorth(rates: Rates, supported: seq<Currency>, base: Rates, path: seq<string>)
    requires Quoted(rates, supported, path) && path != []
    ensures ChainRate(rates, supported, path) == WorthRate(base, path) * Net(rates, supported, base, path)
  {
    hide ChainRate, Drift, ChainKept, Quoted, Worth;
    ChainFactors(rates, supported, base, path);
  }

  /** Any quoted chain loses against its direct mid rate, or as a round trip, iff its drift, less what
      the spreads take, stays below the drift of the direct rate. */
  lemma ChainLosesIff(rates: Rates, supported: seq<Currency>, base: Rates, path: seq<string>)
    requires Quoted(rates, supported, path) && path != []
    ensures ChainRate(rates, supported, path) < Direct(rates, path) <==>
              Net(rates, supported, base, path) < DirectDrift(rates, base, path)
  {
    hide *;
    ChainPaysWorth(rates, supported, base, path);
    DirectFactors(rates, base, path);
    WorthRateIs(base, path);
    Compared(WorthRate(base, path), Net(rates, supported, base, path), DirectDrift(rates, base, path),
             ChainRate(rates, supported, path), Direct(rates, path));
  }

  lemma Compared(worth: real, net: real, drift: real, chain: real, direct: real)
    requires worth > 0.0 && chain == worth * net && direct == worth * drift
    ensures chain < direct <==> net < drift
  {
    ScaledComparison(worth, net, drift);
  }

  /**
   * So only the drifts decide: a chain of k hops reaches the direct rate (or 1, for a round trip) only
   * if its drift is at least 1/0.985^k times that of the direct rate, and surely if it is at least
   * 1/0.98^k times that. The drift of the direct rate is 1 between built-in codes and for round trips.
   */
  lemma ChainAgainstDirect(rates: Rates, supported: seq<Currency>, base: Rates, path: seq<string>)
    requires Quoted(rates, supported, path) && path != [] && Direct(rates, path) >= 0.0
    ensures ChainRate(rates, supported, path) >= Direct(rates, path) ==>
              Drift(rates, base, path) * Pow(0.985, |path| - 1) >= DirectDrift(rates, base, path)
    ensures Drift(rates, base, path) * Pow(0.98, |path| - 1) >= DirectDrift(rates, base, path) ==>
              ChainRate(rates, supported, path) >= Direct(rates, path)
    ensures GoodBase(base) && CrossTable(rates, base) && Joins(base, path) ==> DirectDrift(rates, base, path) == 1.0
  {
    hide *;
    ChainLosesIff(rates, supported, base, path);
    DirectFactors(rates, base, path);
    WorthRateIs(base, path);
    Compared(WorthRate(base, path), 0.0, DirectDrift(rates, base, path), 0.0, Direct(rates, path));
    Compared(WorthRate(base, path), DirectDrift(rates, base, path), 0.0, Direct(rates, path), 0.0);
    NetBounds(rates, supported, base, path, DirectDrift(rates, base, path));
    if GoodBase(base) && CrossTable(rates, base) && Joins(base, path) {
      DirectIs(rates, base, path);
    }
  }

  lemma NetBounds(rates: Rates, supported: seq<Currency>, base: Rates, path: seq<string>, t: real)
    requires path != [] && t >= 0.0
    ensures Net(rates, supported, base, path) >= t ==> Drift(rates, base, path) * Pow(0.985, |path| - 1) >= t
    ensures Drift(rates, base, path) * Pow(0.98, |path| - 1) >= t ==> Net(rates, supported, base, path) >= t
  {
    hide *;
    NetIs(rates, supported, base, path);
    ChainKeptBounds(supported, path);
    DriftBounds(Drift(rates, base, path), Pow(0.98, |path| - 1), ChainKept(supported, path), Pow(0.985, |path| - 1),
                Net(rates, supported, base, path), t);
  }

  lemma DriftBounds(drift: real, lo: real, kept: real, hi: real, net: real, t: real)
    requires 0.0 < lo <= kept <= hi && net == drift * kept && t >= 0.0
    ensures net >= t ==> drift * hi >= t
    ensures drift * lo >= t ==> net >= t
  {
    if drift >= 0.0 {
      MulNonNegative(drift, kept - lo);
      MulNonNegative(drift, hi - kept);
      assert drift * (kept - lo) == drift * kept - drift * lo;
      assert drift * (hi - kept) == drift * hi - drift * kept;
      var x, y, z := drift * lo, drift * kept, drift * hi;
      assert x <= y <= z;
    } else {
      MulPositive(-drift, lo);
      MulPositive(-drift, kept);
      MulPositive(-drift, hi);
    }
  }

  /** Without leaving the table no chain wins: it pays the direct mid rate times what the spreads
      leave, strictly less than the direct mid rate, and every round trip strictly loses. */
  lemma NoTableChainWins(rates: Rates, supported: seq<Currency>, base: Rates, path: seq<string>)
    requires GoodBase(base) && CrossTable(rates, base) && Quoted(rates, supported, path) && StaysOnTable(base, path) && |path| > 1
    ensures Joins(base, path)
    ensures Net(rates, supported, base, path) == ChainKept(supported, path)
    ensures var chain, direct, k := ChainRate(rates, supported, path), Direct(rates, path), |path| - 1;
      chain == direct * Net(rates, supported, base, path) && direct * Pow(0.98, k) <= chain <= direct * Pow(0.985, k) < direct
  {
    hide *;
    StaysWithin(base, path);
    JoinsIsPath(base, path);
    ChainPaysWorth(rates, supported, base, path);
    WorthRateIs(base, path);
    DirectIs(rates, base, path);
    OnTableNoDrift(rates, base, path);
    NetIs(rates, supported, base, path);
    ChainKeptBounds(supported, path);
    TableBounds(Direct(rates, path), Pow(0.98, |path| - 1), ChainKept(supported, path), Pow(0.985, |path| - 1),
                Drift(rates, base, path), Net(rates, supported, base, path), ChainRate(rates, supported, path));
  }

  lemma JoinsIsPath(base: Rates, path: seq<string>)
    requires Joins(base, path)
    ensures path != []
  {
  }

  lemma TableBounds(direct: real, lo: real, kept: real, hi: real, drift: real, net: real, chain: real)
    requires direct > 0.0 && lo <= kept <= hi < 1.0 && drift == 1.0 && net == drift * kept && chain == direct * net
    ensures direct * lo <= chain <= direct * hi < direct
  {
    ScaledComparison(direct, lo, kept);
    ScaledComparison(direct, kept, hi);
    ScaledComparison(direct, hi, 1.0);
  }

  lemma {:induction false} StaysWithin(base: Rates, path: seq<string>)
    requires StaysOnTable(base, path) && |path| > 1
    ensures Joins(base, path)
  {
    if |path| > 2 {
      StaysWithin(base, path[..|path| - 1]);
    }
  }

  /** A path in stretches, each beginning where the one before it ends. */
  datatype Route = Only(stretch: seq<string>) | Onward(before: Route, stretch: seq<string>)

  function PathOf(r: Route): seq<string> {
    match r
    case Only(s) => s
    case Onward(before, s) => PathOf(before) + if s == [] then [] else s[1..]
  }

  predicate Linked(r: Route) {
    r.stretch != []
    && (r.Onward? ==> var path := PathOf(r.before); Linked(r.before) && path != [] && path[|path| - 1] == r.stretch[0])
  }

  /** The mid rates of an excursion off the table, against the worth of its ends: the cross rate
      between them, if both have a base rate. */
  function ExcursionGain(rates: Rates, base: Rates, s: seq<string>): real
    requires s != []
  {
    if StaysOnTable(base, s) || WorthRate(base, s) == 0.0 then 1.0 else MidProduct(rates, s) / WorthRate(base, s)
  }

  function ExcursionGains(rates: Rates, base: Rates, r: Route): real
    requires Linked(r)
  {
    match r
    case Only(s) => ExcursionGain(rates, base, s)
    case Onward(before, s) => ExcursionGains(rates, base, before) * ExcursionGain(rates, base, s)
  }

  lemma MidsAre(rates: Rates, base: Rates, path: seq<string>)
    requires path != []
    ensures MidProduct(rates, path) == WorthRate(base, path) * Drift(rates, base, path)
  {
    hide MidProduct, Drift, Worth;
    MidsTelescope(rates, base, path);
  }

  lemma StretchDrift(rates: Rates, base: Rates, s: seq<string>)
    requires GoodBase(base) && CrossTable(rates, base) && s != []
    ensures Drift(rates, base, s) == ExcursionGain(rates, base, s)
  {
    hide GoodBase, CrossTable, StaysOnTable, Drift, MidProduct, WorthRate;
    WorthRateIs(base, s);
    if StaysOnTable(base, s) {
      OnTableNoDrift(rates, base, s);
    } else {
      MidsAre(rates, base, s);
      var x, d := WorthRate(base, s), Drift(rates, base, s);
      assert x * d / x == d;
    }
  }

  lemma {:induction false} LinkedIsPath(r: Route)
    requires Linked(r)
    ensures PathOf(r) != [] && PathOf(r)[|PathOf(r)| - 1] == r.stretch[|r.stretch| - 1]
  {
    if r.Onward? {
      LinkedIsPath(r.before);
    }
  }

  lemma {:induction false} DriftOfExcursions(rates: Rates, base: Rates, r: Route)
    requires GoodBase(base) && CrossTable(rates, base) && Linked(r)
    ensures Drift(rates, base, PathOf(r)) == ExcursionGains(rates, base, r)
  {
    hide GoodBase, CrossTable, Drift, ExcursionGain;
    StretchDrift(rates, base, r.stretch);
    if r.Onward? {
      DriftOfExcursions(rates, base, r.before);
      DriftSplits(rates, base, PathOf(r.before), r.stretch);
    }
  }

  /** What the gains of the excursions and the spreads make of the worth of the ends. */
  function NetGains(rates: Rates, supported: seq<Currency>, base: Rates, r: Route): real
    requires Linked(r)
  {
    ExcursionGains(rates, base, r) * ChainKept(supported, PathOf(r))
  }

  /**
   * A chain pays the worth of its ends, times the gains of its excursions off the table, times what
   * the spreads leave - wherever and however often it leaves the table, and wherever it begins and
   * ends. So it loses iff these gains, less the spreads, stay below the drift of the direct rate.
   */
  lemma ChainOfExcursions(rates: Rates, supported: seq<Currency>, base: Rates, r: Route)
    requires GoodBase(base) && CrossTable(rates, base) && Linked(r) && Quoted(rates, supported, PathOf(r))
    ensures PathOf(r) != []
    ensures ChainRate(rates, supported, PathOf(r)) == WorthRate(base, PathOf(r)) * NetGains(rates, supported, base, r)
    ensures ChainRate(rates, supported, PathOf(r)) < Direct(rates, PathOf(r)) <==>
              NetGains(rates, supported, base, r) < DirectDrift(rates, base, PathOf(r))
  {
    hide *;
    LinkedIsPath(r);
    NetGainsAre(rates, supported, base, r);
    ChainPaysWorth(rates, supported, base, PathOf(r));
    ChainLosesIff(rates, supported, base, PathOf(r));
  }

  lemma NetGainsAre(rates: Rates, supported: seq<Currency>, base: Rates, r: Route)
    requires GoodBase(base) && CrossTable(rates, base) && Linked(r)
    ensures NetGains(rates, supported, base, r) == Net(rates, supported, base, PathOf(r))
  {
    hide Drift, ExcursionGains, ChainKept, GoodBase, CrossTable, Linked;
    DriftOfExcursions(rates, base, r);
  }

  // ---------------------------------------------------------------------------------------------
  // One excursion; a head and a tail off the table
  // ---------------------------------------------------------------------------------------------

  /** A way along the table, an excursion `out` off it, and a way along the table again. */
  function Trip(before: seq<string>, out: seq<string>, after: seq<string>): seq<string>
    requires out != [] && after != []
  {
    (before + out[1..]) + after[1..]
  }

  ghost predicate Meet(before: seq<string>, out: seq<string>, after: seq<string>) {
    before != [] && out != [] && after != [] && before[|before| - 1] == out[0] && out[|out| - 1] == after[0]
  }

  /** The mid rates of a stretch, less the spreads of the whole path. */
  function NetMids(rates: Rates, supported: seq<Currency>, path: seq<string>, stretch: seq<string>): real {
    MidProduct(rates, stretch) * ChainKept(supported, path)
  }

  lemma NetMidsIs(rates: Rates, supported: seq<Currency>, path: seq<string>, stretch: seq<string>)
    ensures NetMids(rates, supported, path, stretch) == MidProduct(rates, stretch) * ChainKept(supported, path)
  {
    hide MidProduct, ChainKept;
  }

  /** What the direct rate of the whole path leaves for a stretch of it: the cross rate between the
      ends of the stretch, if the path begins and ends at built-in codes and so does the stretch. */
  function Share(rates: Rates, base: Rates, path: seq<string>, stretch: seq<string>): real
    requires path != [] && stretch != []
  {
    WorthRate(base, stretch) * DirectDrift(rates, base, path)
  }

  /**
   * With one excursion off the table - in the middle, at the beginning or at the end - a chain loses
   * against the direct mid rate iff the mid rates of the excursion, less what all the spreads take,
   * stay below its share of the direct rate. How the chain goes along the table does not matter.
   */
  lemma ExcursionLosesIff(
      rates: Rates, supported: seq<Currency>, base: Rates, before: seq<string>, out: seq<string>, after: seq<string>)
    requires GoodBase(base) && CrossTable(rates, base) && Meet(before, out, after)
    requires StaysOnTable(base, before) && StaysOnTable(base, after) && Quoted(rates, supported, Trip(before, out, after))
    ensures Trip(before, out, after) != []
    ensures ChainRate(rates, supported, Trip(before, out, after)) < Direct(rates, Trip(before, out, after)) <==>
              NetMids(rates, supported, Trip(before, out, after), out) < Share(rates, base, Trip(before, out, after), out)
    ensures Joins(base, Trip(before, out, after)) && Joins(base, out) ==>
              Share(rates, base, Trip(before, out, after), out) == CrossRate(base, out[0], out[|out| - 1])
  {
    assert before != [] && out != [] && after != [] && before[|before| - 1] == out[0] && out[|out| - 1] == after[0];
    hide *;
    TripIsPath(before, out, after);
    TripDrift(rates, base, before, out, after);
    NetOfExcursion(rates, supported, base, Trip(before, out, after), out);
    ChainLosesIff(rates, supported, base, Trip(before, out, after));
    if Joins(base, Trip(before, out, after)) && Joins(base, out) {
      ShareIsCross(rates, base, Trip(before, out, after), out);
    }
  }

  lemma ShareIsCross(rates: Rates, base: Rates, path: seq<string>, out: seq<string>)
    requires GoodBase(base) && CrossTable(rates, base) && Joins(base, path) && Joins(base, out)
    ensures path != [] && out != [] && Share(rates, base, path, out) == CrossRate(base, out[0], out[|out| - 1])
  {
    hide WorthRate, DirectDrift, CrossRate, CrossTable, GoodBase;
    DirectIs(rates, base, path);
    WorthRateIs(base, out);
  }

  lemma TripIsPath(before: seq<string>, out: seq<string>, after: seq<string>)
    requires before != [] && out != [] && after != [] && before[|before| - 1] == out[0] && out[|out| - 1] == after[0]
    ensures Trip(before, out, after) != []
  {
    TripEnds(before, out, after);
  }

  lemma NetOfExcursion(rates: Rates, supported: seq<Currency>, base: Rates, path: seq<string>, out: seq<string>)
    requires path != [] && out != [] && Drift(rates, base, path) == Drift(rates, base, out)
    ensures Net(rates, supported, base, path) < DirectDrift(rates, base, path) <==>
              NetMids(rates, supported, path, out) < Share(rates, base, path, out)
  {
    hide *;
    WorthRateIs(base, out);
    MidsAre(rates, base, out);
    NetIs(rates, supported, base, path);
    NetMidsIs(rates, supported, path, out);
    ShareIs(rates, base, path, out);
    var worth, mids := WorthRate(base, out), MidProduct(rates, out);
    var net, both := Net(rates, supported, base, path), NetMids(rates, supported, path, out);
    var drift, whole, kept := Drift(rates, base, out), Drift(rates, base, path), ChainKept(supported, path);
    var direct, share := DirectDrift(rates, base, path), Share(rates, base, path, out);
    NetAgainstShare(worth, drift, whole, kept, mids, net, both);
    Compared(worth, net, direct, both, share);
  }

  lemma ShareIs(rates: Rates, base: Rates, path: seq<string>, stretch: seq<string>)
    requires path != [] && stretch != []
    ensures Share(rates, base, path, stretch) == WorthRate(base, stretch) * DirectDrift(rates, base, path)
  {
    hide WorthRate, DirectDrift;
  }

  lemma NetAgainstShare(worth: real, drift: real, whole: real, kept: real, mids: real, net: real, both: real)
    requires mids == worth * drift && net == whole * kept && drift == whole && both == mids * kept
    ensures both == worth * net
  {
    Associate(worth, drift, kept);
  }

  /** Only the excursion drifts. */
  lemma TripDrift(rates: Rates, base: Rates, before: seq<string>, out: seq<string>, after: seq<string>)
    requires GoodBase(base) && CrossTable(rates, base)
    requires before != [] && out != [] && after != [] && before[|before| - 1] == out[0] && out[|out| - 1] == after[0]
    requires StaysOnTable(base, before) && StaysOnTable(base, after)
    ensures Drift(rates, base, Trip(before, out, after)) == Drift(rates, base, out)
  {
    hide *;
    TripParts(rates, base, before, out, after);
    OnTableNoDrift(rates, base, before);
    OnTableNoDrift(rates, base, after);
    Units(Drift(rates, base, before), Drift(rates, base, out), Drift(rates, base, after));
  }

  lemma TripParts(rates: Rates, base: Rates, before: seq<string>, out: seq<string>, after: seq<string>)
    requires before != [] && out != [] && after != [] && before[|before| - 1] == out[0] && out[|out| - 1] == after[0]
    ensures Drift(rates, base, Trip(before, out, after)) ==
            (Drift(rates, base, before) * Drift(rates, base, out)) * Drift(rates, base, after)
  {
    hide *;
    TripEnds(before, out, after);
    DriftSplits(rates, base, before, out);
    DriftSplits(rates, base, before + out[1..], after);
  }

  lemma Units(x: real, y: real, z: real)
    requires x == z == 1.0
    ensures (x * y) * z == y
  {
  }

  lemma TripEnds(before: seq<string>, out: seq<string>, after: seq<string>)
    requires before != [] && out != [] && after != [] && before[|before| - 1] == out[0] && out[|out| - 1] == after[0]
    ensures var path, half := Trip(before, out, after), before + out[1..];
      && path == half + after[1..] && path != [] && path[0] == before[0] && path[|path| - 1] == after[|after| - 1]
      && half != [] && half[|half| - 1] == after[0]
  {
  }

  /** The mid rates multiply where one path continues another. */
  lemma {:induction false} MidsSplit(rates: Rates, p: seq<string>, q: seq<string>)
    requires p != [] && q != [] && p[|p| - 1] == q[0]
    ensures MidProduct(rates, p + q[1..]) == MidProduct(rates, p) * MidProduct(rates, q)
  {
    hide *;
    var n, r := |q| - 1, p + q[1..];
    LastMid(rates, q);
    if n == 0 {
      assert r == p;
    } else {
      MidsSplit(rates, p, q[..n]);
      LastMid(rates, r);
      assert r[..|r| - 1] == p + q[..n][1..];
      assert r[|r| - 1] == q[n] && r[|r| - 2] == q[n - 1];
      Associate(MidProduct(rates, p), MidProduct(rates, q[..n]), Mid(rates, q[n - 1], q[n]));
    }
  }

  /** The mid rates of a head and a tail off the table, with the cross rate of the way between them. */
  function EndMids(rates: Rates, base: Rates, head: seq<string>, way: seq<string>, tail: seq<string>): real
    requires Joins(base, way)
  {
    (MidProduct(rates, head) * CrossRate(base, way[0], way[|way| - 1])) * MidProduct(rates, tail)
  }

  function NetEnds(
      rates: Rates, supported: seq<Currency>, base: Rates, head: seq<string>, way: seq<string>, tail: seq<string>): real
    requires Joins(base, way) && tail != []
  {
    EndMids(rates, base, head, way, tail) * ChainKept(supported, Trip(head, way, tail))
  }

  /**
   * A chain that begins and ends off the table, and follows it in between, pays the mid rates of its
   * head and tail with the cross rate between them, less the spreads. So it loses against the direct
   * mid rate of its ends iff that product stays below it.
   */
  lemma EndsLoseIff(
      rates: Rates, supported: seq<Currency>, base: Rates, head: seq<string>, way: seq<string>, tail: seq<string>)
    requires GoodBase(base) && CrossTable(rates, base) && Meet(head, way, tail)
    requires Joins(base, way) && StaysOnTable(base, way) && Quoted(rates, supported, Trip(head, way, tail))
    ensures Trip(head, way, tail) != []
    ensures ChainRate(rates, supported, Trip(head, way, tail)) == NetEnds(rates, supported, base, head, way, tail)
    ensures ChainRate(rates, supported, Trip(head, way, tail)) < Direct(rates, Trip(head, way, tail)) <==>
              NetEnds(rates, supported, base, head, way, tail) < Direct(rates, Trip(head, way, tail))
  {
    assert head != [] && way != [] && tail != [] && head[|head| - 1] == way[0] && way[|way| - 1] == tail[0];
    hide *;
    TripIsPath(head, way, tail);
    MidsOfEnds(rates, base, head, way, tail);
    EndsPay(rates, supported, base, head, way, tail);
  }

  lemma EndsPay(rates: Rates, supported: seq<Currency>, base: Rates, head: seq<string>, way: seq<string>, tail: seq<string>)
    requires Joins(base, way) && tail != [] && way != [] && Quoted(rates, supported, Trip(head, way, tail))
    requires MidProduct(rates, Trip(head, way, tail)) == EndMids(rates, base, head, way, tail)
    ensures ChainRate(rates, supported, Trip(head, way, tail)) == NetEnds(rates, supported, base, head, way, tail)
  {
    hide EndMids, MidProduct, ChainRate, ChainKept, Trip, Quoted;
    ChainIsMidsTimesKept(rates, supported, Trip(head, way, tail));
  }

  lemma MidsOfEnds(rates: Rates, base: Rates, head: seq<string>, way: seq<string>, tail: seq<string>)
    requires GoodBase(base) && CrossTable(rates, base) && Joins(base, way) && StaysOnTable(base, way)
    requires head != [] && way != [] && tail != [] && head[|head| - 1] == way[0] && way[|way| - 1] == tail[0]
    ensures MidProduct(rates, Trip(head, way, tail)) == EndMids(rates, base, head, way, tail)
  {
    hide *;
    TripEnds(head, way, tail);
    MidsSplit(rates, head, way);
    MidsSplit(rates, head + way[1..], tail);
    MidsOnTable(rates, base, way);
    EndMidsAre(rates, base, head, way, tail);
    var whole, half := MidProduct(rates, Trip(head, way, tail)), MidProduct(rates, head + way[1..]);
    var first, middle, last := MidProduct(rates, head), MidProduct(rates, way), MidProduct(rates, tail);
    ThreeParts(whole, half, first, middle, last, CrossRate(base, way[0], way[|way| - 1]),
               EndMids(rates, base, head, way, tail));
  }

  lemma EndMidsAre(rates: Rates, base: Rates, head: seq<string>, way: seq<string>, tail: seq<string>)
    requires Joins(base, way)
    ensures way != [] && way[0] in base && way[|way| - 1] in base
    ensures EndMids(rates, base, head, way, tail) ==
            (MidProduct(rates, head) * CrossRate(base, way[0], way[|way| - 1])) * MidProduct(rates, tail)
  {
    hide MidProduct, CrossRate;
  }

  lemma ThreeParts(whole: real, half: real, first: real, middle: real, last: real, cross: real, ends: real)
    requires whole == half * last && half == first * middle && middle == cross && ends == (first * cross) * last
    ensures whole == ends
  {
  }

  lemma MidsOnTable(rates: Rates, base: Rates, way: seq<string>)
    requires GoodBase(base) && CrossTable(rates, base) && Joins(base, way) && StaysOnTable(base, way)
    ensures MidProduct(rates, way) == CrossRate(base, way[0], way[|way| - 1])
  {
    hide MidProduct, Drift, WorthRate, CrossRate, GoodBase, CrossTable, StaysOnTable;
    MidsAre(rates, base, way);
    WorthRateIs(base, way);
    OnTableNoDrift(rates, base, way);
  }

  // ---------------------------------------------------------------------------------------------
  // The seeded tables
  // ---------------------------------------------------------------------------------------------

  /** The currencies and the rates per US dollar that the data manager seeds before the converter starts. */
  const SEEDED: seq<Currency> := [
    Currency("USD", Fiat), Currency("EUR", Fiat), Currency("GBP", Fiat), Currency("JPY", Fiat), Currency("CAD", Fiat),
    Currency("AUD", Fiat), Currency("MXN", Fiat), Currency("BRL", Fiat),
    Currency("BTC", Crypto), Currency("ETH", Crypto), Currency("USDT", Crypto)]

  const SEED_RATES: Rates := map[
    "USD" := 1.0, "EUR" := 0.92, "GBP" := 0.79, "JPY" := 149.5, "CAD" := 1.36, "AUD" := 1.52, "MXN" := 17.1, "BRL" := 4.95,
    "BTC" := 0.000023, "ETH" := 0.00031, "USDT" := 1.0]

  /** `round(x, 6)`. */
  function Round6(x: real): real {
    RoundHalfEven(x * 1000000.0) as real / 1000000.0
  }

  /** Every pair of distinct seeded codes under its underscore key, and no slash keys. */
  ghost predicate IsSeeded(rates: Rates) {
    && (forall a <- SEED_RATES, b <- SEED_RATES :: a != b && SEED_RATES[a] != 0.0 ==>
          UnderscoreKey(a, b) in rates && rates[UnderscoreKey(a, b)] == Round6(SEED_RATES[b] / SEED_RATES[a]))
    && forall k <- rates :: '/' !in k
  }

  lemma CrossKeysHaveSlash(base: Rates, k: string)
    requires IsCrossKey(base, k)
    ensures '/' in k
  {
    var a, b :| a in base && b in base && a != b && k == SlashKey(a, b);
    assert k[|a|] == '/';
  }

  /** Seeded pairs with a code that the base rates lack keep their seeded rate. */
  lemma SeededMid(seeded: Rates, rates: Rates, a: string, b: string)
    requires IsSeeded(seeded) && OthersKept(seeded, rates, BASE_RATES) && a in SEED_RATES && b in SEED_RATES && a != b
    requires a !in BASE_RATES || b !in BASE_RATES
    requires '/' !in a && '/' !in b && SEED_RATES[a] != 0.0
    ensures Mid(rates, a, b) == Round6(SEED_RATES[b] / SEED_RATES[a])
  {
    var slash, underscore := SlashKey(a, b), UnderscoreKey(a, b);
    assert '/' in slash by { assert slash[|a|] == '/'; }
    BuiltInBaseIsGood();
    hide BASE_RATES;
    if slash in rates {
      var c, d :| c in BASE_RATES && d in BASE_RATES && c != d && slash == SlashKey(c, d);
      SlashKeyInjective(a, b, c, d);
    }
    if IsCrossKey(BASE_RATES, underscore) {
      CrossKeysHaveSlash(BASE_RATES, underscore);
    }
  }

  lemma FindFirst(supported: seq<Currency>, code: string, i: nat)
    requires i < |supported| && supported[i].code == code
    requires forall j: nat :: j < i ==> supported[j].code != code
    ensures FindCurrency(supported, code) == Some(supported[i])
  {
  }

  lemma SeededCodes()
    ensures SEEDED[0] == Currency("USD", Fiat) && SEEDED[1] == Currency("EUR", Fiat) && SEEDED[2].code == "GBP"
    ensures SEEDED[3].code == "JPY" && SEEDED[4] == Currency("CAD", Fiat)
  {
  }

  lemma SeededFiat()
    ensures FindCurrency(SEEDED, "USD") == Some(Currency("USD", Fiat))
    ensures FindCurrency(SEEDED, "EUR") == Some(Currency("EUR", Fiat))
    ensures FindCurrency(SEEDED, "CAD") == Some(Currency("CAD", Fiat))
  {
    SeededCodes();
    hide FindCurrency;
    FindFirst(SEEDED, "USD", 0);
    FindFirst(SEEDED, "EUR", 1);
    FindFirst(SEEDED, "CAD", 4);
  }

  lemma SeedRates()
    ensures "USD" in SEED_RATES && SEED_RATES["USD"] == 1.0
    ensures "CAD" in SEED_RATES && SEED_RATES["CAD"] == 1.36
    ensures "EUR" in SEED_RATES && SEED_RATES["EUR"] == 0.92
  {
  }

  lemma BaseRates()
    ensures "USD" in BASE_RATES && BASE_RATES["USD"] == 1.0 && "EUR" in BASE_RATES && BASE_RATES["EUR"] == 0.85
    ensures "CAD" !in BASE_RATES && OnTable(BASE_RATES, "EUR", "USD")
  {
  }

  lemma RoundedSeeds()
    ensures Round6(1.36 / 1.0) == 1.36 && Round6(0.92 / 1.36) == 0.676471 && Round6(1.36 / 0.92) == 1.478261
  {
    var p := 1.36 / 0.92;
    assert 1478260.5 < p * 1000000.0 < 1478261.0;
    assert (p * 1000000.0).Floor == 1478260;
    var q := 0.92 / 1.36;
    assert 676470.5 < q * 1000000.0 < 676471.0;
    assert (q * 1000000.0).Floor == 676470;
    assert (1.36 * 1000000.0).Floor == 1360000;
  }

  lemma SeededDollar(seeded: Rates, rates: Rates)
    requires IsSeeded(seeded) && OthersKept(seeded, rates, BASE_RATES)
    ensures Mid(rates, "USD", "CAD") == 1.36
  {
    hide *;
    SeedRates();
    BaseRates();
    RoundedSeeds();
    SeededMid(seeded, rates, "USD", "CAD");
  }

  lemma SeededEuro(seeded: Rates, rates: Rates)
    requires IsSeeded(seeded) && OthersKept(seeded, rates, BASE_RATES)
    ensures Mid(rates, "CAD", "EUR") == 0.676471
  {
    hide *;
    SeedRates();
    BaseRates();
    RoundedSeeds();
    SeededMid(seeded, rates, "CAD", "EUR");
  }

  lemma SeededEuroDollar(seeded: Rates, rates: Rates)
    requires IsSeeded(seeded) && OthersKept(seeded, rates, BASE_RATES)
    ensures Mid(rates, "EUR", "CAD") == 1.478261
  {
    hide *;
    SeedRates();
    BaseRates();
    RoundedSeeds();
    SeededMid(seeded, rates, "EUR", "CAD");
  }

  lemma BuiltInEuro(rates: Rates)
    requires CrossTable(rates, BASE_RATES)
    ensures Mid(rates, "EUR", "USD") == 1.0 / 0.85
  {
    hide *;
    BaseRates();
    BuiltInBaseIsGood();
    TableMid(rates, BASE_RATES, "EUR", "USD");
  }

  lemma TableMid(rates: Rates, base: Rates, a: string, b: string)
    requires GoodBase(base) && CrossTable(rates, base) && OnTable(base, a, b)
    ensures Mid(rates, a, b) == base[b] / base[a]
  {
    TableRate(rates, base, a, b);
    hide MidRate, CrossTable;
  }

  /**
   * On the seeded data a round trip through the Canadian dollar, which the base rates lack, gains
   * 1.8%: the seeded euro is cheaper than the built-in one by more than three spreads.
   */
  lemma SeededCycleGains(seeded: Rates, rates: Rates)
    requires IsSeeded(seeded) && OthersKept(seeded, rates, BASE_RATES) && CrossTable(rates, BASE_RATES)
    ensures Quoted(rates, SEEDED, ["USD", "CAD", "EUR", "USD"])
    ensures ChainRate(rates, SEEDED, ["USD", "CAD", "EUR", "USD"]) > 1.018
    ensures ChainRate(rates, SEEDED, ["USD", "CAD", "EUR"]) > 0.88
  {
    hide *;
    SeededDollar(seeded, rates);
    SeededEuro(seeded, rates);
    BuiltInEuro(rates);
    SeededFiat();
    CycleGains(rates, SEEDED, "USD", "CAD", "EUR");
  }

  /** And from the euro into the Canadian dollar the way over the US dollar pays 1.53 where the direct
      mid rate is 1.478261: here the chain ends at a code that the base rates lack. */
  lemma SeededTailWins(seeded: Rates, rates: Rates)
    requires IsSeeded(seeded) && OthersKept(seeded, rates, BASE_RATES) && CrossTable(rates, BASE_RATES)
    ensures Quoted(rates, SEEDED, ["EUR", "USD", "CAD"])
    ensures ChainRate(rates, SEEDED, ["EUR", "USD", "CAD"]) > 1.53 > Mid(rates, "EUR", "CAD") == 1.478261
  {
    hide *;
    SeededDollar(seeded, rates);
    SeededEuroDollar(seeded, rates);
    BuiltInEuro(rates);
    SeededFiat();
    TwoHops(rates, SEEDED, "EUR", "USD", "CAD");
  }

  lemma TwoHops(rates: Rates, supported: seq<Currency>, a: string, b: string, c: string)
    requires FindCurrency(supported, a) == Some(Currency(a, Fiat))
    requires FindCurrency(supported, b) == Some(Currency(b, Fiat))
    requires FindCurrency(supported, c) == Some(Currency(c, Fiat))
    requires Mid(rates, a, b) == 1.0 / 0.85 && Mid(rates, b, c) == 1.36
    ensures Quoted(rates, supported, [a, b, c]) && ChainRate(rates, supported, [a, b, c]) > 1.53
  {
    hide *;
    FiatHop(rates, supported, a, b);
    FiatHop(rates, supported, b, c);
    ChainOfTwo(rates, supported, a, b, c);
    TwoAmounts(EffectiveRate(rates, supported, a, b), EffectiveRate(rates, supported, b, c));
  }

  lemma TwoAmounts(x: real, y: real)
    requires x == 1.0 / 0.85 * 0.98 && y == 1.36 * 0.98
    ensures x * y > 1.53
  {
  }

  lemma ChainOfTwo(rates: Rates, supported: seq<Currency>, a: string, b: string, c: string)
    requires GetExchangeRate(rates, supported, a, b).Some? && GetExchangeRate(rates, supported, b, c).Some?
    ensures Quoted(rates, supported, [a, b, c])
    ensures ChainRate(rates, supported, [a, b, c]) == EffectiveRate(rates, supported, a, b) * EffectiveRate(rates, supported, b, c)
  {
    hide GetExchangeRate, EffectiveRate;
    assert [a, b, c][..2] == [a, b] && [a, b][..1] == [a];
    assert Quoted(rates, supported, [a]) && ChainRate(rates, supported, [a]) == 1.0;
    assert Quoted(rates, supported, [a, b]) && ChainRate(rates, supported, [a, b]) == EffectiveRate(rates, supported, a, b);
  }

  lemma CycleGains(rates: Rates, supported: seq<Currency>, a: string, b: string, c: string)
    requires FindCurrency(supported, a) == Some(Currency(a, Fiat))
    requires FindCurrency(supported, b) == Some(Currency(b, Fiat))
    requires FindCurrency(supported, c) == Some(Currency(c, Fiat))
    requires Mid(rates, a, b) == 1.36 && Mid(rates, b, c) == 0.676471 && Mid(rates, c, a) == 1.0 / 0.85
    ensures Quoted(rates, supported, [a, b, c, a])
    ensures ChainRate(rates, supported, [a, b, c, a]) > 1.018
    ensures ChainRate(rates, supported, [a, b, c]) > 0.88
  {
    hide *;
    FiatHop(rates, supported, a, b);
    FiatHop(rates, supported, b, c);
    FiatHop(rates, supported, c, a);
    ChainOfThree(rates, supported, a, b, c, a);
    CycleAmounts(EffectiveRate(rates, supported, a, b), EffectiveRate(rates, supported, b, c),
                 EffectiveRate(rates, supported, c, a));
  }

  lemma CycleAmounts(x: real, y: real, z: real)
    requires x == 1.36 * 0.98 && y == 0.676471 * 0.98 && z == 1.0 / 0.85 * 0.98
    ensures x * y > 0.88 && (x * y) * z > 1.018
  {
  }

  lemma FiatHop(rates: Rates, supported: seq<Currency>, a: string, b: string)
    requires FindCurrency(supported, a) == Some(Currency(a, Fiat)) && FindCurrency(supported, b) == Some(Currency(b, Fiat))
    requires Mid(rates, a, b) > 0.0
    ensures GetExchangeRate(rates, supported, a, b).Some? && EffectiveRate(rates, supported, a, b) == Mid(rates, a, b) * 0.98
  {
    hide FindCurrency, MidRate;
    HopRate(rates, supported, a, b);
  }

  lemma ChainOfThree(rates: Rates, supported: seq<Currency>, a: string, b: string, c: string, d: string)
    requires GetExchangeRate(rates, supported, a, b).Some? && GetExchangeRate(rates, supported, b, c).Some?
    requires GetExchangeRate(rates, supported, c, d).Some?
    ensures Quoted(rates, supported, [a, b, c, d])
    ensures ChainRate(rates, supported, [a, b, c]) == EffectiveRate(rates, supported, a, b) * EffectiveRate(rates, supported, b, c)
    ensures ChainRate(rates, supported, [a, b, c, d]) ==
            ChainRate(rates, supported, [a, b, c]) * EffectiveRate(rates, supported, c, d)
  {
    hide GetExchangeRate, EffectiveRate;
    assert [a, b, c, d][..3] == [a, b, c];
    ChainOfTwo(rates, supported, a, b, c);
  }

  // ---------------------------------------------------------------------------------------------
  // The converter manager
  // ---------------------------------------------------------------------------------------------

  class CurrencyConverterManager {
    var exchangeRates: Rates
    var supported: seq<Currency>
    var quotes: seq<Quote>

    /** A list of currencies and a table that the data manager already has are kept. */
    constructor (listed: Option<seq<Currency>>, table: Option<Rates>)
      ensures supported == match listed { case Some(currencies) => currencies case None => SUPPORTED }
      ensures CrossTable(exchangeRates, BASE_RATES)
      ensures OthersKept(match table { case Some(rates) => rates case None => map[] }, exchangeRates, BASE_RATES)
      ensures quotes == []
    {
      supported := if listed.Some? then listed.value else SUPPORTED;
      exchangeRates := if table.Some? then table.value else map[];
      quotes := [];
      new;
      BuiltInBaseIsGood();
      hide BASE_RATES, SUPPORTED;
      InitExchangeRates(BASE_RATES);
    }

    method InitExchangeRates(base: Rates)
      requires GoodBase(base)
      modifies this`exchangeRates
      ensures CrossTable(exchangeRates, base)
      ensures OthersKept(old(exchangeRates), exchangeRates, base)
    {
      var fromLeft := base.Keys;
      while fromLeft != {}
        invariant fromLeft <= base.Keys
        invariant forall a, b :: a in base && a !in fromLeft && b in base && a != b ==> HasCross(exchangeRates, base, a, b)
        invariant OthersKept(old(exchangeRates), exchangeRates, base)
        decreases fromLeft
      {
        var from :| from in fromLeft;
        var toLeft := base.Keys;
        while toLeft != {}
          invariant toLeft <= base.Keys
          invariant forall a, b :: a in base && a !in fromLeft && b in base && a != b ==> HasCross(exchangeRates, base, a, b)
          invariant forall b :: b in base && b !in toLeft && from != b ==> HasCross(exchangeRates, base, from, b)
          invariant OthersKept(old(exchangeRates), exchangeRates, base)
          decreases toLeft
        {
          var to :| to in toLeft;
          if from != to {
            ghost var before := exchangeRates;
            exchangeRates := exchangeRates[SlashKey(from, to) := base[to] / base[from]];
            OneEntry(before, exchangeRates, base, from, to);
          }
          toLeft := toLeft - {to};
        }
        fromLeft := fromLeft - {from};
      }
    }

    method CreateConversionQuote(userId: int, from: string, to: string, amount: real) returns (r: Option<Quote>)
      modifies this`quotes
      ensures r.None? <==> GetExchangeRate(exchangeRates, supported, from, to).None?
      ensures r.None? ==> quotes == old(quotes)
      ensures r.Some? ==>
                && quotes == old(quotes) + [r.value]
                && r.value.userId == userId && r.value.from == from && r.value.to == to
                && r.value.fromAmount == r.value.totalCost == amount && r.value.feeAmount == 0.0
                && r.value.exchangeRate == Mid(exchangeRates, from, to) * Kept(supported, from, to)
                && r.value.toAmount == amount * r.value.exchangeRate
    {
      hide GetExchangeRate, Kept, Mid;
      HopRate(exchangeRates, supported, from, to);
      var info := GetExchangeRate(exchangeRates, supported, from, to);
      if info.None? {
        return None;
      }
      var toAmount := amount * info.value.effectiveRate;
      var quote := Quote(userId, from, to, amount, toAmount, info.value.effectiveRate, 0.0, amount);
      quotes := quotes + [quote];
      return Some(quote);
    }
  }
}
