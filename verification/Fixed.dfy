/** Exact fixed-point money arithmetic: shares and prices in millionths, currency in
    cents, every product rounded half up on its own. */
module Fixed {

  const SHARE_SCALE: int := 1_000_000
  const PRICE_SCALE: int := 1_000_000
  const CENTS_SCALE: int := 100
  const MAX_SHARE_UNITS: int := 8_000_000_000_000_000
  const MAX_INT64: int := 0x7fff_ffff_ffff_ffff

  /** Millionths of a share times millionths of a unit, per cent. */
  const CENT_UNIT: int := 10_000_000_000

  /** Whole-cent prices, and shares whose par value is whole cents. */
  const GRID: int := 10_000

  datatype Side = Buy | Sell

  /** Division of Go's big.Int.QuoRem: truncation toward zero. */
  function Quo(value: int, denominator: int): int
    requires denominator > 0
  {
    if value >= 0 then value / denominator else -((-value) / denominator)
  }

  function DivideRounded(value: int, denominator: int): (q: int)
    requires denominator > 0
    ensures value >= 0 ==> 2 * q * denominator <= 2 * value + denominator < 2 * q * denominator + 2 * denominator
  {
    var q := Quo(value, denominator);
    var remainder := value - q * denominator;
    RemainderRange(value, denominator);
    if 2 * remainder >= denominator then q + 1 else q
  }

  lemma RemainderRange(value: int, denominator: int)
    requires denominator > 0
    ensures value >= 0 ==> 0 <= value - Quo(value, denominator) * denominator < denominator
  {
    if value >= 0 {
      assert value == value / denominator * denominator + value % denominator;
    }
  }

  function ProductCents(shares: int, price: int): int {
    DivideRounded(shares * price * CENTS_SCALE, SHARE_SCALE * PRICE_SCALE)
  }

  function Exposure(side: Side, price: int): int {
    if side.Sell? then PRICE_SCALE - price else price
  }

  function CollateralCents(side: Side, shares: int, price: int): int {
    ProductCents(shares, Exposure(side, price))
  }

  function PriceImprovementCents(side: Side, shares: int, limitPrice: int, matchedPrice: int): int {
    var difference := if side.Sell? then matchedPrice - limitPrice else limitPrice - matchedPrice;
    if difference <= 0 then 0 else ProductCents(shares, difference)
  }

  function PayoutCents(shares: int): int {
    DivideRounded(shares * CENTS_SCALE, SHARE_SCALE)
  }

  /** What one fill stakes: the buyer its collateral at the matched price, the seller
      the rest of the par value. */
  function StakeCents(side: Side, shares: int, matchedPrice: int): int {
    var buyer := CollateralCents(Buy, shares, matchedPrice);
    if side.Buy? then buyer else PayoutCents(shares) - buyer
  }

  ghost predicate ValidPrice(price: int) { 0 < price < PRICE_SCALE }

  ghost predicate ValidShares(shares: int) { 0 < shares <= MAX_SHARE_UNITS }

  ghost predicate WholeShares(shares: int) { shares % SHARE_SCALE == 0 }

  ghost predicate WholeCents(price: int) { price % GRID == 0 }

  lemma MulNonNegative(a: int, b: int)
    requires a >= 0 && b >= 0
    ensures a * b >= 0
  {
  }

  /** Rounding a product is off by at most half a cent, and ties go up. */
  lemma ProductError(shares: int, price: int)
    requires shares >= 0 && price >= 0
    ensures 0 <= ProductCents(shares, price)
    ensures -CENT_UNIT <= 2 * (shares * price) - 2 * CENT_UNIT * ProductCents(shares, price) < CENT_UNIT
  {
    MulNonNegative(shares, price);
  }

  /** No rounding at all when the product is whole cents. */
  lemma ProductExact(shares: int, price: int, cents: int)
    requires shares >= 0 && price >= 0
    requires shares * price == CENT_UNIT * cents
    ensures ProductCents(shares, price) == cents
  {
    ProductError(shares, price);
  }

  lemma {:induction false} GridProduct(shares: int, price: int)
    requires WholeShares(shares) && WholeCents(price)
    ensures shares * price == CENT_UNIT * ((shares / SHARE_SCALE) * (price / GRID))
  {
    var s, p := shares / SHARE_SCALE, price / GRID;
    assert shares == SHARE_SCALE * s && price == GRID * p;
    calc {
      shares * price;
      (SHARE_SCALE * s) * (GRID * p);
      SHARE_SCALE * GRID * (s * p);
    }
  }

  lemma PayoutError(shares: int)
    requires shares >= 0
    ensures 0 <= PayoutCents(shares)
    ensures -GRID <= 2 * shares - 2 * GRID * PayoutCents(shares) < GRID
  {
  }

  /** Par value is linear on shares of whole cents. */
  lemma PayoutExact(shares: int)
    requires shares >= 0 && shares % GRID == 0
    ensures GRID * PayoutCents(shares) == shares
  {
    PayoutError(shares);
  }

  lemma MulMonotone(a: int, b: int, c: int)
    requires a >= 0 && b <= c
    ensures a * b <= a * c
  {
  }

  /** The seller's share of a fill is never negative: rounding is monotone. */
  lemma StakeNonNegative(side: Side, shares: int, price: int)
    requires shares >= 0 && 0 <= price <= PRICE_SCALE
    ensures 0 <= StakeCents(side, shares, price) <= PayoutCents(shares)
  {
    ProductError(shares, price);
    PayoutError(shares);
    MulMonotone(shares, price, PRICE_SCALE);
  }

  /** Every validated amount stays inside the 64-bit cents of the stored columns. */
  lemma CentsFitInt64(side: Side, shares: int, price: int)
    requires ValidShares(shares) && ValidPrice(price)
    ensures 0 <= CollateralCents(side, shares, price) <= PayoutCents(shares) <= MAX_INT64
  {
    ProductError(shares, Exposure(side, price));
    PayoutError(shares);
    MulMonotone(shares, Exposure(side, price), PRICE_SCALE);
  }

  /** The two sides of a fill cover its par value, up to the cent that two roundings
      can add or drop. */
  lemma ComplementaryCollateral(shares: int, price: int)
    requires shares >= 0 && 0 <= price <= PRICE_SCALE
    ensures -1 <= CollateralCents(Buy, shares, price) + CollateralCents(Sell, shares, price) - PayoutCents(shares) <= 1
  {
    ProductError(shares, price);
    ProductError(shares, PRICE_SCALE - price);
    PayoutError(shares);
    assert shares * (PRICE_SCALE - price) == shares * PRICE_SCALE - shares * price;
  }

  /** With whole-cent shares the cover is exact, except one cent more exactly when the
      buyer's product lies on a half cent. */
  lemma ComplementaryCollateralOnGrid(shares: int, price: int)
    requires shares >= 0 && shares % GRID == 0 && 0 <= price <= PRICE_SCALE
    ensures CollateralCents(Buy, shares, price) + CollateralCents(Sell, shares, price)
         == PayoutCents(shares) + (if shares * price % CENT_UNIT == CENT_UNIT / 2 then 1 else 0)
  {
    ProductError(shares, price);
    ProductError(shares, PRICE_SCALE - price);
    PayoutExact(shares);
    Distribute(price, PRICE_SCALE - price, shares);
    HalfCentSplit(shares * price, shares * (PRICE_SCALE - price), CollateralCents(Buy, shares, price),
                  CollateralCents(Sell, shares, price), PayoutCents(shares));
  }

  lemma HalfCentSplit(x: int, y: int, a: int, b: int, p: int)
    requires x + y == CENT_UNIT * p
    requires -CENT_UNIT <= 2 * x - 2 * CENT_UNIT * a < CENT_UNIT
    requires -CENT_UNIT <= 2 * y - 2 * CENT_UNIT * b < CENT_UNIT
    ensures a + b == p + (if x % CENT_UNIT == CENT_UNIT / 2 then 1 else 0)
  {
    assert x % CENT_UNIT == (if x >= CENT_UNIT * a then x - CENT_UNIT * a else x - CENT_UNIT * (a - 1));
  }

  lemma Distribute(a: int, b: int, c: int)
    ensures a * c + b * c == (a + b) * c
    ensures c * a + c * b == c * (a + b)
  {
  }

  function Improvement(side: Side, limitPrice: int, matchedPrice: int): int {
    if side.Sell? then matchedPrice - limitPrice else limitPrice - matchedPrice
  }

  /** What is left of twice a fill's collateral product once its stake and its refund,
      both rounded, are taken away. */
  function FillError(side: Side, shares: int, limitPrice: int, matchedPrice: int): int {
    2 * CENT_UNIT * (StakeCents(side, shares, matchedPrice) + PriceImprovementCents(side, shares, limitPrice, matchedPrice))
    - 2 * (shares * Exposure(side, limitPrice))
  }

  /** The limit-price product is the matched-price product plus the improvement. */
  lemma ExposureSplit(side: Side, shares: int, limitPrice: int, matchedPrice: int)
    ensures shares * Exposure(side, limitPrice)
         == shares * Improvement(side, limitPrice, matchedPrice)
            + (if side.Buy? then shares * matchedPrice else PRICE_SCALE * shares - shares * matchedPrice)
  {
    Distribute(matchedPrice, Improvement(side, limitPrice, matchedPrice), shares);
    Distribute(PRICE_SCALE - matchedPrice, Improvement(side, limitPrice, matchedPrice), shares);
    Distribute(PRICE_SCALE, -matchedPrice, shares);
  }

  /** A fill's error in terms of its three roundings. */
  lemma FillErrorSplit(side: Side, shares: int, limitPrice: int, matchedPrice: int)
    requires ValidPrice(limitPrice) && ValidPrice(matchedPrice)
    ensures FillError(side, shares, limitPrice, matchedPrice)
         == 2 * CENT_UNIT * ((if side.Buy? then ProductCents(shares, matchedPrice) else PayoutCents(shares) - ProductCents(shares, matchedPrice))
                            + PriceImprovementCents(side, shares, limitPrice, matchedPrice))
            - 2 * (shares * Improvement(side, limitPrice, matchedPrice)
                   + (if side.Buy? then shares * matchedPrice else PRICE_SCALE * shares - shares * matchedPrice))
  {
    ExposureSplit(side, shares, limitPrice, matchedPrice);
  }

  /** One fill is off by at most a half cent for each of its roundings. */
  lemma FillErrorBound(side: Side, shares: int, limitPrice: int, matchedPrice: int)
    requires shares >= 0 && ValidPrice(limitPrice) && ValidPrice(matchedPrice)
    requires Improvement(side, limitPrice, matchedPrice) >= 0
    ensures -FillHalfCents(side, limitPrice, matchedPrice) * CENT_UNIT
         <= FillError(side, shares, limitPrice, matchedPrice)
         <= FillHalfCents(side, limitPrice, matchedPrice) * CENT_UNIT
  {
    var q, r, par := ProductCents(shares, matchedPrice), PriceImprovementCents(side, shares, limitPrice, matchedPrice), PayoutCents(shares);
    var x, d := shares * matchedPrice, Improvement(side, limitPrice, matchedPrice);
    var y := shares * d;
    FillErrorSplit(side, shares, limitPrice, matchedPrice);
    assert -CENT_UNIT <= 2 * x - 2 * CENT_UNIT * q < CENT_UNIT by { ProductError(shares, matchedPrice); }
    assert if d != 0 then -CENT_UNIT <= 2 * y - 2 * CENT_UNIT * r < CENT_UNIT else y == r == 0 by { ProductError(shares, d); }
    assert -GRID <= 2 * shares - 2 * GRID * par < GRID by { PayoutError(shares); }
    hide FillError, ProductCents, PriceImprovementCents, PayoutCents;
    HalfCentsAddUp(side, q, r, par, x, y, shares, d != 0);
  }

  /** The linear part of `FillErrorBound`: three roundings `q`, `r` and `par` of three
      products, the second of them absent when the price did not improve. */
  lemma HalfCentsAddUp(side: Side, q: int, r: int, par: int, x: int, y: int, shares: int, improved: bool)
    requires -CENT_UNIT <= 2 * x - 2 * CENT_UNIT * q < CENT_UNIT
    requires if improved then -CENT_UNIT <= 2 * y - 2 * CENT_UNIT * r < CENT_UNIT else y == r == 0
    requires -GRID <= 2 * shares - 2 * GRID * par < GRID
    ensures var halves := (if side.Buy? then 1 else 2) + (if improved then 1 else 0);
            var error := 2 * CENT_UNIT * ((if side.Buy? then q else par - q) + r)
                         - 2 * (y + (if side.Buy? then x else PRICE_SCALE * shares - x));
            -halves * CENT_UNIT <= error <= halves * CENT_UNIT
  {
  }

  /** On the grid of whole shares and whole-cent prices a fill is exact. */
  lemma FillErrorOnGrid(side: Side, shares: int, limitPrice: int, matchedPrice: int)
    requires shares >= 0 && ValidPrice(limitPrice) && ValidPrice(matchedPrice)
    requires Improvement(side, limitPrice, matchedPrice) >= 0
    requires WholeShares(shares) && WholeCents(limitPrice) && WholeCents(matchedPrice)
    ensures FillError(side, shares, limitPrice, matchedPrice) == 0
  {
    hide FillError, ProductCents, PriceImprovementCents, PayoutCents, WholeShares, WholeCents;
    FillErrorSplit(side, shares, limitPrice, matchedPrice);
    GridProductCents(shares, matchedPrice);
    GridImprovementCents(side, shares, limitPrice, matchedPrice);
    WholeSharesPayout(shares);
    GridAddsUp(side, ProductCents(shares, matchedPrice), PriceImprovementCents(side, shares, limitPrice, matchedPrice),
               PayoutCents(shares), shares * matchedPrice, shares * Improvement(side, limitPrice, matchedPrice), shares);
  }

  lemma GridImprovementCents(side: Side, shares: int, limitPrice: int, matchedPrice: int)
    requires shares >= 0 && Improvement(side, limitPrice, matchedPrice) >= 0
    requires WholeShares(shares) && WholeCents(limitPrice) && WholeCents(matchedPrice)
    ensures shares * Improvement(side, limitPrice, matchedPrice)
         == CENT_UNIT * PriceImprovementCents(side, shares, limitPrice, matchedPrice)
  {
    var d := Improvement(side, limitPrice, matchedPrice);
    if d > 0 {
      assert WholeCents(d);
      hide WholeCents, WholeShares, ProductCents;
      GridProductCents(shares, d);
    }
  }

  lemma GridProductCents(shares: int, price: int)
    requires shares >= 0 && price >= 0 && WholeShares(shares) && WholeCents(price)
    ensures shares * price == CENT_UNIT * ProductCents(shares, price)
  {
    GridProduct(shares, price);
    ProductExact(shares, price, (shares / SHARE_SCALE) * (price / GRID));
  }

  /** The linear part of `FillErrorOnGrid`. */
  lemma GridAddsUp(side: Side, q: int, r: int, par: int, x: int, y: int, shares: int)
    requires x == CENT_UNIT * q && y == CENT_UNIT * r && shares == GRID * par
    ensures 2 * CENT_UNIT * ((if side.Buy? then q else par - q) + r)
         == 2 * (y + (if side.Buy? then x else PRICE_SCALE * shares - x))
  {
  }

  lemma WholeSharesPayout(shares: int)
    requires shares >= 0 && WholeShares(shares)
    ensures shares % GRID == 0 && GRID * PayoutCents(shares) == shares
  {
    PayoutExact(shares);
  }

  /** The half cents one fill can be off: one per rounding that can be inexact. */
  function FillHalfCents(side: Side, limitPrice: int, matchedPrice: int): int {
    (if side.Buy? then 1 else 2) + (if matchedPrice == limitPrice then 0 else 1)
  }
}
