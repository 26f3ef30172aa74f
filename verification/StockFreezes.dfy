/** The query that decides whether a stock freeze blocks an operation on a quant. */
module StockFreezes {
  import opened Common

  /** A row of `stock_freezes`; a `None` field is a NULL column. */
  datatype Freeze = Freeze(
    active: bool,
    plan: Option<nat>,
    quant: Option<nat>,
    location: Option<string>,
    sku: Option<string>)

  /** `buildActiveStockFreezeWhere` for a stored quant: the five scoped matches, as listed. */
  predicate Blocks(f: Freeze, quant: nat, location: string, sku: string) {
    && f.active
    && (|| (f.quant.None? && f.location.None? && f.sku.None?)
        || (f.quant == Some(quant) && f.location.None? && f.sku.None?)
        || (f.quant.None? && f.location == Some(location) && f.sku == Some(sku))
        || (f.quant.None? && f.location == Some(location) && f.sku.None?)
        || (f.quant.None? && f.location.None? && f.sku == Some(sku)))
  }

  /** A freeze covers a quant when no column it sets disagrees with the quant. */
  predicate Covers(f: Freeze, quant: nat, location: string, sku: string) {
    && (f.quant.Some? ==> f.quant.value == quant)
    && (f.location.Some? ==> f.location.value == location)
    && (f.sku.Some? ==> f.sku.value == sku)
  }

  /** The row `releasePlan` writes for a counted quant: plan, location, SKU and quant all set. */
  function CountFreeze(plan: nat, quant: nat, location: string, sku: string): Freeze {
    Freeze(true, Some(plan), Some(quant), Some(location), Some(sku))
  }

  /** A covering active freeze blocks its quant exactly when it does not name the
      quant together with a location or a SKU. */
  lemma {:induction false} BlocksExactlyWhen(f: Freeze, quant: nat, location: string, sku: string)
    ensures f.active && Covers(f, quant, location, sku) ==>
              (Blocks(f, quant, location, sku) <==> f.quant.None? || (f.location.None? && f.sku.None?))
    ensures Blocks(f, quant, location, sku) ==> f.active && Covers(f, quant, location, sku)
    ensures forall plan: nat :: var f := CountFreeze(plan, quant, location, sku);
      f.active && f.plan == Some(plan) && Covers(f, quant, location, sku)
    ensures forall plan, q, l, s :: !Blocks(CountFreeze(plan, quant, location, sku), q, l, s)
  {
  }
}
