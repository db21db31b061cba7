/** The custom-package builder: the draft build kept in session storage under
    `customBuild`, its price from two fixed tables, and the cart line a saved build
    becomes. */
module CustomBuilder {

  import opened Text
  import opened Money
  import opened Wrappers
  import opened Cart

  /** The saved draft. `price` is fixed when the draft is saved and not recomputed later. */
  datatype CustomBuild = CustomBuild(size: string, plantType: string, notes: string, price: nat)

  const SizePrices: map<string, nat> := map["small" := 15, "medium" := 25, "large" := 40]

  const PlantPrices: map<string, nat> := map["succulent" := 8, "fern" := 10, "palm" := 18]

  /** `table[key] || 0`: a key the table does not list counts as 0. */
  function Lookup(table: map<string, nat>, key: string): (v: nat)
    ensures key !in table ==> v == 0
    ensures key in table && table[key] > 0 ==> v == table[key]
  {
    if key in table then table[key] else 0
  }

  /** The build price: the size's base price plus the plant's base price. */
  function BuildPrice(size: string, plantType: string): (price: nat)
    ensures price <= 58
    ensures price == 0 <==> size !in SizePrices && plantType !in PlantPrices
    ensures price == 58 <==> size == "large" && plantType == "palm"
  {
    Lookup(SizePrices, size) + Lookup(PlantPrices, plantType)
  }

  /** Examples of build prices. */
  lemma BuildPriceExamples()
    ensures BuildPrice("medium", "fern") == 35
    ensures BuildPrice("small", "succulent") == 23
    ensures BuildPrice("large", "") == 40
    ensures BuildPrice("tiny", "palm") == 18
  {
  }

  const BuildIdPrefix := "custom_build_"

  /** `'custom_build_' + Date.now()`, for the clock reading `now` in milliseconds. */
  function BuildItemId(now: nat): string {
    BuildIdPrefix + DecimalString(now)
  }

  /** Builds added at different milliseconds get different ids. */
  lemma BuildItemIdInjective(m: nat, n: nat)
    requires m != n
    ensures BuildItemId(m) != BuildItemId(n)
  {
    DecimalInjective(m, n);
    assert BuildItemId(m)[|BuildIdPrefix|..] == DecimalString(m);
    assert BuildItemId(n)[|BuildIdPrefix|..] == DecimalString(n);
  }

  /** The cart line for a saved build: a fresh id from the clock, a descriptive name,
      the price written as `String(price)` and one unit. */
  function BuildItem(b: CustomBuild, now: nat): (it: CartItem)
    ensures it.id == BuildItemId(now)
    ensures it.name == "Custom Package (" + b.size + ", " + b.plantType + ")"
    ensures it.qty == Some(1)
    ensures it.price == DecimalString(b.price)
    ensures PriceOf(it.price) == Cents(100 * b.price)
    ensures LineAmount(it) == Cents(100 * b.price)
  {
    PriceOfDecimal(b.price);
    CartItem(BuildItemId(now), "Custom Package (" + b.size + ", " + b.plantType + ")",
             DecimalString(b.price), Some(1))
  }
}
