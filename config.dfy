/** The static configuration the collector reads (config.py): the five wear
    conditions in their fixed order, the listing types, the marketplace URL. */
module Config {

  /** The five wear conditions, keyed in the source by their Chinese labels. */
  datatype Wear = FactoryNew | MinimalWear | FieldTested | WellWorn | BattleScarred

  /** The iteration order of `WEAR_LEVELS.keys()`. */
  const WEAR_LEVELS: seq<Wear> := [FactoryNew, MinimalWear, FieldTested, WellWorn, BattleScarred]

  /** The label a page shows for a wear condition. */
  function Label(w: Wear): string
  {
    match w
    case FactoryNew => "崭新出厂"
    case MinimalWear => "略有磨损"
    case FieldTested => "久经沙场"
    case WellWorn => "破损不堪"
    case BattleScarred => "战痕累累"
  }

  /** Position of a wear condition in `WEAR_LEVELS`. */
  function WearIndex(w: Wear): (k: nat)
    ensures k < |WEAR_LEVELS| && WEAR_LEVELS[k] == w
  {
    match w
    case FactoryNew => 0
    case MinimalWear => 1
    case FieldTested => 2
    case WellWorn => 3
    case BattleScarred => 4
  }

  const BASE_URL: string := "https://www.youpin898.com/market/goods-list"
  const GAME_ID: nat := 730
  const LIST_TYPE_SELL: nat := 10
  const LIST_TYPE_RENT: nat := 30
  const OUTPUT_DIR: string := "output"

  /** Every wear condition occurs exactly once in `WEAR_LEVELS`, and the labels are distinct. */
  lemma WearLevelsEnumerateWear()
    ensures forall w: Wear :: w in WEAR_LEVELS
    ensures forall i, j :: 0 <= i < j < |WEAR_LEVELS| ==> WEAR_LEVELS[i] != WEAR_LEVELS[j]
    ensures forall v: Wear, w: Wear :: v != w ==> Label(v) != Label(w)
  {
    forall w: Wear ensures w in WEAR_LEVELS {
      assert WEAR_LEVELS[WearIndex(w)] == w;
    }
  }
}
