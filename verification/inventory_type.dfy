/** `InventoryType` (src/domain/value_objects/inventory_type.rs): the kind of a
    stock movement and its Japanese label. */
module InventoryTypes {

  datatype InventoryType = Production | Purchase | Sales

  /** `InventoryType::as_str`: each kind has its own label. */
  function AsStr(t: InventoryType): (r: string)
    ensures r == "生産" <==> t == Production
    ensures r == "仕入" <==> t == Purchase
    ensures r == "売上" <==> t == Sales
  {
    match t
    case Production => "生産"
    case Purchase => "仕入"
    case Sales => "売上"
  }

  /** Equality is by kind, and distinct kinds never share a label. */
  lemma AsStrInjective(a: InventoryType, b: InventoryType)
    ensures AsStr(a) == AsStr(b) <==> a == b
  {
  }
}
