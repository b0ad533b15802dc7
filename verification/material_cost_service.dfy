/** `MaterialCostCalculationService` (src/domain/services.rs): the material
    cost of one production batch.

    For each line of the batch's recipe the service works out how much of the
    material was consumed, finds the latest purchase of that material for its
    unit price and freight terms, and charges freight on the consumed quantity
    only. The lines are then folded into the raw-material cost, the cost per
    ton, the cost after yield loss and the total material cost.

    The three repositories are finite maps keyed by code text; a lookup of a
    key that is absent fails, as the repositories used by the module's tests
    do. */
module MaterialCostService {
  import opened Wrappers
  import Quantities
  import Amounts
  import YieldRates
  import ConsumptionRatios
  import ProductCodes
  import FreightCodes
  import FreightMasters
  import PatternNames
  import FormulaEntries
  import Purchases
  import Productions
  import TransactionDates

  type Amount = Amounts.Amount

  /** One recipe line, costed. The source also keeps the freight code as
      display text for logging; here the freight code itself is kept. */
  datatype MaterialConsumption = MaterialConsumption(
    materialCode: ProductCodes.ProductCode,
    materialName: string,
    quantity: Quantities.Quantity,
    unitPrice: Amount,
    totalCost: Amount,
    freightCost: Amount,
    purchaseQuantity: Quantities.Quantity,
    freightCode: FreightCodes.FreightCode,
    freightKgPrice: real)

  datatype MaterialCostResult = MaterialCostResult(
    consumptions: seq<MaterialConsumption>,
    totalFreightCost: Amount)

  type FormulaRepository = map<string, seq<FormulaEntries.FormulaEntry>>
  type PurchaseRepository = map<string, Purchases.Purchase>
  type FreightMasterRepository = map<string, FreightMasters.FreightMaster>

  // ---------------------------------------------------------------------------
  // repository lookups

  /** `FormulaRepository::find_by_product_code`: the recipe of a product. */
  function FindFormulas(repo: FormulaRepository, code: ProductCodes.ProductCode): (r: Result<seq<FormulaEntries.FormulaEntry>>)
    ensures r.Success? <==> ProductCodes.Value(code) in repo
    ensures r.Success? ==> r.value == repo[ProductCodes.Value(code)]
    ensures r.Failure? ==> r.error == NotFound("formula", ProductCodes.Value(code))
  {
    var key := ProductCodes.Value(code);
    if key in repo then Success(repo[key]) else Failure(NotFound("formula", key))
  }

  /** `PurchaseRepository::find_latest_price`: the latest purchase of a material. */
  function FindLatestPurchase(repo: PurchaseRepository, code: ProductCodes.ProductCode): (r: Result<Purchases.Purchase>)
    ensures r.Success? <==> ProductCodes.Value(code) in repo
    ensures r.Success? ==> r.value == repo[ProductCodes.Value(code)]
    ensures r.Failure? ==> r.error == NotFound("purchase", ProductCodes.Value(code))
  {
    var key := ProductCodes.Value(code);
    if key in repo then Success(repo[key]) else Failure(NotFound("purchase", key))
  }

  /** `FreightMasterRepository::find_by_code`: the tariff row of a freight code. */
  function FindFreightMaster(repo: FreightMasterRepository, code: string): (r: Result<FreightMasters.FreightMaster>)
    ensures r.Success? <==> code in repo
    ensures r.Success? ==> r.value == repo[code]
    ensures r.Failure? ==> r.error == NotFound("freight master", code)
  {
    if code in repo then Success(repo[code]) else Failure(NotFound("freight master", code))
  }

  // ---------------------------------------------------------------------------
  // one recipe line

  /** The freight price per kilogram of a purchase: the price itself when it is
      given directly, the tariff row's price when it is given by code. */
  function FreightKgPrice(purchase: Purchases.Purchase, masters: FreightMasterRepository): (r: Result<real>)
    ensures purchase.freightCode.DirectPrice? ==> r == Success(purchase.freightCode.price)
    ensures purchase.freightCode.Code? ==>
              (r.Success? <==> purchase.freightCode.code in masters)
              && (r.Success? ==> r.value == Amounts.Value(masters[purchase.freightCode.code].kgUnitPrice))
              && (r.Failure? ==> r.error == NotFound("freight master", purchase.freightCode.code))
  {
    match purchase.freightCode
    case DirectPrice(price) => Success(price)
    case Code(code) =>
      var master :- FindFreightMaster(masters, code);
      Success(Amounts.Value(master.kgUnitPrice))
  }

  /** The body of the loop in `calculate_material_consumption` for one recipe
      line: consumed quantity, purchase lookup, freight price, freight cost on
      the consumed quantity, and material cost at the purchase's unit price. */
  function ConsumptionLine(
    production: Productions.Production,
    formula: FormulaEntries.FormulaEntry,
    purchases: PurchaseRepository,
    masters: FreightMasterRepository): (r: Result<MaterialConsumption>)
    ensures r.Success? <==>
              && ProductCodes.Value(formula.materialCode) in purchases
              && FreightKgPrice(purchases[ProductCodes.Value(formula.materialCode)], masters).Success?
              && FreightKgPrice(purchases[ProductCodes.Value(formula.materialCode)], masters).value
                 * ConsumedQuantity(production, formula) >= 0.0
    ensures ProductCodes.Value(formula.materialCode) !in purchases ==>
              r == Failure(NotFound("purchase", ProductCodes.Value(formula.materialCode)))
    ensures r.Success? ==>
              var purchase := purchases[ProductCodes.Value(formula.materialCode)];
              var kg := FreightKgPrice(purchase, masters).value;
              && r.value.materialCode == formula.materialCode
              && r.value.materialName == purchase.productName
              && r.value.quantity as real == ConsumedQuantity(production, formula)
              && r.value.unitPrice == purchase.unitPrice
              && r.value.totalCost as real == purchase.unitPrice as real * ConsumedQuantity(production, formula)
              && r.value.freightCost as real == kg * ConsumedQuantity(production, formula)
              && r.value.purchaseQuantity == purchase.quantity
              && r.value.freightCode == purchase.freightCode
              && r.value.freightKgPrice == kg
  {
    match Quantities.New(Quantities.Value(production.quantity) * ConsumptionRatios.Value(formula.consumptionRatio))
    case Failure(e) => Failure(e)
    case Success(quantity) =>
      var purchase :- FindLatestPurchase(purchases, formula.materialCode);
      var kgPrice :- FreightKgPrice(purchase, masters);
      var freight :- Amounts.New(kgPrice * Quantities.Value(quantity));
      var totalCost := Amounts.Multiply(purchase.unitPrice, Quantities.Value(quantity));
      Success(MaterialConsumption(
        formula.materialCode, purchase.productName, quantity, purchase.unitPrice, totalCost,
        freight, purchase.quantity, purchase.freightCode, kgPrice))
  }

  /** Production quantity times the line's consumption ratio; never negative. */
  function ConsumedQuantity(production: Productions.Production, formula: FormulaEntries.FormulaEntry): (q: real)
    ensures q >= 0.0
    ensures production.quantity == 0.0 ==> q == 0.0
  {
    Quantities.Value(production.quantity) * ConsumptionRatios.Value(formula.consumptionRatio)
  }

  /** A freight price written directly can be negative (the constructors of
      `FreightCode` do not check), and then the line fails as soon as anything
      is consumed. A price from a freight master is checked the same way. */
  lemma NegativeFreightFailsLine(
    production: Productions.Production,
    formula: FormulaEntries.FormulaEntry,
    purchases: PurchaseRepository,
    masters: FreightMasterRepository)
    requires ProductCodes.Value(formula.materialCode) in purchases
    requires purchases[ProductCodes.Value(formula.materialCode)].freightCode.DirectPrice?
    requires purchases[ProductCodes.Value(formula.materialCode)].freightCode.price < 0.0
    requires ConsumedQuantity(production, formula) > 0.0
    ensures ConsumptionLine(production, formula, purchases, masters).Failure?
  {
    var kg := purchases[ProductCodes.Value(formula.materialCode)].freightCode.price;
    assert kg * ConsumedQuantity(production, formula) < 0.0;
  }

  // ---------------------------------------------------------------------------
  // folds over the costed lines

  /** The freight accumulated by the loop: the freight costs of the lines,
      added up from the first. */
  function TotalFreight(cs: seq<MaterialConsumption>): Amount
  {
    if cs == [] then Amounts.Zero()
    else Amounts.Add(TotalFreight(cs[..|cs| - 1]), cs[|cs| - 1].freightCost)
  }

  /** Lines without freight add up to no freight. */
  lemma {:induction false} TotalFreightOfZeros(cs: seq<MaterialConsumption>)
    requires forall i :: 0 <= i < |cs| ==> cs[i].freightCost == 0.0
    ensures TotalFreight(cs) == 0.0
  {
    if cs != [] {
      TotalFreightOfZeros(cs[..|cs| - 1]);
    }
  }

  /** The freight total is additive over a split of the lines. */
  lemma {:induction false} TotalFreightAppend(a: seq<MaterialConsumption>, b: seq<MaterialConsumption>)
    ensures TotalFreight(a + b) == TotalFreight(a) + TotalFreight(b)
    decreases |b|
  {
    if b == [] {
      assert a + b == a;
    } else {
      assert (a + b)[..|a + b| - 1] == a + b[..|b| - 1];
      TotalFreightAppend(a, b[..|b| - 1]);
    }
  }

  /** `calculate_material_consumption`: one costed line per recipe line, in
      recipe order, and the freight total. A missing recipe, purchase or
      freight master, or a negative freight cost, fails the whole call with the
      error of the first line that fails, and nothing else is returned. */
  method CalculateMaterialConsumption(
    production: Productions.Production,
    formulas: FormulaRepository,
    purchases: PurchaseRepository,
    masters: FreightMasterRepository) returns (r: Result<MaterialCostResult>)
    ensures ProductCodes.Value(production.productCode) !in formulas ==>
              r == Failure(NotFound("formula", ProductCodes.Value(production.productCode)))
    ensures ProductCodes.Value(production.productCode) in formulas ==>
              var lines := formulas[ProductCodes.Value(production.productCode)];
              && (r.Success? <==> forall i :: 0 <= i < |lines| ==> ConsumptionLine(production, lines[i], purchases, masters).Success?)
              && (r.Success? ==>
                    && |r.value.consumptions| == |lines|
                    && (forall i :: 0 <= i < |lines| ==>
                          r.value.consumptions[i] == ConsumptionLine(production, lines[i], purchases, masters).value)
                    && r.value.totalFreightCost == TotalFreight(r.value.consumptions))
              && (r.Failure? ==>
                    exists i :: 0 <= i < |lines|
                      && (forall j :: 0 <= j < i ==> ConsumptionLine(production, lines[j], purchases, masters).Success?)
                      && ConsumptionLine(production, lines[i], purchases, masters) == Failure(r.error))
    ensures r.Success? && production.quantity == 0.0 ==>
              r.value.totalFreightCost == 0.0
              && forall i :: 0 <= i < |r.value.consumptions| ==> r.value.consumptions[i].freightCost == 0.0
  {
    var lines :- FindFormulas(formulas, production.productCode);
    var consumptions: seq<MaterialConsumption> := [];
    var totalFreight := Amounts.Zero();
    var i := 0;
    while i < |lines|
      invariant 0 <= i <= |lines|
      invariant |consumptions| == i
      invariant forall k :: 0 <= k < i ==> ConsumptionLine(production, lines[k], purchases, masters).Success?
      invariant forall k :: 0 <= k < i ==> consumptions[k] == ConsumptionLine(production, lines[k], purchases, masters).value
      invariant totalFreight == TotalFreight(consumptions)
    {
      var line := ConsumptionLine(production, lines[i], purchases, masters);
      if line.Failure? {
        return Failure(line.error);
      }
      var c := line.value;
      totalFreight := Amounts.Add(totalFreight, c.freightCost);
      assert (consumptions + [c])[..i] == consumptions;
      consumptions := consumptions + [c];
      i := i + 1;
    }
    if production.quantity == 0.0 {
      TotalFreightOfZeros(consumptions);
    }
    return Success(MaterialCostResult(consumptions, totalFreight));
  }

  /** `calculate_raw_material_cost`: the material costs of the lines added up
      from zero. */
  function RawMaterialCost(cs: seq<MaterialConsumption>): (r: Amount)
    ensures cs == [] ==> r == 0.0
    ensures (forall i :: 0 <= i < |cs| ==> cs[i].totalCost >= 0.0) ==> r >= 0.0
  {
    if cs == [] then Amounts.Zero()
    else Amounts.Add(RawMaterialCost(cs[..|cs| - 1]), cs[|cs| - 1].totalCost)
  }

  /** The raw-material cost is additive over a split of the lines. */
  lemma {:induction false} RawMaterialCostAppend(a: seq<MaterialConsumption>, b: seq<MaterialConsumption>)
    ensures RawMaterialCost(a + b) == RawMaterialCost(a) + RawMaterialCost(b)
    decreases |b|
  {
    if b == [] {
      assert a + b == a;
    } else {
      assert (a + b)[..|a + b| - 1] == a + b[..|b| - 1];
      RawMaterialCostAppend(a, b[..|b| - 1]);
    }
  }

  /** `calculate_unit_cost`: yen per ton, from a cost and the kilograms it
      bought. No kilograms gives zero; a negative per-ton figure is replaced by
      zero. */
  function UnitCost(rawMaterialCost: Amount, totalConsumptionKg: real): (r: Amount)
    ensures r >= 0.0
    ensures totalConsumptionKg == 0.0 ==> r == 0.0
    ensures totalConsumptionKg != 0.0 && rawMaterialCost as real / totalConsumptionKg >= 0.0 ==>
              r as real * totalConsumptionKg == rawMaterialCost as real * 1000.0
    ensures totalConsumptionKg != 0.0 && rawMaterialCost as real / totalConsumptionKg < 0.0 ==> r == 0.0
  {
    if totalConsumptionKg == 0.0 then Amounts.Zero()
    else
      var perKg := Amounts.Value(rawMaterialCost) / totalConsumptionKg;
      match Amounts.New(perKg * 1000.0)
      case Success(a) => a
      case Failure(_) => Amounts.Zero()
  }

  /** `calculate_yield_cost`: the raw-material cost kept after yield loss; for
      a non-negative cost it lies between zero and that cost. */
  function YieldCost(rawMaterialCost: Amount, yieldRate: YieldRates.YieldRate): (r: Amount)
    ensures r as real == rawMaterialCost as real * YieldRates.Value(yieldRate)
    ensures yieldRate == 0.0 ==> r == 0.0
    ensures rawMaterialCost >= 0.0 ==> 0.0 <= r <= rawMaterialCost
    ensures yieldRate != 0.0 ==> r as real / YieldRates.Value(yieldRate) == rawMaterialCost as real
    ensures yieldRate == 1.0 ==> r == rawMaterialCost
  {
    Amounts.Multiply(rawMaterialCost, YieldRates.Value(yieldRate))
  }

  /** `calculate_total_material_cost`: yield cost, coagulant, clay treatment
      and freight added together; each part bounds the total from below when
      all four are non-negative. */
  function TotalMaterialCost(yieldCost: Amount, coagulantCost: Amount, clayTreatmentCost: Amount, freightCost: Amount): (r: Amount)
    ensures r as real - freightCost as real - clayTreatmentCost as real - coagulantCost as real == yieldCost as real
    ensures yieldCost >= 0.0 && coagulantCost >= 0.0 && clayTreatmentCost >= 0.0 && freightCost >= 0.0 ==>
              r >= yieldCost && r >= coagulantCost && r >= clayTreatmentCost && r >= freightCost
  {
    Amounts.Add(Amounts.Add(Amounts.Add(yieldCost, coagulantCost), clayTreatmentCost), freightCost)
  }

  // ---------------------------------------------------------------------------
  // the scenarios of the module's tests

  /** A direct freight price: 1000 units at ratio 0.03 consume 30 kg, and at
      10 yen/kg the freight is 300. */
  method DirectPriceExample() returns (totalFreight: Amount)
    ensures totalFreight == 300.0
  {
    var production := Productions.New("P001", 1000.0, 0.95, 100.0, 50.0);
    var formulas := map["P001" := [FormulaEntries.New("M001", 0.03)]];
    var purchases := map["M001" := Purchases.New("材料A", 50.0, 100.0, FreightCodes.DirectPrice(10.0))];
    var masters: FreightMasterRepository := map[];
    var r := CalculateMaterialConsumption(production, formulas, purchases, masters);
    assert ConsumptionLine(production, formulas["P001"][0], purchases, masters).Success?;
    assert |r.value.consumptions| == 1;
    var c := r.value.consumptions[0];
    assert c.quantity == 30.0 && c.freightKgPrice == 10.0 && c.freightCost == 300.0;
    assert r.value.totalFreightCost == 300.0;
    totalFreight := r.value.totalFreightCost;
  }

  /** A freight-master code: 500 units at ratio 0.1 consume 50 kg, and at the
      tariff's 15 yen/kg the freight is 750. The tariff row is registered under
      "T0001", a code `FreightMaster::new` accepts (`TariffRow`). */
  method MasterCodeExample(master: FreightMasters.FreightMaster) returns (totalFreight: Amount)
    requires master.kgUnitPrice == 15.0
    ensures totalFreight == 750.0
  {
    var production := Productions.New("P002", 500.0, 0.90, 200.0, 100.0);
    var formulas := map["P002" := [FormulaEntries.New("M002", 0.1)]];
    var purchases := map["M002" := Purchases.New("材料B", 80.0, 200.0, FreightCodes.Code("T0001"))];
    var masters := map["T0001" := master];
    var r := CalculateMaterialConsumption(production, formulas, purchases, masters);
    assert ConsumptionLine(production, formulas["P002"][0], purchases, masters).Success?;
    assert |r.value.consumptions| == 1;
    var c := r.value.consumptions[0];
    assert c.quantity == 50.0 && c.freightKgPrice == 15.0 && c.freightCost == 750.0;
    assert r.value.totalFreightCost == 750.0;
    totalFreight := r.value.totalFreightCost;
  }

  /** Two materials, one priced directly (20 yen/kg on 40 kg) and one through the
      tariff (25 yen/kg on 60 kg): freight 800 and 1500, 2300 in total, lines in
      recipe order. */
  method MultipleMaterialsExample(master: FreightMasters.FreightMaster) returns (totalFreight: Amount)
    requires master.kgUnitPrice == 25.0
    ensures totalFreight == 2300.0
  {
    var production := Productions.New("P003", 1000.0, 0.92, 150.0, 75.0);
    var lines := [FormulaEntries.New("M003", 0.04), FormulaEntries.New("M004", 0.06)];
    var formulas := map["P003" := lines];
    var purchases := map[
      "M003" := Purchases.New("材料C", 60.0, 150.0, FreightCodes.DirectPrice(20.0)),
      "M004" := Purchases.New("材料D", 70.0, 180.0, FreightCodes.Code("T0002"))];
    var masters := map["T0002" := master];
    MultipleMaterialsLines(production, lines, purchases, masters);
    var r := CalculateMaterialConsumption(production, formulas, purchases, masters);
    assert formulas[ProductCodes.Value(production.productCode)] == lines;
    assert r.Success? && |r.value.consumptions| == 2;
    var cs := r.value.consumptions;
    assert cs[0] == ConsumptionLine(production, lines[0], purchases, masters).value;
    assert cs[1] == ConsumptionLine(production, lines[1], purchases, masters).value;
    TotalFreightOfPair(cs);
    assert r.value.totalFreightCost == 2300.0;
    totalFreight := r.value.totalFreightCost;
  }

  /** A tariff row registered under a well-formed code ("T0001", "T0002")
      is accepted and keeps its price. */
  lemma TariffRow(code: string, patternName: PatternNames.PatternName, kgUnitPrice: Amount, validFrom: TransactionDates.TransactionDate)
    requires FreightCodes.IsCodeText(code)
    ensures FreightMasters.New(code, patternName, kgUnitPrice, validFrom, None).Success?
    ensures FreightMasters.New(code, patternName, kgUnitPrice, validFrom, None).value.kgUnitPrice == kgUnitPrice
  {
  }

  lemma TotalFreightOfPair(cs: seq<MaterialConsumption>)
    requires |cs| == 2
    ensures TotalFreight(cs) == cs[0].freightCost + cs[1].freightCost
  {
    var first := cs[..1];
    assert first[..0] == [];
    assert TotalFreight(first) == Amounts.Add(Amounts.Zero(), cs[0].freightCost);
    assert TotalFreight(cs) == Amounts.Add(TotalFreight(first), cs[1].freightCost);
  }

  /** The two lines of the two-material scenario, costed one at a time. */
  lemma MultipleMaterialsLines(
    production: Productions.Production,
    lines: seq<FormulaEntries.FormulaEntry>,
    purchases: PurchaseRepository,
    masters: FreightMasterRepository)
    requires production.quantity == 1000.0
    requires lines == [FormulaEntries.New("M003", 0.04), FormulaEntries.New("M004", 0.06)]
    requires purchases == map[
      "M003" := Purchases.New("材料C", 60.0, 150.0, FreightCodes.DirectPrice(20.0)),
      "M004" := Purchases.New("材料D", 70.0, 180.0, FreightCodes.Code("T0002"))]
    requires "T0002" in masters && masters["T0002"].kgUnitPrice == 25.0
    ensures ConsumptionLine(production, lines[0], purchases, masters).Success?
    ensures ProductCodes.Value(ConsumptionLine(production, lines[0], purchases, masters).value.materialCode) == "M003"
    ensures ConsumptionLine(production, lines[0], purchases, masters).value.quantity == 40.0
    ensures ConsumptionLine(production, lines[0], purchases, masters).value.freightCost == 800.0
    ensures ConsumptionLine(production, lines[0], purchases, masters).value.freightKgPrice == 20.0
    ensures ConsumptionLine(production, lines[1], purchases, masters).Success?
    ensures ProductCodes.Value(ConsumptionLine(production, lines[1], purchases, masters).value.materialCode) == "M004"
    ensures ConsumptionLine(production, lines[1], purchases, masters).value.quantity == 60.0
    ensures ConsumptionLine(production, lines[1], purchases, masters).value.freightCost == 1500.0
    ensures ConsumptionLine(production, lines[1], purchases, masters).value.freightKgPrice == 25.0
  {
    assert ConsumedQuantity(production, lines[0]) == 40.0;
    assert ConsumedQuantity(production, lines[1]) == 60.0;
  }

  /** Nothing produced: nothing consumed and no freight. */
  method ZeroProductionExample() returns (totalFreight: Amount)
    ensures totalFreight == 0.0
  {
    var production := Productions.New("P004", 0.0, 0.95, 0.0, 0.0);
    var formulas := map["P004" := [FormulaEntries.New("M005", 0.05)]];
    var purchases := map["M005" := Purchases.New("材料E", 100.0, 100.0, FreightCodes.DirectPrice(10.0))];
    var masters: FreightMasterRepository := map[];
    var r := CalculateMaterialConsumption(production, formulas, purchases, masters);
    assert ConsumptionLine(production, formulas["P004"][0], purchases, masters).Success?;
    assert |r.value.consumptions| == 1;
    assert r.value.consumptions[0].quantity == 0.0 && r.value.consumptions[0].freightCost == 0.0;
    assert r.value.totalFreightCost == 0.0;
    totalFreight := r.value.totalFreightCost;
  }

  /** A fractional case: 1250 units at ratio 0.03 consume 37.5 kg, and at
      12.5 yen/kg the freight is 468.75. */
  method FractionalFreightExample() returns (totalFreight: Amount)
    ensures totalFreight == 468.75
  {
    var production := Productions.New("P005", 1250.0, 0.88, 120.0, 60.0);
    var formulas := map["P005" := [FormulaEntries.New("M006", 0.03)]];
    var purchases := map["M006" := Purchases.New("材料F", 90.0, 250.0, FreightCodes.DirectPrice(12.5))];
    var masters: FreightMasterRepository := map[];
    var r := CalculateMaterialConsumption(production, formulas, purchases, masters);
    assert ConsumptionLine(production, formulas["P005"][0], purchases, masters).Success?;
    assert |r.value.consumptions| == 1;
    var c := r.value.consumptions[0];
    assert c.quantity == 37.5 && c.freightKgPrice == 12.5 && c.freightCost == 468.75;
    assert r.value.totalFreightCost == 468.75;
    totalFreight := r.value.totalFreightCost;
  }

  /** The per-ton figures of the module's tests, including the zero-kilogram case. */
  lemma UnitCostExamples()
    ensures UnitCost(5000.0, 100.0) == 50000.0
    ensures UnitCost(12000.0, 80.0) == 150000.0
    ensures UnitCost(7500.0, 50.0) == 150000.0
    ensures UnitCost(5000.0, 0.0) == 0.0
  {
  }
}
