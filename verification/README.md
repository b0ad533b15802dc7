# Material cost engine: a verified model of the domain core

material_cost_engine computes the material cost of production runs. It also builds a stock-movement ledger. Each production run names a
product, a quantity and a yield rate. The product's recipe lists the materials
it consumes, each with a consumption ratio. The latest purchase of each
material gives its unit price and its freight terms. The freight terms are
either a direct price per kilogram or a code ("T0001") that refers to a row of
the freight tariff. Costs are derived from these figures:

- the consumed quantity of each material;
- its material cost and its freight;
- the raw-material total;
- the cost per tonne;
- the cost after yield;
- the material cost of the run, including coagulant, clay treatment and
  freight.

Stock movements are production, purchase and sale. They are put in (date,
product code) order and turned into ledger lines. Each line carries the
balance before the movement, the change and the balance after it. Separately,
the header row of the production sheet is mapped to the eleven columns the
engine reads.

The model is written in Dafny. It has one module per source file:

- The value objects are `Quantities`, `Amounts`, `YieldRates`,
  `ConsumptionRatios`, `ProductCodes`, `PatternNames`, `InventoryBalances`,
  `InventoryTypes`, `FreightCodes` and `TransactionDates`.
  - `src/domain/value_objects.rs` repeats five of them verbatim, and both
    copies are modelled by the same module.
- The entities are `FormulaEntries`, `FreightMasters`, `InventoryTransactions`,
  `Productions` and `Purchases`.
- The two domain services are `MaterialCostService` and
  `InventoryHistoryService`. `TransactionOrder` specifies the sort the ledger
  uses.
- The sheet header mapping is `SheetSchema`.
- Two helper modules stand in for the Rust library behaviour the core relies
  on. `Wrappers` holds `Result`, `Option` and the error kinds. `Text` holds
  `str::trim`, `str::split`, the `parse` of integers and of `f64`, UTF-8
  byte length and the lexicographic order of strings.

Modelling choices:

- Value objects that validate their input are subset types or newtypes, so
  their invariant holds for every value. Their constructors return a
  `Result`, with the same error cases as the source.
- The three repositories are maps from product code (or freight code) to the
  record that `find_*` returns. A missing key gives the not-found error the
  source's repositories report.
- The loops of `calculate_material_consumption`, `create_history` and
  `from_headers` are methods with loop invariants. Each is proved against a
  specification function:
  - `ConsumptionLine` / `TotalFreight`;
  - `SortByKey` / `Net`;
  - `HeaderMapOf` / `Missing`.

## Model

| member | source | states |
|---|---|---|
| Quantities.New | src/domain/value_objects/quantity.rs:8-13 | succeeds exactly for values of at least zero, keeps the value, and reports the negative value otherwise |
| Quantities.ValueRoundTrip | src/domain/value_objects/quantity.rs:15-17 | a value accepted by `new` is read back unchanged by `value` |
| Amounts.New | src/domain/value_objects/amount.rs:8-13 | succeeds exactly for values of at least zero, keeps the value, reports the negative value otherwise |
| Amounts.Zero | src/domain/value_objects/amount.rs:15-17 | zero is the neutral element of `add` |
| Amounts.Add | src/domain/value_objects/amount.rs:23-25 | subtracting the second operand gives back the first; the sum of two non-negative amounts is at least each of them |
| Amounts.Multiply | src/domain/value_objects/amount.rs:27-29 | the amount times the ratio, so zero for a zero ratio; non-negative for non-negative operands, at most the amount for a ratio in [0, 1], and undone by dividing by a non-zero ratio |
| Amounts.DivideBy | src/domain/value_objects/amount.rs:31-33 | multiplying the quotient by the divisor gives back the amount |
| Amounts.ValueRoundTrip | src/domain/value_objects.rs:42-55 | an accepted value reads back unchanged, and `zero` reads as 0 |
| Amounts.DivideUndoesMultiply | src/domain/value_objects.rs:61-67 | `divide_by(k)` is the inverse of `multiply(k)` for every non-zero k |
| Amounts.MultiplyBypassesValidation | src/domain/value_objects/amount.rs:27-29 | `multiply` builds an amount directly, so a negative ratio yields a negative amount that `new` would reject |
| YieldRates.New | src/domain/value_objects/yield_rate.rs:8-16 | succeeds exactly for values in [0, 1], keeps the value, reports the value otherwise |
| YieldRates.Value | src/domain/value_objects/yield_rate.rs:18-20 | every yield rate reads as a value in [0, 1] |
| YieldRates.ValueRoundTrip | src/domain/value_objects.rs:75-87 | an accepted value reads back unchanged |
| YieldRates.Boundaries | src/domain/value_objects/yield_rate.rs:33-56 | 0 and 1 are accepted, -0.1 and 1.5 rejected |
| ConsumptionRatios.New | src/domain/value_objects/consumption_ratio.rs:8-13 | succeeds exactly for values of at least zero, keeps the value, reports the value otherwise |
| ConsumptionRatios.Value | src/domain/value_objects/consumption_ratio.rs:15-17 | every ratio reads as a value of at least zero |
| ConsumptionRatios.ValueRoundTrip | src/domain/value_objects.rs:95-104 | an accepted value reads back unchanged |
| Quantities.Value | src/domain/value_objects.rs:25-34 | every quantity reads as a value of at least zero |
| ProductCodes.New | src/domain/value_objects/product_code.rs:8-13 | fails exactly for blank input, and otherwise keeps the trimmed text |
| ProductCodes.SurroundingWhitespaceIgnored | src/domain/value_objects/product_code.rs:30-34 | whitespace around a code does not change the code built |
| ProductCodes.NewOfValue | src/domain/value_objects.rs:8-17 | `new(value())` gives back the same code |
| PatternNames.New | src/domain/value_objects/pattern_name.rs:8-14 | fails exactly for blank input, and otherwise keeps the trimmed text |
| PatternNames.SurroundingWhitespaceIgnored | src/domain/value_objects/pattern_name.rs:31-35 | whitespace around a name does not change the name built |
| PatternNames.NewOfValue | src/domain/value_objects/pattern_name.rs:16-18 | `new(value())` gives back the same name |
| InventoryBalances.New | src/domain/value_objects/inventory_balance.rs:8-11 | always succeeds and keeps the value, negative values included |
| InventoryBalances.ValueRoundTrip | src/domain/value_objects/inventory_balance.rs:13-15 | every number, negative or zero, reads back unchanged |
| InventoryTypes.AsStr | src/domain/value_objects/inventory_type.rs:10-16 | each kind gets its own label, and each label names exactly one kind |
| InventoryTypes.AsStrInjective | src/domain/value_objects/inventory_type.rs:41-47 | two kinds have the same label exactly when they are equal |
| FreightCodes.New | src/domain/value_objects/freight_code.rs:11-38 | blank input fails; a number is a direct price, rejected when negative; otherwise the trimmed text must be 'T' and four digits; a code is always well formed and a price never negative |
| FreightCodes.ByteLengthCheck | src/domain/value_objects/freight_code.rs:27-29 | the byte-length test accepts exactly 'T' followed by four ASCII digits |
| FreightCodes.AsCode | src/domain/value_objects/freight_code.rs:48-53 | gives the code exactly for the code variant |
| FreightCodes.AsDirectPrice | src/domain/value_objects/freight_code.rs:55-60 | gives the price exactly for the direct-price variant |
| FreightCodes.ExactlyOneKind | src/domain/value_objects/freight_code.rs:40-46 | every freight code is either a code or a direct price, never both |
| FreightCodes.CodeTextIsNotANumber | src/domain/value_objects/freight_code.rs:19-30 | a 'T'-code never parses as a number, so the price branch cannot capture it |
| FreightCodes.CodeAccepted | src/domain/value_objects/freight_code.rs:26-31 | a well-formed code with any surrounding whitespace becomes that code |
| FreightCodes.OtherTextRejected | src/domain/value_objects/freight_code.rs:34-37 | text that is neither a number nor a well-formed code is rejected |
| FreightCodes.CodeExample | src/domain/value_objects/freight_code.rs:68-72 | "T0001" is the code "T0001" |
| FreightCodes.PaddedCodeExample | src/domain/value_objects/freight_code.rs:119-123 | "  T0001  " is the code "T0001" |
| FreightCodes.FractionPriceExample | src/domain/value_objects/freight_code.rs:75-79 | "150.5" is the direct price 150.5 |
| FreightCodes.ZeroPriceExample | src/domain/value_objects/freight_code.rs:82-86 | "0" is the direct price 0 |
| FreightCodes.NegativePriceExample | src/domain/value_objects/freight_code.rs:89-92 | "-10" is rejected as a negative price |
| FreightCodes.RejectedExamples | src/domain/value_objects/freight_code.rs:95-116 | "ABC123", "T001", "A0001" and "" are rejected |
| TransactionDates.SeparatorOf | src/domain/value_objects/transaction_date.rs:29-37 | '-' wins over '/', which wins over '.'; a text without any of them has no separator |
| TransactionDates.ValidDateFormatMeaning | src/domain/value_objects/transaction_date.rs:27-89 | the validator accepts exactly the texts whose three parts are a year in 1900..2100, a month in 1..12 and a day within that month, February 29 only in leap years |
| TransactionDates.New | src/domain/value_objects/transaction_date.rs:8-25 | blank input fails; otherwise it succeeds exactly when the trimmed text is a valid date, which is then stored trimmed |
| TransactionDates.FormatFields | src/domain/value_objects/transaction_date.rs:39-56 | a date written YYYY sep MM sep DD splits and parses back to its year, month and day |
| TransactionDates.CanonicalTextRoundTrip | src/domain/value_objects/transaction_date.rs:8-89 | a date written YYYY sep MM sep DD, with any surrounding whitespace, is accepted exactly when it is a calendar date, and is then stored as written |
| TransactionDates.LeapDay | src/domain/value_objects/transaction_date.rs:77-84 | February 29 of a year in range is accepted exactly in leap years |
| TransactionDates.FebruaryLength | src/domain/value_objects/transaction_date.rs:79-83 | February 29 is a calendar date exactly in the leap years 1900..2100 |
| TransactionDates.HyphenExample | src/domain/value_objects/transaction_date.rs:101-104 | "2024-01-15" is accepted as written |
| TransactionDates.SlashExample | src/domain/value_objects/transaction_date.rs:107-110 | "2024/01/15" is accepted as written |
| TransactionDates.DotExample | src/domain/value_objects/transaction_date.rs:113-116 | "2024.01.15" is accepted as written |
| TransactionDates.LeapYearExample | src/domain/value_objects/transaction_date.rs:119-122 | "2024-02-29" is accepted |
| TransactionDates.CommonYearExample | src/domain/value_objects/transaction_date.rs:125-128 | "2023-02-29" is rejected |
| TransactionDates.FormatExamples | src/domain/value_objects/transaction_date.rs:131-140 | "" and "20240115" are rejected |
| TransactionDates.MonthRangeExample | src/domain/value_objects/transaction_date.rs:143-146 | "2024-13-01" is rejected |
| TransactionDates.DayRangeExample | src/domain/value_objects/transaction_date.rs:149-152 | "2024-01-32" is rejected |
| TransactionDates.OrderingExample | src/domain/value_objects/transaction_date.rs:155-159 | "2024-01-15" sorts before "2024-02-20" |
| TransactionDates.TextOrderIsNotCalendarOrder | src/domain/value_objects/transaction_date.rs:4-5 | the derived order compares the stored texts, so the valid date "2024-12-31" sorts before the valid date "2024/01/01" |
| FormulaEntries.New | src/domain/entities/formula_entry.rs:11-16 | keeps both fields, a trimmed non-empty material code and a ratio of at least zero |
| FreightMasters.New | src/domain/entities/freight_master.rs:15-44 | succeeds exactly when the code is 'T' followed by four digits, keeping every field; otherwise reports the malformed code |
| FreightMasters.ParsedCodesAreMasterCodes | src/domain/entities/freight_master.rs:22-35 | every code that `FreightCode::new` accepts is also accepted as a tariff row's code |
| FreightMasters.CodeExamples | src/domain/entities/freight_master.rs:52-139 | "T0001" and "T0002" are accepted; "A0001", "T001", "T00A1", "T01" and "T02" are rejected |
| InventoryTransactions.New | src/domain/entities/inventory_transaction.rs:14-28 | keeps every field for each of the three kinds, with a quantity of at least zero |
| Productions.New | src/domain/entities/production.rs:14-28 | keeps every field; the quantity is at least zero and the yield rate within [0, 1] |
| Purchases.New | src/domain/entities/purchase.rs:13-25 | keeps every field, including the kind of freight code and the code or price it carries |
| MaterialCostService.FindFormulas | src/domain/repositories.rs:6-8 | the recipe stored for the product, or a not-found error exactly when there is none |
| MaterialCostService.FindLatestPurchase | src/domain/repositories.rs:11-13 | the purchase stored for the material, or a not-found error exactly when there is none |
| MaterialCostService.FindFreightMaster | src/domain/services.rs:236-242 | the tariff row stored under the code, or a not-found error exactly when there is none |
| MaterialCostService.FreightKgPrice | src/domain/services.rs:57-64 | a direct price is used as is; a code takes the kilogram price of its tariff row and fails exactly when the row is missing |
| MaterialCostService.ConsumedQuantity | src/domain/services.rs:50-52 | the consumed quantity is at least zero, and zero when nothing is produced |
| MaterialCostService.ConsumptionLine | src/domain/services.rs:49-91 | one recipe line succeeds exactly when its purchase and freight price exist and the freight is not negative; the line keeps the purchase's data, with cost = unit price × quantity and freight = kg price × quantity |
| MaterialCostService.NegativeFreightFailsLine | src/domain/services.rs:74-75 | a negative direct freight price on a material that is consumed makes the line fail |
| MaterialCostService.TotalFreightOfZeros | src/domain/services.rs:47-76 | lines without freight add up to zero freight |
| MaterialCostService.TotalFreightAppend | src/domain/services.rs:76 | the freight total of two runs of lines is the sum of their totals |
| MaterialCostService.CalculateMaterialConsumption | src/domain/services.rs:32-98 | fails for a product without recipe; otherwise succeeds exactly when every line does, with one line per recipe entry in order and the total freight their sum; on failure, reports the first failing line's error; a run with quantity zero has no freight |
| MaterialCostService.RawMaterialCost | src/domain/services.rs:101-105 | zero for no lines, and never negative when no line cost is |
| MaterialCostService.RawMaterialCostAppend | src/domain/services.rs:101-105 | the raw-material total of two runs of lines is the sum of their totals |
| MaterialCostService.UnitCost | src/domain/services.rs:109-117 | zero for zero consumption; otherwise cost per kg × 1000 when that is not negative, and zero when it is |
| MaterialCostService.YieldCost | src/domain/services.rs:120-122 | the raw cost times the yield rate, so zero at yield 0 and unchanged at yield 1; between zero and the raw cost; dividing by a non-zero yield rate gives back the raw cost |
| MaterialCostService.TotalMaterialCost | src/domain/services.rs:125-135 | the sum of the four amounts, at least each of them when none is negative |
| MaterialCostService.DirectPriceExample | src/domain/services.rs:246-308 | a direct price of 10 per kg on 30 kg consumed gives a total freight of 300 |
| MaterialCostService.MasterCodeExample | src/domain/services.rs:312-387 | a tariff row priced 15 per kg on 50 kg consumed gives a total freight of 750 |
| MaterialCostService.TariffRow | src/domain/services.rs:348-359 | a tariff row with a well-formed code is accepted and keeps its kilogram price |
| MaterialCostService.MultipleMaterialsLines | src/domain/services.rs:390-482 | 40 kg at 20 per kg and 60 kg at a tariff of 25 per kg give line freights of 800 and 1500 |
| MaterialCostService.MultipleMaterialsExample | src/domain/services.rs:390-482 | the two lines above give a total freight of 2300 |
| MaterialCostService.ZeroProductionExample | src/domain/services.rs:485-544 | nothing produced gives zero freight |
| MaterialCostService.FractionalFreightExample | src/domain/services.rs:547-610 | 37.5 kg at 12.5 per kg gives 468.75 |
| MaterialCostService.UnitCostExamples | src/domain/services.rs:613-657 | 5000/100, 12000/80 and 7500/50 give 50000, 150000 and 150000 per tonne; zero consumption gives zero |
| TransactionOrder.KeyLeTotal | src/domain/services.rs:162-166 | any two movements are comparable |
| TransactionOrder.KeyLeTransitive | src/domain/services.rs:162-166 | the comparator is transitive |
| TransactionOrder.KeyLeBothWays | src/domain/services.rs:162-166 | the comparator calls two movements equal exactly when they share date and product code |
| TransactionOrder.SortByKey | src/domain/services.rs:161-166 | the sorted movements are a permutation of the input |
| TransactionOrder.SortByKeySorted | src/domain/services.rs:162-166 | the sorted movements are in (date, product code) order |
| TransactionOrder.SortByKeyStable | src/domain/services.rs:162-166 | movements with the same key keep their input order |
| TransactionOrder.SortSwapsPair | src/domain/services.rs:162-166 | two movements given out of order come out swapped |
| InventoryHistoryService.Change | src/domain/services.rs:177-180 | the change has the movement's quantity as its size, and is negative only for sales and positive only for production or purchase |
| InventoryHistoryService.NetOfSort | src/domain/services.rs:161-172 | sorting does not change any product's net movement |
| InventoryHistoryService.BaseIsPreviousBalance | src/domain/services.rs:172-183 | between two movements of a product, the others leave its balance alone |
| InventoryHistoryService.CreateHistory | src/domain/services.rs:155-197 | always succeeds; one ledger line per movement, in sorted order; a product's first line starts at zero; each later line starts at the previous line's balance; a product's last line ends at its net movement |
| InventoryHistoryService.LedgerInOrder | src/domain/services.rs:162-172 | the ledger lines are in (date, product code) order |
| InventoryHistoryService.LedgerStartsAtZero | src/domain/services.rs:174 | a product's first ledger line starts from zero |
| InventoryHistoryService.LedgerCarriesBalance | src/domain/services.rs:174-183 | each later line of a product starts from the balance of its previous line |
| InventoryHistoryService.LedgerEndsAtNet | src/domain/services.rs:182-192 | a product's last ledger line holds the sum of its changes |
| InventoryHistoryService.LedgerExample | src/domain/services.rs:155-197 | a sale of 30 given before an earlier purchase of 100 becomes a purchase line 0 → 100, then a sale line 100 → 70 |
| SheetSchema.NewColumnIndex | src/domain/sheet_schema.rs:9-15 | `value` gives back the index given to `new` |
| SheetSchema.AsU16 | src/domain/sheet_schema.rs:17-19 | the index modulo 65536, unchanged when it fits in 16 bits |
| SheetSchema.KeysMeaning | src/domain/sheet_schema.rs:42 | each header is keyed by its trimmed text |
| SheetSchema.HeaderMapMeaning | src/domain/sheet_schema.rs:40-46 | a key is mapped exactly when it is non-blank and present, and then to its last column |
| SheetSchema.MissingMeaning | src/domain/sheet_schema.rs:62-67 | the missing list holds exactly the required headers absent from the map, and is empty exactly when none is absent |
| SheetSchema.BuildHeaderMap | src/domain/sheet_schema.rs:40-46 | the loop builds the header map of the trimmed headers |
| SheetSchema.FindMissing | src/domain/sheet_schema.rs:62-67 | the loop collects the missing required headers in their order |
| SheetSchema.FromHeaders | src/domain/sheet_schema.rs:39-89 | succeeds exactly when every required header is present; on failure lists exactly the absent ones, in order; on success each column is the last column carrying that header |
| SheetSchema.Columns | src/domain/sheet_schema.rs:91-133 | the eleven accessors, in the order of the required headers |
| SheetSchema.KeysOfTrimmed | src/domain/sheet_schema.rs:39-46 | a header row without surrounding whitespace is keyed by itself |
| Text.Trim | src/domain/value_objects/pattern_name.rs:9 | the trimmed text is empty exactly for blank input, and is the input without its leading and trailing whitespace |
| Text.SplitJoin | src/domain/value_objects/transaction_date.rs:39 | splitting a joined list of separator-free parts gives back the parts |
| Text.ParseInteger | src/domain/value_objects/transaction_date.rs:45-56 | accepts exactly one or more digits, optionally after '+', or after '-' for the signed year; the value is the digits' value, negated after '-' |
| Text.ParseDecimalMeaning | src/domain/value_objects/freight_code.rs:19 | the `f64` parse accepts exactly an optional sign, digits with at most one '.' and at least one digit, and an optional 'e'/'E' exponent with optional sign and digits |
| Text.ParseMantissaMeaning | src/domain/value_objects/freight_code.rs:19 | the part before the exponent is accepted exactly when it is digits with at most one '.' and at least one digit |
| Text.ParseDecimalOfDigits | src/domain/value_objects/freight_code.rs:19 | a run of digits parses as the number it writes |
| Text.ParseDecimalNegated | src/domain/value_objects/freight_code.rs:19-21 | a leading '-' negates the parsed number |
| Text.DigitsUtf8Len | src/domain/value_objects/freight_code.rs:27 | a run of ASCII digits is as many bytes long as it has characters |
| Text.StrLeTotal | src/domain/value_objects/transaction_date.rs:4-5 | the derived order on stored texts is total |

## Left out

- Floating point: every `f64` is an exact real number. Rounding, infinities and NaN are not modelled, so a freight or cost that would round differently is out of scope.
- Text.ParseDecimal: models Rust's `f64` parse for decimal notation only (sign, digits, point, exponent). "inf", "infinity" and "nan" are not accepted here.
- The usize-to-u16 cast is modelled by `SheetSchema.AsU16`. The i32/u32 range of the date parts is not modelled: an out-of-range part fails the range check either way.
- MaterialCostService.ConsumptionLine: the source keeps the freight code as display text (`format!("{:.2}")` of a direct price) for logging. The model keeps the freight code itself, because the formatting of floating point is out of scope.
- Reading the Excel workbook, the controller, presenter, interactor and `main` are not part of this model. The repositories are maps from code to record, so a lookup either finds the stored record or fails with not-found.
- TransactionOrder.SortByKey: the library sort is specified by a stable insertion sort. The source's in-place `Vec` sort is not modelled step by step.
- InventoryHistoryService.CreateHistory: the `?` after the `InventoryBalance` and `Quantity` constructors can never fail, so the model has no error path there.
- The error messages are modelled as an error kind carrying the offending value, not as message text.
- SheetSchema.EmptyHeaderRowExample and SheetSchema.RepeatedHeaderExample state their outcome as assertions in their bodies, not as contracts.

## Findings

| source | as written | input that shows it | evidently intended | confidence | as-written member | corrected member |
|---|---|---|---|---|---|---|
| src/domain/services.rs:348-359 | the master-code test builds its tariff row with `FreightMaster::new("T01", …).unwrap()`; the same happens with "T02" at lines 441-450 | "T01" is three bytes long, and `FreightMaster::new` requires 'T' plus four digits, so `unwrap` panics before the freight is computed | a tariff row under a well-formed code such as "T0001", whose 15 per kg on 50 kg gives 750 | not executed | FreightMasters.CodeExamples | MaterialCostService.MasterCodeExample |
