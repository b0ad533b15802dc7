/** The column layout of the production sheet (src/domain/sheet_schema.rs):
    the header row is read once, each required header is looked up by its
    trimmed text, and the schema records the column each one sits in. */
module SheetSchema {
  import opened Wrappers
  import opened Text

  /** `ColumnIndex`: a zero-based column position. */
  datatype ColumnIndex = ColumnIndex(index: nat)

  /** `ColumnIndex::new`. */
  function NewColumnIndex(index: nat): (c: ColumnIndex)
    ensures Value(c) == index
  {
    ColumnIndex(index)
  }

  /** `ColumnIndex::value`. */
  function Value(c: ColumnIndex): nat {
    c.index
  }

  /** `ColumnIndex::as_u16`: the position cast to 16 bits, which keeps it
      modulo 65536. */
  function AsU16(c: ColumnIndex): (r: nat)
    ensures r < 0x1_0000
    ensures (Value(c) - r) % 0x1_0000 == 0
    ensures Value(c) < 0x1_0000 ==> r == Value(c)
  {
    c.index % 0x1_0000
  }

  /** `ProductionSheetSchema`: one column per required header; the Rust
      accessors (`item()`, `product_code()`, ...) are these fields. */
  datatype ProductionSheetSchema = ProductionSheetSchema(
    item: ColumnIndex,
    productCode: ColumnIndex,
    productionNumber: ColumnIndex,
    quantity: ColumnIndex,
    rawMaterialCost: ColumnIndex,
    unitCost: ColumnIndex,
    yieldRate: ColumnIndex,
    yieldCost: ColumnIndex,
    coagulant: ColumnIndex,
    clayTreatment: ColumnIndex,
    materialCost: ColumnIndex)

  /** The headers the sheet must carry, in the order a failure reports them. */
  const RequiredHeaders: seq<string> := [
    "項", "商品コード", "生産品番", "生産数量", "原砂金額", "原単位（円/ｔ）",
    "歩留率", "原砂歩留金額", "凝集剤", "粘土処理", "材料費"]

  /** The header row as `from_headers` keys it: each header trimmed
      (`KeysMeaning`). */
  function Keys(headers: seq<string>): (keys: seq<string>)
    ensures |keys| == |headers|
  {
    if headers == [] then [] else Keys(headers[..|headers| - 1]) + [Trim(headers[|headers| - 1])]
  }

  lemma {:induction false} KeysMeaning(headers: seq<string>)
    ensures forall i :: 0 <= i < |headers| ==> Keys(headers)[i] == Trim(headers[i])
  {
    if headers != [] {
      var front := headers[..|headers| - 1];
      KeysMeaning(front);
      assert forall i :: 0 <= i < |front| ==> headers[i] == front[i];
    }
  }

  /** `c` is the last column whose key is `h`. */
  predicate IsLastColumnOf(keys: seq<string>, h: string, c: ColumnIndex) {
    && c.index < |keys|
    && keys[c.index] == h
    && forall j :: c.index < j < |keys| ==> keys[j] != h
  }

  /** The header map after the first loop has seen `keys`: every non-blank key
      mapped to its column, a later column replacing an earlier one with the
      same key. */
  function HeaderMapOf(keys: seq<string>): map<string, nat> {
    if keys == [] then map[]
    else
      var m := HeaderMapOf(keys[..|keys| - 1]);
      var k := keys[|keys| - 1];
      if k == [] then m else m[k := |keys| - 1]
  }

  /** The entries of `required` that `m` lacks, in the order of `required`. */
  function Missing(required: seq<string>, m: map<string, nat>): seq<string> {
    if required == [] then []
    else
      var rest := Missing(required[..|required| - 1], m);
      var h := required[|required| - 1];
      if h in m then rest else rest + [h]
  }

  /** A header is in the map exactly when it is not blank and some column
      has it as key, and then the map holds the last such column. */
  lemma {:induction false} HeaderMapMeaning(keys: seq<string>, h: string)
    ensures h in HeaderMapOf(keys) <==> h != [] && h in keys
    ensures h in HeaderMapOf(keys) ==> IsLastColumnOf(keys, h, ColumnIndex(HeaderMapOf(keys)[h]))
  {
    if keys != [] {
      var n := |keys| - 1;
      var front := keys[..n];
      HeaderMapMeaning(front, h);
      assert keys == front + [keys[n]];
      if h in HeaderMapOf(keys) && keys[n] != h {
        var c := HeaderMapOf(front)[h];
        forall j | c < j < |keys|
          ensures keys[j] != h
        {
          if j < n {
            assert keys[j] == front[j];
          }
        }
      }
    }
  }

  /** A header is reported missing exactly when it is required and the map
      lacks it; nothing is missing exactly when every required header is
      there. */
  lemma {:induction false} MissingMeaning(required: seq<string>, m: map<string, nat>)
    ensures forall x :: x in Missing(required, m) <==> x in required && x !in m
    ensures Missing(required, m) == [] <==> forall x :: x in required ==> x in m
  {
    if required != [] {
      var front := required[..|required| - 1];
      var h := required[|required| - 1];
      MissingMeaning(front, m);
      assert required == front + [h];
      if h !in m {
        assert h in Missing(required, m);
      }
    }
  }

  /** With none of the required headers present, all of them are reported,
      in order. */
  lemma {:induction false} MissingAll(required: seq<string>, m: map<string, nat>)
    requires forall x :: x in required ==> x !in m
    ensures Missing(required, m) == required
  {
    if required != [] {
      var front := required[..|required| - 1];
      MissingAll(front, m);
      assert required == front + [required[|required| - 1]];
    }
  }

  /** The first loop of `from_headers`: key every non-blank trimmed header
      by its column. */
  method BuildHeaderMap(headers: seq<string>) returns (headerMap: map<string, nat>)
    ensures headerMap == HeaderMapOf(Keys(headers))
  {
    headerMap := map[];
    var i := 0;
    while i < |headers|
      invariant 0 <= i <= |headers|
      invariant headerMap == HeaderMapOf(Keys(headers[..i]))
    {
      var trimmed := Trim(headers[i]);
      assert headers[..i + 1][..i] == headers[..i];
      assert Keys(headers[..i + 1]) == Keys(headers[..i]) + [trimmed];
      assert (Keys(headers[..i]) + [trimmed])[..i] == Keys(headers[..i]);
      if trimmed != [] {
        headerMap := headerMap[trimmed := i];
      }
      i := i + 1;
    }
    assert headers[..|headers|] == headers;
  }

  /** The second loop of `from_headers`: collect the required headers the map
      lacks. */
  method FindMissing(headerMap: map<string, nat>) returns (missing: seq<string>)
    ensures missing == Missing(RequiredHeaders, headerMap)
  {
    missing := [];
    for j := 0 to |RequiredHeaders|
      invariant missing == Missing(RequiredHeaders[..j], headerMap)
    {
      assert RequiredHeaders[..j + 1][..j] == RequiredHeaders[..j];
      var h := RequiredHeaders[j];
      if h !in headerMap {
        missing := missing + [h];
      }
    }
    assert RequiredHeaders[..|RequiredHeaders|] == RequiredHeaders;
  }

  /** The columns of a schema in the order of `RequiredHeaders`: what the
      accessors `item()` ... `material_cost()` return. */
  function Columns(schema: ProductionSheetSchema): (cols: seq<ColumnIndex>)
    ensures |cols| == |RequiredHeaders|
  {
    [schema.item, schema.productCode, schema.productionNumber, schema.quantity,
     schema.rawMaterialCost, schema.unitCost, schema.yieldRate, schema.yieldCost,
     schema.coagulant, schema.clayTreatment, schema.materialCost]
  }

  /** The schema whose columns, in the order of `RequiredHeaders`, are `cols`. */
  function SchemaOf(cols: seq<ColumnIndex>): ProductionSheetSchema
    requires |cols| == |RequiredHeaders|
  {
    ProductionSheetSchema(
      cols[0], cols[1], cols[2], cols[3], cols[4], cols[5],
      cols[6], cols[7], cols[8], cols[9], cols[10])
  }

  lemma ColumnsOfSchema(cols: seq<ColumnIndex>)
    requires |cols| == |RequiredHeaders|
    ensures Columns(SchemaOf(cols)) == cols
  {
    var c := Columns(SchemaOf(cols));
    assert c[0] == cols[0] && c[1] == cols[1] && c[2] == cols[2] && c[3] == cols[3];
    assert c[4] == cols[4] && c[5] == cols[5] && c[6] == cols[6] && c[7] == cols[7];
    assert c[8] == cols[8] && c[9] == cols[9] && c[10] == cols[10];
  }

  /** `ProductionSheetSchema::from_headers`: succeeds exactly when every
      required header is the trimmed text of some column; then the accessor
      for each required header gives the last such column. Otherwise the
      error lists the missing headers in the order of `RequiredHeaders`. */
  method FromHeaders(headers: seq<string>) returns (r: Result<ProductionSheetSchema>)
    ensures r.Success? <==> forall h :: h in RequiredHeaders ==> h in Keys(headers)
    ensures r.Failure? ==> r.error == MissingColumns(Missing(RequiredHeaders, HeaderMapOf(Keys(headers))))
    ensures r.Failure? ==> forall x :: x in r.error.headers <==> x in RequiredHeaders && x !in Keys(headers)
    ensures r.Success? ==>
              forall k :: 0 <= k < |RequiredHeaders| ==>
                IsLastColumnOf(Keys(headers), RequiredHeaders[k], Columns(r.value)[k])
  {
    var headerMap := BuildHeaderMap(headers);
    var missing := FindMissing(headerMap);
    RequiredColumns(Keys(headers));
    if missing != [] {
      return Failure(MissingColumns(missing));
    }
    var cols := seq(|RequiredHeaders|, k requires 0 <= k < |RequiredHeaders| => NewColumnIndex(headerMap[RequiredHeaders[k]]));
    ColumnsOfSchema(cols);
    r := Success(SchemaOf(cols));
  }

  /** What the map says about the required headers: each is in it exactly
      when some column has it as key, nothing is missing exactly when all of
      them are, and each one it holds sits at its last column. */
  lemma RequiredColumns(keys: seq<string>)
    ensures forall x :: x in Missing(RequiredHeaders, HeaderMapOf(keys)) <==> x in RequiredHeaders && x !in keys
    ensures Missing(RequiredHeaders, HeaderMapOf(keys)) == [] <==> forall h :: h in RequiredHeaders ==> h in keys
    ensures forall k :: 0 <= k < |RequiredHeaders| && RequiredHeaders[k] in keys ==>
              && RequiredHeaders[k] in HeaderMapOf(keys)
              && IsLastColumnOf(keys, RequiredHeaders[k], ColumnIndex(HeaderMapOf(keys)[RequiredHeaders[k]]))
  {
    MissingMeaning(RequiredHeaders, HeaderMapOf(keys));
    forall h | h in RequiredHeaders
      ensures h in HeaderMapOf(keys) <==> h in keys
      ensures h in HeaderMapOf(keys) ==> IsLastColumnOf(keys, h, ColumnIndex(HeaderMapOf(keys)[h]))
    {
      HeaderMapMeaning(keys, h);
    }
  }

  /** An empty header row lacks every required header, and all eleven are
      reported in order. */
  method EmptyHeaderRowExample()
  {
    MissingAll(RequiredHeaders, map[]);
    var r := FromHeaders([]);
    assert r == Failure(MissingColumns(RequiredHeaders));
  }

  /** Headers that are already trimmed are their own keys. */
  lemma KeysOfTrimmed(headers: seq<string>)
    requires forall i :: 0 <= i < |headers| ==> IsTrimmed(headers[i])
    ensures Keys(headers) == headers
  {
    KeysMeaning(headers);
    forall i | 0 <= i < |headers|
      ensures Keys(headers)[i] == headers[i]
    {
      TrimOfTrimmed(headers[i]);
    }
  }

  /** A header row with every required header and a second "項" column at the
      end: the schema succeeds and its item column is the later one. */
  method RepeatedHeaderExample()
  {
    var headers := RequiredHeaders + ["項"];
    assert forall i :: 0 <= i < |headers| ==> IsTrimmed(headers[i]);
    KeysOfTrimmed(headers);
    var r := FromHeaders(headers);
    assert forall h :: h in RequiredHeaders ==> h in Keys(headers);
    assert r.Success?;
    assert Keys(headers)[11] == "項";
    assert Columns(r.value)[0] == ColumnIndex(11);
  }
}
