/** The two recipe documents of the unit tests in src/main.rs (TEST_JSON and
    TEST_JSON_2) and what the model computes for them. */
module CostsExamples {
  import opened Wrappers
  import opened Document
  import opened Costs
  import opened Validate

  function MaterialEntry(name: string, qty: nat, per: real): Value {
    Object(map["mat_name" := Str(name), "qty" := Number(qty as real), "price_per" := Number(per)])
  }

  function Recipe(name: string, qty: nat, crafts: nat, labor: nat, price: real, mats: seq<Value>): Value {
    Object(map[
      "name" := Str(name),
      "qty_per_craft" := Number(qty as real),
      "num_crafts_wanted" := Number(crafts as real),
      "cost_of_labor_per_craft" := Number(labor as real),
      "price_of_single_when_sold" := Number(price),
      "materials_per_craft" := Array(mats)])
  }

  /** TEST_JSON. */
  const TestJson: Value := Recipe("test", 1, 1, 5, 1.1, [
    MaterialEntry("mat1", 1, 1.0),
    MaterialEntry("mat2", 1, 2.0),
    MaterialEntry("mat3", 1, 3.0)])

  /** TEST_JSON_2. */
  const TestJson2: Value := Recipe("test_2", 10, 50, 20, 1.1999, [
    MaterialEntry("powder", 2000, 0.04),
    MaterialEntry("ammo", 20, 2.0),
    MaterialEntry("aaaaaaaaaaaaaaaaaaaaalongformatcrap", 999, 0.0012)])

  /** test_total_labor_cost: 5 for the first document, 1000 for the second. */
  lemma LaborCostTests()
    ensures TotalLaborCost(TestJson) == Some(5)
    ensures TotalLaborCost(TestJson2) == Some(1000)
  {
  }

  lemma TotalUnitsTests()
    ensures TotalUnits(TestJson) == Some(1)
    ensures TotalUnits(TestJson2) == Some(500)
  {
  }

  lemma RecipeMaterials(name: string, qty: nat, crafts: nat, labor: nat, price: real, mats: seq<Value>)
    ensures Materials(Recipe(name, qty, crafts, labor, price, mats)) == Array(mats)
    ensures CraftsWanted(Recipe(name, qty, crafts, labor, price, mats)) ==
      AsUsize(Number(crafts as real))
  {
  }

  /** The line cost of an entry written as `MaterialEntry`. */
  lemma EntryLineCost(json: Value, i: nat, name: string, qty: nat, per: real)
    requires qty <= USIZE_MAX && Material(json, i) == MaterialEntry(name, qty, per)
    ensures LineCost(json, i) == Some(per * qty as real)
  {
    WholeNumberAsUsize(qty);
    assert Get(Material(json, i), "qty") == Number(qty as real);
    assert Get(Material(json, i), "price_per") == Number(per);
    assert LineCost(json, i).value == per * qty as real;
  }

  /** test_caclulate_total_material_cost, first document: 6.0. */
  lemma MaterialCostTest1()
    ensures MaterialCost(TestJson) == Some(6.0)
  {
    RecipeMaterials("test", 1, 1, 5, 1.1, Materials(TestJson).items);
    WholeNumberAsUsize(1);
    EntryLineCost(TestJson, 0, "mat1", 1, 1.0);
    EntryLineCost(TestJson, 1, "mat2", 1, 2.0);
    EntryLineCost(TestJson, 2, "mat3", 1, 3.0);
    assert CostOfFirst(TestJson, 3) == Some(6.0);
  }

  /** test_caclulate_total_material_cost, second document. One craft's materials
      cost 121.1988, the value the test expects; the program multiplies that by
      the 50 crafts wanted, so what it returns is 6059.94. */
  lemma MaterialCostTest2()
    ensures CostOfFirst(TestJson2, 3) == Some(121.1988)
    ensures MaterialCost(TestJson2) == Some(6059.94)
  {
    RecipeMaterials("test_2", 10, 50, 20, 1.1999, Materials(TestJson2).items);
    WholeNumberAsUsize(50);
    EntryLineCost(TestJson2, 0, "powder", 2000, 0.04);
    EntryLineCost(TestJson2, 1, "ammo", 20, 2.0);
    EntryLineCost(TestJson2, 2, "aaaaaaaaaaaaaaaaaaaaalongformatcrap", 999, 0.0012);
    assert CostOfFirst(TestJson2, 3) == Some(121.1988);
  }

  /** The expectation of test_caclulate_total_material_cost for the second
      document does not hold for the code: the cost it returns is the per-craft
      figure the test expects, fifty times over. */
  lemma MaterialCostTest2AsWritten()
    ensures MaterialCost(TestJson2).Some? && CostOfFirst(TestJson2, 3).Some?
    ensures MaterialCost(TestJson2).value == 50.0 * CostOfFirst(TestJson2, 3).value
    ensures MaterialCost(TestJson2) != Some(121.1988)
  {
    MaterialCostTest2();
  }

  lemma TestDocumentWellFormed1()
    ensures WellFormed(TestJson)
  {
  }

  lemma TestDocumentWellFormed2()
    ensures WellFormed(TestJson2)
  {
  }
}
