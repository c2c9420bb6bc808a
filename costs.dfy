/** The cost arithmetic of src/main.rs. The labor cost and the number of units
    produced are `usize` products: a debug build panics when a product overflows,
    which is None here. The material cost is an `f64` sum in the program; here it
    is computed over exact reals. */
module Costs {
  import opened Wrappers
  import opened Document

  /** `json["cost_of_labor_per_craft"].as_usize()`. */
  function LaborPerCraft(json: Value): Option<nat> {
    AsUsize(Get(json, "cost_of_labor_per_craft"))
  }

  /** `json["num_crafts_wanted"].as_usize()`. */
  function CraftsWanted(json: Value): Option<nat> {
    AsUsize(Get(json, "num_crafts_wanted"))
  }

  /** `json["qty_per_craft"].as_usize()`. */
  function QtyPerCraft(json: Value): Option<nat> {
    AsUsize(Get(json, "qty_per_craft"))
  }

  /** `get_total_labor_cost`: `crafts * labor_per_craft`, or None when a field is
      not a `usize` (the `unwrap` panics) or the product overflows `usize` (a
      debug build panics). */
  function TotalLaborCost(json: Value): (r: Option<nat>)
    ensures r.Some? <==>
      LaborPerCraft(json).Some? && CraftsWanted(json).Some? &&
      CraftsWanted(json).value * LaborPerCraft(json).value <= USIZE_MAX
    ensures r.Some? ==> r.value == CraftsWanted(json).value * LaborPerCraft(json).value
  {
    match (LaborPerCraft(json), CraftsWanted(json))
    case (Some(labor), Some(crafts)) =>
      if crafts * labor <= USIZE_MAX then Some(crafts * labor) else None
    case _ => None
  }

  /** `total_units` in `get_selling_total`: `qty_per_craft * crafts`, with the
      same failure cases as the labor cost. */
  function TotalUnits(json: Value): (r: Option<nat>)
    ensures r.Some? <==>
      QtyPerCraft(json).Some? && CraftsWanted(json).Some? &&
      QtyPerCraft(json).value * CraftsWanted(json).value <= USIZE_MAX
    ensures r.Some? ==> r.value == QtyPerCraft(json).value * CraftsWanted(json).value
  {
    match (QtyPerCraft(json), CraftsWanted(json))
    case (Some(qty), Some(crafts)) =>
      if qty * crafts <= USIZE_MAX then Some(qty * crafts) else None
    case _ => None
  }

  /** `per * qty as f64` for material `i`, or None where an `unwrap` panics:
      defined exactly when `qty` is a whole number in the range of `usize` and
      `price_per` is a number, and then the product of the two numbers. */
  function LineCost(json: Value, i: nat): (r: Option<real>)
    ensures r.Some? <==>
      AsUsize(Get(Material(json, i), "qty")).Some? && Get(Material(json, i), "price_per").Number?
    ensures r.Some? ==>
      r.value == Get(Material(json, i), "price_per").n * Get(Material(json, i), "qty").n
  {
    var qty := AsUsize(Get(Material(json, i), "qty"));
    var per := AsF64(Get(Material(json, i), "price_per"));
    if qty.Some? && per.Some? then Some(per.value * qty.value as real) else None
  }

  /** The cost of one craft's first `n` materials: defined exactly when each of
      those lines is. */
  function CostOfFirst(json: Value, n: nat): (r: Option<real>)
    ensures r.Some? <==> forall i :: 0 <= i < n ==> LineCost(json, i).Some?
  {
    if n == 0 then
      Some(0.0)
    else
      var before, line := CostOfFirst(json, n - 1), LineCost(json, n - 1);
      if before.Some? && line.Some? then Some(before.value + line.value) else None
  }

  /** The material cost of every craft wanted: defined exactly when every line
      and the number of crafts convert. */
  function MaterialCost(json: Value): (r: Option<real>)
    ensures r.Some? <==>
      (forall i :: 0 <= i < Len(Materials(json)) ==> LineCost(json, i).Some?) &&
      CraftsWanted(json).Some?
    ensures Len(Materials(json)) == 0 && CraftsWanted(json).Some? ==> r == Some(0.0)
  {
    var perCraft, crafts := CostOfFirst(json, Len(Materials(json))), CraftsWanted(json);
    if perCraft.Some? && crafts.Some? then Some(perCraft.value * crafts.value as real) else None
  }

  /** `calculate_total_material_cost`, its loop run over exact reals. */
  method TotalMaterialCost(json: Value) returns (r: Option<real>)
    ensures r == MaterialCost(json)
  {
    var total := 0.0;
    for i := 0 to Len(Materials(json))
      invariant CostOfFirst(json, i) == Some(total)
    {
      var qty := AsUsize(Get(Material(json, i), "qty"));
      var per := AsF64(Get(Material(json, i), "price_per"));
      if qty.None? || per.None? {
        CostOfFirstFailsAfter(json, i, Len(Materials(json)));
        return None;
      }
      assert LineCost(json, i).value == per.value * qty.value as real;
      total := total + per.value * qty.value as real;
    }
    var crafts := CraftsWanted(json);
    if crafts.None? {
      return None;
    }
    assert MaterialCost(json).value == total * crafts.value as real;
    return Some(total * crafts.value as real);
  }

  /** A missing or malformed line makes the whole sum fail, whatever follows. */
  lemma {:induction false} CostOfFirstFailsAfter(json: Value, i: nat, n: nat)
    requires i < n && LineCost(json, i).None?
    ensures CostOfFirst(json, n).None?
  {
    if n - 1 > i {
      CostOfFirstFailsAfter(json, i, n - 1);
    }
  }

  /** With no negative price the cost of the first materials only grows. */
  lemma {:induction false} CostOfFirstGrows(json: Value, m: nat, n: nat)
    requires m <= n && CostOfFirst(json, n).Some?
    requires forall i :: 0 <= i < n ==> LineCost(json, i).Some? ==> LineCost(json, i).value >= 0.0
    ensures CostOfFirst(json, m).Some? && 0.0 <= CostOfFirst(json, m).value <= CostOfFirst(json, n).value
  {
    if m < n {
      CostOfFirstGrows(json, m, n - 1);
    } else if n > 0 {
      CostOfFirstGrows(json, n - 1, n - 1);
    }
  }
}
