/** The input check of src/main.rs: `assert_format` requires six top-level fields
    in a fixed order, then `assert_material_format` requires a non-empty materials
    list whose every entry has three fields. The program stops at the first failed
    `assert!`; here that is an outcome naming the first failure. */
module Validate {
  import opened Document
  import opened Digits

  /** The top-level fields, in the order `assert_format` checks them. */
  const TopFields: seq<string> := [
    "name",
    "qty_per_craft",
    "num_crafts_wanted",
    "price_of_single_when_sold",
    "cost_of_labor_per_craft",
    "materials_per_craft"
  ]

  /** The fields of one material, in the order `assert_material_format` checks them. */
  const MatFields: seq<string> := ["mat_name", "qty", "price_per"]

  datatype FormatError =
    | MissingField(field: string)
    | EmptyMaterials
    | MissingMaterialField(index: nat, field: string)

  datatype Outcome = Pass | Fail(error: FormatError)

  /** `!v[f].is_null()`. */
  predicate Has(v: Value, f: string) {
    Get(v, f) != Null
  }

  predicate TopComplete(json: Value) {
    forall k :: 0 <= k < |TopFields| ==> Has(json, TopFields[k])
  }

  predicate MaterialComplete(json: Value, i: nat) {
    forall k :: 0 <= k < |MatFields| ==> Has(Material(json, i), MatFields[k])
  }

  /** What `assert_material_format` accepts. */
  predicate MaterialsWellFormed(json: Value) {
    Len(Materials(json)) > 0 &&
    forall i :: 0 <= i < Len(Materials(json)) ==> MaterialComplete(json, i)
  }

  /** What `assert_format` accepts. */
  predicate WellFormed(json: Value) {
    TopComplete(json) && MaterialsWellFormed(json)
  }

  /** Top-level field `k` is missing and every earlier one is present. */
  predicate FirstMissingTop(json: Value, k: nat) {
    k < |TopFields| && !Has(json, TopFields[k]) &&
    forall j :: 0 <= j < k ==> Has(json, TopFields[j])
  }

  /** Field `k` of material `i` is missing, and every earlier material, and every
      earlier field of material `i`, is complete. */
  predicate FirstMissingMaterial(json: Value, i: nat, k: nat) {
    i < Len(Materials(json)) && k < |MatFields| &&
    (forall i' :: 0 <= i' < i ==> MaterialComplete(json, i')) &&
    (forall j :: 0 <= j < k ==> Has(Material(json, i), MatFields[j])) &&
    !Has(Material(json, i), MatFields[k]) && !MaterialComplete(json, i)
  }

  /** `e` is the failure `assert_material_format` reports first. */
  ghost predicate IsFirstMaterialError(json: Value, e: FormatError) {
    match e
    case MissingField(_) => false
    case EmptyMaterials => Len(Materials(json)) == 0
    case MissingMaterialField(i, f) =>
      Len(Materials(json)) > 0 &&
      exists k: nat :: FirstMissingMaterial(json, i, k) && MatFields[k] == f
  }

  /** `e` is the failure `assert_format` reports first. */
  ghost predicate IsFirstError(json: Value, e: FormatError) {
    match e
    case MissingField(f) => exists k: nat :: FirstMissingTop(json, k) && TopFields[k] == f
    case _ => TopComplete(json) && IsFirstMaterialError(json, e)
  }

  /** `assert_material_format`: passes exactly on a well-formed materials list,
      and otherwise reports the first failure, the emptiness check first, then
      materials by index and fields in order. */
  method AssertMaterialFormat(json: Value) returns (o: Outcome)
    ensures o.Pass? <==> MaterialsWellFormed(json)
    ensures o.Fail? ==> IsFirstMaterialError(json, o.error)
  {
    var n := Len(Materials(json));
    if !(n > 0) {
      return Fail(EmptyMaterials);
    }
    for i := 0 to n
      invariant forall i' :: 0 <= i' < i ==> MaterialComplete(json, i')
    {
      for k := 0 to |MatFields|
        invariant forall j :: 0 <= j < k ==> Has(Material(json, i), MatFields[j])
      {
        if Get(Material(json, i), MatFields[k]) == Null {
          assert FirstMissingMaterial(json, i, k) && !MaterialComplete(json, i);
          return Fail(MissingMaterialField(i, MatFields[k]));
        }
      }
    }
    return Pass;
  }

  /** `assert_format`: passes exactly on a well-formed document, and otherwise
      reports the first failure: top-level fields in order, then the materials. */
  method AssertFormat(json: Value) returns (o: Outcome)
    ensures o.Pass? <==> WellFormed(json)
    ensures o.Fail? ==> IsFirstError(json, o.error)
  {
    for k := 0 to |TopFields|
      invariant forall j :: 0 <= j < k ==> Has(json, TopFields[j])
    {
      if Get(json, TopFields[k]) == Null {
        assert FirstMissingTop(json, k);
        return Fail(MissingField(TopFields[k]));
      }
    }
    o := AssertMaterialFormat(json);
  }

  /** At most one failure is the first: the report is determined by the document. */
  lemma FirstErrorUnique(json: Value, e1: FormatError, e2: FormatError)
    requires IsFirstError(json, e1) && IsFirstError(json, e2)
    ensures e1 == e2
  {
    if e1.MissingField? || e2.MissingField? {
      MissingFieldFirst(json, e1, e2);
      MissingFieldFirst(json, e2, e1);
    } else if e1.MissingMaterialField? && e2.MissingMaterialField? {
      var k1: nat :| FirstMissingMaterial(json, e1.index, k1) && MatFields[k1] == e1.field;
      var k2: nat :| FirstMissingMaterial(json, e2.index, k2) && MatFields[k2] == e2.field;
      assert !(k1 < k2) && !(k2 < k1);
    }
  }

  /** A missing top-level field excludes every other first failure. */
  lemma MissingFieldFirst(json: Value, e1: FormatError, e2: FormatError)
    requires IsFirstError(json, e1) && IsFirstError(json, e2) && e1.MissingField?
    ensures e1 == e2
  {
    var k1: nat :| FirstMissingTop(json, k1) && TopFields[k1] == e1.field;
    if e2.MissingField? {
      var k2: nat :| FirstMissingTop(json, k2) && TopFields[k2] == e2.field;
      assert !(k1 < k2) && !(k2 < k1);
    }
  }

  const JsonPrefix: string := "Field is missing from json: "
  const EmptyText: string :=
    "Empty materials list." + " Crafting recipes require at least 1 material.\n"
  const MaterialPrefix: string := "Field is missing from material index "
  const FieldInfix: string := ". Field: "

  /** The text the failed `assert!` panics with. */
  function Message(e: FormatError): (r: string)
    ensures |r| > 0 && r[|r| - 1] == '\n'
    ensures e.MissingField? ==> |r| > |JsonPrefix| && r[..|JsonPrefix|] == JsonPrefix
    ensures e.MissingMaterialField? ==> |r| > |MaterialPrefix| && r[..|MaterialPrefix|] == MaterialPrefix
  {
    match e
    case MissingField(f) => JsonPrefix + (f + "\n")
    case EmptyMaterials => EmptyText
    case MissingMaterialField(i, f) => MaterialPrefix + (NatToString(i) + (FieldInfix + (f + "\n")))
  }

  /** Different failures panic with different texts: the message identifies the
      failure, index and field name included. */
  lemma MessageInjective(e1: FormatError, e2: FormatError)
    requires Message(e1) == Message(e2)
    ensures e1 == e2
  {
    MessageKind(e1);
    MessageKind(e2);
    if e1.MissingField? && e2.MissingField? {
      Unwrap(JsonPrefix, e1.field, e2.field);
    } else if e1.MissingMaterialField? && e2.MissingMaterialField? {
      SameMaterialMessage(e1.index, e1.field, e2.index, e2.field);
    }
  }

  /** The first character, and the 23rd, tell the three kinds of message apart. */
  lemma MessageKind(e: FormatError)
    ensures |Message(e)| > 22
    ensures Message(e)[0] == (if e.EmptyMaterials? then 'E' else 'F')
    ensures e.MissingField? ==> Message(e)[22] == 'j'
    ensures e.MissingMaterialField? ==> Message(e)[22] == 'm'
  {
    match e
    case MissingField(f) =>
      assert JsonPrefix[0] == 'F' && JsonPrefix[22] == 'j';
    case EmptyMaterials =>
      assert EmptyText[0] == 'E';
    case MissingMaterialField(i, f) =>
      assert MaterialPrefix[0] == 'F' && MaterialPrefix[22] == 'm';
  }

  lemma SameMaterialMessage(i1: nat, f1: string, i2: nat, f2: string)
    requires Message(MissingMaterialField(i1, f1)) == Message(MissingMaterialField(i2, f2))
    ensures i1 == i2 && f1 == f2
  {
    var d1, d2 := NatToString(i1), NatToString(i2);
    var t1, t2 := FieldInfix + (f1 + "\n"), FieldInfix + (f2 + "\n");
    var m := Message(MissingMaterialField(i1, f1));
    assert d1 + t1 == m[|MaterialPrefix|..] == d2 + t2;
    assert t1[0] == '.' && t2[0] == '.';
    DigitsEndAt(d1, t1, d2, t2);
    assert i1 == NatOf(d1) == NatOf(d2) == i2;
    assert t1 == (d1 + t1)[|d1|..] == t2;
    Unwrap(FieldInfix, f1, f2);
  }

  /** `p + (a + "\n") == p + (b + "\n")` only when `a == b`. */
  lemma Unwrap(p: string, a: string, b: string)
    requires p + (a + "\n") == p + (b + "\n")
    ensures a == b
  {
    var m := p + (a + "\n");
    assert a == m[|p|..|m| - 1];
  }
  /** Two digit strings each followed by text starting with '.' can only be equal
      in full when the digit strings are equal. */
  lemma DigitsEndAt(d1: string, t1: string, d2: string, t2: string)
    requires AllDigits(d1) && AllDigits(d2) && |t1| > 0 && |t2| > 0
    requires t1[0] == '.' && t2[0] == '.' && d1 + t1 == d2 + t2
    ensures d1 == d2
  {
    var m := d1 + t1;
    assert m[|d1|] == '.' && m[|d2|] == '.';
    assert |d1| == |d2|;
    assert d1 == m[..|d1|] && d2 == m[..|d2|];
  }
}
