/** `longest_name_len` of src/main.rs: the column width used to align material
    names, the largest byte length of a `mat_name` in the materials list. */
module Names {
  import opened Wrappers
  import opened Document

  /** Bytes the UTF-8 encoding of one Unicode scalar value takes. */
  function Utf8Width(c: char): nat {
    if c as int < 0x80 then 1
    else if c as int < 0x800 then 2
    else if c as int < 0x1_0000 then 3
    else 4
  }

  /** `str::len()`: the length of a string in UTF-8 bytes. */
  function Utf8Len(s: string): (r: nat)
    ensures r == 0 <==> s == []
  {
    if s == [] then 0 else Utf8Len(s[..|s| - 1]) + Utf8Width(s[|s| - 1])
  }

  predicate IsAscii(s: string) {
    forall k :: 0 <= k < |s| ==> s[k] as int < 0x80
  }

  /** A string takes between one and four bytes per character, and exactly one
      per character precisely when it is ASCII. */
  lemma {:induction false} Utf8LenBounds(s: string)
    ensures |s| <= Utf8Len(s) <= 4 * |s|
    ensures Utf8Len(s) == |s| <==> IsAscii(s)
  {
    if s != [] {
      var init := s[..|s| - 1];
      Utf8LenBounds(init);
      if IsAscii(s) {
        assert IsAscii(init) by {
          forall k | 0 <= k < |init|
            ensures init[k] as int < 0x80
          {
            assert init[k] == s[k];
          }
        }
      } else if IsAscii(init) {
        assert s[|s| - 1] as int >= 0x80 by {
          forall k | 0 <= k < |s| - 1
            ensures s[k] as int < 0x80
          {
            assert s[k] == init[k];
          }
        }
      }
    }
  }

  /** `json["materials_per_craft"][i]["mat_name"].as_str()`. */
  function NameAt(json: Value, i: nat): Option<string> {
    AsStr(Get(Material(json, i), "mat_name"))
  }

  /** Every material in the list has a text name, so no `unwrap` panics. */
  predicate NamesAreText(json: Value) {
    forall i :: 0 <= i < Len(Materials(json)) ==> NameAt(json, i).Some?
  }

  /** Byte length of the name of material `i`. */
  function NameLen(json: Value, i: nat): nat
    requires NameAt(json, i).Some?
  {
    Utf8Len(NameAt(json, i).value)
  }

  /** `longest_name_len`: None where `unwrap` would panic on a name that is not
      text; otherwise the byte length of the longest name, 0 for an empty list. */
  method LongestNameLen(json: Value) returns (r: Option<nat>)
    ensures r.Some? <==> NamesAreText(json)
    ensures r.Some? ==>
      forall i :: 0 <= i < Len(Materials(json)) ==> NameLen(json, i) <= r.value
    ensures r.Some? && Len(Materials(json)) > 0 ==>
      exists i :: 0 <= i < Len(Materials(json)) && NameLen(json, i) == r.value
    ensures r.Some? && Len(Materials(json)) == 0 ==> r.value == 0
  {
    var len := 0;
    for i := 0 to Len(Materials(json))
      invariant forall j :: 0 <= j < i ==> NameAt(json, j).Some? && NameLen(json, j) <= len
      invariant i == 0 ==> len == 0
      invariant i > 0 ==> exists j :: 0 <= j < i && NameLen(json, j) == len
    {
      var name := NameAt(json, i);
      if name.None? {
        return None;
      }
      if Utf8Len(name.value) > len {
        len := Utf8Len(name.value);
      }
    }
    return Some(len);
  }
}
