# aa_crafting: a Dafny model of the crafting calculator's core

`src/main.rs` is a command-line calculator for crafting recipes. It reads a JSON
recipe, checks that the required fields are present, and works out three figures:
the labor cost, the expected selling total and the material cost. It prints money
amounts as gold, silver and copper, where 1 gold is 100 silver and 1 silver is
100 copper.

This project models the parts of that program that do not depend on floating
point or I/O, and proves what they promise.

- **Currency formatter** (`currency.dfy`, module `Currency`). This is
  `f64_to_gsc`, starting from the decimal text of the amount. The text is split
  at its first '.'. The whole part becomes the gold amount, sign included. The
  first four fractional digits become silver and copper, chosen by one of five
  cases on the length of the fractional piece.
  - Formatting is partial. The `_` arm slices `[..2]`, so an empty fractional
    piece panics; the model returns `None` there.
  - `currency_examples.dfy` holds the ten reference values of the unit test.
- **Digits** (`digits.dfy`, module `Digits`). Decimal digit strings, their
  numeric value, and the `{}` rendering of an index.
- **Document** (`document.dfy`, module `Document`). The `json::JsonValue` the
  program reads, and the indexing it does:
  - `v[key]` and `v[i]` give Null when the key or index is missing, or when the
    value is of the wrong kind;
  - `len()` counts the elements of an array or the members of an object;
  - `as_str`, `as_f64` and `as_usize` convert values.
- **Validator** (`validate.dfy`, module `Validate`). `assert_format` and
  `assert_material_format`, written as methods with the source's loops. They
  return an outcome that names the first failed check, where the program panics
  instead. The panic messages are modelled too.
- **Longest name** (`names.dfy`, module `Names`). `longest_name_len`, the
  running maximum of the material names' byte lengths (`str::len()`, UTF-8).
- **Costs** (`costs.dfy`, module `Costs`).
  - `get_total_labor_cost` and the `total_units` product of
    `get_selling_total`, as `usize` products. A debug build panics on overflow;
    the model returns `None` there.
  - The loop of `calculate_total_material_cost`, over exact reals.
  - `costs_examples.dfy` holds the two test recipes and the values the model
    gives for them.

Where the code and its tests disagree, the model follows the code. The test at
`src/main.rs:224-225` expects a material cost of 121.1988 for TEST_JSON_2. That
figure is the cost of one craft's materials. `calculate_total_material_cost`
multiplies it by `num_crafts_wanted` (50), which gives 6059.94.
`CostsExamples.MaterialCostTest2` proves both figures, and
`CostsExamples.MaterialCostTest2AsWritten` shows that the test's expectation
does not hold for the code (see "Findings" below).

## Model

Several helpers only abbreviate json expressions of the source, and they are built from members listed below:
- `Costs.LaborPerCraft`, `Costs.CraftsWanted` and `Costs.QtyPerCraft` (lines 39-40 and 46-47);
- `Document.Materials` and `Document.Material` (lines 29-31 and 129);
- `Validate.Has` (lines 112 and 129);
- `Names.NameAt` (line 93).

| member | source | states |
|---|---|---|
| Currency.PointIndex | src/main.rs:56 | the index of the first '.' in the text, or its length when there is none: no earlier character is a point |
| Currency.SplitAtPoint | src/main.rs:56 | `text.split(".")`: both pieces are point-free, there is a fractional piece exactly when the text has a point, and without one the whole part is the text |
| Currency.SplitAtPointPieces | src/main.rs:56 | `split[0]` is point-free, `split[1]` exists exactly when the text has a point, and the text starts with `split[0] + "." + split[1]` followed by the end or another point |
| Currency.SplitJoin | src/main.rs:56 | splitting the joined pieces of a point-free whole and fraction gives back those pieces |
| Currency.JoinSplit | src/main.rs:56 | joining the split pieces of a text with at most one point gives back the text |
| Currency.FormatGsc | src/main.rs:57-72 | the case split on the fraction's length: the output starts with the whole part and "g ", is at least seven characters longer than it, and ends in 'c' |
| Currency.FormatGscByDenomination | src/main.rs:57-72 | every case prints the gold text and "g ", then silver and "s ", then copper and "c"; silver is the first two fractional digits padded with '0', and copper is the next two, or "0" when there are at most two |
| Currency.F64ToGsc | src/main.rs:53-74 | `f64_to_gsc` from the decimal text: fails exactly when the fractional piece is empty; otherwise gives the whole part, "g ", silver, "s ", copper and "c" |
| Currency.PanicsOnlyOnEmptyFraction | src/main.rs:64-70 | formatting fails exactly when the first point ends the text or is directly followed by another point |
| Currency.GoldComesFirst | src/main.rs:54-57 | the output starts with the text before the point, sign included, followed by "g " |
| Currency.WholeAmount | src/main.rs:59-61 | a text without a point formats as "<text>g 0s 0c" |
| Currency.FractionCases | src/main.rs:64-72 | for the text `w.f`, the 1-, 2-, 3- and 4-or-more-digit cases give "wg f0s 0c", "wg fs 0c", "wg f[..2]s f[2..]0c" and "wg f[..2]s f[2..4]c" |
| Currency.FirstFourDecide | src/main.rs:68-71 | two fractions of at least four digits that share their first four digits format the same |
| Currency.DigitsPastFourthIgnored | src/main.rs:68-71 | digits after the fourth never reach the output: the amount is truncated, not rounded |
| Currency.FormatSignPrefix | src/main.rs:57 | a '-' in front of the whole part only puts a '-' in front of the output |
| Currency.NegativeSignOnlyOnGold | src/main.rs:57-72 | "-" + s splits to the same fraction as s, and formats as "-" followed by the output for s; it fails exactly when s fails |
| Currency.SilverCopperIsTruncatedFraction | src/main.rs:52-72 | read as numbers, silver * 100 + copper equals the fraction truncated to ten-thousandths of a gold |
| Currency.LongFractionValue | src/main.rs:68-71 | with four or more digits, the four digits kept are the fraction truncated to ten-thousandths |
| Currency.ShortFractionValue | src/main.rs:65-67 | with one to three digits, padding with '0' scales the fraction to ten-thousandths exactly |
| Currency.FormatsAs | src/main.rs:56-72 | a text `w.f` whose two pieces hold no point formats as the pieces `w` and `f` do |
| CurrencyExamples.UnitTestT1 | src/main.rs:178-180 | "1.0345" formats as "1g 03s 45c" |
| CurrencyExamples.UnitTestT2 | src/main.rs:182-184 | "-1.0345" formats as "-1g 03s 45c" |
| CurrencyExamples.UnitTestT3 | src/main.rs:186-188 | "1.1" formats as "1g 10s 0c" |
| CurrencyExamples.UnitTestT4 | src/main.rs:190-192 | "-1.1" formats as "-1g 10s 0c" |
| CurrencyExamples.UnitTestT5 | src/main.rs:194-196 | "1.03" formats as "1g 03s 0c" |
| CurrencyExamples.UnitTestT6 | src/main.rs:198-200 | "-1.03" formats as "-1g 03s 0c" |
| CurrencyExamples.UnitTestT7 | src/main.rs:202-204 | "1.0305" formats as "1g 03s 05c" |
| CurrencyExamples.UnitTestT8 | src/main.rs:206-208 | "-1.0305" formats as "-1g 03s 05c" |
| CurrencyExamples.UnitTestT9 | src/main.rs:210-212 | "1.035" formats as "1g 03s 50c" |
| CurrencyExamples.UnitTestT10 | src/main.rs:214-216 | "-1.035" formats as "-1g 03s 50c" |
| Digits.NatToString | src/main.rs:129 | the `{}` text of an index is non-empty, all digits, has no leading zero, and reads back as the index |
| Document.Get | src/main.rs:112 | `json[f]` is the member `f` when the value is an object that has it, and Null otherwise |
| Document.At | src/main.rs:129 | `json[i]` is element `i` when the value is an array with more than `i` elements, and Null otherwise |
| Document.Len | src/main.rs:29 | `len()` is the number of elements of an array or members of an object; any other value has length 0 |
| Document.AsStr | src/main.rs:93 | `as_str()` gives a value exactly for a string, and that value is the string |
| Document.AsF64 | src/main.rs:31 | `as_f64()` gives a value exactly for a number, and that value is the number |
| Document.AsUsize | src/main.rs:39-40 | `as_usize` gives a value only for a number that is that whole value and fits in `usize`, and never for a value that is not a number |
| Document.WholeNumberAsUsize | src/main.rs:39-40 | every whole number in the range of `usize` converts to itself |
| Validate.AssertMaterialFormat | src/main.rs:118-132 | passes exactly when the materials list is non-empty and every material has `mat_name`, `qty` and `price_per`; otherwise it reports the first failure: emptiness first, then materials by index and fields in order |
| Validate.AssertFormat | src/main.rs:101-116 | passes exactly when the six top-level fields are present and the materials check passes; otherwise it reports the first failure: top-level fields in list order, then the materials check |
| Validate.FirstErrorUnique | src/main.rs:101-132 | the first failure is unique, so the report is determined by the document |
| Validate.MissingFieldFirst | src/main.rs:111-115 | a missing top-level field comes before every materials failure and every later top-level field |
| Validate.Message | src/main.rs:112-129 | the panic text of each failure ends in a newline; a missing field's text starts with "Field is missing from json: ", a material's with "Field is missing from material index " |
| Validate.MessageInjective | src/main.rs:112-129 | different failures panic with different messages: the message gives back the kind, the field and the material index |
| Validate.MessageKind | src/main.rs:112-125 | the three messages differ in their first or 23rd character |
| Validate.SameMaterialMessage | src/main.rs:129 | two material messages that are equal have the same index and field |
| Names.Utf8Len | src/main.rs:94 | `name.len()`, the UTF-8 byte length: 0 exactly for the empty string |
| Names.Utf8LenBounds | src/main.rs:94-95 | a name takes between one and four bytes per character, and one per character exactly when it is ASCII |
| Names.LongestNameLen | src/main.rs:90-99 | succeeds exactly when every name is a string; the result is at least every name's byte length, equals one of them when the list is non-empty, and is 0 when it is empty |
| Costs.TotalLaborCost | src/main.rs:38-42 | `crafts * labor_per_craft`; it fails exactly when a field is not a `usize` or the product does not fit in `usize` |
| Costs.TotalUnits | src/main.rs:46-48 | `qty_per_craft * crafts`, with the same failure cases |
| Costs.LineCost | src/main.rs:30-32 | one line's `per * qty`: defined exactly when `qty` is a whole number in `usize` range and `price_per` is a number, and then the product of those two numbers |
| Costs.CostOfFirst | src/main.rs:29-33 | the running total after `n` lines: defined exactly when each of those lines is |
| Costs.MaterialCost | src/main.rs:28-36 | the material cost: defined exactly when every line and `num_crafts_wanted` convert; 0 for an empty list |
| Costs.TotalMaterialCost | src/main.rs:27-36 | the loop's total, times the crafts wanted, is the per-craft material cost summed line by line; any line whose `qty` or `price_per` does not convert makes it fail |
| Costs.CostOfFirstFailsAfter | src/main.rs:29-33 | one line that does not convert makes every longer sum fail |
| Costs.CostOfFirstGrows | src/main.rs:29-33 | with no negative price, each partial sum is non-negative and no larger than a longer one |
| CostsExamples.LaborCostTests | src/main.rs:228-235 | the labor cost is 5 for TEST_JSON and 1000 for TEST_JSON_2 |
| CostsExamples.TotalUnitsTests | src/main.rs:44-48 | TEST_JSON makes 1 unit and TEST_JSON_2 makes 500 |
| CostsExamples.MaterialCostTest1 | src/main.rs:220-222 | the material cost of TEST_JSON is 6.0 |
| CostsExamples.MaterialCostTest2 | src/main.rs:224-225 | for TEST_JSON_2, one craft's materials cost 121.1988 and the material cost the code returns is 6059.94 |
| CostsExamples.MaterialCostTest2AsWritten | src/main.rs:224-225 | the code returns 50 times the per-craft figure for TEST_JSON_2, so not the 121.1988 the test expects |
| CostsExamples.TestDocumentWellFormed1 | src/main.rs:140-153 | TEST_JSON passes the input check |
| CostsExamples.TestDocumentWellFormed2 | src/main.rs:155-168 | TEST_JSON_2 passes the input check |

## Left out

- `main` and `read_json` (argument vector, file reading, the json crate's parser). They are I/O and foreign code. The json crate is not part of this model; only the behaviour of its indexing and conversions that the program relies on is modelled, in `Document`.
- `begin` and `get_individual_material_qty_and_cost_string` only print, with `{:align$}` padding. Printing is not modelled.
  - Modelled among the printed values: the labor cost, the material cost, the column width and the currency texts.
  - Not modelled: the selling total (line 49), the profit `expected - mat_total` (line 23) and the per-material totals (line 84). They are `f64` products or differences.
- `f64::to_string` is left out, because it is floating-point formatting. `Currency.F64ToGsc` starts from the decimal text.
  - The model slices characters, while the source slices bytes. The two agree only on ASCII text, such as what `f64::to_string` produces: digits, '-', '.', "inf" and "NaN".
  - The Currency members are stated for any string, but they describe the source only for ASCII text. On "1.é", for example, the source sees a 2-byte fraction and takes the 2-digit arm; the model sees one character.
- `get_selling_total`: the `f64` product `single_price * total_units as f64` is floating point. Only the integer `total_units` is modelled.
- Costs.TotalMaterialCost: computes over exact reals, so it does not model `f64` rounding. The test's exact equality depends on that rounding.
- Costs.TotalLaborCost, Costs.TotalUnits: a release build wraps the `usize` products `crafts * labor_per_craft` (line 41) and `qty_per_craft * crafts` (line 48) around instead of panicking. The model follows the debug build, and `usize` is taken to be 64 bits wide.
- Document.AsUsize: a `Number` holds an exact real, so the model does not distinguish different spellings of the same number ("50", "50.0", "5e1"). The json crate stores a decimal mantissa and exponent, and its integer conversion works from those. Its exact rules, for whole values written with a fraction or an exponent and for numbers that are not whole, are not modelled. In the model a number converts exactly when it is a whole value in range.
- Panics are values in the model: `None` for a failed `unwrap` or an overflow, and `Fail` for a failed `assert!`. Process termination is not modelled.
- Names.LongestNameLen: returns an unbounded natural number, whereas the source's result is a `usize`. No name in memory can be long enough for the difference to show.

## Findings

| source | as written | input that shows it | evidently intended | confidence | as-written member | corrected member |
|---|---|---|---|---|---|---|
| src/main.rs:224-225 | the test expects `calculate_total_material_cost` to return 121.1988 for TEST_JSON_2 | TEST_JSON_2: its lines cost 80 + 40 + 1.1988 = 121.1988 per craft, and line 35 multiplies that by `num_crafts_wanted` = 50 | the expected figure is 6059.94, the cost of all 50 crafts, as the function computes it | not executed; exact-real model, so `f64` rounding of the sum is not covered | CostsExamples.MaterialCostTest2AsWritten | CostsExamples.MaterialCostTest2 |
