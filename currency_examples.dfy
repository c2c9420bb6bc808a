/** The reference values of the unit test of `f64_to_gsc` in src/main.rs
    (assertions t1 to t10), one lemma per value. */
module CurrencyExamples {
  import opened Wrappers
  import opened Currency

  lemma UnitTestT1()
    ensures F64ToGsc("1.0345") == Some("1g 03s 45c")
  {
    FormatsAs("1.0345", "1", "0345", "1g 03s 45c");
  }

  lemma UnitTestT2()
    ensures F64ToGsc("-1.0345") == Some("-1g 03s 45c")
  {
    FormatsAs("-1.0345", "-1", "0345", "-1g 03s 45c");
  }

  lemma UnitTestT3()
    ensures F64ToGsc("1.1") == Some("1g 10s 0c")
  {
    FormatsAs("1.1", "1", "1", "1g 10s 0c");
  }

  lemma UnitTestT4()
    ensures F64ToGsc("-1.1") == Some("-1g 10s 0c")
  {
    FormatsAs("-1.1", "-1", "1", "-1g 10s 0c");
  }

  lemma UnitTestT5()
    ensures F64ToGsc("1.03") == Some("1g 03s 0c")
  {
    FormatsAs("1.03", "1", "03", "1g 03s 0c");
  }

  lemma UnitTestT6()
    ensures F64ToGsc("-1.03") == Some("-1g 03s 0c")
  {
    FormatsAs("-1.03", "-1", "03", "-1g 03s 0c");
  }

  lemma UnitTestT7()
    ensures F64ToGsc("1.0305") == Some("1g 03s 05c")
  {
    FormatsAs("1.0305", "1", "0305", "1g 03s 05c");
  }

  lemma UnitTestT8()
    ensures F64ToGsc("-1.0305") == Some("-1g 03s 05c")
  {
    FormatsAs("-1.0305", "-1", "0305", "-1g 03s 05c");
  }

  lemma UnitTestT9()
    ensures F64ToGsc("1.035") == Some("1g 03s 50c")
  {
    FormatsAs("1.035", "1", "035", "1g 03s 50c");
  }

  lemma UnitTestT10()
    ensures F64ToGsc("-1.035") == Some("-1g 03s 50c")
  {
    FormatsAs("-1.035", "-1", "035", "-1g 03s 50c");
  }
}
