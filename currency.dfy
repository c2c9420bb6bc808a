/** The currency formatter `f64_to_gsc` of src/main.rs, from the decimal text of
    the amount onward: the text is split at '.', the part before the point becomes
    the gold amount verbatim (sign included), and the first fractional digits
    become two-digit silver and copper amounts. */
module Currency {
  import opened Wrappers
  import opened Digits

  /** The pieces `split[0]` and `split[1]` of `text.split(".")`; `frac` is None
      when the text has no point. */
  datatype Decimal = Decimal(whole: string, frac: Option<string>)

  /** Index of the first '.' in `s`, or `|s|` when there is none. */
  function PointIndex(s: string): (i: nat)
    ensures i <= |s|
    ensures forall k :: 0 <= k < i ==> s[k] != '.'
    ensures i < |s| ==> s[i] == '.'
  {
    if s == [] || s[0] == '.' then 0 else 1 + PointIndex(s[1..])
  }

  lemma {:induction false} PointIndexAppend(a: string, b: string)
    requires '.' !in a
    ensures PointIndex(a + b) == |a| + PointIndex(b)
  {
    if a != [] {
      assert (a + b)[1..] == a[1..] + b;
      PointIndexAppend(a[1..], b);
    } else {
      assert a + b == b;
    }
  }

  /** `text.split(".")` as f64_to_gsc uses it: the piece before the first point,
      and the piece between the first point and the next one (or the end). */
  function SplitAtPoint(s: string): (d: Decimal)
    ensures NoPoint(d)
    ensures d.frac.None? <==> '.' !in s
    ensures d.frac.None? ==> d.whole == s
  {
    var i := PointIndex(s);
    if i == |s| then
      Decimal(s, None)
    else
      var rest := s[i + 1..];
      var j := PointIndex(rest);
      assert forall k :: 0 <= k < i ==> s[..i][k] == s[k];
      assert forall k :: 0 <= k < j ==> rest[..j][k] == rest[k];
      Decimal(s[..i], Some(rest[..j]))
  }

  /** What the split yields: a point-free whole part, and, exactly when the text
      has a point, the point-free piece that follows it up to the next point or
      the end of the text. */
  lemma SplitAtPointPieces(s: string)
    ensures var d := SplitAtPoint(s);
      '.' !in d.whole &&
      (d.frac.None? <==> '.' !in s) &&
      (d.frac.None? ==> d.whole == s) &&
      (d.frac.Some? ==>
        var n := |d.whole| + 1 + |d.frac.value|;
        '.' !in d.frac.value && n <= |s| && s[..n] == d.whole + "." + d.frac.value &&
        (n < |s| ==> s[n] == '.'))
  {
    var i := PointIndex(s);
    if i < |s| {
      var rest := s[i + 1..];
      var j := PointIndex(rest);
      var n := i + 1 + j;
      assert SplitAtPoint(s) == Decimal(s[..i], Some(rest[..j]));
      assert s[..n] == s[..i] + "." + rest[..j] by {
        assert s[..n] == s[..i] + [s[i]] + s[i + 1..n];
        assert s[i + 1..n] == rest[..j];
      }
      assert n < |s| ==> s[n] == '.' by {
        assert n < |s| ==> s[n] == rest[j];
      }
    }
  }

  /** The text a Decimal was split from, when that text had at most one point. */
  function JoinPoint(d: Decimal): string {
    match d.frac
    case None => d.whole
    case Some(f) => d.whole + "." + f
  }

  predicate NoPoint(d: Decimal) {
    '.' !in d.whole && (d.frac.Some? ==> '.' !in d.frac.value)
  }

  /** A text that starts with a point-free whole part and a point splits there. */
  lemma SplitAfterWhole(w: string, rest: string)
    requires '.' !in w
    ensures SplitAtPoint(w + "." + rest) == Decimal(w, Some(rest[..PointIndex(rest)]))
  {
    var s := w + "." + rest;
    assert s == w + ("." + rest);
    PointIndexAppend(w, "." + rest);
    assert PointIndex(s) == |w|;
    assert s[..|w|] == w;
    assert s[|w| + 1..] == rest;
  }

  /** Splitting the joined text gives back the pieces. */
  lemma SplitJoin(d: Decimal)
    requires NoPoint(d)
    ensures SplitAtPoint(JoinPoint(d)) == d
  {
    match d.frac
    case None =>
    case Some(f) =>
      SplitAfterWhole(d.whole, f);
      assert PointIndex(f) == |f|;
      assert f[..|f|] == f;
  }

  /** Joining the pieces of a text with at most one point gives back the text. */
  lemma JoinSplit(s: string)
    requires forall i, j :: 0 <= i < j < |s| && s[i] == '.' ==> s[j] != '.'
    ensures JoinPoint(SplitAtPoint(s)) == s
  {
    var d := SplitAtPoint(s);
    SplitAtPointPieces(s);
    if d.frac.Some? {
      var n := |d.whole| + 1 + |d.frac.value|;
      assert s[|d.whole|] == (d.whole + "." + d.frac.value)[|d.whole|] == '.';
      assert n == |s|;
      assert s == s[..n];
    }
  }

  /** The first four fractional digits, padded on the right with '0'. */
  function Pad4(f: string): string
    requires |f| >= 1
  {
    (f + "000")[..4]
  }

  /** Silver: the first two fractional digits ("d" becomes "d0"); "0" without a point. */
  function Silver(d: Decimal): string
    requires d.frac != Some("")
  {
    match d.frac
    case None => "0"
    case Some(f) => Pad4(f)[..2]
  }

  /** Copper: the third and fourth fractional digits ("d" becomes "d0"); "0"
      without a point or with at most two fractional digits. */
  function Copper(d: Decimal): string
    requires d.frac != Some("")
  {
    match d.frac
    case None => "0"
    case Some(f) => if |f| <= 2 then "0" else Pad4(f)[2..4]
  }

  /** The case split of f64_to_gsc on the length of the fractional piece. */
  function FormatGsc(d: Decimal): (r: string)
    requires d.frac != Some("")
    ensures |r| >= |d.whole| + 7 && r[..|d.whole| + 2] == d.whole + "g "
    ensures r[|r| - 1] == 'c'
  {
    var gold := d.whole + "g ";
    gold +
      match d.frac
      case None => "0s 0c"
      case Some(f) =>
        if |f| == 1 then f + "0s 0c"
        else if |f| == 2 then f + "s 0c"
        else if |f| == 3 then f[..2] + "s " + f[2..] + "0c"
        else f[..2] + "s " + f[2..4] + "c"
  }

  /** Every case of the split prints gold, silver and copper in that order, each
      followed by its letter. */
  lemma FormatGscByDenomination(d: Decimal)
    requires d.frac != Some("")
    ensures FormatGsc(d) == (d.whole + "g ") + (Silver(d) + "s " + Copper(d) + "c")
  {
    if d.frac.Some? {
      var f := d.frac.value;
      var p := Pad4(f);
      if |f| == 1 {
        assert p == f + "000";
        assert p[..2] == f + "0";
      } else if |f| == 2 {
        assert p == f + "00";
        assert p[..2] == f;
      } else if |f| == 3 {
        assert p == f + "0";
        assert p[..2] == f[..2] && p[2..4] == f[2..] + "0";
      } else {
        assert p == f[..4];
        assert p[..2] == f[..2] && p[2..4] == f[2..4];
      }
    }
  }

  /** f64_to_gsc applied to the text `s` that `f64::to_string` produced. The `_`
      arm slices `[..2]` and `[2..4]`, so an empty fractional piece panics (the
      first '.' ends the text or is directly followed by another '.'): that is None. */
  function F64ToGsc(s: string): (r: Option<string>)
    ensures var d := SplitAtPoint(s);
      (r.None? <==> d.frac == Some("")) &&
      (r.Some? ==> r.value == (d.whole + "g ") + (Silver(d) + "s " + Copper(d) + "c"))
  {
    var d := SplitAtPoint(s);
    if d.frac == Some("") then None else
      FormatGscByDenomination(d);
      Some(FormatGsc(d))
  }

  /** The formatter fails exactly when the first point of the text ends it or is
      followed by another point. */
  lemma PanicsOnlyOnEmptyFraction(s: string)
    ensures F64ToGsc(s).None? <==>
      PointIndex(s) < |s| && (PointIndex(s) + 1 == |s| || s[PointIndex(s) + 1] == '.')
  {
    var i := PointIndex(s);
    if i < |s| {
      var rest := s[i + 1..];
      assert PointIndex(rest) == 0 <==> rest == [] || rest[0] == '.';
    }
  }

  /** The output starts with the text before the first point, verbatim and with
      its sign, followed by "g ". */
  lemma GoldComesFirst(s: string)
    requires F64ToGsc(s).Some?
    ensures var w := s[..PointIndex(s)]; var r := F64ToGsc(s).value;
      |r| > |w| + 2 && r[..|w| + 2] == w + "g "
  {
    var d := SplitAtPoint(s);
    assert d.whole == s[..PointIndex(s)];
    FormatGscByDenomination(d);
  }

  /** A text without a point is a whole number of gold. */
  lemma WholeAmount(s: string)
    requires '.' !in s
    ensures F64ToGsc(s) == Some(s + "g 0s 0c")
  {
    assert PointIndex(s) == |s|;
    assert s + "g " + "0s 0c" == s + "g 0s 0c";
  }

  /** The cases for a text `w.f` with one point, stated on the text. */
  lemma FractionCases(w: string, f: string)
    requires '.' !in w && '.' !in f && f != ""
    ensures SplitAtPoint(w + "." + f) == Decimal(w, Some(f))
    ensures |f| == 1 ==> F64ToGsc(w + "." + f) == Some((w + "g ") + (f + "0s 0c"))
    ensures |f| == 2 ==> F64ToGsc(w + "." + f) == Some((w + "g ") + (f + "s 0c"))
    ensures |f| == 3 ==> F64ToGsc(w + "." + f) == Some((w + "g ") + (f[..2] + "s " + f[2..] + "0c"))
    ensures |f| >= 4 ==> F64ToGsc(w + "." + f) == Some((w + "g ") + (f[..2] + "s " + f[2..4] + "c"))
  {
    SplitJoin(Decimal(w, Some(f)));
    assert JoinPoint(Decimal(w, Some(f))) == w + "." + f;
  }

  /** Only the first four fractional digits reach the output. */
  lemma FirstFourDecide(w: string, f: string, g: string)
    requires |f| >= 4 && |g| >= 4 && f[..4] == g[..4]
    ensures FormatGsc(Decimal(w, Some(f))) == FormatGsc(Decimal(w, Some(g)))
  {
    assert f[..2] == g[..2] && f[2..4] == g[2..4];
  }

  /** A text `w.f` followed by more text splits into `w` and a fractional
      piece that runs to the first point of the tail and starts with `f`. */
  lemma SplitWithTail(w: string, f: string, tail: string)
    requires '.' !in w && '.' !in f
    ensures PointIndex(f + tail) == |f| + PointIndex(tail)
    ensures SplitAtPoint(w + "." + f + tail) == Decimal(w, Some((f + tail)[..PointIndex(f + tail)]))
    ensures (f + tail)[..PointIndex(f + tail)][..|f|] == f
  {
    var ft := f + tail;
    assert w + "." + f + tail == w + "." + ft;
    SplitAfterWhole(w, ft);
    PointIndexAppend(f, tail);
    PrefixKept(f, tail, |f| + PointIndex(tail));
  }

  /** Cutting `f + tail` no earlier than the end of `f` keeps `f` in front. */
  lemma PrefixKept(f: string, tail: string, n: nat)
    requires |f| <= n <= |f| + |tail|
    ensures (f + tail)[..n][..|f|] == f
  {
    assert forall k :: 0 <= k < |f| ==> (f + tail)[..n][k] == f[k];
  }

  /** Fractional digits after the fourth never reach the output: truncation, not rounding. */
  lemma DigitsPastFourthIgnored(w: string, f: string, tail: string)
    requires '.' !in w && '.' !in f && |f| >= 4
    ensures F64ToGsc(w + "." + f + tail).Some?
    ensures F64ToGsc(w + "." + f + tail) == F64ToGsc(w + "." + f[..4])
  {
    SplitWithTail(w, f, tail);
    var g := (f + tail)[..PointIndex(f + tail)];
    var d4 := Decimal(w, Some(f[..4]));
    assert '.' !in f[..4];
    SplitJoin(d4);
    FirstFourDecide(w, g, f[..4]);
  }

  /** A leading "-" on the whole part only prefixes the formatted text. */
  lemma FormatSignPrefix(d: Decimal)
    requires d.frac != Some("")
    ensures FormatGsc(Decimal("-" + d.whole, d.frac)) == "-" + FormatGsc(d)
  {
    var e := Decimal("-" + d.whole, d.frac);
    FormatGscByDenomination(d);
    FormatGscByDenomination(e);
    assert Silver(e) == Silver(d) && Copper(e) == Copper(d);
  }

  /** The sign is carried only by the gold amount: formatting "-" + s gives the
      formatting of s with "-" in front, so the same silver and copper. */
  lemma NegativeSignOnlyOnGold(s: string)
    ensures SplitAtPoint("-" + s).frac == SplitAtPoint(s).frac
    ensures F64ToGsc("-" + s) == if F64ToGsc(s).Some? then Some("-" + F64ToGsc(s).value) else None
  {
    var t := "-" + s;
    assert t[1..] == s;
    var i := PointIndex(s);
    assert PointIndex(t) == i + 1;
    var d := SplitAtPoint(s);
    if i < |s| {
      assert t[..i + 1] == "-" + s[..i];
      assert t[i + 2..] == s[i + 1..];
    }
    assert SplitAtPoint(t) == Decimal("-" + d.whole, d.frac);
    if d.frac != Some("") {
      FormatSignPrefix(d);
    }
  }

  /** Read as numbers, silver * 100 + copper is the fraction in ten-thousandths of
      a gold, truncated: the 100:1 exchange rate between the three tiers. */
  lemma SilverCopperIsTruncatedFraction(d: Decimal)
    requires d.frac.Some? && d.frac.value != "" && AllDigits(d.frac.value)
    ensures AllDigits(Silver(d)) && AllDigits(Copper(d))
    ensures NatOf(Silver(d)) * 100 + NatOf(Copper(d))
         == NatOf(d.frac.value) * 10000 / Pow10(|d.frac.value|)
  {
    var f := d.frac.value;
    var p := Pad4(f);
    if |f| >= 4 {
      LongFractionValue(f);
    } else {
      ShortFractionValue(f);
    }
    assert p == p[..2] + p[2..4];
    NatOfAppend(p[..2], p[2..4]);
    if |f| <= 2 {
      assert p[2..4] == seq(2, _ => '0');
      NatOfZeros(2);
    }
  }

  /** With four or more digits the padded digits are the first four, and the
      later digits are cut off. */
  lemma LongFractionValue(f: string)
    requires |f| >= 4 && AllDigits(f)
    ensures AllDigits(Pad4(f))
    ensures NatOf(Pad4(f)) == NatOf(f) * 10000 / Pow10(|f|)
  {
    assert Pad4(f) == f[..4];
    NatOfSplit(f, 4);
    var head, rest, m := NatOf(f[..4]), NatOf(f[4..]), Pow10(|f| - 4);
    assert NatOf(f) * 10000 / Pow10(|f|) == head by {
      Pow10MinusFour(|f|);
      ScaleDown(NatOf(f), Pow10(|f|), head, rest, m);
    }
  }

  /** With fewer than four digits the padding zeros scale the value exactly. */
  lemma ShortFractionValue(f: string)
    requires 1 <= |f| < 4 && AllDigits(f)
    ensures AllDigits(Pad4(f))
    ensures NatOf(Pad4(f)) == NatOf(f) * 10000 / Pow10(|f|)
  {
    var z := seq(4 - |f|, _ => '0');
    assert Pad4(f) == f + z;
    NatOfZeros(4 - |f|);
    NatOfAppend(f, z);
    Pow10Add(|f|, 4 - |f|);
    Pow10Four();
    ScaleUp(NatOf(f), Pow10(4 - |f|), Pow10(|f|));
  }

  /** A text `w.f` whose two pieces hold no point formats as those pieces do. */
  lemma FormatsAs(s: string, w: string, f: string, out: string)
    requires '.' !in w && '.' !in f && f != ""
    requires w + "." + f == s && FormatGsc(Decimal(w, Some(f))) == out
    ensures F64ToGsc(s) == Some(out)
  {
    SplitJoin(Decimal(w, Some(f)));
  }
}
