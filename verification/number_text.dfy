/** Which texts are JSON numbers, by the grammar of section 6 of RFC 8259. */
module NumberTexts {
  import opened JsonText
  import opened GetBlocks

  /** int: a digit, or several that do not begin with zero. */
  predicate Whole(t: string) {
    t != "" && InDigits(t) && (t[0] == '0' ==> |t| == 1)
  }

  /** frac, or nothing. */
  predicate Fraction(t: string) {
    t == "" || (t[0] == '.' && |t| > 1 && InDigits(t[1..]))
  }

  /** exp, or nothing. */
  predicate Exponent(t: string) {
    t == "" || ((t[0] == 'e' || t[0] == 'E') && (PowerText(t[1..]) || (|t| > 1 && t[1] in "+-" && PowerText(t[2..]))))
  }

  predicate PowerText(t: string) { t != "" && InDigits(t) }

  ghost predicate IsNumber(t: string) {
    exists minus: bool, whole, frac, exp :: Composes(t, minus, whole, frac, exp)
  }

  predicate Composes(t: string, minus: bool, whole: string, frac: string, exp: string) {
    t == (if minus then "-" else "") + (whole + (frac + exp)) && Whole(whole) && Fraction(frac) && Exponent(exp)
  }

  lemma {:induction false} LeadingOfConcat(w: string, rest: string)
    requires InDigits(w) && (rest == "" || !IsDigit(rest[0]))
    ensures LeadingDigits(w + rest) == |w|
  {
    if w == "" {
      assert w + rest == rest;
    } else {
      LeadingOfConcat(w[1..], rest);
      assert (w + rest)[0] == w[0] && (w + rest)[1..] == w[1..] + rest;
    }
  }

  lemma {:induction false} LeadingStops(t: string)
    ensures var n := LeadingDigits(t); InDigits(t[..n]) && (n < |t| ==> !IsDigit(t[n]))
    ensures LeadingDigits(t) == |t| <==> InDigits(t)
  {
    if t != "" && IsDigit(t[0]) {
      LeadingStops(t[1..]);
      var n := LeadingDigits(t);
      forall i | 0 <= i < n ensures '0' <= t[..n][i] <= '9' {
        if i > 0 { assert t[..n][i] == t[1..][..n - 1][i - 1]; }
      }
      if InDigits(t) { assert InDigits(t[1..]); }
    }
  }

  lemma ExponentIsExponent(t: string)
    ensures ExponentText(t) <==> Exponent(t)
  {
    hide LeadingDigits;
    if t != "" {
      LeadingStops(t[1..]);
      if |t| > 1 {
        LeadingStops(t[2..]);
        assert t[1..][0] == t[1];
      }
    }
  }

  /** What is left behind the whole part. */
  predicate Behind(v: string) {
    if v != "" && v[0] == '.' then
      var m := LeadingDigits(v[1..]);
      m >= 1 && ExponentText(v[1 + m..])
    else ExponentText(v)
  }

  lemma UnsignedNumber(u: string)
    requires u != "" && u[0] != '-'
    ensures var n := LeadingDigits(u);
      NumberText(u) <==> n >= 1 && (u[0] == '0' ==> n == 1) && Behind(u[n..])
  {
    hide LeadingDigits, ExponentText;
  }

  lemma BehindSplits(v: string) returns (frac: string, exp: string)
    requires Behind(v)
    ensures v == frac + exp && Fraction(frac) && Exponent(exp)
  {
    hide LeadingDigits, ExponentText, Exponent;
    if v != "" && v[0] == '.' {
      var m := LeadingDigits(v[1..]);
      LeadingStops(v[1..]);
      ExponentIsExponent(v[1 + m..]);
      frac, exp := v[..1 + m], v[1 + m..];
      assert frac[1..] == v[1..][..m];
    } else {
      ExponentIsExponent(v);
      frac, exp := "", v;
      assert "" + v == v;
    }
  }

  lemma PartsAreBehind(frac: string, exp: string)
    requires Fraction(frac) && Exponent(exp)
    ensures Behind(frac + exp) && (frac + exp == "" || !IsDigit((frac + exp)[0]))
  {
    hide LeadingDigits, ExponentText;
    var v := frac + exp;
    ExponentIsExponent(exp);
    if frac == "" {
      assert v == exp;
    } else {
      LeadingOfConcat(frac[1..], exp);
      assert v[1..] == frac[1..] + exp && v[|frac|..] == exp;
    }
  }

  lemma UnsignedIsComposed(u: string) returns (whole: string, frac: string, exp: string)
    requires NumberText(u) && u != "" && u[0] != '-'
    ensures Composes(u, false, whole, frac, exp)
  {
    hide LeadingDigits, ExponentText, Exponent, Fraction, Behind, NumberText;
    var n := LeadingDigits(u);
    UnsignedNumber(u);
    LeadingStops(u);
    whole := u[..n];
    frac, exp := BehindSplits(u[n..]);
    assert u == "" + (whole + (frac + exp));
  }

  lemma ComposedIsUnsigned(u: string, whole: string, frac: string, exp: string)
    requires u == whole + (frac + exp) && Whole(whole) && Fraction(frac) && Exponent(exp)
    ensures NumberText(u) && u != "" && u[0] != '-'
  {
    hide LeadingDigits, ExponentText, Behind, NumberText, Exponent, Fraction;
    PartsAreBehind(frac, exp);
    LeadingOfConcat(whole, frac + exp);
    assert u[|whole|..] == frac + exp && u[0] == whole[0];
    UnsignedNumber(u);
  }

  lemma NumberIsComposed(t: string)
    requires NumberText(t)
    ensures IsNumber(t)
  {
    hide NumberText, Whole, Fraction, Exponent;
    SignAside(t);
    var minus := t[0] == '-';
    var u := if minus then t[1..] else t;
    var whole, frac, exp := UnsignedIsComposed(u);
    NoSign(whole + (frac + exp));
    NoSign(t);
    assert Composes(t, minus, whole, frac, exp);
  }

  lemma ComposedIsNumber(t: string)
    requires IsNumber(t)
    ensures NumberText(t)
  {
    hide NumberText, Whole, Fraction, Exponent;
    var minus, whole, frac, exp :| Composes(t, minus, whole, frac, exp);
    var u := whole + (frac + exp);
    ComposedIsUnsigned(u, whole, frac, exp);
    WithSign(t, u, minus);
  }

  lemma NoSign(t: string)
    ensures "" + t == t
  {
  }

  /** The numbers that are read and printed are those of the grammar. */
  lemma NumbersAreTheGrammars(t: string)
    ensures NumberText(t) <==> IsNumber(t)
  {
    hide NumberText, IsNumber;
    if NumberText(t) { NumberIsComposed(t); }
    if IsNumber(t) { ComposedIsNumber(t); }
  }

  lemma SignAside(t: string)
    requires NumberText(t)
    ensures t != "" && var u := if t[0] == '-' then t[1..] else t; NumberText(u) && u != "" && u[0] != '-'
    ensures t != "" && t[0] == '-' ==> t == "-" + t[1..]
  {
    NumberIsNumChars(t);
    SignedNumber(t);
  }

  lemma SignedNumber(t: string)
    requires NumberText(t) && t != ""
    ensures var u := if t[0] == '-' then t[1..] else t; NumberText(u) && u != "" && u[0] != '-'
  {
    hide ExponentText;
    var u := if t[0] == '-' then t[1..] else t;
    assert LeadingDigits(u) >= 1;
  }

  lemma WithSign(t: string, u: string, minus: bool)
    requires NumberText(u) && u != "" && u[0] != '-' && t == (if minus then "-" else "") + u
    ensures NumberText(t)
  {
    hide ExponentText, LeadingDigits;
    if minus { assert t[1..] == u; } else { assert t == u; }
  }
}
