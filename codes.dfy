/** Generating the code of a new product.  The source takes `max` over the
    code TEXTS, so the order is the string order, and only then reads the
    winner as a number; `NextCode` models that.  `NextCodeNumeric` is the
    numeric maximum the generator evidently means. */
module Codes {
  import opened Results
  import opened Text
  import opened Records

  /** `max(p['codigo'] for p in ps)`: a code that no other code exceeds in
      Python's string order (the first such code). */
  function MaxCode(ps: seq<Product>): (m: string)
    requires |ps| > 0
    ensures exists i :: 0 <= i < |ps| && ps[i].codigo == m
    ensures forall i :: 0 <= i < |ps| ==> !LexLess(m, ps[i].codigo)
  {
    if |ps| == 1 then
      LexLessIrreflexive(ps[0].codigo);
      ps[0].codigo
    else
      var m := MaxCode(ps[..|ps| - 1]);
      var last := ps[|ps| - 1].codigo;
      if LexLess(m, last) then
        MaxCodeStep(ps[..|ps| - 1], m, last);
        LexLessIrreflexive(last);
        last
      else m
  }

  /** A code greater than a maximum of some codes is a maximum of them too. */
  lemma MaxCodeStep(ps: seq<Product>, m: string, last: string)
    requires forall i :: 0 <= i < |ps| ==> !LexLess(m, ps[i].codigo)
    requires LexLess(m, last)
    ensures forall i :: 0 <= i < |ps| ==> !LexLess(last, ps[i].codigo)
  {
    forall i | 0 <= i < |ps|
      ensures !LexLess(last, ps[i].codigo)
    {
      if LexLess(last, ps[i].codigo) {
        LexLessTransitive(m, last, ps[i].codigo);
      }
    }
  }

  /** `gerar_codigo_unico`: one more than the number written by the greatest
      code text.  An empty store has no maximum (the ValueError of `max`),
      and a greatest code that is not a number fails in `int()`. */
  function NextCode(ps: seq<Product>): (r: Result<int>)
    ensures r == Err(EmptyStore) <==> ps == []
    ensures r.Ok? ==> ps != [] && ParseInt(MaxCode(ps)) == Some(r.value - 1)
    ensures r == Err(NotANumber) ==> ps != [] && ParseInt(MaxCode(ps)).None?
    ensures r.Ok? <==> ps != [] && ParseInt(MaxCode(ps)).Some?
    ensures r.Err? ==> r.error == EmptyStore || r.error == NotANumber
  {
    if ps == [] then Err(EmptyStore) else CodeAfter(MaxCode(ps))
  }

  /** `int(t) + 1`, failing with the ValueError of `int()` when `t` is not
      a number. */
  function CodeAfter(t: string): (r: Result<int>)
    ensures r.Ok? <==> ParseInt(t).Some?
    ensures r.Ok? ==> r.value == ParseInt(t).value + 1
    ensures r.Err? ==> r.error == NotANumber
  {
    match ParseInt(t)
    case None => Err(NotANumber)
    case Some(n) => Ok(n + 1)
  }

  /** The generated code is one more than the number a code text denotes
      that no code text exceeds in string order; it fails with NotANumber
      only when such a greatest code text is not a number. */
  lemma NextCodeFromGreatestText(ps: seq<Product>)
    ensures NextCode(ps).Ok? ==>
              exists i :: 0 <= i < |ps| && ParseInt(ps[i].codigo) == Some(NextCode(ps).value - 1)
                          && forall j :: 0 <= j < |ps| ==> !LexLess(ps[i].codigo, ps[j].codigo)
    ensures NextCode(ps) == Err(NotANumber) ==>
              exists i :: 0 <= i < |ps| && ParseInt(ps[i].codigo).None?
                          && forall j :: 0 <= j < |ps| ==> !LexLess(ps[i].codigo, ps[j].codigo)
  {
    if ps != [] {
      var k :| 0 <= k < |ps| && ps[k].codigo == MaxCode(ps);
    }
  }

  /** All codes are decimal digit strings of one common length (the seed's
      codes 201 to 212 are). */
  predicate UniformCodes(ps: seq<Product>)
  {
    forall i :: 0 <= i < |ps| ==> IsDigits(ps[i].codigo) && |ps[i].codigo| == |ps[0].codigo|
  }

  /** When the greatest code text is a digit string, the generated code is
      one more than its value. */
  lemma NextCodeOfDigits(ps: seq<Product>)
    requires ps != [] && IsDigits(MaxCode(ps))
    ensures NextCode(ps) == Ok(DigitsValue(MaxCode(ps)) + 1)
  {
    CodeAfterDigits(MaxCode(ps));
  }

  /** A digit string is followed by the number one above its value. */
  lemma CodeAfterDigits(t: string)
    requires IsDigits(t)
    ensures CodeAfter(t) == Ok(DigitsValue(t) + 1)
  {
    DigitsParse(t);
  }

  /** With uniform codes the greatest code text also has the greatest value. */
  lemma MaxCodeHasMaxValue(ps: seq<Product>)
    requires |ps| > 0 && UniformCodes(ps)
    ensures IsDigits(MaxCode(ps))
    ensures forall i :: 0 <= i < |ps| ==> DigitsValue(ps[i].codigo) <= DigitsValue(MaxCode(ps))
  {
    var m := MaxCode(ps);
    var k :| 0 <= k < |ps| && ps[k].codigo == m;
    forall i | 0 <= i < |ps|
      ensures DigitsValue(ps[i].codigo) <= DigitsValue(m)
    {
      DigitsDominated(ps[i].codigo, m);
    }
  }

  /** With uniform codes the string maximum is the numeric maximum, so the
      generated code exceeds every existing code. */
  lemma NextCodeAboveAll(ps: seq<Product>)
    requires |ps| > 0 && UniformCodes(ps)
    ensures NextCode(ps).Ok?
    ensures forall i :: 0 <= i < |ps| ==> DigitsValue(ps[i].codigo) < NextCode(ps).value
    ensures exists j :: 0 <= j < |ps| && DigitsValue(ps[j].codigo) == NextCode(ps).value - 1
  {
    MaxCodeHasMaxValue(ps);
    NextCodeOfDigits(ps);
    var j :| 0 <= j < |ps| && ps[j].codigo == MaxCode(ps);
  }

  /** A digit string of the same length that is not greater in string order
      is not greater in value. */
  lemma DigitsDominated(c: string, m: string)
    requires |c| == |m| && AllDigits(c) && AllDigits(m)
    requires !LexLess(m, c)
    ensures DigitsValue(c) <= DigitsValue(m)
  {
    if c != m {
      LexLessTotal(c, m);
      DigitsOrder(c, m);
    }
  }

  /** With uniform codes the text of the generated code (`str(novo_codigo)`)
      differs from every existing code. */
  lemma NextCodeFresh(ps: seq<Product>)
    requires |ps| > 0 && UniformCodes(ps)
    ensures NextCode(ps).Ok?
    ensures forall i :: 0 <= i < |ps| ==> IntToString(NextCode(ps).value) != ps[i].codigo
  {
    NextCodeAboveAll(ps);
    var n := NextCode(ps).value;
    ParseIntRoundTrip(n);
    forall i | 0 <= i < |ps|
      ensures IntToString(n) != ps[i].codigo
    {
      DigitsParse(ps[i].codigo);
    }
  }

  /** Three digits denote a hundreds, a tens and a units digit. */
  lemma ThreeDigits(c: string)
    requires |c| == 3 && AllDigits(c)
    ensures DigitsValue(c) == 100 * DigitValue(c[0]) + 10 * DigitValue(c[1]) + DigitValue(c[2])
  {
    assert c[..2][..1] == c[..1];
    assert c[..1][..0] == [];
    assert DigitsValue(c[..1]) == DigitValue(c[0]);
    assert DigitsValue(c[..2]) == 10 * DigitValue(c[0]) + DigitValue(c[1]);
  }

  /** Each seed code is three digits "2xy" no greater than "212". */
  lemma SeedCodeShapes()
    ensures forall i :: 0 <= i < |SeedProducts| ==>
      var c := SeedProducts[i].codigo;
      |c| == 3 && c[0] == '2' && (c[1] == '0' || (c[1] == '1' && c[2] <= '2')) && IsDigit(c[2])
  {
  }

  /** With uniform codes the next code is one more than the value of the
      code with the greatest value. */
  lemma NextCodeOfGreatest(ps: seq<Product>, k: nat)
    requires |ps| > 0 && UniformCodes(ps) && k < |ps|
    requires forall i :: 0 <= i < |ps| ==> DigitsValue(ps[i].codigo) <= DigitsValue(ps[k].codigo)
    ensures NextCode(ps) == Ok(DigitsValue(ps[k].codigo) + 1)
  {
    NextCodeAboveAll(ps);
    var j :| 0 <= j < |ps| && ps[j].codigo == MaxCode(ps);
  }

  /** The seed's codes are three-digit strings worth at most 212. */
  lemma SeedCodeValues()
    ensures UniformCodes(SeedProducts)
    ensures forall i :: 0 <= i < |SeedProducts| ==> DigitsValue(SeedProducts[i].codigo) <= 212
  {
    var s := SeedProducts;
    SeedCodeShapes();
    forall i | 0 <= i < |s|
      ensures IsDigits(s[i].codigo) && |s[i].codigo| == 3 && DigitsValue(s[i].codigo) <= 212
    {
      ThreeDigits(s[i].codigo);
    }
  }

  /** The seed's codes run from 201 to 212: the first generated code is 213. */
  lemma SeedNextCode()
    ensures NextCode(SeedProducts) == Ok(213)
  {
    SeedCodeValues();
    ThreeDigits(SeedProducts[11].codigo);
    NextCodeOfGreatest(SeedProducts, 11);
  }

  // ---------------------------------------------------------------------------
  // The numeric maximum

  /** Every code reads as an integer. */
  predicate NumericCodes(ps: seq<Product>)
  {
    forall i :: 0 <= i < |ps| ==> ParseInt(ps[i].codigo).Some?
  }

  /** The greatest number among the codes. */
  function MaxValue(ps: seq<Product>): (m: int)
    requires |ps| > 0 && NumericCodes(ps)
    ensures exists i :: 0 <= i < |ps| && ParseInt(ps[i].codigo) == Some(m)
    ensures forall i :: 0 <= i < |ps| ==> ParseInt(ps[i].codigo).value <= m
  {
    if |ps| == 1 then ParseInt(ps[0].codigo).value
    else
      var m := MaxValue(ps[..|ps| - 1]);
      var v := ParseInt(ps[|ps| - 1].codigo).value;
      if m < v then v else m
  }

  /** `max(int(p['codigo']) for p in ps) + 1`: the generator with the numeric
      maximum.  It fails on an empty store and on a code that is not a number. */
  function NextCodeNumeric(ps: seq<Product>): (r: Result<int>)
    ensures r == Err(EmptyStore) <==> ps == []
    ensures r == Err(NotANumber) <==> ps != [] && !NumericCodes(ps)
    ensures r.Ok? ==> NumericCodes(ps) && forall i :: 0 <= i < |ps| ==> ParseInt(ps[i].codigo).value < r.value
    ensures r.Ok? ==> exists i :: 0 <= i < |ps| && ParseInt(ps[i].codigo) == Some(r.value - 1)
    ensures r.Ok? <==> ps != [] && NumericCodes(ps)
    ensures r.Err? ==> r.error == EmptyStore || r.error == NotANumber
  {
    if ps == [] then Err(EmptyStore)
    else if !NumericCodes(ps) then Err(NotANumber)
    else Ok(MaxValue(ps) + 1)
  }

  /** The numeric generator never hands out the text of an existing code. */
  lemma NumericCodeFresh(ps: seq<Product>)
    requires NextCodeNumeric(ps).Ok?
    ensures forall i :: 0 <= i < |ps| ==> IntToString(NextCodeNumeric(ps).value) != ps[i].codigo
  {
    ParseIntRoundTrip(NextCodeNumeric(ps).value);
  }

  /** Where every code is a digit string of one length, the generator as
      written and the numeric one agree. */
  lemma UniformCodesAgree(ps: seq<Product>)
    requires |ps| > 0 && UniformCodes(ps)
    ensures NextCode(ps) == NextCodeNumeric(ps)
  {
    NextCodeAboveAll(ps);
    UniformParse(ps);
    NumericBelowText(ps);
    TextBelowNumeric(ps);
  }

  /** The numeric maximum is reached by a code, so it lies below the
      generated code. */
  lemma NumericBelowText(ps: seq<Product>)
    requires |ps| > 0 && UniformCodes(ps)
    ensures NextCode(ps).Ok? && NextCodeNumeric(ps).Ok?
    ensures NextCodeNumeric(ps).value <= NextCode(ps).value
  {
    NextCodeAboveAll(ps);
    UniformParse(ps);
    var l :| 0 <= l < |ps| && ParseInt(ps[l].codigo) == Some(NextCodeNumeric(ps).value - 1);
    assert DigitsValue(ps[l].codigo) < NextCode(ps).value;
  }

  /** The value of the greatest code text is a code's value, so it lies
      below the numeric maximum's successor. */
  lemma TextBelowNumeric(ps: seq<Product>)
    requires |ps| > 0 && UniformCodes(ps)
    ensures NextCode(ps).Ok? && NextCodeNumeric(ps).Ok?
    ensures NextCode(ps).value <= NextCodeNumeric(ps).value
  {
    NextCodeAboveAll(ps);
    UniformParse(ps);
    var j :| 0 <= j < |ps| && DigitsValue(ps[j].codigo) == NextCode(ps).value - 1;
    assert ParseInt(ps[j].codigo).value < NextCodeNumeric(ps).value;
  }

  /** Digit-string codes all read as the integers they denote. */
  lemma UniformParse(ps: seq<Product>)
    requires UniformCodes(ps)
    ensures NumericCodes(ps)
    ensures forall i :: 0 <= i < |ps| ==> ParseInt(ps[i].codigo) == Some(DigitsValue(ps[i].codigo) as int)
  {
    forall i | 0 <= i < |ps|
      ensures ParseInt(ps[i].codigo) == Some(DigitsValue(ps[i].codigo) as int)
    {
      DigitsParse(ps[i].codigo);
    }
  }

  /** The string maximum goes wrong once codes differ in length: with codes
      "999" and "1000" the greatest text is "999", so the generator returns
      1000, whose text is the second record's code. */
  lemma LexicographicMaxRepeatsCode()
    ensures var ps := [Product("Monitor", "999", "4", "700.00", "1100.00"),
                       Product("Mouse", "1000", "9", "70.00", "150.00")];
            NextCode(ps) == Ok(1000) && IntToString(1000) == ps[1].codigo
            && NextCodeNumeric(ps) == Ok(1001)
  {
    var ps := [Product("Monitor", "999", "4", "700.00", "1100.00"),
               Product("Mouse", "1000", "9", "70.00", "150.00")];
    assert !LexLess("999", "1000");
    assert MaxCode(ps) == "999";
    CounterexampleNumbers();
    assert MaxValue(ps) == 1000 by { assert ps[..1] == [ps[0]]; }
  }

  lemma CounterexampleNumbers()
    ensures ParseInt("999") == Some(999) && ParseInt("1000") == Some(1000)
    ensures IntToString(1000) == "1000"
  {
    assert "999"[..2] == "99" && "99"[..1] == "9" && "9"[..0] == "";
    assert "1000"[..3] == "100" && "100"[..2] == "10" && "10"[..1] == "1" && "1"[..0] == "";
    assert DigitsValue("999") == 999;
    assert DigitsValue("1000") == 1000;
  }
}
