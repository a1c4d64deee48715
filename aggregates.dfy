/** The sums over the store: `valor_total`, `lucro_presumido` and the totals
    row of `relatorio_geral`.  `float()` is read as an exact decimal, so the
    sums are exact; a quantity or amount that does not parse is the
    ValueError that stops the loop. */
module Aggregates {
  import opened Results
  import opened Text
  import opened Records

  /** The numbers a record's fields read as: its quantity by `int()` and by
      `float()`, its cost and its price by `float()`; None where the
      conversion raises ValueError. */
  datatype Figures = Figures(
    quantidadeInt: Option<int>,
    quantidadeReal: Option<real>,
    custo: Option<real>,
    preco: Option<real>)

  /** The figures of one record. */
  function FiguresOf(p: Product): (f: Figures)
  {
    Figures(ParseInt(p.quantidade), ParseDecimal(p.quantidade), ParseDecimal(p.custoItem), ParseDecimal(p.precoVenda))
  }

  /** The figures of every record, in store order. */
  function FiguresAll(ps: seq<Product>): (fs: seq<Figures>)
    ensures |fs| == |ps|
  {
    seq(|ps|, i requires 0 <= i < |ps| => FiguresOf(ps[i]))
  }

  /** Which per-record amount a sum adds up. */
  datatype Term =
      /** `int(quantidade) * float(preco_venda)`, summed by `valor_total`. */
      StockValue
      /** `(float(preco_venda) - float(custo_item)) * int(quantidade)`, summed by `lucro_presumido`. */
    | Profit
      /** `float(quantidade) * float(custo_item)`, the report's cost column. */
    | Cost
      /** `float(quantidade) * float(preco_venda)`, the report's revenue column. */
    | Revenue

  /** One record's amount, or the ValueError of a conversion that fails. */
  function Amount(t: Term, f: Figures): (r: Result<real>)
    ensures r.Err? ==> r.error == NotANumber
  {
    match t
    case StockValue => Times(AsReal(f.quantidadeInt), f.preco)
    case Profit => Times(Minus(f.preco, f.custo), AsReal(f.quantidadeInt))
    case Cost => Times(f.quantidadeReal, f.custo)
    case Revenue => Times(f.quantidadeReal, f.preco)
  }

  /** An integer reading used where Python mixes it with a float. */
  function AsReal(a: Option<int>): Option<real>
  {
    if a.Some? then Some(a.value as real) else None
  }

  /** The difference of two readings, when both exist. */
  function Minus(a: Option<real>, b: Option<real>): Option<real>
  {
    if a.Some? && b.Some? then Some(a.value - b.value) else None
  }

  /** The product of two readings, or the ValueError of a missing one. */
  function Times(a: Option<real>, b: Option<real>): (r: Result<real>)
    ensures r.Err? ==> r.error == NotANumber
  {
    if a.Some? && b.Some? then Ok(a.value * b.value) else Err(NotANumber)
  }

  /** The running total of a loop that starts at 0 and adds each record's
      amount in store order, failing at the first record whose amount fails. */
  function Total(fs: seq<Figures>, t: Term): (r: Result<real>)
    ensures r.Err? ==> r.error == NotANumber
  {
    if fs == [] then Ok(0.0)
    else
      match Total(fs[..|fs| - 1], t)
      case Err(e) => Err(e)
      case Ok(s) =>
        match Amount(t, fs[|fs| - 1])
        case Err(e) => Err(e)
        case Ok(a) => Ok(s + a)
  }

  /** A total exists exactly when every record's amount does. */
  lemma {:induction false} TotalOk(fs: seq<Figures>, t: Term)
    ensures Total(fs, t).Ok? <==> forall i :: 0 <= i < |fs| ==> Amount(t, fs[i]).Ok?
    decreases |fs|
  {
    if fs != [] {
      var init := fs[..|fs| - 1];
      TotalOk(init, t);
      assert forall i :: 0 <= i < |init| ==> init[i] == fs[i];
    }
  }

  /** One more record adds its amount to a running total. */
  lemma TotalStep(fs: seq<Figures>, i: int, t: Term)
    requires 0 <= i < |fs| && Total(fs[..i], t).Ok? && Amount(t, fs[i]).Ok?
    ensures Total(fs[..i + 1], t).Ok?
    ensures Total(fs[..i + 1], t).value == Total(fs[..i], t).value + Amount(t, fs[i]).value
  {
    assert fs[..i + 1][..i] == fs[..i];
  }

  /** The total of a concatenation is the sum of the totals. */
  lemma {:induction false} TotalAppend(a: seq<Figures>, b: seq<Figures>, t: Term)
    ensures Total(a + b, t).Ok? <==> Total(a, t).Ok? && Total(b, t).Ok?
    ensures Total(a + b, t).Ok? ==> Total(a + b, t).value == Total(a, t).value + Total(b, t).value
    decreases |b|
  {
    if b == [] {
      assert a + b == a;
    } else {
      var b0 := b[..|b| - 1];
      assert (a + b)[..|a + b| - 1] == a + b0;
      assert (a + b)[|a + b| - 1] == b[|b| - 1];
      TotalAppend(a, b0, t);
    }
  }

  /** A list of one record totals that record's amount. */
  lemma TotalSingle(f: Figures, t: Term)
    ensures Total([f], t).Ok? <==> Amount(t, f).Ok?
    ensures Total([f], t).Ok? ==> Total([f], t).value == Amount(t, f).value
  {
    assert [f][..0] == [];
  }

  /** Taking position `j` out of a list takes its amount out of the total. */
  lemma TotalWithout(gs: seq<Figures>, j: int, t: Term)
    requires 0 <= j < |gs|
    ensures var rest := gs[..j] + gs[j + 1..];
            && (Total(gs, t).Ok? <==> Total(rest, t).Ok? && Amount(t, gs[j]).Ok?)
            && (Total(gs, t).Ok? ==> Total(gs, t).value == Total(rest, t).value + Amount(t, gs[j]).value)
  {
    var a, b := gs[..j], gs[j + 1..];
    assert gs == (a + [gs[j]]) + b;
    TotalAppend(a + [gs[j]], b, t);
    TotalAppend(a, [gs[j]], t);
    TotalAppend(a, b, t);
    TotalSingle(gs[j], t);
  }

  /** The last record adds its amount to the total of the others. */
  lemma TotalLast(fs: seq<Figures>, t: Term)
    requires fs != []
    ensures Total(fs, t).Ok? <==> Total(fs[..|fs| - 1], t).Ok? && Amount(t, fs[|fs| - 1]).Ok?
    ensures Total(fs, t).Ok? ==> Total(fs, t).value == Total(fs[..|fs| - 1], t).value + Amount(t, fs[|fs| - 1]).value
  {
  }

  /** Taking position `j` out of a sequence takes one occurrence of its
      element out of the multiset. */
  lemma MultisetWithout<T>(s: seq<T>, j: int)
    requires 0 <= j < |s|
    ensures multiset(s[..j] + s[j + 1..]) == multiset(s) - multiset{s[j]}
  {
    assert s == s[..j] + [s[j]] + s[j + 1..];
  }

  /** A position of the last element of `s` in a permutation `u` of it;
      taking the two out leaves permutations of each other. */
  lemma MatchLast<T>(s: seq<T>, u: seq<T>) returns (j: int)
    requires s != [] && multiset(s) == multiset(u)
    ensures 0 <= j < |u| && u[j] == s[|s| - 1]
    ensures multiset(s[..|s| - 1]) == multiset(u[..j] + u[j + 1..])
  {
    assert s[|s| - 1] in multiset(u);
    j :| 0 <= j < |u| && u[j] == s[|s| - 1];
    MultisetWithout(s, |s| - 1);
    MultisetWithout(u, j);
    assert s[..|s| - 1] + s[|s|..] == s[..|s| - 1];
  }

  /** One step of the permutation argument: the last record of `fs` sits at
      position `j` of `gs`, and the rest total the same. */
  lemma TotalPermutationStep(fs: seq<Figures>, gs: seq<Figures>, j: int, t: Term)
    requires fs != [] && 0 <= j < |gs| && gs[j] == fs[|fs| - 1]
    requires Total(fs[..|fs| - 1], t) == Total(gs[..j] + gs[j + 1..], t)
    ensures Total(fs, t) == Total(gs, t)
  {
    TotalWithout(gs, j, t);
    TotalLast(fs, t);
    if Total(fs, t).Ok? {
      assert Total(gs, t).Ok? && Total(fs, t).value == Total(gs, t).value;
    } else {
      assert Total(fs, t).error == NotANumber && Total(gs, t).error == NotANumber;
    }
  }

  /** Sums over exact numbers do not depend on the order of the records:
      lists holding the same figures have the same total, and fail together. */
  lemma {:induction false} TotalPermutation(fs: seq<Figures>, gs: seq<Figures>, t: Term)
    requires multiset(fs) == multiset(gs)
    ensures Total(fs, t) == Total(gs, t)
    decreases |fs|
  {
    if fs == [] {
      assert |gs| == |multiset(gs)| == 0;
    } else {
      var j := MatchLast(fs, gs);
      TotalPermutation(fs[..|fs| - 1], gs[..j] + gs[j + 1..], t);
      TotalPermutationStep(fs, gs, j, t);
    }
  }

  /** The figures of a concatenation are the concatenated figures. */
  lemma FiguresAllAppend(a: seq<Product>, b: seq<Product>)
    ensures FiguresAll(a + b) == FiguresAll(a) + FiguresAll(b)
  {
  }

  /** Lists holding the same records have figures holding the same figures. */
  lemma {:induction false} FiguresAllPermutation(ps: seq<Product>, qs: seq<Product>)
    requires multiset(ps) == multiset(qs)
    ensures multiset(FiguresAll(ps)) == multiset(FiguresAll(qs))
    decreases |ps|
  {
    if ps == [] {
      assert |qs| == |multiset(qs)| == 0;
    } else {
      var init, x := ps[..|ps| - 1], ps[|ps| - 1];
      assert ps == init + [x];
      var j := MatchLast(ps, qs);
      var a, b := qs[..j], qs[j + 1..];
      assert qs == a + [x] + b;
      FiguresAllPermutation(init, a + b);
      FiguresAllAppend(init, [x]);
      FiguresAllAppend(a + [x], b);
      FiguresAllAppend(a, [x]);
      FiguresAllAppend(a, b);
    }
  }

  /** `valor_total` and `lucro_presumido` do not depend on the order of the
      store. */
  lemma SumsIgnoreOrder(ps: seq<Product>, qs: seq<Product>)
    requires multiset(ps) == multiset(qs)
    ensures ValorTotal(ps) == ValorTotal(qs)
    ensures LucroPresumido(ps) == LucroPresumido(qs)
  {
    FiguresAllPermutation(ps, qs);
    TotalPermutation(FiguresAll(ps), FiguresAll(qs), StockValue);
    TotalPermutation(FiguresAll(ps), FiguresAll(qs), Profit);
  }

  /** `valor_total`. */
  function ValorTotal(ps: seq<Product>): (r: Result<real>)
  {
    Total(FiguresAll(ps), StockValue)
  }

  /** `lucro_presumido`. */
  function LucroPresumido(ps: seq<Product>): (r: Result<real>)
  {
    Total(FiguresAll(ps), Profit)
  }

  /** The totals row of `relatorio_geral`: total cost and total revenue. */
  datatype Totals = Totals(custo: real, faturamento: real)

  /** The two accumulators of `relatorio_geral`, updated together record by
      record; the first record whose quantity, cost or price does not parse
      stops the report. */
  function Report(fs: seq<Figures>): (r: Result<Totals>)
    ensures r.Err? ==> r.error == NotANumber
  {
    if fs == [] then Ok(Totals(0.0, 0.0))
    else
      match Report(fs[..|fs| - 1])
      case Err(e) => Err(e)
      case Ok(s) =>
        var last := fs[|fs| - 1];
        if Amount(Cost, last).Ok? && Amount(Revenue, last).Ok?
        then Ok(Totals(s.custo + Amount(Cost, last).value, s.faturamento + Amount(Revenue, last).value))
        else Err(NotANumber)
  }

  /** One more record adds its cost and its revenue to the running totals. */
  lemma ReportStep(fs: seq<Figures>, i: int)
    requires 0 <= i < |fs| && Report(fs[..i]).Ok?
    requires Amount(Cost, fs[i]).Ok? && Amount(Revenue, fs[i]).Ok?
    ensures Report(fs[..i + 1]).Ok?
    ensures Report(fs[..i + 1]).value.custo == Report(fs[..i]).value.custo + Amount(Cost, fs[i]).value
    ensures Report(fs[..i + 1]).value.faturamento == Report(fs[..i]).value.faturamento + Amount(Revenue, fs[i]).value
  {
    assert fs[..i + 1][..i] == fs[..i];
  }

  /** `relatorio_geral`'s totals. */
  function RelatorioGeral(ps: seq<Product>): (r: Result<Totals>)
  {
    Report(FiguresAll(ps))
  }

  /** The report's row of totals holds the cost total and the revenue total,
      and fails exactly when one of them does. */
  lemma {:induction false} ReportTotals(fs: seq<Figures>)
    ensures Report(fs).Ok? <==> Total(fs, Cost).Ok? && Total(fs, Revenue).Ok?
    ensures Report(fs).Ok? ==> Report(fs) == Ok(Totals(Total(fs, Cost).value, Total(fs, Revenue).value))
    decreases |fs|
  {
    if fs != [] {
      var init := fs[..|fs| - 1];
      ReportTotals(init);
      TotalOk(init, Cost);
      TotalOk(init, Revenue);
      TotalOk(fs, Cost);
      TotalOk(fs, Revenue);
      assert forall i :: 0 <= i < |init| ==> init[i] == fs[i];
    }
  }

  /** The two readings of the quantity agree: `float()` reads an integer
      quantity as the same number. */
  predicate QuantityAgrees(f: Figures)
  {
    f.quantidadeInt.Some? && f.quantidadeReal == Some(f.quantidadeInt.value as real)
  }

  /** A record whose quantity is an integer has figures that agree. */
  lemma FiguresAgree(ps: seq<Product>)
    requires QuantitiesParse(ps)
    ensures forall i :: 0 <= i < |ps| ==> QuantityAgrees(FiguresAll(ps)[i])
  {
    forall i | 0 <= i < |ps|
      ensures QuantityAgrees(FiguresAll(ps)[i])
    {
      IntAsDecimal(ps[i].quantidade);
    }
  }

  /** On figures whose readings agree, the report's revenue is the stock
      value, and the profit is the revenue less the cost. */
  lemma AmountsAgree(f: Figures)
    requires QuantityAgrees(f)
    ensures Amount(Revenue, f) == Amount(StockValue, f)
    ensures Amount(Profit, f).Ok? <==> Amount(Cost, f).Ok? && Amount(Revenue, f).Ok?
    ensures Amount(Profit, f).Ok? ==>
              Amount(Profit, f).value == Amount(Revenue, f).value - Amount(Cost, f).value
  {
    if f.preco.Some? {
      var q, v := f.quantidadeReal.value, f.preco.value;
      assert Amount(Revenue, f).value == q * v;
      assert Amount(StockValue, f).value == q * v;
      if f.custo.Some? {
        assert (v - f.custo.value) * q == q * v - q * f.custo.value;
      }
    }
  }

  /** Where the readings of every quantity agree, the revenue total is the
      stock value and the profit total is revenue total less cost total. */
  lemma {:induction false} TotalsAgree(fs: seq<Figures>)
    requires forall i :: 0 <= i < |fs| ==> QuantityAgrees(fs[i])
    ensures Total(fs, Revenue) == Total(fs, StockValue)
    ensures Total(fs, Profit).Ok? <==> Total(fs, Cost).Ok? && Total(fs, Revenue).Ok?
    ensures Total(fs, Profit).Ok? ==>
              Total(fs, Profit).value == Total(fs, Revenue).value - Total(fs, Cost).value
    decreases |fs|
  {
    if fs != [] {
      var init := fs[..|fs| - 1];
      assert forall i :: 0 <= i < |init| ==> init[i] == fs[i];
      TotalsAgree(init);
      AmountsAgree(fs[|fs| - 1]);
    }
  }

  /** On figures whose readings agree, the report's revenue total is the
      stock value and the profit total is its revenue total less its cost
      total. */
  lemma ReportAgreesOn(fs: seq<Figures>)
    requires forall i :: 0 <= i < |fs| ==> QuantityAgrees(fs[i])
    ensures Report(fs).Ok? ==> Total(fs, StockValue).Ok? && Total(fs, StockValue).value == Report(fs).value.faturamento
    ensures Report(fs).Ok? <==> Total(fs, Profit).Ok?
    ensures Report(fs).Ok? ==> Total(fs, Profit).value == Report(fs).value.faturamento - Report(fs).value.custo
  {
    TotalsAgree(fs);
    ReportTotals(fs);
  }

  /** When every quantity is an integer, the report's revenue total is
      `valor_total` and `lucro_presumido` is its revenue total less its cost
      total; an empty store totals 0 everywhere. */
  lemma ReportAgrees(ps: seq<Product>)
    requires QuantitiesParse(ps)
    ensures RelatorioGeral(ps).Ok? ==> ValorTotal(ps) == Ok(RelatorioGeral(ps).value.faturamento)
    ensures RelatorioGeral(ps).Ok? <==> LucroPresumido(ps).Ok?
    ensures RelatorioGeral(ps).Ok? ==>
              LucroPresumido(ps) == Ok(RelatorioGeral(ps).value.faturamento - RelatorioGeral(ps).value.custo)
    ensures ps == [] ==> ValorTotal(ps) == Ok(0.0) && LucroPresumido(ps) == Ok(0.0)
                         && RelatorioGeral(ps) == Ok(Totals(0.0, 0.0))
  {
    FiguresAgree(ps);
    ReportAgreesOn(FiguresAll(ps));
  }
}
