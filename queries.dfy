/** The read-only views of the store: the search of `buscar_produtos` and its
    dispatch in `entrada_usuario_busca`, the out-of-stock list and the
    low-quantity filter.  Each keeps the records it selects, in store order,
    and builds a new list. */
module Queries {
  import opened Results
  import opened Text
  import opened Records

  /** A selection criterion. */
  datatype Query =
      /** `buscar_produtos(descricao=…, codigo=…)`, an absent argument being "". */
      Search(descricao: string, codigo: string)
      /** `produto['quantidade'] == '0'`. */
    | SoldOut
      /** `int(produto['quantidade']) < qntd`. */
    | Below(limit: int)

  /** The default threshold of `filtrar_quantidade`. */
  const DefaultLimit := 7

  /** Whether the search criteria pick a record: a non-empty lowercased
      description that occurs in the record's lowercased description, or
      else a non-empty lowercased code equal to the record's code. */
  predicate SearchMatches(descricao: string, codigo: string, p: Product)
  {
    var d, c := Lower(descricao), Lower(codigo);
    (d != [] && Contains(Lower(p.descricao), d)) || (c != [] && c == p.codigo)
  }

  /** Whether a query keeps a record. */
  predicate Selects(q: Query, p: Product)
  {
    match q
    case Search(d, c) => SearchMatches(d, c, p)
    case SoldOut => p.quantidade == "0"
    case Below(limit) => ParseInt(p.quantidade).Some? && ParseInt(p.quantidade).value < limit
  }

  /** The records a query keeps, in store order, each as often as it occurs. */
  function Select(ps: seq<Product>, q: Query): (r: seq<Product>)
    ensures |r| <= |ps|
  {
    if ps == [] then []
    else Select(ps[..|ps| - 1], q) + (if Selects(q, ps[|ps| - 1]) then [ps[|ps| - 1]] else [])
  }

  /** A query keeps each record it selects exactly as often as the list holds
      it, and drops every other record. */
  lemma {:induction false} SelectCount(ps: seq<Product>, q: Query)
    ensures forall x :: multiset(Select(ps, q))[x] == if Selects(q, x) then multiset(ps)[x] else 0
    decreases |ps|
  {
    if ps != [] {
      var init, last := ps[..|ps| - 1], ps[|ps| - 1];
      assert ps == init + [last];
      SelectCount(init, q);
    }
  }

  /** The records a query returns are those of the list it selects. */
  lemma SelectMembers(ps: seq<Product>, q: Query)
    ensures forall x :: x in Select(ps, q) <==> x in ps && Selects(q, x)
  {
    SelectCount(ps, q);
    forall x
      ensures x in Select(ps, q) <==> x in ps && Selects(q, x)
    {
      assert x in Select(ps, q) <==> x in multiset(Select(ps, q));
      assert x in ps <==> x in multiset(ps);
    }
  }

  /** A query that keeps none of the records returns the empty list. */
  lemma {:induction false} SelectNone(ps: seq<Product>, q: Query)
    requires forall i :: 0 <= i < |ps| ==> !Selects(q, ps[i])
    ensures Select(ps, q) == []
    decreases |ps|
  {
    if ps != [] {
      SelectNone(ps[..|ps| - 1], q);
    }
  }

  /** Selection distributes over concatenation: the kept records keep their
      relative order. */
  lemma {:induction false} SelectAppend(a: seq<Product>, b: seq<Product>, q: Query)
    ensures Select(a + b, q) == Select(a, q) + Select(b, q)
    decreases |b|
  {
    if b == [] {
      assert a + b == a;
    } else {
      var b0 := b[..|b| - 1];
      assert (a + b)[..|a + b| - 1] == a + b0;
      assert (a + b)[|a + b| - 1] == b[|b| - 1];
      SelectAppend(a, b0, q);
    }
  }

  /** `buscar_produtos(descricao=…, codigo=…)`. */
  function Buscar(ps: seq<Product>, descricao: string, codigo: string): (r: seq<Product>)
  {
    Select(ps, Search(descricao, codigo))
  }

  /** A search with no criteria finds nothing. */
  lemma BuscarNoCriteria(ps: seq<Product>)
    ensures Buscar(ps, "", "") == []
  {
    assert Lower([]) == [];
    SelectNone(ps, Search("", ""));
  }

  /** The dispatch of `entrada_usuario_busca`: the input, stripped of
      surrounding whitespace, is a code when it is all digits and a
      description otherwise. */
  function BuscaEntrada(ps: seq<Product>, entrada: string): (r: seq<Product>)
  {
    var e := Strip(entrada);
    if IsDigits(e) then Buscar(ps, "", e) else Buscar(ps, e, "")
  }

  /** Lowercasing leaves digits alone. */
  lemma LowerDigits(s: string)
    requires AllDigits(s)
    ensures Lower(s) == s
  {
  }

  /** An all-digit input finds exactly the records with that code; any other
      input finds exactly the records whose lowercased description contains
      it lowercased, and nothing when it is blank. */
  lemma BuscaEntradaFinds(ps: seq<Product>, entrada: string)
    ensures var e := Strip(entrada);
      forall x :: x in BuscaEntrada(ps, entrada) <==>
        x in ps && if IsDigits(e) then x.codigo == e
                   else Lower(e) != [] && Contains(Lower(x.descricao), Lower(e))
  {
    var e := Strip(entrada);
    if IsDigits(e) {
      LowerDigits(e);
      SelectMembers(ps, Search("", e));
    } else {
      SelectMembers(ps, Search(e, ""));
    }
    assert Lower([]) == [];
  }

  /** `exibir_produtos_esgotados`: the records whose quantity text is "0". */
  function Esgotados(ps: seq<Product>): (r: seq<Product>)
  {
    Select(ps, SoldOut)
  }

  /** The out-of-stock view holds exactly the records whose quantity text is
      "0", each as often as the store holds it. */
  lemma EsgotadosFinds(ps: seq<Product>)
    ensures forall x :: x in Esgotados(ps) <==> x in ps && x.quantidade == "0"
    ensures forall x: Product :: x.quantidade == "0" ==> multiset(Esgotados(ps))[x] == multiset(ps)[x]
  {
    SelectMembers(ps, SoldOut);
    SelectCount(ps, SoldOut);
  }

  /** `filtrar_quantidade(qntd)`: the ValueError of a quantity that is not an
      integer, or the records whose quantity is below `qntd`. */
  function FiltrarQuantidade(ps: seq<Product>, qntd: int): (r: Result<seq<Product>>)
    ensures r.Ok? <==> QuantitiesParse(ps)
    ensures r.Err? ==> r.error == NotANumber
  {
    if QuantitiesParse(ps) then Ok(Select(ps, Below(qntd))) else Err(NotANumber)
  }

  /** The filter keeps exactly the records below the threshold, each as
      often as the list holds it. */
  lemma FiltrarQuantidadeCorrect(ps: seq<Product>, qntd: int)
    requires QuantitiesParse(ps)
    ensures FiltrarQuantidade(ps, qntd).Ok?
    ensures forall x :: x in FiltrarQuantidade(ps, qntd).value <==>
                        x in ps && ParseInt(x.quantidade).value < qntd
    ensures forall x :: multiset(FiltrarQuantidade(ps, qntd).value)[x] ==
                        if x in ps && ParseInt(x.quantidade).value < qntd then multiset(ps)[x] else 0
  {
    SelectMembers(ps, Below(qntd));
    SelectCount(ps, Below(qntd));
    forall x | x in ps
      ensures ParseInt(x.quantidade).Some?
    {
      var i :| 0 <= i < |ps| && ps[i] == x;
    }
  }

  /** A higher threshold keeps every record a lower one keeps, and more of
      none of them. */
  lemma FiltrarQuantidadeMonotone(ps: seq<Product>, qntd: int, maior: int)
    requires QuantitiesParse(ps) && qntd <= maior
    ensures FiltrarQuantidade(ps, qntd).Ok? && FiltrarQuantidade(ps, maior).Ok?
    ensures multiset(FiltrarQuantidade(ps, qntd).value) <= multiset(FiltrarQuantidade(ps, maior).value)
  {
    SelectCount(ps, Below(qntd));
    SelectCount(ps, Below(maior));
  }

  /** `filtrar_quantidade()` called without an argument: the threshold 7. */
  function FiltrarPadrao(ps: seq<Product>): (r: Result<seq<Product>>)
  {
    FiltrarQuantidade(ps, DefaultLimit)
  }

  /** Without an argument the filter keeps the records holding fewer than
      seven units. */
  lemma FiltrarPadraoCorrect(ps: seq<Product>)
    requires QuantitiesParse(ps)
    ensures FiltrarPadrao(ps).Ok?
    ensures forall x :: x in FiltrarPadrao(ps).value <==> x in ps && ParseInt(x.quantidade).value < 7
  {
    FiltrarQuantidadeCorrect(ps, DefaultLimit);
  }
}
