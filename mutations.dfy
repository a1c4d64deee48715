/** The operations that change the store, as functions from the old list to
    the new one: creating a record (`usuario_cadastra_produto`), removing one
    (`remover_produto`) and the validated updates `atualiza_quantidade` and
    `atualiza_preco`.  Lookup compares codes as raw text and stops at the
    first match. */
module Mutations {
  import opened Results
  import opened Text
  import opened Records
  import opened Codes

  /** The position of the first record whose code is exactly `c`, or the
      length of the list when there is none. */
  function FindCode(ps: seq<Product>, c: string): (i: nat)
    ensures i <= |ps|
    ensures i < |ps| ==> ps[i].codigo == c
    ensures forall j :: 0 <= j < i ==> ps[j].codigo != c
  {
    if ps == [] then 0
    else if ps[0].codigo == c then 0
    else 1 + FindCode(ps[1..], c)
  }

  /** No two records share a code. */
  predicate UniqueCodes(ps: seq<Product>)
  {
    forall i, j :: 0 <= i < j < |ps| ==> ps[i].codigo != ps[j].codigo
  }

  // ---------------------------------------------------------------------------
  // Creation

  /** The line `usuario_cadastra_produto` builds from the answers and the
      code `n`, given to `cadastrar_produto`. */
  function Registra(n: int, descricao: string, quantidade: string,
                    custo: string, preco: string): (r: Result<Product>)
  {
    ParseRecord(Join([descricao, IntToString(n), quantidade, custo, preco], FieldSeparator))
  }

  /** The joined line always has five fields, so registering it never fails;
      when no answer holds a ';', the record holds exactly the answers and
      the code. */
  lemma RegistraCorrect(n: int, descricao: string, quantidade: string, custo: string, preco: string)
    ensures Registra(n, descricao, quantidade, custo, preco).Ok?
    ensures FieldSeparator !in descricao + quantidade + custo + preco ==>
              Registra(n, descricao, quantidade, custo, preco) ==
              Ok(Product(descricao, IntToString(n), quantidade, custo, preco))
  {
    var code := IntToString(n);
    JoinCount([descricao, code, quantidade, custo, preco], FieldSeparator);
    if FieldSeparator !in descricao + quantidade + custo + preco {
      ParseIntRoundTrip(n);
      assert FieldSeparator !in code by {
        forall k | 0 <= k < |code| ensures code[k] != FieldSeparator {
          assert IsDigit(code[k]) || code[k] == '-';
        }
      }
      assert forall k :: 0 <= k < |descricao| ==> (descricao + quantidade + custo + preco)[k] == descricao[k];
      assert forall k :: 0 <= k < |quantidade| ==> (descricao + quantidade + custo + preco)[|descricao| + k] == quantidade[k];
      assert forall k :: 0 <= k < |custo| ==> (descricao + quantidade + custo + preco)[|descricao| + |quantidade| + k] == custo[k];
      assert forall k :: 0 <= k < |preco| ==> (descricao + quantidade + custo + preco)[|descricao| + |quantidade| + |custo| + k] == preco[k];
      EncodeRoundTrip(Product(descricao, code, quantidade, custo, preco));
    }
  }

  /** `usuario_cadastra_produto` without its prompts: the answers and the
      code of `gerar_codigo_unico` as written (the string maximum) joined
      with ';' and given to `cadastrar_produto`. */
  function CriaProduto(ps: seq<Product>, descricao: string, quantidade: string,
                       custo: string, preco: string): (r: Result<Product>)
  {
    match NextCode(ps)
    case Err(e) => Err(e)
    case Ok(n) => Registra(n, descricao, quantidade, custo, preco)
  }

  /** Creation fails exactly where code generation does (an empty store, a
      greatest code text that is not a number), with its error.  When no
      answer holds a ';', the record holds exactly the answers and the
      generated code. */
  lemma CriaProdutoCorrect(ps: seq<Product>, descricao: string, quantidade: string,
                           custo: string, preco: string)
    ensures CriaProduto(ps, descricao, quantidade, custo, preco).Ok? <==> NextCode(ps).Ok?
    ensures NextCode(ps).Err? ==>
              CriaProduto(ps, descricao, quantidade, custo, preco) == Err(NextCode(ps).error)
    ensures NextCode(ps).Ok? && FieldSeparator !in descricao + quantidade + custo + preco ==>
              CriaProduto(ps, descricao, quantidade, custo, preco) ==
              Ok(Product(descricao, IntToString(NextCode(ps).value), quantidade, custo, preco))
  {
    if NextCode(ps).Ok? {
      RegistraCorrect(NextCode(ps).value, descricao, quantidade, custo, preco);
    }
  }

  /** When every code is a digit string of one length, the created record's
      code is not the code of any record. */
  lemma CriaProdutoFresh(ps: seq<Product>, descricao: string, quantidade: string,
                         custo: string, preco: string)
    requires |ps| > 0 && UniformCodes(ps)
    requires FieldSeparator !in descricao + quantidade + custo + preco
    ensures CriaProduto(ps, descricao, quantidade, custo, preco).Ok?
    ensures forall i :: 0 <= i < |ps| ==>
              ps[i].codigo != CriaProduto(ps, descricao, quantidade, custo, preco).value.codigo
  {
    NextCodeFresh(ps);
    CriaProdutoCorrect(ps, descricao, quantidade, custo, preco);
  }

  /** With codes that are digit strings of one length, appending a created
      record keeps the codes unique. */
  lemma CriaProdutoKeepsCodesUnique(ps: seq<Product>, descricao: string, quantidade: string,
                                    custo: string, preco: string)
    requires UniqueCodes(ps) && |ps| > 0 && UniformCodes(ps)
    requires FieldSeparator !in descricao + quantidade + custo + preco
    ensures CriaProduto(ps, descricao, quantidade, custo, preco).Ok?
    ensures UniqueCodes(ps + [CriaProduto(ps, descricao, quantidade, custo, preco).value])
  {
    CriaProdutoFresh(ps, descricao, quantidade, custo, preco);
  }

  /** Creation with the corrected, numeric code generator (see `Codes`). */
  function CriaProdutoNumerico(ps: seq<Product>, descricao: string, quantidade: string,
                               custo: string, preco: string): (r: Result<Product>)
  {
    match NextCodeNumeric(ps)
    case Err(e) => Err(e)
    case Ok(n) => Registra(n, descricao, quantidade, custo, preco)
  }

  /** Corrected creation fails exactly where the numeric generator does.
      When no answer holds a ';', the record holds exactly the answers and a
      code that no record has, whatever the codes look like. */
  lemma CriaProdutoNumericoCorrect(ps: seq<Product>, descricao: string, quantidade: string,
                                   custo: string, preco: string)
    ensures CriaProdutoNumerico(ps, descricao, quantidade, custo, preco).Ok? <==> NextCodeNumeric(ps).Ok?
    ensures NextCodeNumeric(ps).Err? ==>
              CriaProdutoNumerico(ps, descricao, quantidade, custo, preco) == Err(NextCodeNumeric(ps).error)
    ensures NextCodeNumeric(ps).Ok? && FieldSeparator !in descricao + quantidade + custo + preco ==>
              var code := IntToString(NextCodeNumeric(ps).value);
              && CriaProdutoNumerico(ps, descricao, quantidade, custo, preco) == Ok(Product(descricao, code, quantidade, custo, preco))
              && forall i :: 0 <= i < |ps| ==> ps[i].codigo != code
  {
    if NextCodeNumeric(ps).Ok? {
      RegistraCorrect(NextCodeNumeric(ps).value, descricao, quantidade, custo, preco);
      NumericCodeFresh(ps);
    }
  }

  /** Appending a record created with the corrected generator keeps the
      codes unique, for any store whose codes are integers. */
  lemma CriaProdutoNumericoKeepsCodesUnique(ps: seq<Product>, descricao: string, quantidade: string,
                                            custo: string, preco: string)
    requires UniqueCodes(ps)
    requires NextCodeNumeric(ps).Ok? && FieldSeparator !in descricao + quantidade + custo + preco
    ensures CriaProdutoNumerico(ps, descricao, quantidade, custo, preco).Ok?
    ensures UniqueCodes(ps + [CriaProdutoNumerico(ps, descricao, quantidade, custo, preco).value])
  {
    CriaProdutoNumericoCorrect(ps, descricao, quantidade, custo, preco);
  }

  /** On codes that are digit strings of one length, creation as written and
      corrected creation make the same record. */
  lemma CriaProdutoAgrees(ps: seq<Product>, descricao: string, quantidade: string,
                          custo: string, preco: string)
    requires |ps| > 0 && UniformCodes(ps)
    ensures CriaProduto(ps, descricao, quantidade, custo, preco) ==
            CriaProdutoNumerico(ps, descricao, quantidade, custo, preco)
  {
    UniformCodesAgree(ps);
  }

  /** A ';' inside an answer shifts the fields of the joined line: with the
      description "x;5" the created record takes "5" as its code, the code
      the store already holds, although the codes are uniform. */
  lemma SeparatorInAnswerRepeatsCode()
    ensures var ps := [Product("Monitor", "5", "4", "700.00", "1100.00")];
            && UniformCodes(ps)
            && CriaProduto(ps, "x;5", "1", "1", "1") == Ok(Product("x", "5", "6", "1", "1"))
            && CriaProduto(ps, "x;5", "1", "1", "1").value.codigo == ps[0].codigo
  {
    var ps := [Product("Monitor", "5", "4", "700.00", "1100.00")];
    assert IsDigits("5");
    assert DigitsValue("5") == 5 by { assert "5"[..0] == []; }
    assert NextCode(ps) == Ok(6);
    assert IntToString(6) == "6";
    var pieces := ["x", "5", "6", "1", "1", "1"];
    assert Join(["x;5", "6", "1", "1", "1"], FieldSeparator) == Join(pieces, FieldSeparator);
    SplitJoin(pieces, FieldSeparator);
  }

  /** Creation as evidently intended: the record is built from the answers
      and the numeric code field by field, so no answer can move the code. */
  function CriaProdutoCampos(ps: seq<Product>, descricao: string, quantidade: string,
                             custo: string, preco: string): (r: Result<Product>)
  {
    match NextCodeNumeric(ps)
    case Err(e) => Err(e)
    case Ok(n) => Ok(Product(descricao, IntToString(n), quantidade, custo, preco))
  }

  /** Field-wise creation fails exactly where the numeric generator does,
      with its error; otherwise the record holds the answers as given and a
      code no record has, and appending it keeps unique codes unique,
      whatever the answers hold. */
  lemma CriaProdutoCamposCorrect(ps: seq<Product>, descricao: string, quantidade: string,
                                 custo: string, preco: string)
    ensures CriaProdutoCampos(ps, descricao, quantidade, custo, preco).Ok? <==> NextCodeNumeric(ps).Ok?
    ensures NextCodeNumeric(ps).Err? ==>
              CriaProdutoCampos(ps, descricao, quantidade, custo, preco) == Err(NextCodeNumeric(ps).error)
    ensures NextCodeNumeric(ps).Ok? ==>
              var x := CriaProdutoCampos(ps, descricao, quantidade, custo, preco).value;
              && x == Product(descricao, IntToString(NextCodeNumeric(ps).value), quantidade, custo, preco)
              && (forall i :: 0 <= i < |ps| ==> ps[i].codigo != x.codigo)
              && (UniqueCodes(ps) ==> UniqueCodes(ps + [x]))
  {
    if NextCodeNumeric(ps).Ok? {
      NumericCodeFresh(ps);
    }
  }

  /** Where no answer holds a ';', field-wise creation is the corrected
      creation through the joined line. */
  lemma CriaProdutoCamposAgrees(ps: seq<Product>, descricao: string, quantidade: string,
                                custo: string, preco: string)
    requires FieldSeparator !in descricao + quantidade + custo + preco
    ensures CriaProdutoCampos(ps, descricao, quantidade, custo, preco) ==
            CriaProdutoNumerico(ps, descricao, quantidade, custo, preco)
  {
    CriaProdutoNumericoCorrect(ps, descricao, quantidade, custo, preco);
  }

  // ---------------------------------------------------------------------------
  // Removal

  /** `lista.remove(x)`: drops the first record equal to `x`. */
  function RemoveFirst(ps: seq<Product>, x: Product): (r: seq<Product>)
    requires x in ps
    ensures |r| == |ps| - 1
    ensures multiset(r) == multiset(ps) - multiset{x}
  {
    if ps[0] == x then
      assert ps == [ps[0]] + ps[1..];
      ps[1..]
    else
      assert ps == [ps[0]] + ps[1..];
      [ps[0]] + RemoveFirst(ps[1..], x)
  }

  /** Removing a record that has no equal before position `i` cuts out
      position `i` and keeps the order of the rest. */
  lemma {:induction false} RemoveFirstAt(ps: seq<Product>, i: nat)
    requires i < |ps| && forall j :: 0 <= j < i ==> ps[j] != ps[i]
    ensures RemoveFirst(ps, ps[i]) == ps[..i] + ps[i + 1..]
  {
    if i > 0 {
      var t := ps[1..];
      assert t[i - 1] == ps[i];
      RemoveFirstAt(t, i - 1);
      assert RemoveFirst(ps, ps[i]) == [ps[0]] + RemoveFirst(t, ps[i]);
      CutAfterHead(ps, i);
    }
  }

  /** Cutting position `i - 1` out of the tail and putting the head back cuts
      position `i` out of the whole. */
  lemma CutAfterHead<T>(s: seq<T>, i: nat)
    requires 0 < i < |s|
    ensures [s[0]] + (s[1..][..i - 1] + s[1..][i..]) == s[..i] + s[i + 1..]
  {
    assert s[1..][..i - 1] == s[1..i];
    assert s[1..][i..] == s[i + 1..];
    assert s[..i] == [s[0]] + s[1..i];
  }

  /** `remover_produto`: the loop finds the first record with the code and
      removes it with `lista.remove`; without a match the list is unchanged. */
  function Remover(ps: seq<Product>, c: string): (r: seq<Product>)
  {
    var i := FindCode(ps, c);
    if i < |ps| then RemoveFirst(ps, ps[i]) else ps
  }

  /** Removal cuts out exactly the first record with the code, keeping the
      others in order; it changes nothing when no code matches. */
  lemma RemoverCorrect(ps: seq<Product>, c: string)
    ensures var i := FindCode(ps, c);
      if i < |ps| then Remover(ps, c) == ps[..i] + ps[i + 1..] && ps[i].codigo == c
      else Remover(ps, c) == ps && forall j :: 0 <= j < |ps| ==> ps[j].codigo != c
  {
    var i := FindCode(ps, c);
    if i < |ps| {
      RemoveFirstAt(ps, i);
    }
  }

  /** With unique codes, removal leaves no record with the code and keeps
      the codes unique. */
  lemma RemoverUnique(ps: seq<Product>, c: string)
    requires UniqueCodes(ps)
    ensures UniqueCodes(Remover(ps, c))
    ensures forall j :: 0 <= j < |Remover(ps, c)| ==> Remover(ps, c)[j].codigo != c
  {
    RemoverCorrect(ps, c);
    var i := FindCode(ps, c);
    if i < |ps| {
      var r := Remover(ps, c);
      assert forall j :: 0 <= j < |r| ==> r[j] == if j < i then ps[j] else ps[j + 1];
    }
  }

  /** The next code depends only on the codes present, so a code is given
      out again once its record is removed: removing the record just created
      restores the list, and the next creation, whatever its answers, gets
      the same code. */
  lemma CodeReusedAfterRemoval(ps: seq<Product>, descricao: string, quantidade: string,
                               custo: string, preco: string,
                               descricao2: string, quantidade2: string, custo2: string, preco2: string)
    requires |ps| > 0 && UniformCodes(ps)
    requires FieldSeparator !in descricao + quantidade + custo + preco
    requires FieldSeparator !in descricao2 + quantidade2 + custo2 + preco2
    ensures CriaProduto(ps, descricao, quantidade, custo, preco).Ok?
    ensures var x := CriaProduto(ps, descricao, quantidade, custo, preco).value;
            && Remover(ps + [x], x.codigo) == ps
            && CriaProduto(Remover(ps + [x], x.codigo), descricao2, quantidade2, custo2, preco2)
               == Ok(Product(descricao2, x.codigo, quantidade2, custo2, preco2))
  {
    CriaProdutoFresh(ps, descricao, quantidade, custo, preco);
    CriaProdutoCorrect(ps, descricao, quantidade, custo, preco);
    CriaProdutoCorrect(ps, descricao2, quantidade2, custo2, preco2);
    var x := CriaProduto(ps, descricao, quantidade, custo, preco).value;
    var qs := ps + [x];
    assert qs[|ps|].codigo == x.codigo;
    assert FindCode(qs, x.codigo) == |ps|;
    RemoverCorrect(qs, x.codigo);
    assert qs[..|ps|] + qs[|ps| + 1..] == ps;
  }

  // ---------------------------------------------------------------------------
  // Validated updates

  /** How an update ended: the field was written, no record has the code,
      the value was refused, or a value is not a number (the ValueError of
      `int()` or `float()`). */
  datatype Status = Updated | NotFound | Rejected | Malformed

  /** The status of an update and the list after it. */
  datatype Outcome = Outcome(status: Status, produtos: seq<Product>)

  /** `atualiza_quantidade`: the first record with the code gets the new
      quantity text, unless that text is not an integer or is negative. */
  function AtualizaQuantidade(ps: seq<Product>, c: string, nova: string): (r: Outcome)
  {
    var i := FindCode(ps, c);
    if i == |ps| then Outcome(NotFound, ps)
    else
      match ParseInt(nova)
      case None => Outcome(Malformed, ps)
      case Some(n) =>
        if n < 0 then Outcome(Rejected, ps)
        else Outcome(Updated, ps[i := ps[i].(quantidade := nova)])
  }

  /** An update writes exactly when the code is present and the text is a
      non-negative integer; then only the quantity of the first record with
      the code changes, to the raw text given, and otherwise nothing changes. */
  lemma AtualizaQuantidadeCorrect(ps: seq<Product>, c: string, nova: string)
    ensures var r, i := AtualizaQuantidade(ps, c, nova), FindCode(ps, c);
      && (r.status == NotFound <==> forall j :: 0 <= j < |ps| ==> ps[j].codigo != c)
      && (r.status == Updated <==> i < |ps| && ParseInt(nova).Some? && ParseInt(nova).value >= 0)
      && (r.status == Rejected <==> i < |ps| && ParseInt(nova).Some? && ParseInt(nova).value < 0)
      && (r.status != Updated ==> r.produtos == ps)
      && (r.status == Updated ==>
            && |r.produtos| == |ps|
            && r.produtos[i] == Product(ps[i].descricao, ps[i].codigo, nova, ps[i].custoItem, ps[i].precoVenda)
            && forall j :: 0 <= j < |ps| && j != i ==> r.produtos[j] == ps[j])
  {
  }

  /** Every quantity is a non-negative integer. */
  predicate QuantitiesNonNegative(ps: seq<Product>)
  {
    forall i :: 0 <= i < |ps| ==> ParseInt(ps[i].quantidade).Some? && ParseInt(ps[i].quantidade).value >= 0
  }

  /** Updating quantities never makes one negative or unreadable, and never
      changes a code. */
  lemma AtualizaQuantidadePreserves(ps: seq<Product>, c: string, nova: string)
    ensures QuantitiesNonNegative(ps) ==> QuantitiesNonNegative(AtualizaQuantidade(ps, c, nova).produtos)
    ensures |AtualizaQuantidade(ps, c, nova).produtos| == |ps|
    ensures forall j :: 0 <= j < |ps| ==> AtualizaQuantidade(ps, c, nova).produtos[j].codigo == ps[j].codigo
  {
    AtualizaQuantidadeCorrect(ps, c, nova);
  }

  /** `atualiza_preco`: the first record with the code gets the new price
      text, unless it or the record's cost is not a number, or the new price
      is below the cost (a price equal to the cost is accepted). */
  function AtualizaPreco(ps: seq<Product>, c: string, novo: string): (r: Outcome)
  {
    var i := FindCode(ps, c);
    if i == |ps| then Outcome(NotFound, ps)
    else
      match ParseDecimal(novo)
      case None => Outcome(Malformed, ps)
      case Some(v) =>
        match ParseDecimal(ps[i].custoItem)
        case None => Outcome(Malformed, ps)
        case Some(k) =>
          if v < k then Outcome(Rejected, ps)
          else Outcome(Updated, ps[i := ps[i].(precoVenda := novo)])
  }

  /** A price update writes exactly when the code is present and the new
      price is a number no smaller than the record's cost; then only that
      record's price changes, to the raw text given. */
  lemma AtualizaPrecoCorrect(ps: seq<Product>, c: string, novo: string)
    ensures var r, i := AtualizaPreco(ps, c, novo), FindCode(ps, c);
      && (r.status == NotFound <==> forall j :: 0 <= j < |ps| ==> ps[j].codigo != c)
      && (r.status == Updated <==>
            i < |ps| && ParseDecimal(novo).Some? && ParseDecimal(ps[i].custoItem).Some?
            && ParseDecimal(novo).value >= ParseDecimal(ps[i].custoItem).value)
      && (r.status == Rejected <==>
            i < |ps| && ParseDecimal(novo).Some? && ParseDecimal(ps[i].custoItem).Some?
            && ParseDecimal(novo).value < ParseDecimal(ps[i].custoItem).value)
      && (r.status != Updated ==> r.produtos == ps)
      && (r.status == Updated ==>
            && |r.produtos| == |ps|
            && r.produtos[i] == Product(ps[i].descricao, ps[i].codigo, ps[i].quantidade, ps[i].custoItem, novo)
            && forall j :: 0 <= j < |ps| && j != i ==> r.produtos[j] == ps[j])
  {
  }

  /** Every price and cost is a number and no price is below its cost. */
  predicate PricesCoverCosts(ps: seq<Product>)
  {
    forall i :: 0 <= i < |ps| ==>
      ParseDecimal(ps[i].precoVenda).Some? && ParseDecimal(ps[i].custoItem).Some?
      && ParseDecimal(ps[i].precoVenda).value >= ParseDecimal(ps[i].custoItem).value
  }

  /** Price updates never put a price below its cost, and never change a
      code. */
  lemma AtualizaPrecoPreserves(ps: seq<Product>, c: string, novo: string)
    ensures PricesCoverCosts(ps) ==> PricesCoverCosts(AtualizaPreco(ps, c, novo).produtos)
    ensures |AtualizaPreco(ps, c, novo).produtos| == |ps|
    ensures forall j :: 0 <= j < |ps| ==> AtualizaPreco(ps, c, novo).produtos[j].codigo == ps[j].codigo
  {
    AtualizaPrecoCorrect(ps, c, novo);
  }
}
