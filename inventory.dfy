/** The ledger itself: the process-wide `lista_produtos`, held by a `Store`,
    and the operations that walk it record by record.  Each method is the
    loop of the source, with the prompts it reads turned into parameters and
    the lines it prints turned into results; its contract ties the new list
    and the result to the functions of the other modules, where their
    properties are proved. */
module Inventory {
  import opened Results
  import opened Text
  import opened Records
  import opened Codes
  import Queries
  import Mutations
  import Aggregates

  class Store {
    /** `lista_produtos`, in insertion order. */
    var produtos: seq<Product>

    /** `lista_produtos = []`. */
    constructor ()
      ensures produtos == []
    {
      produtos := [];
    }

    /** `cadastrar_produto`: splits the line on ';', gives the first five
        pieces to the five keys and appends the record; a line with fewer
        than five pieces raises before anything is appended. */
    method CadastrarProduto(produto: string) returns (r: Result<Product>)
      modifies this
      ensures r == ParseRecord(produto)
      ensures r.Ok? ==> produtos == old(produtos) + [r.value]
      ensures r.Err? ==> produtos == old(produtos)
    {
      var atributos := Split(produto, FieldSeparator);
      if |atributos| < 5 {
        return Err(MissingField);
      }
      var p := Product(atributos[0], atributos[1], atributos[2], atributos[3], atributos[4]);
      produtos := produtos + [p];
      return Ok(p);
    }

    /** The start-up load: the stock text split on '#', each piece given to
        `cadastrar_produto` in order.  A piece short of fields stops the
        load, with the records before it already appended. */
    method CarregarEstoque(estoque: string) returns (r: Result<seq<Product>>)
      modifies this
      ensures r == ParseAll(Split(estoque, RecordSeparator))
      ensures r.Ok? ==> produtos == old(produtos) + r.value
      ensures r.Err? ==>
                var linhas := Split(estoque, RecordSeparator);
                exists k :: 0 <= k < |linhas| && ParseAll(linhas[..k]).Ok? && ParseRecord(linhas[k]).Err?
                            && produtos == old(produtos) + ParseAll(linhas[..k]).value
      ensures old(produtos) <= produtos
    {
      var linhas := Split(estoque, RecordSeparator);
      var i := 0;
      while i < |linhas|
        invariant 0 <= i <= |linhas|
        invariant ParseAll(linhas[..i]).Ok?
        invariant produtos == old(produtos) + ParseAll(linhas[..i]).value
      {
        var p := CadastrarProduto(linhas[i]);
        if p.Err? {
          return Err(p.error);
        }
        assert linhas[..i + 1][..i] == linhas[..i];
        i := i + 1;
      }
      assert linhas[..i] == linhas;
      return ParseAll(linhas);
    }

    /** `usuario_cadastra_produto` with the four answers as parameters: the
        answers and the generated code joined with ';' and registered. */
    method UsuarioCadastraProduto(descricao: string, quantidade: string, custo: string, preco: string)
      returns (r: Result<Product>)
      modifies this
      ensures r == Mutations.CriaProduto(old(produtos), descricao, quantidade, custo, preco)
      ensures r.Ok? ==> produtos == old(produtos) + [r.value]
      ensures r.Err? ==> produtos == old(produtos)
    {
      var novoCodigo := NextCode(produtos);
      if novoCodigo.Err? {
        return Err(novoCodigo.error);
      }
      var valores := [descricao, IntToString(novoCodigo.value), quantidade, custo, preco];
      r := CadastrarProduto(Join(valores, FieldSeparator));
    }

    /** `buscar_produtos`: walks the list and appends each record that the
        criteria pick. */
    method BuscarProdutos(descricao: string, codigo: string) returns (resultados: seq<Product>)
      ensures resultados == Queries.Buscar(produtos, descricao, codigo)
    {
      resultados := [];
      var i := 0;
      while i < |produtos|
        invariant 0 <= i <= |produtos|
        invariant resultados == Queries.Select(produtos[..i], Queries.Search(descricao, codigo))
      {
        var produto := produtos[i];
        var d := Lower(descricao);
        var c := Lower(codigo);
        assert produtos[..i + 1][..i] == produtos[..i];
        if d != [] && Contains(Lower(produto.descricao), d) {
          resultados := resultados + [produto];
        } else if c != [] && c == produto.codigo {
          resultados := resultados + [produto];
        }
        i := i + 1;
      }
      assert produtos[..i] == produtos;
    }

    /** `entrada_usuario_busca` with the answer as a parameter: a stripped
        all-digit answer searches codes, any other searches descriptions. */
    method EntradaUsuarioBusca(entrada: string) returns (resultados: seq<Product>)
      ensures resultados == Queries.BuscaEntrada(produtos, entrada)
    {
      var e := Strip(entrada);
      if IsDigits(e) {
        resultados := BuscarProdutos("", e);
      } else {
        resultados := BuscarProdutos(e, "");
      }
    }

    /** `exibir_produtos_esgotados`: the records whose quantity text is "0". */
    method ExibirProdutosEsgotados() returns (esgotados: seq<Product>)
      ensures esgotados == Queries.Esgotados(produtos)
    {
      esgotados := [];
      var i := 0;
      while i < |produtos|
        invariant 0 <= i <= |produtos|
        invariant esgotados == Queries.Select(produtos[..i], Queries.SoldOut)
      {
        assert produtos[..i + 1][..i] == produtos[..i];
        if produtos[i].quantidade == "0" {
          esgotados := esgotados + [produtos[i]];
        }
        i := i + 1;
      }
      assert produtos[..i] == produtos;
    }

    /** `remover_produto` with the code as a parameter: the first record
        with exactly that code is removed with `lista.remove`. */
    method RemoverProduto(codigo: string) returns (removido: bool)
      modifies this
      ensures produtos == Mutations.Remover(old(produtos), codigo)
      ensures removido <==> exists j :: 0 <= j < |old(produtos)| && old(produtos)[j].codigo == codigo
    {
      var i := 0;
      while i < |produtos|
        invariant 0 <= i <= |produtos|
        invariant produtos == old(produtos)
        invariant forall j :: 0 <= j < i ==> produtos[j].codigo != codigo
      {
        if codigo == produtos[i].codigo {
          assert Mutations.FindCode(produtos, codigo) == i;
          produtos := Mutations.RemoveFirst(produtos, produtos[i]);
          return true;
        }
        i := i + 1;
      }
      return false;
    }

    /** `atualiza_quantidade` with the code and the new quantity as
        parameters. */
    method AtualizaQuantidade(codigo: string, nova: string) returns (status: Mutations.Status)
      modifies this
      ensures Mutations.Outcome(status, produtos) == Mutations.AtualizaQuantidade(old(produtos), codigo, nova)
    {
      var i := 0;
      while i < |produtos|
        invariant 0 <= i <= |produtos|
        invariant produtos == old(produtos)
        invariant forall j :: 0 <= j < i ==> produtos[j].codigo != codigo
      {
        if codigo == produtos[i].codigo {
          assert Mutations.FindCode(produtos, codigo) == i;
          var n := ParseInt(nova);
          if n.None? {
            return Mutations.Malformed;
          }
          if n.value < 0 {
            return Mutations.Rejected;
          }
          produtos := produtos[i := produtos[i].(quantidade := nova)];
          return Mutations.Updated;
        }
        i := i + 1;
      }
      return Mutations.NotFound;
    }

    /** `atualiza_preco` with the code and the new price as parameters. */
    method AtualizaPreco(codigo: string, novo: string) returns (status: Mutations.Status)
      modifies this
      ensures Mutations.Outcome(status, produtos) == Mutations.AtualizaPreco(old(produtos), codigo, novo)
    {
      var i := 0;
      while i < |produtos|
        invariant 0 <= i <= |produtos|
        invariant produtos == old(produtos)
        invariant forall j :: 0 <= j < i ==> produtos[j].codigo != codigo
      {
        if codigo == produtos[i].codigo {
          assert Mutations.FindCode(produtos, codigo) == i;
          var v := ParseDecimal(novo);
          if v.None? {
            return Mutations.Malformed;
          }
          var k := ParseDecimal(produtos[i].custoItem);
          if k.None? {
            return Mutations.Malformed;
          }
          if v.value < k.value {
            return Mutations.Rejected;
          }
          produtos := produtos[i := produtos[i].(precoVenda := novo)];
          return Mutations.Updated;
        }
        i := i + 1;
      }
      return Mutations.NotFound;
    }

    /** The accumulator loop of `valor_total` and `lucro_presumido`: starts
        at 0 and adds each record's amount; the first amount that fails
        stops it. */
    method Somar(t: Aggregates.Term) returns (r: Result<real>)
      ensures r == Aggregates.Total(Aggregates.FiguresAll(produtos), t)
    {
      ghost var fs := Aggregates.FiguresAll(produtos);
      var total := 0.0;
      var i := 0;
      while i < |produtos|
        invariant 0 <= i <= |produtos|
        invariant Aggregates.Total(fs[..i], t).Ok? && Aggregates.Total(fs[..i], t).value == total
      {
        var a := Aggregates.Amount(t, Aggregates.FiguresOf(produtos[i]));
        assert fs[i] == Aggregates.FiguresOf(produtos[i]);
        if a.Err? {
          Aggregates.TotalOk(fs, t);
          assert Aggregates.Total(fs, t).Err?;
          return Err(NotANumber);
        }
        Aggregates.TotalStep(fs, i, t);
        total := total + a.value;
        i := i + 1;
      }
      assert fs[..i] == fs;
      return Ok(total);
    }

    /** `valor_total`: the sum of quantity times price. */
    method ValorTotal() returns (r: Result<real>)
      ensures r == Aggregates.ValorTotal(produtos)
    {
      r := Somar(Aggregates.StockValue);
    }

    /** `lucro_presumido`: the sum of price less cost, times quantity. */
    method LucroPresumido() returns (r: Result<real>)
      ensures r == Aggregates.LucroPresumido(produtos)
    {
      r := Somar(Aggregates.Profit);
    }

    /** The two accumulators of `relatorio_geral`. */
    method RelatorioGeral() returns (r: Result<Aggregates.Totals>)
      ensures r == Aggregates.RelatorioGeral(produtos)
    {
      ghost var fs := Aggregates.FiguresAll(produtos);
      var custoTotal, faturamentoTotal := 0.0, 0.0;
      var i := 0;
      while i < |produtos|
        invariant 0 <= i <= |produtos|
        invariant Aggregates.Report(fs[..i]).Ok?
        invariant Aggregates.Report(fs[..i]).value == Aggregates.Totals(custoTotal, faturamentoTotal)
      {
        var f := Aggregates.FiguresOf(produtos[i]);
        var custo := Aggregates.Amount(Aggregates.Cost, f);
        var faturamento := Aggregates.Amount(Aggregates.Revenue, f);
        assert fs[i] == f;
        if custo.Err? || faturamento.Err? {
          Aggregates.ReportTotals(fs);
          Aggregates.TotalOk(fs, Aggregates.Cost);
          Aggregates.TotalOk(fs, Aggregates.Revenue);
          assert Aggregates.Report(fs).Err?;
          return Err(NotANumber);
        }
        Aggregates.ReportStep(fs, i);
        custoTotal := custoTotal + custo.value;
        faturamentoTotal := faturamentoTotal + faturamento.value;
        i := i + 1;
      }
      assert fs[..i] == fs;
      return Ok(Aggregates.Totals(custoTotal, faturamentoTotal));
    }
  }
}
