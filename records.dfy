/** Product records and the ';' / '#' text they are loaded from. */
module Records {
  import opened Results
  import opened Text

  /** One entry of the ledger under the keys descricao, codigo, quantidade,
      custo_item and preco_venda.  Every field keeps the exact text it was
      given; numbers are read out of it by the operation that needs them. */
  datatype Product = Product(
    descricao: string,
    codigo: string,
    quantidade: string,
    custoItem: string,
    precoVenda: string)

  /** Every quantity of the list reads as an integer (`int(p['quantidade'])`
      raises no ValueError). */
  predicate QuantitiesParse(ps: seq<Product>)
  {
    forall i :: 0 <= i < |ps| ==> ParseInt(ps[i].quantidade).Some?
  }

  /** Separates the fields of one record. */
  const FieldSeparator := ';'

  /** Separates the records of the seed text. */
  const RecordSeparator := '#'

  /** The fields in the order of the key list. */
  function Fields(p: Product): seq<string>
  {
    [p.descricao, p.codigo, p.quantidade, p.custoItem, p.precoVenda]
  }

  /** The one-line form of a record: its fields joined with ';'. */
  function Encode(p: Product): string
  {
    Join(Fields(p), FieldSeparator)
  }

  /** The parsing half of `cadastrar_produto`: split on ';' and give the
      pieces, positionally, to the five keys.  Fewer than five pieces is the
      IndexError of the source; pieces after the fifth are dropped. */
  function ParseRecord(line: string): (r: Result<Product>)
    ensures r.Ok? <==> Count(line, FieldSeparator) >= 4
    ensures r.Ok? ==> Fields(r.value) == Split(line, FieldSeparator)[..5]
    ensures r.Err? ==> r.error == MissingField
  {
    var f := Split(line, FieldSeparator);
    if |f| < 5 then Err(MissingField)
    else Ok(Product(f[0], f[1], f[2], f[3], f[4]))
  }

  /** No field holds the character `c`. */
  predicate FieldsWithout(p: Product, c: char)
  {
    c !in p.descricao && c !in p.codigo && c !in p.quantidade && c !in p.custoItem && c !in p.precoVenda
  }

  /** Parsing the ';'-joined fields gives the record back when no field
      holds a ';'. */
  lemma EncodeRoundTrip(p: Product)
    requires FieldsWithout(p, FieldSeparator)
    ensures ParseRecord(Encode(p)) == Ok(p)
  {
    assert forall i :: 0 <= i < 5 ==> FieldSeparator !in Fields(p)[i];
    SplitJoin(Fields(p), FieldSeparator);
  }

  /** A line with exactly four ';' is the encoding of the record it parses to. */
  lemma ParseRecordRoundTrip(line: string)
    requires Count(line, FieldSeparator) == 4
    ensures ParseRecord(line).Ok? && Encode(ParseRecord(line).value) == line
  {
    JoinSplit(line, FieldSeparator);
    assert Fields(ParseRecord(line).value) == Split(line, FieldSeparator);
  }

  /** `cadastrar_produto` applied to every line, stopping at the first line
      that is short of fields. */
  function ParseAll(lines: seq<string>): (r: Result<seq<Product>>)
    ensures r.Ok? <==> forall i :: 0 <= i < |lines| ==> ParseRecord(lines[i]).Ok?
    ensures r.Ok? ==> |r.value| == |lines|
    ensures r.Ok? ==> forall i :: 0 <= i < |lines| ==> ParseRecord(lines[i]) == Ok(r.value[i])
    ensures r.Err? ==> r.error == MissingField
  {
    if lines == [] then Ok([])
    else
      match ParseAll(lines[..|lines| - 1])
      case Err(e) => Err(e)
      case Ok(ps) =>
        match ParseRecord(lines[|lines| - 1])
        case Err(e) => Err(e)
        case Ok(p) => Ok(ps + [p])
  }

  /** A join holds only the delimiter and characters of its pieces. */
  lemma {:induction false} JoinWithout(parts: seq<string>, d: char, c: char)
    requires c != d
    requires forall i :: 0 <= i < |parts| ==> c !in parts[i]
    ensures c !in Join(parts, d)
  {
    if |parts| > 1 {
      JoinWithout(parts[1..], d, c);
    }
  }

  // ---------------------------------------------------------------------------
  // The initial stock

  /** The twelve records of the initial stock, codes 201 to 212. */
  const SeedProducts: seq<Product> := [
    Product("Notebook Dell", "201", "15", "3200.00", "4500.00"),
    Product("Notebook Lenovo", "202", "10", "2800.00", "4200.00"),
    Product("Mouse Logitech", "203", "50", "70.00", "150.00"),
    Product("Mouse Razer", "204", "40", "120.00", "250.00"),
    Product("Monitor Samsung", "205", "10", "800.00", "1200.00"),
    Product("Monitor LG", "206", "8", "750.00", "1150.00"),
    Product("Teclado Mecânico Corsair", "207", "30", "180.00", "300.00"),
    Product("Teclado Mecânico Razer", "208", "25", "200.00", "350.00"),
    Product("Impressora HP", "209", "5", "400.00", "650.00"),
    Product("Impressora Epson", "210", "3", "450.00", "700.00"),
    Product("Monitor Dell", "211", "12", "850.00", "1250.00"),
    Product("Monitor AOC", "212", "7", "700.00", "1100.00")
  ]

  /** The encodings of a list of records, one line each. */
  function EncodeAll(ps: seq<Product>): (lines: seq<string>)
    ensures |lines| == |ps|
  {
    seq(|ps|, i requires 0 <= i < |ps| => Encode(ps[i]))
  }

  /** Records whose fields hold neither separator survive encoding into a
      seed text and loading it back, in order. */
  lemma {:induction false} LoadRoundTrip(ps: seq<Product>)
    requires |ps| >= 1
    requires forall i :: 0 <= i < |ps| ==> FieldsWithout(ps[i], FieldSeparator) && FieldsWithout(ps[i], RecordSeparator)
    ensures ParseAll(Split(Join(EncodeAll(ps), RecordSeparator), RecordSeparator)) == Ok(ps)
  {
    var lines := EncodeAll(ps);
    forall i | 0 <= i < |lines|
      ensures RecordSeparator !in lines[i] && ParseRecord(lines[i]) == Ok(ps[i])
    {
      assert forall k :: 0 <= k < 5 ==> RecordSeparator !in Fields(ps[i])[k];
      JoinWithout(Fields(ps[i]), FieldSeparator, RecordSeparator);
      EncodeRoundTrip(ps[i]);
    }
    SplitJoin(lines, RecordSeparator);
    var r := ParseAll(lines);
    assert r.value == ps;
  }
}
