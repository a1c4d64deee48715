# Inventory ledger (at.py), modelled in Dafny

`at.py` keeps an in-memory list of products, `lista_produtos`, one record per
product with five text fields: `descricao`, `codigo`, `quantidade`,
`custo_item` and `preco_venda`. At start-up the list is loaded from a seed
text, with records separated by '#' and fields by ';'. The menu then lets a
user do the following:

- register a product under a generated code;
- sort the list by quantity;
- search it by description or code;
- remove a product;
- list the products that are sold out or below a quantity threshold;
- update a quantity or a price, with validation;
- sum the stock value, the presumed profit and the totals of a general report.

The model keeps every field as text, as the program does. Each conversion is
written out where the program performs it:

- `int()` is a sign followed by ASCII digits (`Text.ParseInt`).
- `float()` is an exact decimal (`Text.ParseDecimal`).
- `str.split`, `str.join`, `str.lower`, `str.strip`, `str.isdigit` and
  substring `in` are their ASCII versions.
- String `<`, which `max` uses, is lexicographic order (`Text.LexLess`).

A Python exception becomes an error value of `Results.Result`:

- `MissingField` is the IndexError of a line with too few fields.
- `EmptyStore` is the ValueError of `max` over an empty list.
- `NotANumber` is the ValueError of `int()` or `float()`.

The two updates are the exception. They report the ValueError of `int()` or
`float()` as the status `Mutations.Malformed`, next to the statuses
`Updated`, `NotFound` and `Rejected`.

Modules:

- `Results`: `Option`, `Result` and the error kinds.
- `Text`: the string and number conversions above, with their round trips.
- `Records`: the product record, the encoding of a record as a line and of a
  stock as a text, and the initial stock.
- `Codes`: the code generator `gerar_codigo_unico`, both as written and
  corrected (see Findings).
- `Sorting`: `ordena_produtos`, as a stable insertion sort by integer
  quantity.
- `Queries`: search, the out-of-stock view and the threshold filter, all as
  one order-preserving selection.
- `Mutations`: creation, removal and the two validated updates, as
  functions from the old list to the new one. Creation uses the code
  generator as written. The generator only looks at the records present, so
  the code of a removed record can be given out again.
- `Aggregates`: the stock value, the presumed profit and the report totals.
- `Inventory`: the class `Store`, which holds `lista_produtos`. Its methods
  are the program's loops. Each method's contract ties the new list and the
  result to the functions of the modules above, where their properties are
  proved.

## Model

| member | source | states |
|---|---|---|
| `Text.Split` | at.py:18 | `str.split` on one character: one piece more than there are separators, and no piece holds the separator |
| `Text.SplitJoin` | at.py:58 | splitting a `join` of separator-free pieces gives the pieces back |
| `Text.JoinSplit` | at.py:477 | joining the pieces of a split with the same separator gives the text back |
| `Text.NatToString` | at.py:50 | `str(n)` of a natural number is a digit string without leading zero whose value is `n` |
| `Text.ParseIntRoundTrip` | at.py:50 | `int(str(n)) == n` for every integer |
| `Text.DigitsParse` | at.py:229-230 | an all-digit text is an integer for `int()`, worth its place value |
| `Text.IntAsDecimal` | at.py:395 | `float()` reads an integer text as the same number `int()` does |
| `Text.ContainsAt` | at.py:201 | substring `in` holds exactly when the needle occurs at some position |
| `Text.StripStart` | at.py:227 | `strip` removes exactly the leading whitespace |
| `Text.StripEnd` | at.py:227 | `strip` removes exactly the trailing whitespace |
| `Text.LexLessIrreflexive` | at.py:77 | string `<` is irreflexive |
| `Text.LexLessTransitive` | at.py:77 | string `<` is transitive |
| `Text.LexLessTotal` | at.py:77 | any two distinct strings are ordered by `<` one way or the other |
| `Text.DigitsOrder` | at.py:77 | on digit strings of equal length, string order is numeric order |
| `Records.ParseRecord` | at.py:18-22 | a line gives a record exactly when it has at least four ';' (five fields); with fewer, the indexing fails with MissingField; the record's fields are the first five pieces of the split, and extra pieces are ignored |
| `Records.EncodeRoundTrip` | at.py:18-20 | a record whose fields hold no ';' is recovered from its line |
| `Records.ParseRecordRoundTrip` | at.py:18-20 | a line with exactly five fields is the encoding of the record it gives |
| `Records.ParseAll` | at.py:484-485 | loading lines succeeds exactly when every line parses; record i is the record of line i, and a failure is MissingField |
| `Records.LoadRoundTrip` | at.py:476-485 | a non-empty list of records without separators in their fields, encoded as a seed text, loads back as the same list in the same order (an empty list encodes as "", which loads as one empty line and fails with MissingField) |
| `Codes.MaxCode` | at.py:77 | `max` of the codes is one of the codes, and no code is greater in string order |
| `Codes.NextCode` | at.py:77-79 | as written: EmptyStore exactly for an empty list; a code exactly when the list is non-empty and its greatest code text is an integer, the code being that integer plus one; NotANumber when that text is not an integer; no other error |
| `Codes.CodeAfter` | at.py:78 | `int(t) + 1`, defined exactly when `int(t)` is, failing with NotANumber otherwise |
| `Codes.NextCodeFromGreatestText` | at.py:77-78 | the code is one more than the number some code text denotes that no code text exceeds in string order; NotANumber means that greatest text is not an integer |
| `Codes.MaxCodeHasMaxValue` | at.py:77 | when all codes are digit strings of one length, the greatest text is also the code of greatest value |
| `Codes.NextCodeAboveAll` | at.py:61-79 | for such codes the generated code exceeds the value of every code and is one more than the value of one of them |
| `Codes.NextCodeFresh` | at.py:61-79 | for such codes the text of the generated code differs from every code |
| `Codes.NextCodeOfGreatest` | at.py:74-75 | for such codes the generated code is one more than the greatest value, as in the docstring's example |
| `Codes.SeedCodeValues` | at.py:476 | the seed's codes are three-digit strings worth at most 212 |
| `Codes.SeedNextCode` | at.py:476 | the first code generated for the initial stock is 213 |
| `Codes.MaxValue` | at.py:77 | corrected: the numerically greatest code value, held by some code and at least every code's value |
| `Codes.NextCodeNumeric` | at.py:61-79 | corrected generator: EmptyStore exactly for an empty list, NotANumber exactly when some code is not an integer, no other error; a code exactly when the list is non-empty and every code is an integer, whatever their lengths, the code being above every code and one more than some code |
| `Codes.NumericCodeFresh` | at.py:61-79 | the corrected code's text differs from every code of the list |
| `Codes.UniformCodesAgree` | at.py:77-78 | when all codes are digit strings of one length, the generator as written and the corrected one return the same code |
| `Codes.LexicographicMaxRepeatsCode` | at.py:77-78 | with codes "999" and "1000" the generator as written returns 1000, the code of the second record, while the corrected one returns 1001 |
| `Sorting.SortBy` | at.py:159 | the sorted view is a permutation of the list |
| `Sorting.SortByCorrect` | at.py:159-162 | the view is ordered by quantity in the chosen direction, is a permutation, and is stable: the records of each quantity keep their store order |
| `Sorting.SortByQuantity` | at.py:159-162 | sorting fails with NotANumber exactly when some quantity is not an integer, and otherwise yields the stable sort of the list by quantity in the chosen direction |
| `Sorting.Ordena` | at.py:156-163 | choice 1 yields the list sorted ascending and choice 2 descending; those fail exactly when a quantity is not an integer; any other choice produces nothing |
| `Sorting.OrdenaCorrect` | at.py:156-163 | choices 1 and 2 produce a view when every quantity is an integer; a produced view holds the store's records with their multiplicity, ordered by their integer quantities in the chosen direction, with ties in store order |
| `Queries.SelectCount` | at.py:195-205 | a query returns each record it selects exactly as often as the list holds it, and no other record |
| `Queries.SelectMembers` | at.py:195-205 | a record is returned exactly when the list holds it and the query selects it |
| `Queries.SelectAppend` | at.py:195-205 | selection keeps store order: selecting from a concatenation concatenates the selections |
| `Queries.BuscarNoCriteria` | at.py:180-181 | a search with no criterion returns the empty list |
| `Queries.BuscaEntradaFinds` | at.py:227-233 | a stripped all-digit input finds exactly the records with that code; any other input finds exactly the records whose lowercased description contains it lowercased, and nothing when it is blank |
| `Queries.EsgotadosFinds` | at.py:290-293 | the out-of-stock view holds exactly the records whose quantity text is "0", each as often as the store holds it |
| `Queries.FiltrarQuantidade` | at.py:331 | the filter fails with NotANumber exactly when some quantity is not an integer |
| `Queries.FiltrarQuantidadeCorrect` | at.py:296-331 | the filter keeps exactly the records whose quantity is below the threshold, each as often as the list holds it |
| `Queries.FiltrarQuantidadeMonotone` | at.py:331 | a higher threshold keeps every record a lower one keeps, as often |
| `Queries.FiltrarPadraoCorrect` | at.py:296 | called without an argument, the filter keeps the records with fewer than seven units |
| `Mutations.FindCode` | at.py:256-257 | the loop stops at the first record whose code equals the text given, or runs off the end |
| `Mutations.RegistraCorrect` | at.py:50-59 | joining the answers and a code with ';' and registering the line always gives a record; with no ';' in the answers it is the record of the answers under the text of the code |
| `Mutations.CriaProdutoCorrect` | at.py:46-59 | creation with the generator as written fails exactly when code generation does, with its error; with no ';' in the answers it creates the record of the answers under the text of the generated code |
| `Mutations.CriaProdutoFresh` | at.py:46-79 | when all codes are digit strings of one length and no answer holds a ';', creation succeeds and the new code differs from every code of the list |
| `Mutations.CriaProdutoKeepsCodesUnique` | at.py:46-79 | when all codes are digit strings of one length and no answer holds a ';', creating a product keeps the codes of the list unique |
| `Mutations.CriaProdutoNumericoCorrect` | at.py:46-79 | corrected creation fails exactly when the corrected generator does, with its error; otherwise, when no answer holds a ';', it creates the record of the answers under a code no record has |
| `Mutations.CriaProdutoNumericoKeepsCodesUnique` | at.py:46-79 | when every code is an integer and no answer holds a ';', corrected creation keeps the codes of the list unique |
| `Mutations.CriaProdutoAgrees` | at.py:46-79 | when all codes are digit strings of one length, creation as written and corrected creation give the same result |
| `Mutations.SeparatorInAnswerRepeatsCode` | at.py:58 | as written, the description "x;5" in a store whose only code is "5" creates a record whose code is "5" |
| `Mutations.CriaProdutoCamposCorrect` | at.py:44-59 | creation that builds the record field by field fails exactly when the corrected generator does; otherwise the record holds the answers as given under a code no record has, and appending it keeps unique codes unique, whatever the answers hold |
| `Mutations.CriaProdutoCamposAgrees` | at.py:50-59 | when no answer holds a ';', field-wise creation equals corrected creation through the joined line |
| `Mutations.RemoveFirst` | at.py:258 | `list.remove` drops one occurrence: length one less, multiset less that record |
| `Mutations.RemoveFirstAt` | at.py:258 | `list.remove` cuts out the first occurrence and keeps the rest in order |
| `Mutations.RemoverCorrect` | at.py:255-261 | removal cuts out exactly the first record with the code; without a match, the list is unchanged |
| `Mutations.RemoverUnique` | at.py:241-261 | with unique codes, after removal no record has the code and the codes stay unique |
| `Mutations.CodeReusedAfterRemoval` | at.py:77-79 | when all codes are digit strings of one length and no answer holds a ';', creating a record and removing it restores the list, and the next creation gives out the removed record's code again |
| `Mutations.AtualizaQuantidadeCorrect` | at.py:334-346 | the update is NotFound exactly when no record has the code; it writes exactly when the text is a non-negative integer and is Rejected exactly when it is negative; a write changes only the first matching record's quantity, to the raw text; every other outcome leaves the list as it was |
| `Mutations.AtualizaQuantidadePreserves` | at.py:339-343 | quantity updates keep every quantity a non-negative integer and change no code |
| `Mutations.AtualizaPrecoCorrect` | at.py:348-360 | the update writes exactly when the code is present and the new price is a number no smaller than the record's cost, and is Rejected exactly when it is smaller; a write changes only that record's price, to the raw text; every other outcome leaves the list as it was |
| `Mutations.AtualizaPrecoPreserves` | at.py:353-357 | price updates never put a price below its cost and change no code |
| `Aggregates.TotalOk` | at.py:365-366 | a sum exists exactly when every record's amount does |
| `Aggregates.TotalAppend` | at.py:365-366 | the sum over a concatenation is the sum of the sums |
| `Aggregates.TotalWithout` | at.py:365-366 | the sum over a list is the sum without one record plus that record's amount, and fails exactly when one of them does |
| `Aggregates.TotalPermutation` | at.py:365-366 | the sums do not depend on the order of the records: lists holding the same figures have the same total, or fail together |
| `Aggregates.FiguresAllPermutation` | at.py:366 | reordering the records reorders their figures |
| `Aggregates.SumsIgnoreOrder` | at.py:362-376 | `valor_total` and `lucro_presumido` are the same for any reordering of the list |
| `Aggregates.ReportTotals` | at.py:383-400 | the report's totals are the total cost and the total revenue, and fail exactly when one of them does |
| `Aggregates.FiguresAgree` | at.py:366 | when every quantity is an integer, `int()` and `float()` read each quantity as the same number |
| `Aggregates.AmountsAgree` | at.py:373-374 | for one record, revenue equals stock value, and profit is revenue less cost |
| `Aggregates.TotalsAgree` | at.py:362-400 | summed over the list, total revenue equals stock value, and profit is total revenue less total cost |
| `Aggregates.ReportAgreesOn` | at.py:362-400 | on figures whose quantity readings agree, the revenue total is the stock value, and the profit total exists exactly when the report does and is its revenue less its cost |
| `Aggregates.ReportAgrees` | at.py:362-411 | when every quantity is an integer, the report's revenue total is `valor_total`, `lucro_presumido` is its revenue total less its cost total, and an empty store totals 0 |
| `Inventory.Store.constructor` | at.py:479 | the store starts empty |
| `Inventory.Store.CadastrarProduto` | at.py:18-22 | registering a line returns the record it parses to and appends it; a line short of fields leaves the list as it was |
| `Inventory.Store.CarregarEstoque` | at.py:476-485 | loading appends the records of the seed text in order; the load fails exactly when a line is short of fields, and then the list holds the records of the lines before the first such line |
| `Inventory.Store.UsuarioCadastraProduto` | at.py:46-59 | the answers and the code of the generator as written are registered as `Mutations.CriaProduto` describes, and the record is appended; a generator error leaves the list as it was |
| `Inventory.Store.BuscarProdutos` | at.py:193-207 | the loop returns the search selection of the list |
| `Inventory.Store.EntradaUsuarioBusca` | at.py:227-233 | the input is stripped and searched as a code or a description, as `Queries.BuscaEntrada` describes |
| `Inventory.Store.ExibirProdutosEsgotados` | at.py:290-293 | the loop returns the out-of-stock selection |
| `Inventory.Store.RemoverProduto` | at.py:255-261 | the list becomes `Mutations.Remover` of the old list; the result says whether a record had the code |
| `Inventory.Store.AtualizaQuantidade` | at.py:334-346 | status and new list are those of `Mutations.AtualizaQuantidade` |
| `Inventory.Store.AtualizaPreco` | at.py:348-360 | status and new list are those of `Mutations.AtualizaPreco` |
| `Inventory.Store.Somar` | at.py:362-376 | the accumulator loop returns the running total over the whole list, or the error of the first record whose amount fails |
| `Inventory.Store.ValorTotal` | at.py:362-367 | the loop returns the stock value of the list |
| `Inventory.Store.LucroPresumido` | at.py:369-376 | the loop returns the presumed profit of the list |
| `Inventory.Store.RelatorioGeral` | at.py:383-400 | the two accumulators return the report totals of the list |

## Left out

- The menu (`menu_interativo`), its prompts, and everything printed. This
  includes `listar_produtos` and the formatting of `relatorio_geral` (column
  padding, rows, `:.2f` rounding). Prompted answers are parameters; printed
  lists and sums are results.
- Floating point: `float()` and the sums are exact rationals. Binary rounding
  is not modelled.
- `int()` and `float()` accept only ASCII digits, one optional sign and, for
  `float()`, one decimal point. Surrounding whitespace, underscores,
  exponents, `inf` and `nan` are not modelled. Neither are the non-ASCII
  cases of `lower`, `isdigit` and `strip`.
- The choice of `ordena_produtos` is an integer parameter. The ValueError
  of `int(input(...))` on that prompt is not modelled.
- That the seed literal at at.py:476 loads to `Records.SeedProducts` is not
  proved: checking that its literal fields hold no separator is too costly
  for the solver. `Records.LoadRoundTrip` proves loading for any non-empty
  list of records without separators. The lemmas about the initial stock start from
  `SeedProducts`.
- `Inventory.Store.CarregarEstoque`: when a line fails, the program raises
  and stops. The model returns the error and keeps the records appended
  before that line.
- `Mutations.CriaProdutoFresh`: freshness of the code given out as written
  is proved only when all codes are digit strings of one length and no
  answer holds a ';'. Without the first condition the string maximum can
  repeat a code; without the second a ';' in an answer shifts the fields of
  the joined line, so the code field takes a piece of the answer (both in
  Findings). `Mutations.CriaProdutoCampos` is the creation without either
  defect.
- `Mutations.CriaProdutoKeepsCodesUnique`: proved under the same two
  conditions, for the same reasons.
- `Mutations.CriaProdutoNumericoCorrect`: the fresh code is promised only
  when no answer holds a ';', because this creation still joins and splits
  the line.
- `Mutations.CriaProdutoNumericoKeepsCodesUnique`: proved only when no answer
  holds a ';', for the same reason.
- `Text.ParseInt` and `Text.IntToString` accept integers of any length.
  CPython 3.11, and 3.10.7 onwards, raise ValueError in `int()` on a text of
  more than 4300 digits and in `str()` of such a number; that limit is not
  modelled.
- Search follows the program: `elif` inside the loop tests the code of every
  record whose description does not match. A description criterion does not
  shadow the code criterion for the whole call.
- The program sorts with Timsort. The model uses a stable insertion sort.
  The results are the same, because any two stable sorts by one key agree.
  The properties that fix this result are proved: ordered, a permutation,
  stable.

## Findings

| source | as written | input that shows it | evidently intended | confidence | as-written member | corrected member |
|---|---|---|---|---|---|---|
| at.py:77-78 | `max` over the code texts compares them as strings, so "999" is greater than "1000" | a store holding codes "999" and "1000": the generator returns 1000, which is already a code | one more than the greatest code as a number, as the docstring says (at.py:63-75), giving 1001 | not executed | `Codes.LexicographicMaxRepeatsCode` | `Mutations.CriaProdutoNumericoCorrect` |
| at.py:58 with at.py:18-20 | the answers are joined with ';' and split again, so a ';' inside an answer shifts the fields and the code field takes a piece of the answer | a store whose only code is "5" and the description "x;5": the record created has code "5" and quantity "6" | the record holds the answers as given and the generated code ("código único gerado", at.py:44) | not executed | `Mutations.SeparatorInAnswerRepeatsCode` | `Mutations.CriaProdutoCamposCorrect` |
