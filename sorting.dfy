/** The sorted views of `ordena_produtos`: `sorted(lista, key=int(quantidade))`,
    ascending, or with `reverse=True`, descending.  Python's sort is stable in
    both directions, so records with equal quantities keep their store order.
    The view is a new list; the store is never reordered. */
module Sorting {
  import opened Results
  import opened Text
  import opened Records

  /** The sort key `int(p['quantidade'])`.  Only read once every quantity of
      the list is known to parse; 0 stands in for a text that does not. */
  function Qty(p: Product): int
  {
    match ParseInt(p.quantidade)
    case Some(n) => n
    case None => 0
  }

  /** Key `a` may come before key `b`: `a <= b` ascending, `a >= b` descending. */
  predicate InOrder(a: int, b: int, descending: bool)
  {
    if descending then a >= b else a <= b
  }

  /** Every pair of records is in key order. */
  predicate Sorted(s: seq<Product>, descending: bool)
  {
    forall i, j :: 0 <= i < j < |s| ==> InOrder(Qty(s[i]), Qty(s[j]), descending)
  }

  /** The records whose key is `k`, in their order in `s`. */
  function WithQty(s: seq<Product>, k: int): (r: seq<Product>)
    ensures |r| <= |s|
  {
    if s == [] then []
    else (if Qty(s[0]) == k then [s[0]] else []) + WithQty(s[1..], k)
  }

  /** Puts `x` in front of the first record it may precede.  `x` stands before
      every record of `s` in the input, so it goes before those of equal key. */
  function Insert(x: Product, s: seq<Product>, descending: bool): (r: seq<Product>)
    ensures |r| == |s| + 1
    ensures multiset(r) == multiset{x} + multiset(s)
  {
    if s == [] then [x]
    else if InOrder(Qty(x), Qty(s[0]), descending) then [x] + s
    else
      assert s == [s[0]] + s[1..];
      [s[0]] + Insert(x, s[1..], descending)
  }

  /** A stable insertion sort by quantity. */
  function SortBy(s: seq<Product>, descending: bool): (r: seq<Product>)
    ensures |r| == |s|
    ensures multiset(r) == multiset(s)
  {
    if s == [] then []
    else
      assert s == [s[0]] + s[1..];
      Insert(s[0], SortBy(s[1..], descending), descending)
  }

  /** Inserting into a sorted list keeps it sorted. */
  lemma {:induction false} InsertSorted(x: Product, s: seq<Product>, descending: bool)
    requires Sorted(s, descending)
    ensures Sorted(Insert(x, s, descending), descending)
  {
    if s != [] && !InOrder(Qty(x), Qty(s[0]), descending) {
      InsertSorted(x, s[1..], descending);
      var r := Insert(x, s, descending);
      var t := Insert(x, s[1..], descending);
      assert r == [s[0]] + t;
      assert multiset(t) == multiset{x} + multiset(s[1..]);
      forall j | 0 < j < |r|
        ensures InOrder(Qty(r[0]), Qty(r[j]), descending)
      {
        assert r[j] in multiset(t);
        if r[j] != x {
          var k :| 1 <= k < |s| && s[k] == r[j];
        }
      }
    }
  }

  /** Insertion contributes `x` to the records of its own key, in front, and
      nothing to the others. */
  lemma {:induction false} InsertWithQty(x: Product, s: seq<Product>, descending: bool, k: int)
    ensures WithQty(Insert(x, s, descending), k) == (if Qty(x) == k then [x] else []) + WithQty(s, k)
  {
    if s != [] && !InOrder(Qty(x), Qty(s[0]), descending) {
      InsertWithQty(x, s[1..], descending, k);
      var r := Insert(x, s, descending);
      assert r[1..] == Insert(x, s[1..], descending);
    }
  }

  /** The sort is sorted, a permutation of its input, and stable: the records
      of every key appear in the order they had. */
  lemma {:induction false} SortByCorrect(s: seq<Product>, descending: bool)
    ensures Sorted(SortBy(s, descending), descending)
    ensures multiset(SortBy(s, descending)) == multiset(s)
    ensures forall k :: WithQty(SortBy(s, descending), k) == WithQty(s, k)
  {
    if s != [] {
      SortByCorrect(s[1..], descending);
      InsertSorted(s[0], SortBy(s[1..], descending), descending);
      forall k
        ensures WithQty(SortBy(s, descending), k) == WithQty(s, k)
      {
        InsertWithQty(s[0], SortBy(s[1..], descending), descending, k);
      }
    }
  }

  /** `sorted(lista_produtos, key=lambda x: int(x['quantidade']), reverse=…)`:
      the ValueError of a quantity that is not an integer, or the sorted view. */
  function SortByQuantity(ps: seq<Product>, descending: bool): (r: Result<seq<Product>>)
    ensures r.Ok? <==> QuantitiesParse(ps)
    ensures r.Ok? ==> r.value == SortBy(ps, descending)
    ensures r.Err? ==> r.error == NotANumber
  {
    if QuantitiesParse(ps) then Ok(SortBy(ps, descending)) else Err(NotANumber)
  }

  /** The sorting part of `ordena_produtos`: choice 1 sorts ascending, choice 2
      descending, and any other choice produces no list. */
  function Ordena(ps: seq<Product>, escolha: int): (r: Result<Option<seq<Product>>>)
    ensures escolha != 1 && escolha != 2 ==> r == Ok(None)
    ensures (escolha == 1 || escolha == 2) ==> (r.Ok? <==> QuantitiesParse(ps))
    ensures (escolha == 1 || escolha == 2) && QuantitiesParse(ps) ==> r == Ok(Some(SortBy(ps, escolha == 2)))
    ensures r.Err? ==> r.error == NotANumber
  {
    if escolha == 1 || escolha == 2 then
      match SortByQuantity(ps, escolha == 2)
      case Err(e) => Err(e)
      case Ok(s) => Ok(Some(s))
    else Ok(None)
  }

  /** Choices 1 and 2 produce a view when every quantity is an integer.
      What a sorted view holds: the store's records, each as often as in the
      store, ordered by their integer quantity in the chosen direction, with
      equal quantities in store order. */
  lemma OrdenaCorrect(ps: seq<Product>, escolha: int)
    requires (escolha == 1 || escolha == 2) && QuantitiesParse(ps)
    ensures Ordena(ps, escolha).Ok? && Ordena(ps, escolha).value.Some?
    ensures var s := Ordena(ps, escolha).value.value;
      && multiset(s) == multiset(ps)
      && (forall i, j :: 0 <= i < j < |s| ==>
            var a, b := ParseInt(s[i].quantidade), ParseInt(s[j].quantidade);
            a.Some? && b.Some? && (if escolha == 1 then a.value <= b.value else a.value >= b.value))
      && forall k :: WithQty(s, k) == WithQty(ps, k)
  {
    var desc := escolha == 2;
    var s := SortBy(ps, desc);
    SortByCorrect(ps, desc);
    forall i | 0 <= i < |s|
      ensures ParseInt(s[i].quantidade).Some?
    {
      assert s[i] in multiset(ps);
    }
  }
}
