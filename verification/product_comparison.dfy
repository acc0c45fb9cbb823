/**
 * The market-product comparison panel: a type filter, a descending sort on a
 * copy of the filtered list, the de-duplicated list of type buttons with
 * "all" first, a display cap of nine cards, and the labels and star counts
 * shown on each card. Everything is derived from the product list and the
 * two selections.
 */
module ProductComparison {
  import opened Wrappers
  import opened Text

  datatype MarketProduct = MarketProduct(
    id: string,
    institution: string,
    name: string,
    productType: string,
    minInvestment: real,
    currentReturn: real,
    returnType: string,
    returnValue: real,
    liquidity: string,
    riskLevel: string,
    expirationDate: Option<string>,
    rating: real)

  /** The three choices of the "Ordenar por" select. */
  datatype SortBy = ByReturn | ByLiquidity | ByRating

  // ---------------------------------------------------------------------------
  // Filter
  // ---------------------------------------------------------------------------

  /** `a` is `b` with some elements left out, the rest in their order. */
  predicate SubsequenceOf<T(==)>(a: seq<T>, b: seq<T>)
    decreases |b|
  {
    a == [] || (b != [] && ((a[0] == b[0] && SubsequenceOf(a[1..], b[1..])) || SubsequenceOf(a, b[1..])))
  }

  /** `products.filter((p) => p.type === t)`. */
  function OfType(products: seq<MarketProduct>, t: string): (r: seq<MarketProduct>)
    ensures forall i :: 0 <= i < |r| ==> r[i].productType == t
    ensures forall p :: multiset(r)[p] == if p.productType == t then multiset(products)[p] else 0
  {
    if products == [] then []
    else
      assert products == [products[0]] + products[1..];
      (if products[0].productType == t then [products[0]] else []) + OfType(products[1..], t)
  }

  /** The filter keeps the order of the products it keeps. */
  lemma {:induction false} OfTypeKeepsOrder(products: seq<MarketProduct>, t: string)
    ensures SubsequenceOf(OfType(products, t), products)
  {
    if products != [] {
      OfTypeKeepsOrder(products[1..], t);
      var rest := OfType(products[1..], t);
      if products[0].productType == t {
        assert OfType(products, t) == [products[0]] + rest;
        assert ([products[0]] + rest)[1..] == rest;
      } else {
        assert OfType(products, t) == rest;
        if rest != [] {
          assert SubsequenceOf(rest, products[1..]);
        }
      }
    }
  }

  /** `filteredProducts`: every product for "all", otherwise those of the selected type. */
  function Filtered(products: seq<MarketProduct>, selectedType: string): (r: seq<MarketProduct>)
    ensures selectedType == "all" ==> r == products
    ensures selectedType != "all" ==>
              (forall p :: multiset(r)[p] == if p.productType == selectedType then multiset(products)[p] else 0)
    ensures forall i :: 0 <= i < |r| ==> selectedType == "all" || r[i].productType == selectedType
  {
    if selectedType == "all" then products else OfType(products, selectedType)
  }

  // ---------------------------------------------------------------------------
  // Sort
  // ---------------------------------------------------------------------------

  /**
   * The number the comparator subtracts: `returnValue` or `rating`; for
   * liquidity the comparator returns 0 for every pair, as if all keys were equal.
   */
  function Key(p: MarketProduct, order: SortBy): real {
    match order
    case ByReturn => p.returnValue
    case ByRating => p.rating
    case ByLiquidity => 0.0
  }

  predicate Descending(s: seq<MarketProduct>, order: SortBy) {
    forall i, j :: 0 <= i < j < |s| ==> Key(s[i], order) >= Key(s[j], order)
  }

  /** The products whose key is `k`, in their order. */
  function WithKey(s: seq<MarketProduct>, order: SortBy, k: real): seq<MarketProduct> {
    if s == [] then []
    else (if Key(s[0], order) == k then [s[0]] else []) + WithKey(s[1..], order, k)
  }

  /** `x` placed after every element with a larger key, before the first one with a key not larger. */
  function Insert(x: MarketProduct, s: seq<MarketProduct>, order: SortBy): (r: seq<MarketProduct>)
    ensures multiset(r) == multiset(s) + multiset{x}
  {
    if s == [] || Key(s[0], order) <= Key(x, order) then [x] + s
    else
      assert s == [s[0]] + s[1..];
      [s[0]] + Insert(x, s[1..], order)
  }

  /** Every key in `s` is at most `b`. */
  predicate KeysAtMost(s: seq<MarketProduct>, order: SortBy, b: real) {
    forall i :: 0 <= i < |s| ==> Key(s[i], order) <= b
  }

  /** A list is descending when its head bounds its tail and its tail is descending. */
  lemma DescendingCons(a: MarketProduct, t: seq<MarketProduct>, order: SortBy)
    ensures Descending([a] + t, order) <==> KeysAtMost(t, order, Key(a, order)) && Descending(t, order)
  {
    var r := [a] + t;
    if KeysAtMost(t, order, Key(a, order)) && Descending(t, order) {
      forall i, j | 0 <= i < j < |r| ensures Key(r[i], order) >= Key(r[j], order) {
        assert r[j] == t[j - 1];
        if i > 0 {
          assert r[i] == t[i - 1];
        }
      }
    }
    if Descending(r, order) {
      forall i | 0 <= i < |t| ensures Key(t[i], order) <= Key(a, order) {
        assert r[0] == a && r[i + 1] == t[i];
      }
      forall i, j | 0 <= i < j < |t| ensures Key(t[i], order) >= Key(t[j], order) {
        assert r[i + 1] == t[i] && r[j + 1] == t[j];
      }
    }
  }

  /** Inserting keeps a common upper bound of the keys. */
  lemma {:induction false} InsertKeepsBound(x: MarketProduct, s: seq<MarketProduct>, order: SortBy, b: real)
    requires KeysAtMost(s, order, b) && Key(x, order) <= b
    ensures KeysAtMost(Insert(x, s, order), order, b)
  {
    if s == [] || Key(s[0], order) <= Key(x, order) {
      var r := [x] + s;
      forall i | 0 <= i < |r| ensures Key(r[i], order) <= b {
        if i > 0 {
          assert r[i] == s[i - 1];
        }
      }
    } else {
      var rest := Insert(x, s[1..], order);
      InsertKeepsBound(x, s[1..], order, b);
      var r := [s[0]] + rest;
      forall i | 0 <= i < |r| ensures Key(r[i], order) <= b {
        if i > 0 {
          assert r[i] == rest[i - 1];
        }
      }
    }
  }

  /** Inserting into a descending list keeps it descending. */
  lemma {:induction false} InsertKeepsDescending(x: MarketProduct, s: seq<MarketProduct>, order: SortBy)
    requires Descending(s, order)
    ensures Descending(Insert(x, s, order), order)
  {
    if s == [] {
      DescendingCons(x, s, order);
    } else {
      DescendingCons(s[0], s[1..], order);
      assert s == [s[0]] + s[1..];
      if Key(s[0], order) <= Key(x, order) {
        DescendingCons(x, s, order);
      } else {
        var rest := Insert(x, s[1..], order);
        InsertKeepsDescending(x, s[1..], order);
        InsertKeepsBound(x, s[1..], order, Key(s[0], order));
        DescendingCons(s[0], rest, order);
      }
    }
  }

  /**
   * `[...filteredProducts].sort(compare)`: JavaScript's sort is stable, so the
   * result is the descending order in which products with equal keys keep their
   * relative order (an insertion sort builds exactly that).
   */
  function Sorted(s: seq<MarketProduct>, order: SortBy): (r: seq<MarketProduct>)
    ensures multiset(r) == multiset(s)
    ensures |r| == |s|
    ensures Descending(r, order)
  {
    if s == [] then []
    else
      assert s == [s[0]] + s[1..];
      InsertKeepsDescending(s[0], Sorted(s[1..], order), order);
      Insert(s[0], Sorted(s[1..], order), order)
  }

  lemma WithKeyCons(a: MarketProduct, t: seq<MarketProduct>, order: SortBy, k: real)
    ensures WithKey([a] + t, order, k) == (if Key(a, order) == k then [a] else []) + WithKey(t, order, k)
  {
    assert ([a] + t)[0] == a;
    assert ([a] + t)[1..] == t;
  }

  lemma {:induction false} InsertWithKey(x: MarketProduct, s: seq<MarketProduct>, order: SortBy, k: real)
    ensures WithKey(Insert(x, s, order), order, k) == if Key(x, order) == k then [x] + WithKey(s, order, k) else WithKey(s, order, k)
  {
    if s == [] || Key(s[0], order) <= Key(x, order) {
      WithKeyCons(x, s, order, k);
    } else {
      var rest := Insert(x, s[1..], order);
      assert Insert(x, s, order) == [s[0]] + rest;
      InsertWithKey(x, s[1..], order, k);
      WithKeyCons(s[0], rest, order, k);
      WithKeyCons(s[0], s[1..], order, k);
      assert s == [s[0]] + s[1..];
      if Key(x, order) == k {
        assert Key(s[0], order) != k;
      }
    }
  }

  /** Stability: among products with equal keys the sorted list keeps the filtered order. */
  lemma {:induction false} SortedIsStable(s: seq<MarketProduct>, order: SortBy, k: real)
    ensures WithKey(Sorted(s, order), order, k) == WithKey(s, order, k)
  {
    if s != [] {
      SortedIsStable(s[1..], order, k);
      InsertWithKey(s[0], Sorted(s[1..], order), order, k);
    }
  }

  /** Every product has the key 0 under "liquidity". */
  lemma WithKeyAll(s: seq<MarketProduct>)
    ensures WithKey(s, ByLiquidity, 0.0) == s
  {
  }

  /** Sorting by liquidity leaves the filtered order as it is. */
  lemma SortByLiquidityKeepsOrder(s: seq<MarketProduct>)
    ensures Sorted(s, ByLiquidity) == s
  {
    SortedIsStable(s, ByLiquidity, 0.0);
    WithKeyAll(s);
    WithKeyAll(Sorted(s, ByLiquidity));
  }

  // ---------------------------------------------------------------------------
  // Type buttons
  // ---------------------------------------------------------------------------

  function TypesOf(products: seq<MarketProduct>): (r: seq<string>)
    ensures |r| == |products|
    ensures forall i :: 0 <= i < |r| ==> r[i] == products[i].productType
  {
    seq(|products|, i requires 0 <= i < |products| => products[i].productType)
  }

  /** The elements of `s` not in `seen`, each once, at its first occurrence: a `Set` filled from `s`. */
  function Distinct(s: seq<string>, seen: set<string>): (r: seq<string>)
  {
    if s == [] then []
    else if s[0] in seen then Distinct(s[1..], seen)
    else [s[0]] + Distinct(s[1..], seen + {s[0]})
  }

  predicate NoDuplicates(s: seq<string>) {
    forall i, j :: 0 <= i < j < |s| ==> s[i] != s[j]
  }

  /** The position of the first occurrence of `x` in `s`. */
  function FirstIndex(s: seq<string>, x: string): (i: nat)
    requires x in s
    ensures i < |s| && s[i] == x && x !in s[..i]
  {
    if s[0] == x then 0 else FirstIndex(s[1..], x) + 1
  }

  /** A `Set` keeps each value once, and exactly the values not seen before. */
  lemma {:induction false} DistinctMembers(s: seq<string>, seen: set<string>)
    ensures NoDuplicates(Distinct(s, seen))
    ensures forall x :: x in Distinct(s, seen) <==> x in s && x !in seen
  {
    if s != [] {
      var r := Distinct(s, seen);
      if s[0] in seen {
        DistinctMembers(s[1..], seen);
      } else {
        var rest := Distinct(s[1..], seen + {s[0]});
        DistinctMembers(s[1..], seen + {s[0]});
        assert r == [s[0]] + rest;
        assert s[0] !in rest;
      }
      forall x ensures x in r <==> x in s && x !in seen {
        assert x in s <==> x == s[0] || x in s[1..];
      }
    }
  }

  /** A `Set` filled in order keeps its values in the order of their first occurrence. */
  lemma {:induction false} DistinctOrder(s: seq<string>, seen: set<string>)
    ensures forall x :: x in Distinct(s, seen) ==> x in s
    ensures forall i, j :: 0 <= i < j < |Distinct(s, seen)| ==>
              FirstIndex(s, Distinct(s, seen)[i]) < FirstIndex(s, Distinct(s, seen)[j])
  {
    DistinctMembers(s, seen);
    if s != [] {
      var r := Distinct(s, seen);
      if s[0] in seen {
        DistinctOrder(s[1..], seen);
        forall x | x in r ensures FirstIndex(s, x) == FirstIndex(s[1..], x) + 1 {
          assert x != s[0];
        }
      } else {
        var rest := Distinct(s[1..], seen + {s[0]});
        DistinctOrder(s[1..], seen + {s[0]});
        DistinctMembers(s[1..], seen + {s[0]});
        assert r == [s[0]] + rest;
        forall x | x in rest ensures FirstIndex(s, x) == FirstIndex(s[1..], x) + 1 {
          assert x != s[0];
        }
        forall i, j | 0 <= i < j < |r| ensures FirstIndex(s, r[i]) < FirstIndex(s, r[j]) {
          if i > 0 {
            assert r[i] == rest[i - 1] && r[j] == rest[j - 1];
          } else {
            assert r[j] == rest[j - 1];
          }
        }
      }
    }
  }

  /** `types`: "all", then each product type once, in order of first appearance. */
  function Types(products: seq<MarketProduct>): (r: seq<string>)
    ensures |r| >= 1 && r[0] == "all"
  {
    ["all"] + Distinct(TypesOf(products), {})
  }

  /** The type buttons after "all" name every product type exactly once, in order of first appearance. */
  lemma TypesSpec(products: seq<MarketProduct>)
    ensures NoDuplicates(Types(products)[1..])
    ensures forall t :: t in Types(products)[1..] <==> exists i :: 0 <= i < |products| && products[i].productType == t
    ensures forall t :: t in Types(products)[1..] ==> t in TypesOf(products)
    ensures forall i, j :: 0 <= i < j < |Types(products)| - 1 ==>
              FirstIndex(TypesOf(products), Types(products)[1..][i]) < FirstIndex(TypesOf(products), Types(products)[1..][j])
  {
    var ts := TypesOf(products);
    DistinctMembers(ts, {});
    DistinctOrder(ts, {});
    assert Types(products)[1..] == Distinct(ts, {});
    forall t ensures t in ts <==> exists i :: 0 <= i < |products| && products[i].productType == t {
      if t in ts {
        var i :| 0 <= i < |ts| && ts[i] == t;
        assert products[i].productType == t;
      }
    }
  }

  // ---------------------------------------------------------------------------
  // What the panel shows
  // ---------------------------------------------------------------------------

  const MaxCards := 9

  /** The rendered panel: type buttons, the cards shown, and whether "Ver Todos (n)" appears with its n. */
  datatype Panel = Panel(types: seq<string>, cards: seq<MarketProduct>, showAll: bool, total: nat)

  /**
   * The component's output: nothing for an empty product list; otherwise the
   * first nine sorted products, and the "Ver Todos" button exactly when more
   * than nine products pass the filter.
   */
  function Render(products: seq<MarketProduct>, selectedType: string, order: SortBy): (r: Option<Panel>)
    ensures r.None? <==> products == []
    ensures r.Some? ==> |r.value.cards| <= MaxCards
    ensures r.Some? ==> r.value.types == Types(products)
    ensures r.Some? ==> (r.value.showAll <==> r.value.total > MaxCards)
    ensures r.Some? ==> r.value.total == |Filtered(products, selectedType)|
    ensures r.Some? ==> r.value.cards <= Sorted(Filtered(products, selectedType), order)
    ensures r.Some? && r.value.total <= MaxCards ==> r.value.cards == Sorted(Filtered(products, selectedType), order)
    ensures r.Some? && r.value.total > MaxCards ==> r.value.cards == Sorted(Filtered(products, selectedType), order)[..MaxCards]
  {
    if products == [] then None
    else
      var sorted := Sorted(Filtered(products, selectedType), order);
      var shown := if |sorted| <= MaxCards then sorted else sorted[..MaxCards];
      Some(Panel(Types(products), shown, |sorted| > MaxCards, |sorted|))
  }

  // ---------------------------------------------------------------------------
  // Card labels
  // ---------------------------------------------------------------------------

  const TypeLabels: map<string, string> := map[
    "all" := "Todos", "cdb" := "CDB", "tesouro" := "Tesouro Direto",
    "fundo" := "Fundos", "acao" := "Ações", "fii" := "FIIs"]

  const LiquidityLabels: map<string, string> := map[
    "diária" := "Saque Diário", "30-dias" := "30 Dias", "90-dias" := "90 Dias", "longo-prazo" := "Longo Prazo"]

  /** `getTypeLabel`: the label of a known type, any other type as itself. */
  function TypeLabel(t: string): (r: string)
    ensures t in TypeLabels ==> r == TypeLabels[t]
    ensures t !in TypeLabels ==> r == t
  {
    LabelOr(TypeLabels, t)
  }

  /** `getLiquidityLabel`: the label of a known liquidity, any other value as itself. */
  function LiquidityLabel(liquidity: string): (r: string)
    ensures liquidity in LiquidityLabels ==> r == LiquidityLabels[liquidity]
    ensures liquidity !in LiquidityLabels ==> r == liquidity
  {
    LabelOr(LiquidityLabels, liquidity)
  }

  const LowRiskColor := "bg-green-500/20 text-green-400 border-green-500/30"
  const MediumRiskColor := "bg-yellow-500/20 text-yellow-400 border-yellow-500/30"
  const HighRiskColor := "bg-red-500/20 text-red-400 border-red-500/30"

  /** `getRiskColor`: one class per risk level, none for anything else. */
  function RiskColor(risk: string): (r: string)
    ensures r == LowRiskColor <==> risk == "baixo"
    ensures r == MediumRiskColor <==> risk == "médio"
    ensures r == HighRiskColor <==> risk == "alto"
    ensures r == "" <==> risk !in {"baixo", "médio", "alto"}
  {
    if risk == "baixo" then LowRiskColor
    else if risk == "médio" then MediumRiskColor
    else if risk == "alto" then HighRiskColor
    else ""
  }

  /** The risk badge text: any level other than "baixo" and "médio" reads "Alto". */
  function RiskLabel(risk: string): (r: string)
    ensures r == "Baixo" <==> risk == "baixo"
    ensures r == "Médio" <==> risk == "médio"
    ensures r == "Alto" <==> risk != "baixo" && risk != "médio"
  {
    if risk == "baixo" then "Baixo" else if risk == "médio" then "Médio" else "Alto"
  }

  /** The star at position `i` (0 to 4) is filled when `i < Math.floor(rating)`. */
  predicate StarFilled(i: nat, rating: real) {
    i < rating.Floor
  }

  /** How many of the five stars are filled. */
  function FilledStars(rating: real): (n: nat)
    ensures n <= 5
    ensures n == if rating.Floor < 0 then 0 else if rating.Floor > 5 then 5 else rating.Floor
    ensures forall i :: 0 <= i < 5 ==> (StarFilled(i, rating) <==> i < n)
  {
    CountFilled(rating, 5)
  }

  function CountFilled(rating: real, k: nat): (n: nat)
    ensures n <= k
    ensures n == if rating.Floor < 0 then 0 else if rating.Floor > k then k else rating.Floor
  {
    if k == 0 then 0 else CountFilled(rating, k - 1) + (if StarFilled(k - 1, rating) then 1 else 0)
  }
}
