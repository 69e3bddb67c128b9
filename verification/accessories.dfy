/** The optional-accessories step: the selection list, its total, the displayed list
    and the quantity clamp (src/components/AccessoriesPage.tsx,
    src/components/AccessoriesList.tsx). */
module Accessories {
  import opened Optional
  import opened Seqs

  datatype Accessory = Accessory(
    nome: string,
    valorDiaria: real,
    valorTotal: Option<real>,
    quantidade: Option<int>,
    quantidadeMaxima: Option<int>,
    quantidadeMaximaDiariasSerCobrado: Option<int>,
    obrigatorio: Option<bool>,
    selected: Option<bool>)

  function MinInt(a: int, b: int): (r: int)
    ensures r <= a && r <= b && (r == a || r == b)
  {
    if a <= b then a else b
  }

  function MaxInt(a: int, b: int): (r: int)
    ensures r >= a && r >= b && (r == a || r == b)
  {
    if a >= b then a else b
  }

  /** The number of units charged: the quantity, capped by the accessory's charge limit
      when one is set (non-zero). */
  function ChargedUnits(a: Accessory, quantity: int): (n: int)
    ensures OrElseInt(a.quantidadeMaximaDiariasSerCobrado, 0) == 0 ==> n == quantity
    ensures OrElseInt(a.quantidadeMaximaDiariasSerCobrado, 0) != 0 ==>
      n <= quantity && n <= a.quantidadeMaximaDiariasSerCobrado.value
      && (n == quantity || n == a.quantidadeMaximaDiariasSerCobrado.value)
  {
    var maxDiarias := OrElseInt(a.quantidadeMaximaDiariasSerCobrado, 0);
    if maxDiarias != 0 then MinInt(quantity, maxDiarias) else quantity
  }

  /** The amount charged for `quantity` units. */
  function Charge(a: Accessory, quantity: int): real {
    a.valorDiaria * ChargedUnits(a, quantity) as real
  }

  /** The entry stored for an accessory chosen with `quantity` units. */
  function Updated(a: Accessory, quantity: int): (u: Accessory)
    ensures u.nome == a.nome
    ensures u.quantidade == Some(quantity)
    ensures u.selected == Some(quantity > 0)
    ensures u.valorTotal == Some(Charge(a, quantity))
  {
    a.(quantidade := Some(quantity),
       valorTotal := Some(Charge(a, quantity)),
       selected := Some(quantity > 0))
  }

  /** `findIndex` by name: the first index holding `nome`, or -1. */
  function FindIndexByName(s: seq<Accessory>, nome: string): (i: int)
    ensures -1 <= i < |s|
    ensures i >= 0 ==> s[i].nome == nome && forall j :: 0 <= j < i ==> s[j].nome != nome
    ensures i == -1 ==> forall j :: 0 <= j < |s| ==> s[j].nome != nome
  {
    if s == [] then -1
    else if s[0].nome == nome then 0
    else
      var k := FindIndexByName(s[1..], nome);
      if k == -1 then -1 else k + 1
  }

  function NameIsNot(nome: string): Accessory -> bool {
    (a: Accessory) => a.nome != nome
  }

  /** `handleAccessoryChange`: quantity 0 removes every entry of that name; otherwise the
      first entry of that name is replaced, or the entry is appended. */
  function ChangeAccessory(selected: seq<Accessory>, a: Accessory, quantity: int): (r: seq<Accessory>)
    ensures quantity == 0 ==>
      forall x :: x in r <==> x in selected && x.nome != a.nome
    ensures quantity != 0 && FindIndexByName(selected, a.nome) >= 0 ==>
      |r| == |selected|
      && r[FindIndexByName(selected, a.nome)] == Updated(a, quantity)
      && forall j :: 0 <= j < |r| && j != FindIndexByName(selected, a.nome) ==> r[j] == selected[j]
    ensures quantity != 0 && FindIndexByName(selected, a.nome) == -1 ==>
      r == selected + [Updated(a, quantity)]
  {
    if quantity == 0 then Filter(selected, NameIsNot(a.nome))
    else
      var i := FindIndexByName(selected, a.nome);
      if i >= 0 then selected[i := Updated(a, quantity)] else selected + [Updated(a, quantity)]
  }

  /** Removal keeps the remaining entries in their order. */
  lemma RemovalKeepsOrder(selected: seq<Accessory>, a: Accessory)
    ensures IsSubsequence(ChangeAccessory(selected, a, 0), selected)
  {
    FilterIsSubsequence(selected, NameIsNot(a.nome));
  }

  predicate NamesUnique(s: seq<Accessory>) {
    forall i, j :: 0 <= i < j < |s| ==> s[i].nome != s[j].nome
  }

  lemma {:induction false} FilterKeepsNamesUnique(s: seq<Accessory>, p: Accessory -> bool)
    requires NamesUnique(s)
    ensures NamesUnique(Filter(s, p))
  {
    if s != [] {
      FilterKeepsNamesUnique(s[1..], p);
      var rest := Filter(s[1..], p);
      assert forall i :: 0 <= i < |rest| ==> rest[i] in s[1..];
      forall i | 0 <= i < |rest|
        ensures rest[i].nome != s[0].nome
      {
        var k :| 0 <= k < |s[1..]| && s[1..][k] == rest[i];
        assert s[k + 1] == rest[i];
      }
    }
  }

  /** Each name appears at most once in the selection after a change if it did before. */
  lemma ChangeKeepsNamesUnique(selected: seq<Accessory>, a: Accessory, quantity: int)
    requires NamesUnique(selected)
    ensures NamesUnique(ChangeAccessory(selected, a, quantity))
  {
    if quantity == 0 {
      FilterKeepsNamesUnique(selected, NameIsNot(a.nome));
    }
  }

  // ---------------------------------------------------------------------------
  // calculateTotalPrice

  /** `calculateTotalPrice`: the sum of the entries' totals, a missing total counting 0. */
  function TotalPrice(items: seq<Accessory>): (t: real)
    ensures items == [] ==> t == 0.0
    ensures (forall i :: 0 <= i < |items| ==> OrElse(items[i].valorTotal, 0.0) >= 0.0) ==> t >= 0.0
  {
    if items == [] then 0.0
    else TotalPrice(items[..|items| - 1]) + OrElse(items[|items| - 1].valorTotal, 0.0)
  }

  lemma {:induction false} TotalPriceAppend(a: seq<Accessory>, b: seq<Accessory>)
    ensures TotalPrice(a + b) == TotalPrice(a) + TotalPrice(b)
  {
    if b != [] {
      assert (a + b)[..|a + b| - 1] == a + b[..|b| - 1];
      TotalPriceAppend(a, b[..|b| - 1]);
    } else {
      assert a + b == a;
    }
  }

  lemma {:induction false} TotalPriceUpdate(s: seq<Accessory>, i: int, x: Accessory)
    requires 0 <= i < |s|
    ensures TotalPrice(s[i := x]) == TotalPrice(s) - OrElse(s[i].valorTotal, 0.0) + OrElse(x.valorTotal, 0.0)
  {
    assert s == s[..i] + [s[i]] + s[i + 1..];
    assert s[i := x] == s[..i] + [x] + s[i + 1..];
    TotalPriceAppend(s[..i] + [s[i]], s[i + 1..]);
    TotalPriceAppend(s[..i], [s[i]]);
    TotalPriceAppend(s[..i] + [x], s[i + 1..]);
    TotalPriceAppend(s[..i], [x]);
    assert TotalPrice([s[i]]) == OrElse(s[i].valorTotal, 0.0) by {
      assert [s[i]][..0] == [];
    }
    assert TotalPrice([x]) == OrElse(x.valorTotal, 0.0) by {
      assert [x][..0] == [];
    }
  }

  /** Choosing a positive quantity adds the new charge to the total and takes out the
      charge of the entry it replaces, if any. */
  lemma ChangeAccessoryTotal(selected: seq<Accessory>, a: Accessory, quantity: int)
    requires quantity != 0
    ensures FindIndexByName(selected, a.nome) >= 0 ==>
      TotalPrice(ChangeAccessory(selected, a, quantity))
        == TotalPrice(selected) + Charge(a, quantity)
           - OrElse(selected[FindIndexByName(selected, a.nome)].valorTotal, 0.0)
    ensures FindIndexByName(selected, a.nome) == -1 ==>
      TotalPrice(ChangeAccessory(selected, a, quantity)) == TotalPrice(selected) + Charge(a, quantity)
  {
    var i := FindIndexByName(selected, a.nome);
    var u := Updated(a, quantity);
    if i >= 0 {
      assert ChangeAccessory(selected, a, quantity) == selected[i := u];
      TotalPriceUpdate(selected, i, u);
    } else {
      assert ChangeAccessory(selected, a, quantity) == selected + [u];
      TotalPriceAppend(selected, [u]);
      assert TotalPrice([u]) == Charge(a, quantity) by {
        assert [u][..0] == [];
      }
    }
  }

  /** The total of entries with non-negative totals is non-negative. */
  lemma {:induction false} TotalPriceNonNegative(items: seq<Accessory>)
    requires forall i :: 0 <= i < |items| ==> OrElse(items[i].valorTotal, 0.0) >= 0.0
    ensures TotalPrice(items) >= 0.0
  {
    if items != [] {
      TotalPriceNonNegative(items[..|items| - 1]);
    }
  }

  // ---------------------------------------------------------------------------
  // The displayed list

  /** `find` by name. */
  function FindByName(s: seq<Accessory>, nome: string): (r: Option<Accessory>)
    ensures r.Some? <==> exists j :: 0 <= j < |s| && s[j].nome == nome
    ensures r.Some? ==> r.value == s[FindIndexByName(s, nome)]
  {
    var i := FindIndexByName(s, nome);
    if i >= 0 then Some(s[i]) else None
  }

  /** One displayed accessory: selected iff the selection holds an entry of that name,
      with that entry's quantity, else its own, else 0. */
  function ViewItem(acc: Accessory, selected: seq<Accessory>): (v: Accessory)
    ensures v.nome == acc.nome && v.valorDiaria == acc.valorDiaria
    ensures v.selected == Some(exists j :: 0 <= j < |selected| && selected[j].nome == acc.nome)
    ensures var e := FindByName(selected, acc.nome);
      e.Some? && OrElseInt(e.value.quantidade, 0) != 0 ==> v.quantidade == e.value.quantidade
    ensures var e := FindByName(selected, acc.nome);
      !(e.Some? && OrElseInt(e.value.quantidade, 0) != 0) ==> v.quantidade == Some(OrElseInt(acc.quantidade, 0))
    ensures v == acc.(selected := v.selected, quantidade := v.quantidade)
  {
    var existing := FindByName(selected, acc.nome);
    var existingQuantity := if existing.Some? then existing.value.quantidade else None;
    acc.(selected := Some(existing.Some?),
         quantidade := Some(OrElseInt(existingQuantity, OrElseInt(acc.quantidade, 0))))
  }

  /** The accessories shown: the car's optional items, each merged with the selection. */
  function AccessoriesView(dadosOpcionais: Option<seq<Accessory>>, selected: seq<Accessory>): (r: seq<Accessory>)
    ensures |r| == |dadosOpcionais.GetOr([])|
    ensures forall i :: 0 <= i < |r| ==> r[i] == ViewItem(dadosOpcionais.GetOr([])[i], selected)
  {
    var items := dadosOpcionais.GetOr([]);
    seq(|items|, i requires 0 <= i < |items| => ViewItem(items[i], selected))
  }

  /** After choosing a positive quantity, the view shows the accessory selected with that
      quantity; after choosing 0 it shows it unselected. */
  lemma ViewReflectsChange(selected: seq<Accessory>, a: Accessory, quantity: int)
    ensures quantity != 0 ==>
      var v := ViewItem(a, ChangeAccessory(selected, a, quantity));
      v.selected == Some(true) && v.quantidade == Some(quantity)
    ensures quantity == 0 ==> ViewItem(a, ChangeAccessory(selected, a, 0)).selected == Some(false)
  {
    var r := ChangeAccessory(selected, a, quantity);
    if quantity != 0 {
      var i := FindIndexByName(selected, a.nome);
      if i >= 0 {
        assert FindIndexByName(r, a.nome) == i;
      } else {
        assert r[|selected|].nome == a.nome;
        assert FindIndexByName(r, a.nome) == |selected|;
      }
    } else {
      forall j | 0 <= j < |r|
        ensures r[j].nome != a.nome
      {
        assert r[j] in r;
      }
    }
  }

  // ---------------------------------------------------------------------------
  // AccessoriesList quantity clamp

  /** The most units selectable: `quantidadeMaxima`, or 999 when missing or zero. */
  function MaxQuantity(a: Accessory): (cap: int)
    ensures OrElseInt(a.quantidadeMaxima, 0) == 0 ==> cap == 999
    ensures OrElseInt(a.quantidadeMaxima, 0) != 0 ==> cap == a.quantidadeMaxima.value
  {
    OrElseInt(a.quantidadeMaxima, 999)
  }

  /** `handleQuantityChange`: a missing value counts as 0, then the value is clamped to
      `[0, cap]`. */
  function ClampQuantity(a: Accessory, value: Option<int>): (q: int)
    ensures MaxQuantity(a) >= 0 ==> 0 <= q <= MaxQuantity(a)
    ensures 0 <= value.GetOr(0) <= MaxQuantity(a) ==> q == value.GetOr(0)
    ensures value.GetOr(0) < 0 ==> q == MinInt(0, MaxQuantity(a))
    ensures value.GetOr(0) > MaxQuantity(a) ==> q == MaxQuantity(a)
  {
    var quantity := value.GetOr(0);
    MinInt(MaxInt(0, quantity), MaxQuantity(a))
  }

  /** Clamping a clamped quantity changes nothing. */
  lemma ClampIdempotent(a: Accessory, value: Option<int>)
    requires MaxQuantity(a) >= 0
    ensures ClampQuantity(a, Some(ClampQuantity(a, value))) == ClampQuantity(a, value)
  {
  }
}
