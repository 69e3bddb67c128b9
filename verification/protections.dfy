/** The protection step: main/additional split, initial choices, price difference and
    the selection sent on (src/components/ProtectionsPage.tsx). */
module Protections {
  import opened Optional
  import opened Seqs
  import Sorting

  datatype Protection = Protection(
    codigoProtecao: string,
    nome: string,
    obrigatorio: bool,
    valorTotal: real,
    valorDiaria: real,
    ordenacao: Option<int>)

  /** The codes of the optional (additional) protections. */
  const ADDITIONAL_CODES: seq<string> := ["17", "41", "7", "1", "32"]

  predicate IsAdditional(p: Protection) {
    p.codigoProtecao in ADDITIONAL_CODES
  }

  predicate IsMain(p: Protection) {
    p.codigoProtecao !in ADDITIONAL_CODES
  }

  /** The display order: `ordenacao`, a missing or zero value counting 0. */
  function OrderKey(p: Protection): int {
    OrElseInt(p.ordenacao, 0)
  }

  /** The main protections, stably sorted by `ordenacao`. */
  function MainProtections(all: Option<seq<Protection>>): (r: seq<Protection>)
    ensures multiset(r) == multiset(Filter(all.GetOr([]), IsMain))
  {
    Sorting.SortBy(Filter(all.GetOr([]), IsMain), OrderKey)
  }

  /** The additional protections, stably sorted by `ordenacao`. */
  function AdditionalProtections(all: Option<seq<Protection>>): (r: seq<Protection>)
    ensures multiset(r) == multiset(Filter(all.GetOr([]), IsAdditional))
  {
    Sorting.SortBy(Filter(all.GetOr([]), IsAdditional), OrderKey)
  }

  /** The two lists split the car's protections: together they hold each protection as
      often as the car does, and no protection is in both. */
  lemma ProtectionsPartition(all: Option<seq<Protection>>)
    ensures multiset(MainProtections(all)) + multiset(AdditionalProtections(all)) == multiset(all.GetOr([]))
    ensures forall i :: 0 <= i < |MainProtections(all)| ==> IsMain(MainProtections(all)[i])
    ensures forall i :: 0 <= i < |AdditionalProtections(all)| ==> IsAdditional(AdditionalProtections(all)[i])
    ensures forall p :: p in MainProtections(all) ==> p !in AdditionalProtections(all)
  {
    FilterComplementMultiset(all.GetOr([]), IsMain, IsAdditional);
    SortedFilterSatisfies(all.GetOr([]), IsMain);
    SortedFilterSatisfies(all.GetOr([]), IsAdditional);
  }

  /** Sorting by `ordenacao` keeps only elements that passed the filter. */
  lemma SortedFilterSatisfies(list: seq<Protection>, p: Protection -> bool)
    ensures forall i :: 0 <= i < |Sorting.SortBy(Filter(list, p), OrderKey)| ==>
      p(Sorting.SortBy(Filter(list, p), OrderKey)[i])
  {
    var f := Filter(list, p);
    Sorting.SortByElements(f, OrderKey);
  }

  /** Both lists are in non-decreasing `ordenacao` order, and protections with equal
      `ordenacao` keep the car's order. */
  lemma ProtectionsSorted(all: Option<seq<Protection>>, k: int)
    ensures Sorting.SortedBy(MainProtections(all), OrderKey)
    ensures Sorting.SortedBy(AdditionalProtections(all), OrderKey)
    ensures Sorting.KeyClass(MainProtections(all), OrderKey, k)
         == Sorting.KeyClass(Filter(all.GetOr([]), IsMain), OrderKey, k)
    ensures Sorting.KeyClass(AdditionalProtections(all), OrderKey, k)
         == Sorting.KeyClass(Filter(all.GetOr([]), IsAdditional), OrderKey, k)
  {
    Sorting.SortBySorted(Filter(all.GetOr([]), IsMain), OrderKey);
    Sorting.SortBySorted(Filter(all.GetOr([]), IsAdditional), OrderKey);
    Sorting.SortByStable(Filter(all.GetOr([]), IsMain), OrderKey, k);
    Sorting.SortByStable(Filter(all.GetOr([]), IsAdditional), OrderKey, k);
  }

  /** `find` of the first required protection. */
  function FindRequired(s: seq<Protection>): (r: Option<Protection>)
    ensures r.Some? ==> r.value in s && r.value.obrigatorio
    ensures r.None? ==> forall i :: 0 <= i < |s| ==> !s[i].obrigatorio
    ensures r.Some? ==>
      exists i :: 0 <= i < |s| && s[i] == r.value && (forall j :: 0 <= j < i ==> !s[j].obrigatorio)
  {
    if s == [] then None
    else if s[0].obrigatorio then Some(s[0])
    else
      var r := FindRequired(s[1..]);
      if r.Some? then
        var i :| 0 <= i < |s[1..]| && s[1..][i] == r.value && forall j :: 0 <= j < i ==> !s[1..][j].obrigatorio;
        assert s[i + 1] == r.value;
        r
      else r
  }

  /** The initial main choice: the first saved protection, else the first required main
      protection, else the first main protection, else none. */
  function InitialProtection(saved: Option<seq<Protection>>, main: seq<Protection>): (r: Option<Protection>)
    ensures |saved.GetOr([])| > 0 ==> r == Some(saved.GetOr([])[0])
    ensures |saved.GetOr([])| == 0 && FindRequired(main).Some? ==> r == FindRequired(main)
    ensures |saved.GetOr([])| == 0 && FindRequired(main).None? && |main| > 0 ==> r == Some(main[0])
    ensures r.None? <==> |saved.GetOr([])| == 0 && |main| == 0
  {
    var s := saved.GetOr([]);
    if |s| > 0 then Some(s[0])
    else if FindRequired(main).Some? then FindRequired(main)
    else if |main| > 0 then Some(main[0])
    else None
  }

  /** The initial additional choice: the second saved protection, if any. */
  function InitialAdditionalProtection(saved: Option<seq<Protection>>): (r: Option<Protection>)
    ensures |saved.GetOr([])| > 1 <==> r.Some?
    ensures r.Some? ==> r.value == saved.GetOr([])[1]
  {
    var s := saved.GetOr([]);
    if |s| > 1 then Some(s[1]) else None
  }

  /** `calcProtectionDiff`: required protections are included, others cost their total. */
  function ProtectionDiff(p: Protection): (d: real)
    ensures p.obrigatorio ==> d == 0.0
    ensures !p.obrigatorio ==> d == p.valorTotal
  {
    if p.obrigatorio then 0.0 else p.valorTotal
  }

  /** The protections sent on: the main choice, then the additional one, each if present. */
  function SelectedProtections(main: Option<Protection>, additional: Option<Protection>): (r: seq<Protection>)
    ensures |r| <= 2
    ensures |r| == (if main.Some? then 1 else 0) + (if additional.Some? then 1 else 0)
    ensures main.Some? ==> r[0] == main.value
    ensures additional.Some? ==> r[|r| - 1] == additional.value
  {
    (if main.Some? then [main.value] else []) + (if additional.Some? then [additional.value] else [])
  }

  /** Coming back to the step with the saved selection restores both choices, when a
      main protection was chosen. */
  lemma SavedSelectionRestores(main: Protection, additional: Option<Protection>, cars: seq<Protection>)
    ensures var saved := Some(SelectedProtections(Some(main), additional));
      InitialProtection(saved, cars) == Some(main)
      && InitialAdditionalProtection(saved) == additional
  {
  }

  predicate IsSelected(current: Option<Protection>, p: Protection) {
    current.Some? && current.value.codigoProtecao == p.codigoProtecao
  }

  /** A click on an additional protection: deselects it when selected, else selects it. */
  function ClickAdditional(current: Option<Protection>, clicked: Protection): (r: Option<Protection>)
    ensures IsSelected(r, clicked) <==> !IsSelected(current, clicked)
    ensures r.Some? ==> r.value == clicked
  {
    if IsSelected(current, clicked) then None else Some(clicked)
  }

  /** Two clicks on a protection that was not selected leave no additional protection. */
  lemma ClickAdditionalTwice(current: Option<Protection>, clicked: Protection)
    requires !IsSelected(current, clicked)
    ensures ClickAdditional(ClickAdditional(current, clicked), clicked) == None
  {
  }
}
