/** Country dialling codes and their numeric ordering (src/utils/ddiList.ts). */
module DdiList {
  import opened Strings
  import Sorting

  datatype DdiOption = DdiOption(
    codigo: string,
    fone: string,
    iso: string,
    iso3: string,
    nome: string,
    nomeFormal: string)

  const DDI_LIST: seq<DdiOption> := [
    DdiOption("076", "0055", "BR", "BRA", "Brasil", "República Federativa do Brasil"),
    DdiOption("840", "0001", "US", "USA", "Estados Unidos, Canadá", "Estados Unidos da América"),
    DdiOption("826", "0044", "GB", "GBR", "Reino Unido", "Reino Unido da Grã-Bretanha e Irlanda do Norte"),
    DdiOption("032", "0054", "AR", "ARG", "Argentina", "República Argentina"),
    DdiOption("152", "0056", "CL", "CHL", "Chile", "República do Chile"),
    DdiOption("484", "0052", "MX", "MEX", "México", "Estados Unidos Mexicanos"),
    DdiOption("604", "0051", "PE", "PER", "Peru", "República do Peru"),
    DdiOption("218", "0593", "EC", "ECU", "Equador", "República do Equador"),
    DdiOption("600", "0595", "PY", "PRY", "Paraguai", "República do Paraguai"),
    DdiOption("858", "0598", "UY", "URY", "Uruguai", "República Oriental do Uruguai"),
    DdiOption("170", "0057", "CO", "COL", "Colômbia", "República da Colômbia"),
    DdiOption("862", "0058", "VE", "VEN", "Venezuela", "República Bolivariana da Venezuela"),
    DdiOption("250", "0033", "FR", "FRA", "França", "República Francesa"),
    DdiOption("380", "0039", "IT", "ITA", "Italia", "República Italiana"),
    DdiOption("276", "0049", "DE", "DEU", "Alemanha", "República Federal da Alemanha"),
    DdiOption("724", "0034", "ES", "ESP", "Espanha", "Reino da Espanha"),
    DdiOption("392", "0081", "JP", "JPN", "Japão", "Japão"),
    DdiOption("156", "0086", "CN", "CHN", "China", "República Popular da China"),
    DdiOption("752", "0046", "SE", "SWE", "Suécia", "Reino da Suécia"),
    DdiOption("578", "0047", "NO", "NOR", "Noruega", "Reino da Noruega"),
    DdiOption("203", "0420", "CZ", "CZE", "República Tcheca", "República Tcheca"),
    DdiOption("348", "0036", "HU", "HUN", "Hungria", "Hungria"),
    DdiOption("792", "0090", "TR", "TUR", "Turquia", "República da Turquia"),
    DdiOption("040", "0043", "AT", "AUT", "Áustria", "República da Áustria"),
    DdiOption("300", "0030", "GR", "GRC", "Grécia", "República Helênica"),
    DdiOption("702", "0065", "SG", "SGP", "Singapura", "República da Singapura"),
    DdiOption("356", "0091", "IN", "IND", "Índia", "República da Índia"),
    DdiOption("410", "0082", "KR", "KOR", "Coreia do Sul", "República da Coreia"),
    DdiOption("036", "0061", "AU", "AUS", "Austrália", "Comunidade da Austrália"),
    DdiOption("554", "0064", "NZ", "NZL", "Nova Zelândia", "Nova Zelândia")
  ]

  /** The value of a string of decimal digits. */
  function DecimalValue(d: string): (v: nat)
    requires AllDigits(d)
  {
    if d == [] then 0 else DecimalValue(d[..|d| - 1]) * 10 + DigitValue(d[|d| - 1])
  }

  /** The longest run of digits at the start of `s`. */
  function LeadingDigits(s: string): (r: string)
    ensures AllDigits(r) && r <= s
  {
    if s != [] && IsDigit(s[0]) then [s[0]] + LeadingDigits(s[1..]) else []
  }

  /** `parseInt(s)` for a string that starts with a digit: the value of its leading digits. */
  function ParseInt(s: string): nat {
    DecimalValue(LeadingDigits(s))
  }

  /** The sort key of `SORTED_DDI_LIST`: `parseInt(fone)`. */
  function FoneKey(d: DdiOption): int {
    ParseInt(d.fone)
  }

  /** `[...DDI_LIST].sort((a, b) => parseInt(a.fone) - parseInt(b.fone))`. */
  const SORTED_DDI_LIST: seq<DdiOption> := Sorting.SortBy(DDI_LIST, FoneKey)

  predicate IsFourDigit(s: string) {
    |s| == 4 && AllDigits(s)
  }

  lemma FourDigitValue(s: string)
    requires IsFourDigit(s)
    ensures ParseInt(s) == DecimalValue(s)
    ensures DecimalValue(s)
         == 1000 * DigitValue(s[0]) + 100 * DigitValue(s[1]) + 10 * DigitValue(s[2]) + DigitValue(s[3])
  {
    assert LeadingDigits(s[3..]) == s[3..];
    assert LeadingDigits(s[2..]) == s[2..];
    assert LeadingDigits(s[1..]) == s[1..];
    assert LeadingDigits(s) == s;
    assert s[..4] == s;
    assert DecimalValue(s[..1]) == DigitValue(s[0]) by {
      assert s[..1][..0] == [];
    }
    assert DecimalValue(s[..2]) == 10 * DigitValue(s[0]) + DigitValue(s[1]) by {
      assert s[..2][..1] == s[..1];
    }
    assert DecimalValue(s[..3]) == 100 * DigitValue(s[0]) + 10 * DigitValue(s[1]) + DigitValue(s[2]) by {
      assert s[..3][..2] == s[..2];
    }
    assert s[..4][..3] == s[..3];
  }

  /** On four-digit strings numeric order and lexicographic order agree, and equal
      values mean equal strings. */
  lemma FourDigitOrderIsLexicographic(a: string, b: string)
    requires IsFourDigit(a) && IsFourDigit(b)
    ensures ParseInt(a) < ParseInt(b) <==> LexLess(a, b)
    ensures ParseInt(a) == ParseInt(b) <==> a == b
  {
    FourDigitValue(a);
    FourDigitValue(b);
    var a0, a1, a2, a3 := DigitValue(a[0]), DigitValue(a[1]), DigitValue(a[2]), DigitValue(a[3]);
    var b0, b1, b2, b3 := DigitValue(b[0]), DigitValue(b[1]), DigitValue(b[2]), DigitValue(b[3]);
    PlaceValueOrder(a0, a1, a2, a3, b0, b1, b2, b3);
    LexLessFour(a, b);
    assert a[0] < b[0] <==> a0 < b0;
    assert a[1] < b[1] <==> a1 < b1;
    assert a[2] < b[2] <==> a2 < b2;
    assert a[3] < b[3] <==> a3 < b3;
    assert a == b <==> a[0] == b[0] && a[1] == b[1] && a[2] == b[2] && a[3] == b[3] by {
      assert a == [a[0], a[1], a[2], a[3]] && b == [b[0], b[1], b[2], b[3]];
    }
  }

  /** Four-digit place values compare like their digit tuples. */
  lemma PlaceValueOrder(a0: int, a1: int, a2: int, a3: int, b0: int, b1: int, b2: int, b3: int)
    requires 0 <= a0 <= 9 && 0 <= a1 <= 9 && 0 <= a2 <= 9 && 0 <= a3 <= 9
    requires 0 <= b0 <= 9 && 0 <= b1 <= 9 && 0 <= b2 <= 9 && 0 <= b3 <= 9
    ensures 1000 * a0 + 100 * a1 + 10 * a2 + a3 < 1000 * b0 + 100 * b1 + 10 * b2 + b3
        <==> a0 < b0 || (a0 == b0 && (a1 < b1 || (a1 == b1 && (a2 < b2 || (a2 == b2 && a3 < b3)))))
    ensures 1000 * a0 + 100 * a1 + 10 * a2 + a3 == 1000 * b0 + 100 * b1 + 10 * b2 + b3
        <==> a0 == b0 && a1 == b1 && a2 == b2 && a3 == b3
  {
  }

  /** Lexicographic order on two four-character strings, position by position. */
  lemma LexLessFour(a: string, b: string)
    requires |a| == 4 && |b| == 4
    ensures LexLess(a, b) <==>
      a[0] < b[0] || (a[0] == b[0] && (a[1] < b[1] || (a[1] == b[1]
      && (a[2] < b[2] || (a[2] == b[2] && a[3] < b[3])))))
  {
    var a1s, b1s := a[1..], b[1..];
    var a2s, b2s := a1s[1..], b1s[1..];
    var a3s, b3s := a2s[1..], b2s[1..];
    assert a3s[1..] == [] && b3s[1..] == [];
    assert LexLess(a3s, b3s) <==> a[3] < b[3];
    assert LexLess(a2s, b2s) <==> a[2] < b[2] || (a[2] == b[2] && a[3] < b[3]);
  }

  lemma DdiFonesAreFourDigits()
    ensures forall i :: 0 <= i < |DDI_LIST| ==> IsFourDigit(DDI_LIST[i].fone)
  {
  }

  lemma DdiFonesAreDistinct()
    ensures forall i, j :: 0 <= i < j < |DDI_LIST| ==> DDI_LIST[i].fone != DDI_LIST[j].fone
  {
  }

  predicate FonesFourDigit(list: seq<DdiOption>) {
    forall i :: 0 <= i < |list| ==> IsFourDigit(list[i].fone)
  }

  predicate FonesDistinct(list: seq<DdiOption>) {
    forall i, j :: 0 <= i < j < |list| ==> list[i].fone != list[j].fone
  }

  lemma DdiListFacts()
    ensures FonesFourDigit(DDI_LIST) && FonesDistinct(DDI_LIST)
    ensures DDI_LIST[0].fone == "0055" && DDI_LIST[0].iso == "BR"
  {
    DdiFonesAreFourDigits();
    DdiFonesAreDistinct();
  }

  /** Sorting by numeric code keeps every code four digits long. */
  lemma SortKeepsFourDigits(list: seq<DdiOption>)
    requires FonesFourDigit(list)
    ensures FonesFourDigit(Sorting.SortBy(list, FoneKey))
  {
    var r := Sorting.SortBy(list, FoneKey);
    forall i | 0 <= i < |r|
      ensures IsFourDigit(r[i].fone)
    {
      assert r[i] in multiset(list);
      var j :| 0 <= j < |list| && list[j] == r[i];
    }
  }

  lemma FourDigitKeysDistinct(list: seq<DdiOption>)
    requires FonesFourDigit(list) && FonesDistinct(list)
    ensures Sorting.KeysDistinct(list, FoneKey)
  {
    forall i, j | 0 <= i < j < |list|
      ensures FoneKey(list[i]) != FoneKey(list[j])
    {
      FourDigitOrderIsLexicographic(list[i].fone, list[j].fone);
    }
  }

  /** The codes strictly increase numerically along the list. */
  predicate KeysIncrease(list: seq<DdiOption>) {
    forall i, j :: 0 <= i < j < |list| ==> FoneKey(list[i]) < FoneKey(list[j])
  }

  /** The codes strictly increase lexicographically along the list. */
  predicate FonesLexIncrease(list: seq<DdiOption>) {
    forall i, j :: 0 <= i < j < |list| ==> LexLess(list[i].fone, list[j].fone)
  }

  /** A list of distinct four-digit codes, sorted by numeric code, is strictly increasing
      both numerically and lexicographically, and is a permutation of the input. */
  lemma {:induction false} SortByFoneOrders(list: seq<DdiOption>)
    requires FonesFourDigit(list) && FonesDistinct(list)
    ensures multiset(Sorting.SortBy(list, FoneKey)) == multiset(list)
    ensures KeysIncrease(Sorting.SortBy(list, FoneKey))
    ensures FonesLexIncrease(Sorting.SortBy(list, FoneKey))
  {
    var r := Sorting.SortBy(list, FoneKey);
    FourDigitKeysDistinct(list);
    Sorting.SortByStrict(list, FoneKey);
    SortKeepsFourDigits(list);
    forall i, j | 0 <= i < j < |r|
      ensures LexLess(r[i].fone, r[j].fone)
    {
      FourDigitOrderIsLexicographic(r[i].fone, r[j].fone);
    }
  }

  /** `SORTED_DDI_LIST` is in strictly increasing numeric order of its codes, which for
      four-digit codes is also their lexicographic order. */
  lemma SortedDdiIncreases()
    ensures KeysIncrease(SORTED_DDI_LIST)
    ensures FonesLexIncrease(SORTED_DDI_LIST)
  {
    DdiListFacts();
    SortByFoneOrders(DDI_LIST);
  }

  /** Every code in `SORTED_DDI_LIST` has four digits. */
  lemma SortedDdiFourDigits()
    ensures FonesFourDigit(SORTED_DDI_LIST)
  {
    DdiListFacts();
    SortKeepsFourDigits(DDI_LIST);
  }

  /** Brazil, the first (default) entry of `DDI_LIST`, is kept by the sort. */
  lemma BrazilInSortedList()
    ensures DDI_LIST[0] in SORTED_DDI_LIST
  {
    assert DDI_LIST[0] in multiset(DDI_LIST);
  }
}
