/** Partner search, franchise grouping, rental type and the location-search request
    (src/services/localization.ts). */
module LocalizationService {
  import opened Optional
  import opened Strings
  import opened Seqs

  /** A partner agreement or a franchise-kilometre tariff. */
  datatype Partner = Partner(codigo: string, descricao: string, categoria: string)

  /** `LocationPlace`: an airport, city, district or store. */
  datatype LocationPlace = LocationPlace(
    nome: string,
    sigla: Option<string>,
    lojas: Option<seq<string>>,
    qtLojas: int)

  // ---------------------------------------------------------------------------
  // filterPartners

  predicate MatchesSearch(p: Partner, search: string) {
    Contains(ToLower(p.descricao), ToLower(search))
  }

  /** Partners whose lower-cased description contains the lower-cased search; none for an
      empty search. */
  function FilterPartners(partners: seq<Partner>, search: string): (r: seq<Partner>)
    ensures search == "" ==> r == []
    ensures search != "" ==> forall i :: 0 <= i < |r| ==> r[i] in partners && MatchesSearch(r[i], search)
    ensures search != "" ==> forall p :: p in partners && MatchesSearch(p, search) ==> p in r
  {
    if |search| < 1 then [] else Filter(partners, (p: Partner) => MatchesSearch(p, search))
  }

  /** The search keeps the partners' order. */
  lemma FilterPartnersKeepsOrder(partners: seq<Partner>, search: string)
    ensures IsSubsequence(FilterPartners(partners, search), partners)
  {
    if search == "" {
      EmptyIsSubsequence(partners);
    } else {
      FilterIsSubsequence(partners, (p: Partner) => MatchesSearch(p, search));
    }
  }

  lemma {:induction false} EmptyIsSubsequence<T>(s: seq<T>)
    ensures IsSubsequence([], s)
  {
    if s != [] {
      EmptyIsSubsequence(s[1..]);
    }
  }

  /** The search ignores ASCII letter case. */
  lemma FilterPartnersIgnoresCase(partners: seq<Partner>, search: string)
    ensures FilterPartners(partners, ToLower(search)) == FilterPartners(partners, search)
  {
    ToLowerIdempotent(search);
    if search != "" {
      var p := (q: Partner) => MatchesSearch(q, search);
      var p' := (q: Partner) => MatchesSearch(q, ToLower(search));
      SamePredicateSameFilter(partners, p', p);
    }
  }

  lemma ToLowerIdempotent(s: string)
    ensures ToLower(ToLower(s)) == ToLower(s)
  {
  }

  lemma {:induction false} SamePredicateSameFilter<T>(s: seq<T>, p: T -> bool, q: T -> bool)
    requires forall x :: p(x) == q(x)
    ensures Filter(s, p) == Filter(s, q)
  {
    if s != [] {
      SamePredicateSameFilter(s[1..], p, q);
    }
  }

  // ---------------------------------------------------------------------------
  // groupFranchiseKmByCategory

  /** Items are appended, in order, to the bucket of their category. */
  function GroupByCategory(list: seq<Partner>): (m: map<string, seq<Partner>>)
    ensures forall k :: k in m <==> exists i :: 0 <= i < |list| && list[i].categoria == k
  {
    if list == [] then map[]
    else
      var prefix := list[..|list| - 1];
      var item := list[|list| - 1];
      var m := GroupByCategory(prefix);
      assert forall i :: 0 <= i < |prefix| ==> prefix[i] == list[i];
      var bucket := if item.categoria in m then m[item.categoria] else [];
      m[item.categoria := bucket + [item]]
  }

  function InCategory(k: string): Partner -> bool {
    (p: Partner) => p.categoria == k
  }

  /** Each bucket is exactly the input's items of that category, in input order. */
  lemma GroupBucketIsFilter(list: seq<Partner>, k: string)
    ensures k in GroupByCategory(list) ==> GroupByCategory(list)[k] == Filter(list, InCategory(k))
    ensures k !in GroupByCategory(list) ==> Filter(list, InCategory(k)) == []
  {
    GroupBucketIsBucket(list, k);
    BucketIsFilter(list, k);
  }

  /** The items of category `k`, collected the way the grouping visits them. */
  function Bucket(list: seq<Partner>, k: string): seq<Partner> {
    if list == [] then []
    else Bucket(list[..|list| - 1], k) + (if list[|list| - 1].categoria == k then [list[|list| - 1]] else [])
  }

  lemma {:induction false} GroupBucketIsBucket(list: seq<Partner>, k: string)
    ensures k in GroupByCategory(list) ==> GroupByCategory(list)[k] == Bucket(list, k)
    ensures k !in GroupByCategory(list) ==> Bucket(list, k) == []
  {
    if list != [] {
      GroupBucketIsBucket(list[..|list| - 1], k);
    }
  }

  lemma {:induction false} BucketIsFilter(list: seq<Partner>, k: string)
    ensures Bucket(list, k) == Filter(list, InCategory(k))
  {
    if list != [] {
      var prefix, item := list[..|list| - 1], list[|list| - 1];
      BucketIsFilter(prefix, k);
      assert list == prefix + [item];
      FilterAppend(prefix, [item], InCategory(k));
      FilterSingleton(item, InCategory(k));
    }
  }

  lemma FilterSingleton<T>(x: T, p: T -> bool)
    ensures Filter([x], p) == if p(x) then [x] else []
  {
    assert [x][1..] == [];
  }

  /** Every item lands in the bucket of its own category and in no other. */
  lemma GroupPlacesEachItem(list: seq<Partner>, i: int, k: string)
    requires 0 <= i < |list|
    ensures list[i].categoria in GroupByCategory(list)
    ensures list[i] in GroupByCategory(list)[list[i].categoria]
    ensures k in GroupByCategory(list) && list[i] in GroupByCategory(list)[k] ==> k == list[i].categoria
  {
    GroupBucketIsFilter(list, list[i].categoria);
    GroupBucketIsFilter(list, k);
    assert list[i] in list;
  }

  /** The categories in order of first appearance. */
  function Categories(list: seq<Partner>): (r: seq<string>)
    ensures forall k :: k in r <==> exists i :: 0 <= i < |list| && list[i].categoria == k
    ensures forall i, j :: 0 <= i < j < |r| ==> r[i] != r[j]
  {
    if list == [] then []
    else
      var prefix := list[..|list| - 1];
      var r := Categories(prefix);
      assert forall i :: 0 <= i < |prefix| ==> prefix[i] == list[i];
      if list[|list| - 1].categoria in r then r else r + [list[|list| - 1].categoria]
  }

  function SumSizes(m: map<string, seq<Partner>>, keys: seq<string>): (n: nat)
    requires forall k :: k in keys ==> k in m
  {
    if keys == [] then 0 else |m[keys[0]]| + SumSizes(m, keys[1..])
  }

  /** Growing one bucket that appears once in `keys` grows the sum by the same amount. */
  lemma {:induction false} SumSizesUpdate(m: map<string, seq<Partner>>, keys: seq<string>, k: string, b: seq<Partner>)
    requires forall x :: x in keys ==> x in m
    requires forall i, j :: 0 <= i < j < |keys| ==> keys[i] != keys[j]
    ensures k in keys ==> SumSizes(m[k := b], keys) == SumSizes(m, keys) - |m[k]| + |b|
    ensures k !in keys ==> SumSizes(m[k := b], keys) == SumSizes(m, keys)
  {
    if keys != [] {
      assert forall i, j :: 0 <= i < j < |keys[1..]| ==> keys[1..][i] != keys[1..][j];
      SumSizesUpdate(m, keys[1..], k, b);
      if keys[0] == k {
        assert k !in keys[1..];
      }
    }
  }

  lemma {:induction false} SumSizesAppendKey(m: map<string, seq<Partner>>, keys: seq<string>, k: string)
    requires forall x :: x in keys ==> x in m
    requires k in m
    ensures SumSizes(m, keys + [k]) == SumSizes(m, keys) + |m[k]|
  {
    if keys != [] {
      assert (keys + [k])[1..] == keys[1..] + [k];
      SumSizesAppendKey(m, keys[1..], k);
    }
  }

  /** The bucket sizes add up to the input length: no item is lost or duplicated. */
  lemma {:induction false} GroupSizesSum(list: seq<Partner>)
    ensures SumSizes(GroupByCategory(list), Categories(list)) == |list|
  {
    if list != [] {
      var prefix := list[..|list| - 1];
      var item := list[|list| - 1];
      var m := GroupByCategory(prefix);
      var keys := Categories(prefix);
      GroupSizesSum(prefix);
      var bucket := if item.categoria in m then m[item.categoria] else [];
      SumSizesUpdate(m, keys, item.categoria, bucket + [item]);
      if item.categoria !in keys {
        SumSizesAppendKey(m[item.categoria := bucket + [item]], keys, item.categoria);
      }
    }
  }

  // ---------------------------------------------------------------------------
  // getRentalType

  datatype RentalType = Parcerias | MensalFlex | Eventual

  function RentalTypeLabel(t: RentalType): string {
    match t
    case Parcerias => "Parcerias"
    case MensalFlex => "Mensal Flex"
    case Eventual => "Eventual"
  }

  /** A partner always makes a partnership rental; otherwise a stay of at least the
      (non-zero) monthly range is monthly, anything else occasional. */
  function GetRentalType(selectedPartner: Option<Partner>, dateDiff: int, rangeDayMonthly: Option<int>): (t: RentalType)
    ensures selectedPartner.Some? <==> t == Parcerias
    ensures t == MensalFlex <==>
      selectedPartner.None? && rangeDayMonthly.Some? && rangeDayMonthly.value != 0 && dateDiff >= rangeDayMonthly.value
  {
    if selectedPartner.Some? then Parcerias
    else if OrElseInt(rangeDayMonthly, 0) != 0 && dateDiff >= rangeDayMonthly.value then MensalFlex
    else Eventual
  }

  /** Lengthening the stay never turns a monthly rental back into an occasional one. */
  lemma RentalTypeMonotone(p: Option<Partner>, d1: int, d2: int, range: Option<int>)
    requires d1 <= d2
    ensures GetRentalType(p, d1, range) == MensalFlex ==> GetRentalType(p, d2, range) == MensalFlex
  {
  }

  // ---------------------------------------------------------------------------
  // getLocations

  datatype LocationsRequest = LocationsRequest(filtro: string, codAgencia: int, locadoras: Option<seq<string>>)

  datatype LocationsData = LocationsData(
    aeroportos: seq<LocationPlace>,
    todasLojas: seq<LocationPlace>,
    cidades: seq<LocationPlace>,
    bairro: seq<LocationPlace>)

  /** An API error entry. */
  datatype ApiError = ApiError(message: Option<string>, code: Option<string>)

  /** What the API answers to a locations request. */
  datatype LocationsResponse = LocationsResponse(dados: LocationsData, errors: Option<seq<ApiError>>)

  datatype LocationsResult = LocationsResult(dados: LocationsData, errors: Option<seq<ApiError>>)

  const NoLocations: LocationsData := LocationsData([], [], [], [])

  /** The request `getLocations` sends: the agency code defaults to 100 when missing or
      not positive, and the agency list is sent only when non-empty. */
  function LocationsRequestFor(search: string, codAgencia: Option<int>, locadoras: Option<seq<string>>): (r: LocationsRequest)
    ensures r.filtro == search
    ensures r.codAgencia > 0
    ensures codAgencia.Some? && codAgencia.value > 0 ==> r.codAgencia == codAgencia.value
    ensures !(codAgencia.Some? && codAgencia.value > 0) ==> r.codAgencia == 100
    ensures r.locadoras.Some? <==> locadoras.Some? && |locadoras.value| > 0
    ensures r.locadoras.Some? ==> r.locadoras == locadoras
  {
    var cod := if codAgencia.Some? && codAgencia.value > 0 then codAgencia.value else 100;
    var locs := if locadoras.Some? && |locadoras.value| > 0 then locadoras else None;
    LocationsRequest(search, cod, locs)
  }

  /** `getLocations`, with the API call as the parameter `api`: a search shorter than
      three characters answers four empty lists without a request; otherwise the
      answer's data, with its errors only when there is at least one. */
  function GetLocations(search: string, codAgencia: Option<int>, locadoras: Option<seq<string>>,
                        api: LocationsRequest -> LocationsResponse): (r: LocationsResult)
    ensures |search| < 3 ==> r == LocationsResult(NoLocations, None)
    ensures |search| >= 3 ==> r.dados == api(LocationsRequestFor(search, codAgencia, locadoras)).dados
    ensures r.errors.Some? <==>
      |search| >= 3 && api(LocationsRequestFor(search, codAgencia, locadoras)).errors.Some?
      && |api(LocationsRequestFor(search, codAgencia, locadoras)).errors.value| > 0
    ensures r.errors.Some? ==> r.errors == api(LocationsRequestFor(search, codAgencia, locadoras)).errors
  {
    if |search| < 3 then LocationsResult(NoLocations, None)
    else
      var response := api(LocationsRequestFor(search, codAgencia, locadoras));
      var errors := if response.errors.Some? && |response.errors.value| > 0 then response.errors else None;
      LocationsResult(response.dados, errors)
  }

  /** A missing agency code and a non-positive one send the same request, and so do a
      missing agency list and an empty one. */
  lemma NonPositiveAgencyActsAsMissing(search: string, cod: int, locs: Option<seq<string>>)
    requires cod <= 0
    ensures LocationsRequestFor(search, Some(cod), locs) == LocationsRequestFor(search, None, locs)
    ensures LocationsRequestFor(search, Some(cod), Some([])) == LocationsRequestFor(search, None, None)
  {
  }

  /** A short search answers the same whatever the API would say. */
  lemma ShortSearchMakesNoRequest(search: string, cod: Option<int>, locs: Option<seq<string>>,
                                  api1: LocationsRequest -> LocationsResponse,
                                  api2: LocationsRequest -> LocationsResponse)
    requires |search| < 3
    ensures GetLocations(search, cod, locs, api1) == GetLocations(search, cod, locs, api2)
  {
  }
}
