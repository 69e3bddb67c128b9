/** The vehicle-search filter state and its derived lists (src/hooks/useCarFilters.ts). */
module CarFilters {
  import opened Optional
  import opened Strings
  import opened Seqs

  /** A filter value: `string | number | boolean`. */
  datatype Scalar = Num(n: int) | Bool(b: bool) | Str(s: string)

  datatype CarFilter = CarFilter(name: string, description: string, value: Scalar)

  /** The fields of a car's `dadosVeiculo` the filters look at. */
  datatype Car = Car(
    modelo: string,
    nomeAgencia: string,
    lugares: int,
    cambioAutomatico: bool,
    arCondicionado: bool,
    numeroPortas: int,
    valorTotal: real,
    status: string)

  datatype PriceRange = PriceRange(min: real, max: real)

  /** The active filters; `None` is an absent key. */
  datatype ActiveFilters = ActiveFilters(
    lugares: Option<int>,
    cambioAutomatico: Option<bool>,
    arCondicionado: Option<bool>,
    numeroPortas: Option<int>,
    nomeAgencia: Option<seq<string>>)

  const NoFilters: ActiveFilters := ActiveFilters(None, None, None, None, None)

  datatype FilterState = FilterState(active: ActiveFilters, priceRange: PriceRange)

  predicate IsAvailable(c: Car) {
    c.status == "Available"
  }

  /** `availableCars`: the cars whose status is `Available`, in their original order. */
  function AvailableCars(cars: seq<Car>): (r: seq<Car>)
    ensures forall i :: 0 <= i < |r| ==> IsAvailable(r[i]) && r[i] in cars
    ensures forall c :: c in cars && IsAvailable(c) ==> c in r
  {
    Filter(cars, IsAvailable)
  }

  function MinPrice(cars: seq<Car>): (m: real)
    requires |cars| > 0
    ensures forall i :: 0 <= i < |cars| ==> m <= cars[i].valorTotal
    ensures exists i :: 0 <= i < |cars| && m == cars[i].valorTotal
  {
    if |cars| == 1 then cars[0].valorTotal
    else
      var rest := MinPrice(cars[1..]);
      assert forall i :: 1 <= i < |cars| ==> cars[i] == cars[1..][i - 1];
      if cars[0].valorTotal <= rest then cars[0].valorTotal else rest
  }

  function MaxPrice(cars: seq<Car>): (m: real)
    requires |cars| > 0
    ensures forall i :: 0 <= i < |cars| ==> cars[i].valorTotal <= m
    ensures exists i :: 0 <= i < |cars| && m == cars[i].valorTotal
  {
    if |cars| == 1 then cars[0].valorTotal
    else
      var rest := MaxPrice(cars[1..]);
      assert forall i :: 1 <= i < |cars| ==> cars[i] == cars[1..][i - 1];
      if cars[0].valorTotal >= rest then cars[0].valorTotal else rest
  }

  /** `initialPriceRange`: `{0, 0}` without available cars, otherwise the cheapest and the
      dearest available price. */
  function InitialPriceRange(cars: seq<Car>): (r: PriceRange)
    ensures AvailableCars(cars) == [] ==> r == PriceRange(0.0, 0.0)
    ensures AvailableCars(cars) != [] ==>
      r.min <= r.max
      && (forall c :: c in AvailableCars(cars) ==> r.min <= c.valorTotal <= r.max)
      && (exists c :: c in AvailableCars(cars) && c.valorTotal == r.min)
      && (exists c :: c in AvailableCars(cars) && c.valorTotal == r.max)
  {
    var available := AvailableCars(cars);
    if |available| == 0 then PriceRange(0.0, 0.0)
    else PriceRange(MinPrice(available), MaxPrice(available))
  }

  // ---------------------------------------------------------------------------
  // availableLocadoras

  predicate StrictlySorted(s: seq<string>) {
    forall i, j :: 0 <= i < j < |s| ==> LexLess(s[i], s[j])
  }

  /** Inserts `x` into a sorted list unless it is already there. */
  function InsertSorted(r: seq<string>, x: string): (q: seq<string>)
    ensures forall y :: y in q <==> y in r || y == x
  {
    if r == [] then [x]
    else if x == r[0] then r
    else if LexLess(x, r[0]) then [x] + r
    else [r[0]] + InsertSorted(r[1..], x)
  }

  lemma {:induction false} InsertSortedKeepsOrder(r: seq<string>, x: string)
    requires StrictlySorted(r)
    ensures StrictlySorted(InsertSorted(r, x))
  {
    if r != [] && x != r[0] && LexLess(x, r[0]) {
      forall j | 0 <= j < |r|
        ensures LexLess(x, r[j])
      {
        if j > 0 {
          LexLessTransitive(x, r[0], r[j]);
        }
      }
    } else if r != [] && x != r[0] {
      LexLessTotal(x, r[0]);
      InsertSortedKeepsOrder(r[1..], x);
      var q := InsertSorted(r, x);
      forall i, j | 0 <= i < j < |q|
        ensures LexLess(q[i], q[j])
      {
        if i == 0 {
          assert q[j] in InsertSorted(r[1..], x);
          if q[j] != x {
            var k :| 0 <= k < |r[1..]| && r[1..][k] == q[j];
            assert r[k + 1] == q[j];
          }
        }
      }
    }
  }

  /** The set of agency names added so far, as a sorted list without duplicates. */
  function CollectAgencies(cars: seq<Car>): (r: seq<string>)
    ensures forall x :: x in r <==> exists i :: 0 <= i < |cars| && cars[i].nomeAgencia == x && x != ""
  {
    if cars == [] then []
    else
      var prefix := cars[..|cars| - 1];
      var r := CollectAgencies(prefix);
      var name := cars[|cars| - 1].nomeAgencia;
      assert forall i :: 0 <= i < |prefix| ==> prefix[i] == cars[i];
      if name != "" then InsertSorted(r, name) else r
  }

  lemma {:induction false} CollectAgenciesSorted(cars: seq<Car>)
    ensures StrictlySorted(CollectAgencies(cars))
  {
    if cars != [] {
      CollectAgenciesSorted(cars[..|cars| - 1]);
      var name := cars[|cars| - 1].nomeAgencia;
      if name != "" {
        InsertSortedKeepsOrder(CollectAgencies(cars[..|cars| - 1]), name);
      }
    }
  }

  /** `availableLocadoras`: the non-empty agency names of the available cars, without
      duplicates, in ascending order. */
  function AvailableLocadoras(cars: seq<Car>): (r: seq<string>)
    ensures forall x :: x in r <==> x != "" && exists c :: c in AvailableCars(cars) && c.nomeAgencia == x
  {
    CollectAgencies(AvailableCars(cars))
  }

  lemma AvailableLocadorasSorted(cars: seq<Car>)
    ensures StrictlySorted(AvailableLocadoras(cars))
    ensures forall i, j :: 0 <= i < j < |AvailableLocadoras(cars)| ==>
      AvailableLocadoras(cars)[i] != AvailableLocadoras(cars)[j]
  {
    CollectAgenciesSorted(AvailableCars(cars));
    var r := AvailableLocadoras(cars);
    forall i, j | 0 <= i < j < |r|
      ensures r[i] != r[j]
    {
      LexLessIrreflexive(r[i]);
    }
  }

  /** Two strictly sorted lists with the same elements are equal, so sorting the set of
      names any way yields `AvailableLocadoras`. */
  lemma {:induction false} StrictlySortedUnique(a: seq<string>, b: seq<string>)
    requires StrictlySorted(a) && StrictlySorted(b)
    requires forall x :: x in a <==> x in b
    ensures a == b
  {
    assert a != [] ==> a[0] in b;
    assert b != [] ==> b[0] in a;
    if a != [] && b != [] {
      assert a[0] in a && b[0] in b;
      var i :| 0 <= i < |b| && b[i] == a[0];
      var j :| 0 <= j < |a| && a[j] == b[0];
      if a[0] != b[0] {
        assert i > 0 && j > 0;
        assert LexLess(a[0], a[j]) && LexLess(b[0], b[i]);
        LexLessTotal(a[0], b[0]);
      } else {
        forall x
          ensures x in a[1..] <==> x in b[1..]
        {
          if x in a[1..] {
            var k :| 0 <= k < |a[1..]| && a[1..][k] == x;
            assert LexLess(a[0], a[k + 1]);
            LexLessIrreflexive(x);
            assert x in b && x != b[0];
            var m :| 0 <= m < |b| && b[m] == x;
            assert b[1..][m - 1] == x;
          }
          if x in b[1..] {
            var k :| 0 <= k < |b[1..]| && b[1..][k] == x;
            assert LexLess(b[0], b[k + 1]);
            LexLessIrreflexive(x);
            assert x in a && x != a[0];
            var m :| 0 <= m < |a| && a[m] == x;
            assert a[1..][m - 1] == x;
          }
        }
        StrictlySortedUnique(a[1..], b[1..]);
        assert a == [a[0]] + a[1..] && b == [b[0]] + b[1..];
      }
    }
  }

  // ---------------------------------------------------------------------------
  // filteredCars

  predicate InPriceRange(c: Car, range: PriceRange) {
    range.min <= c.valorTotal <= range.max
  }

  predicate SeatsOk(c: Car, f: ActiveFilters) {
    f.lugares.None? || c.lugares > f.lugares.value
  }

  predicate TransmissionOk(c: Car, f: ActiveFilters) {
    f.cambioAutomatico.None? || c.cambioAutomatico == f.cambioAutomatico.value
  }

  predicate AirOk(c: Car, f: ActiveFilters) {
    f.arCondicionado.None? || c.arCondicionado == f.arCondicionado.value
  }

  predicate DoorsOk(c: Car, f: ActiveFilters) {
    f.numeroPortas.None? || c.numeroPortas == f.numeroPortas.value
  }

  predicate AgencyOk(c: Car, f: ActiveFilters) {
    f.nomeAgencia.None? || |f.nomeAgencia.value| == 0 || c.nomeAgencia in f.nomeAgencia.value
  }

  /** A car passes the active filters iff every active criterion holds. */
  predicate PassesFilters(c: Car, range: PriceRange, f: ActiveFilters) {
    InPriceRange(c, range) && SeatsOk(c, f) && TransmissionOk(c, f) && AirOk(c, f)
    && DoorsOk(c, f) && AgencyOk(c, f)
  }

  /** A filter step applied only when its key is active. */
  function FilterIf(s: seq<Car>, active: bool, p: Car -> bool): (r: seq<Car>)
    ensures !active ==> r == s
    ensures active ==> r == Filter(s, p)
  {
    if active then Filter(s, p) else s
  }

  /** `filteredCars`: the price filter, then one filter per active key, in the source's
      order (each criterion, read under the guard that its key is present, is the
      source's comparison). */
  function FilteredCars(cars: seq<Car>, range: PriceRange, f: ActiveFilters): (r: seq<Car>)
    ensures |r| <= |cars|
    ensures forall i :: 0 <= i < |r| ==> r[i] in cars && IsAvailable(r[i]) && InPriceRange(r[i], range)
  {
    var s1 := Filter(AvailableCars(cars), (c: Car) => InPriceRange(c, range));
    var s2 := FilterIf(s1, f.lugares.Some?, (c: Car) => SeatsOk(c, f));
    var s3 := FilterIf(s2, f.cambioAutomatico.Some?, (c: Car) => TransmissionOk(c, f));
    var s4 := FilterIf(s3, f.arCondicionado.Some?, (c: Car) => AirOk(c, f));
    var s5 := FilterIf(s4, f.numeroPortas.Some?, (c: Car) => DoorsOk(c, f));
    FilterIf(s5, f.nomeAgencia.Some? && |f.nomeAgencia.value| > 0, (c: Car) => AgencyOk(c, f))
  }

  /** A step skipped only when its predicate holds of every car is an ordinary filter. */
  lemma FilterIfIsFilter(s: seq<Car>, active: bool, p: Car -> bool)
    requires !active ==> forall c :: p(c)
    ensures FilterIf(s, active, p) == Filter(s, p)
  {
    if !active {
      FilterAllPass(s, p);
    }
  }

  /** One more step of the chain: filtering the result of the conjunction so far. */
  lemma FilterStep(s0: seq<Car>, s: seq<Car>, q: Car -> bool, active: bool, p: Car -> bool, qp: Car -> bool)
    requires s == Filter(s0, q)
    requires !active ==> forall c :: p(c)
    requires forall c :: qp(c) == (q(c) && p(c))
    ensures FilterIf(s, active, p) == Filter(s0, qp)
  {
    FilterIfIsFilter(s, active, p);
    FilterFilter(s0, q, p, qp);
  }

  /** The sequence of filters equals one filter by the conjunction of all criteria. */
  lemma FilteredCarsIsConjunction(cars: seq<Car>, range: PriceRange, f: ActiveFilters)
    ensures FilteredCars(cars, range, f) == Filter(AvailableCars(cars), (c: Car) => PassesFilters(c, range, f))
  {
    var s0 := AvailableCars(cars);
    var q1 := (c: Car) => InPriceRange(c, range);
    var q2 := (c: Car) => InPriceRange(c, range) && SeatsOk(c, f);
    var q3 := (c: Car) => InPriceRange(c, range) && SeatsOk(c, f) && TransmissionOk(c, f);
    var q4 := (c: Car) => InPriceRange(c, range) && SeatsOk(c, f) && TransmissionOk(c, f) && AirOk(c, f);
    var q5 := (c: Car) => InPriceRange(c, range) && SeatsOk(c, f) && TransmissionOk(c, f) && AirOk(c, f)
      && DoorsOk(c, f);
    var q6 := (c: Car) => PassesFilters(c, range, f);
    var s1 := Filter(s0, q1);
    var s2 := FilterIf(s1, f.lugares.Some?, (c: Car) => SeatsOk(c, f));
    FilterStep(s0, s1, q1, f.lugares.Some?, (c: Car) => SeatsOk(c, f), q2);
    var s3 := FilterIf(s2, f.cambioAutomatico.Some?, (c: Car) => TransmissionOk(c, f));
    FilterStep(s0, s2, q2, f.cambioAutomatico.Some?, (c: Car) => TransmissionOk(c, f), q3);
    var s4 := FilterIf(s3, f.arCondicionado.Some?, (c: Car) => AirOk(c, f));
    FilterStep(s0, s3, q3, f.arCondicionado.Some?, (c: Car) => AirOk(c, f), q4);
    var s5 := FilterIf(s4, f.numeroPortas.Some?, (c: Car) => DoorsOk(c, f));
    FilterStep(s0, s4, q4, f.numeroPortas.Some?, (c: Car) => DoorsOk(c, f), q5);
    FilterStep(s0, s5, q5, f.nomeAgencia.Some? && |f.nomeAgencia.value| > 0, (c: Car) => AgencyOk(c, f), q6);
  }

  /** `filteredCars` keeps exactly the available cars that pass every active filter, in
      their original order. */
  lemma FilteredCarsSpec(cars: seq<Car>, range: PriceRange, f: ActiveFilters)
    ensures IsSubsequence(FilteredCars(cars, range, f), AvailableCars(cars))
    ensures forall c :: c in FilteredCars(cars, range, f) <==>
      c in cars && IsAvailable(c) && PassesFilters(c, range, f)
  {
    FilteredCarsIsConjunction(cars, range, f);
    FilterIsSubsequence(AvailableCars(cars), (c: Car) => PassesFilters(c, range, f));
  }

  // ---------------------------------------------------------------------------
  // toggleFilter and clearFilters

  /** The value types the source casts each filter value to. */
  predicate WellTyped(filter: CarFilter) {
    match filter.name
    case "lugares" => filter.value.Num?
    case "numeroPortas" => filter.value.Num?
    case "cambioAutomatico" => filter.value.Bool?
    case "arCondicionado" => filter.value.Bool?
    case "nomeAgencia" => filter.value.Str?
    case _ => true
  }

  /** Toggling a single-valued key: the active value is deleted, any other value replaces it. */
  function ToggleScalar<T(==)>(current: Option<T>, v: T): (r: Option<T>)
    ensures current == Some(v) ==> r.None?
    ensures current != Some(v) ==> r == Some(v)
  {
    if current == Some(v) then None else Some(v)
  }

  /** Toggling an agency: every copy is removed if present (deleting the key when nothing
      is left), otherwise it is appended. */
  function ToggleAgency(current: Option<seq<string>>, v: string): (r: Option<seq<string>>)
    ensures v in current.GetOr([]) ==> r.None? || (r.Some? && r.value != [] && v !in r.value)
    ensures v in current.GetOr([]) ==> forall x :: x != v ==> (x in current.GetOr([]) <==> r.Some? && x in r.value)
    ensures v !in current.GetOr([]) ==> r == Some(current.GetOr([]) + [v])
  {
    var list := current.GetOr([]);
    if v in list then
      var rest := Filter(list, (x: string) => x != v);
      if |rest| == 0 then None else Some(rest)
    else Some(list + [v])
  }

  function ToggleFilter(f: ActiveFilters, filter: CarFilter): (r: ActiveFilters)
    requires WellTyped(filter)
    ensures filter.name != "lugares" ==> r.lugares == f.lugares
    ensures filter.name != "cambioAutomatico" ==> r.cambioAutomatico == f.cambioAutomatico
    ensures filter.name != "arCondicionado" ==> r.arCondicionado == f.arCondicionado
    ensures filter.name != "numeroPortas" ==> r.numeroPortas == f.numeroPortas
    ensures filter.name != "nomeAgencia" ==> r.nomeAgencia == f.nomeAgencia
  {
    match filter.name
    case "lugares" => f.(lugares := ToggleScalar(f.lugares, filter.value.n))
    case "cambioAutomatico" => f.(cambioAutomatico := ToggleScalar(f.cambioAutomatico, filter.value.b))
    case "arCondicionado" => f.(arCondicionado := ToggleScalar(f.arCondicionado, filter.value.b))
    case "numeroPortas" => f.(numeroPortas := ToggleScalar(f.numeroPortas, filter.value.n))
    case "nomeAgencia" => f.(nomeAgencia := ToggleAgency(f.nomeAgencia, filter.value.s))
    case _ => f
  }

  /** The key a known filter name toggles is absent, or (for agencies) a non-empty list
      without the value: then toggling twice restores the filters. */
  predicate Restorable(f: ActiveFilters, filter: CarFilter)
    requires WellTyped(filter)
  {
    match filter.name
    case "lugares" => f.lugares.None? || f.lugares == Some(filter.value.n)
    case "cambioAutomatico" => f.cambioAutomatico.None? || f.cambioAutomatico == Some(filter.value.b)
    case "arCondicionado" => f.arCondicionado.None? || f.arCondicionado == Some(filter.value.b)
    case "numeroPortas" => f.numeroPortas.None? || f.numeroPortas == Some(filter.value.n)
    case "nomeAgencia" =>
      f.nomeAgencia.None? || (f.nomeAgencia.value != [] && filter.value.s !in f.nomeAgencia.value)
    case _ => true
  }

  lemma ToggleAgencyTwice(list: seq<string>, v: string)
    requires v !in list
    ensures Filter(list + [v], (x: string) => x != v) == list
  {
    var p := (x: string) => x != v;
    FilterAppend(list, [v], p);
    FilterAllPass(list, p);
    FilterNonePass([v], p);
  }

  /** Toggling the same filter twice restores the active filters whenever its key was
      absent, held the same value, or (for agencies) did not list it. */
  lemma ToggleTwiceRestores(f: ActiveFilters, filter: CarFilter)
    requires WellTyped(filter) && Restorable(f, filter)
    ensures ToggleFilter(ToggleFilter(f, filter), filter) == f
  {
    if filter.name == "nomeAgencia" {
      var v := filter.value.s;
      var list := f.nomeAgencia.GetOr([]);
      ToggleAgencyTwice(list, v);
      assert v in list + [v];
    }
  }

  /** The agency list is never left present but empty, and never holds a name twice. */
  predicate AgenciesNormal(f: ActiveFilters) {
    f.nomeAgencia.Some? ==>
      f.nomeAgencia.value != []
      && forall i, j :: 0 <= i < j < |f.nomeAgencia.value| ==> f.nomeAgencia.value[i] != f.nomeAgencia.value[j]
  }

  lemma {:induction false} FilterKeepsDistinct(s: seq<string>, p: string -> bool)
    requires forall i, j :: 0 <= i < j < |s| ==> s[i] != s[j]
    ensures forall i, j :: 0 <= i < j < |Filter(s, p)| ==> Filter(s, p)[i] != Filter(s, p)[j]
  {
    if s != [] {
      FilterKeepsDistinct(s[1..], p);
      assert forall i, j :: 0 <= i < j < |s[1..]| ==> s[1..][i] != s[1..][j];
      assert forall x :: x in Filter(s[1..], p) ==> x in s[1..];
      assert s[0] !in s[1..];
    }
  }

  lemma ToggleKeepsAgenciesNormal(f: ActiveFilters, filter: CarFilter)
    requires WellTyped(filter) && AgenciesNormal(f)
    ensures AgenciesNormal(ToggleFilter(f, filter))
  {
    if filter.name == "nomeAgencia" {
      var list := f.nomeAgencia.GetOr([]);
      var v := filter.value.s;
      if v in list {
        FilterKeepsDistinct(list, (x: string) => x != v);
      }
    }
  }

  /** `clearFilters`: no active filters and the initial price range. */
  function ClearFilters(s: FilterState, cars: seq<Car>): (r: FilterState)
    ensures r.active == NoFilters
    ensures r.priceRange == InitialPriceRange(cars)
  {
    FilterState(NoFilters, InitialPriceRange(cars))
  }

  /** After `clearFilters` every available car is shown again. */
  lemma ClearedFiltersShowAllCars(s: FilterState, cars: seq<Car>)
    ensures var r := ClearFilters(s, cars);
      FilteredCars(cars, r.priceRange, r.active) == AvailableCars(cars)
  {
    var r := ClearFilters(s, cars);
    FilteredCarsIsConjunction(cars, r.priceRange, r.active);
    var available := AvailableCars(cars);
    forall i | 0 <= i < |available|
      ensures PassesFilters(available[i], r.priceRange, r.active)
    {
      assert available[i] in available;
    }
    FilterAllPass(available, (c: Car) => PassesFilters(c, r.priceRange, r.active));
  }
}
