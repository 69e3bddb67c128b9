/** The state logic of the localization hook (src/hooks/useLocalization.ts): which rental
    companies are offered and under which names, the location search, and the rule that
    keeps the return after the pickup. Times are whole minutes. */
module UseLocalization {
  import opened Optional
  import opened Strings
  import Seqs
  import LocalizationService

  // ---- Rental companies ----

  /** A rental company as the API lists it. */
  datatype Agency = Agency(codigo: int, nome: Option<string>, nomeAgencia: Option<string>)

  /** The companies offered, lower-cased, in the order normalisation tries them. */
  const ALLOWED: seq<string> := ["movida", "unidas", "localiza", "foco"]

  /** `loc.nome || loc.nomeAgencia || ''`. */
  function AgencyName(a: Agency): (n: string)
    ensures Truthy(a.nome) ==> n == a.nome.value
    ensures !Truthy(a.nome) && Truthy(a.nomeAgencia) ==> n == a.nomeAgencia.value
    ensures !Truthy(a.nome) && !Truthy(a.nomeAgencia) ==> n == ""
  {
    if Truthy(a.nome) then a.nome.value else if Truthy(a.nomeAgencia) then a.nomeAgencia.value else ""
  }

  /** `nome.toLowerCase().trim()`. */
  function NameKey(a: Agency): string {
    Trim(ToLower(AgencyName(a)))
  }

  /** The name and an allowed company match when one contains the other (equality is
      the case of mutual containment). */
  predicate MatchesCompany(key: string, allowed: string) {
    key == allowed || Contains(key, allowed) || Contains(allowed, key)
  }

  /** The allowed-company filter. */
  predicate IsAllowed(a: Agency) {
    exists i :: 0 <= i < |ALLOWED| && MatchesCompany(NameKey(a), ALLOWED[i])
  }

  /** A company without a name is kept: the empty key is contained in every name. */
  lemma NamelessAgencyAllowed(a: Agency)
    requires AgencyName(a) == ""
    ensures IsAllowed(a)
  {
    assert NameKey(a) == "";
    ContainsEmpty(ALLOWED[0]);
  }

  /** The display name normalisation assigns: the first allowed company, in list order,
      whose name the key contains. */
  function CanonicalName(key: string): (r: Option<string>)
    ensures r.Some? <==> exists i :: 0 <= i < |ALLOWED| && Contains(key, ALLOWED[i])
    ensures r.Some? ==> r.value in CANONICAL_NAMES
    ensures Contains(key, "movida") ==> r == Some("Movida")
    ensures !Contains(key, "movida") && Contains(key, "unidas") ==> r == Some("Unidas")
    ensures !Contains(key, "movida") && !Contains(key, "unidas") && Contains(key, "localiza") ==> r == Some("Localiza")
    ensures !Contains(key, "movida") && !Contains(key, "unidas") && !Contains(key, "localiza") && Contains(key, "foco") ==>
      r == Some("Foco")
  {
    assert ALLOWED[0] == "movida" && ALLOWED[1] == "unidas" && ALLOWED[2] == "localiza" && ALLOWED[3] == "foco";
    if Contains(key, "movida") then Some("Movida")
    else if Contains(key, "unidas") then Some("Unidas")
    else if Contains(key, "localiza") then Some("Localiza")
    else if Contains(key, "foco") then Some("Foco")
    else None
  }

  /** Normalisation sets both names to the canonical one, or leaves the record alone. */
  function Normalise(a: Agency): (r: Agency)
    ensures r.codigo == a.codigo
    ensures CanonicalName(NameKey(a)).Some? ==>
      r.nome == r.nomeAgencia == CanonicalName(NameKey(a))
    ensures CanonicalName(NameKey(a)).None? ==> r == a
  {
    match CanonicalName(NameKey(a))
    case Some(n) => a.(nome := Some(n), nomeAgencia := Some(n))
    case None => a
  }

  function NormaliseAll(s: seq<Agency>): (r: seq<Agency>)
    ensures |r| == |s|
    ensures forall i :: 0 <= i < |s| ==> r[i] == Normalise(s[i])
  {
    seq(|s|, i requires 0 <= i < |s| => Normalise(s[i]))
  }

  /** The list offered when loading failed. */
  const FALLBACK_AGENCIES: seq<Agency> := [
    Agency(100, Some("Movida"), Some("Movida")),
    Agency(105, Some("Unidas"), Some("Unidas")),
    Agency(103, Some("Localiza"), Some("Localiza")),
    Agency(114, Some("Foco"), Some("Foco"))
  ]

  /** The companies the hook offers, given the API's list or `None` when the call
      failed. */
  function LoadAgencies(loaded: Option<seq<Agency>>): (r: seq<Agency>)
    ensures loaded.None? ==> r == FALLBACK_AGENCIES
    ensures loaded.Some? ==> r == NormaliseAll(Seqs.Filter(loaded.value, IsAllowed))
  {
    match loaded
    case None => FALLBACK_AGENCIES
    case Some(list) => NormaliseAll(Seqs.Filter(list, IsAllowed))
  }

  const CANONICAL_NAMES: seq<string> := ["Movida", "Unidas", "Localiza", "Foco"]

  /** Both names set to the same canonical company name. */
  predicate HasCanonicalName(a: Agency) {
    a.nome.Some? && a.nome == a.nomeAgencia && a.nome.value in CANONICAL_NAMES
  }

  /** A key that contains no allowed name but is part of one (a name like "Uni", or no
      name at all). */
  predicate IsPartialName(a: Agency) {
    CanonicalName(NameKey(a)).None? && exists i :: 0 <= i < |ALLOWED| && Contains(ALLOWED[i], NameKey(a))
  }

  /** An allowed company is either renamed to its canonical name or, when its key is only
      part of an allowed name, left as it was. */
  lemma NormaliseAllowed(b: Agency)
    requires IsAllowed(b)
    ensures HasCanonicalName(Normalise(b)) || (Normalise(b) == b && IsPartialName(b))
  {
    var key := NameKey(b);
    var i :| 0 <= i < |ALLOWED| && MatchesCompany(key, ALLOWED[i]);
    KeyCanonicalOrPartial(key, i);
  }

  lemma KeyCanonicalOrPartial(key: string, i: int)
    requires 0 <= i < |ALLOWED| && MatchesCompany(key, ALLOWED[i])
    ensures CanonicalName(key).Some? || Contains(ALLOWED[i], key)
  {
    if key == ALLOWED[i] {
      ContainsSelf(key);
    }
  }

  /** So not every offered company ends up under one of the four names: those whose key
      is only part of an allowed name pass the filter unchanged. */
  lemma LoadedAgenciesCanonicalOrPartial(list: seq<Agency>)
    ensures forall i :: 0 <= i < |LoadAgencies(Some(list))| ==>
      HasCanonicalName(LoadAgencies(Some(list))[i])
      || (LoadAgencies(Some(list))[i] in list && IsPartialName(LoadAgencies(Some(list))[i]))
  {
    var kept := Seqs.Filter(list, IsAllowed);
    var r := LoadAgencies(Some(list));
    forall i | 0 <= i < |r|
      ensures HasCanonicalName(r[i]) || (r[i] in list && IsPartialName(r[i]))
    {
      assert r[i] == Normalise(kept[i]);
      assert kept[i] in kept;
      NormaliseAllowed(kept[i]);
    }
  }

  /** A company with no name is one of them. */
  lemma NamelessAgencyKeptUnchanged(a: Agency)
    requires AgencyName(a) == ""
    ensures LoadAgencies(Some([a])) == [a]
  {
    NamelessAgencyPassesFilter(a);
    NamelessAgencyNotRenamed(a);
  }

  lemma NamelessAgencyPassesFilter(a: Agency)
    requires AgencyName(a) == ""
    ensures Seqs.Filter([a], IsAllowed) == [a]
  {
    NamelessAgencyAllowed(a);
    Seqs.FilterAllPass([a], IsAllowed);
  }

  lemma NamelessAgencyNotRenamed(a: Agency)
    requires AgencyName(a) == ""
    ensures NormaliseAll([a]) == [a]
  {
    assert NameKey(a) == "";
    EmptyKeyNotCanonical();
    assert Normalise(a) == a;
  }

  lemma EmptyKeyNotCanonical()
    ensures CanonicalName("").None?
  {
    assert forall i :: 0 <= i < |ALLOWED| ==> |ALLOWED[i]| > 0;
  }

  /** The failure fallback offers the four companies under codes 100, 105, 103 and 114,
      and each is already normal. */
  lemma FallbackIsNormal()
    ensures forall i :: 0 <= i < |FALLBACK_AGENCIES| ==> FALLBACK_AGENCIES[i].nome == FALLBACK_AGENCIES[i].nomeAgencia
    ensures [FALLBACK_AGENCIES[0].codigo, FALLBACK_AGENCIES[1].codigo, FALLBACK_AGENCIES[2].codigo, FALLBACK_AGENCIES[3].codigo]
         == [100, 105, 103, 114]
  {
  }

  // ---- Location search ----

  /** The hook's location lists and error message. */
  datatype Locations = Locations(
    airports: seq<LocalizationService.LocationPlace>,
    cities: seq<LocalizationService.LocationPlace>,
    districts: seq<LocalizationService.LocationPlace>,
    stores: seq<LocalizationService.LocationPlace>,
    error: Option<string>)

  const NO_LOCATIONS: Locations := Locations([], [], [], [], None)

  /** One API error as text: its message, else `Erro <code>`, else `Erro desconhecido`. */
  function ErrorText(e: LocalizationService.ApiError): (t: string)
    ensures |t| > 0
    ensures Truthy(e.message) ==> t == e.message.value
    ensures !Truthy(e.message) && Truthy(e.code) ==> t == "Erro " + e.code.value
    ensures !Truthy(e.message) && !Truthy(e.code) ==> t == "Erro desconhecido"
  {
    if Truthy(e.message) then e.message.value
    else "Erro " + (if Truthy(e.code) then e.code.value else "desconhecido")
  }

  function ErrorTexts(errors: seq<LocalizationService.ApiError>): (r: seq<string>)
    ensures |r| == |errors|
    ensures forall i :: 0 <= i < |errors| ==> r[i] == ErrorText(errors[i])
  {
    seq(|errors|, i requires 0 <= i < |errors| => ErrorText(errors[i]))
  }

  /** The aggregated message: the texts joined with `; `. */
  function ErrorMessage(errors: seq<LocalizationService.ApiError>): string {
    Join(ErrorTexts(errors), "; ")
  }

  /** Adding errors appends their texts after one more separator. */
  lemma ErrorMessageAppend(a: seq<LocalizationService.ApiError>, b: seq<LocalizationService.ApiError>)
    requires |a| > 0 && |b| > 0
    ensures ErrorMessage(a + b) == ErrorMessage(a) + "; " + ErrorMessage(b)
  {
    assert ErrorTexts(a + b) == ErrorTexts(a) + ErrorTexts(b);
    JoinAppend(ErrorTexts(a), ErrorTexts(b), "; ");
  }

  lemma ErrorMessageSingle(e: LocalizationService.ApiError)
    ensures ErrorMessage([e]) == ErrorText(e)
  {
    assert ErrorTexts([e]) == [ErrorText(e)];
  }

  /** Every store found counts as one store. */
  function MarkSingleStores(stores: seq<LocalizationService.LocationPlace>): (r: seq<LocalizationService.LocationPlace>)
    ensures |r| == |stores|
    ensures forall i :: 0 <= i < |stores| ==> r[i] == stores[i].(qtLojas := 1)
  {
    seq(|stores|, i requires 0 <= i < |stores| => stores[i].(qtLojas := 1))
  }

  /** `searchLocations`, with the API call as the parameter `api`: a search shorter than
      three characters clears the lists and the error without asking the service;
      otherwise the service's lists, every store counted once, with the joined error
      messages when the answer carries errors. */
  function SearchLocations(search: string, agencyCode: Option<int>, selectedLocadoras: seq<string>,
                           api: LocalizationService.LocationsRequest -> LocalizationService.LocationsResponse): (r: Locations)
    ensures |search| < 3 ==> r == NO_LOCATIONS
    ensures |search| >= 3 ==>
      var req := LocalizationService.LocationsRequestFor(search, agencyCode,
                   if |selectedLocadoras| > 0 then Some(selectedLocadoras) else None);
      && req.locadoras == (if |selectedLocadoras| > 0 then Some(selectedLocadoras) else None)
      && r.airports == api(req).dados.aeroportos
      && r.cities == api(req).dados.cidades
      && r.districts == api(req).dados.bairro
      && |r.stores| == |api(req).dados.todasLojas|
      && (forall i :: 0 <= i < |r.stores| ==> r.stores[i] == api(req).dados.todasLojas[i].(qtLojas := 1))
      && (r.error.Some? <==> api(req).errors.Some? && |api(req).errors.value| > 0)
      && (r.error.Some? ==> r.error == Some(ErrorMessage(api(req).errors.value)))
  {
    if |search| < 3 then NO_LOCATIONS
    else
      var locs := if |selectedLocadoras| > 0 then Some(selectedLocadoras) else None;
      var result := LocalizationService.GetLocations(search, agencyCode, locs, api);
      Locations(result.dados.aeroportos, result.dados.cidades, result.dados.bairro,
                MarkSingleStores(result.dados.todasLojas),
                if result.errors.Some? then Some(ErrorMessage(result.errors.value)) else None)
  }

  /** The hook is a thin layer over `getLocations`: whatever the search, it asks the
      service with the selected agencies exactly when some are selected (and then
      exactly those), the request never carries agency code 0, and the hook's lists,
      store count and error presence are the service's. */
  lemma SearchLocationsUsesService(search: string, agencyCode: Option<int>, selectedLocadoras: seq<string>,
                                      api: LocalizationService.LocationsRequest -> LocalizationService.LocationsResponse)
    ensures var locs := if |selectedLocadoras| > 0 then Some(selectedLocadoras) else None;
      var req := LocalizationService.LocationsRequestFor(search, agencyCode, locs);
      var res := LocalizationService.GetLocations(search, agencyCode, locs, api);
      var r := SearchLocations(search, agencyCode, selectedLocadoras, api);
      && (req.locadoras.Some? <==> |selectedLocadoras| > 0)
      && (req.locadoras.Some? ==> req.locadoras.value == selectedLocadoras)
      && req.codAgencia != 0
      && r.airports == res.dados.aeroportos
      && r.cities == res.dados.cidades
      && r.districts == res.dados.bairro
      && |r.stores| == |res.dados.todasLojas|
      && (r.error.Some? <==> res.errors.Some?)
  {
  }

  // ---- Dates ----

  const MINUTES_PER_HOUR := 60
  const MINUTES_PER_DAY := 1440

  /** dayjs `diff` in whole units, truncated toward zero. */
  function DiffIn(later: int, earlier: int, unit: int): (q: int)
    requires unit > 0
    ensures later - earlier >= 0 ==> q * unit <= later - earlier < (q + 1) * unit
    ensures later - earlier < 0 ==> (q - 1) * unit < later - earlier <= q * unit
  {
    var d := later - earlier;
    if d >= 0 then d / unit else -((-d) / unit)
  }

  /** `handleRetrieveDateChange`, given the combined new date and current hour: the
      return stays there when it is at least one whole hour after pickup, otherwise it
      moves to one day after pickup. */
  function RetrieveAfterDateChange(combined: int, pickup: int): (r: int)
    ensures DiffIn(combined, pickup, MINUTES_PER_HOUR) > 0 ==> r == combined
    ensures DiffIn(combined, pickup, MINUTES_PER_HOUR) <= 0 ==> r == pickup + MINUTES_PER_DAY
  {
    if DiffIn(combined, pickup, MINUTES_PER_HOUR) <= 0 then pickup + MINUTES_PER_DAY else combined
  }

  /** So the return ends up at least an hour after pickup, and the chosen time is kept
      exactly when it already was. */
  lemma RetrieveDateChangeKeepsOrder(combined: int, pickup: int)
    ensures RetrieveAfterDateChange(combined, pickup) >= pickup + MINUTES_PER_HOUR
    ensures RetrieveAfterDateChange(combined, pickup) == combined <==>
      combined - pickup >= MINUTES_PER_HOUR || combined == pickup + MINUTES_PER_DAY
  {
    var d := combined - pickup;
    var q := DiffIn(combined, pickup, MINUTES_PER_HOUR);
    assert d < 0 ==> q <= 0;
    assert d >= MINUTES_PER_HOUR ==> q >= 1;
    assert d >= 0 && q >= 1 ==> d >= MINUTES_PER_HOUR;
  }

  /** `handleRetrieveHourChange`: a return on an earlier day moves to one day after
      pickup; on the same day, one that is not a whole hour later moves to one hour
      after pickup; otherwise it stays. */
  function RetrieveAfterHourChange(combined: int, pickup: int): (r: int)
    ensures DiffIn(combined, pickup, MINUTES_PER_DAY) < 0 ==> r == pickup + MINUTES_PER_DAY
    ensures DiffIn(combined, pickup, MINUTES_PER_DAY) > 0 ==> r == combined
    ensures DiffIn(combined, pickup, MINUTES_PER_DAY) == 0 ==>
      r == (if DiffIn(combined, pickup, MINUTES_PER_HOUR) <= 0 then pickup + MINUTES_PER_HOUR else combined)
  {
    var days := DiffIn(combined, pickup, MINUTES_PER_DAY);
    if days < 0 then pickup + MINUTES_PER_DAY
    else if days == 0 then
      if DiffIn(combined, pickup, MINUTES_PER_HOUR) <= 0 then pickup + MINUTES_PER_HOUR else combined
    else combined
  }

  /** In plain minutes: a return a whole day or more before pickup moves to one day
      after it, one less than a day before and less than an hour after moves to one
      hour after it, and any later one is kept. */
  lemma RetrieveHourChangeKeepsOrder(combined: int, pickup: int)
    ensures RetrieveAfterHourChange(combined, pickup) >= pickup + MINUTES_PER_HOUR
    ensures combined - pickup >= MINUTES_PER_HOUR ==> RetrieveAfterHourChange(combined, pickup) == combined
    ensures combined - pickup <= -MINUTES_PER_DAY ==> RetrieveAfterHourChange(combined, pickup) == pickup + MINUTES_PER_DAY
    ensures -MINUTES_PER_DAY < combined - pickup < MINUTES_PER_HOUR ==>
      RetrieveAfterHourChange(combined, pickup) == pickup + MINUTES_PER_HOUR
  {
    var d := combined - pickup;
    var h := DiffIn(combined, pickup, MINUTES_PER_HOUR);
    var days := DiffIn(combined, pickup, MINUTES_PER_DAY);
    assert d < 0 ==> h <= 0 && days <= 0;
    assert d >= MINUTES_PER_HOUR ==> h >= 1 && days >= 0;
    assert d >= 0 && h >= 1 ==> d >= MINUTES_PER_HOUR;
    assert d >= 0 ==> days >= 0;
    assert days > 0 ==> d >= MINUTES_PER_DAY;
  }

  // ---- Pickup date and hour ----
  // Times are minutes on a local time line whose minute 0 is a midnight; daylight
  // saving shifts are not modelled.

  /** The day of `date` at the hour and minute of `time`, seconds dropped. */
  function CombineDayAndTime(date: int, time: int): (t: int)
    ensures t / MINUTES_PER_DAY == date / MINUTES_PER_DAY
    ensures t % MINUTES_PER_DAY == time % MINUTES_PER_DAY
  {
    date - date % MINUTES_PER_DAY + time % MINUTES_PER_DAY
  }

  /** dayjs `t.add(1, 'day').hour(10).minute(0)`: ten o'clock on the following day. */
  function NextDayAtTen(t: int): (r: int)
    ensures r / MINUTES_PER_DAY == t / MINUTES_PER_DAY + 1
    ensures r % MINUTES_PER_DAY == 10 * MINUTES_PER_HOUR
    ensures t + 10 * MINUTES_PER_HOUR < r <= t + MINUTES_PER_DAY + 10 * MINUTES_PER_HOUR
  {
    t - t % MINUTES_PER_DAY + MINUTES_PER_DAY + 10 * MINUTES_PER_HOUR
  }

  /** What a change of the pickup date or hour writes back: the pickup date and hour
      (set to the same instant), the return date and hour (likewise) and the earliest
      return the picker offers. */
  datatype PickupUpdate = PickupUpdate(pickup: int, retrieve: int, minRetrieve: int)

  /** A pickup before the earliest allowed one is replaced by it. */
  function ClampPickup(combined: int, minGetCar: int): (p: int)
    ensures p >= minGetCar && p >= combined
    ensures p == combined <==> combined >= minGetCar
    ensures p != combined ==> p == minGetCar
  {
    if combined < minGetCar then minGetCar else combined
  }

  /** The return after `handleGetCarDateChange`, measured against the unclamped combined
      pickup: one on an earlier day moves to ten o'clock on the day after pickup; on the
      same day, one that is not a whole hour later moves to one hour after pickup;
      otherwise it stays. */
  function RetrieveAfterPickupDateChange(combined: int, retrieve: int): (r: int)
    ensures DiffIn(retrieve, combined, MINUTES_PER_DAY) < 0 ==> r == NextDayAtTen(combined)
    ensures DiffIn(retrieve, combined, MINUTES_PER_DAY) > 0 ==> r == retrieve
    ensures DiffIn(retrieve, combined, MINUTES_PER_DAY) == 0 ==>
      r == (if DiffIn(retrieve, combined, MINUTES_PER_HOUR) <= 0 then combined + MINUTES_PER_HOUR else retrieve)
  {
    var days := DiffIn(retrieve, combined, MINUTES_PER_DAY);
    if days < 0 then NextDayAtTen(combined)
    else if days == 0 then
      if DiffIn(retrieve, combined, MINUTES_PER_HOUR) <= 0 then combined + MINUTES_PER_HOUR else retrieve
    else retrieve
  }

  /** The return after `handleGetCarHourChange`: one that is not a whole hour after the
      combined pickup moves to one day after it; otherwise it stays. */
  function RetrieveAfterPickupHourChange(combined: int, retrieve: int): (r: int)
    ensures DiffIn(retrieve, combined, MINUTES_PER_HOUR) <= 0 ==> r == combined + MINUTES_PER_DAY
    ensures DiffIn(retrieve, combined, MINUTES_PER_HOUR) > 0 ==> r == retrieve
  {
    if DiffIn(retrieve, combined, MINUTES_PER_HOUR) <= 0 then combined + MINUTES_PER_DAY else retrieve
  }

  /** `handleGetCarDateChange`: the picked day at the current pickup hour. The pickup
      never precedes the allowed minimum, the return never precedes the earliest return
      offered, and the old return is kept exactly when it already satisfied that. */
  function OnPickupDateChange(date: int, getCarHour: int, minGetCar: int, retrieveDate: int): (u: PickupUpdate)
    ensures u.pickup == ClampPickup(CombineDayAndTime(date, getCarHour), minGetCar)
    ensures u.retrieve == RetrieveAfterPickupDateChange(CombineDayAndTime(date, getCarHour), retrieveDate)
    ensures u.minRetrieve == CombineDayAndTime(date, getCarHour) + MINUTES_PER_HOUR
    ensures u.pickup >= minGetCar
    ensures u.retrieve >= u.minRetrieve
    ensures u.retrieve == retrieveDate <==> retrieveDate >= u.minRetrieve
  {
    var combined := CombineDayAndTime(date, getCarHour);
    PickupDateChangeKeepsOrder(combined, retrieveDate);
    PickupUpdate(ClampPickup(combined, minGetCar), RetrieveAfterPickupDateChange(combined, retrieveDate),
                 combined + MINUTES_PER_HOUR)
  }

  /** `handleGetCarHourChange`: the current pickup day at the picked hour, with the same
      guarantees. */
  function OnPickupHourChange(hour: int, getCarDate: int, minGetCar: int, retrieveHour: int): (u: PickupUpdate)
    ensures u.pickup == ClampPickup(CombineDayAndTime(getCarDate, hour), minGetCar)
    ensures u.retrieve == RetrieveAfterPickupHourChange(CombineDayAndTime(getCarDate, hour), retrieveHour)
    ensures u.minRetrieve == CombineDayAndTime(getCarDate, hour) + MINUTES_PER_HOUR
    ensures u.pickup >= minGetCar
    ensures u.retrieve >= u.minRetrieve
    ensures u.retrieve == retrieveHour <==> retrieveHour >= u.minRetrieve
  {
    var combined := CombineDayAndTime(getCarDate, hour);
    PickupHourChangeKeepsOrder(combined, retrieveHour);
    PickupUpdate(ClampPickup(combined, minGetCar), RetrieveAfterPickupHourChange(combined, retrieveHour),
                 combined + MINUTES_PER_HOUR)
  }

  /** After a pickup date change the return is at least an hour after the combined
      pickup, and the old return is kept exactly when it already was. */
  lemma PickupDateChangeKeepsOrder(combined: int, retrieve: int)
    ensures RetrieveAfterPickupDateChange(combined, retrieve) >= combined + MINUTES_PER_HOUR
    ensures RetrieveAfterPickupDateChange(combined, retrieve) == retrieve <==>
      retrieve - combined >= MINUTES_PER_HOUR
  {
    var d := retrieve - combined;
    var h := DiffIn(retrieve, combined, MINUTES_PER_HOUR);
    var days := DiffIn(retrieve, combined, MINUTES_PER_DAY);
    assert d >= MINUTES_PER_HOUR ==> h >= 1 && days >= 0;
    assert d < MINUTES_PER_HOUR ==> h <= 0;
    assert d <= -MINUTES_PER_DAY <==> days < 0;
  }

  /** The same for a pickup hour change. */
  lemma PickupHourChangeKeepsOrder(combined: int, retrieve: int)
    ensures RetrieveAfterPickupHourChange(combined, retrieve) >= combined + MINUTES_PER_HOUR
    ensures RetrieveAfterPickupHourChange(combined, retrieve) == retrieve <==>
      retrieve - combined >= MINUTES_PER_HOUR
  {
    var d := retrieve - combined;
    var h := DiffIn(retrieve, combined, MINUTES_PER_HOUR);
    assert d >= MINUTES_PER_HOUR ==> h >= 1;
    assert d < MINUTES_PER_HOUR ==> h <= 0;
  }

  /** The return check uses the unclamped pickup, so a return an hour after a pickup
      that was too early survives while the pickup itself moves past it. */
  lemma ClampedPickupCanPassReturn()
    ensures var u := OnPickupDateChange(0, 0, 1000, 100);
      u.pickup == 1000 && u.retrieve == 100 && u.retrieve < u.pickup
  {
  }
}
