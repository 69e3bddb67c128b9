/** The first step of the booking (src/components/LocalizationForm.tsx): when the
    kilometre-franchise choice is shown, when the form may be submitted, and the
    availability request it builds. Times are whole minutes since some epoch; calendar
    formatting is not modelled. */
module LocalizationForm {
  import opened Optional
  import LocalizationService

  type Partner = LocalizationService.Partner
  type LocationPlace = LocalizationService.LocationPlace

  const MINUTES_PER_DAY := 1440

  /** Integer division truncating toward zero, as dayjs rounds a `diff`. */
  function TruncDiv(a: int, b: int): (q: int)
    requires b > 0
    ensures a >= 0 ==> q * b <= a < (q + 1) * b
    ensures a < 0 ==> (q - 1) * b < a <= q * b
  {
    if a >= 0 then a / b else -((-a) / b)
  }

  /** `dayjs(later).diff(dayjs(earlier), 'days')`: whole days between the two instants. */
  function DayDiff(later: int, earlier: int): int {
    TruncDiv(later - earlier, MINUTES_PER_DAY)
  }

  /** Partner codes whose rentals always offer a kilometre franchise: Movida Cargo, 99
      Moover, Uber Moover, 99 Movida, Uber Movida. */
  const FRANCHISE_PARTNER_CODES: seq<string> := ["6788075", "6788009", "6788053", "1829626", "971697"]

  /** `canShowFranchise`: with a partner, whether its code is listed; without one,
      whether the rental lasts 30 days or more. */
  function CanShowFranchise(partner: Option<Partner>, pickupDate: int, retrieveDate: int): (show: bool)
    ensures partner.Some? ==> (show <==> partner.value.codigo in FRANCHISE_PARTNER_CODES)
    ensures partner.None? ==> (show <==> DayDiff(retrieveDate, pickupDate) >= 30)
  {
    if partner.Some? then partner.value.codigo in FRANCHISE_PARTNER_CODES
    else DayDiff(retrieveDate, pickupDate) >= 30
  }

  /** Without a partner, the franchise shows exactly when the return is at least 30 full
      days (43 200 minutes) after pickup; a return before pickup never shows it. */
  lemma FranchiseNeedsThirtyDays(pickupDate: int, retrieveDate: int)
    ensures CanShowFranchise(None, pickupDate, retrieveDate) <==> retrieveDate - pickupDate >= 30 * MINUTES_PER_DAY
  {
    var d := retrieveDate - pickupDate;
    var q := TruncDiv(d, MINUTES_PER_DAY);
    if d >= 30 * MINUTES_PER_DAY {
      assert q < 30 ==> (q + 1) * MINUTES_PER_DAY <= 30 * MINUTES_PER_DAY;
    }
    if q >= 30 {
      assert d < 0 ==> q <= 0;
      assert q * MINUTES_PER_DAY >= 30 * MINUTES_PER_DAY;
    }
  }

  /** A partner decides alone: the dates do not matter. */
  lemma PartnerIgnoresDates(p: Partner, a: int, b: int, c: int, d: int)
    ensures CanShowFranchise(Some(p), a, b) == CanShowFranchise(Some(p), c, d)
  {
  }

  /** The form's selections. */
  datatype Form = Form(
    selectedPartner: Option<Partner>,
    getCarPlace: Option<LocationPlace>,
    retrievePlace: Option<LocationPlace>,
    showRetrieve: bool,
    selectedFranchiseKm: Option<Partner>,
    coupon: string,
    getCarDate: int,
    retrieveDate: int)

  predicate ShowsFranchise(f: Form) {
    CanShowFranchise(f.selectedPartner, f.getCarDate, f.retrieveDate)
  }

  /** `isFormValid`. */
  function IsFormValid(f: Form): (ok: bool)
    ensures ok <==>
      && f.getCarPlace.Some?
      && (f.showRetrieve ==> f.retrievePlace.Some?)
      && (ShowsFranchise(f) ==> f.selectedFranchiseKm.Some?)
  {
    if f.getCarPlace.None? then false
    else if f.showRetrieve && f.retrievePlace.None? then false
    else if ShowsFranchise(f) && f.selectedFranchiseKm.None? then false
    else true
  }

  /** The return place: the chosen one when returning elsewhere, else the pickup place. */
  function FinalRetrievePlace(f: Form): (p: Option<LocationPlace>)
    ensures f.showRetrieve ==> p == f.retrievePlace
    ensures !f.showRetrieve ==> p == f.getCarPlace
  {
    if f.showRetrieve then f.retrievePlace else f.getCarPlace
  }

  /** The stores sent for a place: its store list when it has one (even an empty one),
      else its code alone. */
  function StoreCodes(p: LocationPlace): (r: seq<string>)
    ensures p.lojas.Some? ==> r == p.lojas.value
    ensures p.lojas.None? ==> |r| == 1 && r[0] == p.sigla.GetOr("")
  {
    p.lojas.GetOr([p.sigla.GetOr("")])
  }

  /** The rates sent: the partner first, if any, then the franchise when it is shown and
      chosen. */
  function Tarifas(f: Form): (t: seq<Partner>)
    ensures |t| <= 2
    ensures f.selectedPartner.Some? ==> |t| >= 1 && t[0] == f.selectedPartner.value
    ensures !ShowsFranchise(f) ==> t == (if f.selectedPartner.Some? then [f.selectedPartner.value] else [])
    ensures |t| == (if f.selectedPartner.Some? then 1 else 0)
                 + (if ShowsFranchise(f) && f.selectedFranchiseKm.Some? then 1 else 0)
    ensures ShowsFranchise(f) && f.selectedFranchiseKm.Some? ==> t[|t| - 1] == f.selectedFranchiseKm.value
  {
    var withPartner := if f.selectedPartner.Some? then [f.selectedPartner.value] else [];
    if ShowsFranchise(f) && f.selectedFranchiseKm.Some? then withPartner + [f.selectedFranchiseKm.value]
    else withPartner
  }

  /** The signed-in user's fields the form reads: a protocol and a rental-company id,
      each possibly absent. */
  datatype User = User(protocolo: Option<string>, idCarrental: Option<int>)

  /** The protocol: the one passed in when non-empty, else the user's. */
  function ProtocolToUse(protocolo: Option<string>, user: Option<User>): (r: Option<string>)
    ensures Truthy(protocolo) ==> r == protocolo
    ensures !Truthy(protocolo) && user.Some? ==> r == user.value.protocolo
    ensures !Truthy(protocolo) && user.None? ==> r.None?
  {
    if Truthy(protocolo) then protocolo
    else if user.Some? then user.value.protocolo
    else None
  }

  /** The agency code: the one passed in when non-zero, else the user's rental company,
      else 100. */
  function AgencyCodeToUse(agencyCode: int, user: Option<User>): (code: int)
    ensures code != 0
    ensures agencyCode != 0 ==> code == agencyCode
    ensures agencyCode == 0 && user.Some? && OrElseInt(user.value.idCarrental, 0) != 0 ==>
      code == user.value.idCarrental.value
    ensures agencyCode == 0 && (user.None? || OrElseInt(user.value.idCarrental, 0) == 0) ==> code == 100
  {
    var fromUser := if user.Some? then (if user.value.idCarrental.Some? then user.value.idCarrental.value else 0) else 100;
    OrElseInt(Some(agencyCode), OrElseInt(Some(fromUser), 100))
  }

  /** The availability request. */
  datatype AvailabilityRequest = AvailabilityRequest(
    codCupom: Option<string>,
    devolverNoMesmoLocalRetirada: bool,
    locaisDevolucao: seq<string>,
    locaisRetirada: seq<string>,
    protocolo: string,
    franquiaKM: Option<Partner>,
    tarifas: seq<Partner>,
    parceria: Option<Partner>)

  datatype SubmitOutcome =
    | Incomplete
    | MissingPlaces
    | MissingProtocol
    | Send(agencyCode: int, request: AvailabilityRequest)

  /** `handleSubmit` up to the availability call. */
  function Submit(f: Form, protocolo: Option<string>, agencyCode: int, user: Option<User>): (r: SubmitOutcome)
    ensures r == Incomplete <==> !IsFormValid(f)
    ensures r == MissingProtocol <==> IsFormValid(f) && !Truthy(ProtocolToUse(protocolo, user))
    ensures r.Send? ==>
      && r.agencyCode == AgencyCodeToUse(agencyCode, user)
      && r.request.protocolo != ""
      && r.request.protocolo == ProtocolToUse(protocolo, user).value
      && r.request.devolverNoMesmoLocalRetirada == !f.showRetrieve
      && r.request.locaisRetirada == StoreCodes(f.getCarPlace.value)
      && r.request.locaisDevolucao == StoreCodes(FinalRetrievePlace(f).value)
      && r.request.tarifas == Tarifas(f)
      && r.request.parceria == f.selectedPartner
      && r.request.franquiaKM == f.selectedFranchiseKm
      && (r.request.codCupom.Some? <==> f.coupon != "")
      && (f.coupon != "" ==> r.request.codCupom == Some(f.coupon))
  {
    if !IsFormValid(f) then Incomplete
    else
      var retrieve := FinalRetrievePlace(f);
      if retrieve.None? || f.getCarPlace.None? then MissingPlaces
      else
        var p := ProtocolToUse(protocolo, user);
        if !Truthy(p) then MissingProtocol
        else
          Send(AgencyCodeToUse(agencyCode, user),
               AvailabilityRequest(
                 if f.coupon != "" then Some(f.coupon) else None,
                 !f.showRetrieve,
                 StoreCodes(retrieve.value),
                 StoreCodes(f.getCarPlace.value),
                 p.value,
                 f.selectedFranchiseKm,
                 Tarifas(f),
                 f.selectedPartner))
  }

  /** After validation the places are always there: the "places not selected" error is
      never raised. */
  lemma ValidFormHasPlaces(f: Form, protocolo: Option<string>, agencyCode: int, user: Option<User>)
    ensures Submit(f, protocolo, agencyCode, user) != MissingPlaces
  {
  }

  /** Returning at the pickup place sends the pickup stores as the return stores. */
  lemma SamePlaceReturn(f: Form, protocolo: Option<string>, agencyCode: int, user: Option<User>)
    requires !f.showRetrieve
    requires Submit(f, protocolo, agencyCode, user).Send?
    ensures Submit(f, protocolo, agencyCode, user).request.locaisDevolucao
         == Submit(f, protocolo, agencyCode, user).request.locaisRetirada
    ensures Submit(f, protocolo, agencyCode, user).request.devolverNoMesmoLocalRetirada
  {
  }
}
