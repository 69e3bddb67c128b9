/** The personal-data step of the booking (src/components/PersonalDataPage.tsx): phone
    validation, splitting a stored customer phone into its country code and local part,
    the foreigner toggle, form validity and the customer record it submits. */
module PersonalData {
  import opened Optional
  import opened Strings
  import Seqs
  import CpfMask
  import CpfValidator
  import PhoneMask
  import DdiList
  import FormatBooking
  import Sorting

  /** Nine-digit prefixes `validatePhone` rejects: one digit from 0 to 8 repeated. */
  const INVALID_PATTERNS: seq<string> := [
    "000000000", "111111111", "222222222", "333333333", "444444444",
    "555555555", "666666666", "777777777", "888888888"
  ]

  /** `validatePhone`: at least ten digits whose first nine are not in the rejected list. */
  function ValidPhone(phone: string): (valid: bool)
    ensures valid ==> |phone| >= 10
    ensures valid <==>
      |PhoneMask.CleanPhone(phone)| >= 10 && !RepeatsDigitBelowNine(PhoneMask.CleanPhone(phone)[..9])
  {
    var cleaned := PhoneMask.CleanPhone(phone);
    |cleaned| >= 10 && (PatternsAreRepeats(cleaned[..9]); cleaned[..9] !in INVALID_PATTERNS)
  }

  /** The rejected prefixes, described: nine copies of one digit other than 9. */
  predicate RepeatsDigitBelowNine(s: string) {
    |s| == 9 && '0' <= s[0] <= '8' && forall i :: 0 <= i < 9 ==> s[i] == s[0]
  }

  lemma PatternsAreRepeats(s: string)
    requires |s| == 9
    ensures s in INVALID_PATTERNS <==> RepeatsDigitBelowNine(s)
  {
    if RepeatsDigitBelowNine(s) {
      var c := s[0];
      assert s == [c, c, c, c, c, c, c, c, c];
    }
  }

  /** A phone is valid exactly when it has ten or more digits and its first nine digits
      are not one digit from 0 to 8 repeated; nine 9s are accepted. */
  lemma ValidPhoneCharacterised(phone: string)
    ensures ValidPhone(phone) <==>
      var d := Digits(phone);
      |d| >= 10 && !RepeatsDigitBelowNine(d[..9])
  {
    var d := Digits(phone);
    if |d| >= 10 {
      PatternsAreRepeats(d[..9]);
    }
  }

  /** Only the digits matter, so the submit path's second cleaning and the mask change
      nothing. */
  lemma ValidPhoneIgnoresFormatting(phone: string)
    ensures ValidPhone(PhoneMask.CleanPhone(phone)) == ValidPhone(phone)
    ensures |Digits(phone)| <= 11 ==> ValidPhone(PhoneMask.FormatPhoneBr(phone)) == ValidPhone(phone)
  {
    DigitsOfDigits(Digits(phone));
    PhoneMask.FormatPhoneBrRoundTrip(phone);
    if |Digits(phone)| <= 11 {
      assert Seqs.Take(Digits(phone), 11) == Digits(phone);
    }
  }

  // ---- The country code of a stored phone ----

  /** `SORTED_DDI_LIST.find(ddi => phone.startsWith(ddi.fone))`. */
  function FindDdi(list: seq<DdiList.DdiOption>, phone: string): (r: Option<DdiList.DdiOption>)
    ensures r.Some? ==> r.value in list && r.value.fone <= phone
    ensures r.None? <==> forall i :: 0 <= i < |list| ==> !(list[i].fone <= phone)
    ensures r.Some? ==> exists i :: 0 <= i < |list| && list[i] == r.value
                                    && forall j :: 0 <= j < i ==> !(list[j].fone <= phone)
  {
    if list == [] then None
    else if list[0].fone <= phone then Some(list[0])
    else
      var r := FindDdi(list[1..], phone);
      if r.Some? then
        var i :| 0 <= i < |list[1..]| && list[1..][i] == r.value
                 && forall j :: 0 <= j < i ==> !(list[1..][j].fone <= phone);
        assert list[i + 1] == r.value;
        assert forall j :: 0 <= j < i + 1 ==> !(list[j].fone <= phone) by {
          forall j | 0 <= j < i + 1 ensures !(list[j].fone <= phone) {
            if j > 0 { assert list[j] == list[1..][j - 1]; }
          }
        }
        r
      else
        assert forall i :: 0 <= i < |list| ==> !(list[i].fone <= phone) by {
          forall i | 0 <= i < |list| ensures !(list[i].fone <= phone) {
            if i > 0 { assert list[i] == list[1..][i - 1]; }
          }
        }
        r
  }

  /** With distinct four-digit codes at most one code is a prefix of a phone: the one
      equal to its first four characters. */
  lemma PrefixCodeUnique(list: seq<DdiList.DdiOption>, phone: string, i: int, j: int)
    requires DdiList.FonesFourDigit(list) && DdiList.FonesDistinct(list)
    requires 0 <= i < |list| && 0 <= j < |list|
    requires list[i].fone <= phone && list[j].fone <= phone
    ensures i == j
  {
    assert list[i].fone == phone[..4] == list[j].fone;
  }

  /** So the order of the list does not matter: any two arrangements of the same codes
      find the same entry. */
  lemma FindDdiIgnoresOrder(a: seq<DdiList.DdiOption>, b: seq<DdiList.DdiOption>, phone: string)
    requires DdiList.FonesFourDigit(a) && DdiList.FonesDistinct(a)
    requires multiset(a) == multiset(b)
    ensures FindDdi(a, phone) == FindDdi(b, phone)
  {
    var ra, rb := FindDdi(a, phone), FindDdi(b, phone);
    if ra.Some? {
      assert ra.value in multiset(b);
      var k :| 0 <= k < |b| && b[k] == ra.value;
      assert rb.Some?;
    }
    if rb.Some? {
      assert rb.value in multiset(a);
      assert ra.Some?;
      var i :| 0 <= i < |a| && a[i] == ra.value;
      var j :| 0 <= j < |a| && a[j] == rb.value;
      PrefixCodeUnique(a, phone, i, j);
    }
  }

  /** Codes in strictly increasing lexicographic order are distinct. */
  lemma LexOrderedFonesDistinct(list: seq<DdiList.DdiOption>)
    requires forall i, j :: 0 <= i < j < |list| ==> LexLess(list[i].fone, list[j].fone)
    ensures DdiList.FonesDistinct(list)
  {
    forall i, j | 0 <= i < j < |list|
      ensures list[i].fone != list[j].fone
    {
      LexLessIrreflexive(list[i].fone);
    }
  }

  /** A good list stays good when sorted by code. */
  lemma SortKeepsGood(list: seq<DdiList.DdiOption>)
    requires GoodDdiList(list)
    ensures GoodDdiList(Sorting.SortBy(list, DdiList.FoneKey))
  {
    var r := Sorting.SortBy(list, DdiList.FoneKey);
    DdiList.SortByFoneOrders(list);
    DdiList.SortKeepsFourDigits(list);
    LexOrderedFonesDistinct(r);
    var k :| 0 <= k < |list| && list[k].fone == "0055";
    assert list[k] in multiset(r);
    var m :| 0 <= m < |r| && r[m] == list[k];
  }

  /** A list of codes the lookup can rely on: distinct, four digits each, Brazil's
      among them. */
  predicate GoodDdiList(list: seq<DdiList.DdiOption>) {
    DdiList.FonesFourDigit(list) && DdiList.FonesDistinct(list)
    && exists k :: 0 <= k < |list| && list[k].fone == "0055"
  }

  lemma DdiListIsGood()
    ensures GoodDdiList(DdiList.DDI_LIST)
  {
    DdiList.DdiListFacts();
  }

  lemma SortedDdiListIsGood()
    ensures GoodDdiList(DdiList.SORTED_DDI_LIST)
  {
    DdiListIsGood();
    SortKeepsGood(DdiList.DDI_LIST);
  }

  /** Sorting a good list by code does not change which entry a lookup finds. */
  lemma SortedLookupAgrees(list: seq<DdiList.DdiOption>, phone: string)
    requires GoodDdiList(list)
    ensures FindDdi(Sorting.SortBy(list, DdiList.FoneKey), phone) == FindDdi(list, phone)
  {
    FindDdiIgnoresOrder(list, Sorting.SortBy(list, DdiList.FoneKey), phone);
  }

  /** Looking a code up in `SORTED_DDI_LIST` finds the same entry as in `DDI_LIST`. */
  lemma SortedLookupAgreesWithList(phone: string)
    ensures FindDdi(DdiList.SORTED_DDI_LIST, phone) == FindDdi(DdiList.DDI_LIST, phone)
  {
    DdiListIsGood();
    SortedLookupAgrees(DdiList.DDI_LIST, phone);
  }

  /** The country code and the rest of a stored customer phone, looked up in `ddis`: a
      leading `55` is Brazil's and is stripped, otherwise the first listed code that
      prefixes the phone is stripped, otherwise the phone is taken as Brazilian and kept
      whole. */
  function SplitDdi(ddis: seq<DdiList.DdiOption>, telefone: string): (r: (string, string))
    ensures "55" <= telefone ==> r == ("0055", telefone[2..])
    ensures !("55" <= telefone) && FindDdi(ddis, telefone).None? ==> r == ("0055", telefone)
    ensures !("55" <= telefone) && FindDdi(ddis, telefone).Some? ==>
      r.0 + r.1 == telefone && r.0 == FindDdi(ddis, telefone).value.fone
  {
    if "55" <= telefone then ("0055", telefone[2..])
    else
      match FindDdi(ddis, telefone)
      case Some(d) => assert d.fone + telefone[|d.fone|..] == telefone; (d.fone, telefone[|d.fone|..])
      case None => ("0055", telefone)
  }

  /** The phone field and the selected country code after loading a customer. */
  datatype LoadedPhone = LoadedPhone(tel: string, ddi: string)

  /** `handleFindCustomer` on success, with `ddis` the code list searched
      (`SORTED_DDI_LIST` on the page): an empty stored phone empties the field and keeps
      the selected code; otherwise the code is split off and a Brazilian rest is masked. */
  function LoadCustomerPhone(ddis: seq<DdiList.DdiOption>, telefone: string, ddiSelected: string): (r: LoadedPhone)
    ensures telefone == "" ==> r == LoadedPhone("", ddiSelected)
    ensures telefone != "" ==> r.ddi == SplitDdi(ddis, telefone).0
    ensures telefone != "" && r.ddi == "0055" ==> r.tel == PhoneMask.FormatPhoneBr(SplitDdi(ddis, telefone).1)
    ensures telefone != "" && r.ddi != "0055" ==> r.tel == SplitDdi(ddis, telefone).1
  {
    if telefone == "" then LoadedPhone("", ddiSelected)
    else
      var (ddi, rest) := SplitDdi(ddis, telefone);
      LoadedPhone(if ddi == "0055" then PhoneMask.FormatPhoneBr(rest) else rest, ddi)
  }

  /** The phone sent on submit: the selected code followed by the field's digits. */
  function FullPhone(ddi: string, tel: string): (r: string)
    ensures ddi <= r && AllDigits(r[|ddi|..])
    ensures r[|ddi|..] == PhoneMask.CleanPhone(tel)
  {
    assert (ddi + PhoneMask.CleanPhone(tel))[|ddi|..] == PhoneMask.CleanPhone(tel);
    ddi + PhoneMask.CleanPhone(tel)
  }

  lemma SuffixDigits(s: string, n: nat)
    requires AllDigits(s) && n <= |s|
    ensures AllDigits(s[n..]) && Digits(s[n..]) == s[n..]
  {
    assert forall i :: 0 <= i < |s[n..]| ==> s[n..][i] == s[n + i];
    DigitsOfDigits(s[n..]);
  }

  /** A stored all-digit phone with a listed foreign code comes back unchanged when the
      loaded form is submitted. */
  lemma ReloadKeepsForeignPhone(ddis: seq<DdiList.DdiOption>, telefone: string)
    requires AllDigits(telefone) && telefone != ""
    requires !("55" <= telefone)
    requires FindDdi(ddis, telefone).Some? && FindDdi(ddis, telefone).value.fone != "0055"
    ensures var l := LoadCustomerPhone(ddis, telefone, "0055"); FullPhone(l.ddi, l.tel) == telefone
  {
    var d := FindDdi(ddis, telefone).value;
    var rest := telefone[|d.fone|..];
    assert SplitDdi(ddis, telefone) == (d.fone, rest);
    SuffixDigits(telefone, |d.fone|);
    assert FullPhone(d.fone, rest) == d.fone + rest;
  }

  /** A stored `0055` phone of up to eleven local digits comes back unchanged too. */
  lemma ReloadKeepsBrazilianPhone(ddis: seq<DdiList.DdiOption>, telefone: string)
    requires GoodDdiList(ddis)
    requires AllDigits(telefone) && |telefone| <= 15
    requires "0055" <= telefone
    ensures var l := LoadCustomerPhone(ddis, telefone, "0055"); FullPhone(l.ddi, l.tel) == telefone
  {
    BrazilianCodeSplitOff(ddis, telefone);
    SuffixDigits(telefone, 4);
    BrazilianRestRoundTrip(telefone[4..]);
    assert "0055" + telefone[4..] == telefone;
  }

  /** In a good list the code found for a `0055` phone is `0055` itself. */
  lemma BrazilianCodeSplitOff(ddis: seq<DdiList.DdiOption>, telefone: string)
    requires GoodDdiList(ddis)
    requires "0055" <= telefone
    ensures SplitDdi(ddis, telefone) == ("0055", telefone[4..])
  {
    var k :| 0 <= k < |ddis| && ddis[k].fone == "0055";
    assert !("55" <= telefone) by { assert telefone[0] == '0'; }
    var r := FindDdi(ddis, telefone);
    assert ddis[k].fone <= telefone;
    assert r.Some?;
    var i :| 0 <= i < |ddis| && ddis[i] == r.value;
    PrefixCodeUnique(ddis, telefone, i, k);
  }

  /** Masking up to eleven local digits and submitting them gives them back behind
      Brazil's code. */
  lemma BrazilianRestRoundTrip(rest: string)
    requires AllDigits(rest) && |rest| <= 11
    ensures FullPhone("0055", PhoneMask.FormatPhoneBr(rest)) == "0055" + rest
  {
    DigitsOfDigits(rest);
    PhoneMask.FormatPhoneBrRoundTrip(rest);
    assert Seqs.Take(rest, 11) == rest;
  }

  /** A stored phone that starts with `55` (up to eleven more digits) is submitted back
      with the `00` international prefix in front. */
  lemma ReloadPrefixesBareBrazilianPhone(ddis: seq<DdiList.DdiOption>, telefone: string)
    requires AllDigits(telefone) && |telefone| <= 13
    requires "55" <= telefone
    ensures var l := LoadCustomerPhone(ddis, telefone, "0055"); FullPhone(l.ddi, l.tel) == "00" + telefone
  {
    SuffixDigits(telefone, 2);
    BrazilianRestRoundTrip(telefone[2..]);
    assert "0055" + telefone[2..] == "00" + telefone;
  }

  // ---- The form ----

  /** The page's form state. */
  datatype Form = Form(
    foreigner: bool,
    cpfValue: string,
    passportValue: string,
    name: string,
    tel: string,
    email: string)

  /** `isFormValid`: the active document (a valid CPF, or any passport) and the name,
      phone and e-mail are all filled in. */
  function IsFormValid(f: Form): (valid: bool)
    ensures valid <==>
      f.name != "" && f.tel != "" && f.email != ""
      && (if f.foreigner then f.passportValue != "" else CpfValidator.IsValidCpf(f.cpfValue))
    ensures valid ==> f.name != "" && f.tel != "" && f.email != ""
    ensures valid && f.foreigner ==> f.passportValue != ""
    ensures valid && !f.foreigner ==> |CpfMask.CleanCpf(f.cpfValue)| == 11 && |f.cpfValue| >= 11
  {
    if f.foreigner then f.passportValue != "" && f.name != "" && f.tel != "" && f.email != ""
    else f.cpfValue != "" && CpfValidator.IsValidCpf(f.cpfValue) && f.name != "" && f.tel != "" && f.email != ""
  }

  /** A resident who typed a masked valid CPF and filled the other fields can go on. */
  lemma MaskedCpfFormIsValid(name: string, tel: string, email: string)
    requires name != "" && tel != "" && email != ""
    ensures IsFormValid(Form(false, "529.982.247-25", "", name, tel, email))
  {
    CpfValidator.ExampleMaskedIsValid();
  }

  /** Only the active document counts: the other one may hold anything. */
  lemma FormValidityIgnoresInactiveDocument(f: Form, other: string)
    ensures f.foreigner ==> IsFormValid(f.(cpfValue := other)) == IsFormValid(f)
    ensures !f.foreigner ==> IsFormValid(f.(passportValue := other)) == IsFormValid(f)
  {
  }

  /** `handleToggleForeigner`: flips the flag and empties the document that becomes
      inactive. */
  function ToggleForeigner(f: Form): (r: Form)
    ensures r.foreigner == !f.foreigner
    ensures r.foreigner ==> r.cpfValue == "" && r.passportValue == f.passportValue
    ensures !r.foreigner ==> r.passportValue == "" && r.cpfValue == f.cpfValue
    ensures r.name == f.name && r.tel == f.tel && r.email == f.email
  {
    var nf := !f.foreigner;
    f.(foreigner := nf,
       cpfValue := if nf then "" else f.cpfValue,
       passportValue := if !nf then "" else f.passportValue)
  }

  /** Only the active document may be non-empty. */
  predicate DocumentsExclusive(f: Form) {
    (f.foreigner ==> f.cpfValue == "") && (!f.foreigner ==> f.passportValue == "")
  }

  /** Toggling always leaves at most the active document filled, and from such a state
      the form is incomplete until the new document is typed. */
  lemma ToggleClearsDocuments(f: Form)
    ensures DocumentsExclusive(ToggleForeigner(f))
    ensures DocumentsExclusive(f) ==> !IsFormValid(ToggleForeigner(f))
    ensures DocumentsExclusive(f) ==> ToggleForeigner(ToggleForeigner(f)) == f.(cpfValue := "", passportValue := "")
  {
  }

  // ---- Looking a customer up ----

  datatype Lookup = MissingPassport | InvalidCpf | FindCustomer(documento: string)

  /** The guard of `handleFindCustomer` and the document number it searches for. */
  function LookupRequest(f: Form): (r: Lookup)
    ensures r == MissingPassport <==> f.foreigner && f.passportValue == ""
    ensures r == InvalidCpf <==> !f.foreigner && !CpfValidator.IsValidCpf(f.cpfValue)
    ensures r.FindCustomer? && f.foreigner ==> r.documento == f.passportValue
    ensures r.FindCustomer? && !f.foreigner ==>
      r.documento == CpfMask.CleanCpf(f.cpfValue)
      && |r.documento| == 11 && AllDigits(r.documento) && CpfValidator.IsValidCpf(r.documento)
  {
    if f.foreigner && f.passportValue == "" then MissingPassport
    else if !f.foreigner && f.cpfValue == "" then InvalidCpf
    else if !f.foreigner && !CpfValidator.IsValidCpf(f.cpfValue) then InvalidCpf
    else
      if !f.foreigner then CpfValidator.OnlyDigitsMatter(f.cpfValue); FindCustomer(if f.foreigner then f.passportValue else CpfMask.CleanCpf(f.cpfValue))
      else FindCustomer(f.passportValue)
  }

  // ---- Submitting ----

  const DOCUMENT_TYPE_CPF := 1
  const DOCUMENT_TYPE_PASSPORT := 3

  /** The customer record sent to the API. */
  datatype Customer = Customer(nomeCompleto: string, email: string, telefone: string, documento: string, tipoDocumentoId: int)

  datatype SubmitOutcome = InvalidPhone | IncompleteForm | Save(customer: Customer, personal: FormatBooking.Personal)

  /** `handleSubmit`: the phone check first, then the form check, then the record to save
      and the personal data handed to the next step. */
  function Submit(f: Form, ddiSelected: string): (r: SubmitOutcome)
    ensures r == InvalidPhone <==> !ValidPhone(f.tel)
    ensures r == IncompleteForm <==> ValidPhone(f.tel) && !IsFormValid(f)
    ensures r.Save? ==> r.customer.telefone == FullPhone(ddiSelected, f.tel) && r.personal.tel == r.customer.telefone
    ensures r.Save? ==> r.customer.nomeCompleto == f.name != "" && r.customer.email == f.email != ""
    ensures r.Save? && f.foreigner ==>
      r.customer.documento == f.passportValue != "" && r.customer.tipoDocumentoId == DOCUMENT_TYPE_PASSPORT
      && r.personal.cpf.None? && r.personal.passport == Some(f.passportValue)
    ensures r.Save? && !f.foreigner ==>
      r.customer.documento == CpfMask.CleanCpf(f.cpfValue)
      && |r.customer.documento| == 11 && CpfValidator.IsValidCpf(r.customer.documento)
      && r.customer.tipoDocumentoId == DOCUMENT_TYPE_CPF
      && r.personal.cpf == Some(r.customer.documento) && r.personal.passport.None?
  {
    if !ValidPhone(PhoneMask.CleanPhone(f.tel)) then
      ValidPhoneIgnoresFormatting(f.tel);
      InvalidPhone
    else if !IsFormValid(f) then
      ValidPhoneIgnoresFormatting(f.tel);
      IncompleteForm
    else
      ValidPhoneIgnoresFormatting(f.tel);
      var documento := if f.foreigner then f.passportValue else CpfMask.CleanCpf(f.cpfValue);
      if !f.foreigner then CpfValidator.OnlyDigitsMatter(f.cpfValue); SaveRecord(f, ddiSelected, documento)
      else SaveRecord(f, ddiSelected, documento)
  }

  function SaveRecord(f: Form, ddiSelected: string, documento: string): SubmitOutcome {
    var tipo := if f.foreigner then DOCUMENT_TYPE_PASSPORT else DOCUMENT_TYPE_CPF;
    var telefone := FullPhone(ddiSelected, f.tel);
    Save(Customer(f.name, f.email, telefone, documento, tipo),
         FormatBooking.Personal(if !f.foreigner then Some(documento) else None,
                                if f.foreigner then Some(documento) else None,
                                f.name, telefone, f.email, tipo))
  }

  /** End to end with the booking request: a Brazilian customer's submitted phone is
      split by `formatBooking` into the area code and number typed in the field. */
  lemma SubmittedBrazilianPhoneSplits(f: Form)
    requires Submit(f, "0055").Save?
    ensures var local := PhoneMask.CleanPhone(f.tel);
      FormatBooking.SplitPhone(Submit(f, "0055").personal.tel) == (local[..2], local[2..])
  {
    ValidPhoneIgnoresFormatting(f.tel);
    FormatBooking.SplitBrazilianInternational(PhoneMask.CleanPhone(f.tel));
  }
}
