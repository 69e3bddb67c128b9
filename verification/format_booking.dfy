/** Building the booking / quotation payload (src/utils/formatBooking.ts). */
module FormatBooking {
  import opened Optional
  import opened Strings
  import CpfMask
  import PhoneMask
  import Seqs

  /** A free-form record passed through unchanged (an accessory, protection or tariff). */
  type Record = map<string, string>

  datatype PesquisaLocacao = PesquisaLocacao(
    dataHoraDevolucao: string,
    dataHoraRetirada: string,
    localRetiradaSigla: string,
    localDevolucaoSigla: string)

  datatype DadosVeiculo = DadosVeiculo(
    ehMensal: Option<bool>,
    codigoAcriss: Option<string>,
    grupoVeiculo: Option<string>,
    rateQualifier: Option<string>,
    tokenCotacao: Option<string>)

  datatype Personal = Personal(
    cpf: Option<string>,
    passport: Option<string>,
    name: string,
    tel: string,
    email: string,
    documentType: int)

  datatype LocalizationData = LocalizationData(
    codCupom: Option<string>,
    tarifas: Option<seq<Record>>,
    locaisRetirada: Option<seq<string>>,
    locaisDevolucao: Option<seq<string>>)

  datatype BookingData = BookingData(
    pesquisa: PesquisaLocacao,
    veiculo: DadosVeiculo,
    personal: Personal,
    accessories: Option<seq<Record>>,
    protection: Option<seq<Record>>,
    localization: LocalizationData,
    idAttendance: string,
    idBooking: Option<bool>,
    codeBooking: Option<string>)

  datatype DadosCliente = DadosCliente(
    email: string,
    prefixoNome: string,
    nome: string,
    sobrenome: string,
    dddTelefone: string,
    telefone: string,
    dddCelular: string,
    celular: string,
    tipoDocumento: int,
    documento: string)

  /** The fields only a quotation request carries. */
  datatype QuotationExtras = QuotationExtras(
    codCupom: Option<string>,
    locaisRetirada: seq<string>,
    locaisDevolucao: seq<string>)

  datatype BookingRequest = BookingRequest(
    dataHoraDevolucao: string,
    dataHoraRetirada: string,
    localRetirada: string,
    localDevolucao: string,
    ehMensal: Option<bool>,
    dadosCliente: DadosCliente,
    codigoAcriss: Option<string>,
    categoria: Option<string>,
    opcionais: seq<Record>,
    protecoes: seq<Record>,
    codigoPromocional: Option<string>,
    tarifas: seq<Record>,
    rateQualifier: Option<string>,
    tokenCotacao: Option<string>,
    protocolo: string,
    quotation: Option<QuotationExtras>,
    codigoReservaAgencia: Option<string>)

  /** The document number: the cleaned CPF when one is given, else the cleaned passport,
      else empty. */
  function Documento(p: Personal): (r: string)
    ensures Truthy(p.cpf) ==> r == CpfMask.CleanCpf(p.cpf.value) && AllDigits(r) && |r| <= |p.cpf.value|
    ensures !Truthy(p.cpf) && Truthy(p.passport) ==>
      r == CpfMask.CleanPassport(p.passport.value)
      && forall i :: 0 <= i < |r| ==> CpfMask.IsCleanPassportChar(r[i])
    ensures !Truthy(p.cpf) && !Truthy(p.passport) ==> r == ""
  {
    if Truthy(p.cpf) then CpfMask.CleanCpf(p.cpf.value)
    else if Truthy(p.passport) then CpfMask.CleanPassport(p.passport.value)
    else ""
  }

  /** The cleaned phone with a leading Brazilian DDI removed when the number is longer
      than a Brazilian mobile number. */
  function LocalPhone(tel: string): (r: string)
    ensures AllDigits(r)
    ensures r == PhoneMask.CleanPhone(tel) || "0055" + r == PhoneMask.CleanPhone(tel)
    ensures r != PhoneMask.CleanPhone(tel) <==>
      |PhoneMask.CleanPhone(tel)| > 11 && "0055" <= PhoneMask.CleanPhone(tel)
  {
    var clean := PhoneMask.CleanPhone(tel);
    if |clean| > 11 && StartsWith(clean, "0055") then clean[4..] else clean
  }

  /** The DDD (area code) and the rest of the number. */
  function SplitPhone(tel: string): (r: (string, string))
    ensures r.0 + r.1 == LocalPhone(tel)
    ensures |LocalPhone(tel)| >= 2 ==> |r.0| == 2
    ensures |LocalPhone(tel)| < 2 ==> r.0 == ""
  {
    var t := LocalPhone(tel);
    if |t| >= 2 then (t[..2], t[2..]) else ("", t)
  }

  /** The first character of a name, or empty for an empty name. */
  function FirstChar(s: string): (r: string)
    ensures |r| == if s == [] then 0 else 1
    ensures r <= s
  {
    if s == [] then [] else s[..1]
  }

  function FormatBooking(data: BookingData, isQuotation: bool): (b: BookingRequest)
    ensures b.dadosCliente.documento == Documento(data.personal)
    ensures b.dadosCliente.tipoDocumento == data.personal.documentType
    ensures (b.dadosCliente.dddCelular, b.dadosCliente.celular) == SplitPhone(data.personal.tel)
    ensures b.dadosCliente.dddCelular + b.dadosCliente.celular == LocalPhone(data.personal.tel)
    ensures b.dadosCliente.email == data.personal.email
    ensures b.dadosCliente.nome == data.personal.name && b.dadosCliente.sobrenome == data.personal.name
    ensures b.dadosCliente.prefixoNome == FirstChar(data.personal.name)
    ensures b.dadosCliente.dddTelefone == "" && b.dadosCliente.telefone == ""
    ensures b.opcionais == data.accessories.GetOr([]) && b.protecoes == data.protection.GetOr([])
    ensures b.tarifas == data.localization.tarifas.GetOr([])
    ensures b.codigoPromocional == data.localization.codCupom && b.protocolo == data.idAttendance
    ensures b.codigoAcriss == data.veiculo.codigoAcriss && b.categoria == data.veiculo.grupoVeiculo
    ensures b.rateQualifier == data.veiculo.rateQualifier && b.tokenCotacao == data.veiculo.tokenCotacao
    ensures b.dataHoraRetirada == data.pesquisa.dataHoraRetirada && b.dataHoraDevolucao == data.pesquisa.dataHoraDevolucao
    ensures b.localRetirada == data.pesquisa.localRetiradaSigla && b.localDevolucao == data.pesquisa.localDevolucaoSigla
    ensures b.ehMensal == data.veiculo.ehMensal
    ensures b.quotation.Some? <==> isQuotation
    ensures isQuotation ==> b.quotation.value.codCupom == b.codigoPromocional
    ensures isQuotation ==> b.quotation.value.locaisRetirada == data.localization.locaisRetirada.GetOr([])
    ensures isQuotation ==> b.quotation.value.locaisDevolucao == data.localization.locaisDevolucao.GetOr([])
    ensures b.codigoReservaAgencia.Some? <==> data.idBooking == Some(true) && Truthy(data.codeBooking)
    ensures b.codigoReservaAgencia.Some? ==> b.codigoReservaAgencia == data.codeBooking
  {
    var (ddd, celular) := SplitPhone(data.personal.tel);
    var cliente := DadosCliente(
      data.personal.email,
      FirstChar(data.personal.name),
      data.personal.name,
      data.personal.name,
      "",
      "",
      ddd,
      celular,
      data.personal.documentType,
      Documento(data.personal));
    var quotation :=
      if isQuotation then
        Some(QuotationExtras(
          data.localization.codCupom,
          data.localization.locaisRetirada.GetOr([]),
          data.localization.locaisDevolucao.GetOr([])))
      else None;
    var codigo :=
      if data.idBooking == Some(true) && Truthy(data.codeBooking) then data.codeBooking else None;
    BookingRequest(
      data.pesquisa.dataHoraDevolucao,
      data.pesquisa.dataHoraRetirada,
      data.pesquisa.localRetiradaSigla,
      data.pesquisa.localDevolucaoSigla,
      data.veiculo.ehMensal,
      cliente,
      data.veiculo.codigoAcriss,
      data.veiculo.grupoVeiculo,
      data.accessories.GetOr([]),
      data.protection.GetOr([]),
      data.localization.codCupom,
      data.localization.tarifas.GetOr([]),
      data.veiculo.rateQualifier,
      data.veiculo.tokenCotacao,
      data.idAttendance,
      quotation,
      codigo)
  }

  /** A stored number `0055` + DDD + local number (at least 8 more digits) is split into
      the DDD and the local number. */
  lemma SplitBrazilianInternational(local: string)
    requires AllDigits(local) && |local| >= 8
    ensures SplitPhone("0055" + local) == (local[..2], local[2..])
  {
    DigitsOfDigits("0055" + local);
    assert StartsWith("0055" + local, "0055");
    assert ("0055" + local)[4..] == local;
  }

  /** A booking for a stored international Brazilian number carries its DDD and local
      number in the client block. */
  lemma BookingSplitsInternationalPhone(data: BookingData, isQuotation: bool, local: string)
    requires AllDigits(local) && |local| >= 8
    requires data.personal.tel == "0055" + local
    ensures FormatBooking(data, isQuotation).dadosCliente.dddCelular == local[..2]
    ensures FormatBooking(data, isQuotation).dadosCliente.celular == local[2..]
  {
    SplitBrazilianInternational(local);
  }

  /** A number with at most 11 digits is never stripped, whatever its prefix. */
  lemma ShortNumberNotStripped(tel: string)
    requires |Digits(tel)| <= 11
    ensures LocalPhone(tel) == Digits(tel)
  {
  }

  /** Splitting the masked form of a phone number gives the same DDD and number as
      splitting its digits, for numbers of at most 11 digits. */
  lemma SplitIgnoresMask(tel: string)
    requires |Digits(tel)| <= 11
    ensures SplitPhone(PhoneMask.FormatPhoneBr(tel)) == SplitPhone(tel)
  {
    PhoneMask.FormatPhoneBrRoundTrip(tel);
    assert Seqs.Take(Digits(tel), 11) == Digits(tel);
  }
}
