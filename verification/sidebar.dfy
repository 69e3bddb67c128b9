/** The price summary of the booking sidebar (src/components/Sidebar.tsx). Money is
    `real`; rounding and currency formatting are not modelled. */
module Sidebar {
  import opened Optional
  import Accessories
  import Protections

  /** The pricing fields of the selected car's `dadosVeiculo`. */
  datatype CarPricing = CarPricing(
    quantidadeDiarias: Option<real>,
    valorTotal: Option<real>,
    valorDiariaTotalMensal: Option<real>,
    quantidadeHoraExtra: Option<real>,
    valorTotalHoraExtra: Option<real>,
    percentualTaxaHoraExtraProtecao: Option<real>,
    percentualTaxaEventual: Option<real>,
    valorTaxaRetorno: Option<real>)

  /** The component's state: the values its effect stores. */
  datatype SidebarState = SidebarState(
    totalValue: real,
    adminTax: real,
    valorHoraExtra: real,
    valorTaxaDevolucao: real)

  const InitialState: SidebarState := SidebarState(0.0, 0.0, 0.0, 0.0)

  /** The number of rental days (`dailys`). */
  function Dailys(car: CarPricing): real {
    OrElse(car.quantidadeDiarias, 0.0)
  }

  /** The rental's base price: the monthly total when set, else the car's total. */
  function DailyTotal(car: CarPricing): (v: real)
    ensures OrElse(car.valorDiariaTotalMensal, 0.0) != 0.0 ==> v == car.valorDiariaTotalMensal.value
    ensures OrElse(car.valorDiariaTotalMensal, 0.0) == 0.0 ==> v == OrElse(car.valorTotal, 0.0)
  {
    OrElse(car.valorDiariaTotalMensal, OrElse(car.valorTotal, 0.0))
  }

  /** `calcAccessoriesView`: the accessory is charged for the rental days, at most its
      charge limit (the rental days when unset), times its daily price and quantity. */
  function AccessoryDays(acc: Accessories.Accessory, dailys: real): (days: real)
    ensures OrElseInt(acc.quantidadeMaximaDiariasSerCobrado, 0) == 0 ==> days == dailys
    ensures OrElseInt(acc.quantidadeMaximaDiariasSerCobrado, 0) != 0 ==>
      var cap := acc.quantidadeMaximaDiariasSerCobrado.value as real;
      days <= dailys && days <= cap && (days == dailys || days == cap)
  {
    var limit := OrElseInt(acc.quantidadeMaximaDiariasSerCobrado, 0);
    var cap := if limit != 0 then limit as real else dailys;
    if dailys > cap then cap else dailys
  }

  function AccessoryCharge(acc: Accessories.Accessory, dailys: real): (v: real)
    ensures v == AccessoryDays(acc, dailys) * acc.valorDiaria * (OrElseInt(acc.quantidade, 0) as real)
    ensures OrElseInt(acc.quantidade, 0) == 0 || acc.valorDiaria == 0.0 ==> v == 0.0
    ensures (dailys >= 0.0 && acc.valorDiaria >= 0.0 && OrElseInt(acc.quantidade, 0) >= 0
             && OrElseInt(acc.quantidadeMaximaDiariasSerCobrado, 0) >= 0) ==> v >= 0.0
  {
    var days := AccessoryDays(acc, dailys);
    var q := OrElseInt(acc.quantidade, 0) as real;
    assert days >= 0.0 && acc.valorDiaria >= 0.0 && q >= 0.0 ==> days * acc.valorDiaria >= 0.0;
    days * acc.valorDiaria * q
  }

  /** Σ protection totals. */
  function ProtectionSum(ps: seq<Protections.Protection>): real {
    if ps == [] then 0.0 else ProtectionSum(ps[..|ps| - 1]) + ps[|ps| - 1].valorTotal
  }

  /** Σ accessory total × quantity. */
  function OptionalsSum(as_: seq<Accessories.Accessory>): real {
    if as_ == [] then 0.0
    else
      var a := as_[|as_| - 1];
      OptionalsSum(as_[..|as_| - 1]) + OrElse(a.valorTotal, 0.0) * OrElseInt(a.quantidade, 0) as real
  }

  /** `calcValorHoraExtra`: overtime hours times the protections' daily share of the
      overtime percentage plus the overtime price, when there are both days and hours. */
  function Overtime(car: CarPricing, ps: seq<Protections.Protection>): (v: real)
    ensures !(Dailys(car) > 0.0 && OrElse(car.quantidadeHoraExtra, 0.0) > 0.0) ==> v == 0.0
    ensures Dailys(car) > 0.0 && OrElse(car.quantidadeHoraExtra, 0.0) > 0.0 ==>
      v * Dailys(car) * 100.0
      == OrElse(car.quantidadeHoraExtra, 0.0)
         * (ProtectionSum(ps) * OrElse(car.percentualTaxaHoraExtraProtecao, 0.0)
            + Dailys(car) * 100.0 * OrElse(car.valorTotalHoraExtra, 0.0))
  {
    var dias := Dailys(car);
    var horas := OrElse(car.quantidadeHoraExtra, 0.0);
    if dias > 0.0 && horas > 0.0 then
      horas * ((ProtectionSum(ps) / dias) * (OrElse(car.percentualTaxaHoraExtraProtecao, 0.0) / 100.0)
               + OrElse(car.valorTotalHoraExtra, 0.0))
    else 0.0
  }

  /** `pct` per cent of `base`. */
  function Percentage(base: real, pct: real): (v: real)
    ensures v * 100.0 == base * pct
    ensures pct == 0.0 ==> v == 0.0
    ensures base >= 0.0 && pct >= 0.0 ==> v >= 0.0
  {
    base * pct / 100.0
  }

  /** The base price before the administrative tax. */
  function BaseValue(car: CarPricing, as_: seq<Accessories.Accessory>, ps: seq<Protections.Protection>,
                     returnFee: real, overtime: real): (v: real)
    ensures NonNegativeInputs(car, as_, ps) && returnFee >= 0.0 && overtime >= 0.0 ==> v >= 0.0
  {
    if NonNegativeInputs(car, as_, ps) then
      ProtectionSumNonNegative(ps);
      OptionalsSumNonNegative(as_);
      DailyTotal(car) + OptionalsSum(as_) + ProtectionSum(ps) + returnFee + overtime
    else
      DailyTotal(car) + OptionalsSum(as_) + ProtectionSum(ps) + returnFee + overtime
  }

  /** `calcAdminTax`: the eventual-rental percentage of the base price, computed from the
      overtime and return fee currently in the state. */
  function AdminTax(car: CarPricing, as_: seq<Accessories.Accessory>, ps: seq<Protections.Protection>,
                    s: SidebarState): (v: real)
    ensures v * 100.0
            == BaseValue(car, as_, ps, s.valorTaxaDevolucao, s.valorHoraExtra) * OrElse(car.percentualTaxaEventual, 0.0)
    ensures OrElse(car.percentualTaxaEventual, 0.0) == 0.0 ==> v == 0.0
  {
    Percentage(BaseValue(car, as_, ps, s.valorTaxaDevolucao, s.valorHoraExtra), OrElse(car.percentualTaxaEventual, 0.0))
  }

  /** One run of the total effect: it recomputes the base from the car, the overtime and
      the return fee, adds the admin tax memoised from the previous state, and stores all. */
  function EffectStep(car: CarPricing, as_: seq<Accessories.Accessory>, ps: seq<Protections.Protection>,
                      s: SidebarState): (r: SidebarState)
    ensures r.valorTaxaDevolucao == OrElse(car.valorTaxaRetorno, s.valorTaxaDevolucao)
    ensures r.valorHoraExtra == Overtime(car, ps)
    ensures r.adminTax == AdminTax(car, as_, ps, s)
    ensures r.totalValue == BaseValue(car, as_, ps, r.valorTaxaDevolucao, r.valorHoraExtra) + r.adminTax
  {
    var fee := OrElse(car.valorTaxaRetorno, s.valorTaxaDevolucao);
    var overtime := Overtime(car, ps);
    var admin := AdminTax(car, as_, ps, s);
    SidebarState(BaseValue(car, as_, ps, fee, overtime) + admin, admin, overtime, fee)
  }

  /** The settled total: base (with the car's return fee and the overtime) plus its
      percentage. */
  function SettledTotal(car: CarPricing, as_: seq<Accessories.Accessory>, ps: seq<Protections.Protection>): (v: real)
    ensures var base := BaseValue(car, as_, ps, OrElse(car.valorTaxaRetorno, 0.0), Overtime(car, ps));
      v * 100.0 == base * (100.0 + OrElse(car.percentualTaxaEventual, 0.0))
    ensures OrElse(car.percentualTaxaEventual, 0.0) == 0.0 ==>
      v == BaseValue(car, as_, ps, OrElse(car.valorTaxaRetorno, 0.0), Overtime(car, ps))
  {
    var base := BaseValue(car, as_, ps, OrElse(car.valorTaxaRetorno, 0.0), Overtime(car, ps));
    base + Percentage(base, OrElse(car.percentualTaxaEventual, 0.0))
  }

  /** From the initial state the effect runs twice (the second run triggered by the
      memoised tax seeing the stored overtime and fee) and then stops changing: the
      stored total is base + admin tax of that base. */
  lemma EffectSettles(car: CarPricing, as_: seq<Accessories.Accessory>, ps: seq<Protections.Protection>)
    ensures var s2 := EffectStep(car, as_, ps, EffectStep(car, as_, ps, InitialState));
      EffectStep(car, as_, ps, s2) == s2
      && s2.totalValue == SettledTotal(car, as_, ps)
      && s2.adminTax == Percentage(BaseValue(car, as_, ps, OrElse(car.valorTaxaRetorno, 0.0), Overtime(car, ps)),
                                   OrElse(car.percentualTaxaEventual, 0.0))
  {
    var s1 := EffectStep(car, as_, ps, InitialState);
    var s2 := EffectStep(car, as_, ps, s1);
    assert s1.valorTaxaDevolucao == OrElse(car.valorTaxaRetorno, 0.0);
    assert s2.valorTaxaDevolucao == s1.valorTaxaDevolucao;
    assert s2.valorHoraExtra == s1.valorHoraExtra;
  }

  lemma {:induction false} ProtectionSumNonNegative(ps: seq<Protections.Protection>)
    requires forall i :: 0 <= i < |ps| ==> ps[i].valorTotal >= 0.0
    ensures ProtectionSum(ps) >= 0.0
  {
    if ps != [] {
      ProtectionSumNonNegative(ps[..|ps| - 1]);
    }
  }

  lemma {:induction false} OptionalsSumNonNegative(as_: seq<Accessories.Accessory>)
    requires forall i :: 0 <= i < |as_| ==> OrElse(as_[i].valorTotal, 0.0) >= 0.0 && OrElseInt(as_[i].quantidade, 0) >= 0
    ensures OptionalsSum(as_) >= 0.0
  {
    if as_ != [] {
      OptionalsSumNonNegative(as_[..|as_| - 1]);
      var a := as_[|as_| - 1];
      var t, q := OrElse(a.valorTotal, 0.0), OrElseInt(a.quantidade, 0) as real;
      assert t >= 0.0 && q >= 0.0;
      assert t * q >= 0.0;
    }
  }

  predicate NonNegativeInputs(car: CarPricing, as_: seq<Accessories.Accessory>, ps: seq<Protections.Protection>) {
    OrElse(car.quantidadeDiarias, 0.0) >= 0.0
    && OrElse(car.valorTotal, 0.0) >= 0.0
    && OrElse(car.valorDiariaTotalMensal, 0.0) >= 0.0
    && OrElse(car.quantidadeHoraExtra, 0.0) >= 0.0
    && OrElse(car.valorTotalHoraExtra, 0.0) >= 0.0
    && OrElse(car.percentualTaxaHoraExtraProtecao, 0.0) >= 0.0
    && OrElse(car.percentualTaxaEventual, 0.0) >= 0.0
    && OrElse(car.valorTaxaRetorno, 0.0) >= 0.0
    && (forall i :: 0 <= i < |as_| ==> OrElse(as_[i].valorTotal, 0.0) >= 0.0 && OrElseInt(as_[i].quantidade, 0) >= 0)
    && (forall i :: 0 <= i < |ps| ==> ps[i].valorTotal >= 0.0)
  }

  /** With non-negative prices, counts and percentages, every component and the total are
      non-negative. */
  lemma TotalNonNegative(car: CarPricing, as_: seq<Accessories.Accessory>, ps: seq<Protections.Protection>)
    requires NonNegativeInputs(car, as_, ps)
    ensures DailyTotal(car) >= 0.0
    ensures OptionalsSum(as_) >= 0.0 && ProtectionSum(ps) >= 0.0
    ensures Overtime(car, ps) >= 0.0
    ensures SettledTotal(car, as_, ps) >= 0.0
  {
    ProtectionSumNonNegative(ps);
    OptionalsSumNonNegative(as_);
    OvertimeNonNegative(car, ps);
  }

  lemma OvertimeNonNegative(car: CarPricing, ps: seq<Protections.Protection>)
    requires ProtectionSum(ps) >= 0.0
    requires OrElse(car.percentualTaxaHoraExtraProtecao, 0.0) >= 0.0 && OrElse(car.valorTotalHoraExtra, 0.0) >= 0.0
    ensures Overtime(car, ps) >= 0.0
  {
    var dias, horas := Dailys(car), OrElse(car.quantidadeHoraExtra, 0.0);
    if dias > 0.0 && horas > 0.0 {
      var share := ProtectionSum(ps) / dias;
      var pct := OrElse(car.percentualTaxaHoraExtraProtecao, 0.0) / 100.0;
      assert share >= 0.0 && pct >= 0.0;
      MulNonNegative(share, pct);
      var perHour := share * pct + OrElse(car.valorTotalHoraExtra, 0.0);
      MulNonNegative(horas, perHour);
    }
  }

  lemma MulNonNegative(a: real, b: real)
    requires a >= 0.0 && b >= 0.0
    ensures a * b >= 0.0
  {
  }

  /** The daily price per unit shown: the rental's total over the days, 0 without days. */
  function PerUnitDaily(car: CarPricing): (v: real)
    ensures Dailys(car) <= 0.0 ==> v == 0.0
    ensures Dailys(car) > 0.0 ==> v * Dailys(car) == DailyTotal(car)
  {
    if Dailys(car) > 0.0 then DailyTotal(car) / Dailys(car) else 0.0
  }
}
