/** Check-box state of each filter in the filter panel (src/components/CarFilters.tsx). */
module CarFiltersView {
  import opened Optional
  import opened CarFilters

  predicate IsScalarName(name: string) {
    name == "lugares" || name == "cambioAutomatico" || name == "arCondicionado" || name == "numeroPortas"
  }

  /** `activeFilters[name]` for a single-valued key, as a filter value. */
  function ActiveValue(f: ActiveFilters, name: string): (r: Option<Scalar>)
    ensures !IsScalarName(name) ==> r.None?
    ensures name == "lugares" ==> (r.Some? <==> f.lugares.Some?)
    ensures name == "numeroPortas" ==> (r.Some? <==> f.numeroPortas.Some?)
    ensures name == "cambioAutomatico" ==> (r.Some? <==> f.cambioAutomatico.Some?)
    ensures name == "arCondicionado" ==> (r.Some? <==> f.arCondicionado.Some?)
  {
    match name
    case "lugares" => if f.lugares.Some? then Some(Num(f.lugares.value)) else None
    case "numeroPortas" => if f.numeroPortas.Some? then Some(Num(f.numeroPortas.value)) else None
    case "cambioAutomatico" =>
      if f.cambioAutomatico.Some? then Some(Bool(f.cambioAutomatico.value)) else None
    case "arCondicionado" => if f.arCondicionado.Some? then Some(Bool(f.arCondicionado.value)) else None
    case _ => None
  }

  /** `isFilterActive`: a single-valued filter is checked when the active value is its
      value, an agency when it is listed, and any other name never. */
  function IsFilterActive(f: ActiveFilters, filter: CarFilter): (active: bool)
    ensures active ==> IsScalarName(filter.name) || filter.name == "nomeAgencia"
    ensures active && IsScalarName(filter.name) ==> ActiveValue(f, filter.name).Some?
  {
    if IsScalarName(filter.name) then ActiveValue(f, filter.name) == Some(filter.value)
    else if filter.name == "nomeAgencia" then
      f.nomeAgencia.Some? && filter.value.Str? && filter.value.s in f.nomeAgencia.value
    else false
  }

  /** `isFilterDisabled`: some other value is active for the filter's (non-agency) key. */
  function IsFilterDisabled(f: ActiveFilters, filter: CarFilter): (disabled: bool)
    ensures disabled ==> IsScalarName(filter.name) && !IsFilterActive(f, filter)
  {
    filter.name != "nomeAgencia"
    && ActiveValue(f, filter.name).Some?
    && ActiveValue(f, filter.name).value != filter.value
  }

  /** No filter is both checked and disabled; agency and unknown filters are never
      disabled; a single-valued filter is unchecked and enabled exactly when its key is
      absent. */
  lemma FilterStates(f: ActiveFilters, filter: CarFilter)
    ensures !(IsFilterActive(f, filter) && IsFilterDisabled(f, filter))
    ensures !IsScalarName(filter.name) ==> !IsFilterDisabled(f, filter)
    ensures IsScalarName(filter.name) ==>
      (!IsFilterActive(f, filter) && !IsFilterDisabled(f, filter) <==> ActiveValue(f, filter.name).None?)
  {
  }

  /** Toggling a known filter flips its check box. */
  lemma ToggleFlipsActive(f: ActiveFilters, filter: CarFilter)
    requires WellTyped(filter)
    requires IsScalarName(filter.name) || filter.name == "nomeAgencia"
    ensures IsFilterActive(ToggleFilter(f, filter), filter) <==> !IsFilterActive(f, filter)
  {
  }

  /** Checking a single-valued filter disables every other value of the same key and
      leaves the filters of other keys as they were. */
  lemma CheckingDisablesSiblings(f: ActiveFilters, filter: CarFilter, other: CarFilter)
    requires WellTyped(filter) && IsScalarName(filter.name)
    requires !IsFilterActive(f, filter)
    ensures other.name == filter.name && other.value != filter.value ==>
      IsFilterDisabled(ToggleFilter(f, filter), other)
    ensures other.name != filter.name ==>
      (IsFilterActive(ToggleFilter(f, filter), other) <==> IsFilterActive(f, other))
      && (IsFilterDisabled(ToggleFilter(f, filter), other) <==> IsFilterDisabled(f, other))
  {
  }
}
