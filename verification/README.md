# vendas-ai booking wizard — a Dafny model

This project models the pure rules inside a React car-rental booking wizard, as a set of Dafny modules. The wizard's steps are localization, cars, accessories, protections, personal data and finalization. The React `setState` plumbing is removed. Each handler becomes a function from the old state and an event to a new state, or to an outcome datatype. The outcome datatype names the early `return` that the handler takes.

The modules follow the program's own structure:

- **Shared helpers.**
  - `Optional` models JavaScript `||` on optional numbers, and truthiness of optional strings.
  - `Strings` models digit extraction (`replace(/\D/g, '')`), JavaScript `trim`, ASCII `toLowerCase`, `includes`, `startsWith`, `join` and lexicographic order.
  - `Seqs` holds an order-preserving `filter`.
  - `Sorting` models `Array.prototype.sort` with a numeric comparator. It is an insertion sort, proved to be sorted, a permutation and stable.
- **Document and phone utilities.**
  - `CpfValidator` models `validateCPF`, the Receita Federal modulus-11 check.
  - `CpfMask` models `formatCPF`, `cleanCPF` and `cleanPassport`.
  - `PhoneMask` models `formatPhoneBR` and `cleanPhone`.
  - `FormatBooking` models the client part of `formatBooking`.
  - `DdiList` holds the DDI table and its sorted copy.
- **Vehicle search.**
  - `CarFilters` covers the availability filter, the price range, the agency list, the filter predicate, `toggleFilter` and `clearFilters`.
  - `CarFiltersView` covers the active and disabled predicates of the filter chips.
  - `PriceFilter` covers the ±10 buttons.
- **Selection and pricing.**
  - `Accessories` covers the accessory list update, the total, the view merge and the quantity clamp.
  - `Protections` covers the main/additional partition, the sort and the initial selections.
  - `Sidebar` holds the price formulas, over `real`.
- **Localization step.**
  - `LocalizationService` models `filterPartners`, `groupFranchiseKmByCategory`, `getRentalType` and the `getLocations` request.
  - `LocalizationForm` covers franchise visibility, form validity and the availability request built on submit.
  - `UseLocalization` covers the agency filter and renaming, the fallback list, the search guard, error joining and the retrieve-date rules.
- **Personal data step.** `PersonalData` covers phone validation, DDI extraction, form validity, the foreigner toggle and the saved customer record.
- **Admin user form.** `UserForm` covers `validateForm`, including its e-mail regular expression.
- **Navigation and environment.**
  - `StepNavigation` covers the step menu gate.
  - `Environment` covers the host-name classifier and its lookup tables.

Conventions used throughout:

- Money is `real`.
- Timestamps are whole minutes, as `int`. Combining a date with an hour is left to the caller, who passes the combined value.
- Absent optional fields are `Option` values.
- The result of a JavaScript `a || b` on a number is `OrElse`/`OrElseInt`: a missing value or a zero falls back.

## Model

| member | source | states |
|---|---|---|
| CpfValidator.ValidateCpf | src/utils/cpfValidator.ts:4-54 | the loop-computed check agrees with `IsValidCpf`: non-empty input, exactly 11 digits after stripping, not all-same, both modulus-11 check digits match |
| CpfValidator.IsValidCpf | src/utils/cpfValidator.ts:4-54 | the reference statement of validity; a valid input has at least 11 characters and its digits are not one digit repeated |
| CpfValidator.CheckDigit | src/utils/cpfValidator.ts:39-40 | the check digit lies in 0..9 and makes `digit + sum` divisible by 11, except that remainder 1 maps to 0 |
| CpfValidator.OnlyDigitsMatter | src/utils/cpfValidator.ts:10 | validity of a non-empty input equals validity of its digit string: every non-digit character is ignored |
| CpfValidator.WrongLengthRejected | src/utils/cpfValidator.ts:13-15 | any input whose digit count is not 11 is rejected |
| CpfValidator.RepeatedListIsAllSame | src/utils/cpfValidator.ts:18-29 | the ten literal strings the code rejects are exactly the 11-digit strings whose digits are all equal |
| CpfValidator.RepeatedDigitsPassChecksumButAreRejected | src/utils/cpfValidator.ts:18-53 | every all-same-digit string passes both check-digit tests, yet is rejected, so the explicit list is what rejects it |
| CpfValidator.CheckDigitsDetermined | src/utils/cpfValidator.ts:34-51 | two 11-digit strings with valid check digits that agree on their first nine digits are equal: digits 10 and 11 are functions of the first nine |
| CpfValidator.ExampleCheckDigits | src/utils/cpfValidator.ts:34-51 | the CPF 529.982.247-25 satisfies both weighted-sum rules |
| CpfValidator.ValidDigitString | src/utils/cpfValidator.ts:4-53 | an 11-digit, not-all-same string with valid check digits is accepted: the checks are also sufficient |
| CpfValidator.ExampleIsValid | src/utils/cpfValidator.ts:4-53 | the bare CPF 52998224725 is accepted |
| CpfValidator.ExampleMaskedIsValid | src/utils/cpfValidator.ts:10 | the masked CPF 529.982.247-25 is accepted, because the punctuation is removed before checking |
| CpfValidator.FormatPreservesValidity | src/utils/cpfValidator.ts:10 | masking a CPF with `formatCPF` neither creates nor destroys validity when there are at most 11 digits |
| CpfMask.CleanCpf | src/utils/cpfMask.ts:18-20 | the cleaned CPF consists of digits only |
| CpfMask.CleanCpfKeepsDigitsInOrder | src/utils/cpfMask.ts:18-20 | the cleaned CPF is a subsequence of the input, keeps every digit of it and is idempotent |
| CpfMask.FormatCpf | src/utils/cpfMask.ts:4-13 | the mask's digits are the first min(11, n) digits of the input, and it adds three separators once there are at least nine of them |
| CpfMask.FormatCpfShape | src/utils/cpfMask.ts:6-12 | with at least 9 of the first 11 digits the result is `DDD.DDD.DDD-` plus the remaining 0–2 digits; with fewer it is the bare digits |
| CpfMask.FormatCpfRoundTrip | src/utils/cpfMask.ts:4-20 | cleaning a formatted CPF gives back the first min(11, n) digits of the input |
| CpfMask.FormatCpfOfDigits | src/utils/cpfMask.ts:12 | a string of 9 to 11 digits is split 3-3-3-rest with `.`, `.` and `-` |
| CpfMask.FormatCpfExample | src/utils/cpfMask.ts:4-13 | 52998224725 is formatted as 529.982.247-25 |
| CpfMask.FormatCpfUsesFirstElevenDigits | src/utils/cpfMask.ts:6-9 | two inputs that share their first 11 digits format identically |
| CpfMask.FormatCpfIdempotent | src/utils/cpfMask.ts:4-13 | formatting an already formatted CPF changes nothing |
| CpfMask.CleanPassport | src/utils/cpfMask.ts:25-27 | the cleaned passport contains only `A`–`Z`, `0`–`9` and `-` and is no longer than the input |
| CpfMask.CleanPassportOfKeptChars | src/utils/cpfMask.ts:25-27 | an input made only of kept characters is returned upper-cased |
| CpfMask.CleanPassportIdempotent | src/utils/cpfMask.ts:25-27 | cleaning a passport twice equals cleaning it once |
| PhoneMask.CleanPhone | src/utils/phoneMask.ts:21-23 | the cleaned phone consists of digits only |
| PhoneMask.CleanPhoneKeepsDigitsInOrder | src/utils/phoneMask.ts:21-23 | the cleaned phone is a subsequence of the input, keeps every digit of it and is idempotent |
| PhoneMask.FormatPhoneBr | src/utils/phoneMask.ts:4-16 | the mask's digits are the first min(11, n) digits of the input, and it adds four characters (parentheses, space, dash) once there are at least six of them |
| PhoneMask.FormatPhoneBrShape | src/utils/phoneMask.ts:6-15 | below 6 digits the digits come back bare; with 6–10 the shape is `(XX) XXXX-` plus up to 4 digits; with 11 it is `(XX) XXXXX-XXXX` |
| PhoneMask.FormatPhoneBrRoundTrip | src/utils/phoneMask.ts:4-23 | cleaning a formatted phone gives back the first min(11, n) digits of the input |
| PhoneMask.FormatPhoneBrIdempotent | src/utils/phoneMask.ts:4-16 | formatting an already formatted phone changes nothing |
| FormatBooking.Documento | src/utils/formatBooking.ts:53-55 | the document is the cleaned CPF (digits only, no longer than the input) when a CPF is given, else the cleaned passport (only `A`–`Z`, `0`–`9` and `-`) when one is given, else empty |
| FormatBooking.LocalPhone | src/utils/formatBooking.ts:61-67 | the local phone is the cleaned phone, minus a leading `0055` exactly when the cleaned phone has more than 11 digits and starts with `0055` |
| FormatBooking.SplitPhone | src/utils/formatBooking.ts:70-71 | DDD followed by number gives back the local phone; the DDD has two digits when there are at least two, and is empty otherwise |
| FormatBooking.FirstChar | src/utils/formatBooking.ts:81 | the name prefix is the name's first character, or empty for an empty name |
| FormatBooking.FormatBooking | src/utils/formatBooking.ts:53-110 | the client block carries the chosen document and its type, the split phone (DDD and number together give the local phone), the e-mail, the full name as both `nome` and `sobrenome` with its first character as prefix, and empty landline fields; the booking copies the accessories, protection and tariffs (empty when missing), the coupon, protocol, vehicle codes, token and search dates and places; the quotation extras are present iff in quotation mode, with the coupon as `codCupom` and the store lists defaulting to empty; the agency booking code is set iff `idBooking` is true and `codeBooking` is truthy, and then is `codeBooking` |
| FormatBooking.SplitBrazilianInternational | src/utils/formatBooking.ts:61-71 | a `0055`-prefixed phone with at least 8 local digits loses the prefix before the DDD split |
| FormatBooking.BookingSplitsInternationalPhone | src/utils/formatBooking.ts:61-71 | a booking whose phone is `0055` followed by at least 8 local digits gets the first two local digits as DDD and the rest as number |
| FormatBooking.ShortNumberNotStripped | src/utils/formatBooking.ts:61-67 | a phone of at most 11 digits is never stripped, even when it starts with `0055` |
| FormatBooking.SplitIgnoresMask | src/utils/formatBooking.ts:58-71 | splitting a masked phone gives the same DDD and number as splitting the raw one |
| DdiList.DdiListFacts | src/utils/ddiList.ts:11-42 | every `fone` in the table is a four-digit string, no two are equal, and the Brazil entry `0055` is first |
| DdiList.FourDigitOrderIsLexicographic | src/utils/ddiList.ts:45-47 | for four-digit codes, `parseInt` order is lexicographic string order, and equal values mean equal strings |
| DdiList.SortByFoneOrders | src/utils/ddiList.ts:45-47 | sorting a table of distinct four-digit codes by `parseInt(fone)` gives a permutation whose keys strictly increase and whose codes increase lexicographically |
| DdiList.SortedDdiIncreases | src/utils/ddiList.ts:45-47 | `SORTED_DDI_LIST` has strictly increasing numeric codes, and lexicographically increasing ones |
| DdiList.SortedDdiFourDigits | src/utils/ddiList.ts:45-47 | every code of the sorted list is still four digits |
| DdiList.BrazilInSortedList | src/utils/ddiList.ts:12 | the Brazil entry is present in the sorted list |
| Sorting.SortBySorted | src/utils/ddiList.ts:45-47 | the numeric-comparator sort yields keys in non-decreasing order |
| Sorting.SortByStable | src/components/ProtectionsPage.tsx:47-53 | the sort keeps the relative order of elements with equal keys, as JavaScript's stable `sort` does |
| CarFilters.AvailableCars | src/hooks/useCarFilters.ts:102-104 | exactly the cars whose status is `Available` are kept |
| CarFilters.MinPrice | src/hooks/useCarFilters.ts:112-113 | the minimum is some car's price and no car is cheaper |
| CarFilters.MaxPrice | src/hooks/useCarFilters.ts:112-114 | the maximum is some car's price and no car is dearer |
| CarFilters.InitialPriceRange | src/hooks/useCarFilters.ts:107-116 | no available car gives {0, 0}; otherwise the range is the minimum and maximum available price, and every available price lies inside it |
| CarFilters.AvailableLocadorasSorted | src/hooks/useCarFilters.ts:122-130 | the agency list is strictly sorted, hence duplicate-free |
| CarFilters.CollectAgencies | src/hooks/useCarFilters.ts:122-130 | a name is collected iff it is non-empty and some car carries it |
| CarFilters.AvailableLocadoras | src/hooks/useCarFilters.ts:122-130 | a name is listed iff it is non-empty and belongs to some available car |
| CarFilters.FilteredCarsIsConjunction | src/hooks/useCarFilters.ts:133-175 | applying the filters one after another equals one filter by their conjunction |
| CarFilters.FilteredCars | src/hooks/useCarFilters.ts:133-175 | the result is no longer than the input, and every car in it is an input car that is available and priced within the range |
| CarFilters.FilteredCarsSpec | src/hooks/useCarFilters.ts:137-172 | the result is an ordered subsequence of the available cars; a car is in it iff its price is in range, it has more seats than `lugares`, transmission, air and doors match, and its agency is listed when the agency list is non-empty |
| CarFilters.ToggleScalar | src/hooks/useCarFilters.ts:182-213 | toggling the active value removes the key; toggling any other value sets it |
| CarFilters.ToggleAgency | src/hooks/useCarFilters.ts:215-230 | an absent agency is appended; a present one is removed, and an emptied list becomes an absent key |
| CarFilters.ToggleFilter | src/hooks/useCarFilters.ts:179-234 | no key other than the toggled filter's name changes; an unknown name changes nothing |
| CarFilters.ToggleTwiceRestores | src/hooks/useCarFilters.ts:182-230 | toggling the same filter twice from an absent value restores the original filters |
| CarFilters.ToggleKeepsAgenciesNormal | src/hooks/useCarFilters.ts:215-230 | the agency list stays non-empty and duplicate-free across toggles |
| CarFilters.ClearFilters | src/hooks/useCarFilters.ts:237-240 | clearing resets the active filters to none and the price range to the initial one |
| CarFilters.ClearedFiltersShowAllCars | src/hooks/useCarFilters.ts:237-240 | after clearing, every available car passes the filters |
| CarFiltersView.ActiveValue | src/components/CarFilters.tsx:24-31 | a scalar filter name has an active value iff that filter key is set; other names have none |
| CarFiltersView.IsFilterActive | src/components/CarFilters.tsx:22-39 | only scalar and agency chips can be active, and an active scalar chip has a value set for its key |
| CarFiltersView.IsFilterDisabled | src/components/CarFilters.tsx:42-52 | only a scalar chip can be disabled, and a disabled chip is never active |
| CarFiltersView.FilterStates | src/components/CarFilters.tsx:22-52 | no chip is both active and disabled; agency chips are never disabled; a scalar chip is neither iff no value is active for its name |
| CarFiltersView.ToggleFlipsActive | src/components/CarFilters.tsx:22-38 | toggling a known chip flips whether it is shown active |
| CarFiltersView.CheckingDisablesSiblings | src/components/CarFilters.tsx:44-50 | checking a scalar chip disables every other value of the same name and leaves chips of other names as they were |
| PriceFilter.Decrease | src/components/PriceFilter.tsx:62-65 | the lower value drops by at most 10 and never below the minimum; the upper value is untouched |
| PriceFilter.Increase | src/components/PriceFilter.tsx:73-76 | the upper value rises by at most 10 and never above the maximum; the lower value is untouched |
| PriceFilter.DecreaseDisabled | src/components/PriceFilter.tsx:66 | the decrease button is disabled exactly when pressing it would not lower the lower value |
| PriceFilter.IncreaseDisabled | src/components/PriceFilter.tsx:77 | the increase button is disabled exactly when pressing it would not raise the upper value |
| PriceFilter.ButtonsKeepBounds | src/components/PriceFilter.tsx:62-76 | starting inside [min, max], both buttons keep the range inside it |
| PriceFilter.EnabledButtonsMove | src/components/PriceFilter.tsx:62-77 | an enabled button strictly moves its end; a disabled one at the bound leaves the range unchanged |
| Accessories.ChargedUnits | src/components/AccessoriesPage.tsx:57-59 | the charged quantity is the quantity when no cap is set, and otherwise the smaller of quantity and cap |
| Accessories.Updated | src/components/AccessoriesPage.tsx:61-66 | the updated item carries the new quantity, is selected iff the quantity is positive, and is priced with the capped charge |
| Accessories.FindIndexByName | src/components/AccessoriesPage.tsx:76-78 | the index is that of the first entry with the name, or −1 when there is none |
| Accessories.ChangeAccessory | src/components/AccessoriesPage.tsx:68-85 | quantity 0 removes every entry with that name; an existing name is replaced in place at its first index with the length unchanged; a new name is appended |
| Accessories.RemovalKeepsOrder | src/components/AccessoriesPage.tsx:69-73 | removal keeps the remaining entries in their original order |
| Accessories.ChangeKeepsNamesUnique | src/components/AccessoriesPage.tsx:68-85 | names that are unique before a change stay unique after it |
| Accessories.ChangeAccessoryTotal | src/components/AccessoriesPage.tsx:76-95 | a replacement changes the total by the new charge minus the old one; an append adds the new charge |
| Accessories.TotalPrice | src/components/AccessoriesPage.tsx:90-95 | the total of no items is 0, and with non-negative item totals (missing ones counting 0) it is non-negative |
| Accessories.TotalPriceNonNegative | src/components/AccessoriesPage.tsx:90-95 | with non-negative item totals, missing ones counting 0, the total is non-negative |
| Accessories.FindByName | src/components/AccessoriesPage.tsx:42-51 | the lookup succeeds iff some selected entry has the name, and returns the first such entry |
| Accessories.ViewItem | src/components/AccessoriesPage.tsx:42-51 | an accessory is shown selected iff a selected entry has its name; its quantity is the first such entry's when non-zero, else its own when non-zero, else 0; no other field changes |
| Accessories.AccessoriesView | src/components/AccessoriesPage.tsx:42-51 | the view has one entry per offered accessory, in order, each merged with the selection |
| Accessories.ViewReflectsChange | src/components/AccessoriesPage.tsx:42-85 | after a change the view shows the accessory selected with the new quantity, or unselected after quantity 0 |
| Accessories.MaxQuantity | src/components/AccessoriesList.tsx:17 | the cap is `quantidadeMaxima`, or 999 when it is missing or zero |
| Accessories.ClampQuantity | src/components/AccessoriesList.tsx:16-18 | a missing value counts as 0; values in [0, cap] pass through; negatives become 0; values above the cap become the cap |
| Accessories.ClampIdempotent | src/components/AccessoriesList.tsx:16-18 | clamping a clamped quantity changes nothing |
| Protections.MainProtections | src/components/ProtectionsPage.tsx:41-53 | the main list is a permutation of the protections whose code is outside {17, 41, 7, 1, 32} |
| Protections.AdditionalProtections | src/components/ProtectionsPage.tsx:41-53 | the additional list is a permutation of the protections whose code is in that set |
| Protections.ProtectionsPartition | src/components/ProtectionsPage.tsx:41-53 | together the two lists hold every protection exactly once; the main list holds only codes outside the additional set, the additional list only codes in it, and no protection is in both |
| Protections.ProtectionsSorted | src/components/ProtectionsPage.tsx:47-53 | both lists are sorted by `ordenacao`, missing counting 0, and keep input order among equal keys |
| Protections.FindRequired | src/components/ProtectionsPage.tsx:68 | the result is the first required protection, or none when none is required |
| Protections.InitialProtection | src/components/ProtectionsPage.tsx:62-70 | the first saved protection, else the first required main one, else the first main one, else none |
| Protections.InitialAdditionalProtection | src/components/ProtectionsPage.tsx:77-80 | the second saved protection, or none when fewer than two are saved |
| Protections.ProtectionDiff | src/components/ProtectionsPage.tsx:89-95 | a required protection costs nothing extra; any other costs its `valorTotal` |
| Protections.SelectedProtections | src/components/ProtectionsPage.tsx:106-118 | at most two protections, one per present selection, with the main one first |
| Protections.SavedSelectionRestores | src/components/ProtectionsPage.tsx:62-80 | saving the main and additional selection and coming back restores both |
| Protections.ClickAdditional | src/components/ProtectionsPage.tsx:210 | clicking an additional protection selects it iff it was not selected |
| Protections.ClickAdditionalTwice | src/components/ProtectionsPage.tsx:210 | clicking the same unselected protection twice leaves nothing selected |
| Sidebar.DailyTotal | src/components/Sidebar.tsx:116 | the daily total prefers a non-zero monthly total, then `valorTotal`, then 0 |
| Sidebar.AccessoryDays | src/components/Sidebar.tsx:74-76 | an accessory is charged for min(dailys, cap) days, and for `dailys` when the cap is missing or zero |
| Sidebar.AccessoryCharge | src/components/Sidebar.tsx:73-78 | the accessory charge is the charged days times the daily price times the quantity (a missing quantity counts as 0, so it charges nothing); with non-negative inputs it is non-negative |
| Sidebar.Overtime | src/components/Sidebar.tsx:96-112 | overtime is zero unless both the number of days and the extra hours are positive; then it is hours × (protections ÷ days × the protection overtime percentage + the overtime price), stated multiplied out by days × 100 |
| Sidebar.Percentage | src/components/Sidebar.tsx:89-90 | the amount times 100 is the base times the percentage; a zero percentage gives zero; non-negative base and percentage give a non-negative amount |
| Sidebar.AdminTax | src/components/Sidebar.tsx:81-93 | the admin tax times 100 is the base value (daily total, optionals, protections, and the stored return fee and overtime) times `percentualTaxaEventual`; it is zero when the car has no percentage |
| Sidebar.BaseValue | src/components/Sidebar.tsx:83-88 | the base value summed from the daily total, optionals, protections, return fee and overtime is non-negative when all of them are |
| Sidebar.EffectStep | src/components/Sidebar.tsx:115-130 | the effect stores the car's return fee (the previous one when the car has none), the overtime, the admin tax, and a total equal to the base value plus the admin tax |
| Sidebar.SettledTotal | src/components/Sidebar.tsx:115-126 | the settled total times 100 is the base (with the car's return fee and the overtime) times 100 plus the percentage; without a percentage it is the base |
| Sidebar.EffectSettles | src/components/Sidebar.tsx:81-130 | running the effect twice reaches a fixed point, whose admin tax is taken on a base that includes the return fee |
| Sidebar.TotalNonNegative | src/components/Sidebar.tsx:115-126 | with non-negative inputs, the daily total, the sums, the overtime and the settled total are all non-negative |
| Sidebar.PerUnitDaily | src/components/Sidebar.tsx:164 | the per-day price times the number of days is the daily total when there are days, and 0 otherwise |
| LocalizationService.FilterPartners | src/services/localization.ts:131-138 | an empty search gives no partners; otherwise a partner is kept iff its lower-cased description contains the lower-cased search |
| LocalizationService.FilterPartnersKeepsOrder | src/services/localization.ts:134-137 | the kept partners appear in their input order |
| LocalizationService.FilterPartnersIgnoresCase | src/services/localization.ts:134-137 | lower-casing the search beforehand changes nothing |
| LocalizationService.GroupByCategory | src/services/localization.ts:143-155 | the grouping has a bucket exactly for each category that occurs |
| LocalizationService.GroupBucketIsFilter | src/services/localization.ts:143-155 | each bucket is the input filtered to its category, in input order |
| LocalizationService.GroupPlacesEachItem | src/services/localization.ts:143-155 | every item lands in the bucket of its own category and in no other |
| LocalizationService.GroupSizesSum | src/services/localization.ts:143-155 | the bucket sizes add up to the input length |
| LocalizationService.GetRentalType | src/services/localization.ts:160-168 | `Parcerias` iff a partner is given; otherwise `Mensal Flex` iff the range is non-zero and the day difference reaches it; `Eventual` otherwise |
| LocalizationService.RentalTypeMonotone | src/services/localization.ts:160-168 | a longer rental never turns `Mensal Flex` back into another type |
| LocalizationService.LocationsRequestFor | src/services/localization.ts:73-92 | the request carries the search; the agency code is the given positive one, else 100; `locadoras` is included iff it is non-empty |
| LocalizationService.GetLocations | src/services/localization.ts:64-105 | a search under 3 characters gives four empty lists and no errors without a request; otherwise it returns the service's data, and passes the service's errors on exactly when there is at least one |
| LocalizationService.NonPositiveAgencyActsAsMissing | src/services/localization.ts:73-92 | a non-positive agency code sends the same request as a missing one, and an empty agency list the same as a missing one |
| LocalizationService.ShortSearchMakesNoRequest | src/services/localization.ts:64-71 | for short searches the result does not depend on the service at all |
| LocalizationForm.CanShowFranchise | src/components/LocalizationForm.tsx:166-187 | with a partner, shown iff its code is one of the five franchise codes; without one, shown iff the day difference is at least 30 |
| LocalizationForm.FranchiseNeedsThirtyDays | src/components/LocalizationForm.tsx:185-187 | without a partner the franchise shows iff the return is at least 30 whole days after pickup |
| LocalizationForm.PartnerIgnoresDates | src/components/LocalizationForm.tsx:166-183 | with a partner the dates play no part |
| LocalizationForm.IsFormValid | src/components/LocalizationForm.tsx:191-196 | valid iff a pickup place is set, a return place is set when returning elsewhere, and a franchise is set when one can be shown |
| LocalizationForm.FinalRetrievePlace | src/components/LocalizationForm.tsx:215 | the return place is the chosen one when returning elsewhere, else the pickup place |
| LocalizationForm.StoreCodes | src/components/LocalizationForm.tsx:252-253 | store lists are the place's `lojas` when present, else the single `sigla` or an empty code |
| LocalizationForm.Tarifas | src/components/LocalizationForm.tsx:222-226 | the partner, if any, comes first, followed by the franchise only when one can be shown |
| LocalizationForm.ProtocolToUse | src/components/LocalizationForm.tsx:235 | the given protocol when truthy, else the user's, else none |
| LocalizationForm.AgencyCodeToUse | src/components/LocalizationForm.tsx:260 | the given agency code when non-zero, else the user's non-zero `id_carrental`, else 100; never 0 |
| LocalizationForm.Submit | src/components/LocalizationForm.tsx:199-262 | an invalid form stops first, a missing protocol next; a sent request carries the pickup and return stores, `!showRetrieve`, the tariffs, the partner and the franchise, the protocol (the given one, else the logged-in user's), and the typed coupon iff one was typed |
| LocalizationForm.ValidFormHasPlaces | src/components/LocalizationForm.tsx:215-219 | the "places not selected" error cannot happen after the validity gate |
| LocalizationForm.SamePlaceReturn | src/components/LocalizationForm.tsx:215-253 | without "return elsewhere" the return stores are the pickup stores and the same-place flag is set |
| UseLocalization.AgencyName | src/hooks/useLocalization.ts:127 | the agency's name is `nome` when truthy, else `nomeAgencia` when truthy, else empty |
| UseLocalization.NamelessAgencyAllowed | src/hooks/useLocalization.ts:125-133 | an agency without a name passes the allowed-agency filter |
| UseLocalization.CanonicalName | src/hooks/useLocalization.ts:136-147 | a canonical name exists iff the key contains one of movida, unidas, localiza, foco; the first match in that order wins, giving Movida, Unidas, Localiza or Foco |
| UseLocalization.Normalise | src/hooks/useLocalization.ts:136-147 | a matched agency gets the canonical name as both `nome` and `nomeAgencia`; an unmatched one is returned unchanged |
| UseLocalization.LoadAgencies | src/hooks/useLocalization.ts:118-160 | a failed load gives the fallback list; a successful one gives the allowed agencies, normalised, in order |
| UseLocalization.LoadedAgenciesCanonicalOrPartial | src/hooks/useLocalization.ts:125-147 | every loaded agency has a canonical name or is an unchanged input agency whose name is a fragment of an allowed company |
| UseLocalization.NamelessAgencyKeptUnchanged | src/hooks/useLocalization.ts:125-147 | a nameless agency survives loading and is not renamed |
| UseLocalization.EmptyKeyNotCanonical | src/hooks/useLocalization.ts:136-147 | the empty name matches no canonical company |
| UseLocalization.FallbackIsNormal | src/hooks/useLocalization.ts:153-158 | the fallback list is codes 100, 105, 103 and 114, and each entry's two name fields agree |
| UseLocalization.ErrorText | src/hooks/useLocalization.ts:239-242 | an error reads as its message when truthy, else as `Erro <code>` when the code is truthy, else as `Erro desconhecido` |
| UseLocalization.ErrorMessageAppend | src/hooks/useLocalization.ts:236-247 | joining two non-empty error lists puts `; ` between their messages |
| UseLocalization.ErrorMessageSingle | src/hooks/useLocalization.ts:236-247 | a single error's message is its own text |
| UseLocalization.MarkSingleStores | src/hooks/useLocalization.ts:217-226 | every returned store is marked with `qtLojas` 1 and is otherwise unchanged |
| UseLocalization.SearchLocations | src/hooks/useLocalization.ts:198-250 | a search under 3 characters clears all lists and the error; otherwise it requests with the selected agencies when any, keeps the service's airports, cities and districts, marks every store single, and reports an error iff the service returned some, namely their texts joined with `; ` |
| UseLocalization.SearchLocationsUsesService | src/hooks/useLocalization.ts:198-250 | for every search, the service is asked with the selected agencies exactly when some are selected, and then with exactly those; the agency code sent is never 0; the hook's airports, cities, districts, store count and error presence are the service's |
| UseLocalization.DiffIn | src/hooks/useLocalization.ts:350 | the difference in whole units truncates toward zero, as dayjs `diff` does |
| UseLocalization.RetrieveAfterDateChange | src/hooks/useLocalization.ts:344-359 | the retrieve time is the combined value when it is at least one whole hour after pickup, else pickup plus one day |
| UseLocalization.RetrieveDateChangeKeepsOrder | src/hooks/useLocalization.ts:344-359 | after a date change the retrieve time is at least one hour after pickup |
| UseLocalization.RetrieveAfterHourChange | src/hooks/useLocalization.ts:361-386 | a combined value a whole day or more before pickup resets the retrieve time to pickup plus one day; one a whole day or more after it is kept; on the same day it is kept when at least a whole hour after pickup, else set to pickup plus one hour |
| UseLocalization.RetrieveHourChangeKeepsOrder | src/hooks/useLocalization.ts:361-386 | after an hour change the retrieve time is at least one hour after pickup; a combined value an hour or more after pickup is kept, one a day or more before it becomes pickup plus one day, and any other becomes pickup plus one hour |
| UseLocalization.CombineDayAndTime | src/hooks/useLocalization.ts:282-284 | the combined instant lies on the given date's day at the given time's hour and minute |
| UseLocalization.NextDayAtTen | src/hooks/useLocalization.ts:300 | the result is ten o'clock on the day after the given instant, so between 10 and 34 hours after it |
| UseLocalization.ClampPickup | src/hooks/useLocalization.ts:287-294 | the pickup is at least the earliest allowed one; it is the combined instant iff that is not before the minimum, else the minimum |
| UseLocalization.RetrieveAfterPickupDateChange | src/hooks/useLocalization.ts:296-310 | a return on an earlier day (by whole days) moves to ten o'clock on the day after pickup; on the same day, one not a whole hour after pickup moves to pickup plus one hour; otherwise it is kept |
| UseLocalization.RetrieveAfterPickupHourChange | src/hooks/useLocalization.ts:331-338 | a return not a whole hour after pickup moves to pickup plus one day; otherwise it is kept |
| UseLocalization.PickupDateChangeKeepsOrder | src/hooks/useLocalization.ts:296-310 | after a pickup date change the return is at least one hour after the combined pickup, and the old return is kept iff it already was |
| UseLocalization.PickupHourChangeKeepsOrder | src/hooks/useLocalization.ts:331-338 | after a pickup hour change the return is at least one hour after the combined pickup, and the old return is kept iff it already was |
| UseLocalization.OnPickupDateChange | src/hooks/useLocalization.ts:281-313 | the picked day at the current hour is clamped to the minimum pickup; the earliest return becomes the unclamped instant plus one hour; the return is never before it, and is kept iff it was not already before it |
| UseLocalization.OnPickupHourChange | src/hooks/useLocalization.ts:315-341 | the current day at the picked hour is clamped to the minimum pickup; the earliest return becomes the unclamped instant plus one hour; the return is never before it, and is kept iff it was not already before it |
| UseLocalization.ClampedPickupCanPassReturn | src/hooks/useLocalization.ts:287-310 | a pickup picked before the minimum is clamped forward past a return that the unclamped check kept |
| PersonalData.PatternsAreRepeats | src/components/PersonalDataPage.tsx:115-125 | the nine rejected patterns are exactly nine copies of one digit from 0 to 8 |
| PersonalData.ValidPhone | src/components/PersonalDataPage.tsx:108-128 | a phone is valid iff it has at least 10 digits whose first nine are not nine copies of one of 0–8; a valid phone has at least 10 characters |
| PersonalData.ValidPhoneCharacterised | src/components/PersonalDataPage.tsx:108-128 | a phone is valid iff it has at least 10 digits and its first nine digits are not nine copies of one of 0–8 |
| PersonalData.ValidPhoneIgnoresFormatting | src/components/PersonalDataPage.tsx:108-109 | cleaning or masking a phone does not change its validity |
| PersonalData.FindDdi | src/components/PersonalDataPage.tsx:167 | the result is the first list entry whose code prefixes the phone, or none when no code does |
| PersonalData.PrefixCodeUnique | src/components/PersonalDataPage.tsx:167 | among distinct four-digit codes at most one prefixes a given phone |
| PersonalData.FindDdiIgnoresOrder | src/components/PersonalDataPage.tsx:167 | any reordering of a table of distinct four-digit codes finds the same entry |
| PersonalData.SortedLookupAgreesWithList | src/components/PersonalDataPage.tsx:167 | looking up in `SORTED_DDI_LIST` finds what a lookup in `DDI_LIST` finds |
| PersonalData.SplitDdi | src/components/PersonalDataPage.tsx:158-172 | a leading `55` gives DDI `0055` and drops two characters; otherwise the found code is split off; with no code found the DDI stays `0055` and the phone is kept |
| PersonalData.LoadCustomerPhone | src/components/PersonalDataPage.tsx:158-175 | an empty stored phone leaves the DDI alone; otherwise the split DDI is used, and the rest is masked only for `0055` |
| PersonalData.FullPhone | src/components/PersonalDataPage.tsx:292 | the submitted phone is the DDI followed by the cleaned local digits |
| PersonalData.ReloadKeepsForeignPhone | src/components/PersonalDataPage.tsx:158-175 | a foreign phone saved and loaded again gives back the same DDI and, resubmitted, the same stored phone |
| PersonalData.ReloadKeepsBrazilianPhone | src/components/PersonalDataPage.tsx:158-175 | a `0055` phone of at most 11 local digits round-trips through loading and resubmission |
| PersonalData.ReloadPrefixesBareBrazilianPhone | src/components/PersonalDataPage.tsx:162-164 | a stored phone starting with `55` comes back with `0055` in front of its remaining digits |
| PersonalData.IsFormValid | src/components/PersonalDataPage.tsx:247-259 | valid iff the name, phone and e-mail are non-empty and, for a foreigner, the passport is non-empty, or, for a resident, the CPF passes the check-digit validation; a valid resident's CPF has 11 digits |
| PersonalData.MaskedCpfFormIsValid | src/components/PersonalDataPage.tsx:247-259 | a resident form with the masked CPF `529.982.247-25` and the other fields filled is valid |
| PersonalData.FormValidityIgnoresInactiveDocument | src/components/PersonalDataPage.tsx:247-259 | a foreigner's validity does not depend on the CPF, and a resident's does not depend on the passport |
| PersonalData.ToggleForeigner | src/components/PersonalDataPage.tsx:232-244 | the flag flips; becoming a foreigner clears the CPF; ceasing to be one clears the passport; the other fields are kept |
| PersonalData.ToggleClearsDocuments | src/components/PersonalDataPage.tsx:232-257 | after a toggle at most one document is filled; from such a form the toggled form is invalid; toggling twice only clears the documents |
| PersonalData.LookupRequest | src/components/PersonalDataPage.tsx:131-152 | a foreigner without a passport and a resident without a valid CPF are refused; a resident is looked up by the cleaned CPF, which has 11 digits and is valid; a foreigner by the passport |
| PersonalData.Submit | src/components/PersonalDataPage.tsx:262-322 | an invalid phone stops first, an incomplete form next; a saved customer has the DDI-prefixed phone, a non-empty name and e-mail, and either the passport with type 3 or the cleaned CPF (11 digits, valid) with type 1 |
| PersonalData.SubmittedBrazilianPhoneSplits | src/components/PersonalDataPage.tsx:292 | a submitted Brazilian phone splits in `formatBooking` into the DDD and number of its local digits |
| UserForm.EmailCheckMatchesPattern | src/components/CreateEditUserModal.tsx:78 | the executable e-mail check holds iff the string matches `^[^\s@]+@[^\s@]+\.[^\s@]+$` |
| UserForm.IsValidEmail | src/components/CreateEditUserModal.tsx:78 | a valid e-mail contains `@` and has at least five characters |
| UserForm.ValidEmailShape | src/components/CreateEditUserModal.tsx:78 | a valid e-mail has no whitespace, exactly one `@`, and does not start with `@` |
| UserForm.ExampleValidEmail | src/components/CreateEditUserModal.tsx:78 | ana@movida.com.br matches the pattern |
| UserForm.ExampleEmailWithoutDot | src/components/CreateEditUserModal.tsx:78 | ana@localhost does not match, because the domain has no dot |
| UserForm.InitialForm | src/components/CreateEditUserModal.tsx:38-63 | create mode starts blank; edit mode copies the user's name, surname, e-mail and login (empty when missing), profile (0 when missing) and active flag (true when missing) |
| UserForm.Errors | src/components/CreateEditUserModal.tsx:65-89 | each field is flagged iff its own rule fails: blank names, blank or non-matching e-mail with the "required" message only when blank, a blank login only in create mode, profile 0 |
| UserForm.ValidateForm | src/components/CreateEditUserModal.tsx:90-91 | the form is valid iff the error map is empty |
| UserForm.ValidateFormIff | src/components/CreateEditUserModal.tsx:65-91 | valid iff both names are non-blank, the e-mail matches the pattern, the login is non-blank in create mode, and a profile is chosen |
| UserForm.BlankCreateFormFlagsEverything | src/components/CreateEditUserModal.tsx:65-89 | a blank form in create mode flags all five fields, the e-mail with the "required" message |
| UserForm.EditingRelaxesLogin | src/components/CreateEditUserModal.tsx:82-84 | edit mode flags exactly the create-mode fields minus the login |
| UserForm.Submit | src/components/CreateEditUserModal.tsx:94-131 | an invalid form sends nothing and shows its errors; with a user it updates without login or role; without one it creates with the login and the sales role 1; both send the form's fields |
| UserForm.SubmittedRequestIsValid | src/components/CreateEditUserModal.tsx:94-131 | whatever is sent has non-blank names, a matching e-mail and a profile, and a created user has a non-blank login |
| StepNavigation.StepOrder | src/components/StepNavigationMenu.tsx:16-47 | there are exactly six steps: localization, cars, accessories, protections, personal, finalization |
| StepNavigation.StepsDistinct | src/components/StepNavigationMenu.tsx:16-47 | no two menu entries share a step id |
| StepNavigation.HandleStepClick | src/components/StepNavigationMenu.tsx:59-63 | a click changes step iff the step is enabled, and then to that step |
| StepNavigation.ClickNeverSkipsAhead | src/components/StepNavigationMenu.tsx:54-63 | clicking a menu entry moves only to steps at or before the current index, and always succeeds for those |
| StepNavigation.EnabledMonotone | src/components/StepNavigationMenu.tsx:54-57 | advancing the current index never disables a step that was enabled |
| StepNavigation.EnabledSteps | src/components/StepNavigationMenu.tsx:54-57 | the enabled steps are the prefix of the menu up to the current index |
| StepNavigation.OneActiveStep | src/components/StepNavigationMenu.tsx:69 | at most one entry is active, and one is iff the current step is a known step id |
| Environment.CurrentEnvironment | src/config/environment.ts:26-38 | a host containing `dev.` is dev; otherwise one containing a homolog marker is homolog |
| Environment.ProdIffNoMarker | src/config/environment.ts:29-37 | prod iff the host contains neither `dev.` nor a homolog marker; dev iff it contains `dev.` |
| Environment.TablesCoverEnvironment | src/config/environment.ts:2-23 | the API URL, origin code and token tables all have an entry for every classified host |
| Environment.LocalhostIsHomolog | src/config/environment.ts:31-32 | `localhost:5173` is classified homolog |

## Left out

- Network and storage I/O is not modelled. This covers the API client and auth service, `localStorage`, toasts and `console` logging. Service responses are function parameters (`api`), and a failed load is `None`.
- Calendar arithmetic is reduced to minutes on a local time line whose minute 0 is a midnight. Time zones, daylight-saving shifts and seconds are not modelled. The return-date handlers take the combined date and hour as an input. The dayjs `diff` is truncating division (`TruncDiv`, `DiffIn`).
- The date strings sent in the availability request are left out. They are dayjs `format` output.
- `Intl.NumberFormat` currency text and `toFixed` rendering are left out. Money is an exact `real`, with no rounding.
- Debounce timers, the Sidebar clipboard copy and all JSX rendering are left out.
- The `catch` branch of `searchLocations` is left out, because it handles a thrown exception.
- The `errors` maps that `PersonalDataPage` shows are left out. The handlers' outcomes name the branch instead.
- The API calls that create or edit a customer or user, and the `customerStatus` choice between them, are left out.
- `Strings.ToLower`: only ASCII letters are lower-cased. JavaScript `toLowerCase` also folds accented letters. All the names compared here are ASCII.
- CarFilters.ToggleFilter: requires that a filter's value has the type its name implies (`WellTyped`). The source's loosely typed `value` can carry any type.
- Accessories.ClampQuantity: its range ensures assume a non-negative cap. With a negative `quantidadeMaxima` the source yields values outside [0, cap], and the model computes the same values, but the stated bound does not cover them.
- LocalizationService.GroupByCategory: keys are plain strings. JavaScript object keys such as `__proto__` that collide with prototype members are not modelled.
- PersonalData.ReloadKeepsBrazilianPhone: stated over any DDI table of distinct four-digit codes. `SortedDdiListIsGood` shows that `SORTED_DDI_LIST` is such a table.
- `formatBooking`: the accessory, protection and tariff items are opaque string maps (`Record`), passed through unchanged. The extra keys allowed by the input's index signature are not modelled.
- Environment: the origin codes and API tokens are credentials and appear as placeholders. Only which environments have an entry is modelled.

Some behaviours of the source are faithfully modelled although they look unintended:

- A partial agency name such as `Uni` passes the agency filter and keeps its raw name.
- `formatBooking` takes the first two digits of a foreign phone as its DDD.
- Nine 9s pass `validatePhone`.
- A pickup date or hour before the minimum is clamped, but the return is checked against the unclamped instant, so the return can end up before the pickup (`ClampedPickupCanPassReturn`).
- `localhost` is classified as homolog, although the dev API URL points at localhost.
