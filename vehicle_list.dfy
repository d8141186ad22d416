/** The vehicle list view: the search filter over the rows the client
    holds, the edit state a row opens, and the update payload it sends. */
module VehicleList {
  import opened Common
  import opened Text
  import opened Dates
  import opened VehicleModel
  import opened Seqs

  /** A vehicle as `GET /vehicles` delivered it: its `_id` and its JSON fields. */
  datatype VehicleRow = VehicleRow(id: Id, data: VehicleJson)

  function RowId(v: VehicleRow): Id { v.id }

  // ---- the filter ----

  /** The five date categories of the filter drop-down. */
  datatype Category = InsuranceExpiry | PermitExpiry | TaxExpiry | FitnessValidity | PucDate

  /** The `filterCategory` value naming each category. */
  function CategoryNamed(name: string): (c: Option<Category>)
    ensures name == "insurance" ==> c == Some(InsuranceExpiry)
    ensures name == "permit" ==> c == Some(PermitExpiry)
    ensures name == "tax" ==> c == Some(TaxExpiry)
    ensures name == "fitness" ==> c == Some(FitnessValidity)
    ensures name == "puc" ==> c == Some(PucDate)
    ensures c.None? <==> name !in {"insurance", "permit", "tax", "fitness", "puc"}
  {
    if name == "insurance" then Some(InsuranceExpiry)
    else if name == "permit" then Some(PermitExpiry)
    else if name == "tax" then Some(TaxExpiry)
    else if name == "fitness" then Some(FitnessValidity)
    else if name == "puc" then Some(PucDate)
    else None
  }

  /** The date a category looks at, through optional chaining. */
  function CategoryDate(v: VehicleRow, c: Category): Option<string>
  {
    match c
    case InsuranceExpiry => if v.data.brakeInsurance.None? then None else v.data.brakeInsurance.value.expiryDate
    case PermitExpiry => if v.data.permit.None? then None else v.data.permit.value.expiryDate
    case TaxExpiry => if v.data.tax.None? then None else v.data.tax.value.expiryDate
    case FitnessValidity => v.data.fitnessValidity
    case PucDate => v.data.pucDate
  }

  /** `v.vehicleNo?.toLowerCase().includes(searchNo.toLowerCase())`. */
  predicate NumberMatches(v: VehicleRow, searchNo: string)
  {
    v.data.vehicleNo.Some? && Contains(ToLower(v.data.vehicleNo.value), ToLower(searchNo))
  }

  /** `field && parseDateForInput(field) === searchDate`. */
  predicate CategoryMatches(v: VehicleRow, c: Category, searchDate: string, parse: DateParser)
  {
    var field := CategoryDate(v, c);
    field.Some? && field.value != "" && ParseDateForInput(field, parse) == searchDate
  }

  /** The predicate of `filteredVehicles`. */
  predicate Passes(v: VehicleRow, searchNo: string, searchDate: string, category: string, parse: DateParser)
  {
    if !NumberMatches(v, searchNo) then false
    else if searchDate == "" then true
    else if category == "all" then
      CategoryMatches(v, InsuranceExpiry, searchDate, parse) || CategoryMatches(v, PermitExpiry, searchDate, parse)
      || CategoryMatches(v, TaxExpiry, searchDate, parse) || CategoryMatches(v, FitnessValidity, searchDate, parse)
      || CategoryMatches(v, PucDate, searchDate, parse)
    else match CategoryNamed(category)
      case None => false
      case Some(c) => CategoryMatches(v, c, searchDate, parse)
  }

  /** `filteredVehicles`: the rows that pass, in their original order. */
  function FilterVehicles(rows: seq<VehicleRow>, searchNo: string, searchDate: string, category: string, parse: DateParser): (r: seq<VehicleRow>)
    ensures IsSubsequence(r, rows)
    ensures forall v :: v in r <==> v in rows && Passes(v, searchNo, searchDate, category, parse)
    ensures forall v :: multiset(r)[v] == if Passes(v, searchNo, searchDate, category, parse) then multiset(rows)[v] else 0
  {
    Filter(rows, v => Passes(v, searchNo, searchDate, category, parse))
  }

  /** A row passes only if its number contains the search text, ignoring case. */
  lemma PassesNeedsNumber(v: VehicleRow, searchNo: string, searchDate: string, category: string, parse: DateParser)
    requires Passes(v, searchNo, searchDate, category, parse)
    ensures v.data.vehicleNo.Some?
    ensures exists i :: OccursAt(ToLower(v.data.vehicleNo.value), ToLower(searchNo), i)
  {
    ContainsIffOccurs(ToLower(v.data.vehicleNo.value), ToLower(searchNo));
  }

  /** The search text's own case does not matter. */
  lemma SearchIgnoresCase(v: VehicleRow, searchNo: string)
    ensures NumberMatches(v, ToLower(searchNo)) <==> NumberMatches(v, searchNo)
  {
    ToLowerIdempotent(searchNo);
  }

  /** The number test compares case-insensitively: two search texts that
      lower-case alike select the same rows. */
  lemma SearchCaseInsensitive(v: VehicleRow, t1: string, t2: string)
    requires ToLower(t1) == ToLower(t2)
    ensures NumberMatches(v, t1) <==> NumberMatches(v, t2)
  {
  }

  /** A row numbered `"MH12AB"` is found by the search `"mh12"`: an upper-case
      number matches a lower-case search. */
  lemma UpperNumberFoundByLowerSearch(v: VehicleRow)
    requires v.data.vehicleNo == Some("MH12AB")
    ensures NumberMatches(v, "mh12")
  {
    var lowered := ToLower("MH12AB");
    assert lowered == "mh12ab";
    assert ToLower("mh12") == "mh12";
    assert IsPrefix("mh12", lowered);
  }

  /** With no date searched, only the number test applies. */
  lemma EmptyDateTestsNumberOnly(v: VehicleRow, searchNo: string, category: string, parse: DateParser)
    ensures Passes(v, searchNo, "", category, parse) <==> NumberMatches(v, searchNo)
  {
  }

  /** With neither a number nor a date searched, exactly the rows that have
      a number are shown, whatever the category. */
  lemma EmptySearchShowsNumbered(rows: seq<VehicleRow>, category: string, parse: DateParser)
    ensures forall v :: v in FilterVehicles(rows, "", "", category, parse) <==> v in rows && v.data.vehicleNo.Some?
  {
    forall v | v in rows && v.data.vehicleNo.Some?
      ensures Passes(v, "", "", category, parse)
    {
      ContainsEmpty(ToLower(v.data.vehicleNo.value));
    }
  }

  /** Category `"all"` keeps a row when some category matches. */
  lemma AllIsAnyCategory(v: VehicleRow, searchNo: string, searchDate: string, parse: DateParser)
    requires searchDate != ""
    ensures Passes(v, searchNo, searchDate, "all", parse) <==>
            NumberMatches(v, searchNo) && exists c :: CategoryMatches(v, c, searchDate, parse)
  {
    if exists c :: CategoryMatches(v, c, searchDate, parse) {
      var c :| CategoryMatches(v, c, searchDate, parse);
      assert c.InsuranceExpiry? || c.PermitExpiry? || c.TaxExpiry? || c.FitnessValidity? || c.PucDate?;
    }
  }

  /** A category name the filter does not know hides every row once a date
      is searched. */
  lemma UnknownCategoryHidesAll(v: VehicleRow, searchNo: string, searchDate: string, category: string, parse: DateParser)
    requires searchDate != "" && category != "all"
    requires category !in {"insurance", "permit", "tax", "fitness", "puc"}
    ensures !Passes(v, searchNo, searchDate, category, parse)
  {
  }

  /** A row without the category's date never matches it. */
  lemma MissingDateNeverMatches(v: VehicleRow, c: Category, searchDate: string, parse: DateParser)
    requires CategoryDate(v, c).None? || CategoryDate(v, c) == Some("")
    ensures !CategoryMatches(v, c, searchDate, parse)
  {
  }

  /** A date held as `DD/MM/YYYY` is found by searching its day, whatever
      the host's parser does with other strings. */
  lemma SearchFindsDisplayedDay(v: VehicleRow, c: Category, d: CalendarDate, parse: DateParser)
    requires CategoryDate(v, c) == Some(FormatDisplay(d))
    ensures CategoryMatches(v, c, FormatIso(d), parse)
  {
    ParseOfDisplay(d, parse);
  }

  // ---- editing a row ----

  /** `updatedDetails` as `handleEditClick` fills it. */
  datatype VehicleEdit = VehicleEdit(
    vehicleNo: Option<string>,
    ownerName: Option<string>,
    address: Option<string>,
    phone: Option<string>,
    insuranceNo: string,
    insuranceExpiry: string,
    permitNo: string,
    permitExpiry: string,
    taxAmount: Amount,
    taxExpiry: string,
    fitnessNumber: string,
    fitnessValidity: string,
    pucDate: string)

  /** `handleEditClick`: numbers default to `''`, a falsy amount to `''`,
      and every date goes through `parseDateForInput`. */
  function StartEdit(v: VehicleRow, parse: DateParser): (e: VehicleEdit)
    ensures e.vehicleNo == v.data.vehicleNo && e.ownerName == v.data.ownerName
    ensures e.address == v.data.address && e.phone == v.data.phone
    ensures e.insuranceNo == OrEmpty(v.data.brakeInsurance.GetOr(NoInsurance).insuranceNo)
    ensures e.permitNo == OrEmpty(v.data.permit.GetOr(NoPermit).permitNo)
    ensures e.fitnessNumber == OrEmpty(v.data.fitnessNumber)
    ensures e.insuranceExpiry == ParseDateForInput(CategoryDate(v, InsuranceExpiry), parse)
    ensures e.permitExpiry == ParseDateForInput(CategoryDate(v, PermitExpiry), parse)
    ensures e.taxExpiry == ParseDateForInput(CategoryDate(v, TaxExpiry), parse)
    ensures e.fitnessValidity == ParseDateForInput(CategoryDate(v, FitnessValidity), parse)
    ensures e.pucDate == ParseDateForInput(CategoryDate(v, PucDate), parse)
    ensures Truthy(e.taxAmount) <==> v.data.tax.Some? && Truthy(v.data.tax.value.amount)
    ensures v.data.tax.Some? && Truthy(v.data.tax.value.amount) ==> e.taxAmount == v.data.tax.value.amount
    ensures !(v.data.tax.Some? && Truthy(v.data.tax.value.amount)) ==> e.taxAmount == Str("")
  {
    var brake := v.data.brakeInsurance.GetOr(NoInsurance);
    var permit := v.data.permit.GetOr(NoPermit);
    var tax := v.data.tax.GetOr(NoTax);
    VehicleEdit(
      v.data.vehicleNo, v.data.ownerName, v.data.address, v.data.phone,
      OrEmpty(brake.insuranceNo), ParseDateForInput(brake.expiryDate, parse),
      OrEmpty(permit.permitNo), ParseDateForInput(permit.expiryDate, parse),
      if Truthy(tax.amount) then tax.amount else Str(""), ParseDateForInput(tax.expiryDate, parse),
      OrEmpty(v.data.fitnessNumber),
      ParseDateForInput(v.data.fitnessValidity, parse),
      ParseDateForInput(v.data.pucDate, parse))
  }

  /** `handleUpdate`'s payload: all three groups, every date through
      `formatDateForBackend`. */
  function UpdatePayload(e: VehicleEdit): (body: VehicleJson)
    ensures body.brakeInsurance.Some? && body.permit.Some? && body.tax.Some?
    ensures body.vehicleNo == e.vehicleNo && body.ownerName == e.ownerName
    ensures body.address == e.address && body.phone == e.phone
    ensures body.fitnessNumber == Some(e.fitnessNumber)
    ensures body.brakeInsurance.value.insuranceNo == Some(e.insuranceNo)
    ensures body.permit.value.permitNo == Some(e.permitNo)
    ensures body.tax.value.amount == e.taxAmount
    ensures body.brakeInsurance.value.expiryDate == FormatDateForBackend(Some(e.insuranceExpiry))
    ensures body.permit.value.expiryDate == FormatDateForBackend(Some(e.permitExpiry))
    ensures body.tax.value.expiryDate == FormatDateForBackend(Some(e.taxExpiry))
    ensures body.fitnessValidity == FormatDateForBackend(Some(e.fitnessValidity))
    ensures body.pucDate == FormatDateForBackend(Some(e.pucDate))
    ensures body.brakeInsurance.value.expiryDate.None? <==> e.insuranceExpiry == ""
    ensures body.permit.value.expiryDate.None? <==> e.permitExpiry == ""
    ensures body.tax.value.expiryDate.None? <==> e.taxExpiry == ""
    ensures body.fitnessValidity.None? <==> e.fitnessValidity == ""
    ensures body.pucDate.None? <==> e.pucDate == ""
  {
    VehicleJson(
      e.vehicleNo, e.ownerName, e.address, e.phone,
      Some(InsuranceJson(Some(e.insuranceNo), FormatDateForBackend(Some(e.insuranceExpiry)))),
      Some(PermitJson(Some(e.permitNo), FormatDateForBackend(Some(e.permitExpiry)))),
      Some(TaxJson(e.taxAmount, FormatDateForBackend(Some(e.taxExpiry)))),
      Some(e.fitnessNumber),
      FormatDateForBackend(Some(e.fitnessValidity)),
      FormatDateForBackend(Some(e.pucDate)))
  }

  /** Saving an untouched edit sends each date as the `DD/MM/YYYY` of the
      day the row's date was read as, or `null` when it was not read. */
  lemma UntouchedEditDates(v: VehicleRow, c: Category, parse: DateParser)
    ensures var body := UpdatePayload(StartEdit(v, parse));
            var sent := match c
              case InsuranceExpiry => body.brakeInsurance.value.expiryDate
              case PermitExpiry => body.permit.value.expiryDate
              case TaxExpiry => body.tax.value.expiryDate
              case FitnessValidity => body.fitnessValidity
              case PucDate => body.pucDate;
            sent == (match ParseDate(CategoryDate(v, c), parse) case None => None case Some(d) => Some(FormatDisplay(d)))
  {
    BackendOfParsed(CategoryDate(v, c), parse);
  }

  /** Saving an untouched edit keeps a non-zero amount and clears a zero one. */
  lemma UntouchedEditAmount(v: VehicleRow, n: int, parse: DateParser)
    requires v.data.tax.Some? && v.data.tax.value.amount == Num(n)
    ensures UpdateAmount(UpdatePayload(StartEdit(v, parse)).tax.value.amount) == (if n == 0 then Ok(None) else Ok(Some(n)))
  {
  }

  /** A day chosen in a date input reaches the store as the host's reading
      of its `DD/MM/YYYY` form; the update fails when the host cannot read it. */
  lemma EditedDayReachesStore(path: string, s: string, parse: DateParser)
    requires ParseIsoDate(s).Some?
    ensures var d := ParseIsoDate(s).value;
            var sent := FormatDateForBackend(Some(s));
            && sent == Some(FormatDisplay(d))
            && IsDisplayShape(sent.value)
            && CoerceDate(path, sent, parse) ==
               (if parse(FormatDisplay(d)).Some? then Ok(parse(FormatDisplay(d))) else Err(Invalid(path)))
  {
    var d := ParseIsoDate(s).value;
    IsoRoundTrip(d);
    ForBackendOfIso(d);
  }
}
