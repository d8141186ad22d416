/** The add-vehicle form: the request body built from its inputs. */
module VehicleForm {
  import opened Common
  import opened Text
  import opened Dates
  import opened VehicleModel

  /** The form's inputs, each a string as the inputs hold them. */
  datatype VehicleFormState = VehicleFormState(
    vehicleNo: string,
    ownerName: string,
    address: string,
    phone: string,
    insuranceNo: string,
    insuranceExpiry: string,
    permitNo: string,
    permitExpiry: string,
    taxAmount: string,
    taxExpiry: string,
    fitnessNumber: string,
    fitnessValidity: string,
    pucDate: string)

  /** This form's `formatDateForBackend`: `null` for an empty or unreadable
      input, otherwise the ISO timestamp of the day the host read. */
  function FormDate(s: string, parse: DateParser): (r: Option<string>)
    ensures r.None? <==> s == "" || parse(s).None?
    ensures r.Some? ==> r.value == IsoTimestamp(parse(s).value)
  {
    if s == "" then None
    else match parse(s)
      case None => None
      case Some(d) => Some(IsoTimestamp(d))
  }

  /** `taxAmount ? Number(taxAmount) : null`; a `NaN` is sent as `null`. */
  function FormAmount(s: string): (a: Amount)
    ensures s == "" ==> a == NoAmount
    ensures a.Num? <==> ParseDecimal(s).Some?
    ensures a.Num? ==> a.n == ParseDecimal(s).value
    ensures !a.Str?
  {
    if s == "" then NoAmount
    else match ParseDecimal(s)
      case Some(n) => Num(n)
      case None => NoAmount
  }

  /** `vehicleData`: the text fields as typed and all three groups. */
  function VehiclePayload(f: VehicleFormState, parse: DateParser): (body: VehicleJson)
    ensures body.vehicleNo == Some(f.vehicleNo) && body.ownerName == Some(f.ownerName)
    ensures body.address == Some(f.address) && body.phone == Some(f.phone)
    ensures body.fitnessNumber == Some(f.fitnessNumber)
    ensures body.brakeInsurance == Some(InsuranceJson(Some(f.insuranceNo), FormDate(f.insuranceExpiry, parse)))
    ensures body.permit == Some(PermitJson(Some(f.permitNo), FormDate(f.permitExpiry, parse)))
    ensures body.tax == Some(TaxJson(FormAmount(f.taxAmount), FormDate(f.taxExpiry, parse)))
    ensures body.fitnessValidity == FormDate(f.fitnessValidity, parse)
    ensures body.pucDate == FormDate(f.pucDate, parse)
  {
    VehicleJson(
      Some(f.vehicleNo), Some(f.ownerName), Some(f.address), Some(f.phone),
      Some(InsuranceJson(Some(f.insuranceNo), FormDate(f.insuranceExpiry, parse))),
      Some(PermitJson(Some(f.permitNo), FormDate(f.permitExpiry, parse))),
      Some(TaxJson(FormAmount(f.taxAmount), FormDate(f.taxExpiry, parse))),
      Some(f.fitnessNumber),
      FormDate(f.fitnessValidity, parse),
      FormDate(f.pucDate, parse))
  }

  /** The host reads back the timestamps it writes. */
  ghost predicate ReadsOwnTimestamps(parse: DateParser)
  {
    forall d: CalendarDate :: parse(IsoTimestamp(d)) == Some(d)
  }

  /** The day a date input holds, as the store keeps it after the form's
      conversion and the schema's cast. */
  lemma FormDateStored(path: string, s: string, parse: DateParser)
    requires ReadsOwnTimestamps(parse)
    ensures CoerceDate(path, FormDate(s, parse), parse) == Ok(if s == "" then None else parse(s))
  {
  }

  /** A form with a vehicle number is accepted by the store whenever the
      host reads back its own timestamps, and the document keeps what was
      typed: the texts, the days the host read, and the amount when it is a
      numeral. */
  lemma FormPayloadAccepted(f: VehicleFormState, parse: DateParser)
    requires f.vehicleNo != ""
    requires ReadsOwnTimestamps(parse)
    ensures var r := NewVehicleDoc(VehiclePayload(f, parse), parse);
            && r.Ok?
            && r.value.vehicleNo == f.vehicleNo && r.value.ownerName == Some(f.ownerName)
            && r.value.brakeInsurance == Insurance(Some(f.insuranceNo), if f.insuranceExpiry == "" then None else parse(f.insuranceExpiry))
            && r.value.permit == Permit(Some(f.permitNo), if f.permitExpiry == "" then None else parse(f.permitExpiry))
            && r.value.tax.amount == (if f.taxAmount == "" then None else ParseDecimal(f.taxAmount))
            && r.value.fitnessValidity == (if f.fitnessValidity == "" then None else parse(f.fitnessValidity))
            && r.value.pucDate == (if f.pucDate == "" then None else parse(f.pucDate))
  {
    var body := VehiclePayload(f, parse);
    FormDateStored("brakeInsurance.expiryDate", f.insuranceExpiry, parse);
    FormDateStored("permit.expiryDate", f.permitExpiry, parse);
    FormDateStored("tax.expiryDate", f.taxExpiry, parse);
    FormDateStored("fitnessValidity", f.fitnessValidity, parse);
    FormDateStored("pucDate", f.pucDate, parse);
    assert CastAmount(FormAmount(f.taxAmount)) == Ok(if f.taxAmount == "" then None else ParseDecimal(f.taxAmount));
  }
}
