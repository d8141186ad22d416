/** The vehicle document (the `Vehicle` schema), the JSON shapes a vehicle
    travels in, and the pure normalisation the vehicle routes apply before
    they write: default-filling on create, the `updateData` object on update. */
module VehicleModel {
  import opened Common
  import opened Text
  import opened Dates

  /** The JSON value in a `tax.amount` slot: absent (or `null`), a number,
      or a string. */
  datatype Amount = NoAmount | Num(n: int) | Str(s: string)

  /** JavaScript truthiness of an amount: `0`, `""` and `null` are falsy. */
  predicate Truthy(a: Amount)
  {
    match a
    case NoAmount => false
    case Num(n) => n != 0
    case Str(s) => s != ""
  }

  // ---- JSON shapes (request bodies and the rows a client holds) ----

  datatype InsuranceJson = InsuranceJson(insuranceNo: Option<string>, expiryDate: Option<string>)
  datatype PermitJson = PermitJson(permitNo: Option<string>, expiryDate: Option<string>)
  datatype TaxJson = TaxJson(amount: Amount, expiryDate: Option<string>)

  datatype VehicleJson = VehicleJson(
    vehicleNo: Option<string>,
    ownerName: Option<string>,
    address: Option<string>,
    phone: Option<string>,
    brakeInsurance: Option<InsuranceJson>,
    permit: Option<PermitJson>,
    tax: Option<TaxJson>,
    fitnessNumber: Option<string>,
    fitnessValidity: Option<string>,
    pucDate: Option<string>)

  // ---- the stored document ----

  /** The three nested expiry groups; every date is a date or absent and the
      amount is a number or absent. */
  datatype Insurance = Insurance(insuranceNo: Option<string>, expiryDate: Option<CalendarDate>)
  datatype Permit = Permit(permitNo: Option<string>, expiryDate: Option<CalendarDate>)
  datatype Tax = Tax(amount: Option<int>, expiryDate: Option<CalendarDate>)

  datatype VehicleDoc = VehicleDoc(
    vehicleNo: string,
    ownerName: Option<string>,
    address: Option<string>,
    phone: Option<string>,
    brakeInsurance: Insurance,
    permit: Permit,
    tax: Tax,
    fitnessNumber: Option<string>,
    fitnessValidity: Option<CalendarDate>,
    pucDate: Option<CalendarDate>)

  /** A stored vehicle: its identifier, its fields and the two timestamps the
      schema's `timestamps` option maintains. */
  datatype VehicleRecord = VehicleRecord(id: Id, doc: VehicleDoc, createdAt: Instant, updatedAt: Instant)

  /** The groups substituted on create when the body has none. */
  const DefaultInsurance := InsuranceJson(Some(""), None)
  const DefaultPermit := PermitJson(Some(""), None)
  const DefaultTax := TaxJson(NoAmount, None)

  /** An absent group, as optional chaining reads it. */
  const NoInsurance := InsuranceJson(None, None)
  const NoPermit := PermitJson(None, None)
  const NoTax := TaxJson(NoAmount, None)

  /** The schema's Number cast of `tax.amount` when a body's own group is
      saved: `null` and `""` become absent, a numeral its value. */
  function CastAmount(a: Amount): (r: Result<Option<int>, SaveError>)
    ensures a.NoAmount? || a == Str("") ==> r == Ok(None)
    ensures a.Num? ==> r == Ok(Some(a.n))
    ensures a.Str? && a.s != "" ==> (r.Ok? <==> ParseDecimal(a.s).Some?)
    ensures a.Str? && a.s != "" && r.Ok? ==> r.value == Some(ParseDecimal(a.s).value as int)
    ensures r.Err? ==> r.error == Invalid("tax.amount")
  {
    match a
    case NoAmount => Ok(None)
    case Num(n) => Ok(Some(n))
    case Str(s) =>
      if s == "" then Ok(None)
      else match ParseDecimal(s)
        case Some(v) => Ok(Some(v))
        case None => Err(Invalid("tax.amount"))
  }

  /** The schema's casts of a `brakeInsurance` group: the number is kept,
      the date is cast, and the group fails exactly when its date does. */
  function CastInsurance(g: InsuranceJson, parse: DateParser): (r: Result<Insurance, SaveError>)
    ensures r.Ok? <==> CoerceDate("brakeInsurance.expiryDate", g.expiryDate, parse).Ok?
    ensures r.Ok? ==> r.value.insuranceNo == g.insuranceNo
    ensures r.Ok? ==> Ok(r.value.expiryDate) == CoerceDate("brakeInsurance.expiryDate", g.expiryDate, parse)
  {
    var expiry :- CoerceDate("brakeInsurance.expiryDate", g.expiryDate, parse);
    Ok(Insurance(g.insuranceNo, expiry))
  }

  /** The casts of a `permit` group, in the same way. */
  function CastPermit(g: PermitJson, parse: DateParser): (r: Result<Permit, SaveError>)
    ensures r.Ok? <==> CoerceDate("permit.expiryDate", g.expiryDate, parse).Ok?
    ensures r.Ok? ==> r.value.permitNo == g.permitNo
    ensures r.Ok? ==> Ok(r.value.expiryDate) == CoerceDate("permit.expiryDate", g.expiryDate, parse)
  {
    var expiry :- CoerceDate("permit.expiryDate", g.expiryDate, parse);
    Ok(Permit(g.permitNo, expiry))
  }

  /** The casts of a `tax` group: it fails exactly when its amount or its
      date does. */
  function CastTax(g: TaxJson, parse: DateParser): (r: Result<Tax, SaveError>)
    ensures r.Ok? <==> CastAmount(g.amount).Ok? && CoerceDate("tax.expiryDate", g.expiryDate, parse).Ok?
    ensures r.Ok? ==> Ok(r.value.amount) == CastAmount(g.amount)
    ensures r.Ok? ==> Ok(r.value.expiryDate) == CoerceDate("tax.expiryDate", g.expiryDate, parse)
  {
    var amount :- CastAmount(g.amount);
    var expiry :- CoerceDate("tax.expiryDate", g.expiryDate, parse);
    Ok(Tax(amount, expiry))
  }

  /** The document `POST /vehicles` saves: the body's fields, default groups
      where the body has none, falsy dates as `null`, then the schema's
      casts and its required `vehicleNo`. */
  function NewVehicleDoc(body: VehicleJson, parse: DateParser): (r: Result<VehicleDoc, SaveError>)
    ensures body.vehicleNo.None? || body.vehicleNo == Some("") ==> r == Err(Invalid("vehicleNo"))
    ensures r.Ok? <==> && body.vehicleNo.Some? && body.vehicleNo.value != ""
                       && CoerceDate("brakeInsurance.expiryDate", body.brakeInsurance.GetOr(NoInsurance).expiryDate, parse).Ok?
                       && CoerceDate("permit.expiryDate", body.permit.GetOr(NoPermit).expiryDate, parse).Ok?
                       && CastAmount(body.tax.GetOr(NoTax).amount).Ok?
                       && CoerceDate("tax.expiryDate", body.tax.GetOr(NoTax).expiryDate, parse).Ok?
                       && CoerceDate("fitnessValidity", body.fitnessValidity, parse).Ok?
                       && CoerceDate("pucDate", body.pucDate, parse).Ok?
    ensures r.Ok? ==> body.vehicleNo == Some(r.value.vehicleNo) && r.value.vehicleNo != ""
    ensures r.Ok? ==> r.value.ownerName == body.ownerName && r.value.address == body.address
                      && r.value.phone == body.phone && r.value.fitnessNumber == body.fitnessNumber
    ensures r.Ok? && body.brakeInsurance.None? ==> r.value.brakeInsurance == Insurance(Some(""), None)
    ensures r.Ok? && body.permit.None? ==> r.value.permit == Permit(Some(""), None)
    ensures r.Ok? && body.tax.None? ==> r.value.tax == Tax(None, None)
    ensures r.Ok? && body.brakeInsurance.Some? ==> r.value.brakeInsurance.insuranceNo == body.brakeInsurance.value.insuranceNo
    ensures r.Ok? && body.permit.Some? ==> r.value.permit.permitNo == body.permit.value.permitNo
    ensures r.Ok? ==> Ok(r.value.brakeInsurance.expiryDate)
                      == CoerceDate("brakeInsurance.expiryDate", body.brakeInsurance.GetOr(NoInsurance).expiryDate, parse)
    ensures r.Ok? ==> Ok(r.value.permit.expiryDate) == CoerceDate("permit.expiryDate", body.permit.GetOr(NoPermit).expiryDate, parse)
    ensures r.Ok? ==> Ok(r.value.tax.amount) == CastAmount(body.tax.GetOr(NoTax).amount)
    ensures r.Ok? ==> Ok(r.value.tax.expiryDate) == CoerceDate("tax.expiryDate", body.tax.GetOr(NoTax).expiryDate, parse)
    ensures r.Ok? ==> Ok(r.value.fitnessValidity) == CoerceDate("fitnessValidity", body.fitnessValidity, parse)
    ensures r.Ok? ==> Ok(r.value.pucDate) == CoerceDate("pucDate", body.pucDate, parse)
  {
    if body.vehicleNo.None? || body.vehicleNo.value == "" then Err(Invalid("vehicleNo"))
    else
      var brake :- CastInsurance(body.brakeInsurance.GetOr(DefaultInsurance), parse);
      var permit :- CastPermit(body.permit.GetOr(DefaultPermit), parse);
      var tax :- CastTax(body.tax.GetOr(DefaultTax), parse);
      var fitness :- CoerceDate("fitnessValidity", body.fitnessValidity, parse);
      var puc :- CoerceDate("pucDate", body.pucDate, parse);
      Ok(VehicleDoc(body.vehicleNo.value, body.ownerName, body.address, body.phone,
                    brake, permit, tax, body.fitnessNumber, fitness, puc))
  }

  // ---- update ----

  /** `s || ''` for an optional string. */
  function OrEmpty(s: Option<string>): (r: string)
    ensures s.Some? ==> r == s.value
    ensures s.None? ==> r == ""
  {
    if s.None? then "" else s.value
  }

  /** `tax?.amount ? Number(tax.amount) : null`, then the schema's Number
      cast, which refuses NaN. */
  function UpdateAmount(a: Amount): (r: Result<Option<int>, SaveError>)
    ensures !Truthy(a) ==> r == Ok(None)
    ensures a.Num? && a.n != 0 ==> r == Ok(Some(a.n))
    ensures a.Str? && a.s != "" ==> (r.Ok? <==> ParseDecimal(a.s).Some?)
    ensures a.Str? && a.s != "" && r.Ok? ==> r.value == Some(ParseDecimal(a.s).value as int)
  {
    if !Truthy(a) then Ok(None) else CastAmount(a)
  }

  /** The `updateData` object of `PUT /vehicles/:id` after the schema's casts.
      The top-level strings stay optional (an absent one is left out of the
      update); the groups and dates are always given. */
  datatype VehicleUpdate = VehicleUpdate(
    vehicleNo: Option<string>,
    ownerName: Option<string>,
    address: Option<string>,
    phone: Option<string>,
    brakeInsurance: Insurance,
    permit: Permit,
    tax: Tax,
    fitnessNumber: Option<string>,
    fitnessValidity: Option<CalendarDate>,
    pucDate: Option<CalendarDate>)

  /** Builds `updateData` from a request body: every group is rebuilt from
      the body alone, an absent number is `''`, an absent or falsy date or
      amount is `null`. */
  function VehicleUpdateData(body: VehicleJson, parse: DateParser): (r: Result<VehicleUpdate, SaveError>)
    ensures r.Ok? ==> r.value.vehicleNo == body.vehicleNo && r.value.ownerName == body.ownerName
                      && r.value.address == body.address && r.value.phone == body.phone
                      && r.value.fitnessNumber == body.fitnessNumber
    ensures r.Ok? ==> r.value.brakeInsurance.insuranceNo == Some(OrEmpty(body.brakeInsurance.GetOr(NoInsurance).insuranceNo))
    ensures r.Ok? ==> r.value.permit.permitNo == Some(OrEmpty(body.permit.GetOr(NoPermit).permitNo))
    ensures r.Ok? ==> Ok(r.value.tax.amount) == UpdateAmount(body.tax.GetOr(NoTax).amount)
    ensures r.Ok? && body.brakeInsurance.None? ==> r.value.brakeInsurance == Insurance(Some(""), None)
    ensures r.Ok? && body.permit.None? ==> r.value.permit == Permit(Some(""), None)
    ensures r.Ok? && body.tax.None? ==> r.value.tax == Tax(None, None)
    ensures r.Ok? <==> && CoerceDate("brakeInsurance.expiryDate", body.brakeInsurance.GetOr(NoInsurance).expiryDate, parse).Ok?
                       && CoerceDate("permit.expiryDate", body.permit.GetOr(NoPermit).expiryDate, parse).Ok?
                       && UpdateAmount(body.tax.GetOr(NoTax).amount).Ok?
                       && CoerceDate("tax.expiryDate", body.tax.GetOr(NoTax).expiryDate, parse).Ok?
                       && CoerceDate("fitnessValidity", body.fitnessValidity, parse).Ok?
                       && CoerceDate("pucDate", body.pucDate, parse).Ok?
    ensures r.Ok? ==> Ok(r.value.brakeInsurance.expiryDate)
                      == CoerceDate("brakeInsurance.expiryDate", body.brakeInsurance.GetOr(NoInsurance).expiryDate, parse)
    ensures r.Ok? ==> Ok(r.value.permit.expiryDate) == CoerceDate("permit.expiryDate", body.permit.GetOr(NoPermit).expiryDate, parse)
    ensures r.Ok? ==> Ok(r.value.tax.expiryDate) == CoerceDate("tax.expiryDate", body.tax.GetOr(NoTax).expiryDate, parse)
    ensures r.Ok? ==> Ok(r.value.fitnessValidity) == CoerceDate("fitnessValidity", body.fitnessValidity, parse)
    ensures r.Ok? ==> Ok(r.value.pucDate) == CoerceDate("pucDate", body.pucDate, parse)
  {
    var brake := body.brakeInsurance.GetOr(NoInsurance);
    var permit := body.permit.GetOr(NoPermit);
    var tax := body.tax.GetOr(NoTax);
    var brakeExpiry :- CoerceDate("brakeInsurance.expiryDate", brake.expiryDate, parse);
    var permitExpiry :- CoerceDate("permit.expiryDate", permit.expiryDate, parse);
    var amount :- UpdateAmount(tax.amount);
    var taxExpiry :- CoerceDate("tax.expiryDate", tax.expiryDate, parse);
    var fitness :- CoerceDate("fitnessValidity", body.fitnessValidity, parse);
    var puc :- CoerceDate("pucDate", body.pucDate, parse);
    Ok(VehicleUpdate(
      body.vehicleNo, body.ownerName, body.address, body.phone,
      Insurance(Some(OrEmpty(brake.insuranceNo)), brakeExpiry),
      Permit(Some(OrEmpty(permit.permitNo)), permitExpiry),
      Tax(amount, taxExpiry),
      body.fitnessNumber, fitness, puc))
  }

  /** The stored document after `findByIdAndUpdate(id, updateData)`: groups
      and dates are overwritten whatever was stored; a top-level string the
      update leaves out keeps its stored value. */
  function ApplyVehicleUpdate(doc: VehicleDoc, u: VehicleUpdate): (d: VehicleDoc)
    ensures d.brakeInsurance == u.brakeInsurance && d.permit == u.permit && d.tax == u.tax
    ensures d.fitnessValidity == u.fitnessValidity && d.pucDate == u.pucDate
    ensures d.vehicleNo == u.vehicleNo.GetOr(doc.vehicleNo)
    ensures u.ownerName.Some? ==> d.ownerName == u.ownerName
    ensures u.ownerName.None? ==> d.ownerName == doc.ownerName
    ensures u.address.Some? ==> d.address == u.address
    ensures u.address.None? ==> d.address == doc.address
    ensures u.phone.Some? ==> d.phone == u.phone
    ensures u.phone.None? ==> d.phone == doc.phone
    ensures u.fitnessNumber.Some? ==> d.fitnessNumber == u.fitnessNumber
    ensures u.fitnessNumber.None? ==> d.fitnessNumber == doc.fitnessNumber
  {
    VehicleDoc(
      u.vehicleNo.GetOr(doc.vehicleNo),
      if u.ownerName.Some? then u.ownerName else doc.ownerName,
      if u.address.Some? then u.address else doc.address,
      if u.phone.Some? then u.phone else doc.phone,
      u.brakeInsurance, u.permit, u.tax,
      if u.fitnessNumber.Some? then u.fitnessNumber else doc.fitnessNumber,
      u.fitnessValidity, u.pucDate)
  }

  /** A zero amount is cleared by an update, while the text `"0"` is kept. */
  lemma ZeroAmounts()
    ensures UpdateAmount(Num(0)) == Ok(None)
    ensures UpdateAmount(Str("")) == Ok(None)
    ensures UpdateAmount(Str("0")) == Ok(Some(0))
  {
    assert AllDigits("0");
    assert DigitsValue("0") == 0 by {
      assert "0"[..0] == "";
    }
  }

  /** Two stored documents updated with one body end with the same groups
      and dates: nothing of the earlier groups survives an update. */
  lemma UpdateForgetsGroups(d1: VehicleDoc, d2: VehicleDoc, body: VehicleJson, parse: DateParser)
    requires VehicleUpdateData(body, parse).Ok?
    ensures var u := VehicleUpdateData(body, parse).value;
            var a, b := ApplyVehicleUpdate(d1, u), ApplyVehicleUpdate(d2, u);
            a.brakeInsurance == b.brakeInsurance && a.permit == b.permit && a.tax == b.tax
            && a.fitnessValidity == b.fitnessValidity && a.pucDate == b.pucDate
  {
  }
}
