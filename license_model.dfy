/** The license document: four required fields, a unique `licenseNumber`
    and the store's timestamps, with the casts a create and an update apply. */
module LicenseModel {
  import opened Common
  import opened Dates

  /** The fields of a request body the license handlers read. */
  datatype LicenseJson = LicenseJson(
    holderName: Option<string>,
    phone: Option<string>,
    dob: Option<string>,
    licenseNumber: Option<string>)

  /** A stored license. `dob` is optional because an update may clear it;
      a create never stores one without it. */
  datatype LicenseDoc = LicenseDoc(
    holderName: string,
    phone: string,
    dob: Option<CalendarDate>,
    licenseNumber: string)

  datatype LicenseRecord = LicenseRecord(id: Id, doc: LicenseDoc, createdAt: Instant, updatedAt: Instant)

  /** A required string path: missing or empty is rejected. */
  function RequiredString(path: string, s: Option<string>): (r: Result<string, SaveError>)
    ensures r.Ok? <==> s.Some? && s.value != ""
    ensures r.Ok? ==> r.value == s.value
    ensures r.Err? ==> r.error == Invalid(path)
  {
    if s.None? || s.value == "" then Err(Invalid(path)) else Ok(s.value)
  }

  /** `new License({ holderName, phone, dob, licenseNumber })` followed by
      the schema's casts and required checks. */
  function NewLicenseDoc(body: LicenseJson, parse: DateParser): (r: Result<LicenseDoc, SaveError>)
    ensures r.Ok? <==> && body.holderName.Some? && body.holderName.value != ""
                       && body.phone.Some? && body.phone.value != ""
                       && body.dob.Some? && body.dob.value != "" && parse(body.dob.value).Some?
                       && body.licenseNumber.Some? && body.licenseNumber.value != ""
    ensures r.Ok? ==> r.value == LicenseDoc(body.holderName.value, body.phone.value,
                                            parse(body.dob.value), body.licenseNumber.value)
    ensures r.Err? ==> r.error.Invalid?
  {
    var holderName :- RequiredString("holderName", body.holderName);
    var phone :- RequiredString("phone", body.phone);
    var dob :- CoerceDate("dob", body.dob, parse);
    if dob.None? then Err(Invalid("dob"))
    else
      var licenseNumber :- RequiredString("licenseNumber", body.licenseNumber);
      Ok(LicenseDoc(holderName, phone, dob, licenseNumber))
  }

  /** What an update does to `dob`: nothing when the body has none, else
      the cast value (an empty string clears it). */
  datatype DobChange = KeepDob | SetDob(dob: Option<CalendarDate>)

  /** A cast `{ ...req.body }`: the fields present in the body. */
  datatype LicenseUpdate = LicenseUpdate(
    holderName: Option<string>,
    phone: Option<string>,
    dob: DobChange,
    licenseNumber: Option<string>)

  /** The update body after the casts of `findByIdAndUpdate`, which does
      not run the required checks; only a `dob` that is no date fails. */
  function LicenseUpdateData(body: LicenseJson, parse: DateParser): (r: Result<LicenseUpdate, SaveError>)
    ensures r.Err? <==> body.dob.Some? && body.dob.value != "" && parse(body.dob.value).None?
    ensures r.Err? ==> r.error == Invalid("dob")
    ensures r.Ok? ==> && r.value.holderName == body.holderName && r.value.phone == body.phone
                      && r.value.licenseNumber == body.licenseNumber
                      && (body.dob.None? <==> r.value.dob == KeepDob)
                      && (body.dob.Some? ==> r.value.dob == SetDob(CoerceDate("dob", body.dob, parse).value))
  {
    if body.dob.None? then Ok(LicenseUpdate(body.holderName, body.phone, KeepDob, body.licenseNumber))
    else
      var dob :- CoerceDate("dob", body.dob, parse);
      Ok(LicenseUpdate(body.holderName, body.phone, SetDob(dob), body.licenseNumber))
  }

  /** The stored document after `findByIdAndUpdate` has `$set` the given fields. */
  function MergeLicense(doc: LicenseDoc, u: LicenseUpdate): (d: LicenseDoc)
    ensures d.holderName == u.holderName.GetOr(doc.holderName)
    ensures d.phone == u.phone.GetOr(doc.phone)
    ensures d.licenseNumber == u.licenseNumber.GetOr(doc.licenseNumber)
    ensures d.dob == (if u.dob.KeepDob? then doc.dob else u.dob.dob)
  {
    LicenseDoc(
      u.holderName.GetOr(doc.holderName),
      u.phone.GetOr(doc.phone),
      match u.dob case KeepDob => doc.dob case SetDob(nd) => nd,
      u.licenseNumber.GetOr(doc.licenseNumber))
  }

  /** An update that names no field leaves the document as it was, and
      applying the same update twice is applying it once. */
  lemma MergeProperties(doc: LicenseDoc, u: LicenseUpdate)
    ensures MergeLicense(doc, LicenseUpdate(None, None, KeepDob, None)) == doc
    ensures MergeLicense(MergeLicense(doc, u), u) == MergeLicense(doc, u)
  {
  }

  /** A body with only `phone` changes only the phone. */
  lemma PhoneOnlyUpdate(doc: LicenseDoc, phone: string, parse: DateParser)
    ensures var r := LicenseUpdateData(LicenseJson(None, Some(phone), None, None), parse);
            && r.Ok? && MergeLicense(doc, r.value) == doc.(phone := phone)
  {
  }

  /** What `GET /licenses` sends for one license: the stored fields, with
      `dob`, `createdAt` and `updatedAt` rewritten by `formatSafeDate`. */
  datatype LicenseView = LicenseView(
    id: Id,
    holderName: string,
    phone: string,
    licenseNumber: string,
    dob: Option<string>,
    createdAt: Option<string>,
    updatedAt: Option<string>)

  /** The calendar day of a stored timestamp (its `toLocaleDateString`). */
  type Calendar = Instant -> CalendarDate

  function ViewLicense(rec: LicenseRecord, calendar: Calendar): (v: LicenseView)
    ensures v.id == rec.id && v.holderName == rec.doc.holderName
    ensures v.phone == rec.doc.phone && v.licenseNumber == rec.doc.licenseNumber
    ensures v.dob.None? <==> rec.doc.dob.None?
    ensures v.dob.Some? ==> IsDisplayShape(v.dob.value)
    ensures v.createdAt == Some(FormatDisplay(calendar(rec.createdAt)))
    ensures v.updatedAt == Some(FormatDisplay(calendar(rec.updatedAt)))
  {
    LicenseView(rec.id, rec.doc.holderName, rec.doc.phone, rec.doc.licenseNumber,
      FormatSafeDate(match rec.doc.dob case None => None case Some(d) => Some(d)),
      FormatSafeDate(Some(calendar(rec.createdAt))),
      FormatSafeDate(Some(calendar(rec.updatedAt))))
  }

  /** The listed `dob` is read back as the stored day by the edit form. */
  lemma ViewDobReadBack(rec: LicenseRecord, calendar: Calendar, parse: DateParser)
    requires rec.doc.dob.Some?
    ensures ParseDateForInput(ViewLicense(rec, calendar).dob, parse) == FormatIso(rec.doc.dob.value)
  {
    SafeDateReadBack(rec.doc.dob.value, parse);
  }
}
