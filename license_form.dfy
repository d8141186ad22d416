/** The add-license form: the request body built from its inputs. */
module LicenseForm {
  import opened Common
  import opened Text
  import opened Dates
  import opened LicenseModel

  datatype LicenseFormState = LicenseFormState(holderName: string, phone: string, dob: string, licenseNumber: string)

  /** `licenseData`: the texts as typed, `dob` through `formatDateForBackend`. */
  function LicensePayload(f: LicenseFormState): (body: LicenseJson)
    ensures body.holderName == Some(f.holderName) && body.phone == Some(f.phone)
    ensures body.licenseNumber == Some(f.licenseNumber)
    ensures body.dob == FormatDateForBackend(Some(f.dob))
    ensures body.dob.None? <==> f.dob == ""
  {
    LicenseJson(Some(f.holderName), Some(f.phone), FormatDateForBackend(Some(f.dob)), Some(f.licenseNumber))
  }

  /** A day picked in the date input is sent as its `DD/MM/YYYY`, which
      splits back into the input's three pieces. */
  lemma PayloadDobOfDay(f: LicenseFormState, d: CalendarDate)
    requires f.dob == FormatIso(d)
    ensures LicensePayload(f).dob == Some(FormatDisplay(d))
    ensures var out := Split(LicensePayload(f).dob.value, '/');
            |out| == 3 && Join([out[2], out[1], out[0]], '-') == f.dob
  {
    ForBackendOfIso(d);
    SplitIso(d);
    var p := Split(f.dob, '-');
    assert '/' !in p[0] && '/' !in p[1] && '/' !in p[2];
    BackendFormatReversible(f.dob);
  }

  /** An empty date input sends `dob: null`, which the store rejects. */
  lemma EmptyDobRejected(f: LicenseFormState, parse: DateParser)
    requires f.dob == ""
    ensures NewLicenseDoc(LicensePayload(f), parse).Err?
  {
  }

  /** Whether the store accepts a filled-in form turns on the host reading
      the `DD/MM/YYYY` it is sent; when it does, the document keeps the
      texts as typed. */
  lemma FilledFormStored(f: LicenseFormState, d: CalendarDate, parse: DateParser)
    requires f.dob == FormatIso(d) && f.holderName != "" && f.phone != "" && f.licenseNumber != ""
    ensures var r := NewLicenseDoc(LicensePayload(f), parse);
            && (r.Ok? <==> parse(FormatDisplay(d)).Some?)
            && (r.Ok? ==> r.value == LicenseDoc(f.holderName, f.phone, parse(FormatDisplay(d)), f.licenseNumber))
  {
    ForBackendOfIso(d);
  }
}
