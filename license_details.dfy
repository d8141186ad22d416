/** The license list view: the two-field search, the edit state a row
    opens and the update payload it sends. */
module LicenseDetails {
  import opened Common
  import opened Text
  import opened Dates
  import opened Seqs
  import opened LicenseModel

  /** A license as the client holds it. */
  datatype LicenseRow = LicenseRow(
    id: Id,
    licenseNumber: Option<string>,
    holderName: Option<string>,
    phone: Option<string>,
    dob: Option<string>)

  function RowId(l: LicenseRow): Id { l.id }

  /** The row a listed license becomes on the client. */
  function RowOfView(v: LicenseView): (l: LicenseRow)
    ensures l.id == v.id && l.dob == v.dob
    ensures l.licenseNumber == Some(v.licenseNumber) && l.holderName == Some(v.holderName)
  {
    LicenseRow(v.id, Some(v.licenseNumber), Some(v.holderName), Some(v.phone), v.dob)
  }

  /** `text?.toLowerCase().includes(search.toLowerCase())`: a missing text
      matches nothing. */
  predicate FieldMatches(text: Option<string>, search: string)
  {
    text.Some? && Contains(ToLower(text.value), ToLower(search))
  }

  /** The predicate of `filteredLicenses`. */
  predicate LicensePasses(l: LicenseRow, searchNo: string, searchName: string)
  {
    FieldMatches(l.licenseNumber, searchNo) && FieldMatches(l.holderName, searchName)
  }

  function FilterLicenses(rows: seq<LicenseRow>, searchNo: string, searchName: string): (r: seq<LicenseRow>)
    ensures IsSubsequence(r, rows)
    ensures forall l :: l in r <==> l in rows && LicensePasses(l, searchNo, searchName)
    ensures forall l :: multiset(r)[l] == if LicensePasses(l, searchNo, searchName) then multiset(rows)[l] else 0
  {
    Filter(rows, l => LicensePasses(l, searchNo, searchName))
  }

  /** A row is kept exactly when both texts occur in their fields, ignoring
      case; a row missing either field is never kept. */
  lemma LicensePassesIff(l: LicenseRow, searchNo: string, searchName: string)
    ensures LicensePasses(l, searchNo, searchName) <==>
            && l.licenseNumber.Some? && l.holderName.Some?
            && (exists i :: OccursAt(ToLower(l.licenseNumber.value), ToLower(searchNo), i))
            && (exists j :: OccursAt(ToLower(l.holderName.value), ToLower(searchName), j))
  {
    if l.licenseNumber.Some? {
      ContainsIffOccurs(ToLower(l.licenseNumber.value), ToLower(searchNo));
    }
    if l.holderName.Some? {
      ContainsIffOccurs(ToLower(l.holderName.value), ToLower(searchName));
    }
  }

  /** With both searches empty, exactly the rows having both fields are kept. */
  lemma EmptySearchKeepsComplete(rows: seq<LicenseRow>)
    ensures forall l :: l in FilterLicenses(rows, "", "") <==>
                        l in rows && l.licenseNumber.Some? && l.holderName.Some?
  {
    forall l | l in rows && l.licenseNumber.Some? && l.holderName.Some?
      ensures LicensePasses(l, "", "")
    {
      ContainsEmpty(ToLower(l.licenseNumber.value));
      ContainsEmpty(ToLower(l.holderName.value));
    }
  }

  /** Every listed license is shown before anything is searched. */
  lemma ListedLicensesShown(v: LicenseView)
    ensures LicensePasses(RowOfView(v), "", "")
  {
    ContainsEmpty(ToLower(v.licenseNumber));
    ContainsEmpty(ToLower(v.holderName));
  }

  // ---- editing a row ----

  /** `updatedDetails` as `handleEditClick` fills it. */
  datatype LicenseEdit = LicenseEdit(
    licenseNumber: Option<string>,
    holderName: Option<string>,
    phone: Option<string>,
    dob: Option<string>)

  /** `dob?.split("T")[0]`. */
  function EditDob(dob: Option<string>): (r: Option<string>)
    ensures r.None? <==> dob.None?
  {
    match dob
    case None => None
    case Some(s) => Some(Split(s, 'T')[0])
  }

  /** The edit dob is the stored text up to its first `T`: all of it when
      it has none. */
  lemma EditDobIsPrefix(s: string)
    ensures var e := EditDob(Some(s)).value;
            && IsPrefix(e, s) && 'T' !in e
            && ('T' in s ==> s[|e|] == 'T')
            && ('T' !in s ==> e == s)
  {
    FirstPieceIsPrefix(s, 'T');
  }

  /** A full ISO timestamp gives the `YYYY-MM-DD` of its day. */
  lemma EditDobOfTimestamp(d: CalendarDate)
    ensures EditDob(Some(IsoTimestamp(d))) == Some(FormatIso(d))
  {
    var iso := FormatIso(d);
    IsoHasNoT(d);
    var tail := "00:00:00.000Z";
    assert IsoTimestamp(d) == iso + ['T'] + tail;
    SplitAfter(iso, tail, 'T');
    assert Split(IsoTimestamp(d), 'T')[0] == iso;
  }

  lemma IsoHasNoT(d: CalendarDate)
    ensures 'T' !in FormatIso(d)
  {
    var y, m, dd := PadDigits(d.year, 4), PadDigits(d.month, 2), PadDigits(d.day, 2);
    assert 'T' !in y && 'T' !in m && 'T' !in dd;
    assert FormatIso(d) == y + "-" + m + "-" + dd;
  }

  /** The `dob` the list delivers (`DD/MM/YYYY`) has no `T`, so the edit
      form receives it unchanged, not as `YYYY-MM-DD`. */
  lemma EditDobOfListed(d: CalendarDate)
    ensures EditDob(Some(FormatDisplay(d))) == Some(FormatDisplay(d))
    ensures !IsIsoDateShape(FormatDisplay(d))
  {
    var y, m, dd := PadDigits(d.year, 4), PadDigits(d.month, 2), PadDigits(d.day, 2);
    assert 'T' !in y && 'T' !in m && 'T' !in dd;
    assert 'T' !in FormatDisplay(d);
    SplitNoSeparator(FormatDisplay(d), 'T');
  }

  /** `handleEditClick`. */
  function StartEdit(l: LicenseRow): (e: LicenseEdit)
    ensures e.licenseNumber == l.licenseNumber && e.holderName == l.holderName && e.phone == l.phone
    ensures e.dob == EditDob(l.dob)
  {
    LicenseEdit(l.licenseNumber, l.holderName, l.phone, EditDob(l.dob))
  }

  /** `handleUpdate`'s payload: exactly the four license fields of the edit state. */
  function UpdatePayload(e: LicenseEdit): (body: LicenseJson)
    ensures body.holderName == e.holderName && body.phone == e.phone
    ensures body.dob == e.dob && body.licenseNumber == e.licenseNumber
  {
    LicenseJson(e.holderName, e.phone, e.dob, e.licenseNumber)
  }

  /** Saving an untouched edit of a listed license sends back its number,
      name and phone as they are, and its `DD/MM/YYYY` dob for the host to read. */
  lemma UntouchedEditOfListed(v: LicenseView, d: CalendarDate, parse: DateParser)
    requires v.dob == Some(FormatDisplay(d))
    ensures var u := LicenseUpdateData(UpdatePayload(StartEdit(RowOfView(v))), parse);
            && (u.Ok? <==> parse(FormatDisplay(d)).Some?)
            && (u.Ok? ==> && u.value.holderName == Some(v.holderName) && u.value.phone == Some(v.phone)
                          && u.value.licenseNumber == Some(v.licenseNumber)
                          && u.value.dob == SetDob(parse(FormatDisplay(d))))
  {
    EditDobOfListed(d);
  }
}
