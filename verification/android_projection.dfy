/** The Android read side: how the data rows of one aggregated contact in
    the contacts provider become the bridge's neutral record. Each kind of
    data row is read by its own cursor; nullable TEXT columns are
    `Option<string>`, and an INTEGER column is `Option<int>` because
    `Cursor.getInt` reads a NULL as 0. */
module AndroidProjection {
  import opened Wrappers
  import opened Text
  import opened Values
  import opened Schema
  import opened AndroidLabels

  // ---------------------------------------------------------------------
  // Provider rows
  // ---------------------------------------------------------------------

  datatype NameRow = NameRow(
    givenName: Option<string>,
    familyName: Option<string>,
    middleName: Option<string>,
    prefix: Option<string>,
    suffix: Option<string>)

  datatype PhoneRow = PhoneRow(number: Option<string>, typeColumn: Option<int>, labelColumn: Option<string>)

  datatype EmailRow = EmailRow(address: Option<string>, typeColumn: Option<int>, labelColumn: Option<string>)

  datatype PostalRow = PostalRow(
    street: Option<string>,
    city: Option<string>,
    region: Option<string>,
    postcode: Option<string>,
    country: Option<string>,
    typeColumn: Option<int>,
    labelColumn: Option<string>)

  datatype OrganizationRow = OrganizationRow(company: Option<string>, title: Option<string>, department: Option<string>)

  datatype WebsiteRow = WebsiteRow(url: Option<string>, typeColumn: Option<int>, labelColumn: Option<string>)

  datatype NoteRow = NoteRow(note: Option<string>)

  datatype EventRow = EventRow(startDate: Option<string>, typeColumn: Option<int>, labelColumn: Option<string>)

  /** One aggregated contact: its Contacts-table columns and, per MIME type,
      its data rows in cursor order. `photo` stands for the bytes behind the
      contact's photo URI (None when there is no photo or it cannot be
      read). */
  datatype NativeContact = NativeContact(
    displayName: Option<string>,
    starred: int,
    names: seq<NameRow>,
    phones: seq<PhoneRow>,
    emails: seq<EmailRow>,
    postals: seq<PostalRow>,
    organizations: seq<OrganizationRow>,
    websites: seq<WebsiteRow>,
    notes: seq<NoteRow>,
    events: seq<EventRow>,
    photo: Option<Bytes>)

  // ---------------------------------------------------------------------
  // The neutral record
  // ---------------------------------------------------------------------

  datatype OrganizationEntry = OrganizationEntry(name: string, jobTitle: string, department: string)

  /** The property groups `getContactProperties` merges into a record. */
  datatype Properties = Properties(
    name: NameFields,
    phones: seq<PhoneEntry>,
    emails: seq<EmailEntry>,
    addresses: seq<AddressEntry>,
    organizations: seq<OrganizationEntry>,
    websites: seq<WebsiteEntry>,
    notes: seq<string>,
    events: seq<EventEntry>)

  /** The map the Android backend returns for one contact. `properties` is
      None when the groups were not merged in; `thumbnail` and `photo` are
      None when the key is absent or its value is null. */
  datatype ContactRecord = ContactRecord(
    id: string,
    displayName: string,
    isStarred: bool,
    propertiesFetched: bool,
    thumbnailFetched: bool,
    photoFetched: bool,
    properties: Option<Properties>,
    thumbnail: Option<Bytes>,
    photo: Option<Bytes>)

  /** `Cursor.getInt` on a nullable INTEGER column. */
  function ColumnInt(column: Option<int>): (v: int)
    ensures column.Some? ==> v == column.value
    ensures column.None? ==> v == 0
  {
    column.GetOr(0)
  }

  /** `cursor.getString(...) ?: ""`. */
  function ColumnText(column: Option<string>): (v: string)
    ensures column.Some? ==> v == column.value
    ensures column.None? ==> v == ""
  {
    column.GetOr("")
  }

  // ---------------------------------------------------------------------
  // Structured name
  // ---------------------------------------------------------------------

  /** Only the first StructuredName row counts; its five components are
      always present, a NULL column reading as "". With no row the name map
      is empty. */
  function ProjectName(rows: seq<NameRow>): (name: NameFields)
    ensures |rows| == 0 ==> name == NoName
    ensures |rows| > 0 ==>
      && name.givenName == Some(ColumnText(rows[0].givenName))
      && name.familyName == Some(ColumnText(rows[0].familyName))
      && name.middleName == Some(ColumnText(rows[0].middleName))
      && name.namePrefix == Some(ColumnText(rows[0].prefix))
      && name.nameSuffix == Some(ColumnText(rows[0].suffix))
    ensures name.nickname.None? && name.phoneticGivenName.None?
    ensures name.phoneticFamilyName.None? && name.phoneticMiddleName.None?
  {
    if |rows| == 0 then NoName
    else
      var r := rows[0];
      NameFields(Some(ColumnText(r.givenName)), Some(ColumnText(r.familyName)), Some(ColumnText(r.middleName)),
                 Some(ColumnText(r.prefix)), Some(ColumnText(r.suffix)), None, None, None, None)
  }

  // ---------------------------------------------------------------------
  // Phones, emails, addresses, websites: one entry per row
  // ---------------------------------------------------------------------

  function ProjectPhone(row: PhoneRow): (p: PhoneEntry)
    ensures p.number == ColumnText(row.number)
    ensures forall i :: 0 <= i < |p.normalizedNumber| ==> IsAsciiDigit(p.normalizedNumber[i])
    ensures p.labelText == PhoneLabel(ColumnInt(row.typeColumn), ColumnText(row.labelColumn))
    ensures p.rawType == Some(ColumnInt(row.typeColumn))
  {
    var number := ColumnText(row.number);
    PhoneEntry(number, Keep(number, IsAsciiDigit), PhoneLabel(ColumnInt(row.typeColumn), ColumnText(row.labelColumn)),
               Some(ColumnInt(row.typeColumn)))
  }

  function ProjectPhones(rows: seq<PhoneRow>): (phones: seq<PhoneEntry>)
    ensures |phones| == |rows|
    ensures forall i :: 0 <= i < |rows| ==> phones[i] == ProjectPhone(rows[i])
  {
    seq(|rows|, i requires 0 <= i < |rows| => ProjectPhone(rows[i]))
  }

  /** `normalizedNumber` is made of the digits 0-9 only, and keeps every
      digit of `number`, as often as it occurs and in the same order. */
  lemma NormalizedNumberKeepsDigits(row: PhoneRow, a: string, b: string, c: char)
    requires IsAsciiDigit(c)
    ensures var p := ProjectPhone(row);
      && (forall i :: 0 <= i < |p.normalizedNumber| ==> '0' <= p.normalizedNumber[i] <= '9')
      && multiset(p.normalizedNumber)[c] == multiset(p.number)[c]
      && (p.number == a + b ==> p.normalizedNumber == Keep(a, IsAsciiDigit) + Keep(b, IsAsciiDigit))
  {
    var p := ProjectPhone(row);
    KeepCounts(p.number, IsAsciiDigit, c);
    KeepAppend(a, b, IsAsciiDigit);
  }

  /** A number that is already digits only is its own normalised form. */
  lemma NormalizedNumberOfDigits(row: PhoneRow)
    requires AllDigits(ColumnText(row.number))
    ensures ProjectPhone(row).normalizedNumber == ProjectPhone(row).number
  {
    KeepFixpoint(ColumnText(row.number), IsAsciiDigit);
  }

  lemma DigitsOf555Example()
    ensures Keep("555-1234", IsAsciiDigit) == "5551234"
  {
    assert Keep("555", IsAsciiDigit) == "555" by {
      KeepFixpoint("555", IsAsciiDigit);
    }
    assert Keep("-1234", IsAsciiDigit) == "1234" by {
      assert "-1234"[1..] == "1234";
      KeepFixpoint("1234", IsAsciiDigit);
    }
    assert Keep("555" + "-1234", IsAsciiDigit) == Keep("555", IsAsciiDigit) + Keep("-1234", IsAsciiDigit) by {
      KeepAppend("555", "-1234", IsAsciiDigit);
    }
    assert "555-1234" == "555" + "-1234";
  }

  /** "555-1234" is reported with normalised number "5551234". */
  lemma NormalizedNumberExample()
    ensures ProjectPhone(PhoneRow(Some("555-1234"), Some(PhoneMobile), None)).normalizedNumber == "5551234"
  {
    var row := PhoneRow(Some("555-1234"), Some(PhoneMobile), None);
    assert ColumnText(row.number) == "555-1234";
    assert ProjectPhone(row).normalizedNumber == Keep("555-1234", IsAsciiDigit);
    DigitsOf555Example();
  }

  /** A phone row whose TYPE column is NULL reads as code 0, TYPE_CUSTOM,
      so it is reported with its custom label, or "custom" when that is
      missing too. */
  lemma NullPhoneTypeIsCustom(number: Option<string>, labelColumn: Option<string>)
    ensures ProjectPhone(PhoneRow(number, None, labelColumn)).labelText == CustomOr(ColumnText(labelColumn))
    ensures ProjectPhone(PhoneRow(number, None, None)).labelText == "custom"
  {
  }

  function ProjectEmail(row: EmailRow): (e: EmailEntry)
    ensures e.email == ColumnText(row.address)
    ensures e.labelText == EmailLabel(ColumnInt(row.typeColumn), ColumnText(row.labelColumn))
    ensures e.rawType == Some(ColumnInt(row.typeColumn))
  {
    EmailEntry(ColumnText(row.address), EmailLabel(ColumnInt(row.typeColumn), ColumnText(row.labelColumn)),
               Some(ColumnInt(row.typeColumn)))
  }

  function ProjectEmails(rows: seq<EmailRow>): (emails: seq<EmailEntry>)
    ensures |emails| == |rows|
    ensures forall i :: 0 <= i < |rows| ==> emails[i] == ProjectEmail(rows[i])
  {
    seq(|rows|, i requires 0 <= i < |rows| => ProjectEmail(rows[i]))
  }

  function ProjectAddress(row: PostalRow): (a: AddressEntry)
    ensures a.street == ColumnText(row.street) && a.city == ColumnText(row.city)
    ensures a.state == ColumnText(row.region) && a.postalCode == ColumnText(row.postcode)
    ensures a.country == ColumnText(row.country)
    ensures a.labelText == AddressLabel(ColumnInt(row.typeColumn), ColumnText(row.labelColumn))
    ensures a.rawType == Some(ColumnInt(row.typeColumn)) && a.isoCountryCode.None?
  {
    AddressEntry(ColumnText(row.street), ColumnText(row.city), ColumnText(row.region), ColumnText(row.postcode),
                 ColumnText(row.country), AddressLabel(ColumnInt(row.typeColumn), ColumnText(row.labelColumn)),
                 Some(ColumnInt(row.typeColumn)), None)
  }

  function ProjectAddresses(rows: seq<PostalRow>): (addresses: seq<AddressEntry>)
    ensures |addresses| == |rows|
    ensures forall i :: 0 <= i < |rows| ==> addresses[i] == ProjectAddress(rows[i])
  {
    seq(|rows|, i requires 0 <= i < |rows| => ProjectAddress(rows[i]))
  }

  function ProjectWebsite(row: WebsiteRow): (w: WebsiteEntry)
    ensures w.url == ColumnText(row.url)
    ensures w.labelText == WebsiteLabel(ColumnInt(row.typeColumn), ColumnText(row.labelColumn))
    ensures w.rawType == Some(ColumnInt(row.typeColumn))
  {
    WebsiteEntry(ColumnText(row.url), WebsiteLabel(ColumnInt(row.typeColumn), ColumnText(row.labelColumn)),
                 Some(ColumnInt(row.typeColumn)))
  }

  function ProjectWebsites(rows: seq<WebsiteRow>): (websites: seq<WebsiteEntry>)
    ensures |websites| == |rows|
    ensures forall i :: 0 <= i < |rows| ==> websites[i] == ProjectWebsite(rows[i])
  {
    seq(|rows|, i requires 0 <= i < |rows| => ProjectWebsite(rows[i]))
  }

  // ---------------------------------------------------------------------
  // Organisations and notes: empty rows are dropped
  // ---------------------------------------------------------------------

  function OrganizationOf(row: OrganizationRow): OrganizationEntry {
    OrganizationEntry(ColumnText(row.company), ColumnText(row.title), ColumnText(row.department))
  }

  predicate IsEmptyOrganization(o: OrganizationEntry) {
    o.name == "" && o.jobTitle == "" && o.department == ""
  }

  /** The organisations of the rows, in row order, without the rows whose
      company, title and department are all empty or NULL. */
  function ProjectOrganizations(rows: seq<OrganizationRow>): (orgs: seq<OrganizationEntry>)
    ensures |orgs| <= |rows|
    ensures forall k :: 0 <= k < |orgs| ==> !IsEmptyOrganization(orgs[k])
    ensures forall k :: 0 <= k < |orgs| ==> exists i :: 0 <= i < |rows| && OrganizationOf(rows[i]) == orgs[k]
    ensures forall i :: 0 <= i < |rows| && !IsEmptyOrganization(OrganizationOf(rows[i])) ==> OrganizationOf(rows[i]) in orgs
  {
    if |rows| == 0 then []
    else
      var rest := ProjectOrganizations(rows[1..]);
      assert forall i :: 1 <= i < |rows| ==> rows[i] == rows[1..][i - 1];
      var o := OrganizationOf(rows[0]);
      if IsEmptyOrganization(o) then rest
      else
        assert forall k :: 1 <= k < |[o] + rest| ==> ([o] + rest)[k] == rest[k - 1];
        [o] + rest
  }

  /** Dropping is done row by row, so the projection of a concatenation is
      the concatenation of the projections: the relative order of the
      surviving organisations is that of their rows. */
  lemma {:induction false} ProjectOrganizationsAppend(a: seq<OrganizationRow>, b: seq<OrganizationRow>)
    ensures ProjectOrganizations(a + b) == ProjectOrganizations(a) + ProjectOrganizations(b)
  {
    if |a| == 0 {
      assert a + b == b;
    } else {
      assert (a + b)[0] == a[0];
      assert (a + b)[1..] == a[1..] + b;
      ProjectOrganizationsAppend(a[1..], b);
    }
  }

  /** A row whose three columns are all empty or NULL contributes nothing. */
  lemma EmptyOrganizationRowDropped(a: seq<OrganizationRow>, b: seq<OrganizationRow>, row: OrganizationRow)
    requires ColumnText(row.company) == "" && ColumnText(row.title) == "" && ColumnText(row.department) == ""
    ensures ProjectOrganizations(a + [row] + b) == ProjectOrganizations(a + b)
  {
    assert ProjectOrganizations([row]) == [] by {
      assert [row][1..] == [];
    }
    ProjectOrganizationsAppend(a + [row], b);
    ProjectOrganizationsAppend(a, [row]);
    ProjectOrganizationsAppend(a, b);
    assert ProjectOrganizations(a) + [] == ProjectOrganizations(a);
  }

  /** The notes of the rows, in row order, without the empty or NULL ones. */
  function ProjectNotes(rows: seq<NoteRow>): (notes: seq<string>)
    ensures |notes| <= |rows|
    ensures forall k :: 0 <= k < |notes| ==> notes[k] != ""
    ensures forall k :: 0 <= k < |notes| ==> exists i :: 0 <= i < |rows| && rows[i].note == Some(notes[k])
    ensures forall i :: 0 <= i < |rows| && ColumnText(rows[i].note) != "" ==> rows[i].note.value in notes
  {
    if |rows| == 0 then []
    else
      var rest := ProjectNotes(rows[1..]);
      assert forall i :: 1 <= i < |rows| ==> rows[i] == rows[1..][i - 1];
      var n := ColumnText(rows[0].note);
      if n == "" then rest
      else
        assert forall k :: 1 <= k < |[n] + rest| ==> ([n] + rest)[k] == rest[k - 1];
        [n] + rest
  }

  lemma {:induction false} ProjectNotesAppend(a: seq<NoteRow>, b: seq<NoteRow>)
    ensures ProjectNotes(a + b) == ProjectNotes(a) + ProjectNotes(b)
  {
    if |a| == 0 {
      assert a + b == b;
    } else {
      assert (a + b)[0] == a[0];
      assert (a + b)[1..] == a[1..] + b;
      ProjectNotesAppend(a[1..], b);
    }
  }

  /** With no empty note, every note row is reported, in order. */
  lemma {:induction false} ProjectNotesKeepsNonEmpty(rows: seq<NoteRow>)
    requires forall i :: 0 <= i < |rows| ==> ColumnText(rows[i].note) != ""
    ensures |ProjectNotes(rows)| == |rows|
    ensures forall i :: 0 <= i < |rows| ==> ProjectNotes(rows)[i] == rows[i].note.value
  {
    if |rows| > 0 {
      ProjectNotesKeepsNonEmpty(rows[1..]);
    }
  }

  // ---------------------------------------------------------------------
  // Event dates
  // ---------------------------------------------------------------------

  datatype EventDate = EventDate(year: Option<int>, month: Option<int>, day: Option<int>)

  const NoDate: EventDate := EventDate(None, None, None)

  /** The date parsing of getEvents as written: split the start date on
      '-' and, when there are at least three parts, read parts 0, 1 and 2
      with `toIntOrNull`. */
  function ParseStartDateAsWritten(startDate: string): (d: EventDate)
    ensures |Split(startDate, '-')| < 3 ==> d == NoDate
    ensures d.year.Some? ==> IntMin <= d.year.value <= IntMax
    ensures d.month.Some? ==> IntMin <= d.month.value <= IntMax
    ensures d.day.Some? ==> IntMin <= d.day.value <= IntMax
  {
    var parts := Split(startDate, '-');
    if |parts| >= 3 then EventDate(ToIntOrNull(parts[0]), ToIntOrNull(parts[1]), ToIntOrNull(parts[2]))
    else NoDate
  }

  /** A date without a year, which the provider stores as "--MM-DD". */
  predicate HasNoYearPrefix(startDate: string) {
    |startDate| >= 2 && startDate[0] == '-' && startDate[1] == '-'
  }

  /** The date parsing with the "--MM-DD" form read as month and day. Every
      other start date is parsed as getEvents parses it. */
  function ParseStartDate(startDate: string): (d: EventDate)
    ensures !HasNoYearPrefix(startDate) ==> d == ParseStartDateAsWritten(startDate)
    ensures HasNoYearPrefix(startDate) ==> d.year.None?
  {
    if HasNoYearPrefix(startDate) then
      var parts := Split(startDate[2..], '-');
      if |parts| >= 2 then EventDate(None, ToIntOrNull(parts[0]), ToIntOrNull(parts[1])) else NoDate
    else ParseStartDateAsWritten(startDate)
  }

  /** A non-empty run of ASCII digits whose value fits in a 32-bit Int. */
  predicate DatePart(s: string) {
    |s| > 0 && AllDigits(s) && DigitsValue(s) <= IntMax
  }

  lemma DatePartParses(s: string)
    requires DatePart(s)
    ensures ToIntOrNull(s) == Some(DigitsValue(s))
  {
  }

  lemma DatePartHasNoDash(s: string)
    requires AllDigits(s)
    ensures '-' !in s
  {
  }

  /** "YYYY-MM-DD" (zero padding allowed) gives year, month and day. */
  lemma FullDateRoundTrip(y: string, m: string, dd: string)
    requires DatePart(y) && DatePart(m) && DatePart(dd)
    ensures ParseStartDate(y + "-" + m + "-" + dd) == EventDate(Some(DigitsValue(y)), Some(DigitsValue(m)), Some(DigitsValue(dd)))
  {
    var s := y + "-" + m + "-" + dd;
    DatePartHasNoDash(y);
    DatePartHasNoDash(m);
    DatePartHasNoDash(dd);
    assert Join([y, m, dd], '-') == s by {
      assert Join([y, m, dd], '-') == y + ['-'] + Join([m, dd], '-');
      assert [y, m, dd][1..] == [m, dd];
      assert Join([m, dd], '-') == m + ['-'] + Join([dd], '-');
      assert [m, dd][1..] == [dd];
    }
    SplitJoin([y, m, dd], '-');
    assert !HasNoYearPrefix(s) by {
      assert s[0] == y[0];
      assert IsAsciiDigit(y[0]);
    }
    DatePartParses(y);
    DatePartParses(m);
    DatePartParses(dd);
  }

  /** Parsed as written, "--MM-DD" splits into "", "", "MM" and "DD": the
      month is lost and the day is read from the month. */
  lemma AsWrittenMisreadsNoYearDate()
    ensures ParseStartDateAsWritten("--05-12") == EventDate(None, None, Some(5))
  {
    var parts: seq<string> := ["", "", "05", "12"];
    assert Split("--05-12", '-') == parts by {
      assert Join(parts, '-') == "--05-12" by {
        assert parts[1..] == ["", "05", "12"];
        assert parts[1..][1..] == ["05", "12"];
        assert parts[1..][1..][1..] == ["12"];
      }
      SplitJoin(parts, '-');
    }
    assert ToIntOrNull("") == None;
    assert ToIntOrNull("05") == Some(5) by {
      assert AllDigits("05");
      assert "05"[..1] == "0" && "0"[..0] == "";
      assert DigitsValue("05") == 5;
    }
  }

  /** "--MM-DD" gives no year, and the month and the day. */
  lemma NoYearDateRoundTrip(m: string, dd: string)
    requires DatePart(m) && DatePart(dd)
    ensures ParseStartDate("--" + m + "-" + dd) == EventDate(None, Some(DigitsValue(m)), Some(DigitsValue(dd)))
  {
    var s := "--" + m + "-" + dd;
    assert HasNoYearPrefix(s);
    assert s[2..] == m + "-" + dd;
    DatePartHasNoDash(m);
    DatePartHasNoDash(dd);
    assert Join([m, dd], '-') == m + "-" + dd by {
      assert [m, dd][1..] == [dd];
    }
    SplitJoin([m, dd], '-');
    DatePartParses(m);
    DatePartParses(dd);
  }

  /** A date with fewer than two dashes gives no date parts at all. */
  lemma ShortDateHasNoParts(startDate: string)
    requires |Split(startDate, '-')| < 3
    requires !HasNoYearPrefix(startDate)
    ensures ParseStartDate(startDate) == NoDate
  {
  }

  /** An event row as getEvents reads it: the start date is parsed as
      written, so a no-year "--MM-DD" date is misread. */
  function ProjectEvent(row: EventRow): (e: EventEntry)
    ensures e.labelText == EventLabel(ColumnInt(row.typeColumn), ColumnText(row.labelColumn))
    ensures e.rawType == Some(ColumnInt(row.typeColumn))
    ensures var d := ParseStartDateAsWritten(ColumnText(row.startDate)); e.year == d.year && e.month == d.month && e.day == d.day
  {
    var d := ParseStartDateAsWritten(ColumnText(row.startDate));
    EventEntry(EventLabel(ColumnInt(row.typeColumn), ColumnText(row.labelColumn)), Some(ColumnInt(row.typeColumn)),
               d.year, d.month, d.day)
  }

  function ProjectEvents(rows: seq<EventRow>): (events: seq<EventEntry>)
    ensures |events| == |rows|
    ensures forall i :: 0 <= i < |rows| ==> events[i] == ProjectEvent(rows[i])
  {
    seq(|rows|, i requires 0 <= i < |rows| => ProjectEvent(rows[i]))
  }

  /** A read event carries the date as getEvents parses it: "YYYY-MM-DD"
      gives all three parts, a date with fewer than two dashes gives none,
      and the no-year "--05-12" gives only a day, read from the month. */
  lemma ProjectEventDates(typeColumn: Option<int>, labelColumn: Option<string>, y: string, m: string, dd: string,
                          short: string)
    requires DatePart(y) && DatePart(m) && DatePart(dd)
    requires |Split(short, '-')| < 3
    ensures var e := ProjectEvent(EventRow(Some(y + "-" + m + "-" + dd), typeColumn, labelColumn));
      e.year == Some(DigitsValue(y)) && e.month == Some(DigitsValue(m)) && e.day == Some(DigitsValue(dd))
    ensures var e := ProjectEvent(EventRow(Some(short), typeColumn, labelColumn));
      e.year.None? && e.month.None? && e.day.None?
    ensures var e := ProjectEvent(EventRow(Some("--05-12"), typeColumn, labelColumn));
      e.year.None? && e.month.None? && e.day == Some(5)
    ensures ProjectEvent(EventRow(None, typeColumn, labelColumn)).year.None?
  {
    FullDateRoundTrip(y, m, dd);
    var s := y + "-" + m + "-" + dd;
    assert !HasNoYearPrefix(s) by {
      assert s[0] == y[0];
      assert IsAsciiDigit(y[0]);
    }
    AsWrittenMisreadsNoYearDate();
    assert Split("", '-') == [""];
  }

  /** An email read back with a standard type carries a label that maps
      back to that type; a NULL type reads as CUSTOM, whose label maps back
      to OTHER, so a custom email label does not survive the round trip. */
  lemma ProjectEmailTypeRoundTrip(row: EmailRow)
    ensures ColumnInt(row.typeColumn) in EmailLabels ==>
      EmailType(Some(ProjectEmail(row).labelText)) == ColumnInt(row.typeColumn)
    ensures row.typeColumn.None? ==> ProjectEmail(row).labelText == CustomOr(ColumnText(row.labelColumn))
    ensures row.typeColumn.None? ==> EmailType(Some(ProjectEmail(row).labelText)) != EmailCustom
  {
    if ColumnInt(row.typeColumn) in EmailLabels {
      EmailCodeRoundTrip(ColumnInt(row.typeColumn), ColumnText(row.labelColumn));
    }
  }

  /** Email rows written with a standard type read back, in order, as
      their address and a label that maps back to the written type. */
  lemma TypedEmailsReadBack(rows: seq<EmailRow>)
    requires forall k :: 0 <= k < |rows| ==> rows[k].typeColumn.Some? && rows[k].typeColumn.value in EmailLabels
    ensures var emails := ProjectEmails(rows);
      forall k :: 0 <= k < |emails| ==>
        && emails[k].email == ColumnText(rows[k].address)
        && emails[k].labelText == EmailLabels[rows[k].typeColumn.value]
        && EmailType(Some(emails[k].labelText)) == rows[k].typeColumn.value
  {
    forall k | 0 <= k < |rows|
      ensures EmailType(Some(ProjectEmail(rows[k]).labelText)) == rows[k].typeColumn.value
    {
      ProjectEmailTypeRoundTrip(rows[k]);
    }
  }

  /** A postal row's label names its type: a NULL type reads as CUSTOM, an
      unknown code as "other", and two rows of standard types with the same
      label have the same type. */
  lemma ProjectAddressLabels(row: PostalRow, other: PostalRow)
    ensures row.typeColumn.None? ==> ProjectAddress(row).labelText == CustomOr(ColumnText(row.labelColumn))
    ensures ColumnInt(row.typeColumn) != AddressCustom && ColumnInt(row.typeColumn) !in AddressLabels ==>
      ProjectAddress(row).labelText == "other"
    ensures ColumnInt(row.typeColumn) in AddressLabels && ColumnInt(other.typeColumn) in AddressLabels &&
            ProjectAddress(row).labelText == ProjectAddress(other).labelText
            ==> ColumnInt(row.typeColumn) == ColumnInt(other.typeColumn)
  {
  }

  /** A website row's label names its type, as for postal rows. */
  lemma ProjectWebsiteLabels(row: WebsiteRow, other: WebsiteRow)
    ensures row.typeColumn.None? ==> ProjectWebsite(row).labelText == CustomOr(ColumnText(row.labelColumn))
    ensures ColumnInt(row.typeColumn) != WebsiteCustom && ColumnInt(row.typeColumn) !in WebsiteLabels ==>
      ProjectWebsite(row).labelText == "other"
    ensures ColumnInt(row.typeColumn) in WebsiteLabels && ColumnInt(other.typeColumn) in WebsiteLabels &&
            ProjectWebsite(row).labelText == ProjectWebsite(other).labelText
            ==> ColumnInt(row.typeColumn) == ColumnInt(other.typeColumn)
  {
  }

  // ---------------------------------------------------------------------
  // Whole record
  // ---------------------------------------------------------------------

  function ProjectProperties(c: NativeContact): (p: Properties)
    ensures p.name == ProjectName(c.names)
    ensures |p.phones| == |c.phones| && |p.emails| == |c.emails| && |p.addresses| == |c.postals|
    ensures |p.websites| == |c.websites| && |p.events| == |c.events|
    ensures forall i :: 0 <= i < |c.phones| ==> p.phones[i] == ProjectPhone(c.phones[i])
    ensures forall i :: 0 <= i < |c.emails| ==> p.emails[i] == ProjectEmail(c.emails[i])
    ensures forall i :: 0 <= i < |c.postals| ==> p.addresses[i] == ProjectAddress(c.postals[i])
    ensures forall i :: 0 <= i < |c.websites| ==> p.websites[i] == ProjectWebsite(c.websites[i])
    ensures forall i :: 0 <= i < |c.events| ==> p.events[i] == ProjectEvent(c.events[i])
    ensures |p.organizations| <= |c.organizations| && |p.notes| <= |c.notes|
    ensures forall k :: 0 <= k < |p.organizations| ==> !IsEmptyOrganization(p.organizations[k])
    ensures forall i :: 0 <= i < |c.organizations| && !IsEmptyOrganization(OrganizationOf(c.organizations[i])) ==>
      OrganizationOf(c.organizations[i]) in p.organizations
    ensures forall k :: 0 <= k < |p.notes| ==> p.notes[k] != ""
    ensures forall i :: 0 <= i < |c.notes| && ColumnText(c.notes[i].note) != "" ==> c.notes[i].note.value in p.notes
  {
    Properties(ProjectName(c.names), ProjectPhones(c.phones), ProjectEmails(c.emails), ProjectAddresses(c.postals),
               ProjectOrganizations(c.organizations), ProjectWebsites(c.websites), ProjectNotes(c.notes),
               ProjectEvents(c.events))
  }

  /** The record for contact `id`: the fetch flags are the request flags,
      the property groups are merged in exactly when properties were asked
      for, and the picture entries are present exactly when asked for. */
  function ProjectContact(id: string, c: NativeContact, withProperties: bool, withThumbnail: bool, withPhoto: bool)
    : (r: ContactRecord)
    ensures r.id == id
    ensures r.displayName == ColumnText(c.displayName)
    ensures r.isStarred <==> c.starred == 1
    ensures r.propertiesFetched == withProperties
    ensures r.thumbnailFetched == withThumbnail
    ensures r.photoFetched == withPhoto
    ensures r.properties.Some? <==> withProperties
    ensures r.properties.Some? ==> r.properties.value == ProjectProperties(c)
    ensures r.thumbnail == (if withThumbnail then c.photo else None)
    ensures r.photo == (if withPhoto then c.photo else None)
  {
    ContactRecord(id, ColumnText(c.displayName), c.starred == 1, withProperties, withThumbnail, withPhoto,
                  if withProperties then Some(ProjectProperties(c)) else None,
                  if withThumbnail then c.photo else None,
                  if withPhoto then c.photo else None)
  }
}
