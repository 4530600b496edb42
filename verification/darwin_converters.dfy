/** The Darwin backend's two converters: `contactToDict`, which projects a
    fetched CNContact onto the record sent over the channel and reads only
    the keys that were fetched, and `dictToContactMutableCopy`, which
    builds a new mutable contact from a record payload. */
module DarwinConverters {
  import opened Wrappers
  import opened Text
  import opened Values
  import opened DarwinContacts

  // ---------------------------------------------------------------------
  // The record contactToDict produces
  // ---------------------------------------------------------------------

  datatype PhoneDict = PhoneDict(number: string, labelText: string, normalizedNumber: string)
  datatype EmailDict = EmailDict(email: string, labelText: string)
  datatype AddressDict = AddressDict(labelText: string, street: string, city: string, state: string,
                                     postalCode: string, country: string, isoCountryCode: string)
  datatype WebsiteDict = WebsiteDict(url: string, labelText: string)
  datatype SocialProfileDict = SocialProfileDict(service: string, username: string, userIdentifier: string,
                                                 url: string, labelText: string)
  datatype InstantMessageDict = InstantMessageDict(service: string, username: string, labelText: string)

  /** One entry of "events"; a `None` month or day is sent as null, a
      `None` year is left out of the dictionary. */
  datatype EventDict = EventDict(labelText: string, year: Option<int>, month: Option<int>, day: Option<int>)

  datatype ContactDict = ContactDict(
    id: string,
    displayName: string,
    name: map<string, string>,
    organization: map<string, string>,
    phones: seq<PhoneDict>,
    emails: seq<EmailDict>,
    addresses: seq<AddressDict>,
    websites: seq<WebsiteDict>,
    socialProfiles: seq<SocialProfileDict>,
    instantMessages: seq<InstantMessageDict>,
    events: seq<EventDict>,
    note: string,
    thumbnail: Option<Bytes>,
    photo: Option<Bytes>,
    isStarred: bool,
    propertiesFetched: bool,
    thumbnailFetched: bool,
    photoFetched: bool)

  // ---------------------------------------------------------------------
  // contactToDict
  // ---------------------------------------------------------------------

  /** The entries of the "name" dictionary and the key each one needs. */
  const NameKeyOf: map<string, Key> := map[
    "givenName" := GivenName, "familyName" := FamilyName, "middleName" := MiddleName,
    "namePrefix" := NamePrefix, "nameSuffix" := NameSuffix, "nickname" := Nickname,
    "phoneticGivenName" := PhoneticGivenName, "phoneticFamilyName" := PhoneticFamilyName,
    "phoneticMiddleName" := PhoneticMiddleName]

  /** The entries of the "organization" dictionary and the key each one
      needs. */
  const OrganizationKeyOf: map<string, Key> := map[
    "name" := OrganizationName, "jobTitle" := JobTitle, "department" := DepartmentName]

  /** The string property a key names; "" for keys that are not strings. */
  function StringProperty(c: CNContact, k: Key): string {
    match k
    case GivenName => c.givenName
    case FamilyName => c.familyName
    case MiddleName => c.middleName
    case NamePrefix => c.namePrefix
    case NameSuffix => c.nameSuffix
    case Nickname => c.nickname
    case PhoneticGivenName => c.phoneticGivenName
    case PhoneticFamilyName => c.phoneticFamilyName
    case PhoneticMiddleName => c.phoneticMiddleName
    case OrganizationName => c.organizationName
    case JobTitle => c.jobTitle
    case DepartmentName => c.departmentName
    case PhoneticOrganizationName => c.phoneticOrganizationName
    case Note => c.note
    case Identifier => c.identifier
    case _ => ""
  }

  /** A dictionary holding an entry exactly for each of `keyOf`'s names
      whose key was fetched, with that property's value. */
  function FetchedStrings(f: Fetched, keyOf: map<string, Key>): (d: map<string, string>)
    ensures forall e :: e in d <==> e in keyOf && keyOf[e] in f.available
    ensures forall e :: e in d ==> d[e] == StringProperty(f.contact, keyOf[e])
  {
    map e | e in keyOf && keyOf[e] in f.available :: StringProperty(f.contact, keyOf[e])
  }

  /** `localizedString(forLabel: label ?? "")`. */
  function LabelOf(platform: Platform, labelText: Option<string>): string {
    platform.localizedLabel(labelText.GetOr(""))
  }

  /** The digits of a phone number: the parts between the non-digits,
      joined. */
  function Digits(platform: Platform, number: string): (digits: string)
    ensures forall i :: 0 <= i < |digits| ==> platform.isDecimalDigit(digits[i])
    ensures forall c :: platform.isDecimalDigit(c) ==> multiset(digits)[c] == multiset(number)[c]
  {
    var digits := Keep(number, platform.isDecimalDigit);
    assert forall c :: platform.isDecimalDigit(c) ==> multiset(digits)[c] == multiset(number)[c] by {
      forall c | platform.isDecimalDigit(c)
        ensures multiset(digits)[c] == multiset(number)[c]
      {
        KeepCounts(number, platform.isDecimalDigit, c);
      }
    }
    digits
  }

  function PhoneOf(platform: Platform, p: Labeled<string>): PhoneDict {
    PhoneDict(p.value, LabelOf(platform, p.labelText), Digits(platform, p.value))
  }

  function EmailOf(platform: Platform, e: Labeled<string>): EmailDict {
    EmailDict(e.value, LabelOf(platform, e.labelText))
  }

  function AddressOf(platform: Platform, a: Labeled<PostalAddress>): AddressDict {
    var v := a.value;
    AddressDict(LabelOf(platform, a.labelText), v.street, v.city, v.state, v.postalCode, v.country, v.isoCountryCode)
  }

  function WebsiteOf(platform: Platform, u: Labeled<string>): WebsiteDict {
    WebsiteDict(u.value, LabelOf(platform, u.labelText))
  }

  function SocialProfileOf(platform: Platform, s: Labeled<SocialProfile>): SocialProfileDict {
    SocialProfileDict(s.value.service, s.value.username, s.value.userIdentifier, s.value.urlString,
                      LabelOf(platform, s.labelText))
  }

  function InstantMessageOf(platform: Platform, m: Labeled<InstantMessage>): InstantMessageDict {
    InstantMessageDict(m.value.service, m.value.username, LabelOf(platform, m.labelText))
  }

  /** A birthday as an event: labelled "birthday", its year only when it
      has one. */
  function BirthdayEvent(b: DateComponents): (e: EventDict)
    ensures e.labelText == "birthday"
    ensures e.year == b.year && e.month == b.month && e.day == b.day
  {
    EventDict("birthday", b.year, b.month, b.day)
  }

  /** Another date as an event: its year only when it is not
      `NSDateComponentUndefined`; month and day as stored, sentinel
      included. */
  function DateEvent(platform: Platform, d: Labeled<DateValue>): (e: EventDict)
    ensures e.year.None? <==> d.value.year == Undefined
    ensures e.year.Some? ==> e.year.value == d.value.year
    ensures e.month == Some(d.value.month) && e.day == Some(d.value.day)
  {
    var v := d.value;
    EventDict(LabelOf(platform, d.labelText), if v.year != Undefined then Some(v.year) else None, Some(v.month),
              Some(v.day))
  }

  /** Each labelled value of a fetched property, converted; the empty list
      when the property's key was not fetched. */
  function Project<T, U>(f: Fetched, k: Key, values: seq<T>, convert: T -> U): (r: seq<U>)
    ensures k !in f.available ==> r == []
    ensures k in f.available ==> |r| == |values| && forall i :: 0 <= i < |values| ==> r[i] == convert(values[i])
  {
    if k in f.available then seq(|values|, i requires 0 <= i < |values| => convert(values[i])) else []
  }

  function Events(platform: Platform, f: Fetched): (events: seq<EventDict>)
    ensures var c := f.contact;
      var hasBirthday := Birthday in f.available && c.birthday.Some?;
      && |events| == (if hasBirthday then 1 else 0) + (if Dates in f.available then |c.dates| else 0)
      && (hasBirthday ==> events[0] == BirthdayEvent(c.birthday.value))
      && (Dates in f.available ==> forall i :: 0 <= i < |c.dates| ==>
            events[i + (if hasBirthday then 1 else 0)] == DateEvent(platform, c.dates[i]))
  {
    var c := f.contact;
    var birthday := if Birthday in f.available && c.birthday.Some? then [BirthdayEvent(c.birthday.value)] else [];
    var dates := Project(f, Dates, c.dates, d => DateEvent(platform, d));
    assert forall i :: 0 <= i < |dates| ==> (birthday + dates)[|birthday| + i] == dates[i];
    birthday + dates
  }

  /** `contactToDict`: the identifier, an entry for each fetched name and
      organisation string, each list property only when its key was
      fetched, and the image flags set exactly when the image was fetched
      and exists. */
  function ContactToDict(platform: Platform, f: Fetched): (r: ContactDict)
    ensures r.id == f.contact.identifier
    ensures forall e :: e in r.name <==> e in NameKeyOf && NameKeyOf[e] in f.available
    ensures forall e :: e in r.organization <==> e in OrganizationKeyOf && OrganizationKeyOf[e] in f.available
    ensures PhoneNumbers !in f.available ==> r.phones == []
    ensures EmailAddresses !in f.available ==> r.emails == []
    ensures r.note == (if Note in f.available then f.contact.note else "")
    ensures !r.isStarred && r.propertiesFetched
    ensures r.thumbnailFetched <==> ThumbnailImageData in f.available && f.contact.thumbnailImageData.Some?
    ensures r.photoFetched <==> ImageData in f.available && f.contact.imageData.Some?
  {
    var c := f.contact;
    var a := f.available;
    var thumbnailFetched := ThumbnailImageData in a && c.thumbnailImageData.Some?;
    var photoFetched := ImageData in a && c.imageData.Some?;
    ContactDict(
      c.identifier,
      platform.fullName(f).GetOr(""),
      FetchedStrings(f, NameKeyOf),
      FetchedStrings(f, OrganizationKeyOf),
      Project(f, PhoneNumbers, c.phoneNumbers, p => PhoneOf(platform, p)),
      Project(f, EmailAddresses, c.emailAddresses, e => EmailOf(platform, e)),
      Project(f, PostalAddresses, c.postalAddresses, ad => AddressOf(platform, ad)),
      Project(f, UrlAddresses, c.urlAddresses, u => WebsiteOf(platform, u)),
      Project(f, SocialProfiles, c.socialProfiles, s => SocialProfileOf(platform, s)),
      Project(f, InstantMessageAddresses, c.instantMessageAddresses, m => InstantMessageOf(platform, m)),
      Events(platform, f),
      if Note in a then c.note else "",
      if thumbnailFetched then c.thumbnailImageData else None,
      if photoFetched then c.imageData else None,
      false,
      true,
      thumbnailFetched,
      photoFetched)
  }

  /** What a fetch did not ask for comes out empty: a list property whose
      key was not fetched is the empty list, the note is "", and the name
      and organisation dictionaries hold only entries whose key was
      fetched. */
  lemma ContactToDictUnfetchedIsEmpty(platform: Platform, f: Fetched)
    ensures var r := ContactToDict(platform, f);
      && (PhoneNumbers !in f.available ==> r.phones == [])
      && (EmailAddresses !in f.available ==> r.emails == [])
      && (PostalAddresses !in f.available ==> r.addresses == [])
      && (UrlAddresses !in f.available ==> r.websites == [])
      && (SocialProfiles !in f.available ==> r.socialProfiles == [])
      && (InstantMessageAddresses !in f.available ==> r.instantMessages == [])
      && (Birthday !in f.available && Dates !in f.available ==> r.events == [])
      && (Note !in f.available ==> r.note == "")
      && (forall e :: e in r.name ==> e in NameKeyOf && NameKeyOf[e] in f.available)
      && (forall e :: e in r.organization ==> e in OrganizationKeyOf && OrganizationKeyOf[e] in f.available)
  {
  }

  /** A fetched name or organisation property appears under its own
      entry with the stored value, even when that value is "", and an
      unfetched one has no entry. */
  lemma ContactToDictFetchedStrings(platform: Platform, f: Fetched)
    ensures var r := ContactToDict(platform, f);
      && (forall e :: e in NameKeyOf ==> (e in r.name <==> NameKeyOf[e] in f.available))
      && (forall e :: e in r.name ==> r.name[e] == StringProperty(f.contact, NameKeyOf[e]))
      && (forall e :: e in OrganizationKeyOf ==> (e in r.organization <==> OrganizationKeyOf[e] in f.available))
      && (forall e :: e in r.organization ==> r.organization[e] == StringProperty(f.contact, OrganizationKeyOf[e]))
  {
    var r := ContactToDict(platform, f);
    assert r.name == FetchedStrings(f, NameKeyOf);
    assert r.organization == FetchedStrings(f, OrganizationKeyOf);
  }

  /** The same, entry by entry, for the nine name strings. */
  lemma ContactToDictNameEntries(platform: Platform, f: Fetched)
    ensures var r := ContactToDict(platform, f);
      && (GivenName in f.available <==> "givenName" in r.name)
      && (GivenName in f.available ==> r.name["givenName"] == f.contact.givenName)
      && (FamilyName in f.available ==> r.name["familyName"] == f.contact.familyName)
      && (MiddleName in f.available ==> r.name["middleName"] == f.contact.middleName)
      && (NamePrefix in f.available ==> r.name["namePrefix"] == f.contact.namePrefix)
      && (NameSuffix in f.available ==> r.name["nameSuffix"] == f.contact.nameSuffix)
      && (Nickname in f.available ==> r.name["nickname"] == f.contact.nickname)
      && (PhoneticGivenName in f.available ==> r.name["phoneticGivenName"] == f.contact.phoneticGivenName)
      && (PhoneticFamilyName in f.available ==> r.name["phoneticFamilyName"] == f.contact.phoneticFamilyName)
      && (PhoneticMiddleName in f.available ==> r.name["phoneticMiddleName"] == f.contact.phoneticMiddleName)
  {
    ContactToDictFetchedStrings(platform, f);
    NameEntriesOf(ContactToDict(platform, f).name, f);
  }

  lemma NameEntriesOf(n: map<string, string>, f: Fetched)
    requires forall e :: e in NameKeyOf ==> (e in n <==> NameKeyOf[e] in f.available)
    requires forall e :: e in n ==> e in NameKeyOf && n[e] == StringProperty(f.contact, NameKeyOf[e])
    ensures && (GivenName in f.available <==> "givenName" in n)
            && (GivenName in f.available ==> n["givenName"] == f.contact.givenName)
            && (FamilyName in f.available ==> n["familyName"] == f.contact.familyName)
            && (MiddleName in f.available ==> n["middleName"] == f.contact.middleName)
            && (NamePrefix in f.available ==> n["namePrefix"] == f.contact.namePrefix)
            && (NameSuffix in f.available ==> n["nameSuffix"] == f.contact.nameSuffix)
            && (Nickname in f.available ==> n["nickname"] == f.contact.nickname)
            && (PhoneticGivenName in f.available ==> n["phoneticGivenName"] == f.contact.phoneticGivenName)
            && (PhoneticFamilyName in f.available ==> n["phoneticFamilyName"] == f.contact.phoneticFamilyName)
            && (PhoneticMiddleName in f.available ==> n["phoneticMiddleName"] == f.contact.phoneticMiddleName)
  {
    assert "givenName" in NameKeyOf && NameKeyOf["givenName"] == GivenName;
    assert "familyName" in NameKeyOf && NameKeyOf["familyName"] == FamilyName;
    assert "middleName" in NameKeyOf && NameKeyOf["middleName"] == MiddleName;
    assert "namePrefix" in NameKeyOf && NameKeyOf["namePrefix"] == NamePrefix;
    assert "nameSuffix" in NameKeyOf && NameKeyOf["nameSuffix"] == NameSuffix;
    assert "nickname" in NameKeyOf && NameKeyOf["nickname"] == Nickname;
    assert "phoneticGivenName" in NameKeyOf && NameKeyOf["phoneticGivenName"] == PhoneticGivenName;
    assert "phoneticFamilyName" in NameKeyOf && NameKeyOf["phoneticFamilyName"] == PhoneticFamilyName;
    assert "phoneticMiddleName" in NameKeyOf && NameKeyOf["phoneticMiddleName"] == PhoneticMiddleName;
  }

  /** And for the three organisation strings. */
  lemma ContactToDictOrganizationEntries(platform: Platform, f: Fetched)
    ensures var r := ContactToDict(platform, f);
      && (OrganizationName in f.available <==> "name" in r.organization)
      && (OrganizationName in f.available ==> r.organization["name"] == f.contact.organizationName)
      && (JobTitle in f.available ==> r.organization["jobTitle"] == f.contact.jobTitle)
      && (DepartmentName in f.available ==> r.organization["department"] == f.contact.departmentName)
  {
    ContactToDictFetchedStrings(platform, f);
  }

  /** Digits keeps the digits in the order the number has them: the
      digits of a concatenation are the digits of each part, joined. */
  lemma DigitsAppend(platform: Platform, a: string, b: string)
    ensures Digits(platform, a + b) == Digits(platform, a) + Digits(platform, b)
  {
    KeepAppend(a, b, platform.isDecimalDigit);
  }

  /** A number made only of decimal digits is its own digit string, so
      normalising twice is normalising once. */
  lemma DigitsOfDigits(platform: Platform, number: string)
    requires forall i :: 0 <= i < |number| ==> platform.isDecimalDigit(number[i])
    ensures Digits(platform, number) == number
    ensures Digits(platform, Digits(platform, number)) == Digits(platform, number)
  {
    KeepFixpoint(number, platform.isDecimalDigit);
  }

  /** Fetched phones come out one per stored number, in order, with the
      localised label, and a normalised number made of exactly the number's
      decimal digits, each kept as often as it occurs and in its order. */
  lemma ContactToDictPhones(platform: Platform, f: Fetched)
    requires PhoneNumbers in f.available
    ensures var phones := ContactToDict(platform, f).phones;
      var stored := f.contact.phoneNumbers;
      && |phones| == |stored|
      && forall i :: 0 <= i < |phones| ==>
           && phones[i].number == stored[i].value
           && phones[i].labelText == platform.localizedLabel(stored[i].labelText.GetOr(""))
           && (forall j :: 0 <= j < |phones[i].normalizedNumber| ==> platform.isDecimalDigit(phones[i].normalizedNumber[j]))
           && (forall c :: platform.isDecimalDigit(c) ==>
                 multiset(phones[i].normalizedNumber)[c] == multiset(stored[i].value)[c])
           && phones[i].normalizedNumber == Digits(platform, stored[i].value)
           && ((forall j :: 0 <= j < |stored[i].value| ==> platform.isDecimalDigit(stored[i].value[j]))
                 ==> phones[i].normalizedNumber == stored[i].value)
  {
    var stored := f.contact.phoneNumbers;
    forall i | 0 <= i < |stored| && forall j :: 0 <= j < |stored[i].value| ==> platform.isDecimalDigit(stored[i].value[j])
      ensures Digits(platform, stored[i].value) == stored[i].value
    {
      DigitsOfDigits(platform, stored[i].value);
    }
  }

  /** The normalised number of a fetched phone keeps the digits in the
      order the stored number has them. */
  lemma ContactToDictPhoneDigitsInOrder(platform: Platform, f: Fetched, i: nat, a: string, b: string)
    requires PhoneNumbers in f.available
    requires i < |f.contact.phoneNumbers|
    requires f.contact.phoneNumbers[i].value == a + b
    ensures ContactToDict(platform, f).phones[i].normalizedNumber == Digits(platform, a) + Digits(platform, b)
  {
    ContactToDictPhones(platform, f);
    DigitsAppend(platform, a, b);
  }

  /** The event list on its own, before it is placed in the record. */
  lemma EventsInOrder(platform: Platform, f: Fetched)
    ensures var events := Events(platform, f);
      var c := f.contact;
      var offset := if Birthday in f.available && c.birthday.Some? then 1 else 0;
      && |events| == offset + (if Dates in f.available then |c.dates| else 0)
      && (offset == 1 ==>
            && events[0].labelText == "birthday" && events[0].year == c.birthday.value.year
            && events[0].month == c.birthday.value.month && events[0].day == c.birthday.value.day)
      && (Dates in f.available ==> forall i :: 0 <= i < |c.dates| ==>
            && (events[offset + i].year.None? <==> c.dates[i].value.year == Undefined)
            && (events[offset + i].year.Some? ==> events[offset + i].year.value == c.dates[i].value.year)
            && events[offset + i].month == Some(c.dates[i].value.month))
  {
    var events := Events(platform, f);
    var offset := if Birthday in f.available && f.contact.birthday.Some? then 1 else 0;
    if Dates in f.available {
      forall i | 0 <= i < |f.contact.dates|
        ensures events[offset + i] == DateEvent(platform, f.contact.dates[i])
      {
      }
    }
  }

  /** A birthday, when fetched and present, is the first event, labelled
      "birthday", with its year only when it has one; the other dates
      follow in order, each with a year only when it is defined. */
  lemma ContactToDictEvents(platform: Platform, f: Fetched)
    ensures var events := ContactToDict(platform, f).events;
      var c := f.contact;
      var offset := if Birthday in f.available && c.birthday.Some? then 1 else 0;
      && |events| == offset + (if Dates in f.available then |c.dates| else 0)
      && (offset == 1 ==>
            && events[0].labelText == "birthday" && events[0].year == c.birthday.value.year
            && events[0].month == c.birthday.value.month && events[0].day == c.birthday.value.day)
      && (Dates in f.available ==> forall i :: 0 <= i < |c.dates| ==>
            && (events[offset + i].year.None? <==> c.dates[i].value.year == Undefined)
            && (events[offset + i].year.Some? ==> events[offset + i].year.value == c.dates[i].value.year)
            && events[offset + i].month == Some(c.dates[i].value.month))
  {
    EventsInOrder(platform, f);
    assert ContactToDict(platform, f).events == Events(platform, f);
  }

  /** Darwin has no starred contacts; `propertiesFetched` is always set;
      an image flag holds exactly when its key was fetched and the contact
      has that image, and the image is sent exactly then. */
  lemma ContactToDictFlags(platform: Platform, f: Fetched)
    ensures var r := ContactToDict(platform, f);
      && !r.isStarred && r.propertiesFetched
      && (r.thumbnailFetched <==> ThumbnailImageData in f.available && f.contact.thumbnailImageData.Some?)
      && (r.photoFetched <==> ImageData in f.available && f.contact.imageData.Some?)
      && (r.thumbnail.Some? <==> r.thumbnailFetched)
      && (r.photo.Some? <==> r.photoFetched)
      && (r.photo.Some? ==> r.photo == f.contact.imageData)
  {
  }

  // ---------------------------------------------------------------------
  // The record as the channel carries it
  // ---------------------------------------------------------------------

  function StringsValue(m: map<string, string>): Value {
    Dict(map e | e in m :: Str(m[e]))
  }

  function ListValue<T>(xs: seq<T>, encode: T -> Value): (v: Value)
    ensures v.List? && |v.items| == |xs|
    ensures forall i :: 0 <= i < |xs| ==> v.items[i] == encode(xs[i])
  {
    List(seq(|xs|, i requires 0 <= i < |xs| => encode(xs[i])))
  }

  function PhoneValue(p: PhoneDict): Value {
    Dict(map["number" := Str(p.number), "label" := Str(p.labelText), "normalizedNumber" := Str(p.normalizedNumber)])
  }

  function EmailValue(e: EmailDict): Value {
    Dict(map["email" := Str(e.email), "label" := Str(e.labelText)])
  }

  function AddressValue(a: AddressDict): Value {
    Dict(map["label" := Str(a.labelText), "street" := Str(a.street), "city" := Str(a.city), "state" := Str(a.state),
             "postalCode" := Str(a.postalCode), "country" := Str(a.country), "isoCountryCode" := Str(a.isoCountryCode)])
  }

  function WebsiteValue(u: WebsiteDict): Value {
    Dict(map["url" := Str(u.url), "label" := Str(u.labelText)])
  }

  function SocialProfileValue(s: SocialProfileDict): Value {
    Dict(map["service" := Str(s.service), "username" := Str(s.username), "userIdentifier" := Str(s.userIdentifier),
             "url" := Str(s.url), "label" := Str(s.labelText)])
  }

  function InstantMessageValue(m: InstantMessageDict): Value {
    Dict(map["service" := Str(m.service), "username" := Str(m.username), "label" := Str(m.labelText)])
  }

  /** An event: month and day always present (null when unset), the year
      only when there is one. */
  function EventValue(e: EventDict): Value {
    var d := map["label" := Str(e.labelText), "month" := OptInt(e.month), "day" := OptInt(e.day)];
    Dict(if e.year.Some? then d["year" := Int(e.year.value)] else d)
  }

  /** The dictionary `contactToDict` hands to the channel; "thumbnail" and
      "photo" are present only when they hold data. */
  function RecordToDict(r: ContactDict): Dict {
    var d := map[
      "id" := Str(r.id), "displayName" := Str(r.displayName),
      "name" := StringsValue(r.name), "organization" := StringsValue(r.organization),
      "phones" := ListValue(r.phones, PhoneValue), "emails" := ListValue(r.emails, EmailValue),
      "addresses" := ListValue(r.addresses, AddressValue), "websites" := ListValue(r.websites, WebsiteValue),
      "socialProfiles" := ListValue(r.socialProfiles, SocialProfileValue),
      "instantMessages" := ListValue(r.instantMessages, InstantMessageValue),
      "events" := ListValue(r.events, EventValue), "note" := Str(r.note),
      "isStarred" := Bool(r.isStarred), "propertiesFetched" := Bool(r.propertiesFetched),
      "thumbnailFetched" := Bool(r.thumbnailFetched), "photoFetched" := Bool(r.photoFetched)];
    var d := if r.thumbnail.Some? then d["thumbnail" := Blob(r.thumbnail.value)] else d;
    if r.photo.Some? then d["photo" := Blob(r.photo.value)] else d
  }

  // ---------------------------------------------------------------------
  // dictToContactMutableCopy
  // ---------------------------------------------------------------------

  /** A labelled string entry: dropped without its value key, labelled
      `fallback` when "label" is not a string. */
  function LabeledString(d: Dict, valueKey: string, fallback: string): (r: Option<Labeled<string>>)
    ensures r.Some? <==> GetString(d, valueKey).Some?
    ensures r.Some? ==> r.value == Labeled(Some(GetString(d, "label").GetOr(fallback)), GetString(d, valueKey).value)
  {
    match GetString(d, valueKey)
    case None => None
    case Some(v) => Some(Labeled(Some(GetString(d, "label").GetOr(fallback)), v))
  }

  /** The `compactMap` over a list of labelled string items: the items that
      carry their value, in order. */
  function LabeledItems(items: seq<Dict>, valueKey: string, fallback: string): (r: seq<Labeled<string>>)
    ensures |r| <= |items|
    ensures forall k :: 0 <= k < |r| ==> exists i :: 0 <= i < |items| && LabeledString(items[i], valueKey, fallback) == Some(r[k])
    ensures forall i :: 0 <= i < |items| && GetString(items[i], valueKey).Some? ==>
              LabeledString(items[i], valueKey, fallback).value in r
  {
    if |items| == 0 then []
    else
      var head := LabeledString(items[0], valueKey, fallback);
      var rest := LabeledItems(items[1..], valueKey, fallback);
      var r := if head.Some? then [head.value] + rest else rest;
      assert forall k :: 0 <= k < |r| ==> exists i :: 0 <= i < |items| && LabeledString(items[i], valueKey, fallback) == Some(r[k]) by {
        forall k | 0 <= k < |r|
          ensures exists i :: 0 <= i < |items| && LabeledString(items[i], valueKey, fallback) == Some(r[k])
        {
          if head.Some? && k == 0 {
            assert LabeledString(items[0], valueKey, fallback) == Some(r[0]);
          } else {
            var k' := if head.Some? then k - 1 else k;
            assert r[k] == rest[k'];
            var i' :| 0 <= i' < |items[1..]| && LabeledString(items[1..][i'], valueKey, fallback) == Some(rest[k']);
            assert items[i' + 1] == items[1..][i'];
          }
        }
      }
      assert forall i :: 0 <= i < |items| && GetString(items[i], valueKey).Some? ==>
               LabeledString(items[i], valueKey, fallback).value in r by {
        forall i | 0 <= i < |items| && GetString(items[i], valueKey).Some?
          ensures LabeledString(items[i], valueKey, fallback).value in r
        {
          if i > 0 {
            assert items[i] == items[1..][i - 1];
          }
        }
      }
      r
  }

  /** With every item carrying its value, there is one entry per item, in
      item order. */
  lemma {:induction false} LabeledItemsAll(items: seq<Dict>, valueKey: string, fallback: string)
    requires forall i :: 0 <= i < |items| ==> GetString(items[i], valueKey).Some?
    ensures |LabeledItems(items, valueKey, fallback)| == |items|
    ensures forall i :: 0 <= i < |items| ==>
              LabeledItems(items, valueKey, fallback)[i] == LabeledString(items[i], valueKey, fallback).value
  {
    if |items| > 0 {
      LabeledItemsAll(items[1..], valueKey, fallback);
    }
  }

  /** The list under `listKey` when it is a list of dictionaries, built
      into labelled entries; otherwise the fresh contact's empty list. */
  function BuiltLabeled(dict: Dict, listKey: string, valueKey: string, fallback: string): seq<Labeled<string>> {
    match GetDictList(dict, listKey)
    case None => []
    case Some(items) => LabeledItems(items, valueKey, fallback)
  }

  /** A postal address entry is never dropped: missing fields become "",
      the label defaults to home, and the ISO country code is not read. */
  function AddressEntry(d: Dict): Labeled<PostalAddress> {
    Labeled(Some(GetString(d, "label").GetOr(LabelHome)),
            PostalAddress(GetString(d, "street").GetOr(""), GetString(d, "city").GetOr(""),
                          GetString(d, "state").GetOr(""), GetString(d, "postalCode").GetOr(""),
                          GetString(d, "country").GetOr(""), ""))
  }

  /** The `compactMap` over the addresses under `listKey`, whose closure
      never returns nil. */
  function BuiltAddresses(dict: Dict, listKey: string): seq<Labeled<PostalAddress>> {
    match GetDictList(dict, listKey)
    case None => []
    case Some(items) => seq(|items|, i requires 0 <= i < |items| => AddressEntry(items[i]))
  }

  /** An event the builder takes as the birthday: labelled "birthday" with
      an integer month and day. */
  predicate IsBirthdayEvent(e: Dict) {
    GetString(e, "label") == Some("birthday") && GetInt(e, "month").Some? && GetInt(e, "day").Some?
  }

  function BirthdayOf(e: Dict): DateComponents
    requires IsBirthdayEvent(e)
  {
    DateComponents(GetInt(e, "year"), GetInt(e, "month"), GetInt(e, "day"))
  }

  /** The loop over "events" that stops at the first birthday. */
  function FirstBirthday(events: seq<Dict>): (b: Option<DateComponents>)
    ensures b.None? <==> forall i :: 0 <= i < |events| ==> !IsBirthdayEvent(events[i])
    ensures b.Some? ==> exists i :: 0 <= i < |events| && IsBirthdayEvent(events[i]) && b.value == BirthdayOf(events[i])
                                    && forall j :: 0 <= j < i ==> !IsBirthdayEvent(events[j])
  {
    if |events| == 0 then None
    else if IsBirthdayEvent(events[0]) then Some(BirthdayOf(events[0]))
    else
      var b := FirstBirthday(events[1..]);
      assert forall i :: 1 <= i < |events| ==> events[i] == events[1..][i - 1];
      assert b.Some? ==> exists i :: 0 <= i < |events| && IsBirthdayEvent(events[i]) && b.value == BirthdayOf(events[i])
                                     && forall j :: 0 <= j < i ==> !IsBirthdayEvent(events[j]) by {
        if b.Some? {
          var i :| 0 <= i < |events[1..]| && IsBirthdayEvent(events[1..][i]) && b.value == BirthdayOf(events[1..][i])
                   && forall j :: 0 <= j < i ==> !IsBirthdayEvent(events[1..][j]);
          assert forall j :: 0 <= j < i + 1 ==> !IsBirthdayEvent(events[j]) by {
            forall j | 0 <= j < i + 1
              ensures !IsBirthdayEvent(events[j])
            {
              if j > 0 {
                assert events[j] == events[1..][j - 1];
              }
            }
          }
        }
      }
      b
  }

  /** A string entry of the sub-dictionary `group`, "" when it is not a
      string; the fresh contact's "" when there is no such dictionary. */
  function GroupText(dict: Dict, group: string, entry: string): string {
    match GetDict(dict, group)
    case None => ""
    case Some(g) => GetString(g, entry).GetOr("")
  }

  function BuiltBirthday(dict: Dict): Option<DateComponents> {
    match GetDictList(dict, "events")
    case None => None
    case Some(events) => FirstBirthday(events)
  }

  /** `dictToContactMutableCopy`: a new contact holding what the record
      payload carries; every property the payload does not set keeps the
      fresh contact's empty value. */
  function DictToContactMutableCopy(dict: Dict, identifier: string): (c: CNContact)
    ensures c.identifier == identifier
    ensures c.note == GetString(dict, "note").GetOr("")
    ensures c.phoneticOrganizationName == "" && c.socialProfiles == [] && c.instantMessageAddresses == []
    ensures c.dates == [] && c.imageData.None? && c.thumbnailImageData.None?
  {
    CNContact(
      identifier,
      GroupText(dict, "name", "givenName"),
      GroupText(dict, "name", "familyName"),
      GroupText(dict, "name", "middleName"),
      GroupText(dict, "name", "namePrefix"),
      GroupText(dict, "name", "nameSuffix"),
      GroupText(dict, "name", "nickname"),
      GroupText(dict, "name", "phoneticGivenName"),
      GroupText(dict, "name", "phoneticFamilyName"),
      GroupText(dict, "name", "phoneticMiddleName"),
      GroupText(dict, "organization", "name"),
      GroupText(dict, "organization", "jobTitle"),
      GroupText(dict, "organization", "department"),
      "",
      BuiltLabeled(dict, "phones", "number", LabelMain),
      BuiltLabeled(dict, "emails", "email", LabelHome),
      BuiltAddresses(dict, "addresses"),
      BuiltLabeled(dict, "websites", "url", LabelHomePage),
      [],
      [],
      BuiltBirthday(dict),
      [],
      GetString(dict, "note").GetOr(""),
      None,
      None)
  }

  /** Phones, emails and websites: an item without its value string is
      dropped, every other item gives one entry, and a missing label falls
      back to main, home and homepage respectively; without a list of
      dictionaries the contact has none. */
  lemma BuilderLabeledEntries(dict: Dict, identifier: string)
    ensures var c := DictToContactMutableCopy(dict, identifier);
      && c.phoneNumbers == BuiltLabeled(dict, "phones", "number", LabelMain)
      && c.emailAddresses == BuiltLabeled(dict, "emails", "email", LabelHome)
      && c.urlAddresses == BuiltLabeled(dict, "websites", "url", LabelHomePage)
    ensures forall listKey, valueKey, fallback :: GetDictList(dict, listKey).None? ==>
              BuiltLabeled(dict, listKey, valueKey, fallback) == []
  {
  }

  /** An entry built from a list comes from an item carrying its value,
      with that value and the item's label or the fallback; every item
      carrying its value gives an entry. */
  lemma BuiltLabeledEntries(dict: Dict, listKey: string, valueKey: string, fallback: string)
    requires GetDictList(dict, listKey).Some?
    ensures var items := GetDictList(dict, listKey).value;
      var built := BuiltLabeled(dict, listKey, valueKey, fallback);
      && (forall k :: 0 <= k < |built| ==>
            (exists i :: 0 <= i < |items| && GetString(items[i], valueKey) == Some(built[k].value)
                         && built[k].labelText == Some(GetString(items[i], "label").GetOr(fallback))))
      && (forall i :: 0 <= i < |items| && GetString(items[i], valueKey).Some? ==>
            Labeled(Some(GetString(items[i], "label").GetOr(fallback)), GetString(items[i], valueKey).value) in built)
  {
  }

  /** Every address item gives an address, in order; missing fields are
      "" and the label defaults to home. */
  lemma BuilderKeepsEveryAddress(dict: Dict, identifier: string)
    requires GetDictList(dict, "addresses").Some?
    ensures var c := DictToContactMutableCopy(dict, identifier);
      var items := GetDictList(dict, "addresses").value;
      && |c.postalAddresses| == |items|
      && forall i :: 0 <= i < |items| ==>
           && c.postalAddresses[i].labelText == Some(GetString(items[i], "label").GetOr(LabelHome))
           && c.postalAddresses[i].value.street == GetString(items[i], "street").GetOr("")
           && c.postalAddresses[i].value.city == GetString(items[i], "city").GetOr("")
           && c.postalAddresses[i].value.country == GetString(items[i], "country").GetOr("")
           && c.postalAddresses[i].value.isoCountryCode == ""
  {
  }

  /** The birthday comes from the first "birthday" event with an integer
      month and day; whatever follows it is ignored. */
  lemma BuilderFirstBirthdayWins(dict: Dict, identifier: string, before: seq<Dict>, e: Dict, after: seq<Dict>)
    requires GetDictList(dict, "events") == Some(before + [e] + after)
    requires forall j :: 0 <= j < |before| ==> !IsBirthdayEvent(before[j])
    requires IsBirthdayEvent(e)
    ensures DictToContactMutableCopy(dict, identifier).birthday == Some(BirthdayOf(e))
    ensures DictToContactMutableCopy(dict, identifier).birthday.value.year == GetInt(e, "year")
  {
    var events := before + [e] + after;
    assert events[|before|] == e;
    assert forall j :: 0 <= j < |before| ==> events[j] == before[j];
    var b := FirstBirthday(events);
    var i :| 0 <= i < |events| && IsBirthdayEvent(events[i]) && b.value == BirthdayOf(events[i])
             && forall j :: 0 <= j < i ==> !IsBirthdayEvent(events[j]);
    assert i == |before|;
  }

  /** Without a "birthday" event that has an integer month and day, the
      contact has no birthday. */
  lemma BuilderNoBirthday(dict: Dict, identifier: string)
    requires GetDictList(dict, "events").Some? ==>
      forall j :: 0 <= j < |GetDictList(dict, "events").value| ==> !IsBirthdayEvent(GetDictList(dict, "events").value[j])
    ensures DictToContactMutableCopy(dict, identifier).birthday.None?
  {
  }

  lemma NameKeyCases(e: string)
    requires e in NameKeyOf
    ensures || (e == "givenName" && NameKeyOf[e] == GivenName) || (e == "familyName" && NameKeyOf[e] == FamilyName)
            || (e == "middleName" && NameKeyOf[e] == MiddleName) || (e == "namePrefix" && NameKeyOf[e] == NamePrefix)
            || (e == "nameSuffix" && NameKeyOf[e] == NameSuffix) || (e == "nickname" && NameKeyOf[e] == Nickname)
            || (e == "phoneticGivenName" && NameKeyOf[e] == PhoneticGivenName)
            || (e == "phoneticFamilyName" && NameKeyOf[e] == PhoneticFamilyName)
            || (e == "phoneticMiddleName" && NameKeyOf[e] == PhoneticMiddleName)
  {
  }

  lemma OrganizationKeyCases(e: string)
    requires e in OrganizationKeyOf
    ensures || (e == "name" && OrganizationKeyOf[e] == OrganizationName)
            || (e == "jobTitle" && OrganizationKeyOf[e] == JobTitle)
            || (e == "department" && OrganizationKeyOf[e] == DepartmentName)
  {
  }

  /** Each name and organisation property of a built contact is its entry
      in the matching group of the record. */
  lemma BuiltFromGroups(dict: Dict, identifier: string)
    ensures var c := DictToContactMutableCopy(dict, identifier);
      forall e :: e in NameKeyOf ==> StringProperty(c, NameKeyOf[e]) == GroupText(dict, "name", e)
    ensures var c := DictToContactMutableCopy(dict, identifier);
      forall e :: e in OrganizationKeyOf ==> StringProperty(c, OrganizationKeyOf[e]) == GroupText(dict, "organization", e)
  {
    var c := DictToContactMutableCopy(dict, identifier);
    FieldsByKey(c, dict);
  }

  lemma FieldsByKey(c: CNContact, dict: Dict)
    requires && c.givenName == GroupText(dict, "name", "givenName")
             && c.familyName == GroupText(dict, "name", "familyName")
             && c.middleName == GroupText(dict, "name", "middleName")
             && c.namePrefix == GroupText(dict, "name", "namePrefix")
             && c.nameSuffix == GroupText(dict, "name", "nameSuffix")
             && c.nickname == GroupText(dict, "name", "nickname")
             && c.phoneticGivenName == GroupText(dict, "name", "phoneticGivenName")
             && c.phoneticFamilyName == GroupText(dict, "name", "phoneticFamilyName")
             && c.phoneticMiddleName == GroupText(dict, "name", "phoneticMiddleName")
             && c.organizationName == GroupText(dict, "organization", "name")
             && c.jobTitle == GroupText(dict, "organization", "jobTitle")
             && c.departmentName == GroupText(dict, "organization", "department")
    ensures forall e :: e in NameKeyOf ==> StringProperty(c, NameKeyOf[e]) == GroupText(dict, "name", e)
    ensures forall e :: e in OrganizationKeyOf ==> StringProperty(c, OrganizationKeyOf[e]) == GroupText(dict, "organization", e)
  {
    forall e | e in NameKeyOf
      ensures StringProperty(c, NameKeyOf[e]) == GroupText(dict, "name", e)
    {
      NameKeyCases(e);
    }
    forall e | e in OrganizationKeyOf
      ensures StringProperty(c, OrganizationKeyOf[e]) == GroupText(dict, "organization", e)
    {
      OrganizationKeyCases(e);
    }
  }

  /** The name components are copied only from a "name" dictionary, the
      organisation only from an "organization" one; a component that is
      missing or not a string becomes "". What the builder never sets
      stays empty. */
  lemma BuilderNameComponents(dict: Dict, identifier: string)
    ensures var c := DictToContactMutableCopy(dict, identifier);
      && (GetDict(dict, "name").None? ==> forall e :: e in NameKeyOf ==> StringProperty(c, NameKeyOf[e]) == "")
      && (GetDict(dict, "name").Some? ==> forall e :: e in NameKeyOf ==>
            StringProperty(c, NameKeyOf[e]) == GetString(GetDict(dict, "name").value, e).GetOr(""))
      && (GetDict(dict, "organization").None? ==>
            forall e :: e in OrganizationKeyOf ==> StringProperty(c, OrganizationKeyOf[e]) == "")
      && (GetDict(dict, "organization").Some? ==> forall e :: e in OrganizationKeyOf ==>
            StringProperty(c, OrganizationKeyOf[e]) == GetString(GetDict(dict, "organization").value, e).GetOr(""))
    ensures var c := DictToContactMutableCopy(dict, identifier);
      && (GetDict(dict, "name").None? ==> c.givenName == "" && c.familyName == "" && c.nickname == "")
      && (GetDict(dict, "name").Some? ==> var n := GetDict(dict, "name").value;
            && c.givenName == GetString(n, "givenName").GetOr("")
            && c.familyName == GetString(n, "familyName").GetOr("")
            && c.phoneticMiddleName == GetString(n, "phoneticMiddleName").GetOr(""))
      && (GetDict(dict, "organization").Some? ==> var o := GetDict(dict, "organization").value;
            && c.organizationName == GetString(o, "name").GetOr("")
            && c.jobTitle == GetString(o, "jobTitle").GetOr("")
            && c.departmentName == GetString(o, "department").GetOr(""))
      && c.socialProfiles == [] && c.instantMessageAddresses == [] && c.dates == []
      && c.imageData.None? && c.identifier == identifier
  {
    BuiltFromGroups(dict, identifier);
  }

  // ---------------------------------------------------------------------
  // Round trip: a fetched contact, sent as a record and built back
  // ---------------------------------------------------------------------

  /** What the builder reads back out of an encoded record. */
  lemma RecordName(r: ContactDict)
    ensures GetDict(RecordToDict(r), "name") == Some(map e | e in r.name :: Str(r.name[e]))
  {
    assert RecordToDict(r)["name"] == StringsValue(r.name);
  }

  lemma RecordOrganization(r: ContactDict)
    ensures GetDict(RecordToDict(r), "organization") == Some(map e | e in r.organization :: Str(r.organization[e]))
  {
    assert RecordToDict(r)["organization"] == StringsValue(r.organization);
  }

  lemma RecordNote(r: ContactDict)
    ensures GetString(RecordToDict(r), "note") == Some(r.note)
  {
  }

  lemma RecordPhones(r: ContactDict)
    ensures var items := GetDictList(RecordToDict(r), "phones");
      && items.Some? && |items.value| == |r.phones|
      && forall i :: 0 <= i < |r.phones| ==> items.value[i] == PhoneValue(r.phones[i]).entries
  {
    var d := RecordToDict(r);
    assert d["phones"] == ListValue(r.phones, PhoneValue);
  }

  lemma RecordEvents(r: ContactDict)
    ensures var items := GetDictList(RecordToDict(r), "events");
      && items.Some? && |items.value| == |r.events|
      && forall i :: 0 <= i < |r.events| ==> items.value[i] == EventValue(r.events[i]).entries
  {
    var d := RecordToDict(r);
    assert d["events"] == ListValue(r.events, EventValue);
  }

  /** A group encoded from a map of strings gives each entry back. */
  lemma GroupTextOfStrings(d: Dict, group: string, m: map<string, string>, e: string)
    requires GetDict(d, group) == Some(map k | k in m :: Str(m[k]))
    requires e in m
    ensures GroupText(d, group, e) == m[e]
  {
  }

  /** A fetched name or organisation entry comes back from the encoded
      record as the property it was read from. */
  lemma RoundTripEntry(platform: Platform, f: Fetched, group: string, keyOf: map<string, Key>, e: string)
    requires (group == "name" && keyOf == NameKeyOf) || (group == "organization" && keyOf == OrganizationKeyOf)
    requires e in keyOf && keyOf[e] in f.available
    ensures GroupText(RecordToDict(ContactToDict(platform, f)), group, e) == StringProperty(f.contact, keyOf[e])
  {
    var r := ContactToDict(platform, f);
    var strings := FetchedStrings(f, keyOf);
    if group == "name" {
      assert r.name == strings;
      RecordName(r);
    } else {
      assert r.organization == strings;
      RecordOrganization(r);
    }
    GroupTextOfStrings(RecordToDict(r), group, strings, e);
  }

  /** The builder's name fields, read through their entries. */
  lemma BuiltNameFields(d: Dict, c: CNContact, identifier: string)
    requires forall e :: e in NameKeyOf ==> GroupText(d, "name", e) == StringProperty(c, NameKeyOf[e])
    ensures var b := DictToContactMutableCopy(d, identifier);
      && b.givenName == c.givenName && b.familyName == c.familyName && b.middleName == c.middleName
      && b.namePrefix == c.namePrefix && b.nameSuffix == c.nameSuffix && b.nickname == c.nickname
      && b.phoneticGivenName == c.phoneticGivenName && b.phoneticFamilyName == c.phoneticFamilyName
      && b.phoneticMiddleName == c.phoneticMiddleName
  {
    assert "givenName" in NameKeyOf;
    assert "familyName" in NameKeyOf;
    assert "middleName" in NameKeyOf;
    assert "namePrefix" in NameKeyOf;
    assert "nameSuffix" in NameKeyOf;
    assert "nickname" in NameKeyOf;
    assert "phoneticGivenName" in NameKeyOf;
    assert "phoneticFamilyName" in NameKeyOf;
    assert "phoneticMiddleName" in NameKeyOf;
  }

  lemma BuiltOrganizationFields(d: Dict, c: CNContact, identifier: string)
    requires forall e :: e in OrganizationKeyOf ==> GroupText(d, "organization", e) == StringProperty(c, OrganizationKeyOf[e])
    ensures var b := DictToContactMutableCopy(d, identifier);
      b.organizationName == c.organizationName && b.jobTitle == c.jobTitle && b.departmentName == c.departmentName
  {
    assert "name" in OrganizationKeyOf && "jobTitle" in OrganizationKeyOf && "department" in OrganizationKeyOf;
  }

  /** The name strings a full fetch sends come back unchanged when the
      record is built into a contact. */
  lemma RoundTripNames(platform: Platform, f: Fetched, identifier: string)
    requires forall e :: e in NameKeyOf ==> NameKeyOf[e] in f.available
    ensures var c := f.contact;
      var b := DictToContactMutableCopy(RecordToDict(ContactToDict(platform, f)), identifier);
      && b.givenName == c.givenName && b.familyName == c.familyName && b.middleName == c.middleName
      && b.namePrefix == c.namePrefix && b.nameSuffix == c.nameSuffix && b.nickname == c.nickname
      && b.phoneticGivenName == c.phoneticGivenName && b.phoneticFamilyName == c.phoneticFamilyName
      && b.phoneticMiddleName == c.phoneticMiddleName
  {
    var d := RecordToDict(ContactToDict(platform, f));
    forall e | e in NameKeyOf
      ensures GroupText(d, "name", e) == StringProperty(f.contact, NameKeyOf[e])
    {
      RoundTripEntry(platform, f, "name", NameKeyOf, e);
    }
    BuiltNameFields(d, f.contact, identifier);
  }

  /** So do the organisation strings. */
  lemma RoundTripOrganization(platform: Platform, f: Fetched, identifier: string)
    requires forall e :: e in OrganizationKeyOf ==> OrganizationKeyOf[e] in f.available
    ensures var c := f.contact;
      var b := DictToContactMutableCopy(RecordToDict(ContactToDict(platform, f)), identifier);
      b.organizationName == c.organizationName && b.jobTitle == c.jobTitle && b.departmentName == c.departmentName
  {
    var d := RecordToDict(ContactToDict(platform, f));
    forall e | e in OrganizationKeyOf
      ensures GroupText(d, "organization", e) == StringProperty(f.contact, OrganizationKeyOf[e])
    {
      RoundTripEntry(platform, f, "organization", OrganizationKeyOf, e);
    }
    BuiltOrganizationFields(d, f.contact, identifier);
  }

  /** The builder turns a "phones" list whose every item has a string
      number into one entry per item. */
  lemma BuiltPhones(d: Dict, items: seq<Dict>, identifier: string)
    requires GetDictList(d, "phones") == Some(items)
    requires forall i :: 0 <= i < |items| ==> GetString(items[i], "number").Some?
    ensures var b := DictToContactMutableCopy(d, identifier);
      && |b.phoneNumbers| == |items|
      && forall i :: 0 <= i < |items| ==>
           b.phoneNumbers[i] == Labeled(Some(GetString(items[i], "label").GetOr(LabelMain)), GetString(items[i], "number").value)
  {
    LabeledItemsAll(items, "number", LabelMain);
  }

  lemma PhoneValueReads(p: PhoneDict)
    ensures GetString(PhoneValue(p).entries, "number") == Some(p.number)
    ensures GetString(PhoneValue(p).entries, "label") == Some(p.labelText)
  {
  }

  /** Phone numbers come back one per stored number, in order, with the
      same value; the label comes back as its localised text, so a
      system label does not survive the trip. */
  lemma RoundTripPhones(platform: Platform, f: Fetched, identifier: string)
    requires PhoneNumbers in f.available
    ensures var stored := f.contact.phoneNumbers;
      var b := DictToContactMutableCopy(RecordToDict(ContactToDict(platform, f)), identifier);
      && |b.phoneNumbers| == |stored|
      && forall i :: 0 <= i < |stored| ==>
           b.phoneNumbers[i] == Labeled(Some(LabelOf(platform, stored[i].labelText)), stored[i].value)
  {
    var r := ContactToDict(platform, f);
    var d := RecordToDict(r);
    var stored := f.contact.phoneNumbers;
    assert r.phones == Project(f, PhoneNumbers, stored, p => PhoneOf(platform, p));
    assert |r.phones| == |stored| && forall i :: 0 <= i < |stored| ==> r.phones[i] == PhoneOf(platform, stored[i]);
    RecordPhones(r);
    var items := GetDictList(d, "phones").value;
    forall i | 0 <= i < |items|
      ensures GetString(items[i], "number") == Some(stored[i].value)
      ensures GetString(items[i], "label") == Some(LabelOf(platform, stored[i].labelText))
    {
      PhoneValueReads(r.phones[i]);
    }
    BuiltPhones(d, items, identifier);
  }

  /** A birthday with a month and a day comes back as it was, year
      included when it had one. */
  lemma RoundTripBirthday(platform: Platform, f: Fetched, identifier: string)
    requires Birthday in f.available
    requires f.contact.birthday.Some? && f.contact.birthday.value.month.Some? && f.contact.birthday.value.day.Some?
    ensures DictToContactMutableCopy(RecordToDict(ContactToDict(platform, f)), identifier).birthday == f.contact.birthday
  {
    var r := ContactToDict(platform, f);
    var d := RecordToDict(r);
    RecordEvents(r);
    assert r.events == Events(platform, f);
    var b := f.contact.birthday.value;
    assert r.events[0] == BirthdayEvent(b);
    var e := GetDictList(d, "events").value[0];
    assert e == EventValue(BirthdayEvent(b)).entries;
    assert IsBirthdayEvent(e) && BirthdayOf(e) == b;
  }

  /** The note comes back exactly as sent: "" whenever the note was not
      fetched. */
  lemma RoundTripNote(platform: Platform, f: Fetched, identifier: string)
    ensures var b := DictToContactMutableCopy(RecordToDict(ContactToDict(platform, f)), identifier);
      b.note == (if Note in f.available then f.contact.note else "")
  {
    RecordNote(ContactToDict(platform, f));
  }
}
