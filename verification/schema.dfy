/** The neutral record entries both backends produce: the shape of the
    maps they hand back over the channel, one datatype per kind of entry.
    `labelText` is the map's "label" entry (`label` is a Dafny keyword) and
    `rawType` its Android integer "type" code (Darwin has none). */
module Schema {
  import opened Wrappers

  /** The structured name; a component is None when the backend did not
      put its key into the name map. */
  datatype NameFields = NameFields(
    givenName: Option<string>,
    familyName: Option<string>,
    middleName: Option<string>,
    namePrefix: Option<string>,
    nameSuffix: Option<string>,
    nickname: Option<string>,
    phoneticGivenName: Option<string>,
    phoneticFamilyName: Option<string>,
    phoneticMiddleName: Option<string>)

  const NoName: NameFields := NameFields(None, None, None, None, None, None, None, None, None)

  datatype PhoneEntry = PhoneEntry(number: string, normalizedNumber: string, labelText: string, rawType: Option<int>)

  datatype EmailEntry = EmailEntry(email: string, labelText: string, rawType: Option<int>)

  datatype AddressEntry = AddressEntry(
    street: string,
    city: string,
    state: string,
    postalCode: string,
    country: string,
    labelText: string,
    rawType: Option<int>,
    isoCountryCode: Option<string>)

  datatype WebsiteEntry = WebsiteEntry(url: string, labelText: string, rawType: Option<int>)

  /** A dated event; a date part is None when the backend left it out or
      could not read it. */
  datatype EventEntry = EventEntry(
    labelText: string,
    rawType: Option<int>,
    year: Option<int>,
    month: Option<int>,
    day: Option<int>)
}
