/** The Darwin backend's view of the address book: CNContact values, the
    keys a fetch asks for, and the few framework services the bridge calls
    but whose behaviour belongs to the platform (name formatting, label
    localisation, the decimal-digit character set, name matching and the
    locale's case-insensitive comparison). */
module DarwinContacts {
  import opened Wrappers
  import opened Values

  /** The CNContact property keys the bridge names. */
  datatype Key =
    | GivenName | FamilyName | MiddleName | NamePrefix | NameSuffix | Nickname
    | PhoneticGivenName | PhoneticFamilyName | PhoneticMiddleName
    | OrganizationName | JobTitle | DepartmentName | PhoneticOrganizationName
    | PhoneNumbers | EmailAddresses | PostalAddresses | UrlAddresses
    | SocialProfiles | InstantMessageAddresses | Birthday | Dates | Note
    | ThumbnailImageData | ImageData | Identifier

  /** What a fetch request lists: a single key, or the descriptor
      `CNContactFormatter.descriptorForRequiredKeys(for: .fullName)`. */
  datatype KeyDescriptor = KeyOf(key: Key) | FullNameDescriptor

  /** `CNLabeledValue`: an optional label and a value. */
  datatype Labeled<T> = Labeled(labelText: Option<string>, value: T)

  datatype PostalAddress = PostalAddress(street: string, city: string, state: string, postalCode: string,
                                         country: string, isoCountryCode: string)

  datatype SocialProfile = SocialProfile(service: string, username: string, userIdentifier: string, urlString: string)

  datatype InstantMessage = InstantMessage(service: string, username: string)

  /** Swift `DateComponents` as a birthday: every component optional. */
  datatype DateComponents = DateComponents(year: Option<int>, month: Option<int>, day: Option<int>)

  /** `NSDateComponents` as an entry of `dates`: every component is an
      integer, `NSDateComponentUndefined` when it is not set. */
  datatype DateValue = DateValue(year: int, month: int, day: int)

  /** `NSDateComponentUndefined`, which is `NSIntegerMax` on 64-bit
      platforms. */
  const Undefined: int := 0x7FFF_FFFF_FFFF_FFFF

  datatype CNContact = CNContact(
    identifier: string,
    givenName: string,
    familyName: string,
    middleName: string,
    namePrefix: string,
    nameSuffix: string,
    nickname: string,
    phoneticGivenName: string,
    phoneticFamilyName: string,
    phoneticMiddleName: string,
    organizationName: string,
    jobTitle: string,
    departmentName: string,
    phoneticOrganizationName: string,
    phoneNumbers: seq<Labeled<string>>,
    emailAddresses: seq<Labeled<string>>,
    postalAddresses: seq<Labeled<PostalAddress>>,
    urlAddresses: seq<Labeled<string>>,
    socialProfiles: seq<Labeled<SocialProfile>>,
    instantMessageAddresses: seq<Labeled<InstantMessage>>,
    birthday: Option<DateComponents>,
    dates: seq<Labeled<DateValue>>,
    note: string,
    imageData: Option<Bytes>,
    thumbnailImageData: Option<Bytes>)

  /** `CNMutableContact()`: every string empty, every list empty, no
      birthday, no image; the framework picks the identifier. */
  function NewContact(identifier: string): (c: CNContact)
    ensures c.identifier == identifier
    ensures c.givenName == "" && c.familyName == "" && c.note == ""
    ensures c.phoneNumbers == [] && c.emailAddresses == [] && c.postalAddresses == [] && c.urlAddresses == []
    ensures c.birthday.None? && c.imageData.None? && c.thumbnailImageData.None?
  {
    CNContact(identifier, "", "", "", "", "", "", "", "", "", "", "", "", "", [], [], [], [], [], [], None, [], "",
              None, None)
  }

  /** A contact as a fetch returns it: the stored values together with the
      keys that were fetched; `isKeyAvailable` asks the second part. */
  datatype Fetched = Fetched(contact: CNContact, available: set<Key>)

  /** The framework services the bridge relies on:
      - `fullNameKeys`: the keys the full-name descriptor stands for;
      - `fullName`: `CNContactFormatter.string(from:style: .fullName)`;
      - `localizedLabel`: `CNLabeledValue.localizedString(forLabel:)`;
      - `isDecimalDigit`: membership in `CharacterSet.decimalDigits`;
      - `matchesName`: `CNContact.predicateForContacts(matchingName:)`;
      - `ascending`: `localizedCaseInsensitiveCompare(_:_:) == .orderedAscending`;
      - `phoneticOrganizationKey`: whether the running OS has
        `CNContactPhoneticOrganizationNameKey` (iOS 10, macOS 10.12). */
  datatype Platform = Platform(
    fullNameKeys: set<Key>,
    fullName: Fetched -> Option<string>,
    localizedLabel: string -> string,
    isDecimalDigit: char -> bool,
    matchesName: (CNContact, string) -> bool,
    ascending: (string, string) -> bool,
    phoneticOrganizationKey: bool)

  /** The property keys a fetch with properties lists, in the order the
      fetch lists them. */
  const PropertyKeys: seq<Key> := [
    GivenName, FamilyName, MiddleName, NamePrefix, NameSuffix, Nickname,
    PhoneticGivenName, PhoneticFamilyName, PhoneticMiddleName,
    PhoneNumbers, EmailAddresses, PostalAddresses,
    OrganizationName, JobTitle, DepartmentName,
    UrlAddresses, SocialProfiles, InstantMessageAddresses, Birthday, Dates]

  /** Every key: what a contact built in memory, rather than fetched,
      answers for. */
  const AllKeys: set<Key> := {
    GivenName, FamilyName, MiddleName, NamePrefix, NameSuffix, Nickname,
    PhoneticGivenName, PhoneticFamilyName, PhoneticMiddleName,
    OrganizationName, JobTitle, DepartmentName, PhoneticOrganizationName,
    PhoneNumbers, EmailAddresses, PostalAddresses, UrlAddresses,
    SocialProfiles, InstantMessageAddresses, Birthday, Dates, Note,
    ThumbnailImageData, ImageData, Identifier}

  /** The property keys leave out the identifier, the note, the phonetic
      organisation name and the two image keys. */
  lemma PropertyKeysExclude()
    ensures Identifier !in PropertyKeys && Note !in PropertyKeys
    ensures PhoneticOrganizationName !in PropertyKeys
    ensures ThumbnailImageData !in PropertyKeys && ImageData !in PropertyKeys
  {
  }

  /** The keys a request makes available. */
  function Available(keys: seq<KeyDescriptor>, platform: Platform): (available: set<Key>)
    ensures forall k :: k in available <==>
              KeyOf(k) in keys || (FullNameDescriptor in keys && k in platform.fullNameKeys)
  {
    (set d | d in keys && d.KeyOf? :: d.key) + (if FullNameDescriptor in keys then platform.fullNameKeys else {})
  }

  /** `CNLabelPhoneNumberMain`, `CNLabelHome`, `CNLabelURLAddressHomePage`. */
  const LabelMain: string := "_$!<Main>!$_"
  const LabelHome: string := "_$!<Home>!$_"
  const LabelHomePage: string := "_$!<HomePage>!$_"
}
