/** The Darwin backend's operations on the address book: which keys each
    query fetches, listing, lookup and search with the optional sort by
    full name, and the writes (create, the partial-merge update, delete)
    with the bridge's own error type. */
module DarwinOperations {
  import opened Wrappers
  import opened Values
  import opened Sorting
  import ST = Store
  import opened DarwinContacts
  import opened DarwinConverters

  type ContactStore = ST.Store<CNContact>

  // ---------------------------------------------------------------------
  // Key sets
  // ---------------------------------------------------------------------

  function KeysOf(keys: seq<Key>): (r: seq<KeyDescriptor>)
    ensures forall k :: KeyOf(k) in r <==> k in keys
    ensures FullNameDescriptor !in r
  {
    var r := seq(|keys|, i requires 0 <= i < |keys| => KeyOf(keys[i]));
    assert forall k :: KeyOf(k) in r ==> k in keys by {
      forall k | KeyOf(k) in r
        ensures k in keys
      {
        var i :| 0 <= i < |r| && r[i] == KeyOf(k);
        assert keys[i] == k;
      }
    }
    assert forall k :: k in keys ==> KeyOf(k) in r by {
      forall k | k in keys
        ensures KeyOf(k) in r
      {
        var i :| 0 <= i < |keys| && keys[i] == k;
        assert r[i] == KeyOf(k);
      }
    }
    r
  }

  /** The property keys of a request with properties, the phonetic
      organisation name last where the OS has it. */
  function PropertySection(platform: Platform, withProperties: bool): (r: seq<KeyDescriptor>)
    ensures forall d :: d in r ==> withProperties && d.KeyOf?
    ensures forall d :: d in r ==> d.key in PropertyKeys || (d.key == PhoneticOrganizationName && platform.phoneticOrganizationKey)
    ensures forall k :: k in PropertyKeys ==> (KeyOf(k) in r <==> withProperties)
    ensures KeyOf(PhoneticOrganizationName) in r <==> withProperties && platform.phoneticOrganizationKey
  {
    PropertyKeysExclude();
    if withProperties then
      KeysOf(PropertyKeys) + (if platform.phoneticOrganizationKey then [KeyOf(PhoneticOrganizationName)] else [])
    else []
  }

  function ImageSection(withThumbnail: bool, withPhoto: bool): (r: seq<KeyDescriptor>)
    ensures forall d :: d in r <==> (withThumbnail && d == KeyOf(ThumbnailImageData)) || (withPhoto && d == KeyOf(ImageData))
  {
    (if withThumbnail then [KeyOf(ThumbnailImageData)] else []) + (if withPhoto then [KeyOf(ImageData)] else [])
  }

  /** The keys `getAllContacts` and `getContact` ask for: the full-name
      descriptor and the identifier always; the property keys, and the
      phonetic organisation name where the OS has it, with properties; the
      thumbnail and the image on request. */
  function FetchKeys(platform: Platform, withProperties: bool, withThumbnail: bool, withPhoto: bool)
    : (keys: seq<KeyDescriptor>)
    ensures |keys| >= 2 && keys[0] == FullNameDescriptor && keys[1] == KeyOf(Identifier)
    ensures forall k :: k in PropertyKeys ==> (KeyOf(k) in keys <==> withProperties)
    ensures KeyOf(PhoneticOrganizationName) in keys <==> withProperties && platform.phoneticOrganizationKey
    ensures KeyOf(ThumbnailImageData) in keys <==> withThumbnail
    ensures KeyOf(ImageData) in keys <==> withPhoto
    ensures KeyOf(Note) !in keys
  {
    PropertyKeysExclude();
    var properties := PropertySection(platform, withProperties);
    var images := ImageSection(withThumbnail, withPhoto);
    var keys := [FullNameDescriptor, KeyOf(Identifier)] + properties + images;
    assert forall d :: d in keys <==> d in [FullNameDescriptor, KeyOf(Identifier)] || d in properties || d in images;
    keys
  }

  /** The keys `searchContacts` asks for: no phonetic organisation name and
      no image keys, whatever the request. */
  function SearchKeys(withProperties: bool): (keys: seq<KeyDescriptor>)
    ensures |keys| >= 2 && keys[0] == FullNameDescriptor && keys[1] == KeyOf(Identifier)
    ensures forall k :: k in PropertyKeys ==> (KeyOf(k) in keys <==> withProperties)
    ensures KeyOf(PhoneticOrganizationName) !in keys
    ensures KeyOf(ThumbnailImageData) !in keys && KeyOf(ImageData) !in keys
    ensures KeyOf(Note) !in keys
  {
    PropertyKeysExclude();
    var properties := if withProperties then KeysOf(PropertyKeys) else [];
    assert forall d :: d in properties ==> d.KeyOf? && d.key in PropertyKeys;
    var keys := [FullNameDescriptor, KeyOf(Identifier)] + properties;
    assert forall d :: d in keys <==> d in [FullNameDescriptor, KeyOf(Identifier)] || d in properties;
    keys
  }

  /** The note key is in no request, so a contact's note is only ever
      readable when the full-name descriptor happens to cover it. */
  lemma NoteNeverRequested(platform: Platform, withProperties: bool, withThumbnail: bool, withPhoto: bool)
    ensures Note in Available(FetchKeys(platform, withProperties, withThumbnail, withPhoto), platform)
            <==> Note in platform.fullNameKeys
    ensures Note in Available(SearchKeys(withProperties), platform) <==> Note in platform.fullNameKeys
  {
  }

  // ---------------------------------------------------------------------
  // Reading
  // ---------------------------------------------------------------------

  /** The first enumerated contact with identifier `id`. */
  function FirstWithId(rows: seq<(string, CNContact)>, id: string): (r: Option<CNContact>)
    ensures r.None? <==> forall i :: 0 <= i < |rows| ==> rows[i].0 != id
    ensures r.Some? ==> exists i :: 0 <= i < |rows| && rows[i] == (id, r.value)
  {
    if |rows| == 0 then None
    else if rows[0].0 == id then Some(rows[0].1)
    else
      var r := FirstWithId(rows[1..], id);
      assert forall i :: 1 <= i < |rows| ==> rows[i] == rows[1..][i - 1];
      assert r.Some? ==> exists i :: 0 <= i < |rows| && rows[i] == (id, r.value) by {
        if r.Some? {
          var i :| 0 <= i < |rows[1..]| && rows[1..][i] == (id, r.value);
          assert rows[i + 1] == (id, r.value);
        }
      }
      r
  }

  /** `getContact`: the first contact the identifier predicate matches,
      fetched with the request's keys, or none. */
  function GetContact(st: ContactStore, platform: Platform, id: string, withProperties: bool, withThumbnail: bool,
                      withPhoto: bool): (r: Option<Fetched>)
    ensures r.Some? ==> ST.Lookup(st, id) == Some(r.value.contact)
    ensures r.Some? ==> r.value.available == Available(FetchKeys(platform, withProperties, withThumbnail, withPhoto), platform)
  {
    match FirstWithId(ST.Enumerate(st), id)
    case None => None
    case Some(c) => Some(Fetched(c, Available(FetchKeys(platform, withProperties, withThumbnail, withPhoto), platform)))
  }

  /** In a consistent store the lookup finds exactly the stored contacts. */
  lemma GetContactFindsStored(st: ContactStore, platform: Platform, id: string, withProperties: bool,
                              withThumbnail: bool, withPhoto: bool)
    requires ST.Valid(st)
    ensures GetContact(st, platform, id, withProperties, withThumbnail, withPhoto).Some? <==> id in st.byId
  {
    if id in st.byId {
      var rows := ST.Enumerate(st);
      var k :| 0 <= k < |st.order| && st.order[k] == id;
      assert rows[k].0 == id;
    }
  }

  /** The sort key: the formatted full name, "" when there is none. */
  function NameKey(platform: Platform): Fetched -> string {
    f => platform.fullName(f).GetOr("")
  }

  /** "Not after" for the comparator `localizedCaseInsensitiveCompare ==
      .orderedAscending`: `a` may precede `b` unless `b` is strictly
      before `a`. */
  function NameLe(platform: Platform): (string, string) -> bool {
    (a, b) => !platform.ascending(b, a)
  }

  function FetchAll(rows: seq<(string, CNContact)>, available: set<Key>): (r: seq<Fetched>)
    ensures |r| == |rows|
    ensures forall i :: 0 <= i < |rows| ==> r[i] == Fetched(rows[i].1, available)
  {
    seq(|rows|, i requires 0 <= i < |rows| => Fetched(rows[i].1, available))
  }

  /** `getAllContacts`: every contact, fetched with the request's keys, in
      store order or sorted by full name. */
  function GetAllContacts(st: ContactStore, platform: Platform, withProperties: bool, withThumbnail: bool,
                          withPhoto: bool, sorted: bool): (r: seq<Fetched>)
    ensures forall f :: f in r ==> f.available == Available(FetchKeys(platform, withProperties, withThumbnail, withPhoto), platform)
    ensures forall f :: f in r ==> f.contact in st.byId.Values
  {
    var rows := ST.Enumerate(st);
    var fetched := FetchAll(rows, Available(FetchKeys(platform, withProperties, withThumbnail, withPhoto), platform));
    assert forall f :: f in fetched ==> f.contact in st.byId.Values by {
      forall f | f in fetched
        ensures f.contact in st.byId.Values
      {
        var i :| 0 <= i < |fetched| && fetched[i] == f;
        assert ST.Lookup(st, rows[i].0) == Some(rows[i].1);
      }
    }
    if sorted then
      var r := SortBy(fetched, NameKey(platform), NameLe(platform));
      assert forall f :: f in r ==> f in fetched by {
        forall f | f in r
          ensures f in fetched
        {
          assert f in multiset(r);
        }
      }
      r
    else fetched
  }

  /** Every stored contact is listed, once per enumeration entry. */
  lemma GetAllListsEveryContact(st: ContactStore, platform: Platform, withProperties: bool, withThumbnail: bool,
                                withPhoto: bool, sorted: bool)
    requires ST.Valid(st)
    ensures var r := GetAllContacts(st, platform, withProperties, withThumbnail, withPhoto, sorted);
      && |r| == |st.order|
      && forall id :: id in st.byId ==> exists i :: 0 <= i < |r| && r[i].contact == st.byId[id]
  {
    var rows := ST.Enumerate(st);
    var available := Available(FetchKeys(platform, withProperties, withThumbnail, withPhoto), platform);
    var fetched := FetchAll(rows, available);
    var r := GetAllContacts(st, platform, withProperties, withThumbnail, withPhoto, sorted);
    assert multiset(r) == multiset(fetched);
    assert |r| == |fetched|;
    forall id | id in st.byId
      ensures exists i :: 0 <= i < |r| && r[i].contact == st.byId[id]
    {
      var k :| 0 <= k < |st.order| && st.order[k] == id;
      assert fetched[k] == Fetched(st.byId[id], available);
      assert fetched[k] in multiset(r);
      var i :| 0 <= i < |r| && r[i] == fetched[k];
    }
  }

  /** Without sorting, contacts come in the store's enumeration order. */
  lemma GetAllKeepsStoreOrder(st: ContactStore, platform: Platform, withProperties: bool, withThumbnail: bool,
                              withPhoto: bool)
    requires ST.Valid(st)
    ensures var r := GetAllContacts(st, platform, withProperties, withThumbnail, withPhoto, false);
      && |r| == |st.order|
      && forall i :: 0 <= i < |r| ==> r[i].contact == st.byId[st.order[i]]
  {
  }

  /** With sorting, no contact's full name sorts strictly before the one
      listed ahead of it, provided the comparison is a total preorder. */
  lemma GetAllSortedByName(st: ContactStore, platform: Platform, withProperties: bool, withThumbnail: bool,
                           withPhoto: bool)
    requires TotalPreorder(NameLe(platform))
    ensures var r := GetAllContacts(st, platform, withProperties, withThumbnail, withPhoto, true);
      forall i, j :: 0 <= i < j < |r| ==>
        !platform.ascending(platform.fullName(r[j]).GetOr(""), platform.fullName(r[i]).GetOr(""))
  {
    var r := GetAllContacts(st, platform, withProperties, withThumbnail, withPhoto, true);
    assert SortedBy(r, NameKey(platform), NameLe(platform));
    forall i, j | 0 <= i < j < |r|
      ensures !platform.ascending(platform.fullName(r[j]).GetOr(""), platform.fullName(r[i]).GetOr(""))
    {
      assert NameLe(platform)(NameKey(platform)(r[i]), NameKey(platform)(r[j]));
    }
  }

  /** The records a listing sends carry the request's image flags: an
      image is reported fetched only when it was asked for (or the name
      descriptor covers it) and the contact has one. */
  lemma GetAllFlags(st: ContactStore, platform: Platform, withProperties: bool, withThumbnail: bool,
                    withPhoto: bool, sorted: bool)
    requires ThumbnailImageData !in platform.fullNameKeys && ImageData !in platform.fullNameKeys
    ensures forall f :: f in GetAllContacts(st, platform, withProperties, withThumbnail, withPhoto, sorted) ==>
      && (ContactToDict(platform, f).thumbnailFetched <==> withThumbnail && f.contact.thumbnailImageData.Some?)
      && (ContactToDict(platform, f).photoFetched <==> withPhoto && f.contact.imageData.Some?)
  {
  }

  /** The contacts `predicateForContacts(matchingName:)` selects, in
      enumeration order. */
  function Matching(rows: seq<(string, CNContact)>, platform: Platform, query: string): (r: seq<(string, CNContact)>)
    ensures forall x :: x in r ==> x in rows && platform.matchesName(x.1, query)
    ensures forall x :: x in rows && platform.matchesName(x.1, query) ==> x in r
  {
    if |rows| == 0 then []
    else
      var rest := Matching(rows[1..], platform, query);
      assert forall x :: x in rows ==> x == rows[0] || x in rows[1..];
      if platform.matchesName(rows[0].1, query) then [rows[0]] + rest else rest
  }

  /** `searchContacts`: the contacts whose name matches, fetched with the
      search keys, optionally sorted by full name. */
  function SearchContacts(st: ContactStore, platform: Platform, query: string, withProperties: bool, sorted: bool)
    : (r: seq<Fetched>)
    ensures forall f :: f in r ==> platform.matchesName(f.contact, query)
    ensures forall f :: f in r ==> f.contact in st.byId.Values
    ensures forall f :: f in r ==> f.available == Available(SearchKeys(withProperties), platform)
  {
    var rows := Matching(ST.Enumerate(st), platform, query);
    var fetched := FetchAll(rows, Available(SearchKeys(withProperties), platform));
    assert forall f :: f in fetched ==> platform.matchesName(f.contact, query) && f.contact in st.byId.Values by {
      forall f | f in fetched
        ensures platform.matchesName(f.contact, query) && f.contact in st.byId.Values
      {
        var i :| 0 <= i < |fetched| && fetched[i] == f;
        assert rows[i] in rows;
        assert ST.Lookup(st, rows[i].0) == Some(rows[i].1);
      }
    }
    if sorted then
      var r := SortBy(fetched, NameKey(platform), NameLe(platform));
      assert forall f :: f in r ==> f in fetched by {
        forall f | f in r
          ensures f in fetched
        {
          assert f in multiset(r);
        }
      }
      r
    else fetched
  }

  /** With sorting, search results come in full-name order, provided the
      comparison is a total preorder. */
  lemma SearchSortedByName(st: ContactStore, platform: Platform, query: string, withProperties: bool)
    requires TotalPreorder(NameLe(platform))
    ensures var r := SearchContacts(st, platform, query, withProperties, true);
      forall i, j :: 0 <= i < j < |r| ==>
        !platform.ascending(platform.fullName(r[j]).GetOr(""), platform.fullName(r[i]).GetOr(""))
  {
    var r := SearchContacts(st, platform, query, withProperties, true);
    assert SortedBy(r, NameKey(platform), NameLe(platform));
    forall i, j | 0 <= i < j < |r|
      ensures !platform.ascending(platform.fullName(r[j]).GetOr(""), platform.fullName(r[i]).GetOr(""))
    {
      assert NameLe(platform)(NameKey(platform)(r[i]), NameKey(platform)(r[j]));
    }
  }

  /** Every stored contact whose name matches is found. */
  lemma SearchFindsEveryMatch(st: ContactStore, platform: Platform, query: string, withProperties: bool, sorted: bool)
    requires ST.Valid(st)
    ensures forall id :: id in st.byId && platform.matchesName(st.byId[id], query) ==>
      exists f :: f in SearchContacts(st, platform, query, withProperties, sorted) && f.contact == st.byId[id]
  {
    var rows := ST.Enumerate(st);
    var matching := Matching(rows, platform, query);
    var available := Available(SearchKeys(withProperties), platform);
    var fetched := FetchAll(matching, available);
    var r := SearchContacts(st, platform, query, withProperties, sorted);
    assert multiset(r) == multiset(fetched);
    forall id | id in st.byId && platform.matchesName(st.byId[id], query)
      ensures exists f :: f in r && f.contact == st.byId[id]
    {
      var k :| 0 <= k < |st.order| && st.order[k] == id;
      assert rows[k] == (id, st.byId[id]);
      assert rows[k] in matching;
      var m :| 0 <= m < |matching| && matching[m] == rows[k];
      assert fetched[m] in multiset(r);
    }
  }

  /** A search never reports an image, and never reads the phonetic
      organisation name, unless the name descriptor covers those keys. */
  lemma SearchNeverFetchesImages(st: ContactStore, platform: Platform, query: string, withProperties: bool,
                                 sorted: bool)
    requires ThumbnailImageData !in platform.fullNameKeys && ImageData !in platform.fullNameKeys
    requires PhoneticOrganizationName !in platform.fullNameKeys
    ensures forall f :: f in SearchContacts(st, platform, query, withProperties, sorted) ==>
      && !ContactToDict(platform, f).thumbnailFetched && !ContactToDict(platform, f).photoFetched
      && ContactToDict(platform, f).thumbnail.None? && ContactToDict(platform, f).photo.None?
      && PhoneticOrganizationName !in f.available
  {
  }

  // ---------------------------------------------------------------------
  // Errors
  // ---------------------------------------------------------------------

  /** `ContactsBridgeError`. */
  datatype BridgeError =
    | PermissionDenied(message: string)
    | ContactNotFound(message: string)
    | InvalidContactData(message: string)
    | UnknownError(message: string)

  function Prefix(e: BridgeError): string {
    match e
    case PermissionDenied(_) => "Permission denied: "
    case ContactNotFound(_) => "Contact not found: "
    case InvalidContactData(_) => "Invalid contact data: "
    case UnknownError(_) => "Unknown error: "
  }

  /** `localizedDescription`: the case's prefix, then the message. */
  function LocalizedDescription(e: BridgeError): (s: string)
    ensures |s| > |e.message| && s[|s| - |e.message|..] == e.message
  {
    Prefix(e) + e.message
  }

  /** Different errors read differently: the prefixes start with different
      letters, and within one case the message follows the same prefix. */
  lemma DescriptionIdentifiesError(a: BridgeError, b: BridgeError)
    requires LocalizedDescription(a) == LocalizedDescription(b)
    ensures a == b
  {
    var s := LocalizedDescription(a);
    assert s[0] == Prefix(a)[0] && s[0] == Prefix(b)[0];
    assert Prefix(a) == Prefix(b);
    assert a.message == s[|Prefix(a)|..] == b.message;
  }

  // ---------------------------------------------------------------------
  // Writing
  // ---------------------------------------------------------------------

  /** `if let v = data[key] as? String { field = v }`. */
  function SetString(current: string, data: Dict, key: string): string {
    GetString(data, key).GetOr(current)
  }

  /** A labelled list replaced when `listKey` holds a list of dictionaries,
      kept otherwise. */
  function SetLabeled(current: seq<Labeled<string>>, data: Dict, listKey: string, valueKey: string, fallback: string)
    : seq<Labeled<string>>
  {
    match GetDictList(data, listKey)
    case None => current
    case Some(items) => LabeledItems(items, valueKey, fallback)
  }

  /** Every property the flat merge does not write. */
  predicate SameUnmergedFields(a: CNContact, b: CNContact) {
    && a.identifier == b.identifier
    && a.phoneticGivenName == b.phoneticGivenName
    && a.phoneticFamilyName == b.phoneticFamilyName
    && a.phoneticMiddleName == b.phoneticMiddleName
    && a.phoneticOrganizationName == b.phoneticOrganizationName
    && a.postalAddresses == b.postalAddresses
    && a.urlAddresses == b.urlAddresses
    && a.socialProfiles == b.socialProfiles
    && a.instantMessageAddresses == b.instantMessageAddresses
    && a.birthday == b.birthday
    && a.dates == b.dates
    && a.imageData == b.imageData
    && a.thumbnailImageData == b.thumbnailImageData
  }

  /** The partial-merge law: each flat string the payload holds as a
      string replaces the property, and one it lacks (or holds with another
      type) leaves the property as it was; the phone and email lists are
      replaced exactly when the payload holds a list of dictionaries. */
  predicate PartialMerge(m: CNContact, c: CNContact, data: Dict) {
    && m.givenName == GetString(data, "givenName").GetOr(c.givenName)
    && m.familyName == GetString(data, "familyName").GetOr(c.familyName)
    && m.middleName == GetString(data, "middleName").GetOr(c.middleName)
    && m.namePrefix == GetString(data, "namePrefix").GetOr(c.namePrefix)
    && m.nameSuffix == GetString(data, "nameSuffix").GetOr(c.nameSuffix)
    && m.nickname == GetString(data, "nickname").GetOr(c.nickname)
    && m.organizationName == GetString(data, "organizationName").GetOr(c.organizationName)
    && m.jobTitle == GetString(data, "jobTitle").GetOr(c.jobTitle)
    && m.departmentName == GetString(data, "departmentName").GetOr(c.departmentName)
    && m.note == GetString(data, "note").GetOr(c.note)
    && (GetDictList(data, "phoneNumbers").None? ==> m.phoneNumbers == c.phoneNumbers)
    && (GetDictList(data, "phoneNumbers").Some? ==>
          m.phoneNumbers == LabeledItems(GetDictList(data, "phoneNumbers").value, "number", LabelMain))
    && (GetDictList(data, "emailAddresses").None? ==> m.emailAddresses == c.emailAddresses)
    && (GetDictList(data, "emailAddresses").Some? ==>
          m.emailAddresses == LabeledItems(GetDictList(data, "emailAddresses").value, "email", LabelHome))
  }

  /** The fields create and update both copy from the flat payload. */
  function MergeFlat(c: CNContact, data: Dict): (m: CNContact)
    ensures SameUnmergedFields(m, c)
    ensures PartialMerge(m, c, data)
  {
    c.(givenName := SetString(c.givenName, data, "givenName"),
       familyName := SetString(c.familyName, data, "familyName"),
       middleName := SetString(c.middleName, data, "middleName"),
       namePrefix := SetString(c.namePrefix, data, "namePrefix"),
       nameSuffix := SetString(c.nameSuffix, data, "nameSuffix"),
       nickname := SetString(c.nickname, data, "nickname"),
       organizationName := SetString(c.organizationName, data, "organizationName"),
       jobTitle := SetString(c.jobTitle, data, "jobTitle"),
       departmentName := SetString(c.departmentName, data, "departmentName"),
       phoneNumbers := SetLabeled(c.phoneNumbers, data, "phoneNumbers", "number", LabelMain),
       emailAddresses := SetLabeled(c.emailAddresses, data, "emailAddresses", "email", LabelHome),
       note := SetString(c.note, data, "note"))
  }

  /** The two laws determine the merge: a contact that keeps every
      unmerged field and merges by the law is the merged contact. */
  lemma PartialMergeDetermined(m: CNContact, c: CNContact, data: Dict)
    requires SameUnmergedFields(m, c) && PartialMerge(m, c, data)
    ensures m == MergeFlat(c, data)
  {
  }

  /** Merging the same payload twice is merging it once. */
  lemma MergeIdempotent(c: CNContact, data: Dict)
    ensures MergeFlat(MergeFlat(c, data), data) == MergeFlat(c, data)
  {
  }

  /** The birthday `createContact` reads: a "birthday" dictionary whose
      year, month and day are all integers, or nothing. */
  function CreateBirthday(data: Dict): (b: Option<DateComponents>)
    ensures b.Some? <==> GetDict(data, "birthday").Some?
                         && GetInt(GetDict(data, "birthday").value, "year").Some?
                         && GetInt(GetDict(data, "birthday").value, "month").Some?
                         && GetInt(GetDict(data, "birthday").value, "day").Some?
    ensures b.Some? ==> var d := GetDict(data, "birthday").value;
      b.value == DateComponents(GetInt(d, "year"), GetInt(d, "month"), GetInt(d, "day"))
  {
    match GetDict(data, "birthday")
    case None => None
    case Some(d) =>
      if GetInt(d, "year").Some? && GetInt(d, "month").Some? && GetInt(d, "day").Some? then
        Some(DateComponents(GetInt(d, "year"), GetInt(d, "month"), GetInt(d, "day")))
      else None
  }

  /** The contact `createContact` builds from its flat payload before
      saving it. */
  function NewFromFlat(data: Dict, identifier: string): CNContact {
    MergeFlat(NewContact(identifier), data).(
      postalAddresses := BuiltAddresses(data, "postalAddresses"),
      urlAddresses := BuiltLabeled(data, "urlAddresses", "url", LabelHomePage),
      birthday := CreateBirthday(data))
  }

  /** Saves `c` under `id` and returns it as
      `fetchContact(id:withProperties: true) ?? mutableContact` does. */
  function SaveAndFetch(st: ContactStore, platform: Platform, id: string, c: CNContact): (r: (ContactStore, Fetched))
    ensures r.0 == ST.Insert(st, id, c)
    ensures r.1.contact == c
  {
    var st' := ST.Insert(st, id, c);
    match GetContact(st', platform, id, true, false, false)
    case Some(f) => (st', f)
    case None => (st', Fetched(c, AllKeys))
  }

  /** `createContact`: builds the contact from the flat payload, adds it
      under the identifier the framework assigns, and returns it. */
  function CreateContact(st: ContactStore, platform: Platform, data: Dict, newId: string)
    : (r: (ContactStore, Fetched))
    requires newId !in st.byId
    ensures ST.Lookup(r.0, newId) == Some(r.1.contact)
    ensures r.1.contact.identifier == newId
    ensures forall other :: other != newId ==> ST.Lookup(r.0, other) == ST.Lookup(st, other)
    ensures ST.Valid(st) ==> ST.Valid(r.0)
  {
    SaveAndFetch(st, platform, newId, NewFromFlat(data, newId))
  }

  /** Create copies each of the ten flat name, organisation and note
      strings present as a string and leaves the rest "", as it does the
      properties the flat payload never sets. */
  lemma CreateCopiesFlatStrings(st: ContactStore, platform: Platform, data: Dict, newId: string)
    requires newId !in st.byId
    ensures var c := CreateContact(st, platform, data, newId).1.contact;
      && c.givenName == GetString(data, "givenName").GetOr("")
      && c.familyName == GetString(data, "familyName").GetOr("")
      && c.middleName == GetString(data, "middleName").GetOr("")
      && c.namePrefix == GetString(data, "namePrefix").GetOr("")
      && c.nameSuffix == GetString(data, "nameSuffix").GetOr("")
      && c.nickname == GetString(data, "nickname").GetOr("")
      && c.organizationName == GetString(data, "organizationName").GetOr("")
      && c.jobTitle == GetString(data, "jobTitle").GetOr("")
      && c.departmentName == GetString(data, "departmentName").GetOr("")
      && c.note == GetString(data, "note").GetOr("")
      && c.phoneticGivenName == "" && c.socialProfiles == [] && c.dates == [] && c.imageData.None?
  {
  }

  /** Create sets a birthday exactly when year, month and day are all
      integers, and then sets all three. */
  lemma CreateBirthdayNeedsEveryPart(st: ContactStore, platform: Platform, data: Dict, newId: string)
    requires newId !in st.byId
    ensures var c := CreateContact(st, platform, data, newId).1.contact;
      var b := GetDict(data, "birthday");
      && (c.birthday.Some? <==> b.Some? && GetInt(b.value, "year").Some? && GetInt(b.value, "month").Some?
                                && GetInt(b.value, "day").Some?)
      && (c.birthday.Some? ==> c.birthday.value.year.Some? && c.birthday.value.month.Some? && c.birthday.value.day.Some?)
  {
  }

  /** Create keeps every postal address item, missing fields as "". */
  lemma CreateKeepsEveryAddress(st: ContactStore, platform: Platform, data: Dict, newId: string)
    requires newId !in st.byId
    requires GetDictList(data, "postalAddresses").Some?
    ensures var c := CreateContact(st, platform, data, newId).1.contact;
      var items := GetDictList(data, "postalAddresses").value;
      && |c.postalAddresses| == |items|
      && forall i :: 0 <= i < |items| ==>
           && c.postalAddresses[i].value.street == GetString(items[i], "street").GetOr("")
           && c.postalAddresses[i].value.postalCode == GetString(items[i], "postalCode").GetOr("")
           && c.postalAddresses[i].labelText == Some(GetString(items[i], "label").GetOr(LabelHome))
  {
  }

  /** Create's phones: each comes from an item with a string number, and
      every such item gives one; without a "phoneNumbers" list of
      dictionaries there are none. */
  lemma CreatePhones(st: ContactStore, platform: Platform, data: Dict, newId: string)
    requires newId !in st.byId
    ensures var c := CreateContact(st, platform, data, newId).1.contact;
      && (GetDictList(data, "phoneNumbers").None? ==> c.phoneNumbers == [])
      && (GetDictList(data, "phoneNumbers").Some? ==>
            var items := GetDictList(data, "phoneNumbers").value;
            && (forall k :: 0 <= k < |c.phoneNumbers| ==>
                  exists i :: 0 <= i < |items| && LabeledString(items[i], "number", LabelMain) == Some(c.phoneNumbers[k]))
            && (forall i :: 0 <= i < |items| && GetString(items[i], "number").Some? ==>
                  Labeled(Some(GetString(items[i], "label").GetOr(LabelMain)), GetString(items[i], "number").value)
                    in c.phoneNumbers))
  {
  }

  /** The record shape the other converters and the Android backend use:
      a "name" dictionary and a "phones" list. */
  const AnnRecord: Dict := map[
    "name" := Dict(map["givenName" := Str("Ann")]),
    "phones" := List([Dict(map["number" := Str("555-1234"), "label" := Str("mobile")])])]

  /** As written, create reads only flat keys, so a record-shaped payload
      creates a contact with no given name and no phone. */
  lemma CreateIgnoresNestedPayload(st: ContactStore, platform: Platform, newId: string)
    requires newId !in st.byId
    ensures CreateContact(st, platform, AnnRecord, newId).1.contact.givenName == ""
    ensures CreateContact(st, platform, AnnRecord, newId).1.contact.phoneNumbers == []
  {
    assert "givenName" !in AnnRecord && "phoneNumbers" !in AnnRecord;
  }

  /** Create as the record shape requires it: the payload is read by
      `dictToContactMutableCopy`, the converter built for that shape. */
  function CreateContactFromRecord(st: ContactStore, platform: Platform, data: Dict, newId: string)
    : (r: (ContactStore, Fetched))
    requires newId !in st.byId
    ensures ST.Lookup(r.0, newId) == Some(r.1.contact)
    ensures r.1.contact.identifier == newId
    ensures forall other :: other != newId ==> ST.Lookup(r.0, other) == ST.Lookup(st, other)
    ensures ST.Valid(st) ==> ST.Valid(r.0)
  {
    SaveAndFetch(st, platform, newId, DictToContactMutableCopy(data, newId))
  }

  lemma AnnBuilt(newId: string)
    ensures DictToContactMutableCopy(AnnRecord, newId).givenName == "Ann"
    ensures DictToContactMutableCopy(AnnRecord, newId).phoneNumbers == [Labeled(Some("mobile"), "555-1234")]
  {
    assert GetDict(AnnRecord, "name") == Some(map["givenName" := Str("Ann")]);
    assert GroupText(AnnRecord, "name", "givenName") == "Ann";
    var item := map["number" := Str("555-1234"), "label" := Str("mobile")];
    var items := GetDictList(AnnRecord, "phones");
    assert AnnRecord["phones"] == List([Dict(item)]);
    assert items.Some? && |items.value| == 1 && items.value[0] == item;
    assert items.value == [item];
    assert LabeledString(item, "number", LabelMain) == Some(Labeled(Some("mobile"), "555-1234"));
    LabeledItemsAll([item], "number", LabelMain);
  }

  /** The record-shaped payload now creates the contact it describes. */
  lemma CreateFromRecordReadsAnn(st: ContactStore, platform: Platform, newId: string)
    requires newId !in st.byId
    ensures var c := CreateContactFromRecord(st, platform, AnnRecord, newId).1.contact;
      && c.givenName == "Ann"
      && c.phoneNumbers == [Labeled(Some("mobile"), "555-1234")]
  {
    AnnBuilt(newId);
  }

  /** A record read from the store and created again keeps its name and
      its phone numbers; phone labels come back as their localised text. */
  lemma CreateFromRecordRoundTrip(st: ContactStore, platform: Platform, f: Fetched, newId: string)
    requires newId !in st.byId
    requires forall e :: e in NameKeyOf ==> NameKeyOf[e] in f.available
    requires PhoneNumbers in f.available
    ensures var c := CreateContactFromRecord(st, platform, RecordToDict(ContactToDict(platform, f)), newId).1.contact;
      && c.givenName == f.contact.givenName && c.familyName == f.contact.familyName
      && |c.phoneNumbers| == |f.contact.phoneNumbers|
      && forall i :: 0 <= i < |c.phoneNumbers| ==> c.phoneNumbers[i].value == f.contact.phoneNumbers[i].value
  {
    RoundTripNames(platform, f, newId);
    RoundTripPhones(platform, f, newId);
  }

  /** `updateContact`: the identifier must be a string and must resolve;
      then the flat payload is merged into the stored contact, which is
      saved and returned. */
  function UpdateContact(st: ContactStore, platform: Platform, data: Dict)
    : (r: Result<(ContactStore, Fetched), BridgeError>)
    ensures r.Failure? <==> GetString(data, "id").None?
                            || GetContact(st, platform, GetString(data, "id").value, true, false, false).None?
    ensures GetString(data, "id").None? ==> r == Failure(InvalidContactData("Contact ID is required for update"))
    ensures GetString(data, "id").Some? && GetContact(st, platform, GetString(data, "id").value, true, false, false).None?
            ==> r == Failure(ContactNotFound("Contact not found with ID: " + GetString(data, "id").value))
    ensures r.Success? ==> var id := GetString(data, "id").value;
      && ST.Lookup(st, id).Some?
      && ST.Lookup(r.value.0, id) == Some(r.value.1.contact)
      && SameUnmergedFields(r.value.1.contact, ST.Lookup(st, id).value)
      && PartialMerge(r.value.1.contact, ST.Lookup(st, id).value, data)
      && forall other :: other != id ==> ST.Lookup(r.value.0, other) == ST.Lookup(st, other)
    ensures r.Success? && ST.Valid(st) ==> ST.Valid(r.value.0)
  {
    match GetString(data, "id")
    case None => Failure(InvalidContactData("Contact ID is required for update"))
    case Some(id) =>
      match GetContact(st, platform, id, true, false, false)
      case None => Failure(ContactNotFound("Contact not found with ID: " + id))
      case Some(existing) =>
        Success(SaveAndFetch(st, platform, id, MergeFlat(existing.contact, data)))
  }

  /** Sending the same update twice stores what sending it once stored. */
  lemma UpdateTwiceIsUpdateOnce(st: ContactStore, platform: Platform, data: Dict)
    requires ST.Valid(st)
    requires UpdateContact(st, platform, data).Success?
    ensures var once := UpdateContact(st, platform, data).value;
      var twice := UpdateContact(once.0, platform, data);
      && twice.Success?
      && twice.value.1.contact == once.1.contact
      && forall id :: ST.Lookup(twice.value.0, id) == ST.Lookup(once.0, id)
  {
    var id := GetString(data, "id").value;
    var once := UpdateContact(st, platform, data).value;
    var stored := ST.Lookup(st, id).value;
    assert once.1.contact == MergeFlat(stored, data) by {
      PartialMergeDetermined(once.1.contact, stored, data);
    }
    GetContactFindsStored(once.0, platform, id, true, false, false);
    assert ST.Lookup(once.0, id) == Some(once.1.contact);
    MergeIdempotent(stored, data);
  }

  /** A payload holding only an identifier and a note merges as a note
      change. */
  lemma MergeNoteOnly(c: CNContact, id: string, note: string)
    ensures MergeFlat(c, map["id" := Str(id), "note" := Str(note)]) == c.(note := note)
  {
    var data := map["id" := Str(id), "note" := Str(note)];
    assert GetString(data, "givenName").None?;
    assert GetString(data, "familyName").None?;
    assert GetString(data, "middleName").None?;
    assert GetString(data, "namePrefix").None?;
    assert GetString(data, "nameSuffix").None?;
    assert GetString(data, "nickname").None?;
    assert GetString(data, "organizationName").None?;
    assert GetString(data, "jobTitle").None?;
    assert GetString(data, "departmentName").None?;
    assert GetString(data, "note") == Some(note);
    assert GetDictList(data, "phoneNumbers").None? && GetDictList(data, "emailAddresses").None?;
  }

  /** Updating a stored contact with only a note changes the note and
      nothing else. */
  lemma UpdateNoteOnly(st: ContactStore, platform: Platform, id: string, note: string)
    requires ST.Valid(st)
    requires id in st.byId
    ensures var r := UpdateContact(st, platform, map["id" := Str(id), "note" := Str(note)]);
      && r.Success?
      && r.value.1.contact == st.byId[id].(note := note)
      && ST.Lookup(r.value.0, id) == Some(st.byId[id].(note := note))
  {
    var data := map["id" := Str(id), "note" := Str(note)];
    GetContactFindsStored(st, platform, id, true, false, false);
    assert GetString(data, "id") == Some(id);
    var existing := GetContact(st, platform, id, true, false, false).value;
    assert existing.contact == st.byId[id];
    MergeNoteOnly(st.byId[id], id, note);
  }

  /** `deleteContact`: not-found when the identifier does not resolve,
      otherwise the contact is removed. */
  function DeleteContact(st: ContactStore, platform: Platform, id: string): (r: Result<ContactStore, BridgeError>)
    ensures r.Failure? <==> GetContact(st, platform, id, true, false, false).None?
    ensures r.Failure? ==> r.error == ContactNotFound("Contact not found with ID: " + id)
    ensures r.Success? ==> ST.Lookup(r.value, id).None?
                           && forall other :: other != id ==> ST.Lookup(r.value, other) == ST.Lookup(st, other)
    ensures r.Success? && ST.Valid(st) ==> ST.Valid(r.value)
  {
    match GetContact(st, platform, id, true, false, false)
    case None => Failure(ContactNotFound("Contact not found with ID: " + id))
    case Some(_) => Success(ST.Remove(st, id))
  }

  /** After a delete the contact is gone, and deleting it again fails
      with not-found, unlike the Android backend's silent second delete. */
  lemma DeleteTwiceFails(st: ContactStore, platform: Platform, id: string)
    requires DeleteContact(st, platform, id).Success?
    ensures var st' := DeleteContact(st, platform, id).value;
      && GetContact(st', platform, id, true, false, false).None?
      && DeleteContact(st', platform, id) == Failure(ContactNotFound("Contact not found with ID: " + id))
  {
  }

  /** A delete succeeds exactly for stored contacts of a consistent
      store. */
  lemma DeleteFindsStored(st: ContactStore, platform: Platform, id: string)
    requires ST.Valid(st)
    ensures DeleteContact(st, platform, id).Success? <==> id in st.byId
  {
    GetContactFindsStored(st, platform, id, true, false, false);
  }
}
