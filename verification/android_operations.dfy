/** The Android backend's operations over the contacts provider: listing,
    lookup by id and search over the Contacts table; the insert batch
    `createContact` stages; the `updateContact` stub; and `deleteContact`.
    The provider is a store of aggregated contacts keyed by their decimal
    `_ID`, plus the raw-contact to contact mapping; a missing
    ContentResolver is `None`. */
module AndroidOperations {
  import opened Wrappers
  import opened Text
  import opened Values
  import opened AndroidLabels
  import opened AndroidProjection
  import opened SqlLike
  import opened Sorting
  import ST = Store

  datatype Provider = Provider(contacts: ST.Store<NativeContact>, rawContacts: map<string, string>)

  /** A cursor row of the Contacts table: `_ID` and the contact's data. */
  type Row = (string, NativeContact)

  /** The sort key of `ORDER BY DISPLAY_NAME_PRIMARY ASC`: the column as
      stored, NULL included. */
  function RowKey(row: Row): Option<string> {
    row.1.displayName
  }

  function RecordName(r: ContactRecord): string {
    r.displayName
  }

  /** SQLite's ascending order on a nullable text column: NULL comes before
      every text value, and text values compare under the collation `le`. */
  predicate NullsFirst(le: (string, string) -> bool, a: Option<string>, b: Option<string>) {
    a.None? || (b.Some? && le(a.value, b.value))
  }

  function NameOrder(le: (string, string) -> bool): (Option<string>, Option<string>) -> bool {
    (a, b) => NullsFirst(le, a, b)
  }

  /** Putting NULL first keeps a total preorder a total preorder. */
  lemma NameOrderIsTotalPreorder(le: (string, string) -> bool)
    requires TotalPreorder(le)
    ensures TotalPreorder(NameOrder(le))
  {
    var ord := NameOrder(le);
    forall a, b
      ensures ord(a, b) || ord(b, a)
    {
      if a.Some? && b.Some? {
        assert le(a.value, b.value) || le(b.value, a.value);
      }
    }
    forall a, b, c | ord(a, b) && ord(b, c)
      ensures ord(a, c)
    {
      if a.Some? {
        assert le(a.value, b.value) && le(b.value, c.value);
      }
    }
  }

  /** The cursor order: provider order, or ascending display name with
      NULL names first and the others under the provider's collation `le`. */
  function Ordered(rows: seq<Row>, sorted: bool, le: (string, string) -> bool): (r: seq<Row>)
    ensures multiset(r) == multiset(rows)
    ensures !sorted ==> r == rows
    ensures sorted && TotalPreorder(le) ==>
      && (forall i, j :: 0 <= i < j < |r| && r[j].1.displayName.None? ==> r[i].1.displayName.None?)
      && (forall i, j :: 0 <= i < j < |r| && r[i].1.displayName.Some? ==>
            r[j].1.displayName.Some? && le(r[i].1.displayName.value, r[j].1.displayName.value))
  {
    if sorted then
      var r := SortBy(rows, RowKey, NameOrder(le));
      assert TotalPreorder(le) ==> SortedBy(r, RowKey, NameOrder(le)) by {
        if TotalPreorder(le) {
          NameOrderIsTotalPreorder(le);
        }
      }
      assert TotalPreorder(le) ==> forall i, j :: 0 <= i < j < |r| ==> NullsFirst(le, r[i].1.displayName, r[j].1.displayName) by {
        if TotalPreorder(le) {
          forall i, j | 0 <= i < j < |r|
            ensures NullsFirst(le, r[i].1.displayName, r[j].1.displayName)
          {
            assert NameOrder(le)(RowKey(r[i]), RowKey(r[j]));
          }
        }
      }
      r
    else rows
  }

  function ProjectRows(rows: seq<Row>, withProperties: bool, withThumbnail: bool, withPhoto: bool)
    : (records: seq<ContactRecord>)
    ensures |records| == |rows|
    ensures forall k :: 0 <= k < |rows| ==>
              records[k] == ProjectContact(rows[k].0, rows[k].1, withProperties, withThumbnail, withPhoto)
  {
    seq(|rows|, k requires 0 <= k < |rows| => ProjectContact(rows[k].0, rows[k].1, withProperties, withThumbnail, withPhoto))
  }

  /** Every record of a rearrangement of the provider's rows is the
      projection of the contact stored under its id. */
  lemma RecordsComeFromStore(st: ST.Store<NativeContact>, rows: seq<Row>, withProperties: bool,
                             withThumbnail: bool, withPhoto: bool)
    requires forall k :: 0 <= k < |rows| ==> rows[k] in ST.Enumerate(st)
    ensures var records := ProjectRows(rows, withProperties, withThumbnail, withPhoto);
      forall k :: 0 <= k < |records| ==>
        && records[k].id in st.byId
        && records[k] == ProjectContact(records[k].id, st.byId[records[k].id], withProperties, withThumbnail, withPhoto)
    ensures forall k :: 0 <= k < |rows| ==> rows[k].0 in st.byId && st.byId[rows[k].0] == rows[k].1
  {
    var all := ST.Enumerate(st);
    forall k | 0 <= k < |rows|
      ensures rows[k].0 in st.byId && st.byId[rows[k].0] == rows[k].1
    {
      var i :| 0 <= i < |all| && all[i] == rows[k];
      assert ST.Lookup(st, all[i].0) == Some(all[i].1);
    }
  }

  /** Rows in cursor order project to records in cursor order: a record
      whose stored name is NULL comes before every record whose name is
      not, and records with names follow the collation on the name shown. */
  lemma ProjectRowsSorted(st: ST.Store<NativeContact>, rows: seq<Row>, withProperties: bool,
                          withThumbnail: bool, withPhoto: bool, le: (string, string) -> bool)
    requires forall k :: 0 <= k < |rows| ==> rows[k] in ST.Enumerate(st)
    requires forall i, j :: 0 <= i < j < |rows| && rows[j].1.displayName.None? ==> rows[i].1.displayName.None?
    requires forall i, j :: 0 <= i < j < |rows| && rows[i].1.displayName.Some? ==>
               rows[j].1.displayName.Some? && le(rows[i].1.displayName.value, rows[j].1.displayName.value)
    ensures var records := ProjectRows(rows, withProperties, withThumbnail, withPhoto);
      && (forall k :: 0 <= k < |records| ==> records[k].id in st.byId)
      && (forall i, j :: 0 <= i < j < |records| && st.byId[records[j].id].displayName.None? ==>
            st.byId[records[i].id].displayName.None?)
      && (forall i, j :: 0 <= i < j < |records| && st.byId[records[i].id].displayName.Some? ==>
            le(records[i].displayName, records[j].displayName))
  {
    RecordsComeFromStore(st, rows, withProperties, withThumbnail, withPhoto);
  }

  /** Every contact of a valid store whose row survives into `rows` is
      listed. */
  lemma StoreComesThrough(st: ST.Store<NativeContact>, keep: Row -> bool, rows: seq<Row>, withProperties: bool,
                          withThumbnail: bool, withPhoto: bool)
    requires ST.Valid(st)
    requires forall x :: x in rows <==> x in ST.Enumerate(st) && keep(x)
    ensures var records := ProjectRows(rows, withProperties, withThumbnail, withPhoto);
      forall id :: id in st.byId && keep((id, st.byId[id])) ==> exists k :: 0 <= k < |records| && records[k].id == id
  {
    var all := ST.Enumerate(st);
    var records := ProjectRows(rows, withProperties, withThumbnail, withPhoto);
    forall id | id in st.byId && keep((id, st.byId[id]))
      ensures exists k :: 0 <= k < |records| && records[k].id == id
    {
      var i :| 0 <= i < |st.order| && st.order[i] == id;
      assert all[i].0 == id;
      assert ST.Lookup(st, id) == Some(all[i].1);
      assert all[i] == (id, st.byId[id]);
      assert all[i] in rows;
      var k :| 0 <= k < |rows| && rows[k] == all[i];
      assert records[k].id == id;
    }
  }

  // ---------------------------------------------------------------------
  // getAllContacts, getContact
  // ---------------------------------------------------------------------

  /** A rearrangement keeps the rows and their number. */
  lemma OrderedMembers(rows: seq<Row>, sorted: bool, le: (string, string) -> bool)
    ensures |Ordered(rows, sorted, le)| == |rows|
    ensures forall x :: x in Ordered(rows, sorted, le) <==> x in rows
  {
    var r := Ordered(rows, sorted, le);
    forall x
      ensures x in r <==> x in rows
    {
      assert x in r <==> x in multiset(r);
      assert x in rows <==> x in multiset(rows);
    }
    assert |r| == |multiset(r)| == |multiset(rows)| == |rows|;
  }

  predicate AnyRow(row: Row) {
    true
  }

  /** Lists every contact of the provider, each projected with the request
      flags; with no ContentResolver the list is empty. */
  function GetAllContacts(provider: Option<Provider>, withProperties: bool, withThumbnail: bool, withPhoto: bool,
                          sorted: bool, le: (string, string) -> bool): (records: seq<ContactRecord>)
    ensures provider.None? ==> records == []
    ensures forall k :: 0 <= k < |records| ==>
              && records[k].propertiesFetched == withProperties
              && records[k].thumbnailFetched == withThumbnail
              && records[k].photoFetched == withPhoto
              && (records[k].properties.Some? <==> withProperties)
    ensures provider.Some? ==> var st := provider.value.contacts;
      forall k :: 0 <= k < |records| ==>
        && records[k].id in st.byId
        && records[k] == ProjectContact(records[k].id, st.byId[records[k].id], withProperties, withThumbnail, withPhoto)
  {
    if provider.None? then []
    else
      var st := provider.value.contacts;
      var rows := Ordered(ST.Enumerate(st), sorted, le);
      OrderedMembers(ST.Enumerate(st), sorted, le);
      RecordsComeFromStore(st, rows, withProperties, withThumbnail, withPhoto);
      ProjectRows(rows, withProperties, withThumbnail, withPhoto)
  }

  /** Every contact of a well-formed provider is listed, once per row of
      the provider's enumeration. */
  lemma GetAllListsEveryContact(provider: Provider, withProperties: bool, withThumbnail: bool, withPhoto: bool,
                                sorted: bool, le: (string, string) -> bool)
    requires ST.Valid(provider.contacts)
    ensures var records := GetAllContacts(Some(provider), withProperties, withThumbnail, withPhoto, sorted, le);
      && |records| == |provider.contacts.order|
      && forall id :: id in provider.contacts.byId ==> exists k :: 0 <= k < |records| && records[k].id == id
  {
    var st := provider.contacts;
    var rows := Ordered(ST.Enumerate(st), sorted, le);
    OrderedMembers(ST.Enumerate(st), sorted, le);
    StoreComesThrough(st, AnyRow, rows, withProperties, withThumbnail, withPhoto);
  }

  /** Unsorted, the records follow the provider's own enumeration order. */
  lemma GetAllKeepsProviderOrder(provider: Provider, withProperties: bool, withThumbnail: bool, withPhoto: bool,
                                 le: (string, string) -> bool)
    ensures var records := GetAllContacts(Some(provider), withProperties, withThumbnail, withPhoto, false, le);
      var rows := ST.Enumerate(provider.contacts);
      |records| == |rows| && forall k :: 0 <= k < |records| ==> records[k].id == rows[k].0
  {
  }

  /** Sorted, the records are in ascending display-name order as SQLite
      orders the column: contacts with a NULL name first, then the named
      ones under the provider's collation, whatever total preorder it is. */
  lemma GetAllSortedByName(provider: Provider, withProperties: bool, withThumbnail: bool, withPhoto: bool,
                           le: (string, string) -> bool)
    requires TotalPreorder(le)
    ensures var st := provider.contacts;
      var records := GetAllContacts(Some(provider), withProperties, withThumbnail, withPhoto, true, le);
      && (forall i, j :: 0 <= i < j < |records| && st.byId[records[j].id].displayName.None? ==>
            st.byId[records[i].id].displayName.None?)
      && (forall i, j :: 0 <= i < j < |records| && st.byId[records[i].id].displayName.Some? ==>
            le(records[i].displayName, records[j].displayName))
  {
    var rows := Ordered(ST.Enumerate(provider.contacts), true, le);
    OrderedMembers(ST.Enumerate(provider.contacts), true, le);
    ProjectRowsSorted(provider.contacts, rows, withProperties, withThumbnail, withPhoto, le);
  }

  /** With one contact named "" and a later one whose name is NULL, the
      sorted listing puts the NULL one first, as SQLite does. */
  lemma NullNameSortsFirst(le: (string, string) -> bool)
    requires TotalPreorder(le)
    ensures var a := NativeContact(Some(""), 0, [], [], [], [], [], [], [], [], None);
      var b := a.(displayName := None);
      Ordered([("1", a), ("2", b)], true, le) == [("2", b), ("1", a)]
  {
    var a := NativeContact(Some(""), 0, [], [], [], [], [], [], [], [], None);
    var b := a.(displayName := None);
    var r := Ordered([("1", a), ("2", b)], true, le);
    assert multiset(r) == multiset{("1", a), ("2", b)};
    assert |r| == 2;
    assert r[0] in multiset(r) && r[1] in multiset(r);
    assert r[0] != r[1] by {
      assert multiset(r)[("1", a)] == 1;
    }
    assert r[0].1.displayName.None?;
  }

  /** `_ID` is an INTEGER PRIMARY KEY: an id as the provider reports it is
      the decimal text of a 64-bit integer. */
  predicate IsProviderId(id: string) {
    ToLongOrNull(id).Some? && id == IntToString(ToLongOrNull(id).value)
  }

  /** The contact that the selection `_ID = ?` picks with the id bound as
      text. SQLite compares the INTEGER column with the text under numeric
      affinity, so an integer literal selects the contact with that number
      ("007" selects 7) and text that is not a number selects nothing. */
  function SelectedKey(contactId: string): (key: Option<string>)
    ensures key.Some? <==> ToLongOrNull(contactId).Some?
    ensures key.Some? ==> IsProviderId(key.value)
    ensures IsProviderId(contactId) ==> key == Some(contactId)
  {
    match ToLongOrNull(contactId)
    case None => None
    case Some(n) =>
      ParseIntToString(n, LongMin, LongMax);
      Some(IntToString(n))
  }

  /** The row `_ID = contactId`, or None: no ContentResolver or no such
      contact. The record carries the id as it was asked for. */
  function GetContact(provider: Option<Provider>, contactId: string, withProperties: bool, withThumbnail: bool,
                      withPhoto: bool): (r: Option<ContactRecord>)
    ensures provider.None? ==> r.None?
    ensures provider.Some? ==>
      (r.Some? <==> SelectedKey(contactId).Some? && SelectedKey(contactId).value in provider.value.contacts.byId)
    ensures r.Some? ==> r.value.id == contactId
    ensures r.Some? ==> r.value == ProjectContact(contactId, provider.value.contacts.byId[SelectedKey(contactId).value],
                                                  withProperties, withThumbnail, withPhoto)
  {
    if provider.None? then None
    else
      match SelectedKey(contactId)
      case None => None
      case Some(key) =>
        match ST.Lookup(provider.value.contacts, key)
        case None => None
        case Some(c) => Some(ProjectContact(contactId, c, withProperties, withThumbnail, withPhoto))
  }

  /** Lookup compares the id as a number, as delete does: "007" finds the
      contact "7" and reports it under "007", and "abc" finds nothing. */
  lemma GetParsesTheId(provider: Provider)
    requires "7" in provider.contacts.byId
    ensures GetContact(Some(provider), "007", true, false, false).Some?
    ensures GetContact(Some(provider), "007", true, false, false).value
         == ProjectContact("007", provider.contacts.byId["7"], true, false, false)
    ensures GetContact(Some(provider), "abc", true, false, false).None?
  {
    ParseNotInjective();
    assert ToLongOrNull("abc") == None by {
      assert !IsAsciiDigit("abc"[0]);
    }
  }

  /** Looking one contact up by id gives the record the full listing holds
      for it. */
  lemma GetContactAgreesWithGetAll(provider: Provider, contactId: string, withProperties: bool, withThumbnail: bool,
                                   withPhoto: bool, sorted: bool, le: (string, string) -> bool)
    requires ST.Valid(provider.contacts)
    requires contactId in provider.contacts.byId && IsProviderId(contactId)
    ensures var r := GetContact(Some(provider), contactId, withProperties, withThumbnail, withPhoto);
      r.Some? && r.value in GetAllContacts(Some(provider), withProperties, withThumbnail, withPhoto, sorted, le)
  {
    var all := GetAllContacts(Some(provider), withProperties, withThumbnail, withPhoto, sorted, le);
    GetAllListsEveryContact(provider, withProperties, withThumbnail, withPhoto, sorted, le);
    var k :| 0 <= k < |all| && all[k].id == contactId;
    var found := GetContact(Some(provider), contactId, withProperties, withThumbnail, withPhoto);
    assert found.Some? && found.value == ProjectContact(contactId, provider.contacts.byId[contactId], withProperties, withThumbnail, withPhoto);
    assert all[k] == found.value;
  }

  /** With every flag off, records carry no property groups and no
      pictures, and all three fetch flags are false. */
  lemma NoFlagsNoGroups(provider: Option<Provider>, sorted: bool, le: (string, string) -> bool)
    ensures var records := GetAllContacts(provider, false, false, false, sorted, le);
      forall k :: 0 <= k < |records| ==>
        && !records[k].propertiesFetched && !records[k].thumbnailFetched && !records[k].photoFetched
        && records[k].properties.None? && records[k].thumbnail.None? && records[k].photo.None?
  {
    var records := GetAllContacts(provider, false, false, false, sorted, le);
    if provider.Some? {
      forall k | 0 <= k < |records|
        ensures records[k].thumbnail.None? && records[k].photo.None?
      {
        var c := provider.value.contacts.byId[records[k].id];
        assert records[k] == ProjectContact(records[k].id, c, false, false, false);
      }
    }
  }

  // ---------------------------------------------------------------------
  // searchContacts
  // ---------------------------------------------------------------------

  /** `DISPLAY_NAME_PRIMARY LIKE '%query%'`: a NULL name never matches. */
  predicate NameMatches(displayName: Option<string>, query: string) {
    displayName.Some? && Like("%" + query + "%", displayName.value)
  }

  predicate RowMatches(query: string, row: Row) {
    NameMatches(row.1.displayName, query)
  }

  function Matching(rows: seq<Row>, query: string): (r: seq<Row>)
    ensures forall x :: x in r <==> x in rows && RowMatches(query, x)
    ensures (forall i :: 0 <= i < |rows| ==> RowMatches(query, rows[i])) ==> r == rows
  {
    if |rows| == 0 then []
    else
      var rest := Matching(rows[1..], query);
      assert forall x :: x in rows <==> x == rows[0] || x in rows[1..];
      if RowMatches(query, rows[0]) then [rows[0]] + rest
      else rest
  }

  /** The contacts whose display name matches `%query%`; thumbnails and
      photos are never fetched. */
  function SearchContacts(provider: Option<Provider>, query: string, withProperties: bool, sorted: bool,
                          le: (string, string) -> bool): (records: seq<ContactRecord>)
    ensures provider.None? ==> records == []
    ensures forall k :: 0 <= k < |records| ==>
              && records[k].propertiesFetched == withProperties
              && !records[k].thumbnailFetched && !records[k].photoFetched
              && records[k].thumbnail.None? && records[k].photo.None?
    ensures provider.Some? ==> var st := provider.value.contacts;
      forall k :: 0 <= k < |records| ==>
        && records[k].id in st.byId
        && NameMatches(st.byId[records[k].id].displayName, query)
        && records[k] == ProjectContact(records[k].id, st.byId[records[k].id], withProperties, false, false)
  {
    if provider.None? then []
    else
      var st := provider.value.contacts;
      var hits := Matching(ST.Enumerate(st), query);
      var rows := Ordered(hits, sorted, le);
      OrderedMembers(hits, sorted, le);
      RecordsComeFromStore(st, rows, withProperties, false, false);
      assert forall k :: 0 <= k < |rows| ==> RowMatches(query, rows[k]);
      ProjectRows(rows, withProperties, false, false)
  }

  /** Every matching contact of a well-formed provider is found. */
  lemma SearchFindsEveryMatch(provider: Provider, query: string, withProperties: bool, sorted: bool,
                              le: (string, string) -> bool)
    requires ST.Valid(provider.contacts)
    ensures var records := SearchContacts(Some(provider), query, withProperties, sorted, le);
      forall id :: id in provider.contacts.byId && NameMatches(provider.contacts.byId[id].displayName, query) ==>
        exists k :: 0 <= k < |records| && records[k].id == id
  {
    var st := provider.contacts;
    var hits := Matching(ST.Enumerate(st), query);
    var rows := Ordered(hits, sorted, le);
    var keep := x => RowMatches(query, x);
    var records := SearchContacts(Some(provider), query, withProperties, sorted, le);
    assert records == ProjectRows(rows, withProperties, false, false);
    OrderedMembers(hits, sorted, le);
    StoreComesThrough(st, keep, rows, withProperties, false, false);
    forall id | id in st.byId && NameMatches(st.byId[id].displayName, query)
      ensures exists k :: 0 <= k < |records| && records[k].id == id
    {
      assert keep((id, st.byId[id]));
    }
  }

  /** Sorted, search results are in ascending display-name order, with
      the named results under the provider's collation. (A NULL name never
      matches, so search has none to put first.) */
  lemma SearchSortedByName(provider: Provider, query: string, withProperties: bool, le: (string, string) -> bool)
    requires TotalPreorder(le)
    ensures var st := provider.contacts;
      var records := SearchContacts(Some(provider), query, withProperties, true, le);
      forall i, j :: 0 <= i < j < |records| ==> le(records[i].displayName, records[j].displayName)
  {
    var st := provider.contacts;
    var hits := Matching(ST.Enumerate(st), query);
    var rows := Ordered(hits, true, le);
    OrderedMembers(hits, true, le);
    var records := SearchContacts(Some(provider), query, withProperties, true, le);
    ProjectRowsSorted(st, rows, withProperties, false, false, le);
    forall i | 0 <= i < |records|
      ensures st.byId[records[i].id].displayName.Some?
    {
      assert NameMatches(st.byId[records[i].id].displayName, query);
    }
  }

  /** For a query without '%' or '_', search is a case-insensitive
      substring match on the display name, in both directions. */
  lemma SearchIsSubstringMatch(provider: Provider, query: string, withProperties: bool, sorted: bool,
                               le: (string, string) -> bool)
    requires NoWildcards(query)
    requires ST.Valid(provider.contacts)
    ensures var records := SearchContacts(Some(provider), query, withProperties, sorted, le);
      && (forall k :: 0 <= k < |records| ==> ContainsIgnoringCase(records[k].displayName, query))
      && (forall id ::
            (id in provider.contacts.byId && provider.contacts.byId[id].displayName.Some? &&
             ContainsIgnoringCase(provider.contacts.byId[id].displayName.value, query)) ==>
            exists k :: 0 <= k < |records| && records[k].id == id)
  {
    var st := provider.contacts;
    var records := SearchContacts(Some(provider), query, withProperties, sorted, le);
    SearchFindsEveryMatch(provider, query, withProperties, sorted, le);
    forall k | 0 <= k < |records|
      ensures ContainsIgnoringCase(records[k].displayName, query)
    {
      var c := st.byId[records[k].id];
      LikeContains(query, c.displayName.value);
    }
    forall id | id in st.byId && st.byId[id].displayName.Some? &&
                ContainsIgnoringCase(st.byId[id].displayName.value, query)
      ensures exists k :: 0 <= k < |records| && records[k].id == id
    {
      LikeContains(query, st.byId[id].displayName.value);
    }
  }

  /** The empty query matches every contact that has a display name: when
      all have one, search("") is the full listing without pictures. */
  lemma SearchEmptyQueryListsAll(provider: Provider, withProperties: bool, sorted: bool, le: (string, string) -> bool)
    requires forall id :: id in provider.contacts.byId ==> provider.contacts.byId[id].displayName.Some?
    ensures SearchContacts(Some(provider), "", withProperties, sorted, le)
         == GetAllContacts(Some(provider), withProperties, false, false, sorted, le)
  {
    var all := ST.Enumerate(provider.contacts);
    forall i | 0 <= i < |all|
      ensures RowMatches("", all[i])
    {
      assert ST.Lookup(provider.contacts, all[i].0) == Some(all[i].1);
      LikeEmptyQuery(all[i].1.displayName.value);
    }
    assert Matching(all, "") == all;
  }

  /** A contact whose DISPLAY_NAME_PRIMARY is NULL is never found, not even
      by the empty query. */
  lemma SearchSkipsNullNames(provider: Provider, query: string, withProperties: bool, sorted: bool,
                             le: (string, string) -> bool, contactId: string)
    requires contactId in provider.contacts.byId && provider.contacts.byId[contactId].displayName.None?
    ensures forall r :: r in SearchContacts(Some(provider), query, withProperties, sorted, le) ==> r.id != contactId
  {
  }

  /** Without an ESCAPE clause, '_' in a query is a wildcard: "J_n" finds a
      contact named "Jan". */
  lemma SearchUnderscoreExample()
    ensures NameMatches(Some("Jan"), "J_n") && !ContainsIgnoringCase("Jan", "J_n")
  {
    UnderscoreIsAWildcard();
    assert "%" + "J_n" + "%" == "%J_n%";
  }

  // ---------------------------------------------------------------------
  // getContactIdFromRawContactId
  // ---------------------------------------------------------------------

  /** The aggregated contact a raw contact belongs to; the raw id itself
      when the RawContacts query finds no row. */
  function ContactIdFromRawContactId(rawContacts: map<string, string>, rawContactId: string): (contactId: string)
    ensures rawContactId in rawContacts ==> contactId == rawContacts[rawContactId]
    ensures rawContactId !in rawContacts ==> contactId == rawContactId
  {
    if rawContactId in rawContacts then rawContacts[rawContactId] else rawContactId
  }

  // ---------------------------------------------------------------------
  // createContact: the insert batch
  // ---------------------------------------------------------------------

  /** The value part of one staged Data insert. Name components keep the
      payload value as given (`withValue(key, it)`). */
  datatype DataRow =
    | NameData(givenName: Option<Value>, familyName: Option<Value>, middleName: Option<Value>,
               prefix: Option<Value>, suffix: Option<Value>)
    | PhoneData(number: string, phoneType: int)
    | EmailData(address: string, emailType: int)
    | OrganizationData(company: Option<string>, title: Option<string>)
    | NoteData(note: string)

  /** One ContentProviderOperation: the RawContacts insert, or a Data
      insert whose RAW_CONTACT_ID is the result of the operation at
      `backReference`. */
  datatype BatchOp =
    | InsertRawContact
    | InsertData(backReference: nat, row: DataRow)

  /** `ContentProviderOperation.Builder.withValue` accepts null, strings,
      numbers, booleans and byte arrays, and throws on anything else. */
  predicate AcceptedByWithValue(v: Option<Value>) {
    v.None? || !(v.value.List? || v.value.Dict?)
  }

  function NameOf(name: Dict): DataRow {
    NameData(GetNonNull(name, "givenName"), GetNonNull(name, "familyName"), GetNonNull(name, "middleName"),
             GetNonNull(name, "namePrefix"), GetNonNull(name, "nameSuffix"))
  }

  predicate NameAccepted(row: DataRow)
    requires row.NameData?
  {
    && AcceptedByWithValue(row.givenName) && AcceptedByWithValue(row.familyName)
    && AcceptedByWithValue(row.middleName) && AcceptedByWithValue(row.prefix) && AcceptedByWithValue(row.suffix)
  }

  /** The StructuredName insert, staged whenever "name" is a map. */
  function NameRows(data: Dict): (r: Result<seq<DataRow>, string>)
    ensures GetDict(data, "name").None? ==> r == Success([])
    ensures GetDict(data, "name").Some? ==>
      (r.Success? <==> NameAccepted(NameOf(GetDict(data, "name").value)))
    ensures r.Success? && GetDict(data, "name").Some? ==> r.value == [NameOf(GetDict(data, "name").value)]
  {
    match GetDict(data, "name")
    case None => Success([])
    case Some(name) =>
      var row := NameOf(name);
      if NameAccepted(row) then Success([row]) else Failure("bad value type")
  }

  /** The entries of a payload item; a non-map item has none (such an
      item fails the whole create before this is consulted). */
  function ItemEntries(item: Value): Dict {
    if item.Dict? then item.entries else map[]
  }

  /** The two payload lists a create turns into inserts, one insert per
      selected item. */
  datatype ItemKind = PhoneItems | EmailItems

  /** Whether an item of the list becomes an insert. */
  predicate Selected(kind: ItemKind, item: Value) {
    match kind
    case PhoneItems => HasNumber(item)
    case EmailItems => HasAddress(item)
  }

  /** The insert a selected item stands for. */
  function MakeRow(kind: ItemKind, item: Value): DataRow {
    match kind
    case PhoneItems => PhoneItem(item)
    case EmailItems => EmailItem(item)
  }

  /** The selected items, in item order: each one comes from the list and
      is selected, and every selected item of the list is kept. */
  function Selection(items: seq<Value>, kind: ItemKind): (kept: seq<Value>)
    ensures |kept| <= |items|
    ensures forall k :: 0 <= k < |kept| ==> kept[k] in items && Selected(kind, kept[k])
    ensures forall i :: 0 <= i < |items| && Selected(kind, items[i]) ==> items[i] in kept
  {
    if |items| == 0 then []
    else
      var rest := Selection(items[1..], kind);
      assert forall i :: 1 <= i < |items| ==> items[i] == items[1..][i - 1];
      if Selected(kind, items[0]) then [items[0]] + rest else rest
  }

  /** The inserts the selected items stand for, one per item, in order. */
  function Stage(items: seq<Value>, kind: ItemKind): (rows: seq<DataRow>)
    ensures |rows| == |Selection(items, kind)|
  {
    var kept := Selection(items, kind);
    seq(|kept|, k requires 0 <= k < |kept| => MakeRow(kind, kept[k]))
  }

  /** Every staged insert is the insert of a selected item of the list,
      and every selected item's insert is staged. */
  lemma StageFromSelected(items: seq<Value>, kind: ItemKind)
    ensures forall k :: 0 <= k < |Stage(items, kind)| ==>
              Selection(items, kind)[k] in items && Selected(kind, Selection(items, kind)[k]) &&
              Stage(items, kind)[k] == MakeRow(kind, Selection(items, kind)[k])
    ensures forall i :: 0 <= i < |items| && Selected(kind, items[i]) ==> MakeRow(kind, items[i]) in Stage(items, kind)
  {
    var kept := Selection(items, kind);
    forall i | 0 <= i < |items| && Selected(kind, items[i])
      ensures MakeRow(kind, items[i]) in Stage(items, kind)
    {
      var k :| 0 <= k < |kept| && kept[k] == items[i];
      assert Stage(items, kind)[k] == MakeRow(kind, items[i]);
    }
  }

  /** With every item selected, the selection is the whole list. */
  lemma {:induction false} SelectionAll(items: seq<Value>, kind: ItemKind)
    requires forall i :: 0 <= i < |items| ==> Selected(kind, items[i])
    ensures Selection(items, kind) == items
  {
    if |items| > 0 {
      SelectionAll(items[1..], kind);
      assert items == [items[0]] + items[1..];
    }
  }

  /** With every item selected, there is exactly one row per item, in item
      order. */
  lemma StageAll(items: seq<Value>, kind: ItemKind)
    requires forall i :: 0 <= i < |items| ==> Selected(kind, items[i])
    ensures |Stage(items, kind)| == |items|
    ensures forall i :: 0 <= i < |items| ==> Stage(items, kind)[i] == MakeRow(kind, items[i])
  {
    SelectionAll(items, kind);
  }

  /** With no item selected, nothing is staged. */
  lemma {:induction false} StageNone(items: seq<Value>, kind: ItemKind)
    requires forall i :: 0 <= i < |items| ==> !Selected(kind, items[i])
    ensures Stage(items, kind) == []
  {
    if |items| > 0 {
      StageNone(items[1..], kind);
    }
  }

  /** The phone insert a payload item stands for. */
  function PhoneItem(item: Value): (row: DataRow)
    ensures row.PhoneData? && row.phoneType in PhoneLabels
  {
    PhoneData(GetString(ItemEntries(item), "number").GetOr(""), PhoneType(GetString(ItemEntries(item), "label")))
  }

  predicate HasNumber(item: Value) {
    item.Dict? && !IsNullOrBlank(GetString(item.entries, "number"))
  }

  /** One phone insert per item whose "number" is a non-blank string, in
      item order, typed with PhoneType. The list is cast without checking
      its items, so an item that is not a map fails the whole create. */
  function PhoneRows(items: seq<Value>): (r: Result<seq<DataRow>, string>)
    ensures r.Failure? <==> !AllDicts(items)
    ensures r.Success? ==> r.value == Stage(items, PhoneItems)
  {
    if !AllDicts(items) then Failure("phone item is not a map")
    else Success(Stage(items, PhoneItems))
  }

  function EmailItem(item: Value): (row: DataRow)
    ensures row.EmailData? && row.emailType in EmailLabels
  {
    EmailData(GetString(ItemEntries(item), "email").GetOr(""), EmailType(GetString(ItemEntries(item), "label")))
  }

  predicate HasAddress(item: Value) {
    item.Dict? && !IsNullOrBlank(GetString(item.entries, "email"))
  }

  /** One email insert per item whose "email" is a non-blank string, typed
      with EmailType; as for phones, an item that is not a map fails. */
  function EmailRows(items: seq<Value>): (r: Result<seq<DataRow>, string>)
    ensures r.Failure? <==> !AllDicts(items)
    ensures r.Success? ==> r.value == Stage(items, EmailItems)
  {
    if !AllDicts(items) then Failure("email item is not a map")
    else Success(Stage(items, EmailItems))
  }

  /** Phone items without a usable number are skipped and the others kept
      in order: a payload whose every item has a number gives one insert
      per item, and one whose items all lack it gives none. */
  lemma PhoneRowsOneToOne(items: seq<Value>)
    requires AllDicts(items)
    ensures (forall i :: 0 <= i < |items| ==> HasNumber(items[i])) ==>
      |PhoneRows(items).value| == |items| &&
      forall i :: 0 <= i < |items| ==> PhoneRows(items).value[i] == PhoneItem(items[i])
    ensures (forall i :: 0 <= i < |items| ==> !HasNumber(items[i])) ==> PhoneRows(items).value == []
  {
    if forall i :: 0 <= i < |items| ==> HasNumber(items[i]) {
      StageAll(items, PhoneItems);
    }
    if forall i :: 0 <= i < |items| ==> !HasNumber(items[i]) {
      StageNone(items, PhoneItems);
    }
  }

  /** At most one Organization insert: when "organization" is a map whose
      "name" or "jobTitle" is a non-blank string. */
  function OrganizationRows(data: Dict): (rows: seq<DataRow>)
    ensures |rows| <= 1
    ensures |rows| == 1 <==>
      GetDict(data, "organization").Some? &&
      (!IsNullOrBlank(GetString(GetDict(data, "organization").value, "name")) ||
       !IsNullOrBlank(GetString(GetDict(data, "organization").value, "jobTitle")))
    ensures |rows| == 1 ==> var org := GetDict(data, "organization").value;
      rows[0] == OrganizationData(GetString(org, "name"), GetString(org, "jobTitle"))
  {
    match GetDict(data, "organization")
    case None => []
    case Some(org) =>
      var company := GetString(org, "name");
      var title := GetString(org, "jobTitle");
      if !IsNullOrBlank(company) || !IsNullOrBlank(title) then [OrganizationData(company, title)] else []
  }

  /** At most one Note insert: when "note" is a non-blank string. */
  function NoteRows(data: Dict): (rows: seq<DataRow>)
    ensures |rows| <= 1
    ensures |rows| == 1 <==> !IsNullOrBlank(GetString(data, "note"))
    ensures |rows| == 1 ==> rows[0] == NoteData(GetString(data, "note").value)
  {
    var note := GetString(data, "note");
    if !IsNullOrBlank(note) then [NoteData(note.value)] else []
  }

  /** The Data inserts, each back-referencing the raw contact at index 0. */
  function DataInserts(rows: seq<DataRow>): (ops: seq<BatchOp>)
    ensures |ops| == |rows|
    ensures forall i :: 0 <= i < |rows| ==> ops[i] == InsertData(0, rows[i])
  {
    seq(|rows|, i requires 0 <= i < |rows| => InsertData(0, rows[i]))
  }

  /** When building the batch throws: a name component `withValue` rejects,
      or a phone or email list holding something other than maps. */
  predicate BatchRejects(data: Dict) {
    || (GetDict(data, "name").Some? && !NameAccepted(NameOf(GetDict(data, "name").value)))
    || (GetList(data, "phones").Some? && !AllDicts(GetList(data, "phones").value))
    || (GetList(data, "emails").Some? && !AllDicts(GetList(data, "emails").value))
  }

  /** All the staged rows, in staging order: name, phones, emails,
      organisation, note. */
  function StagedRows(data: Dict): (r: Result<seq<DataRow>, string>)
    ensures r.Failure? <==> BatchRejects(data)
    ensures r.Success? ==> forall i :: 0 <= i < |r.value| && r.value[i].PhoneData? ==> r.value[i].phoneType in PhoneLabels
  {
    var name :- NameRows(data);
    var phones :- if GetList(data, "phones").Some? then PhoneRows(GetList(data, "phones").value) else Success([]);
    var emails :- if GetList(data, "emails").Some? then EmailRows(GetList(data, "emails").value) else Success([]);
    StagedPartsTyped(data, name, phones, emails);
    Success(name + phones + emails + OrganizationRows(data) + NoteRows(data))
  }

  predicate PhonesTyped(rows: seq<DataRow>) {
    forall i :: 0 <= i < |rows| && rows[i].PhoneData? ==> rows[i].phoneType in PhoneLabels
  }

  lemma PhonesTypedAppend(a: seq<DataRow>, b: seq<DataRow>)
    requires PhonesTyped(a) && PhonesTyped(b)
    ensures PhonesTyped(a + b)
  {
    forall i | 0 <= i < |a + b| && (a + b)[i].PhoneData?
      ensures (a + b)[i].phoneType in PhoneLabels
    {
      if i >= |a| {
        assert (a + b)[i] == b[i - |a|];
      }
    }
  }

  /** Every staged phone insert has a standard type: phones are typed by
      PhoneType, and the other parts hold no phone insert. */
  lemma StagedPartsTyped(data: Dict, name: seq<DataRow>, phones: seq<DataRow>, emails: seq<DataRow>)
    requires NameRows(data) == Success(name)
    requires (if GetList(data, "phones").Some? then PhoneRows(GetList(data, "phones").value) else Success([])) == Success(phones)
    requires (if GetList(data, "emails").Some? then EmailRows(GetList(data, "emails").value) else Success([])) == Success(emails)
    ensures PhonesTyped(name + phones + emails + OrganizationRows(data) + NoteRows(data))
  {
    assert PhonesTyped(name);
    if GetList(data, "phones").Some? {
      var items := GetList(data, "phones").value;
      assert phones == Stage(items, PhoneItems);
      forall k | 0 <= k < |phones|
        ensures phones[k].PhoneData? && phones[k].phoneType in PhoneLabels
      {
        assert phones[k] == PhoneItem(Selection(items, PhoneItems)[k]);
      }
    }
    if GetList(data, "emails").Some? {
      var items := GetList(data, "emails").value;
      assert emails == Stage(items, EmailItems);
      forall k | 0 <= k < |emails|
        ensures emails[k].EmailData?
      {
        assert emails[k] == EmailItem(Selection(items, EmailItems)[k]);
      }
    }
    assert PhonesTyped(OrganizationRows(data)) && PhonesTyped(NoteRows(data));
    PhonesTypedAppend(name, phones);
    PhonesTypedAppend(name + phones, emails);
    PhonesTypedAppend(name + phones + emails, OrganizationRows(data));
    PhonesTypedAppend(name + phones + emails + OrganizationRows(data), NoteRows(data));
  }

  /** The operations `createContact` hands to `applyBatch`. */
  function BuildCreateBatch(data: Dict): (r: Result<seq<BatchOp>, string>)
    ensures r.Failure? <==> BatchRejects(data)
    ensures r.Success? ==> |r.value| >= 1 && r.value[0] == InsertRawContact
    ensures r.Success? ==> forall i :: 1 <= i < |r.value| ==> r.value[i].InsertData? && r.value[i].backReference == 0
    ensures r.Success? ==> |r.value| == 1 + |StagedRows(data).value|
    ensures r.Success? ==> forall i :: 1 <= i < |r.value| ==> r.value[i].row == StagedRows(data).value[i - 1]
  {
    var rows :- StagedRows(data);
    Success([InsertRawContact] + DataInserts(rows))
  }

  // ---------------------------------------------------------------------
  // The provider applying a batch
  // ---------------------------------------------------------------------

  /** The rows of one kind, picked out of the staged rows in order. */
  function Collect<T>(rows: seq<DataRow>, pick: DataRow -> Option<T>): (r: seq<T>)
    ensures |r| <= |rows|
  {
    if |rows| == 0 then []
    else
      match pick(rows[0])
      case Some(x) => [x] + Collect(rows[1..], pick)
      case None => Collect(rows[1..], pick)
  }

  lemma {:induction false} CollectAppend<T>(a: seq<DataRow>, b: seq<DataRow>, pick: DataRow -> Option<T>)
    ensures Collect(a + b, pick) == Collect(a, pick) + Collect(b, pick)
  {
    if |a| == 0 {
      assert a + b == b;
    } else {
      assert (a + b)[0] == a[0];
      assert (a + b)[1..] == a[1..] + b;
      CollectAppend(a[1..], b, pick);
    }
  }

  lemma {:induction false} CollectNone<T>(rows: seq<DataRow>, pick: DataRow -> Option<T>)
    requires forall i :: 0 <= i < |rows| ==> pick(rows[i]).None?
    ensures Collect(rows, pick) == []
  {
    if |rows| > 0 {
      CollectNone(rows[1..], pick);
    }
  }

  /** How the Data table stores a value given to `withValue` in a TEXT
      column: strings as they are, numbers in decimal, booleans as 1 or 0. */
  function StoredText(v: Option<Value>): Option<string> {
    if v.None? then None
    else match v.value
      case Str(s) => Some(s)
      case Int(i) => Some(IntToString(i))
      case Bool(b) => Some(if b then "1" else "0")
      case _ => None
  }

  function PickName(row: DataRow): Option<NameRow> {
    if row.NameData? then
      Some(NameRow(StoredText(row.givenName), StoredText(row.familyName), StoredText(row.middleName),
                   StoredText(row.prefix), StoredText(row.suffix)))
    else None
  }

  function PickPhone(row: DataRow): Option<PhoneRow> {
    if row.PhoneData? then Some(PhoneRow(Some(row.number), Some(row.phoneType), None)) else None
  }

  function PickEmail(row: DataRow): Option<EmailRow> {
    if row.EmailData? then Some(EmailRow(Some(row.address), Some(row.emailType), None)) else None
  }

  function PickOrganization(row: DataRow): Option<OrganizationRow> {
    if row.OrganizationData? then Some(OrganizationRow(row.company, row.title, None)) else None
  }

  function PickNote(row: DataRow): Option<NoteRow> {
    if row.NoteData? then Some(NoteRow(Some(row.note))) else None
  }

  /** The contact a committed batch produces: its Data rows grouped by
      MIME type, not starred, without a photo. The display name is derived
      by the provider and is a parameter. */
  function ContactOfRows(rows: seq<DataRow>, displayName: Option<string>): (c: NativeContact)
    ensures c.displayName == displayName && c.starred == 0 && c.photo.None?
    ensures c.phones == Collect(rows, PickPhone) && c.notes == Collect(rows, PickNote)
    ensures c.postals == [] && c.websites == [] && c.events == []
  {
    NativeContact(displayName, 0, Collect(rows, PickName), Collect(rows, PickPhone), Collect(rows, PickEmail), [],
                  Collect(rows, PickOrganization), [], Collect(rows, PickNote), [], None)
  }

  /** `applyBatch` on a well-formed create batch: a new raw contact
      `rawId`, aggregated into a new contact `contactId`, holding the Data
      rows. The provider allocates both ids, so they are fresh. */
  function ApplyBatch(provider: Provider, ops: seq<BatchOp>, rawId: string, contactId: string,
                      displayName: Option<string>): (p: Provider)
    requires rawId !in provider.rawContacts && contactId !in provider.contacts.byId
    requires |ops| >= 1 && forall i :: 1 <= i < |ops| ==> ops[i].InsertData?
    ensures ST.Valid(provider.contacts) ==> ST.Valid(p.contacts)
    ensures ST.Lookup(p.contacts, contactId) ==
            Some(ContactOfRows(seq(|ops| - 1, i requires 0 <= i < |ops| - 1 => ops[i + 1].row), displayName))
    ensures forall other :: other != contactId ==> ST.Lookup(p.contacts, other) == ST.Lookup(provider.contacts, other)
    ensures p.rawContacts == provider.rawContacts[rawId := contactId]
  {
    var rows := seq(|ops| - 1, i requires 0 <= i < |ops| - 1 => ops[i + 1].row);
    Provider(ST.Insert(provider.contacts, contactId, ContactOfRows(rows, displayName)),
             provider.rawContacts[rawId := contactId])
  }

  /** createContact: stage the batch, apply it, resolve the new contact's
      id through its raw contact and read the contact back with its
      properties. */
  function CreateContact(provider: Option<Provider>, data: Dict, rawId: string, contactId: string,
                         displayName: Option<string>): (r: Result<(Provider, ContactRecord), string>)
    requires provider.Some? ==> rawId !in provider.value.rawContacts && contactId !in provider.value.contacts.byId
    requires IsProviderId(contactId)
    ensures provider.None? ==> r == Failure("ContentResolver not available")
    ensures provider.Some? ==> (r.Failure? <==> BatchRejects(data))
    ensures r.Success? ==> var (p, record) := r.value;
      && record.id == contactId
      && record.propertiesFetched && !record.thumbnailFetched && !record.photoFetched
      && record.properties.Some?
      && GetContact(Some(p), contactId, true, false, false) == Some(record)
    ensures r.Success? ==> forall other :: other != contactId ==>
              ST.Lookup(r.value.0.contacts, other) == ST.Lookup(provider.value.contacts, other)
  {
    if provider.None? then Failure("ContentResolver not available")
    else
      var ops :- BuildCreateBatch(data);
      var p := ApplyBatch(provider.value, ops, rawId, contactId, displayName);
      var id := ContactIdFromRawContactId(p.rawContacts, rawId);
      match GetContact(Some(p), id, true, false, false)
      case None => Failure("Failed to retrieve created contact")
      case Some(record) => Success((p, record))
  }

  /** The record a successful create returns is the projection, with its
      properties, of a contact holding exactly the staged rows. */
  lemma CreatedContactHoldsStagedRows(provider: Provider, data: Dict, rawId: string, contactId: string,
                                      displayName: Option<string>)
    requires rawId !in provider.rawContacts && contactId !in provider.contacts.byId && IsProviderId(contactId)
    requires CreateContact(Some(provider), data, rawId, contactId, displayName).Success?
    ensures StagedRows(data).Success?
    ensures CreateContact(Some(provider), data, rawId, contactId, displayName).value.1
         == ProjectContact(contactId, ContactOfRows(StagedRows(data).value, displayName), true, false, false)
  {
    var ops := BuildCreateBatch(data).value;
    BatchHoldsStagedRows(data);
    AppliedBatchReadsBack(provider, ops, StagedRows(data).value, rawId, contactId, displayName);
  }

  /** The Data inserts of a create batch carry the staged rows, in order. */
  lemma BatchHoldsStagedRows(data: Dict)
    requires BuildCreateBatch(data).Success?
    ensures StagedRows(data).Success?
    ensures var ops := BuildCreateBatch(data).value;
      seq(|ops| - 1, i requires 0 <= i < |ops| - 1 => ops[i + 1].row) == StagedRows(data).value
  {
    var rows := StagedRows(data).value;
    var ops := BuildCreateBatch(data).value;
    var opsRows := seq(|ops| - 1, i requires 0 <= i < |ops| - 1 => ops[i + 1].row);
    assert |opsRows| == |rows|;
    assert forall i :: 0 <= i < |rows| ==> opsRows[i] == rows[i];
  }

  /** After a batch carrying `rows` is applied, the raw contact resolves to
      the new contact and a lookup with properties projects its rows. */
  lemma AppliedBatchReadsBack(provider: Provider, ops: seq<BatchOp>, rows: seq<DataRow>, rawId: string,
                              contactId: string, displayName: Option<string>)
    requires rawId !in provider.rawContacts && contactId !in provider.contacts.byId && IsProviderId(contactId)
    requires |ops| >= 1 && forall i :: 1 <= i < |ops| ==> ops[i].InsertData?
    requires seq(|ops| - 1, i requires 0 <= i < |ops| - 1 => ops[i + 1].row) == rows
    ensures var p := ApplyBatch(provider, ops, rawId, contactId, displayName);
      && ContactIdFromRawContactId(p.rawContacts, rawId) == contactId
      && GetContact(Some(p), contactId, true, false, false)
         == Some(ProjectContact(contactId, ContactOfRows(rows, displayName), true, false, false))
  {
    var p := ApplyBatch(provider, ops, rawId, contactId, displayName);
    assert ST.Lookup(p.contacts, contactId) == Some(ContactOfRows(rows, displayName));
  }

  /** The phones read back after a create are exactly the phone inserts of
      the batch, in order: each number as given, its digits as the
      normalised number, and the standard label of its type, which maps
      back to the same type. */
  lemma CreatedPhonesReadBack(provider: Provider, data: Dict, rawId: string, contactId: string,
                              displayName: Option<string>)
    requires rawId !in provider.rawContacts && contactId !in provider.contacts.byId && IsProviderId(contactId)
    requires CreateContact(Some(provider), data, rawId, contactId, displayName).Success?
    ensures StagedRows(data).Success?
    ensures var record := CreateContact(Some(provider), data, rawId, contactId, displayName).value.1;
      var phones := record.properties.value.phones;
      var staged := Collect(StagedRows(data).value, PickPhone);
      && |phones| == |staged|
      && forall k :: 0 <= k < |phones| ==>
           && Some(phones[k].number) == staged[k].number
           && phones[k].normalizedNumber == Keep(phones[k].number, IsAsciiDigit)
           && phones[k].rawType == staged[k].typeColumn
           && phones[k].rawType.value in PhoneLabels
           && phones[k].labelText == PhoneLabels[phones[k].rawType.value]
           && PhoneType(Some(phones[k].labelText)) == phones[k].rawType.value
  {
    CreatedContactHoldsStagedRows(provider, data, rawId, contactId, displayName);
    var rows := StagedRows(data).value;
    var record := CreateContact(Some(provider), data, rawId, contactId, displayName).value.1;
    assert record == ProjectContact(contactId, ContactOfRows(rows, displayName), true, false, false);
    StagedPhonesReadBack(rows, contactId, displayName);
  }

  /** The phones of a contact holding staged rows, read back with its
      properties. */
  lemma StagedPhonesReadBack(rows: seq<DataRow>, contactId: string, displayName: Option<string>)
    requires forall i :: 0 <= i < |rows| && rows[i].PhoneData? ==> rows[i].phoneType in PhoneLabels
    ensures var record := ProjectContact(contactId, ContactOfRows(rows, displayName), true, false, false);
      var phones := record.properties.value.phones;
      var staged := Collect(rows, PickPhone);
      && |phones| == |staged|
      && forall k :: 0 <= k < |phones| ==>
           && Some(phones[k].number) == staged[k].number
           && phones[k].normalizedNumber == Keep(phones[k].number, IsAsciiDigit)
           && phones[k].rawType == staged[k].typeColumn
           && phones[k].rawType.value in PhoneLabels
           && phones[k].labelText == PhoneLabels[phones[k].rawType.value]
           && PhoneType(Some(phones[k].labelText)) == phones[k].rawType.value
  {
    var c := ContactOfRows(rows, displayName);
    var staged := Collect(rows, PickPhone);
    assert ProjectContact(contactId, c, true, false, false).properties.value.phones == ProjectPhones(staged);
    forall k | 0 <= k < |staged|
      ensures staged[k].number.Some?
      ensures staged[k].typeColumn.Some? && staged[k].typeColumn.value in PhoneLabels
    {
      StagedPhonesTyped(rows, k);
    }
    TypedPhonesReadBack(staged);
  }

  /** Phone rows written with a number and a standard type read back as
      that number, its digits, and the type's standard label. */
  lemma TypedPhonesReadBack(staged: seq<PhoneRow>)
    requires forall k :: 0 <= k < |staged| ==>
      staged[k].number.Some? && staged[k].typeColumn.Some? && staged[k].typeColumn.value in PhoneLabels
    ensures var phones := ProjectPhones(staged);
      forall k :: 0 <= k < |phones| ==>
        && phones[k].number == staged[k].number.value
        && phones[k].normalizedNumber == Keep(phones[k].number, IsAsciiDigit)
        && phones[k].rawType == staged[k].typeColumn
        && phones[k].rawType.value in PhoneLabels
        && phones[k].labelText == PhoneLabels[phones[k].rawType.value]
        && PhoneType(Some(phones[k].labelText)) == phones[k].rawType.value
  {
    forall k | 0 <= k < |staged|
      ensures PhoneType(Some(PhoneLabel(staged[k].typeColumn.value, ColumnText(staged[k].labelColumn))))
           == staged[k].typeColumn.value
    {
      PhoneCodeRoundTrip(staged[k].typeColumn.value, ColumnText(staged[k].labelColumn));
    }
  }

  /** Every staged phone insert carries a number and a standard type. */
  lemma {:induction false} StagedPhonesTyped(rows: seq<DataRow>, k: nat)
    requires forall i :: 0 <= i < |rows| && rows[i].PhoneData? ==> rows[i].phoneType in PhoneLabels
    requires k < |Collect(rows, PickPhone)|
    ensures Collect(rows, PickPhone)[k].number.Some?
    ensures Collect(rows, PickPhone)[k].typeColumn.Some? && Collect(rows, PickPhone)[k].typeColumn.value in PhoneLabels
  {
    if PickPhone(rows[0]).Some? && k == 0 {
    } else if PickPhone(rows[0]).Some? {
      StagedPhonesTyped(rows[1..], k - 1);
    } else {
      StagedPhonesTyped(rows[1..], k);
    }
  }

  // ---------------------------------------------------------------------
  // updateContact, deleteContact
  // ---------------------------------------------------------------------

  /** updateContact: the payload's "id" is required, nothing is written,
      and the contact is read back with its properties. */
  function UpdateContact(provider: Option<Provider>, data: Dict): (r: Result<ContactRecord, string>)
    ensures provider.None? ==> r == Failure("ContentResolver not available")
    ensures provider.Some? && GetString(data, "id").None? ==> r == Failure("Contact ID is required")
    ensures provider.Some? && GetString(data, "id").Some? ==>
      var id := GetString(data, "id").value;
      && (r.Success? <==> SelectedKey(id).Some? && SelectedKey(id).value in provider.value.contacts.byId)
      && (r.Failure? ==> r.error == "Failed to retrieve updated contact")
      && (r.Success? ==> r.value == ProjectContact(id, provider.value.contacts.byId[SelectedKey(id).value], true, false, false))
  {
    if provider.None? then Failure("ContentResolver not available")
    else match GetString(data, "id")
      case None => Failure("Contact ID is required")
      case Some(id) =>
        match GetContact(provider, id, true, false, false)
        case None => Failure("Failed to retrieve updated contact")
        case Some(record) => Success(record)
  }

  /** Whatever else the payload holds, an update returns what a lookup of
      its id with properties returns: the fields sent are ignored. */
  lemma UpdateIgnoresPayload(provider: Provider, data: Dict, other: Dict)
    requires GetString(data, "id").Some? && GetString(data, "id") == GetString(other, "id")
    ensures UpdateContact(Some(provider), data) == UpdateContact(Some(provider), other)
    ensures var r := GetContact(Some(provider), GetString(data, "id").value, true, false, false);
      UpdateContact(Some(provider), data).Success? <==> r.Some?
    ensures UpdateContact(Some(provider), data).Success? ==>
      Some(UpdateContact(Some(provider), data).value) == GetContact(Some(provider), GetString(data, "id").value, true, false, false)
  {
  }

  /** The message of the NumberFormatException `String.toLong()` throws. */
  function NotALong(contactId: string): string {
    "For input string: \"" + contactId + "\""
  }

  /** deleteContact: the id is parsed as a 64-bit integer and the contact
      whose `_ID` is that number is deleted, together with its raw
      contacts. The provider reports how many rows it deleted, and that
      count is ignored, so an unknown id is not an error. */
  function DeleteContact(provider: Option<Provider>, contactId: string): (r: Result<Provider, string>)
    ensures provider.None? ==> r == Failure("ContentResolver not available")
    ensures provider.Some? ==> (r.Failure? <==> ToLongOrNull(contactId).None?)
    ensures provider.Some? && r.Failure? ==> r.error == NotALong(contactId)
    ensures r.Success? ==> var id := IntToString(ToLongOrNull(contactId).value);
      && ST.Lookup(r.value.contacts, id) == None
      && (forall other :: other != id ==> ST.Lookup(r.value.contacts, other) == ST.Lookup(provider.value.contacts, other))
      && (ST.Valid(provider.value.contacts) ==> ST.Valid(r.value.contacts))
      && (forall raw :: raw in r.value.rawContacts <==>
            raw in provider.value.rawContacts && provider.value.rawContacts[raw] != id)
  {
    if provider.None? then Failure("ContentResolver not available")
    else match ToLongOrNull(contactId)
      case None => Failure(NotALong(contactId))
      case Some(n) =>
        var id := IntToString(n);
        var raws := provider.value.rawContacts;
        Success(Provider(ST.Remove(provider.value.contacts, id),
                         map raw | raw in raws && raws[raw] != id :: raws[raw]))
  }

  /** After deleting a contact by an id, looking the same id up finds
      nothing. */
  lemma DeleteThenGetIsNotFound(provider: Provider, contactId: string, withProperties: bool, withThumbnail: bool,
                                withPhoto: bool)
    requires ToLongOrNull(contactId).Some?
    ensures DeleteContact(Some(provider), contactId).Success?
    ensures GetContact(Some(DeleteContact(Some(provider), contactId).value), contactId,
                       withProperties, withThumbnail, withPhoto).None?
  {
  }

  /** Deleting an id no contact has succeeds and changes no contact, so
      deleting the same contact twice succeeds both times. */
  lemma DeleteTwiceSucceeds(provider: Provider, contactId: string)
    requires ToLongOrNull(contactId).Some?
    ensures DeleteContact(Some(provider), contactId).Success?
    ensures var once := DeleteContact(Some(provider), contactId).value;
      && DeleteContact(Some(once), contactId).Success?
      && DeleteContact(Some(once), contactId).value.contacts.byId == once.contacts.byId
  {
    var once := DeleteContact(Some(provider), contactId).value;
    var key := IntToString(ToLongOrNull(contactId).value);
    assert key !in once.contacts.byId;
    assert once.contacts.byId - {key} == once.contacts.byId;
  }

  /** The id is compared as a number: "007" deletes the contact "7", and a
      non-numeric id is an error rather than a miss. */
  lemma DeleteParsesTheId(provider: Provider)
    ensures DeleteContact(Some(provider), "007").Success?
    ensures ST.Lookup(DeleteContact(Some(provider), "007").value.contacts, "7") == None
    ensures DeleteContact(Some(provider), "abc") == Failure("For input string: \"abc\"")
  {
    ParseNotInjective();
    assert ToLongOrNull("abc") == None by {
      assert !IsAsciiDigit("abc"[0]);
    }
    assert NotALong("abc") == "For input string: \"abc\"";
  }

  // ---------------------------------------------------------------------
  // A worked create
  // ---------------------------------------------------------------------

  const AnnPayload: Dict := map[
    "name" := Dict(map["givenName" := Str("Ann")]),
    "phones" := List([Dict(map["number" := Str("555-1234"), "label" := Str("mobile")])])]

  /** Creating Ann with the phone "555-1234" labelled "mobile" and reading
      the new contact back gives her given name, the number's digits as
      the normalised number, and the mobile label. */
  lemma CreateAnnExample(provider: Provider, rawId: string, contactId: string, displayName: Option<string>)
    requires rawId !in provider.rawContacts && contactId !in provider.contacts.byId && IsProviderId(contactId)
    ensures CreateContact(Some(provider), AnnPayload, rawId, contactId, displayName).Success?
    ensures var (p, record) := CreateContact(Some(provider), AnnPayload, rawId, contactId, displayName).value;
      && GetContact(Some(p), record.id, true, false, false) == Some(record)
      && record.properties.value.name.givenName == Some("Ann")
      && |record.properties.value.phones| == 1
      && record.properties.value.phones[0].normalizedNumber == "5551234"
      && record.properties.value.phones[0].labelText == "mobile"
  {
    assert !BatchRejects(AnnPayload) by {
      AnnStagedRows();
    }
    CreatedContactHoldsStagedRows(provider, AnnPayload, rawId, contactId, displayName);
    AnnStagedRows();
    AnnReadBack(contactId, displayName);
  }

  /** What a contact holding Ann's rows reads back as. */
  lemma AnnReadBack(contactId: string, displayName: Option<string>)
    ensures var rows := [NameData(Some(Str("Ann")), None, None, None, None), PhoneData("555-1234", PhoneMobile)];
      var props := ProjectContact(contactId, ContactOfRows(rows, displayName), true, false, false).properties.value;
      && props.name.givenName == Some("Ann")
      && |props.phones| == 1
      && props.phones[0].normalizedNumber == "5551234"
      && props.phones[0].labelText == "mobile"
  {
    var rows := [NameData(Some(Str("Ann")), None, None, None, None), PhoneData("555-1234", PhoneMobile)];
    var c := ContactOfRows(rows, displayName);
    assert Collect(rows, PickName) == [NameRow(Some("Ann"), None, None, None, None)] by {
      assert rows[1..] == [PhoneData("555-1234", PhoneMobile)];
      assert rows[1..][1..] == [];
    }
    assert Collect(rows, PickPhone) == [PhoneRow(Some("555-1234"), Some(PhoneMobile), None)] by {
      assert rows[1..] == [PhoneData("555-1234", PhoneMobile)];
      assert rows[1..][1..] == [];
    }
    DigitsOf555Example();
  }

  /** The rows staged for Ann: her name and one mobile phone. */
  lemma AnnStagedRows()
    ensures StagedRows(AnnPayload) == Success([
      NameData(Some(Str("Ann")), None, None, None, None),
      PhoneData("555-1234", PhoneMobile)])
  {
    var name := NameData(Some(Str("Ann")), None, None, None, None);
    var phone := PhoneData("555-1234", PhoneMobile);
    assert NameRows(AnnPayload) == Success([name]) by {
      assert NameOf(GetDict(AnnPayload, "name").value) == name;
    }
    assert PhoneRows(GetList(AnnPayload, "phones").value) == Success([phone]) by {
      AnnPhoneRows();
    }
    assert GetList(AnnPayload, "emails").None?;
    assert OrganizationRows(AnnPayload) == [] by {
      assert GetDict(AnnPayload, "organization").None?;
    }
    assert NoteRows(AnnPayload) == [] by {
      assert GetString(AnnPayload, "note").None?;
    }
    assert [name] + [phone] + [] + [] + [] == [name, phone];
  }

  lemma AnnPhoneRows()
    ensures PhoneRows(GetList(AnnPayload, "phones").value) == Success([PhoneData("555-1234", PhoneMobile)])
  {
    var item := Dict(map["number" := Str("555-1234"), "label" := Str("mobile")]);
    assert GetList(AnnPayload, "phones") == Some([item]);
    assert HasNumber(item) by {
      assert "555-1234"[0] == '5';
    }
    assert PhoneItem(item) == PhoneData("555-1234", PhoneMobile) by {
      assert RootLower("mobile") == "mobile" by { RootLowerAscii("mobile"); }
    }
    assert Stage([item], PhoneItems) == [PhoneItem(item)] by {
      assert [item][1..] == [];
    }
  }
}
