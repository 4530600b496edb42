# contacts_bridge, modelled in Dafny

contacts_bridge is a Flutter plugin that reads and writes the device address
book. It has one backend per platform: Kotlin over Android's
ContactsContract provider, and Swift over the Contacts framework on iOS and
macOS. This project models the mapping layer of both backends:

- **Label normaliser (Android).** The integer `TYPE` codes of phone, email,
  postal, website and event rows become label strings, and label strings
  become codes again.
- **Record projection.** Provider rows (Android) and fetched `CNContact`
  values (Darwin) become the record map sent over the method channel. On
  Darwin this is `contactToDict`, which reads only the keys that were
  fetched.
- **Record builder.**
  - Android: the insert batch `createContact` stages, and the
    `updateContact` stub.
  - Darwin: `createContact`, the partial-merge `updateContact`,
    `deleteContact`, `dictToContactMutableCopy` and `ContactsBridgeError`.
- **Query and lookup.** `getAllContacts`, `getContact` and
  `searchContacts` on both backends: the keys fetched, the `LIKE` selection,
  the optional sort by name, and the `*Fetched` flags.

The address book is a `Store`: records keyed by id, plus an enumeration
order. A channel payload is a dynamic `Value`, so the source's casts are
modelled as written: `as? String`, Swift's checked `as? [[String: Any]]`
and Kotlin's unchecked `as? List<Map<…>>`. Framework services whose
behaviour belongs to the platform are parameters:

- Android: the provider's collation of text values for `ORDER BY … ASC`;
  NULL names sort before every text value, as SQLite orders them.
- Darwin: full-name formatting, label localisation, the decimal-digit set,
  name matching, `localizedCaseInsensitiveCompare`, and whether the OS has
  the phonetic-organisation key.

Modules, one per file:

| module | what it holds |
|---|---|
| `Wrappers` | `Option` and `Result` |
| `Text` | ASCII case folding, Kotlin's lower-casing of labels, character filtering, `split` and join, Kotlin integer parsing and printing |
| `Values` | the channel value type and its typed accessors |
| `Store` | the address book |
| `Sorting` | sorting by a key under a total preorder |
| `SqlLike` | SQLite `LIKE` |
| `Schema` | the record entries |
| `AndroidLabels` | the Android label normaliser |
| `AndroidProjection` | the Android row projection |
| `AndroidOperations` | the Android operations |
| `DarwinContacts` | `CNContact`, keys and the platform services |
| `DarwinConverters` | the two Darwin converters |
| `DarwinOperations` | the Darwin operations and errors |

Source paths below are relative to the repository root:

- `android/src/main/kotlin/com/ahmtydn/contacts_bridge/ContactsBridgePlugin+Helpers.kt` (the Kotlin helpers)
- `android/src/main/kotlin/com/ahmtydn/contacts_bridge/ContactsBridgePlugin+Operations.kt` (the Kotlin operations)
- `darwin/Classes/ContactsBridgePlugin+Converters.swift` (the Swift converters)
- `darwin/Classes/ContactsBridgePlugin+Operations.swift` (the Swift operations)

## Model

| member | source | states |
|---|---|---|
| AndroidLabels.PhoneLabel | android/src/main/kotlin/com/ahmtydn/contacts_bridge/ContactsBridgePlugin+Helpers.kt:350-363 | each standard phone code gives its fixed label; CUSTOM gives the custom text, or "custom" when that is empty; any other code gives "other" |
| AndroidLabels.PhoneType | android/src/main/kotlin/com/ahmtydn/contacts_bridge/ContactsBridgePlugin+Helpers.kt:365-376 | the code is always a standard phone code; a null label gives OTHER; the label is lower-cased as Kotlin does, so U+212A KELVIN SIGN counts as "k"; PhoneTypeOtherwiseOther states that every unrecognised label gives OTHER |
| AndroidLabels.EmailLabel | android/src/main/kotlin/com/ahmtydn/contacts_bridge/ContactsBridgePlugin+Helpers.kt:378-387 | the email table, with the custom escape, and "other" for unknown codes |
| AndroidLabels.EmailType | android/src/main/kotlin/com/ahmtydn/contacts_bridge/ContactsBridgePlugin+Helpers.kt:389-396 | the code is always a standard email code; a null label gives OTHER; the label is lower-cased as Kotlin does |
| AndroidLabels.AddressLabel | android/src/main/kotlin/com/ahmtydn/contacts_bridge/ContactsBridgePlugin+Helpers.kt:398-406 | the postal table, with the custom escape, and "other" otherwise |
| AndroidLabels.WebsiteLabel | android/src/main/kotlin/com/ahmtydn/contacts_bridge/ContactsBridgePlugin+Helpers.kt:408-420 | the website table, with the custom escape, and "other" otherwise |
| AndroidLabels.EventLabel | android/src/main/kotlin/com/ahmtydn/contacts_bridge/ContactsBridgePlugin+Helpers.kt:422-430 | the event table, with the custom escape, and "other" otherwise |
| AndroidLabels.PhoneCodeRoundTrip | android/src/main/kotlin/com/ahmtydn/contacts_bridge/ContactsBridgePlugin+Helpers.kt:350-376 | code to label to code is the identity on every standard phone code, the mixed-case "faxWork" and "faxHome" included |
| AndroidLabels.PhoneLabelRoundTrip | android/src/main/kotlin/com/ahmtydn/contacts_bridge/ContactsBridgePlugin+Helpers.kt:350-376 | label to code to label gives back every label of the closed phone vocabulary |
| AndroidLabels.PhoneTypeIgnoresCase | android/src/main/kotlin/com/ahmtydn/contacts_bridge/ContactsBridgePlugin+Helpers.kt:366 | the reverse mapping depends only on the lower-cased label |
| AndroidLabels.PhoneTypeMobileSynonyms | android/src/main/kotlin/com/ahmtydn/contacts_bridge/ContactsBridgePlugin+Helpers.kt:365-376 | a label selects MOBILE if and only if it lower-cases to "mobile" or "cell" |
| AndroidLabels.PhoneTypeOtherwiseOther | android/src/main/kotlin/com/ahmtydn/contacts_bridge/ContactsBridgePlugin+Helpers.kt:365-376 | every label that does not lower-case to one of the eight recognised phone words maps to OTHER, never to CUSTOM, so a custom phone label is lost |
| AndroidLabels.PhoneCustomRoundTripLossy | android/src/main/kotlin/com/ahmtydn/contacts_bridge/ContactsBridgePlugin+Helpers.kt:350-376 | a custom phone label never maps back to CUSTOM; "Gym" and the empty label come back as OTHER |
| AndroidLabels.PhoneLabelToCodeNotInjective | android/src/main/kotlin/com/ahmtydn/contacts_bridge/ContactsBridgePlugin+Helpers.kt:350-376 | the custom label "cell" and the MOBILE code are told apart going out but merged coming back |
| AndroidLabels.EmailCodeRoundTrip | android/src/main/kotlin/com/ahmtydn/contacts_bridge/ContactsBridgePlugin+Helpers.kt:378-396 | code to label to code is the identity on the four standard email codes |
| AndroidLabels.EmailTypeOtherwiseOther | android/src/main/kotlin/com/ahmtydn/contacts_bridge/ContactsBridgePlugin+Helpers.kt:389-396 | every label that does not lower-case to home, work or mobile maps to OTHER, so a custom email label is lost |
| AndroidLabels.KelvinSignLabels | android/src/main/kotlin/com/ahmtydn/contacts_bridge/ContactsBridgePlugin+Helpers.kt:365-396 | "wor" followed by U+212A KELVIN SIGN is the work label for phones and for emails, because Kotlin lower-cases that sign to "k" |
| AndroidLabels.CustomLabelsVerbatim | android/src/main/kotlin/com/ahmtydn/contacts_bridge/ContactsBridgePlugin+Helpers.kt:350-430 | in all five categories, CUSTOM gives the custom text verbatim, or "custom" when there is none |
| AndroidProjection.ProjectName | android/src/main/kotlin/com/ahmtydn/contacts_bridge/ContactsBridgePlugin+Helpers.kt:46-75 | only the first StructuredName row counts; its five components are present, NULL reading as ""; with no row the name map is empty; the other components are never set |
| AndroidProjection.ProjectPhone | android/src/main/kotlin/com/ahmtydn/contacts_bridge/ContactsBridgePlugin+Helpers.kt:89-101 | number as stored ("" for NULL); normalised number of ASCII digits only; label from the type and custom label; the raw type kept |
| AndroidProjection.ProjectPhones | android/src/main/kotlin/com/ahmtydn/contacts_bridge/ContactsBridgePlugin+Helpers.kt:78-105 | one phone per row, in row order |
| AndroidProjection.NormalizedNumberKeepsDigits | android/src/main/kotlin/com/ahmtydn/contacts_bridge/ContactsBridgePlugin+Helpers.kt:97 | the normalised number has only 0-9 and keeps each digit of the number as often as it occurs, in order |
| AndroidProjection.NormalizedNumberOfDigits | android/src/main/kotlin/com/ahmtydn/contacts_bridge/ContactsBridgePlugin+Helpers.kt:97 | a number that is all digits is its own normalised form |
| AndroidProjection.NormalizedNumberExample | android/src/main/kotlin/com/ahmtydn/contacts_bridge/ContactsBridgePlugin+Helpers.kt:97 | "555-1234" is reported with normalised number "5551234" |
| AndroidProjection.NullPhoneTypeIsCustom | android/src/main/kotlin/com/ahmtydn/contacts_bridge/ContactsBridgePlugin+Helpers.kt:92-98 | a NULL TYPE column reads as 0, which is CUSTOM, so such a phone carries its custom label or "custom" |
| AndroidProjection.ProjectEmailTypeRoundTrip | android/src/main/kotlin/com/ahmtydn/contacts_bridge/ContactsBridgePlugin+Helpers.kt:108-135 | an email row of a standard type reads back with a label that maps to that type again; a NULL type reads as CUSTOM, and its label then never maps back to CUSTOM |
| AndroidProjection.TypedEmailsReadBack | android/src/main/kotlin/com/ahmtydn/contacts_bridge/ContactsBridgePlugin+Helpers.kt:108-135 | email rows of standard types read back in order, each with its address and a label that maps back to its type |
| AndroidProjection.ProjectAddressLabels | android/src/main/kotlin/com/ahmtydn/contacts_bridge/ContactsBridgePlugin+Helpers.kt:137-180 | a NULL postal type reads as CUSTOM, an unknown code reads as "other", and two standard codes with the same label are the same code |
| AndroidProjection.ProjectWebsiteLabels | android/src/main/kotlin/com/ahmtydn/contacts_bridge/ContactsBridgePlugin+Helpers.kt:213-240 | a NULL website type reads as CUSTOM, an unknown code reads as "other", and two standard codes with the same label are the same code |
| AndroidProjection.ProjectOrganizations | android/src/main/kotlin/com/ahmtydn/contacts_bridge/ContactsBridgePlugin+Helpers.kt:182-211 | exactly the rows whose company, title or department is non-empty, each as its organisation |
| AndroidProjection.ProjectOrganizationsAppend | android/src/main/kotlin/com/ahmtydn/contacts_bridge/ContactsBridgePlugin+Helpers.kt:194-207 | rows are dropped one by one, so the surviving organisations keep their row order |
| AndroidProjection.EmptyOrganizationRowDropped | android/src/main/kotlin/com/ahmtydn/contacts_bridge/ContactsBridgePlugin+Helpers.kt:199 | a row whose three columns are empty or NULL contributes nothing, wherever it sits |
| AndroidProjection.ProjectNotes | android/src/main/kotlin/com/ahmtydn/contacts_bridge/ContactsBridgePlugin+Helpers.kt:242-266 | exactly the non-empty notes of the rows |
| AndroidProjection.ProjectNotesAppend | android/src/main/kotlin/com/ahmtydn/contacts_bridge/ContactsBridgePlugin+Helpers.kt:254-262 | notes keep their row order |
| AndroidProjection.ProjectNotesKeepsNonEmpty | android/src/main/kotlin/com/ahmtydn/contacts_bridge/ContactsBridgePlugin+Helpers.kt:256 | when no note is empty, every row is reported, in order |
| AndroidProjection.ParseStartDateAsWritten | android/src/main/kotlin/com/ahmtydn/contacts_bridge/ContactsBridgePlugin+Helpers.kt:286-296 | fewer than three parts give no date parts; parts read with toIntOrNull are 32-bit values |
| AndroidProjection.ParseStartDate | android/src/main/kotlin/com/ahmtydn/contacts_bridge/ContactsBridgePlugin+Helpers.kt:286-296 | corrected: every date not of the no-year form is parsed as before; the no-year form gives no year |
| AndroidProjection.DatePartParses | android/src/main/kotlin/com/ahmtydn/contacts_bridge/ContactsBridgePlugin+Helpers.kt:293-295 | toIntOrNull reads a digit run that fits in 32 bits as its value |
| AndroidProjection.FullDateRoundTrip | android/src/main/kotlin/com/ahmtydn/contacts_bridge/ContactsBridgePlugin+Helpers.kt:286-296 | "YYYY-MM-DD", zero padding allowed, gives back year, month and day |
| AndroidProjection.AsWrittenMisreadsNoYearDate | android/src/main/kotlin/com/ahmtydn/contacts_bridge/ContactsBridgePlugin+Helpers.kt:286-296 | as written, "--05-12" gives no year, no month, and day 5 |
| AndroidProjection.NoYearDateRoundTrip | android/src/main/kotlin/com/ahmtydn/contacts_bridge/ContactsBridgePlugin+Helpers.kt:286-296 | corrected: "--MM-DD" gives no year, the month and the day |
| AndroidProjection.ShortDateHasNoParts | android/src/main/kotlin/com/ahmtydn/contacts_bridge/ContactsBridgePlugin+Helpers.kt:290-296 | a date with fewer than two dashes gives no date parts |
| AndroidProjection.ProjectEventDates | android/src/main/kotlin/com/ahmtydn/contacts_bridge/ContactsBridgePlugin+Helpers.kt:264-300 | an event read from the provider carries the as-written date parse: "YYYY-MM-DD" gives its three parts, a date with fewer than three parts gives none, and "--05-12" gives only day 5 |
| AndroidProjection.ProjectProperties | android/src/main/kotlin/com/ahmtydn/contacts_bridge/ContactsBridgePlugin+Helpers.kt:15-43 | the first name row; each phone, email, postal, website and event entry is the projection of its row, in row order; every non-empty organisation and note row is reported and no empty one is |
| AndroidProjection.ProjectContact | android/src/main/kotlin/com/ahmtydn/contacts_bridge/ContactsBridgePlugin+Operations.kt:46-69 | id; display name ("" for NULL); starred iff STARRED is 1; the three flags equal the request; properties iff requested; pictures only when requested |
| AndroidOperations.Ordered | android/src/main/kotlin/com/ahmtydn/contacts_bridge/ContactsBridgePlugin+Operations.kt:34-42 | the cursor order is a rearrangement of the rows: provider order unsorted; sorted, rows with a NULL display name come first and the named rows follow in collation order |
| AndroidOperations.NameOrderIsTotalPreorder | android/src/main/kotlin/com/ahmtydn/contacts_bridge/ContactsBridgePlugin+Operations.kt:34 | ordering NULL before every name, and names by the collation, is a total preorder whenever the collation is one |
| AndroidOperations.NullNameSortsFirst | android/src/main/kotlin/com/ahmtydn/contacts_bridge/ContactsBridgePlugin+Operations.kt:34-42 | a contact named "" listed before one with a NULL name comes out after it when sorted |
| AndroidOperations.ProjectRowsSorted | android/src/main/kotlin/com/ahmtydn/contacts_bridge/ContactsBridgePlugin+Operations.kt:44-72 | projecting rows in cursor order keeps it: contacts whose stored name is NULL come first, and named records follow the collation on the name shown |
| AndroidOperations.GetAllContacts | android/src/main/kotlin/com/ahmtydn/contacts_bridge/ContactsBridgePlugin+Operations.kt:17-76 | no ContentResolver gives []; every record carries the request flags and is the projection of the stored contact under its id |
| AndroidOperations.GetAllListsEveryContact | android/src/main/kotlin/com/ahmtydn/contacts_bridge/ContactsBridgePlugin+Operations.kt:36-73 | every stored contact is listed, one record per enumerated row |
| AndroidOperations.GetAllKeepsProviderOrder | android/src/main/kotlin/com/ahmtydn/contacts_bridge/ContactsBridgePlugin+Operations.kt:34 | unsorted, records follow the provider's enumeration order |
| AndroidOperations.GetAllSortedByName | android/src/main/kotlin/com/ahmtydn/contacts_bridge/ContactsBridgePlugin+Operations.kt:34 | sorted, contacts with a NULL display name are listed first, and the named ones follow in ascending order under any total-preorder collation |
| AndroidOperations.GetContact | android/src/main/kotlin/com/ahmtydn/contacts_bridge/ContactsBridgePlugin+Operations.kt:79-134 | no ContentResolver gives null; otherwise found iff the id is an integer literal naming a stored contact ("007" names 7), and then the projection of that contact, reported under the id as asked |
| AndroidOperations.SelectedKey | android/src/main/kotlin/com/ahmtydn/contacts_bridge/ContactsBridgePlugin+Operations.kt:97-98 | `_ID = ?` selects by number: any integer literal selects the contact whose id is its canonical decimal form, other text selects nothing, and a canonical id selects itself |
| AndroidOperations.GetParsesTheId | android/src/main/kotlin/com/ahmtydn/contacts_bridge/ContactsBridgePlugin+Operations.kt:97-98 | looking up "007" finds the contact "7" and reports it as "007"; "abc" finds nothing |
| AndroidOperations.GetContactAgreesWithGetAll | android/src/main/kotlin/com/ahmtydn/contacts_bridge/ContactsBridgePlugin+Operations.kt:79-134 | a lookup by id gives the record the full listing holds for that contact |
| AndroidOperations.NoFlagsNoGroups | android/src/main/kotlin/com/ahmtydn/contacts_bridge/ContactsBridgePlugin+Operations.kt:54-69 | with every flag off, no property groups, no pictures, and all three flags false |
| AndroidOperations.Matching | android/src/main/kotlin/com/ahmtydn/contacts_bridge/ContactsBridgePlugin+Operations.kt:152-153 | keeps exactly the rows whose display name is LIKE `%query%` |
| AndroidOperations.SearchContacts | android/src/main/kotlin/com/ahmtydn/contacts_bridge/ContactsBridgePlugin+Operations.kt:136-188 | every result is a stored contact whose name matches; thumbnails and photos are never fetched |
| AndroidOperations.SearchFindsEveryMatch | android/src/main/kotlin/com/ahmtydn/contacts_bridge/ContactsBridgePlugin+Operations.kt:152-160 | every matching stored contact is found |
| AndroidOperations.SearchSortedByName | android/src/main/kotlin/com/ahmtydn/contacts_bridge/ContactsBridgePlugin+Operations.kt:154 | sorted search results are in ascending display-name order under the collation; no result has a NULL name |
| AndroidOperations.SearchIsSubstringMatch | android/src/main/kotlin/com/ahmtydn/contacts_bridge/ContactsBridgePlugin+Operations.kt:152-153 | for a query without '%' or '_', a contact is found iff its display name contains the query, ignoring ASCII case |
| AndroidOperations.SearchEmptyQueryListsAll | android/src/main/kotlin/com/ahmtydn/contacts_bridge/ContactsBridgePlugin+Operations.kt:153 | when every contact has a display name, searching "" equals the listing without pictures |
| AndroidOperations.SearchSkipsNullNames | android/src/main/kotlin/com/ahmtydn/contacts_bridge/ContactsBridgePlugin+Operations.kt:152 | a contact with a NULL display name is never found, not even by "" |
| AndroidOperations.SearchUnderscoreExample | android/src/main/kotlin/com/ahmtydn/contacts_bridge/ContactsBridgePlugin+Operations.kt:153 | '_' is not escaped: "J_n" finds "Jan", which does not contain "J_n" |
| AndroidOperations.ContactIdFromRawContactId | android/src/main/kotlin/com/ahmtydn/contacts_bridge/ContactsBridgePlugin+Helpers.kt:331-348 | the contact a raw contact belongs to, or the raw id itself when no row is found |
| AndroidOperations.NameRows | android/src/main/kotlin/com/ahmtydn/contacts_bridge/ContactsBridgePlugin+Operations.kt:203-216 | one StructuredName insert whenever "name" is a map; fails iff withValue rejects a component |
| AndroidOperations.Selection | android/src/main/kotlin/com/ahmtydn/contacts_bridge/ContactsBridgePlugin+Operations.kt:219-252 | the kept phone or email items are items of the list with a usable number or address, and every such item is kept |
| AndroidOperations.StageFromSelected | android/src/main/kotlin/com/ahmtydn/contacts_bridge/ContactsBridgePlugin+Operations.kt:219-252 | every staged insert is the insert of a selected item, and every selected item's insert is staged |
| AndroidOperations.SelectionAll | android/src/main/kotlin/com/ahmtydn/contacts_bridge/ContactsBridgePlugin+Operations.kt:219-252 | when every item has a usable value, nothing is skipped |
| AndroidOperations.StageAll | android/src/main/kotlin/com/ahmtydn/contacts_bridge/ContactsBridgePlugin+Operations.kt:219-252 | when every item is selected, one row per item, in order |
| AndroidOperations.PhoneRows | android/src/main/kotlin/com/ahmtydn/contacts_bridge/ContactsBridgePlugin+Operations.kt:219-234 | fails iff an item is not a map; otherwise one insert per item with a non-blank number, typed by PhoneType |
| AndroidOperations.EmailRows | android/src/main/kotlin/com/ahmtydn/contacts_bridge/ContactsBridgePlugin+Operations.kt:237-252 | fails iff an item is not a map; otherwise one insert per item with a non-blank email, typed by EmailType |
| AndroidOperations.PhoneRowsOneToOne | android/src/main/kotlin/com/ahmtydn/contacts_bridge/ContactsBridgePlugin+Operations.kt:219-234 | phone items that all have numbers give one insert each; items that all lack one give none |
| AndroidOperations.OrganizationRows | android/src/main/kotlin/com/ahmtydn/contacts_bridge/ContactsBridgePlugin+Operations.kt:255-270 | one Organization insert iff "organization" is a map with a non-blank name or job title |
| AndroidOperations.NoteRows | android/src/main/kotlin/com/ahmtydn/contacts_bridge/ContactsBridgePlugin+Operations.kt:273-282 | one Note insert iff "note" is a non-blank string |
| AndroidOperations.StagedRows | android/src/main/kotlin/com/ahmtydn/contacts_bridge/ContactsBridgePlugin+Operations.kt:203-282 | staging fails exactly when building the batch throws; every staged phone has a standard type |
| AndroidOperations.BuildCreateBatch | android/src/main/kotlin/com/ahmtydn/contacts_bridge/ContactsBridgePlugin+Operations.kt:195-282 | the raw-contact insert first, then one Data insert per staged row, each referring back to operation 0 |
| AndroidOperations.ApplyBatch | android/src/main/kotlin/com/ahmtydn/contacts_bridge/ContactsBridgePlugin+Operations.kt:284-291 | the new contact holds the batch's Data rows; the raw contact maps to it; no other contact changes |
| AndroidOperations.CreateContact | android/src/main/kotlin/com/ahmtydn/contacts_bridge/ContactsBridgePlugin+Operations.kt:190-292 | fails iff there is no resolver or the batch is rejected; otherwise returns what a lookup of the new id with properties returns; no other contact changes |
| AndroidOperations.CreatedContactHoldsStagedRows | android/src/main/kotlin/com/ahmtydn/contacts_bridge/ContactsBridgePlugin+Operations.kt:190-292 | the returned record projects a contact holding exactly the staged rows |
| AndroidOperations.CreatedPhonesReadBack | android/src/main/kotlin/com/ahmtydn/contacts_bridge/ContactsBridgePlugin+Operations.kt:219-234 | the phones read back are the staged phone inserts in order, each with its digits and a standard label that maps back to its type |
| AndroidOperations.TypedPhonesReadBack | android/src/main/kotlin/com/ahmtydn/contacts_bridge/ContactsBridgePlugin+Helpers.kt:89-101 | a phone row with a number and a standard type reads back as that number, its digits, and the type's label |
| AndroidOperations.UpdateContact | android/src/main/kotlin/com/ahmtydn/contacts_bridge/ContactsBridgePlugin+Operations.kt:294-302 | the id is required; nothing is written; the result is the contact the id selects by number, with properties, or "Failed to retrieve updated contact" |
| AndroidOperations.UpdateIgnoresPayload | android/src/main/kotlin/com/ahmtydn/contacts_bridge/ContactsBridgePlugin+Operations.kt:294-302 | two payloads with the same id give the same result: the fields sent are ignored |
| AndroidOperations.DeleteContact | android/src/main/kotlin/com/ahmtydn/contacts_bridge/ContactsBridgePlugin+Operations.kt:304-309 | fails iff the id does not parse as a 64-bit integer; otherwise the contact with that numeric id and its raw contacts are gone, and nothing else changes |
| AndroidOperations.DeleteThenGetIsNotFound | android/src/main/kotlin/com/ahmtydn/contacts_bridge/ContactsBridgePlugin+Operations.kt:304-309 | after deleting by an integer id, looking the same id up finds nothing |
| AndroidOperations.DeleteTwiceSucceeds | android/src/main/kotlin/com/ahmtydn/contacts_bridge/ContactsBridgePlugin+Operations.kt:304-309 | a second delete of the same id succeeds and changes nothing |
| AndroidOperations.DeleteParsesTheId | android/src/main/kotlin/com/ahmtydn/contacts_bridge/ContactsBridgePlugin+Operations.kt:307 | "007" deletes contact "7"; "abc" fails with the NumberFormatException message |
| AndroidOperations.CreateAnnExample | android/src/main/kotlin/com/ahmtydn/contacts_bridge/ContactsBridgePlugin+Operations.kt:190-292 | creating Ann with a mobile "555-1234" reads back her name and that phone, normalised to "5551234" |
| AndroidOperations.AnnStagedRows | android/src/main/kotlin/com/ahmtydn/contacts_bridge/ContactsBridgePlugin+Operations.kt:203-282 | Ann's payload stages her name row and one MOBILE phone row |
| SqlLike.LikeContains | android/src/main/kotlin/com/ahmtydn/contacts_bridge/ContactsBridgePlugin+Operations.kt:152-153 | for a wildcard-free query, `%query%` matches exactly the strings that contain it, ignoring ASCII case |
| SqlLike.LikeLeadingPercent | android/src/main/kotlin/com/ahmtydn/contacts_bridge/ContactsBridgePlugin+Operations.kt:153 | a leading '%' matches iff the rest of the pattern matches some suffix |
| SqlLike.LikeLiteralPrefix | android/src/main/kotlin/com/ahmtydn/contacts_bridge/ContactsBridgePlugin+Operations.kt:153 | a wildcard-free pattern followed by '%' matches iff it is a case-insensitive prefix |
| SqlLike.LikeEmptyQuery | android/src/main/kotlin/com/ahmtydn/contacts_bridge/ContactsBridgePlugin+Operations.kt:153 | the empty query's pattern "%%" matches every name |
| SqlLike.UnderscoreIsAWildcard | android/src/main/kotlin/com/ahmtydn/contacts_bridge/ContactsBridgePlugin+Operations.kt:153 | "%J_n%" matches "Jan", which does not contain "J_n" |
| Text.RootLowerChar | android/src/main/kotlin/com/ahmtydn/contacts_bridge/ContactsBridgePlugin+Helpers.kt:366 | the ASCII capitals lower-case to their small letters and U+212A KELVIN SIGN to "k", as `lowercase()` does |
| Text.RootLowerIdempotent | android/src/main/kotlin/com/ahmtydn/contacts_bridge/ContactsBridgePlugin+Helpers.kt:366 | lower-casing a label twice is lower-casing it once |
| Text.RootLowerBeyondAscii | android/src/main/kotlin/com/ahmtydn/contacts_bridge/ContactsBridgePlugin+Helpers.kt:366 | Kotlin's lower-casing is not ASCII folding: "wor" followed by U+212A becomes "work", which ASCII folding does not give |
| Text.KeepCounts | android/src/main/kotlin/com/ahmtydn/contacts_bridge/ContactsBridgePlugin+Helpers.kt:97 | each kept character occurs in the result as often as in the input |
| Text.KeepAppend | android/src/main/kotlin/com/ahmtydn/contacts_bridge/ContactsBridgePlugin+Helpers.kt:97 | filtering distributes over concatenation, so kept characters keep their order |
| Text.Split | android/src/main/kotlin/com/ahmtydn/contacts_bridge/ContactsBridgePlugin+Helpers.kt:286 | at least one part; no part holds the delimiter; joining the parts gives the input back |
| Text.SplitJoin | android/src/main/kotlin/com/ahmtydn/contacts_bridge/ContactsBridgePlugin+Helpers.kt:286 | splitting the join of delimiter-free parts gives the parts back |
| Text.ParseDecimal | android/src/main/kotlin/com/ahmtydn/contacts_bridge/ContactsBridgePlugin+Helpers.kt:293-295 | a parsed value is in range and comes from an optional sign followed by digits |
| Text.ParseIntToString | android/src/main/kotlin/com/ahmtydn/contacts_bridge/ContactsBridgePlugin+Operations.kt:307 | parsing the decimal rendering of any in-range integer gives it back |
| Text.ParseNotInjective | android/src/main/kotlin/com/ahmtydn/contacts_bridge/ContactsBridgePlugin+Operations.kt:307 | parsing accepts "007" and "+7" as 7, so different ids parse to one number |
| Sorting.SortBy | darwin/Classes/ContactsBridgePlugin+Operations.swift:75-81 | the result is a permutation of the input, sorted by the key under any total preorder |
| Sorting.CaseInsensitiveExample | darwin/Classes/ContactsBridgePlugin+Operations.swift:75-81 | "bob", "Alice", "charlie" sort as "Alice", "bob", "charlie" under a case-insensitive order |
| DarwinConverters.FetchedStrings | darwin/Classes/ContactsBridgePlugin+Converters.swift:25-66 | an entry exactly for each name or organisation property whose key was fetched, holding the stored string |
| DarwinConverters.Digits | darwin/Classes/ContactsBridgePlugin+Converters.swift:68-79 | only decimal digits, each digit of the number kept as often as it occurs; DigitsAppend adds that they keep their order |
| DarwinConverters.DigitsAppend | darwin/Classes/ContactsBridgePlugin+Converters.swift:74 | the digits of a concatenation are the digits of each part joined, so the digits keep their order |
| DarwinConverters.DigitsOfDigits | darwin/Classes/ContactsBridgePlugin+Converters.swift:74 | a number made only of digits is its own digit string, so normalising twice is normalising once |
| DarwinConverters.DateEvent | darwin/Classes/ContactsBridgePlugin+Converters.swift:168-181 | the year is left out exactly when it is undefined; month and day are always present |
| DarwinConverters.Events | darwin/Classes/ContactsBridgePlugin+Converters.swift:151-183 | the fetched birthday comes first, then one event per fetched date, in order |
| DarwinConverters.ContactToDict | darwin/Classes/ContactsBridgePlugin+Converters.swift:17-210 | the record carries the contact's identifier; a name or organisation entry is present iff its key was fetched; unfetched phones and emails are empty and an unfetched note is ""; never starred, properties flagged fetched, and an image flagged iff its key was fetched and the image exists |
| DarwinConverters.ContactToDictUnfetchedIsEmpty | darwin/Classes/ContactsBridgePlugin+Converters.swift:17-192 | a list whose key was not fetched is empty; an unfetched note is ""; name and organisation hold only fetched entries |
| DarwinConverters.ContactToDictFetchedStrings | darwin/Classes/ContactsBridgePlugin+Converters.swift:25-66 | for every name and organisation entry: the entry is present iff its key was fetched, and then holds the stored string, even "" |
| DarwinConverters.ContactToDictNameEntries | darwin/Classes/ContactsBridgePlugin+Converters.swift:25-52 | each of the nine name strings sits under its own entry when its key was fetched |
| DarwinConverters.ContactToDictOrganizationEntries | darwin/Classes/ContactsBridgePlugin+Converters.swift:55-65 | organisation name, job title and department sit under "name", "jobTitle" and "department" when fetched |
| DarwinConverters.ContactToDictPhones | darwin/Classes/ContactsBridgePlugin+Converters.swift:68-79 | one phone per stored number, in order, with its localised label and its digits; a number of digits only is sent as its own normalised number |
| DarwinConverters.ContactToDictPhoneDigitsInOrder | darwin/Classes/ContactsBridgePlugin+Converters.swift:68-79 | the normalised number keeps the stored number's digits in their order: for a number a + b it is the digits of a followed by those of b |
| DarwinConverters.ContactToDictEvents | darwin/Classes/ContactsBridgePlugin+Converters.swift:151-183 | the birthday event first, its year only when set; then the dates, each with a year only when defined |
| DarwinConverters.EventsInOrder | darwin/Classes/ContactsBridgePlugin+Converters.swift:151-183 | the event list alone: the birthday first when fetched and set, then one event per date in order, each with a year only when defined |
| DarwinConverters.ContactToDictFlags | darwin/Classes/ContactsBridgePlugin+Converters.swift:195-207 | never starred; properties flagged fetched; an image is flagged and sent iff its key was fetched and the contact has it |
| DarwinConverters.LabeledString | darwin/Classes/ContactsBridgePlugin+Converters.swift:236-242 | an entry iff the value key holds a string; the label is the item's label or the fallback |
| DarwinConverters.LabeledItems | darwin/Classes/ContactsBridgePlugin+Converters.swift:236-276 | each entry comes from an item with its value string, and every such item gives an entry |
| DarwinConverters.LabeledItemsAll | darwin/Classes/ContactsBridgePlugin+Converters.swift:236-242 | when every item has its value string, one entry per item, in order |
| DarwinConverters.BuiltLabeledEntries | darwin/Classes/ContactsBridgePlugin+Converters.swift:236-276 | a built entry carries an item's value and its label or the fallback; every item with a value gives one |
| DarwinConverters.DictToContactMutableCopy | darwin/Classes/ContactsBridgePlugin+Converters.swift:212-301 | the new contact has the given identifier and the record's note, or ""; what the record cannot set (phonetic organisation, social profiles, instant messages, dates, images) stays empty |
| DarwinConverters.BuilderKeepsEveryAddress | darwin/Classes/ContactsBridgePlugin+Converters.swift:254-267 | every address item gives an address, in order; missing fields are "", the label defaults to home |
| DarwinConverters.FirstBirthday | darwin/Classes/ContactsBridgePlugin+Converters.swift:284-298 | none iff no event is a birthday with integer month and day; otherwise taken from such an event |
| DarwinConverters.BuilderFirstBirthdayWins | darwin/Classes/ContactsBridgePlugin+Converters.swift:284-298 | the first qualifying birthday event sets the birthday, year included; later events are ignored |
| DarwinConverters.BuilderNoBirthday | darwin/Classes/ContactsBridgePlugin+Converters.swift:284-298 | without a qualifying birthday event the contact has no birthday |
| DarwinConverters.BuilderNameComponents | darwin/Classes/ContactsBridgePlugin+Converters.swift:212-233 | every name part comes from the "name" map and every organisation field from the "organization" map, "" when missing or not a string; without such a map all of its parts are ""; unset lists stay empty |
| DarwinConverters.BuiltFromGroups | darwin/Classes/ContactsBridgePlugin+Converters.swift:212-233 | each name and organisation property of a built contact is the entry of the same name in its group |
| DarwinConverters.RoundTripNames | darwin/Classes/ContactsBridgePlugin+Converters.swift:216-226 | a contact fetched with every name key, sent as a record and built back, keeps all nine name strings |
| DarwinConverters.RoundTripOrganization | darwin/Classes/ContactsBridgePlugin+Converters.swift:229-233 | the same round trip keeps organisation, job title and department |
| DarwinConverters.RoundTripPhones | darwin/Classes/ContactsBridgePlugin+Converters.swift:236-242 | the same round trip keeps every phone number in order; the label comes back as its localised text |
| DarwinConverters.RoundTripBirthday | darwin/Classes/ContactsBridgePlugin+Converters.swift:284-298 | a fetched birthday with month and day comes back unchanged, year included when set |
| DarwinConverters.RoundTripNote | darwin/Classes/ContactsBridgePlugin+Converters.swift:279-281 | the note comes back as sent: the stored note when fetched, "" otherwise |
| DarwinOperations.FetchKeys | darwin/Classes/ContactsBridgePlugin+Operations.swift:24-65 | descriptor and identifier first; property keys iff requested; phonetic organisation iff requested and the OS has it; each image key iff requested; never the note |
| DarwinOperations.SearchKeys | darwin/Classes/ContactsBridgePlugin+Operations.swift:147-176 | descriptor and identifier first; property keys iff requested; never phonetic organisation, images or note |
| DarwinOperations.NoteNeverRequested | darwin/Classes/ContactsBridgePlugin+Operations.swift:24-65 | the note is available after a fetch or search only if the full-name descriptor covers it |
| DarwinOperations.FirstWithId | darwin/Classes/ContactsBridgePlugin+Operations.swift:136-138 | none iff no row has the id; otherwise a row with that id |
| DarwinOperations.GetContact | darwin/Classes/ContactsBridgePlugin+Operations.swift:86-139 | a found contact is the one stored under the id, fetched with the request's keys |
| DarwinOperations.GetContactFindsStored | darwin/Classes/ContactsBridgePlugin+Operations.swift:136-138 | in a consistent store, found iff the id is stored |
| DarwinOperations.GetAllContacts | darwin/Classes/ContactsBridgePlugin+Operations.swift:17-84 | every listed contact is stored and carries the requested keys |
| DarwinOperations.GetAllListsEveryContact | darwin/Classes/ContactsBridgePlugin+Operations.swift:67-73 | every stored contact is listed, one per enumeration entry |
| DarwinOperations.GetAllKeepsStoreOrder | darwin/Classes/ContactsBridgePlugin+Operations.swift:70-73 | unsorted, contacts come in enumeration order |
| DarwinOperations.GetAllSortedByName | darwin/Classes/ContactsBridgePlugin+Operations.swift:75-81 | sorted, no full name is ascending before the one listed ahead of it |
| DarwinOperations.GetAllFlags | darwin/Classes/ContactsBridgePlugin+Operations.swift:59-65 | a listed record flags an image fetched iff it was requested and the contact has it |
| DarwinOperations.Matching | darwin/Classes/ContactsBridgePlugin+Operations.swift:178-179 | keeps exactly the rows the name predicate matches |
| DarwinOperations.SearchContacts | darwin/Classes/ContactsBridgePlugin+Operations.swift:141-190 | every result is stored, matches the name predicate, and carries the search keys |
| DarwinOperations.SearchFindsEveryMatch | darwin/Classes/ContactsBridgePlugin+Operations.swift:178-179 | every stored contact the predicate matches is found |
| DarwinOperations.SearchSortedByName | darwin/Classes/ContactsBridgePlugin+Operations.swift:181-187 | with sorting, no result's full name is ascending before the one listed ahead of it, under any total preorder |
| DarwinOperations.SearchNeverFetchesImages | darwin/Classes/ContactsBridgePlugin+Operations.swift:147-176 | search results never carry or flag images and lack the phonetic organisation key |
| DarwinOperations.LocalizedDescription | darwin/Classes/ContactsBridgePlugin+Operations.swift:409-420 | the description ends with the error's message, after a non-empty prefix |
| DarwinOperations.DescriptionIdentifiesError | darwin/Classes/ContactsBridgePlugin+Operations.swift:403-421 | two errors with the same description are the same error |
| DarwinOperations.MergeFlat | darwin/Classes/ContactsBridgePlugin+Operations.swift:311-371 | the partial-merge law: each of the ten flat strings is replaced iff the payload holds it as a string and kept otherwise; phones and emails are replaced iff the payload holds a list of dictionaries; every other field is kept |
| DarwinOperations.PartialMergeDetermined | darwin/Classes/ContactsBridgePlugin+Operations.swift:311-371 | the partial-merge law and the kept fields together determine the merged contact |
| DarwinOperations.MergeIdempotent | darwin/Classes/ContactsBridgePlugin+Operations.swift:311-371 | merging the same payload twice is merging it once |
| DarwinOperations.CreateBirthday | darwin/Classes/ContactsBridgePlugin+Operations.swift:281-290 | a birthday iff "birthday" is a map with integer year, month and day |
| DarwinOperations.SaveAndFetch | darwin/Classes/ContactsBridgePlugin+Operations.swift:292-298 | the contact is stored under its id and returned as saved |
| DarwinOperations.CreateContact | darwin/Classes/ContactsBridgePlugin+Operations.swift:192-299 | the new contact is stored under the fresh id, carries it, and nothing else changes |
| DarwinOperations.CreateCopiesFlatStrings | darwin/Classes/ContactsBridgePlugin+Operations.swift:197-231 | each of the ten flat name, organisation and note strings is copied when present as a string and is "" otherwise; properties create never sets stay empty |
| DarwinOperations.CreateBirthdayNeedsEveryPart | darwin/Classes/ContactsBridgePlugin+Operations.swift:281-290 | a birthday iff year, month and day are all integers, and then all three are set |
| DarwinOperations.CreateKeepsEveryAddress | darwin/Classes/ContactsBridgePlugin+Operations.swift:252-264 | every postal address item gives an address, in order, missing fields "" |
| DarwinOperations.CreatePhones | darwin/Classes/ContactsBridgePlugin+Operations.swift:234-240 | each phone comes from an item with a string number, and every such item gives one |
| DarwinOperations.CreateIgnoresNestedPayload | darwin/Classes/ContactsBridgePlugin+Operations.swift:197-240 | as written, a record-shaped payload creates a contact with no given name and no phone |
| DarwinOperations.CreateContactFromRecord | darwin/Classes/ContactsBridgePlugin+Converters.swift:212-301 | corrected create: built by the record converter; stored under the fresh id; nothing else changes |
| DarwinOperations.CreateFromRecordReadsAnn | darwin/Classes/ContactsBridgePlugin+Converters.swift:216-242 | the record-shaped Ann payload creates given name "Ann" and the mobile phone "555-1234" |
| DarwinOperations.CreateFromRecordRoundTrip | darwin/Classes/ContactsBridgePlugin+Converters.swift:212-242 | a fetched contact sent as a record and created again keeps its names and phone numbers |
| DarwinOperations.UpdateContact | darwin/Classes/ContactsBridgePlugin+Operations.swift:301-379 | fails exactly when the id is missing or does not resolve, each with its message; otherwise the stored contact is replaced by its partial merge with the payload, its unmerged fields are kept, and no other contact changes |
| DarwinOperations.UpdateTwiceIsUpdateOnce | darwin/Classes/ContactsBridgePlugin+Operations.swift:301-379 | sending the same update again succeeds and leaves the contact and the store as the first update left them |
| DarwinOperations.MergeNoteOnly | darwin/Classes/ContactsBridgePlugin+Operations.swift:311-371 | a payload of id and note merges as a change of the note alone |
| DarwinOperations.UpdateNoteOnly | darwin/Classes/ContactsBridgePlugin+Operations.swift:301-379 | updating a stored contact with only a note changes the note and nothing else |
| DarwinOperations.DeleteContact | darwin/Classes/ContactsBridgePlugin+Operations.swift:381-392 | fails with not-found iff the id does not resolve; otherwise the contact is gone and the rest are unchanged |
| DarwinOperations.DeleteTwiceFails | darwin/Classes/ContactsBridgePlugin+Operations.swift:381-392 | after a delete, the contact is not found and a second delete fails |
| DarwinOperations.DeleteFindsStored | darwin/Classes/ContactsBridgePlugin+Operations.swift:381-392 | in a consistent store, a delete succeeds iff the id is stored |

## Left out

- Cursor mechanics, ContentResolver queries, `CNContactStore` I/O and threading are not modelled. A query is a function of the store.
- Thumbnail and photo loading (`getContactThumbnail`, `getContactPhoto`, Helpers.kt:305-329) is not modelled. A contact's picture is an opaque optional byte string.
- Failures of `applyBatch` other than a rejected batch, `CNContactStore.execute` errors, and `enumerateContacts` errors are not modelled: the store never fails.
- Permission checks, the method-channel handlers and the plugin classes are not part of this model.
- Aggregation of raw contacts into contacts, the provider's derivation of `DISPLAY_NAME_PRIMARY`, and the framework's `fullName` formatting are not modelled. These are parameters.
- SQLite type affinity is not modelled beyond the `_ID = ?` selection: a staged value is read back as text.
- `unifyResults = true` and linked contacts are not modelled: each stored contact is listed once.
- Locale rules are not modelled. The provider's `ORDER BY` collation, `localizedCaseInsensitiveCompare`, label localisation and `predicateForContacts(matchingName:)` are parameters. Sorting is proved for any total preorder.
- Swift's `sort` is not stable. The model sorts stably, so the order of equal names is a model choice.
- NSNumber bridging (a Bool accepted as an Int by `as? Int`) is not modelled: only integer values read as integers.
- The Android `updateContact` is a stub. It writes nothing and only reads the contact back, and the model says exactly that.
- The Android `deleteContact` ignores the deleted-row count, so an unknown numeric id succeeds. The model follows the code here and reports no not-found error.
- AndroidOperations.SelectedKey: text that SQLite also converts to an integer, such as " 7" with spaces or the real literal "7.0", selects nothing here.
- Text.ParseDecimal: reads ASCII digits only. Kotlin's `toIntOrNull` and `toLong` also accept the other Unicode decimal digits (full-width, Arabic-Indic, …), a set that depends on the runtime's Unicode tables. Such a date part reads as null here.
- AndroidOperations.DeleteContact: through Text.ParseDecimal, an id written in non-ASCII decimal digits such as "７" fails here, where the source deletes the contact with that number.
- Text.RootLowerChar: keeps U+0130 as one character, where Kotlin gives "i" followed by U+0307. Neither form equals an ASCII word, so no label comparison changes.
- DarwinOperations.GetAllContacts: does not state the sorted order in its own contract. The order is stated by `GetAllSortedByName`, which requires the comparison to be a total preorder.
- DarwinOperations.SaveAndFetch: when the fetch after saving finds nothing, the source returns the unsaved contact. The model always finds the saved contact, since its store does not fail.

## Findings

| source | as written | input that shows it | evidently intended | confidence | as-written member | corrected member |
|---|---|---|---|---|---|---|
| android/src/main/kotlin/com/ahmtydn/contacts_bridge/ContactsBridgePlugin+Helpers.kt:286-296 | `startDate.split("-")` reads parts 0, 1 and 2 as year, month and day | the no-year event date "--05-12" splits into "", "", "05", "12", giving no year, no month and day 5 | "--MM-DD" read as no year, month 5, day 12 | not executed | AndroidProjection.AsWrittenMisreadsNoYearDate | AndroidProjection.NoYearDateRoundTrip |
| darwin/Classes/ContactsBridgePlugin+Operations.swift:197-273 | `createContact` reads flat keys ("givenName", "phoneNumbers", …), while `contactToDict` and `dictToContactMutableCopy` use the nested record shape ("name", "phones", …) | the record {name: {givenName: "Ann"}, phones: [{number: "555-1234", label: "mobile"}]} creates a contact with given name "" and no phone | the record is read in the shape `dictToContactMutableCopy` reads | not executed | DarwinOperations.CreateIgnoresNestedPayload | DarwinOperations.CreateFromRecordRoundTrip |

The Android read path keeps the parse as written: `ProjectEvent`, and so every Android query, reads "--05-12" as day 5. `ParseStartDate` is the corrected parse and stands beside it.
