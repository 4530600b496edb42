/** The Android label vocabulary: the integer type codes of the contacts
    provider's phone, email, postal, website and event rows, and the string
    labels the bridge exchanges for them. The code values are those of
    `ContactsContract.CommonDataKinds` in the Android SDK. */
module AndroidLabels {
  import opened Wrappers
  import opened Text

  // Phone.TYPE_*
  const PhoneCustom: int := 0
  const PhoneHome: int := 1
  const PhoneMobile: int := 2
  const PhoneWork: int := 3
  const PhoneFaxWork: int := 4
  const PhoneFaxHome: int := 5
  const PhonePager: int := 6
  const PhoneOther: int := 7
  const PhoneMain: int := 12

  // Email.TYPE_*
  const EmailCustom: int := 0
  const EmailHome: int := 1
  const EmailWork: int := 2
  const EmailOther: int := 3
  const EmailMobile: int := 4

  // StructuredPostal.TYPE_*
  const AddressCustom: int := 0
  const AddressHome: int := 1
  const AddressWork: int := 2
  const AddressOther: int := 3

  // Website.TYPE_*
  const WebsiteCustom: int := 0
  const WebsiteHomepage: int := 1
  const WebsiteBlog: int := 2
  const WebsiteProfile: int := 3
  const WebsiteHome: int := 4
  const WebsiteWork: int := 5
  const WebsiteFtp: int := 6
  const WebsiteOther: int := 7

  // Event.TYPE_*
  const EventCustom: int := 0
  const EventAnniversary: int := 1
  const EventOther: int := 2
  const EventBirthday: int := 3

  /** The closed vocabulary of each category: standard code to label. */
  const PhoneLabels: map<int, string> := map[
    PhoneHome := "home", PhoneMobile := "mobile", PhoneWork := "work",
    PhoneFaxWork := "faxWork", PhoneFaxHome := "faxHome", PhonePager := "pager",
    PhoneOther := "other", PhoneMain := "main"]

  const EmailLabels: map<int, string> := map[
    EmailHome := "home", EmailWork := "work", EmailOther := "other", EmailMobile := "mobile"]

  const AddressLabels: map<int, string> := map[
    AddressHome := "home", AddressWork := "work", AddressOther := "other"]

  const WebsiteLabels: map<int, string> := map[
    WebsiteHomepage := "homepage", WebsiteBlog := "blog", WebsiteProfile := "profile",
    WebsiteHome := "home", WebsiteWork := "work", WebsiteFtp := "ftp", WebsiteOther := "other"]

  const EventLabels: map<int, string> := map[
    EventBirthday := "birthday", EventAnniversary := "anniversary", EventOther := "other"]

  /** Kotlin's `customLabel.ifEmpty { "custom" }`: the escape hatch for the
      CUSTOM code. */
  function CustomOr(customLabel: string): (text: string)
    ensures text != ""
    ensures customLabel != "" ==> text == customLabel
  {
    if customLabel == "" then "custom" else customLabel
  }

  function PhoneLabel(rawType: int, customLabel: string): (text: string)
    ensures rawType in PhoneLabels ==> text == PhoneLabels[rawType]
    ensures rawType == PhoneCustom ==> text == CustomOr(customLabel)
    ensures rawType != PhoneCustom && rawType !in PhoneLabels ==> text == "other"
  {
    if rawType == PhoneHome then "home"
    else if rawType == PhoneMobile then "mobile"
    else if rawType == PhoneWork then "work"
    else if rawType == PhoneFaxWork then "faxWork"
    else if rawType == PhoneFaxHome then "faxHome"
    else if rawType == PhonePager then "pager"
    else if rawType == PhoneOther then "other"
    else if rawType == PhoneMain then "main"
    else if rawType == PhoneCustom then CustomOr(customLabel)
    else "other"
  }

  /** Reverse of PhoneLabel, matched after lower-casing; "cell" is a synonym
      of "mobile" and everything unrecognised, null included, is OTHER. */
  function PhoneType(labelText: Option<string>): (rawType: int)
    ensures rawType in PhoneLabels
    ensures labelText.None? ==> rawType == PhoneOther
  {
    if labelText.None? then PhoneOther
    else
      var l := RootLower(labelText.value);
      if l == "home" then PhoneHome
      else if l == "mobile" || l == "cell" then PhoneMobile
      else if l == "work" then PhoneWork
      else if l == "faxwork" then PhoneFaxWork
      else if l == "faxhome" then PhoneFaxHome
      else if l == "pager" then PhonePager
      else if l == "main" then PhoneMain
      else PhoneOther
  }

  function EmailLabel(rawType: int, customLabel: string): (text: string)
    ensures rawType in EmailLabels ==> text == EmailLabels[rawType]
    ensures rawType == EmailCustom ==> text == CustomOr(customLabel)
    ensures rawType != EmailCustom && rawType !in EmailLabels ==> text == "other"
  {
    if rawType == EmailHome then "home"
    else if rawType == EmailWork then "work"
    else if rawType == EmailOther then "other"
    else if rawType == EmailMobile then "mobile"
    else if rawType == EmailCustom then CustomOr(customLabel)
    else "other"
  }

  /** Reverse of EmailLabel: only "home", "work" and "mobile" are
      recognised (after lower-casing); everything else is OTHER. */
  function EmailType(labelText: Option<string>): (rawType: int)
    ensures rawType in EmailLabels
    ensures labelText.None? ==> rawType == EmailOther
  {
    if labelText.None? then EmailOther
    else
      var l := RootLower(labelText.value);
      if l == "home" then EmailHome
      else if l == "work" then EmailWork
      else if l == "mobile" then EmailMobile
      else EmailOther
  }

  function AddressLabel(rawType: int, customLabel: string): (text: string)
    ensures rawType in AddressLabels ==> text == AddressLabels[rawType]
    ensures rawType == AddressCustom ==> text == CustomOr(customLabel)
    ensures rawType != AddressCustom && rawType !in AddressLabels ==> text == "other"
  {
    if rawType == AddressHome then "home"
    else if rawType == AddressWork then "work"
    else if rawType == AddressOther then "other"
    else if rawType == AddressCustom then CustomOr(customLabel)
    else "other"
  }

  function WebsiteLabel(rawType: int, customLabel: string): (text: string)
    ensures rawType in WebsiteLabels ==> text == WebsiteLabels[rawType]
    ensures rawType == WebsiteCustom ==> text == CustomOr(customLabel)
    ensures rawType != WebsiteCustom && rawType !in WebsiteLabels ==> text == "other"
  {
    if rawType == WebsiteHomepage then "homepage"
    else if rawType == WebsiteBlog then "blog"
    else if rawType == WebsiteProfile then "profile"
    else if rawType == WebsiteHome then "home"
    else if rawType == WebsiteWork then "work"
    else if rawType == WebsiteFtp then "ftp"
    else if rawType == WebsiteOther then "other"
    else if rawType == WebsiteCustom then CustomOr(customLabel)
    else "other"
  }

  function EventLabel(rawType: int, customLabel: string): (text: string)
    ensures rawType in EventLabels ==> text == EventLabels[rawType]
    ensures rawType == EventCustom ==> text == CustomOr(customLabel)
    ensures rawType != EventCustom && rawType !in EventLabels ==> text == "other"
  {
    if rawType == EventBirthday then "birthday"
    else if rawType == EventAnniversary then "anniversary"
    else if rawType == EventOther then "other"
    else if rawType == EventCustom then CustomOr(customLabel)
    else "other"
  }

  // ---------------------------------------------------------------------
  // Round trips and lossiness
  // ---------------------------------------------------------------------

  /** code -> label -> code is the identity on every standard phone code,
      including the mixed-case "faxWork" and "faxHome" thanks to
      lower-casing. */
  lemma PhoneCodeRoundTrip(rawType: int, customLabel: string)
    requires rawType in PhoneLabels
    ensures PhoneType(Some(PhoneLabel(rawType, customLabel))) == rawType
  {
    var l := PhoneLabels[rawType];
    assert PhoneLabel(rawType, customLabel) == l;
    RootLowerAscii(l);
    if rawType == PhoneFaxWork {
      assert RootLower("faxWork") == "faxwork";
    } else if rawType == PhoneFaxHome {
      assert RootLower("faxHome") == "faxhome";
    } else if rawType == PhoneHome {
      assert RootLower("home") == "home";
    } else if rawType == PhoneMobile {
      assert RootLower("mobile") == "mobile";
    } else if rawType == PhoneWork {
      assert RootLower("work") == "work";
    } else if rawType == PhonePager {
      assert RootLower("pager") == "pager";
    } else if rawType == PhoneOther {
      assert RootLower("other") == "other";
    } else {
      assert RootLower("main") == "main";
    }
  }

  /** label -> code -> label gives back every label of the closed phone
      vocabulary. */
  lemma PhoneLabelRoundTrip(labelText: string, customLabel: string)
    requires labelText in PhoneLabels.Values
    ensures PhoneLabel(PhoneType(Some(labelText)), customLabel) == labelText
  {
    var t :| t in PhoneLabels && PhoneLabels[t] == labelText;
    PhoneCodeRoundTrip(t, customLabel);
  }

  /** PhoneType looks only at the lower-cased label. */
  lemma PhoneTypeIgnoresCase(labelText: string)
    ensures PhoneType(Some(labelText)) == PhoneType(Some(RootLower(labelText)))
  {
    RootLowerIdempotent(labelText);
  }

  /** Exactly "mobile" and "cell", in any case, select TYPE_MOBILE. */
  lemma PhoneTypeMobileSynonyms(labelText: string)
    ensures PhoneType(Some(labelText)) == PhoneMobile <==> RootLower(labelText) == "mobile" || RootLower(labelText) == "cell"
  {
  }

  /** Lower-casing is Unicode's, not ASCII's: a label spelt with the Kelvin
      sign K (U+212A) for its "k" is recognised as "work". */
  lemma KelvinSignLabels()
    ensures PhoneType(Some("wor\U{212A}")) == PhoneWork
    ensures EmailType(Some("wor\U{212A}")) == EmailWork
  {
    RootLowerBeyondAscii();
  }

  /** The CUSTOM code is never reproduced: a custom label, whatever its
      text, comes back as some standard code, so that round trip is lossy. */
  lemma PhoneCustomRoundTripLossy(customLabel: string)
    ensures PhoneType(Some(PhoneLabel(PhoneCustom, customLabel))) != PhoneCustom
    ensures PhoneType(Some(PhoneLabel(PhoneCustom, "Gym"))) == PhoneOther
    ensures PhoneType(Some(PhoneLabel(PhoneCustom, ""))) == PhoneOther
  {
    assert RootLower("Gym") == "gym" by { RootLowerAscii("Gym"); }
    assert RootLower("custom") == "custom" by { RootLowerAscii("custom"); }
  }

  /** A custom label "cell" and the standard MOBILE code are told apart on
      the way out but merged on the way back. */
  lemma PhoneLabelToCodeNotInjective()
    ensures PhoneLabel(PhoneCustom, "cell") == "cell"
    ensures PhoneType(Some("cell")) == PhoneType(Some("mobile")) == PhoneMobile
  {
    assert RootLower("cell") == "cell" by { RootLowerAscii("cell"); }
    assert RootLower("mobile") == "mobile" by { RootLowerAscii("mobile"); }
  }

  /** code -> label -> code is the identity on the four standard email
      codes. */
  lemma EmailCodeRoundTrip(rawType: int, customLabel: string)
    requires rawType in EmailLabels
    ensures EmailType(Some(EmailLabel(rawType, customLabel))) == rawType
  {
    var l := EmailLabel(rawType, customLabel);
    RootLowerAscii(l);
    assert Lower(l) == l;
  }

  /** Every phone label outside the recognised vocabulary (in any case)
      maps to TYPE_OTHER; a custom phone label is lost this way. */
  lemma PhoneTypeOtherwiseOther(labelText: string)
    requires RootLower(labelText) !in {"home", "mobile", "cell", "work", "faxwork", "faxhome", "pager", "main"}
    ensures PhoneType(Some(labelText)) == PhoneOther
    ensures PhoneType(Some(labelText)) != PhoneCustom
  {
  }

  /** Every label other than home, work and mobile (in any case) maps to
      TYPE_OTHER; in particular a custom email label is lost. */
  lemma EmailTypeOtherwiseOther(labelText: string)
    requires RootLower(labelText) != "home" && RootLower(labelText) != "work" && RootLower(labelText) != "mobile"
    ensures EmailType(Some(labelText)) == EmailOther
    ensures EmailType(Some(labelText)) != EmailCustom
  {
  }

  /** The CUSTOM code of every category yields the custom text verbatim
      when there is one and the literal "custom" otherwise. */
  lemma CustomLabelsVerbatim(customLabel: string)
    ensures PhoneLabel(PhoneCustom, customLabel) == CustomOr(customLabel)
    ensures EmailLabel(EmailCustom, customLabel) == CustomOr(customLabel)
    ensures AddressLabel(AddressCustom, customLabel) == CustomOr(customLabel)
    ensures WebsiteLabel(WebsiteCustom, customLabel) == CustomOr(customLabel)
    ensures EventLabel(EventCustom, customLabel) == CustomOr(customLabel)
    ensures customLabel != "" ==> PhoneLabel(PhoneCustom, customLabel) == customLabel
    ensures PhoneLabel(PhoneCustom, "") == "custom"
  {
  }
}
