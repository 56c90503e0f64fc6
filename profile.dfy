/** The profile screen's logic: loading the stored user record, showing its
    name, country and language, and logging out by clearing the registered
    flag. */
module Profile {
  import opened Wrappers
  import opened UserRecords
  import opened LanguageTables
  import opened Storage
  import opened Ui

  /** The screen's own table for turning a language code into a name. */
  const Languages: seq<Language> := [
    Language("en", "English"),
    Language("ar", "Arabic"),
    Language("fr", "French"),
    Language("es", "Spanish"),
    Language("uk", "Ukrainian"),
    Language("fa", "Farsi"),
    Language("ps", "Pashto"),
    Language("so", "Somali"),
    Language("tr", "Turkish"),
    Language("ti", "Tigrinya")
  ]

  const LogoutFailed: UiEvent := Alert("Error", "There was a problem logging out.")
  /** The route of the registration screen. */
  const RegisterRoute: string := "/register"

  /** `table.find(l => l.code === code)`: the first entry with that code. */
  function FindLanguage(table: seq<Language>, code: string): (r: Option<Language>)
    ensures r.None? <==> forall i :: 0 <= i < |table| ==> table[i].code != code
    ensures r.Some? ==> exists i :: 0 <= i < |table| && table[i] == r.value && r.value.code == code
                          && forall j :: 0 <= j < i ==> table[j].code != code
  {
    if |table| == 0 then None
    else if table[0].code == code then Some(table[0])
    else FindLanguage(table[1..], code)
  }

  /** What a successful read of `@user_data` puts into `userData`: the
      parsed record when the key holds non-empty text that parses, and
      nothing otherwise (a missing key, an empty text, or text that makes
      the parse throw). */
  function StoredUser(items: map<string, string>): Option<UserRecord> {
    if UserDataKey in items && items[UserDataKey] != "" then DecodeUser(items[UserDataKey])
    else None
  }

  /** The values the profile interpolates into its user section. */
  datatype ProfileView = ProfileView(name: string, country: string, language: string)

  /** `table.find(l => l.code === code)?.name || code`: the name of the
      first entry with that code if there is one and the name is non-empty,
      else the code itself. */
  function LabelIn(table: seq<Language>, code: string): string {
    match FindLanguage(table, code)
    case Some(l) => if l.name != "" then l.name else code
    case None => code
  }

  /** The language shown for a record, looked up in the screen's table;
      without a record, nothing. */
  function LanguageLabel(userData: Option<UserRecord>): string {
    match userData
    case None => ""
    case Some(u) => LabelIn(Languages, u.preferredLanguage)
  }

  /** The user section: name, country and language, all empty without a record. */
  function ViewOf(userData: Option<UserRecord>): ProfileView {
    match userData
    case None => ProfileView("", "", "")
    case Some(u) => ProfileView(u.name, u.country, LanguageLabel(userData))
  }

  class ProfileScreen {
    var userData: Option<UserRecord>
    var darkMode: bool
    var notifications: bool
    var loading: bool

    /** The screen opens loading, with no record and both switches on. */
    constructor ()
      ensures userData == None && loading && darkMode && notifications
    {
      userData, darkMode, notifications, loading := None, true, true, true;
    }

    /** `loadUserData`: a successful read of a present record replaces
        `userData`; a missing or empty key, a parse error or a read error
        leaves it as it was. Loading ends in every case. */
    method LoadUserData(store: KeyValueStore, readFails: bool)
      modifies this`userData, this`loading
      ensures !loading
      ensures userData == if readFails || StoredUser(store.items).None? then old(userData)
                          else StoredUser(store.items)
    {
      var data := store.GetItem(UserDataKey, readFails);
      if data.Item? && data.text != "" {
        var parsed := DecodeUser(data.text);
        if parsed.Some? {
          userData := parsed;
        }
      }
      loading := false;
    }

    /** What the user section shows; nothing while loading, when the
        screen shows a spinner instead. */
    function View(): (v: Option<ProfileView>)
      reads this
      ensures v.None? <==> loading
    {
      if loading then None else Some(ViewOf(userData))
    }

    /** The Logout button and its confirmation dialog: cancelling does
        nothing; confirming writes "false" to the registered flag, leaves
        the stored record alone, and goes to the registration screen, or
        raises the error alert when the write fails. */
    method HandleLogout(store: KeyValueStore, confirmed: bool, writeFails: bool)
      returns (event: UiEvent)
      modifies store
      ensures !confirmed ==> event == NoEvent && store.items == old(store.items)
      ensures confirmed && !writeFails ==>
        event == Navigate(RegisterRoute) && store.items == old(store.items)[RegisteredKey := "false"]
      ensures confirmed && writeFails ==> event == LogoutFailed && store.items == old(store.items)
    {
      if !confirmed {
        return NoEvent;
      }
      var ok := store.SetItem(RegisteredKey, "false", writeFails);
      event := if ok then Navigate(RegisterRoute) else LogoutFailed;
    }
  }

  /** The screen's table lists ten languages, each under its own code. */
  lemma TableCodesDistinct()
    ensures |Languages| == 10 && DistinctCodes(Languages)
  {
  }

  /** Every language of the screen's table has a name. */
  lemma TableEntriesNamed()
    ensures NamedEntries(Languages)
  {
  }

  /** In a table without repeated codes, looking up an entry's code finds
      that very entry. */
  lemma FindsEntryOfItsCode(table: seq<Language>, i: nat)
    requires DistinctCodes(table) && i < |table|
    ensures FindLanguage(table, table[i].code) == Some(table[i])
  {
    var code := table[i].code;
    var r := FindLanguage(table, code);
    var k :| 0 <= k < |table| && table[k] == r.value && r.value.code == code
             && forall j :: 0 <= j < k ==> table[j].code != code;
    assert table[k].code == code && table[i].code == code;
    assert k == i;
  }

  /** In a table without repeated codes, an entry's code is shown by the
      entry's name when that name is non-empty. */
  lemma LabelOfKnownCode(table: seq<Language>, i: nat)
    requires DistinctCodes(table) && i < |table| && table[i].name != ""
    ensures LabelIn(table, table[i].code) == table[i].name
  {
    FindsEntryOfItsCode(table, i);
  }

  /** A code no entry has is shown as it is. */
  lemma LabelOfUnknownCode(table: seq<Language>, code: string)
    requires forall i :: 0 <= i < |table| ==> table[i].code != code
    ensures LabelIn(table, code) == code
  {
  }

  /** A record whose code is the code of entry `i` shows that entry's name. */
  lemma LanguageLabelOfKnownCode(u: UserRecord, i: nat)
    requires i < |Languages| && Languages[i].code == u.preferredLanguage
    ensures LanguageLabel(Some(u)) == Languages[i].name
  {
    TableCodesDistinct();
    TableEntriesNamed();
    LabelOfKnownCode(Languages, i);
  }

  /** A record whose code is not in the table shows the raw code. */
  lemma LanguageLabelOfUnknownCode(u: UserRecord)
    requires forall i :: 0 <= i < |Languages| ==> Languages[i].code != u.preferredLanguage
    ensures LanguageLabel(Some(u)) == u.preferredLanguage
  {
    LabelOfUnknownCode(Languages, u.preferredLanguage);
  }

  /** Writing the registered flag, as logging out and registering do,
      does not change which user the profile loads. */
  lemma FlagWriteKeepsStoredUser(items: map<string, string>, flag: string)
    ensures StoredUser(items[RegisteredKey := flag]) == StoredUser(items)
  {
  }

  /** Once non-empty text is written under `@user_data`, the profile loads
      whatever that text parses to, whatever else the store holds. */
  lemma StoredUserAfterWrite(items: map<string, string>, text: string)
    requires text != ""
    ensures StoredUser(items[UserDataKey := text]) == DecodeUser(text)
  {
  }
}
