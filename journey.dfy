/** How the registration and profile screens meet in the store: what the
    wizard writes under `@user_data` is exactly what the profile shows. */
module Journey {
  import opened Wrappers
  import opened JsText
  import opened UserRecords
  import opened Storage
  import opened Ui
  import Register
  import Profile

  /** The two screens carry identical language tables. */
  lemma TablesAgree()
    ensures Register.Languages == Profile.Languages
  {
  }

  /** Every language the picker offers is shown by its name on the profile. */
  lemma PickedLanguageHasName(u: UserRecord, i: nat)
    requires i < |Register.Languages| && u.preferredLanguage == Register.Languages[i].code
    ensures Profile.LanguageLabel(Some(u)) == Register.Languages[i].name
  {
    TablesAgree();
    Profile.LanguageLabelOfKnownCode(u, i);
  }

  /** Once the record is written, the profile loads exactly that record,
      whatever else the store holds and whether or not the flag write
      that follows succeeds. */
  lemma WrittenRecordIsLoaded(items: map<string, string>, r: UserRecord)
    ensures Profile.StoredUser(items[UserDataKey := EncodeUser(r)]) == Some(r)
    ensures Profile.StoredUser(items[UserDataKey := EncodeUser(r)][RegisteredKey := "true"]) == Some(r)
  {
    var e := EncodeUser(r);
    DecodeEncodeUser(r);
    assert e != "" by {
      assert DecodeUser("") == None;
    }
    Profile.StoredUserAfterWrite(items, e);
    Profile.FlagWriteKeepsStoredUser(items[UserDataKey := e], "true");
  }

  /** The profile of a registered user shows the name and country as they
      were typed, and the name of the language picked as entry `i`. */
  lemma ProfileShowsRegistration(items: map<string, string>, r: UserRecord, i: nat)
    requires i < |Register.Languages| && r.preferredLanguage == Register.Languages[i].code
    ensures var stored := items[UserDataKey := EncodeUser(r)][RegisteredKey := "true"];
      Profile.ViewOf(Profile.StoredUser(stored))
      == Profile.ProfileView(r.name, r.country, Register.Languages[i].name)
  {
    WrittenRecordIsLoaded(items, r);
    PickedLanguageHasName(r, i);
  }

  /** The wizard on a fresh screen: the user types `name`, presses Next,
      types `country`, presses Next and picks `language`, reaching the
      last step with exactly those values. */
  method FillInWizard(name: string, country: string, language: string)
    returns (wizard: Register.RegisterScreen)
    requires !IsBlank(name) && !IsBlank(country) && Register.IsOffered(language)
    ensures fresh(wizard) && wizard.Valid() && wizard.step == 3
    ensures wizard.Record() == UserRecord(name, country, language)
  {
    wizard := new Register.RegisterScreen();
    wizard.EditName(name);
    assert wizard.step == 1 && wizard.name == name;
    var event := wizard.HandleNext();
    assert wizard.step == 2;
    wizard.EditCountry(country);
    assert wizard.step == 2 && wizard.country == country && wizard.name == name;
    event := wizard.HandleNext();
    assert wizard.step == 3;
    wizard.PickLanguage(language);
  }

  /** Completing the filled-in wizard with both writes succeeding stores
      the record and the flag and navigates home. */
  method CompleteWizard(store: KeyValueStore, name: string, country: string, language: string)
    returns (event: UiEvent)
    requires !IsBlank(name) && !IsBlank(country) && Register.IsOffered(language)
    modifies store
    ensures event == Navigate(Register.HomeRoute)
    ensures store.items == old(store.items)[UserDataKey := EncodeUser(UserRecord(name, country, language))]
                                           [RegisteredKey := "true"]
  {
    var wizard := FillInWizard(name, country, language);
    event := wizard.HandleComplete(store, false, false);
  }

  /** A full walk: the wizard completes on a store holding `prior`, and the
      profile screen then opens on the same store. The app goes home, the
      flag reads "true", and the profile shows the name and country as
      typed and the picked language by its name. */
  method RegisterThenOpenProfile(prior: map<string, string>, name: string, country: string, language: string)
    returns (event: UiEvent, registered: string, view: Option<Profile.ProfileView>)
    requires !IsBlank(name) && !IsBlank(country) && Register.IsOffered(language)
    ensures event == Navigate(Register.HomeRoute)
    ensures registered == "true"
    ensures view.Some? && view.value.name == name && view.value.country == country
    ensures forall i :: 0 <= i < |Register.Languages| && Register.Languages[i].code == language
                        ==> view.value.language == Register.Languages[i].name
  {
    var r := UserRecord(name, country, language);
    var stored := prior[UserDataKey := EncodeUser(r)][RegisteredKey := "true"];
    var store := new KeyValueStore(prior);
    event := CompleteWizard(store, name, country, language);
    assert store.items == stored;
    registered := store.items[RegisteredKey];
    WrittenRecordIsLoaded(prior, r);
    var profile := new Profile.ProfileScreen();
    profile.LoadUserData(store, false);
    view := profile.View();
    assert view == Some(Profile.ViewOf(Some(r)));
    forall i | 0 <= i < |Register.Languages| && Register.Languages[i].code == language
      ensures view.value.language == Register.Languages[i].name
    {
      PickedLanguageHasName(r, i);
    }
  }
}
