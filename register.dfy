/** The registration screen: a three-step wizard (name, country of origin,
    preferred language) that, when completed, stores the user record and
    the registered flag and hands over to the main screen. */
module Register {
  import opened JsText
  import opened UserRecords
  import opened LanguageTables
  import opened Storage
  import opened Ui

  /** The languages the step-3 picker offers, in display order. */
  const Languages: seq<Language> := [
    Language("en", "English"),
    Language("ar", "Arabic"),
    Language("fr", "French"),
    Language("es", "Spanish"),
    Language("uk", "Ukrainian"),
    Language("fa", "Farsi"),
    Language("ps", "Pashto"),
    Language("so", "Somali"),
    Language("tr", "Turkish"),
    Language("ti", "Tigrinya")
  ]

  /** `code` is one of the picker's values. */
  predicate IsOffered(code: string) {
    exists i :: 0 <= i < |Languages| && Languages[i].code == code
  }

  const NameMissing: string := "Please enter your name"
  const CountryMissing: string := "Please enter your country of origin"
  const RegistrationFailed: UiEvent :=
    Alert("Error", "There was a problem completing registration.")
  /** The route the app shell shows once the user is registered. */
  const HomeRoute: string := "/"

  /** The picker offers ten languages, each under its own code. */
  lemma PickerCodesDistinct()
    ensures |Languages| == 10 && DistinctCodes(Languages)
  {
  }

  class RegisterScreen {
    var name: string
    var country: string
    var preferredLanguage: string
    /** 1: name, 2: country of origin, 3: preferred language. */
    var step: int

    /** The wizard is on one of its three steps, the language is one the
        picker offers, and every step already passed holds a non-blank
        field: the name once past step 1, the country once past step 2. */
    ghost predicate Valid()
      reads this
    {
      1 <= step <= 3 && IsOffered(preferredLanguage)
      && (step >= 2 ==> !IsBlank(name))
      && (step == 3 ==> !IsBlank(country))
    }

    /** The record `handleComplete` stores: the fields exactly as typed,
        without trimming. */
    function Record(): UserRecord
      reads this
    {
      UserRecord(name, country, preferredLanguage)
    }

    /** A fresh screen: empty name and country, English, step 1. */
    constructor ()
      ensures Valid()
      ensures name == "" && country == "" && preferredLanguage == "en" && step == 1
    {
      name, country, preferredLanguage, step := "", "", "en", 1;
      assert Languages[0].code == "en";
    }

    /** Typing in the name field, which is shown on step 1 only. */
    method EditName(text: string)
      requires Valid() && step == 1
      modifies this`name
      ensures Valid() && name == text
    {
      name := text;
    }

    /** Typing in the country field, which is shown on step 2 only. */
    method EditCountry(text: string)
      requires Valid() && step == 2
      modifies this`country
      ensures Valid() && country == text
    {
      country := text;
    }

    /** Choosing a language in the picker, which is shown on step 3 only
        and hands over the code of the chosen entry. */
    method PickLanguage(code: string)
      requires Valid() && step == 3
      requires IsOffered(code)
      modifies this`preferredLanguage
      ensures Valid() && preferredLanguage == code
    {
      preferredLanguage := code;
    }

    /** The Next button: leaves step 1 only with a non-blank name and step
        2 only with a non-blank country, alerting otherwise; on step 3 it
        does nothing. Only the step ever changes. */
    method HandleNext() returns (event: UiEvent)
      requires Valid()
      modifies this`step
      ensures Valid()
      ensures old(step) == 1 ==>
        if IsBlank(name) then step == 1 && event == Alert(NameMissing, "")
        else step == 2 && event == NoEvent
      ensures old(step) == 2 ==>
        if IsBlank(country) then step == 2 && event == Alert(CountryMissing, "")
        else step == 3 && event == NoEvent
      ensures old(step) == 3 ==> step == 3 && event == NoEvent
    {
      event := NoEvent;
      if step == 1 {
        if IsBlank(name) {
          event := Alert(NameMissing, "");
          return;
        }
        step := 2;
      } else if step == 2 {
        if IsBlank(country) {
          event := Alert(CountryMissing, "");
          return;
        }
        step := 3;
      }
    }

    /** The Back button of step 2: one step down. */
    method BackToName()
      requires Valid() && step == 2
      modifies this`step
      ensures Valid() && step == 1
    {
      step := 1;
    }

    /** The Back button of step 3: one step down. */
    method BackToCountry()
      requires Valid() && step == 3
      modifies this`step
      ensures Valid() && step == 2
    {
      step := 2;
    }

    /** The Complete Registration button: writes the record, then the flag
        "true", and only when both writes succeed navigates home. A failed
        write raises the error alert and stops there, so a failure of the
        second write leaves the record stored but the flag as it was. The
        screen's own fields are not touched. The button is shown on step 3
        only, so the record it writes always has a non-blank name and
        country. */
    method HandleComplete(store: KeyValueStore, dataWriteFails: bool, flagWriteFails: bool)
      returns (event: UiEvent)
      requires Valid() && step == 3
      modifies store
      ensures !IsBlank(Record().name) && !IsBlank(Record().country)
      ensures event == if !dataWriteFails && !flagWriteFails then Navigate(HomeRoute)
                       else RegistrationFailed
      ensures store.items ==
        if dataWriteFails then old(store.items)
        else if flagWriteFails then old(store.items)[UserDataKey := EncodeUser(Record())]
        else old(store.items)[UserDataKey := EncodeUser(Record())][RegisteredKey := "true"]
    {
      var ok := store.SetItem(UserDataKey, EncodeUser(Record()), dataWriteFails);
      if !ok {
        return RegistrationFailed;
      }
      ok := store.SetItem(RegisteredKey, "true", flagWriteFails);
      if !ok {
        return RegistrationFailed;
      }
      event := Navigate(HomeRoute);
    }
  }
}
