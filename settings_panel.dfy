/**
 * The settings form: editable copies of the four settings, per-field error
 * messages, and the save action that validates the trimmed city and country
 * before handing them to the store.
 */
module SettingsForm {
  import opened Wrappers
  import opened JsText
  import opened Store

  const CityRequired: string := "City is required"
  const CountryRequired: string := "Country is required"

  /** The error record: a message per field, or none. */
  datatype FormErrors = FormErrors(city: Option<string>, country: Option<string>)

  const NoErrors: FormErrors := FormErrors(None, None)

  /** The values the method and school drop-downs offer, in the order they list them. */
  const MethodOptions: seq<int> := [2, 3, 1, 4, 5, 0]
  const SchoolOptions: seq<int> := [0, 1]

  /** The drop-downs offer exactly the method codes 0..5 and the schools 0 and 1. */
  lemma OptionsAreCodes()
    ensures forall i :: 0 <= i < |MethodOptions| ==> 0 <= MethodOptions[i] <= 5
    ensures forall m :: 0 <= m <= 5 ==> m in MethodOptions
    ensures forall i :: 0 <= i < |SchoolOptions| ==> 0 <= SchoolOptions[i] <= 1
    ensures forall s :: 0 <= s <= 1 ==> s in SchoolOptions
  {
    assert MethodOptions[5] == 0 && MethodOptions[2] == 1 && MethodOptions[0] == 2;
    assert MethodOptions[1] == 3 && MethodOptions[3] == 4 && MethodOptions[4] == 5;
    assert SchoolOptions[0] == 0 && SchoolOptions[1] == 1;
  }

  /** The message the save action records for a field, if any: only blank input is refused. */
  function RequiredError(value: string, message: string): (e: Option<string>)
    ensures e.Some? <==> Blank(value)
    ensures e.Some? ==> e.value == message
  {
    TrimEmptyIffBlank(value);
    if Trim(value) == "" then Some(message) else None
  }

  class SettingsPanel {
    const store: SettingsStore
    var city: string
    var country: string
    var calcMethod: int
    var school: int
    var errors: FormErrors
    /** How many times the panel has asked its parent to close it (`onClose`). */
    var closeRequests: nat

    /** Only the save action's two messages are ever recorded. */
    ghost predicate Valid()
      reads this
    {
      (errors.city.Some? ==> errors.city.value == CityRequired) &&
      (errors.country.Some? ==> errors.country.value == CountryRequired)
    }

    /** The panel opens on the store's current settings, with no errors shown. */
    constructor (store: SettingsStore)
      ensures Valid()
      ensures this.store == store
      ensures city == store.settings.city && country == store.settings.country
      ensures calcMethod == store.settings.calcMethod && school == store.settings.school
      ensures errors == NoErrors && closeRequests == 0
    {
      this.store := store;
      city := store.settings.city;
      country := store.settings.country;
      calcMethod := store.settings.calcMethod;
      school := store.settings.school;
      errors := NoErrors;
      closeRequests := 0;
    }

    /** Typing in the city field: the city changes and its error, if shown, is cleared. */
    method EditCity(value: string)
      requires Valid()
      modifies this
      ensures Valid()
      ensures city == value && errors == FormErrors(None, old(errors.country))
      ensures country == old(country) && calcMethod == old(calcMethod) && school == old(school)
      ensures closeRequests == old(closeRequests)
    {
      city := value;
      if errors.city.Some? && errors.city.value != "" {
        errors := errors.(city := None);
      }
    }

    /** Typing in the country field: the country changes and its error, if shown, is cleared. */
    method EditCountry(value: string)
      requires Valid()
      modifies this
      ensures Valid()
      ensures country == value && errors == FormErrors(old(errors.city), None)
      ensures city == old(city) && calcMethod == old(calcMethod) && school == old(school)
      ensures closeRequests == old(closeRequests)
    {
      country := value;
      if errors.country.Some? && errors.country.value != "" {
        errors := errors.(country := None);
      }
    }

    /** Picking entry `choice` of the method drop-down. */
    method SelectMethod(choice: nat)
      requires choice < |MethodOptions|
      modifies this
      ensures calcMethod == MethodOptions[choice] && 0 <= calcMethod <= 5
      ensures city == old(city) && country == old(country) && school == old(school)
      ensures errors == old(errors) && closeRequests == old(closeRequests)
    {
      OptionsAreCodes();
      calcMethod := MethodOptions[choice];
    }

    /** Picking entry `choice` of the school drop-down. */
    method SelectSchool(choice: nat)
      requires choice < |SchoolOptions|
      modifies this
      ensures school == SchoolOptions[choice] && 0 <= school <= 1
      ensures city == old(city) && country == old(country) && calcMethod == old(calcMethod)
      ensures errors == old(errors) && closeRequests == old(closeRequests)
    {
      OptionsAreCodes();
      school := SchoolOptions[choice];
    }

    /** The close button: the panel asks to be closed and nothing is saved. */
    method Cancel()
      modifies this
      ensures closeRequests == old(closeRequests) + 1
      ensures city == old(city) && country == old(country)
      ensures calcMethod == old(calcMethod) && school == old(school) && errors == old(errors)
    {
      closeRequests := closeRequests + 1;
    }

    /**
     * Save & Apply. A blank city or country records its message (both when both are
     * blank) and nothing reaches the store or the parent. Otherwise the errors are
     * cleared, the store gets exactly one update with the trimmed city and country and
     * the chosen method and school, and the panel asks to be closed.
     */
    method HandleSave()
      requires Valid()
      modifies this, store
      ensures Valid()
      ensures city == old(city) && country == old(country)
      ensures calcMethod == old(calcMethod) && school == old(school)
      ensures errors == FormErrors(RequiredError(city, CityRequired), RequiredError(country, CountryRequired))
      ensures errors != NoErrors ==>
                && store.settings == old(store.settings) && store.storage == old(store.storage)
                && store.isFirstVisit == old(store.isFirstVisit) && store.updates == old(store.updates)
                && closeRequests == old(closeRequests)
      ensures errors == NoErrors ==>
                && store.updates == old(store.updates) +
                     [PartialSettings(Some(Trim(city)), Some(Trim(country)), Some(calcMethod), Some(school))]
                && store.settings == UserSettings(Trim(city), Trim(country), calcMethod, school)
                && store.storage == old(store.storage)[StorageKey := store.stringify(store.settings)]
                && !store.isFirstVisit
                && closeRequests == old(closeRequests) + 1
      ensures store.isLoaded == old(store.isLoaded)
    {
      var nextErrors := NoErrors;
      var trimmedCity := Trim(city);
      var trimmedCountry := Trim(country);
      var cityError := RequiredError(city, CityRequired);
      var countryError := RequiredError(country, CountryRequired);

      assert cityError.Some? <==> trimmedCity == "";
      assert countryError.Some? <==> trimmedCountry == "";
      if trimmedCity == "" {
        nextErrors := nextErrors.(city := Some(CityRequired));
      }
      if trimmedCountry == "" {
        nextErrors := nextErrors.(country := Some(CountryRequired));
      }

      if nextErrors != NoErrors {
        errors := nextErrors;
        return;
      }

      errors := NoErrors;
      store.UpdateSettings(PartialSettings(Some(trimmedCity), Some(trimmedCountry), Some(calcMethod), Some(school)));
      closeRequests := closeRequests + 1;
    }
  }

  /** The empty city is blank; "X" is not. */
  lemma ExampleBlank()
    ensures Blank("") && !Blank("X")
  {
    var x := "X";
    assert !IsJsWhitespace(x[0]);
  }

  /** Trimming leaves "Lahore" as it is. */
  lemma ExampleCity()
    ensures Trim("Lahore") == "Lahore"
  {
    var city := "Lahore";
    assert !IsJsWhitespace(city[0]) && !IsJsWhitespace(city[|city| - 1]);
    TrimFixed(city);
  }

  /** Trimming leaves "Pakistan" as it is. */
  lemma ExampleCountry()
    ensures Trim("Pakistan") == "Pakistan"
  {
    var country := "Pakistan";
    assert !IsJsWhitespace(country[0]) && !IsJsWhitespace(country[|country| - 1]);
    TrimFixed(country);
  }

  /**
   * A first visit that saves an empty city with country "X" is refused with the
   * city message alone; saving Lahore, Pakistan then persists, and a later visit
   * loads those settings back with no first-visit prompt.
   */
  method SaveScenario(storage: map<string, string>, parse: string -> Option<UserSettings>,
                      stringify: UserSettings -> string)
    returns (refused: FormErrors, reloaded: UserSettings, reloadedFirstVisit: bool)
    requires FaithfulCodec(parse, stringify)
    ensures refused == FormErrors(Some(CityRequired), None)
    ensures reloaded.city == "Lahore" && reloaded.country == "Pakistan" && !reloadedFirstVisit
  {
    ExampleBlank();
    ExampleCity();
    ExampleCountry();
    var store := Mount(storage, parse, stringify);
    var panel := new SettingsPanel(store);
    panel.EditCity("");
    panel.EditCountry("X");
    panel.HandleSave();
    refused := panel.errors;
    panel.EditCity("Lahore");
    panel.EditCountry("Pakistan");
    panel.HandleSave();
    var again := Mount(store.storage, parse, stringify);
    reloaded := again.settings;
    reloadedFirstVisit := again.isFirstVisit;
  }
}
