/**
 * The settings slice: `fetchSettings` and `updateSettings` over the settings
 * table, the `setLanguage` reducer, and the pending and rejected matchers.
 * Neither thunk catches a failed transaction: it rejects with the error.
 */
module SettingsFeature {

  import opened Entities
  import Db

  const NoSettings: string := "no settings"
  const UpdateFailed: string := "Update failed."

  /** The settings the slice starts with: English, light theme, not populated. */
  function InitialSettings(): (s: Settings)
    ensures s.id.None? && s.lang == En && s.theme == Light && s.isPopulated == Some(false)
  {
    Settings(None, En, Light, Some(false))
  }

  class SettingsSlice {
    var status: Status
    var settings: Settings
    var error: Option<string>

    constructor ()
      ensures status == Idle && settings == InitialSettings() && error == None
    {
      status := Idle;
      settings := InitialSettings();
      error := None;
    }

    /** `setLanguage`: only the language of the settings changes. */
    method SetLanguage(lang: Language)
      modifies this
      ensures settings == old(settings).(lang := lang)
      ensures status == old(status) && error == old(error)
    {
      settings := settings.(lang := lang);
    }

    /** The pending matcher. */
    method Pending()
      modifies this
      ensures status == Loading
      ensures settings == old(settings) && error == old(error)
    {
      status := Loading;
    }

    /** The rejected matcher: `failed`, the settings untouched. */
    method MarkFailed()
      modifies this
      ensures status == Failed
      ensures settings == old(settings) && error == old(error)
    {
      status := Failed;
    }

    /** A fulfilled `fetchSettings` or `updateSettings`: the payload replaces the settings. */
    method Settled(r: Outcome<Settings>)
      modifies this
      ensures r.Fulfilled? ==> status == Succeeded && settings == r.payload
      ensures r.Rejected? ==> status == Failed && settings == old(settings)
      ensures error == old(error)
    {
      if r.Fulfilled? {
        settings := r.payload;
        status := Succeeded;
      } else {
        MarkFailed();
      }
    }
  }

  /**
   * `fetchSettings`: the row with the lowest key; rejects with
   * "no settings" on an empty table and with the error on a failed
   * transaction.
   */
  method FetchSettings(table: Db.SettingsTable, fault: bool) returns (r: Outcome<Settings>)
    requires table.Valid()
    ensures fault ==> r == Rejected(Thrown(AbortError))
    ensures !fault && table.rows == map[] ==> r == Rejected(Message(NoSettings))
    ensures r.Fulfilled? <==> !fault && table.rows != map[]
    ensures r.Fulfilled? ==> r.payload.id.Some? && r.payload.id.value in table.rows
    ensures r.Fulfilled? ==> table.rows[r.payload.id.value] == r.payload
    ensures r.Fulfilled? ==> forall k :: k in table.rows ==> r.payload.id.value <= k
  {
    if fault {
      r := Rejected(Thrown(AbortError));
      return;
    }
    var first := table.First();
    if first.None? {
      r := Rejected(Message(NoSettings));
    } else {
      r := Fulfilled(first.value);
    }
  }

  /**
   * `updateSettings`: merges the settings into the row with their id and
   * fulfils with them; rejects with "Update failed." when there is no such
   * row.  Without an id the store refuses the key.
   */
  method UpdateSettings(table: Db.SettingsTable, settings: Settings, fault: bool) returns (r: Outcome<Settings>)
    requires table.Valid()
    modifies table
    ensures table.Valid()
    ensures fault ==> r == Rejected(Thrown(AbortError))
    ensures !fault && settings.id.None? ==> r == Rejected(Thrown(DataError))
    ensures !fault && settings.id.Some? && settings.id.value !in old(table.rows) ==> r == Rejected(Message(UpdateFailed))
    ensures r.Fulfilled? <==> !fault && settings.id.Some? && settings.id.value in old(table.rows)
    ensures r.Fulfilled? ==> r.payload == settings
    ensures r.Fulfilled? ==> table.rows == old(table.rows)[settings.id.value := MergeSettings(old(table.rows)[settings.id.value], settings)]
    ensures r.Rejected? ==> table.rows == old(table.rows)
  {
    if fault {
      r := Rejected(Thrown(AbortError));
    } else if settings.id.None? {
      r := Rejected(Thrown(DataError));
    } else {
      var count := table.Update(settings.id.value, settings);
      if count == 0 {
        r := Rejected(Message(UpdateFailed));
      } else {
        r := Fulfilled(settings);
      }
    }
  }

  /** Dispatching `fetchSettings`: the slice holds the stored row, or keeps its settings and fails. */
  method DispatchFetchSettings(table: Db.SettingsTable, slice: SettingsSlice, fault: bool) returns (r: Outcome<Settings>)
    requires table.Valid()
    modifies slice
    ensures r.Fulfilled? <==> !fault && table.rows != map[]
    ensures r.Fulfilled? ==> slice.status == Succeeded && slice.settings == r.payload && slice.settings.id.Some?
    ensures r.Fulfilled? ==> slice.settings.id.value in table.rows && table.rows[slice.settings.id.value] == slice.settings
    ensures r.Rejected? ==> slice.status == Failed && slice.settings == old(slice.settings)
    ensures slice.error == old(slice.error)
  {
    slice.Pending();
    r := FetchSettings(table, fault);
    slice.Settled(r);
  }

  /**
   * Dispatching `updateSettings`: on success the slice holds exactly the
   * submitted settings, which the stored row now agrees with on language and
   * theme.
   */
  method DispatchUpdateSettings(table: Db.SettingsTable, slice: SettingsSlice, settings: Settings, fault: bool)
    returns (r: Outcome<Settings>)
    requires table.Valid()
    modifies table, slice
    ensures table.Valid()
    ensures r.Fulfilled? ==> slice.status == Succeeded && slice.settings == settings
    ensures r.Fulfilled? ==> settings.id.Some? && settings.id.value in table.rows
    ensures r.Fulfilled? ==> table.rows[settings.id.value].lang == settings.lang && table.rows[settings.id.value].theme == settings.theme
    ensures r.Rejected? ==> slice.status == Failed && slice.settings == old(slice.settings) && table.rows == old(table.rows)
    ensures slice.error == old(slice.error)
  {
    slice.Pending();
    r := UpdateSettings(table, settings, fault);
    slice.Settled(r);
  }
}
