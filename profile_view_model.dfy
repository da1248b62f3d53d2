/**
 * `ProfileViewModel`: the profile screen's `UiState` and how loading, saving,
 * deleting and starting to edit a saved threshold update it. Each repository
 * call's outcome is a parameter; `published` logs every state the view model
 * emits, in order, so the intermediate "loading" states are visible.
 */
module Profile {
  import opened Wrappers
  import opened KotlinText
  import opened NoiseLabels
  import opened Preferences

  datatype UiState = UiState(
    isLoading: bool,
    preferences: seq<UserPreferences>,
    error: Option<string>,
    editingId: Option<string>)

  /** `UiState()` with its default arguments. */
  const InitialUiState := UiState(true, [], None, None)

  const LoadErrorDefault := "Unknown error"
  const SaveErrorDefault := "Failed to save preferences"
  const DeleteErrorDefault := "Failed to delete preference"

  /** The preference `savePreferences` builds: the id being edited, the threshold
      and tag typed in, the threshold's label, and the given date and time. */
  function NewPreference(editingId: Option<string>, threshold: Int32, tag: string, date: string, time: string): (p: UserPreferences)
    ensures p.id == editingId && p.thresholdDecibel == threshold && p.tag == tag
    ensures p.noiseLabel == IntNoiseLabel(threshold) && p.noiseLabel in IntLabels
    ensures p.date == date && p.time == time
  {
    UserPreferences(editingId, threshold, IntNoiseLabel(threshold), tag, date, time)
  }

  class ProfileViewModel {
    var uiState: UiState
    /** Every state emitted so far, oldest first. */
    ghost var published: seq<UiState>

    /** `init { loadPreferences() }`, with the outcome of that first fetch. */
    constructor (fetched: Result<seq<UserPreferences>>)
      ensures !uiState.isLoading && uiState.editingId == None
      ensures fetched.Success? ==> uiState.preferences == fetched.value && uiState.error == None
      ensures fetched.Failure? ==>
        uiState.preferences == [] && uiState.error == Some(fetched.message.GetOr(LoadErrorDefault))
      ensures published == [InitialUiState, InitialUiState, uiState]
    {
      uiState := InitialUiState;
      published := [InitialUiState];
      new;
      LoadPreferences(fetched);
    }

    /** `loadPreferences`: marks loading, then takes the fetched list and clears the
        error, or keeps the old list and reports the failure's message. */
    method LoadPreferences(fetched: Result<seq<UserPreferences>>)
      modifies this
      ensures published == old(published) + [old(uiState).(isLoading := true), uiState]
      ensures !uiState.isLoading && uiState.editingId == old(uiState.editingId)
      ensures fetched.Success? ==> uiState.preferences == fetched.value && uiState.error == None
      ensures fetched.Failure? ==>
        uiState.preferences == old(uiState.preferences) &&
        uiState.error == Some(fetched.message.GetOr(LoadErrorDefault))
    {
      uiState := uiState.(isLoading := true);
      published := published + [uiState];
      match fetched {
        case Success(list) =>
          uiState := uiState.(isLoading := false, preferences := list, error := None);
        case Failure(message) =>
          uiState := uiState.(isLoading := false, error := Some(message.GetOr(LoadErrorDefault)));
      }
      published := published + [uiState];
    }

    /**
     * `savePreferences(threshold, tag)`: marks loading, then upserts the new
     * preference under the id being edited (`date` and `time` are the formatted
     * clock). On success it stops editing and reloads with `reloaded`; on failure
     * it reports the error and keeps editing. Returns the write issued.
     */
    method SavePreferences(threshold: Int32, tag: string, date: string, time: string,
                           written: Result<()>, reloaded: Result<seq<UserPreferences>>)
      returns (write: WriteOp)
      modifies this
      ensures write == UpsertPreferences(old(uiState.editingId),
        NewPreference(old(uiState.editingId), threshold, tag, date, time))
      ensures |published| > |old(published)| && published[|old(published)|] == old(uiState).(isLoading := true)
      ensures written.Success? ==>
        uiState.editingId == None && !uiState.isLoading &&
        (reloaded.Success? ==> uiState.preferences == reloaded.value && uiState.error == None) &&
        (reloaded.Failure? ==>
          uiState.preferences == old(uiState.preferences) &&
          uiState.error == Some(reloaded.message.GetOr(LoadErrorDefault)))
      ensures written.Failure? ==>
        uiState == old(uiState).(isLoading := false, error := Some(written.message.GetOr(SaveErrorDefault))) &&
        published == old(published) + [old(uiState).(isLoading := true), uiState]
    {
      uiState := uiState.(isLoading := true);
      published := published + [uiState];
      var editingId := uiState.editingId;
      var newPref := NewPreference(editingId, threshold, tag, date, time);
      write := UpsertPreferences(editingId, newPref);
      match written {
        case Success(_) =>
          uiState := uiState.(editingId := None);
          published := published + [uiState];
          LoadPreferences(reloaded);
        case Failure(message) =>
          uiState := uiState.(isLoading := false, error := Some(message.GetOr(SaveErrorDefault)));
          published := published + [uiState];
      }
    }

    /** `deletePreference(id)`: marks loading, deletes, then reloads with
        `reloaded`, or reports the failure. Returns the write issued. */
    method DeletePreferenceById(id: string, deleted: Result<()>, reloaded: Result<seq<UserPreferences>>)
      returns (write: WriteOp)
      modifies this
      ensures write == DeletePreference(id)
      ensures |published| > |old(published)| && published[|old(published)|] == old(uiState).(isLoading := true)
      ensures !uiState.isLoading && uiState.editingId == old(uiState.editingId)
      ensures deleted.Success? && reloaded.Success? ==>
        uiState.preferences == reloaded.value && uiState.error == None
      ensures deleted.Success? && reloaded.Failure? ==>
        uiState.preferences == old(uiState.preferences) && uiState.error == Some(reloaded.message.GetOr(LoadErrorDefault))
      ensures deleted.Failure? ==>
        uiState == old(uiState).(isLoading := false, error := Some(deleted.message.GetOr(DeleteErrorDefault))) &&
        published == old(published) + [old(uiState).(isLoading := true), uiState]
    {
      uiState := uiState.(isLoading := true);
      published := published + [uiState];
      write := DeletePreference(id);
      match deleted {
        case Success(_) =>
          LoadPreferences(reloaded);
        case Failure(message) =>
          uiState := uiState.(isLoading := false, error := Some(message.GetOr(DeleteErrorDefault)));
          published := published + [uiState];
      }
    }

    /** `startEditing(pref, fillInputs)`: remembers the preference's id and returns
        what `fillInputs` receives, the threshold as text and the tag. The text reads
        back as the threshold. */
    method StartEditing(pref: UserPreferences) returns (thresholdText: string, tagText: string)
      modifies this
      ensures uiState == old(uiState).(editingId := pref.id)
      ensures published == old(published) + [uiState]
      ensures thresholdText == IntToString(pref.thresholdDecibel) && tagText == pref.tag
      ensures ParseInt(thresholdText) == Some(pref.thresholdDecibel)
    {
      uiState := uiState.(editingId := pref.id);
      published := published + [uiState];
      thresholdText, tagText := IntToString(pref.thresholdDecibel), pref.tag;
      ParseIntToString(pref.thresholdDecibel);
    }
  }
}
