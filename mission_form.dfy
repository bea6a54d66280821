/**
 * The new-entry form of src/components/MissionForm.tsx: its fields are
 * state, a submit with a blank title does nothing, and any other submit
 * hands a payload to the dashboard and clears some of the fields.
 */
module MissionForm {
  import opened Optional
  import opened JsStrings

  /** `Omit<Entry, 'id' | 'user_id' | 'created_at'>` as the form fills it. */
  datatype NewEntry = NewEntry(
    title: string,
    category: string,
    platform: Option<string>,
    score: real,
    dateFinished: string,
    posterUrl: Option<string>,
    customPoster: Option<string>,
    tmdbId: Option<int>)

  const DefaultCategory: string := "Movie"

  /** The object passed to `onSubmit`: the title is not trimmed, an empty
      platform or poster URL becomes null, and there is never a custom
      poster or a catalogue id. */
  function Payload(title: string, category: string, platform: string, score: real,
                   dateFinished: string, posterUrl: string): (r: NewEntry)
    ensures r.title == title && r.category == category
    ensures r.score == score && r.dateFinished == dateFinished
    ensures r.platform.None? <==> platform == ""
    ensures r.platform.Some? ==> r.platform.value == platform
    ensures r.posterUrl.None? <==> posterUrl == ""
    ensures r.posterUrl.Some? ==> r.posterUrl.value == posterUrl
    ensures r.customPoster.None? && r.tmdbId.None?
  {
    NewEntry(title, category, NullIfEmpty(platform), score, dateFinished, NullIfEmpty(posterUrl), None, None)
  }

  class MissionForm {
    var title: string
    var category: string
    var platform: string
    var score: real
    var dateFinished: string
    var posterUrl: string
    var loading: bool

    /** The initial state; `now` is the ISO time stamp of the clock, whose
        date part before the 'T' is the default date. */
    constructor(now: string)
      ensures title == "" && category == DefaultCategory && platform == ""
      ensures score == 0.0 && dateFinished == BeforeFirst(now, 'T')
      ensures posterUrl == "" && !loading
    {
      title := "";
      category := DefaultCategory;
      platform := "";
      score := 0.0;
      dateFinished := BeforeFirst(now, 'T');
      posterUrl := "";
      loading := false;
    }

    /** The inputs of the form, as typed or picked from the search. */
    method Fill(newTitle: string, newCategory: string, newPlatform: string, newScore: real,
                newDate: string, newPosterUrl: string)
      modifies this
      ensures title == newTitle && category == newCategory && platform == newPlatform
      ensures score == newScore && dateFinished == newDate && posterUrl == newPosterUrl
      ensures loading == old(loading)
    {
      title := newTitle;
      category := newCategory;
      platform := newPlatform;
      score := newScore;
      dateFinished := newDate;
      posterUrl := newPosterUrl;
    }

    /** `handleSubmit`: `None` when the trimmed title is empty, and then no
        field changes; otherwise the payload of the fields as they were,
        after which title, platform, score and poster URL are cleared
        while category and date stay for the next entry. */
    method Submit() returns (submitted: Option<NewEntry>)
      modifies this
      ensures Trim(old(title)) == "" ==>
        && submitted.None?
        && title == old(title) && category == old(category) && platform == old(platform)
        && score == old(score) && dateFinished == old(dateFinished)
        && posterUrl == old(posterUrl) && loading == old(loading)
      ensures Trim(old(title)) != "" ==>
        && submitted == Some(Payload(old(title), old(category), old(platform), old(score),
                                     old(dateFinished), old(posterUrl)))
        && title == "" && platform == "" && score == 0.0 && posterUrl == ""
        && category == old(category) && dateFinished == old(dateFinished)
        && !loading
    {
      if Trim(title) == "" {
        return None;
      }
      loading := true;
      submitted := Some(Payload(title, category, platform, score, dateFinished, posterUrl));
      title := "";
      platform := "";
      score := 0.0;
      posterUrl := "";
      loading := false;
    }
  }

  /** A title of blanks only is refused: it trims to the empty string. */
  lemma BlankTitleRefused(title: string)
    requires forall i :: 0 <= i < |title| ==> IsSpace(title[i])
    ensures Trim(title) == ""
  {
    TrimEmptyIffBlank(title);
  }

  /** A title with any visible character is accepted. */
  lemma VisibleTitleAccepted(title: string, i: nat)
    requires i < |title| && !IsSpace(title[i])
    ensures Trim(title) != ""
  {
    TrimEmptyIffBlank(title);
  }
}
