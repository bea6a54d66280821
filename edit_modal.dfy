/**
 * The edit dialog of src/components/EditModal.tsx: the form starts from
 * the entry with its nulls replaced by empty values, and saving sends
 * back six fields with the empty ones turned into nulls.
 */
module EditModal {
  import opened Optional
  import opened JsStrings
  import opened Types

  datatype EditForm = EditForm(
    title: string,
    category: string,
    platform: string,
    score: real,
    dateFinished: string,
    customPoster: string)

  /** `x || ''` on a nullable string. */
  function EmptyIfNull(x: Option<string>): (r: string)
    ensures r == "" <==> x == None || x == Some("")
    ensures r != "" ==> x == Some(r)
  {
    if x.Some? then x.value else ""
  }

  /** `entry.date_finished?.split('T')[0] || ''`: the date part of a time
      stamp, or '' for a null date. */
  function DatePart(x: Option<string>): (r: string)
    ensures x.None? ==> r == ""
    ensures x.Some? ==> r <= x.value && 'T' !in r
    ensures x.Some? && |r| < |x.value| ==> x.value[|r|] == 'T'
  {
    if x.Some? then BeforeFirst(x.value, 'T') else ""
  }

  /** The form's initial state. */
  function InitialForm(e: Entry): (r: EditForm)
    ensures r.title == e.title && r.category == e.category
    ensures r.platform == "" <==> e.platform == None || e.platform == Some("")
    ensures e.platform.Some? ==> r.platform == e.platform.value
    ensures r.score == ScoreOrZero(e)
    ensures r.dateFinished == DatePart(e.dateFinished)
    ensures r.customPoster == "" <==> e.customPoster == None || e.customPoster == Some("")
    ensures e.customPoster.Some? ==> r.customPoster == e.customPoster.value
  {
    EditForm(e.title, e.category, EmptyIfNull(e.platform), ScoreOrZero(e),
             DatePart(e.dateFinished), EmptyIfNull(e.customPoster))
  }

  /** The `onSave` argument: title, category and score as they are, an
      empty platform, date or custom poster as null, and no other field,
      so the id, owner, catalogue poster and catalogue id are untouched. */
  function EditPayload(f: EditForm): (r: Patch)
    ensures r.title == Some(f.title) && r.category == Some(f.category)
    ensures r.score == Some(Some(f.score))
    ensures r.platform.Some? && (r.platform.value.None? <==> f.platform == "")
    ensures r.dateFinished.Some? && (r.dateFinished.value.None? <==> f.dateFinished == "")
    ensures r.customPoster.Some? && (r.customPoster.value.None? <==> f.customPoster == "")
    ensures f.platform != "" ==> r.platform == Some(Some(f.platform))
    ensures f.dateFinished != "" ==> r.dateFinished == Some(Some(f.dateFinished))
    ensures f.customPoster != "" ==> r.customPoster == Some(Some(f.customPoster))
    ensures r.id.None? && r.userId.None? && r.posterUrl.None? && r.tmdbId.None? && r.createdAt.None?
  {
    Patch(None, None, Some(f.title), Some(f.category), Some(NullIfEmpty(f.platform)),
          Some(Some(f.score)), Some(NullIfEmpty(f.dateFinished)), None,
          Some(NullIfEmpty(f.customPoster)), None, None)
  }

  /** An empty string read as null. */
  function Normalized(x: Option<string>): (r: Option<string>)
    ensures r == None <==> x == None || x == Some("")
    ensures r.Some? ==> r == x
  {
    if x == Some("") then None else x
  }

  /** Saving without edits gives the entry back with a null score as 0,
      the date cut at its 'T', and empty strings as nulls; all the other
      fields are untouched. */
  lemma {:induction false} SaveWithoutEdits(e: Entry)
    ensures ApplyPatch(e, EditPayload(InitialForm(e)))
      == e.(platform := Normalized(e.platform),
            score := Some(ScoreOrZero(e)),
            dateFinished := Normalized(if e.dateFinished.Some? then Some(DatePart(e.dateFinished)) else None),
            customPoster := Normalized(e.customPoster))
  {
  }

  /** So an entry with a score, no empty strings and a date without a
      time part is saved unchanged. */
  lemma SaveWithoutEditsIsIdentity(e: Entry)
    requires e.score.Some?
    requires e.platform != Some("") && e.customPoster != Some("")
    requires e.dateFinished.Some? ==> e.dateFinished.value != "" && 'T' !in e.dateFinished.value
    ensures ApplyPatch(e, EditPayload(InitialForm(e))) == e
  {
    SaveWithoutEdits(e);
    if e.dateFinished.Some? {
      var d := e.dateFinished.value;
      var r := BeforeFirst(d, 'T');
      if |r| < |d| {
        assert false;
      }
      assert r == d[..|r|] == d;
      assert DatePart(e.dateFinished) == d;
    }
  }

  /** The preview under the custom-poster field: shown when the field or
      the catalogue poster is non-empty, with the field taking precedence;
      the caption says whether the custom poster is the one shown. */
  datatype Preview = Preview(src: string, caption: string)

  function PreviewOf(customPoster: string, posterUrl: Option<string>): (r: Option<Preview>)
    ensures r.None? <==> customPoster == "" && (posterUrl == None || posterUrl == Some(""))
    ensures r.Some? && customPoster != "" ==> r.value.src == customPoster
    ensures r.Some? && customPoster == "" ==> Some(r.value.src) == posterUrl
    ensures r.Some? ==> (r.value.caption == "Custom poster" <==> customPoster != "")
  {
    if customPoster != "" then Some(Preview(customPoster, "Custom poster"))
    else if posterUrl.Some? && posterUrl.value != "" then Some(Preview(posterUrl.value, "TMDB poster"))
    else None
  }

  class EditModal {
    const entry: Entry
    var form: EditForm
    var loading: bool

    constructor(e: Entry)
      ensures entry == e && form == InitialForm(e) && !loading
    {
      entry := e;
      form := InitialForm(e);
      loading := false;
    }

    /** The form's inputs, as edited. */
    method Edit(f: EditForm)
      modifies this
      ensures form == f && loading == old(loading)
    {
      form := f;
    }

    /** `handleSubmit`: the payload of the current form; `loading` is set
        and cleared around the call, so it ends false. */
    method Submit() returns (updates: Patch)
      modifies this
      ensures updates == EditPayload(old(form))
      ensures form == old(form) && !loading
    {
      loading := true;
      updates := EditPayload(form);
      loading := false;
    }

    /** The preview of the current form: none when both the field and
        the catalogue poster are empty, otherwise the field first. */
    function CurrentPreview(): (r: Option<Preview>)
      reads this
      ensures r.None? <==> form.customPoster == "" && (entry.posterUrl == None || entry.posterUrl == Some(""))
      ensures r.Some? ==> r.value.src == (if form.customPoster != "" then form.customPoster else entry.posterUrl.value)
    {
      PreviewOf(form.customPoster, entry.posterUrl)
    }
  }
}
