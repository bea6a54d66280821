/**
 * The rows of the three backend tables (`profiles`, `entries`, `friends`)
 * and the partial update of an entry, as src/lib/types.ts declares them.
 * A nullable column is an `Option`; strings are `seq<char>`; numbers
 * that are scores are `real` (floating point is not modelled).
 */
module Types {
  import opened Optional
  import opened JsStrings

  datatype Status = Pending | Accepted | Rejected

  datatype Profile = Profile(
    id: string,
    username: Option<string>,
    displayName: Option<string>,
    avatarUrl: Option<string>,
    themeId: string,
    createdAt: string)

  datatype Entry = Entry(
    id: string,
    userId: string,
    title: string,
    category: string,
    platform: Option<string>,
    score: Option<real>,
    dateFinished: Option<string>,
    posterUrl: Option<string>,
    customPoster: Option<string>,
    tmdbId: Option<int>,
    createdAt: string)

  datatype Friend = Friend(
    id: string,
    userId: string,
    friendId: string,
    status: Status,
    createdAt: string,
    updatedAt: string)

  /** One row of the `search_users` function's result. */
  datatype UserHit = UserHit(
    id: string,
    username: Option<string>,
    displayName: Option<string>,
    avatarUrl: Option<string>)

  /** `Partial<Entry>`: a field that is `None` is absent from the update;
      a nullable field that is present carries its own `Option`. */
  datatype Patch = Patch(
    id: Option<string>,
    userId: Option<string>,
    title: Option<string>,
    category: Option<string>,
    platform: Option<Option<string>>,
    score: Option<Option<real>>,
    dateFinished: Option<Option<string>>,
    posterUrl: Option<Option<string>>,
    customPoster: Option<Option<string>>,
    tmdbId: Option<Option<int>>,
    createdAt: Option<string>)

  /** `{ ...e, ...p }`: every field present in `p` replaces the entry's
      own, and every absent one keeps it. */
  function ApplyPatch(e: Entry, p: Patch): (r: Entry)
    ensures p.id.Some? ==> r.id == p.id.value
    ensures p.id.None? ==> r.id == e.id
    ensures p.userId.Some? ==> r.userId == p.userId.value
    ensures p.userId.None? ==> r.userId == e.userId
    ensures p.title.Some? ==> r.title == p.title.value
    ensures p.title.None? ==> r.title == e.title
    ensures p.category.Some? ==> r.category == p.category.value
    ensures p.category.None? ==> r.category == e.category
    ensures p.platform.Some? ==> r.platform == p.platform.value
    ensures p.platform.None? ==> r.platform == e.platform
    ensures p.score.Some? ==> r.score == p.score.value
    ensures p.score.None? ==> r.score == e.score
    ensures p.dateFinished.Some? ==> r.dateFinished == p.dateFinished.value
    ensures p.dateFinished.None? ==> r.dateFinished == e.dateFinished
    ensures p.posterUrl.Some? ==> r.posterUrl == p.posterUrl.value
    ensures p.posterUrl.None? ==> r.posterUrl == e.posterUrl
    ensures p.customPoster.Some? ==> r.customPoster == p.customPoster.value
    ensures p.customPoster.None? ==> r.customPoster == e.customPoster
    ensures p.tmdbId.Some? ==> r.tmdbId == p.tmdbId.value
    ensures p.tmdbId.None? ==> r.tmdbId == e.tmdbId
    ensures p.createdAt.Some? ==> r.createdAt == p.createdAt.value
    ensures p.createdAt.None? ==> r.createdAt == e.createdAt
  {
    Entry(
      p.id.GetOr(e.id),
      p.userId.GetOr(e.userId),
      p.title.GetOr(e.title),
      p.category.GetOr(e.category),
      p.platform.GetOr(e.platform),
      p.score.GetOr(e.score),
      p.dateFinished.GetOr(e.dateFinished),
      p.posterUrl.GetOr(e.posterUrl),
      p.customPoster.GetOr(e.customPoster),
      p.tmdbId.GetOr(e.tmdbId),
      p.createdAt.GetOr(e.createdAt))
  }

  /** `e.score || 0`: a null score counts as 0. */
  function ScoreOrZero(e: Entry): (r: real)
    ensures e.score.Some? ==> r == e.score.value
    ensures e.score.None? ==> r == 0.0
  {
    e.score.GetOr(0.0)
  }

  /** `e.platform || 'Unknown'`, shared by the card and the statistics. */
  function PlatformLabel(e: Entry): (r: string)
    ensures r != ""
    ensures r == "Unknown" || e.platform == Some(r)
    ensures e.platform.Some? && e.platform.value != "" ==> r == e.platform.value
    ensures e.platform.None? || e.platform.value == "" ==> r == "Unknown"
  {
    OrElse(e.platform, "Unknown")
  }
}
