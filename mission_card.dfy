/**
 * The display rules of one entry card, src/components/MissionCard.tsx:
 * which poster to show, the category icon, and the fallbacks of the score,
 * platform and date lines.
 */
module MissionCard {
  import opened Optional
  import opened JsStrings
  import opened Types

  const MovieIcon: string := "\U{1F3AC}"
  const SeriesIcon: string := "\U{1F4FA}"
  const AnimeIcon: string := "\U{26E9}\U{FE0F}"
  const FallbackIcon: string := "\U{1F4FD}\U{FE0F}"

  /** `categoryIcons[entry.category] || '📽️'` */
  function CategoryIcon(category: string): (r: string)
    ensures category == "Movie" ==> r == MovieIcon
    ensures category == "Series" ==> r == SeriesIcon
    ensures category == "Anime" ==> r == AnimeIcon
    ensures r == FallbackIcon <==> category !in {"Movie", "Series", "Anime"}
  {
    match category
    case "Movie" => MovieIcon
    case "Series" => SeriesIcon
    case "Anime" => AnimeIcon
    case _ => FallbackIcon
  }

  /** `entry.custom_poster || entry.poster_url`, kept only when it is
      truthy; `None` means the category icon is shown instead. */
  function CardPoster(e: Entry): (r: Option<string>)
    ensures r.Some? ==> r.value != ""
    ensures e.customPoster.Some? && e.customPoster.value != "" ==> r == e.customPoster
    ensures (e.customPoster == None || e.customPoster == Some("")) ==>
      r == (if e.posterUrl == Some("") then None else e.posterUrl)
  {
    if e.customPoster.Some? && e.customPoster.value != "" then e.customPoster
    else if e.posterUrl.Some? && e.posterUrl.value != "" then e.posterUrl
    else None
  }

  /** `entry.date_finished?.split('T')[0] || 'N/A'` */
  function DateText(e: Entry): (r: string)
    ensures r != ""
    ensures r == "N/A" || (e.dateFinished.Some? && r <= e.dateFinished.value && 'T' !in r)
    ensures e.dateFinished.Some? && BeforeFirst(e.dateFinished.value, 'T') != "" ==>
      r == BeforeFirst(e.dateFinished.value, 'T')
    ensures e.dateFinished.None? || BeforeFirst(e.dateFinished.value, 'T') == "" ==> r == "N/A"
  {
    if e.dateFinished.Some? && BeforeFirst(e.dateFinished.value, 'T') != "" then
      BeforeFirst(e.dateFinished.value, 'T')
    else "N/A"
  }

  /** The text of a card. */
  datatype Card = Card(poster: Option<string>, icon: string, badge: real, platform: string, date: string)

  function CardOf(e: Entry): (r: Card)
    ensures r.poster == CardPoster(e) && r.icon == CategoryIcon(e.category)
    ensures r.platform == PlatformLabel(e) && r.date == DateText(e)
    ensures r.badge == ScoreOrZero(e)
    ensures r.platform != "" && r.date != ""
  {
    Card(CardPoster(e), CategoryIcon(e.category), ScoreOrZero(e), PlatformLabel(e), DateText(e))
  }

  /** The date line shows the stored date when it has no time part. */
  lemma PlainDateShown(e: Entry)
    requires e.dateFinished.Some? && e.dateFinished.value != "" && 'T' !in e.dateFinished.value
    ensures DateText(e) == e.dateFinished.value
  {
    var d := e.dateFinished.value;
    var r := BeforeFirst(d, 'T');
    if |r| < |d| {
      assert false;
    }
    assert r == d[..|r|] == d;
  }

  /** A time stamp shows its date part: the text before its 'T'. */
  lemma {:induction false} TimestampDateShown(e: Entry, date: string, time: string)
    requires date != "" && 'T' !in date
    requires e.dateFinished == Some(date + "T" + time)
    ensures DateText(e) == date
  {
    var d := e.dateFinished.value;
    var r := BeforeFirst(d, 'T');
    assert d[..|date|] == date && d[|date|] == 'T';
    assert r == d[..|r|] == date;
  }
}
