/**
 * The Letterboxd CSV import: the quote-aware comma splitter of one line,
 * the header-name lookup that turns the data lines into import records
 * with their defaults, and the sequential enrichment loop that merges
 * the top search hit into each record and keeps every record.
 *
 * The format is a subset of the CSV of section 2 of RFC 4180: a comma
 * inside a quoted span does not end a field (rule 6), but the text is
 * split on line feeds first, so a quoted line break does end the row,
 * and a doubled quote (rule 7) is not collapsed.
 */
module CsvImport {
  import opened Optional
  import opened JsStrings
  import opened Seqs
  import opened TmdbSearch

  // ---------------------------------------------------------------
  // One line: the quote-aware split
  // ---------------------------------------------------------------

  /** Glues `p` in front of the first of `fields`. */
  function PrependTo(p: string, fields: seq<string>): (r: seq<string>)
    requires |fields| >= 1
    ensures |r| == |fields| && r[0] == p + fields[0] && r[1..] == fields[1..]
  {
    [p + fields[0]] + fields[1..]
  }

  /** The raw pieces of `line` from position `i` on, cut at the commas
      that lie outside quotes, `inQuotes` being the quote state at `i`.
      Every `"` flips the state and stays in its piece. */
  function Pieces(line: string, i: nat, inQuotes: bool): (r: seq<string>)
    requires i <= |line|
    ensures |r| >= 1
    decreases |line| - i
  {
    if i == |line| then [""]
    else if line[i] == '"' then PrependTo("\"", Pieces(line, i + 1, !inQuotes))
    else if line[i] == ',' && !inQuotes then [""] + Pieces(line, i + 1, inQuotes)
    else PrependTo([line[i]], Pieces(line, i + 1, inQuotes))
  }

  /** The raw pieces of a whole line. */
  function Split(line: string): seq<string>
  {
    Pieces(line, 0, false)
  }

  /** The number of `"` in `s`. */
  function CountQuotes(s: string): nat
  {
    if s == [] then 0
    else CountQuotes(s[..|s| - 1]) + (if s[|s| - 1] == '"' then 1 else 0)
  }

  /** The number of commas of `s` preceded by an even number of quotes,
      that is, outside every quoted span. */
  function UnquotedCommas(s: string): nat
  {
    if s == [] then 0
    else
      var init := s[..|s| - 1];
      UnquotedCommas(init) + (if s[|s| - 1] == ',' && CountQuotes(init) % 2 == 0 then 1 else 0)
  }

  /** `.replace(/^"|"$/g, '')`: one leading and one trailing quote removed. */
  function StripQuotes(t: string): string
  {
    var u := if |t| > 0 && t[0] == '"' then t[1..] else t;
    if |u| > 0 && u[|u| - 1] == '"' then u[..|u| - 1] else u
  }

  /** Unquoting removes at most the one leading and the one trailing `"`
      and keeps everything between them, inner quotes included. */
  lemma {:induction false} StripQuotesSlice(t: string)
    ensures var r := StripQuotes(t);
      var a := if |t| > 0 && t[0] == '"' then 1 else 0;
      && a + |r| <= |t| <= a + |r| + 1
      && r == t[a..a + |r|]
      && (a + |r| < |t| <==> |t| > a && t[|t| - 1] == '"')
  {
  }

  /** A field as the splitter emits it: trimmed, unquoted once, trimmed again. */
  function CleanField(raw: string): string
  {
    Trim(StripQuotes(Trim(raw)))
  }

  function CleanAll(raws: seq<string>): (r: seq<string>)
    ensures |r| == |raws| && forall k :: 0 <= k < |r| ==> r[k] == CleanField(raws[k])
  {
    seq(|raws|, k requires 0 <= k < |raws| => CleanField(raws[k]))
  }

  /** The fields `parseLine` returns for `line`. */
  function Fields(line: string): seq<string>
  {
    CleanAll(Split(line))
  }

  /** Joining the raw pieces with commas gives the text back: the split
      loses no character and keeps the order. */
  lemma {:induction false} JoinPieces(line: string, i: nat, inQuotes: bool)
    requires i <= |line|
    ensures Join(Pieces(line, i, inQuotes), ',') == line[i..]
    decreases |line| - i
  {
    if i < |line| {
      var q' := if line[i] == '"' then !inQuotes else inQuotes;
      var rest := Pieces(line, i + 1, q');
      JoinPieces(line, i + 1, q');
      assert line[i..] == [line[i]] + line[i + 1..];
      if line[i] == ',' && !inQuotes {
        JoinCons(rest);
      } else {
        JoinPrepend([line[i]], rest);
      }
    }
  }

  /** The round trip for a whole line. */
  lemma JoinSplit(line: string)
    ensures Join(Split(line), ',') == line
  {
    JoinPieces(line, 0, false);
  }

  /** A run of characters that neither flip the quote state nor close a
      field joins the piece it starts in, whole. */
  lemma {:induction false} PiecesRun(line: string, i: nat, j: nat, inQuotes: bool)
    requires i <= j <= |line|
    requires '"' !in line[i..j] && (inQuotes || ',' !in line[i..j])
    ensures Pieces(line, i, inQuotes) == PrependTo(line[i..j], Pieces(line, j, inQuotes))
    decreases j - i
  {
    if i == j {
      assert line[i..j] == "";
      PrependEmpty(Pieces(line, j, inQuotes));
    } else {
      assert line[i..j] == [line[i]] + line[i + 1..j];
      PiecesRun(line, i + 1, j, inQuotes);
      PrependTwice([line[i]], line[i + 1..j], Pieces(line, j, inQuotes));
    }
  }

  /** The pieces of a suffix do not depend on what comes before it, given
      the quote state at its start. */
  lemma {:induction false} PiecesShift(a: string, b: string, k: nat, inQuotes: bool)
    requires k <= |b|
    ensures Pieces(a + b, |a| + k, inQuotes) == Pieces(b, k, inQuotes)
    decreases |b| - k
  {
    if k < |b| {
      assert (a + b)[|a| + k] == b[k];
      PiecesShift(a, b, k + 1, if b[k] == '"' then !inQuotes else inQuotes);
    }
  }

  /** A comma inside a quoted span does not split: a quoted field without
      inner quotes, then a comma, is one piece, quotes included, followed by
      the pieces of the rest. So `"Movie, The",2020,4.5` gives three pieces. */
  lemma QuotedSplit(inner: string, rest: string)
    requires '"' !in inner
    ensures Split("\"" + inner + "\"," + rest) == ["\"" + inner + "\""] + Split(rest)
  {
    var head := "\"" + inner + "\",";
    var line := head + rest;
    var n := |inner|;
    assert line[0] == '"' && line[n + 1] == '"' && line[n + 2] == ',';
    assert line[1..n + 1] == inner;
    PiecesRun(line, 1, n + 1, true);
    PiecesShift(head, rest, 0, false);
    var s := Split(rest);
    assert Pieces(line, n + 2, false) == [""] + s;
    assert ([""] + s)[1..] == s && "\"" + "" == "\"";
    assert Pieces(line, n + 1, true) == ["\""] + s;
    assert Pieces(line, 1, true) == [inner + "\""] + s;
    assert Pieces(line, 0, false) == ["\"" + (inner + "\"")] + s;
    assert "\"" + (inner + "\"") == "\"" + inner + "\"";
    assert line == "\"" + inner + "\"," + rest;
  }

  /** ... and once cleaned, that field is its inner text, trimmed, with
      the quotes gone and the comma kept. */
  lemma QuotedFields(inner: string, rest: string)
    requires '"' !in inner
    ensures Fields("\"" + inner + "\"," + rest) == [Trim(inner)] + Fields(rest)
  {
    var t := "\"" + inner + "\"";
    QuotedSplit(inner, rest);
    assert TrimStart(t) == t;
    assert TrimEnd(t) == t;
    assert t[1..] == inner + "\"";
    assert StripQuotes(t) == inner;
    var s := Split(rest);
    assert CleanAll([t] + s) == [CleanField(t)] + CleanAll(s);
  }

  /** A field without quotes or commas, then a comma, is a piece of its own. */
  lemma PlainSplit(field: string, rest: string)
    requires '"' !in field && ',' !in field
    ensures Split(field + "," + rest) == [field] + Split(rest)
  {
    var head := field + ",";
    var line := head + rest;
    var n := |field|;
    assert line[..n] == field && line[n] == ',';
    assert line[0..n] == field;
    PiecesRun(line, 0, n, false);
    PiecesShift(head, rest, 0, false);
    assert Pieces(line, n, false) == [""] + Split(rest);
    assert field + "" == field && ([""] + Split(rest))[1..] == Split(rest);
    assert line == field + "," + rest;
  }

  lemma {:induction false} JoinCons(fields: seq<string>)
    requires |fields| >= 1
    ensures Join([""] + fields, ',') == [','] + Join(fields, ',')
  {
    assert ([""] + fields)[1..] == fields;
  }

  lemma {:induction false} JoinPrepend(p: string, fields: seq<string>)
    requires |fields| >= 1
    ensures Join(PrependTo(p, fields), ',') == p + Join(fields, ',')
  {
    var r := PrependTo(p, fields);
    if |fields| == 1 {
      assert |r| == 1;
      assert Join(r, ',') == r[0];
    } else {
      assert |r| > 1;
      assert Join(r, ',') == r[0] + [','] + Join(r[1..], ',');
      assert Join(fields, ',') == fields[0] + [','] + Join(fields[1..], ',');
    }
  }

  lemma {:induction false} PrependEmpty(fields: seq<string>)
    requires |fields| >= 1
    ensures PrependTo("", fields) == fields
  {
    assert "" + fields[0] == fields[0];
  }

  lemma {:induction false} PrependTwice(p: string, q: string, fields: seq<string>)
    requires |fields| >= 1
    ensures PrependTo(p, PrependTo(q, fields)) == PrependTo(p + q, fields)
  {
    assert p + (q + fields[0]) == (p + q) + fields[0];
  }

  /** One character of the scan: a comma outside quotes closes the
      current piece, any other character joins it. */
  lemma {:induction false} PiecesStep(line: string, start: nat, i: nat, inQuotes: bool)
    requires start <= i < |line|
    ensures var q' := if line[i] == '"' then !inQuotes else inQuotes;
      var rest := Pieces(line, i + 1, q');
      && (line[i] == ',' && !inQuotes ==>
            PrependTo(line[start..i], Pieces(line, i, inQuotes))
            == [line[start..i]] + PrependTo(line[i + 1..i + 1], rest))
      && (!(line[i] == ',' && !inQuotes) ==>
            PrependTo(line[start..i], Pieces(line, i, inQuotes))
            == PrependTo(line[start..i + 1], rest))
  {
    var q' := if line[i] == '"' then !inQuotes else inQuotes;
    var rest := Pieces(line, i + 1, q');
    if line[i] == ',' && !inQuotes {
      assert Pieces(line, i, inQuotes) == [""] + rest;
      PrependEmpty(rest);
      assert line[i + 1..i + 1] == "";
      assert ([""] + rest)[1..] == rest;
      assert line[start..i] + "" == line[start..i];
    } else {
      assert Pieces(line, i, inQuotes) == PrependTo([line[i]], rest);
      PrependTwice(line[start..i], [line[i]], rest);
      assert line[start..i] + [line[i]] == line[start..i + 1];
    }
  }

  /** The two counts, one character further. */
  lemma {:induction false} CountStep(line: string, i: nat)
    requires i < |line|
    ensures CountQuotes(line[..i + 1]) == CountQuotes(line[..i]) + (if line[i] == '"' then 1 else 0)
    ensures UnquotedCommas(line[..i + 1])
      == UnquotedCommas(line[..i]) + (if line[i] == ',' && CountQuotes(line[..i]) % 2 == 0 then 1 else 0)
  {
    assert line[..i + 1][..i] == line[..i];
  }

  lemma {:induction false} CleanAllSnoc(raws: seq<string>, x: string)
    ensures CleanAll(raws + [x]) == CleanAll(raws) + [CleanField(x)]
  {
    var a, b := CleanAll(raws + [x]), CleanAll(raws) + [CleanField(x)];
    assert |a| == |b|;
    forall k | 0 <= k < |a| ensures a[k] == b[k] {
      if k < |raws| {
        assert (raws + [x])[k] == raws[k];
      } else {
        assert (raws + [x])[k] == x;
      }
    }
  }

  /** What the scan of `parseLine` knows after the first `i` characters:
      its quote state, the pieces it has closed, and that those pieces
      followed by the open one and the rest of the line make up `Split`. */
  ghost predicate Scanned(line: string, i: nat, start: nat, inQuotes: bool, raw: seq<string>)
    requires start <= i <= |line|
  {
    && inQuotes == (CountQuotes(line[..i]) % 2 == 1)
    && |raw| == UnquotedCommas(line[..i])
    && Split(line) == raw + PrependTo(line[start..i], Pieces(line, i, inQuotes))
  }

  lemma {:induction false} ScanBegin(line: string)
    ensures Scanned(line, 0, 0, false, [])
  {
    PrependEmpty(Split(line));
    assert line[0..0] == "";
  }

  /** The quote state and the number of closed pieces, one character further. */
  lemma {:induction false} CountsStep(line: string, i: nat, inQuotes: bool, n: nat)
    requires i < |line|
    requires inQuotes == (CountQuotes(line[..i]) % 2 == 1)
    requires n == UnquotedCommas(line[..i])
    ensures var cut := line[i] == ',' && !inQuotes;
      && (if line[i] == '"' then !inQuotes else inQuotes) == (CountQuotes(line[..i + 1]) % 2 == 1)
      && (if cut then n + 1 else n) == UnquotedCommas(line[..i + 1])
  {
    CountStep(line, i);
  }

  /** The closed pieces and the open one, one character further. */
  lemma {:induction false} PiecesInvStep(line: string, i: nat, start: nat, inQuotes: bool, raw: seq<string>)
    requires start <= i < |line|
    requires Split(line) == raw + PrependTo(line[start..i], Pieces(line, i, inQuotes))
    ensures var cut := line[i] == ',' && !inQuotes;
      var start' := if cut then i + 1 else start;
      var raw' := if cut then raw + [line[start..i]] else raw;
      Split(line) == raw' + PrependTo(line[start'..i + 1], Pieces(line, i + 1, if line[i] == '"' then !inQuotes else inQuotes))
  {
    PiecesStep(line, start, i, inQuotes);
    var q' := if line[i] == '"' then !inQuotes else inQuotes;
    if line[i] == ',' && !inQuotes {
      assert q' == inQuotes;
      var open := PrependTo(line[i + 1..i + 1], Pieces(line, i + 1, inQuotes));
      assert PrependTo(line[start..i], Pieces(line, i, inQuotes)) == [line[start..i]] + open;
      assert raw + ([line[start..i]] + open) == (raw + [line[start..i]]) + open;
    } else {
      assert PrependTo(line[start..i], Pieces(line, i, inQuotes)) == PrependTo(line[start..i + 1], Pieces(line, i + 1, q'));
    }
  }

  /** One character further, the scan knows as much again. */
  lemma {:induction false} ScanStep(line: string, i: nat, start: nat, inQuotes: bool, raw: seq<string>)
    requires start <= i < |line| && Scanned(line, i, start, inQuotes, raw)
    ensures var cut := line[i] == ',' && !inQuotes;
      Scanned(line, i + 1, if cut then i + 1 else start,
              if line[i] == '"' then !inQuotes else inQuotes,
              if cut then raw + [line[start..i]] else raw)
  {
    CountsStep(line, i, inQuotes, |raw|);
    PiecesInvStep(line, i, start, inQuotes, raw);
  }

  /** At the end of the line the open piece is the last one. */
  lemma {:induction false} ScanEnd(line: string, start: nat, inQuotes: bool, raw: seq<string>)
    requires start <= |line| && Scanned(line, |line|, start, inQuotes, raw)
    ensures raw + [line[start..]] == Split(line)
    ensures |raw| == UnquotedCommas(line)
  {
    assert line[..|line|] == line;
    assert Pieces(line, |line|, inQuotes) == [""];
    assert line[start..|line|] + "" == line[start..];
  }

  /** `parseLine`: a single pass that flips `inQuotes` on every `"` and
      cuts a field at every comma met outside quotes. It returns one field
      more than there are unquoted commas, the cleaned pieces of `Split`. */
  method ParseLine(line: string) returns (fields: seq<string>)
    ensures fields == Fields(line)
    ensures |fields| == UnquotedCommas(line) + 1
  {
    fields := [];
    ghost var raw: seq<string> := [];
    var start := 0;
    var inQuotes := false;
    ScanBegin(line);
    for i := 0 to |line|
      invariant start <= i
      invariant Scanned(line, i, start, inQuotes, raw)
      invariant fields == CleanAll(raw)
    {
      ScanStep(line, i, start, inQuotes, raw);
      if line[i] == '"' {
        inQuotes := !inQuotes;
      }
      if line[i] == ',' && !inQuotes {
        CleanAllSnoc(raw, line[start..i]);
        fields := fields + [CleanField(line[start..i])];
        raw := raw + [line[start..i]];
        start := i + 1;
      }
    }
    ScanEnd(line, start, inQuotes, raw);
    CleanAllSnoc(raw, line[start..]);
    fields := fields + [CleanField(line[start..])];
    raw := raw + [line[start..]];
  }

  // ---------------------------------------------------------------
  // The whole file: header lookup and records
  // ---------------------------------------------------------------

  const ImportCategory: string := "Movie"
  const ImportPlatform: string := "Letterboxd Import"

  /** A record of the import. `title` is `None` when the row has no value
      in the name column (JavaScript `undefined`); `posterUrl` and `tmdbId`
      are absent until enrichment sets them. */
  datatype ImportRecord = ImportRecord(
    title: Option<string>,
    dateFinished: string,
    score: real,
    category: string,
    platform: string,
    posterUrl: Option<string>,
    tmdbId: Option<int>)

  /** `values[idx]`, which is `undefined` for -1 or past the end. */
  function FieldAt(values: seq<string>, idx: int): (r: Option<string>)
    ensures r.Some? <==> 0 <= idx < |values|
    ensures r.Some? ==> r.value == values[idx]
  {
    if 0 <= idx < |values| then Some(values[idx]) else None
  }

  function Lines(text: string): seq<string>
  {
    SplitOn(text, '\n')
  }

  /** The header row, lowercased, split on every comma and trimmed. */
  function Headers(text: string): (r: seq<string>)
    ensures var h := SplitOn(ToLower(Lines(text)[0]), ',');
      |r| == |h| && forall k :: 0 <= k < |r| ==> r[k] == Trim(h[k])
  {
    var h := SplitOn(ToLower(Lines(text)[0]), ',');
    seq(|h|, k requires 0 <= k < |h| => Trim(h[k]))
  }

  predicate NonBlank(line: string)
  {
    Trim(line) != ""
  }

  /** `lines.slice(1).filter(l => l.trim())` */
  function DataLines(text: string): seq<string>
  {
    Filter(Lines(text)[1..], NonBlank)
  }

  /** The record built from one line's fields. */
  function MakeRecord(values: seq<string>, nameIdx: int, dateIdx: int, ratingIdx: int,
                      today: string, parseRating: string -> real): (r: ImportRecord)
    ensures r.title == FieldAt(values, nameIdx)
    ensures r.dateFinished == OrElse(FieldAt(values, dateIdx), today)
    ensures OrElse(FieldAt(values, ratingIdx), "") == "" ==> r.score == 0.0
    ensures OrElse(FieldAt(values, ratingIdx), "") != "" ==> r.score == parseRating(values[ratingIdx])
    ensures r.category == ImportCategory && r.platform == ImportPlatform
    ensures r.posterUrl.None? && r.tmdbId.None?
  {
    var rating := FieldAt(values, ratingIdx);
    ImportRecord(
      FieldAt(values, nameIdx),
      OrElse(FieldAt(values, dateIdx), today),
      if OrElse(rating, "") != "" then parseRating(rating.value) else 0.0,
      ImportCategory,
      ImportPlatform,
      None,
      None)
  }

  /** `parseCSV`. `today` is the ISO date of the clock; `parseRating`
      stands for `parseFloat`. */
  function ParseCsv(text: string, today: string, parseRating: string -> real): (r: seq<ImportRecord>)
    // no name column: nothing, whatever the data lines
    ensures "name" !in Headers(text) ==> r == []
    // a name column: one record per non-blank data line, in order, even
    // when its name field is empty or missing
    ensures "name" in Headers(text) ==> |r| == |DataLines(text)|
    ensures forall k :: 0 <= k < |r| ==>
      r[k] == MakeRecord(Fields(DataLines(text)[k]),
                         IndexOf(Headers(text), "name"),
                         IndexOf(Headers(text), "watched date"),
                         IndexOf(Headers(text), "rating"), today, parseRating)
  {
    var headers := Headers(text);
    var data := DataLines(text);
    var nameIdx := IndexOf(headers, "name");
    var dateIdx := IndexOf(headers, "watched date");
    var ratingIdx := IndexOf(headers, "rating");
    if nameIdx == -1 then []
    else seq(|data|, k requires 0 <= k < |data| =>
               MakeRecord(Fields(data[k]), nameIdx, dateIdx, ratingIdx, today, parseRating))
  }

  /** Every parsed record has a non-empty finish date (given the clock's
      non-empty date) and the fixed category and platform. */
  lemma ParsedDefaults(text: string, today: string, parseRating: string -> real)
    requires today != ""
    ensures forall rec :: rec in ParseCsv(text, today, parseRating) ==>
      rec.dateFinished != "" && rec.category == "Movie" && rec.platform == "Letterboxd Import"
  {
  }

  // ---------------------------------------------------------------
  // Enrichment
  // ---------------------------------------------------------------

  /** What one request to the search route gave: `fetch` or `res.json()`
      threw, or the route answered (with results or with an error body). */
  datatype Lookup = FetchFailed | Replied(response: Response)

  /** `data.results && data.results.length > 0 ? data.results[0] : none` */
  function TopHit(l: Lookup): (r: Option<Hit>)
    ensures r.Some? <==> l.Replied? && l.response.body.ResultsBody? && |l.response.body.results| > 0
    ensures r.Some? ==> r.value == l.response.body.results[0]
  {
    if l.Replied? && l.response.body.ResultsBody? && |l.response.body.results| > 0
    then Some(l.response.body.results[0]) else None
  }

  /** One record after its lookup: a top hit overwrites the poster, the
      TMDB id and the title, and supplies a date only when the record has
      none; no hit (or a failed lookup) leaves the record as it was. */
  function Enrich(rec: ImportRecord, l: Lookup): (r: ImportRecord)
    ensures TopHit(l).None? ==> r == rec
    ensures TopHit(l).Some? ==>
              && r.posterUrl == TopHit(l).value.posterUrl
              && r.tmdbId == Some(TopHit(l).value.id)
              && r.title == TopHit(l).value.title
              && r.score == rec.score && r.category == rec.category && r.platform == rec.platform
    ensures rec.dateFinished != "" ==> r.dateFinished == rec.dateFinished
  {
    match TopHit(l)
    case None => rec
    case Some(top) =>
      rec.(posterUrl := top.posterUrl, tmdbId := Some(top.id), title := top.title,
           dateFinished := OrElse(Some(rec.dateFinished), top.year + "-01-01"))
  }

  /** A progress report `{current, total, status}`. */
  datatype Progress = Progress(current: nat, total: nat, status: string)

  /** The query of one search request (the route is always asked for movies). */
  datatype SearchRequest = SearchRequest(query: string, searchType: string)

  /** A title in a template string: `undefined` prints as "undefined". */
  function TitleText(title: Option<string>): string
  {
    title.GetOr("undefined")
  }

  /** The loop of `startImport` over the parsed records: for each record
      in turn report progress, ask the search route, merge the top hit
      and keep the record; then report saving. `respond(i)` is the
      route's answer to the i-th request. */
  method EnrichRecords(allEntries: seq<ImportRecord>, respond: nat -> Lookup)
    returns (processed: seq<ImportRecord>, requests: seq<SearchRequest>, progress: seq<Progress>)
    ensures |processed| == |allEntries|
    ensures forall k :: 0 <= k < |allEntries| ==> processed[k] == Enrich(allEntries[k], respond(k))
    ensures |requests| == |allEntries|
    ensures forall k :: 0 <= k < |allEntries| ==>
      requests[k] == SearchRequest(TitleText(allEntries[k].title), "movie")
    ensures |progress| == |allEntries| + 2
    ensures progress[0] == Progress(0, |allEntries|, "Starting...")
    ensures forall k :: 0 <= k < |allEntries| ==>
      progress[k + 1] == Progress(k + 1, |allEntries|, "Fetching: " + TitleText(allEntries[k].title))
    ensures progress[|allEntries| + 1] == Progress(|allEntries|, |allEntries|, "Saving to Database...")
  {
    var total := |allEntries|;
    progress := [Progress(0, total, "Starting...")];
    requests := [];
    processed := [];
    for i := 0 to total
      invariant |processed| == i && |requests| == i && |progress| == i + 1
      invariant forall k :: 0 <= k < i ==> processed[k] == Enrich(allEntries[k], respond(k))
      invariant forall k :: 0 <= k < i ==> requests[k] == SearchRequest(TitleText(allEntries[k].title), "movie")
      invariant progress[0] == Progress(0, total, "Starting...")
      invariant forall k :: 0 <= k < i ==>
        progress[k + 1] == Progress(k + 1, total, "Fetching: " + TitleText(allEntries[k].title))
    {
      var entry := allEntries[i];
      progress := progress + [Progress(i + 1, total, "Fetching: " + TitleText(entry.title))];
      requests := requests + [SearchRequest(TitleText(entry.title), "movie")];
      var reply := respond(i);
      match TopHit(reply) {
        case Some(top) =>
          entry := entry.(posterUrl := top.posterUrl);
          entry := entry.(tmdbId := Some(top.id));
          entry := entry.(title := top.title);
          entry := entry.(dateFinished := OrElse(Some(entry.dateFinished), top.year + "-01-01"));
        case None =>
      }
      processed := processed + [entry];
    }
    progress := progress + [Progress(total, total, "Saving to Database...")];
  }

  /** `startImport`: nothing without a file; otherwise parse the file,
      enrich every record and hand all of them on. */
  method StartImport(file: Option<string>, today: string, parseRating: string -> real,
                     respond: nat -> Lookup)
    returns (imported: Option<seq<ImportRecord>>, requests: seq<SearchRequest>, progress: seq<Progress>)
    ensures file.None? ==> imported.None? && requests == [] && progress == []
    ensures file.Some? ==>
      var records := ParseCsv(file.value, today, parseRating);
      && imported.Some?
      && |imported.value| == |records|
      && (forall k :: 0 <= k < |records| ==> imported.value[k] == Enrich(records[k], respond(k)))
      && |progress| == |records| + 2
  {
    if file.None? {
      return None, [], [];
    }
    var allEntries := ParseCsv(file.value, today, parseRating);
    var processed;
    processed, requests, progress := EnrichRecords(allEntries, respond);
    imported := Some(processed);
  }

  /** Enrichment never touches the finish date of a parsed record: the
      parser always fills it, so the year fallback never fires. */
  lemma {:induction false} EnrichKeepsParsedDate(text: string, today: string, parseRating: string -> real,
                                                 respond: nat -> Lookup, k: nat)
    requires today != ""
    requires k < |ParseCsv(text, today, parseRating)|
    ensures var rec := ParseCsv(text, today, parseRating)[k];
      Enrich(rec, respond(k)).dateFinished == rec.dateFinished
  {
    ParsedDefaults(text, today, parseRating);
    assert ParseCsv(text, today, parseRating)[k] in ParseCsv(text, today, parseRating);
  }
}
