/** The per-URL work of enricher.py: how `main` classifies its URL, how
    `process_video` picks a thumbnail and fills the catalogue record, how
    `process_webpage` builds one, and the per-entry policy of the playlist
    loop. yt-dlp, requests and BeautifulSoup are replaced by their results. */
module Resolver {
  import opened Outcomes
  import opened Text
  import opened Json
  import opened Enrichment
  import opened Transcript

  /* ---------------------------------------------------------------------- */
  /* Classification in main                                                  */
  /* ---------------------------------------------------------------------- */

  datatype UrlKind = Playlist | SingleVideo | Webpage

  /** How `main` treats its URL: YouTube when it names either YouTube host,
      and then a playlist when it holds a playlist query but no video query. */
  function Classify(url: string): (kind: UrlKind)
    ensures kind == Webpage <==> !Occurs(url, "youtube.com") && !Occurs(url, "youtu.be")
    ensures kind == Playlist <==>
      (Occurs(url, "youtube.com") || Occurs(url, "youtu.be"))
      && Occurs(url, "playlist?list=") && !Occurs(url, "watch?v=")
  {
    if !(Contains(url, "youtube.com") || Contains(url, "youtu.be")) then Webpage
    else if Contains(url, "playlist?list=") && !Contains(url, "watch?v=") then Playlist
    else SingleVideo
  }

  /** A watch URL that also carries a playlist is handled as one video. */
  lemma WatchUrlWithListIsSingleVideo(url: string)
    requires Occurs(url, "youtube.com") || Occurs(url, "youtu.be")
    requires Occurs(url, "watch?v=")
    ensures Classify(url) == SingleVideo
  {
  }

  /** A needle that occurs in `url` still occurs after anything is
      appended. */
  lemma {:induction false} OccursAfterAppend(url: string, more: string, needle: string)
    requires Occurs(url, needle)
    ensures Occurs(url + more, needle)
  {
    var i :| OccursAt(url, needle, i);
    assert (url + more)[i..i + |needle|] == url[i..i + |needle|];
    assert OccursAt(url + more, needle, i);
  }

  /** A YouTube URL stays a YouTube URL, and a single video stays one, when
      anything is appended: a playlist query added after a video query does
      not turn it into a playlist. */
  lemma SingleVideoStaysSingle(url: string, more: string)
    requires Classify(url) == SingleVideo
    requires Occurs(url, "watch?v=")
    ensures Classify(url + more) == SingleVideo
  {
    if Occurs(url, "youtube.com") {
      OccursAfterAppend(url, more, "youtube.com");
    } else {
      OccursAfterAppend(url, more, "youtu.be");
    }
    OccursAfterAppend(url, more, "watch?v=");
  }

  /* ---------------------------------------------------------------------- */
  /* Python operations the thumbnail choice relies on                        */
  /* ---------------------------------------------------------------------- */

  /** `needle in v` for a string needle: substring test on a string,
      membership on a list, key test on a dictionary; other values raise. */
  function InOp(needle: string, v: Json): (r: Result<bool>)
    ensures v.Str? ==> r == Ok(Occurs(v.s, needle))
    ensures r.Raised? <==> !(v.Str? || v.Arr? || v.Obj?)
  {
    match v
    case Str(s) => Ok(Contains(s, needle))
    case Arr(items) => Ok(Str(needle) in items)
    case Obj(fields) => Ok(HasKey(fields, needle))
    case _ => Raised(TypeError)
  }

  /** `t[key]`: a dictionary's value under `key`, KeyError when it has none;
      any other value raises TypeError. */
  function Subscript(t: Json, key: string): (r: Result<Json>)
    ensures t.Obj? && HasKey(t.fields, key) ==> r.Ok? && (key, r.value) in t.fields
    ensures t.Obj? && !HasKey(t.fields, key) ==> r == Raised(KeyError)
    ensures !t.Obj? ==> r == Raised(TypeError)
  {
    match t
    case Obj(fields) => if HasKey(fields, key) then Ok(Get(fields, key, Null)) else Raised(KeyError)
    case _ => Raised(TypeError)
  }

  /* ---------------------------------------------------------------------- */
  /* Thumbnail choice in process_video                                       */
  /* ---------------------------------------------------------------------- */

  /** `next((t["url"] for t in items if marker in t.get("id", "")), None)`:
      the url of the first entry whose id holds `marker`, or None. The
      generator stops at that entry, so only entries up to it can raise. */
  function FirstMatching(items: seq<Json>, marker: string): Result<Json>
    decreases |items|
  {
    if items == [] then Ok(Null)
    else
      match items[0]
      case Obj(fields) =>
        var found :- InOp(marker, Get(fields, "id", Str("")));
        if found then Subscript(items[0], "url") else FirstMatching(items[1..], marker)
      case _ => Raised(AttributeError)
  }

  /** A thumbnail entry as yt-dlp produces it: a dictionary with a string id
      and a url. */
  predicate IsThumbEntry(t: Json) {
    t.Obj? && HasKey(t.fields, "id") && Get(t.fields, "id", Null).Str? && HasKey(t.fields, "url")
  }

  function IdOf(t: Json): string
    requires IsThumbEntry(t)
  {
    Get(t.fields, "id", Null).s
  }

  function UrlOf(t: Json): Json
    requires IsThumbEntry(t)
  {
    Get(t.fields, "url", Null)
  }

  /** Entry `k` is the first of `items` whose id holds `marker`. */
  ghost predicate IsFirstWith(items: seq<Json>, marker: string, k: int)
    requires forall j :: 0 <= j < |items| ==> IsThumbEntry(items[j])
  {
    && 0 <= k < |items|
    && Occurs(IdOf(items[k]), marker)
    && forall j :: 0 <= j < k ==> !Occurs(IdOf(items[j]), marker)
  }

  /** Over well-formed entries the scan yields the url of the first entry
      whose id holds the marker. */
  lemma {:induction false} FirstMatchingFinds(items: seq<Json>, marker: string, k: int)
    requires forall j :: 0 <= j < |items| ==> IsThumbEntry(items[j])
    requires IsFirstWith(items, marker, k)
    ensures FirstMatching(items, marker) == Ok(UrlOf(items[k]))
    decreases |items|
  {
    var t := items[0];
    GetIgnoresDefault(t.fields, "id", Str(""), Null);
    if k > 0 {
      assert !Occurs(IdOf(t), marker);
      assert IsFirstWith(items[1..], marker, k - 1);
      FirstMatchingFinds(items[1..], marker, k - 1);
    }
  }

  /** Over well-formed entries none of whose ids holds the marker the scan
      yields None. */
  lemma {:induction false} FirstMatchingMisses(items: seq<Json>, marker: string)
    requires forall j :: 0 <= j < |items| ==> IsThumbEntry(items[j])
    requires forall j :: 0 <= j < |items| ==> !Occurs(IdOf(items[j]), marker)
    ensures FirstMatching(items, marker) == Ok(Null)
    decreases |items|
  {
    if items != [] {
      var t := items[0];
      GetIgnoresDefault(t.fields, "id", Str(""), Null);
      FirstMatchingMisses(items[1..], marker);
    }
  }

  /** Over well-formed entries the scan never raises. */
  lemma {:induction false} FirstMatchingTotal(items: seq<Json>, marker: string)
    requires forall j :: 0 <= j < |items| ==> IsThumbEntry(items[j])
    ensures FirstMatching(items, marker).Ok?
    decreases |items|
  {
    if items != [] {
      var t := items[0];
      GetIgnoresDefault(t.fields, "id", Str(""), Null);
      FirstMatchingTotal(items[1..], marker);
    }
  }

  /** A scan that reaches a value other than a dictionary raises. */
  lemma FirstMatchingRaisesOnNonDict(items: seq<Json>, marker: string)
    requires items != [] && !items[0].Obj?
    ensures FirstMatching(items, marker) == Raised(AttributeError)
  {
  }

  /** The fallback thumbnail built from the video id. */
  function DefaultThumbnail(videoId: Json): string {
    "https://i.ytimg.com/vi/" + PyStr(videoId) + "/hqdefault.jpg"
  }

  /** The thumbnail `process_video` records: the `thumbnail` field when it is
      truthy; else, when there are thumbnails, the first `maxresdefault` url,
      the first `hqdefault` url or the last entry's url, whichever is truthy
      first (the `hqdefault` scan runs first); else the URL built from the id. */
  function PickThumbnail(info: Dict): Result<Json> {
    var given := Get(info, "thumbnail", Null);
    if Truthy(given) then Ok(given)
    else
      var thumbs := Get(info, "thumbnails", Arr([]));
      if !Truthy(thumbs) then Ok(Str(DefaultThumbnail(Get(info, "id", Str("")))))
      else
        var items :- Elements(thumbs);
        var hq :- FirstMatching(items, "hqdefault");
        var maxres :- FirstMatching(items, "maxresdefault");
        if Truthy(maxres) then Ok(maxres)
        else if Truthy(hq) then Ok(hq)
        else Subscript(items[|items| - 1], "url")
  }

  /** The info's thumbnails: absent, falsy, or a non-empty list of
      well-formed entries. */
  predicate HasThumbList(info: Dict, items: seq<Json>) {
    && !Truthy(Get(info, "thumbnail", Null))
    && Get(info, "thumbnails", Arr([])) == Arr(items)
    && items != []
    && forall j :: 0 <= j < |items| ==> IsThumbEntry(items[j])
  }

  /** Over a thumbnail list both scans run, and their results decide. */
  lemma PickFromList(info: Dict, items: seq<Json>, hq: Json, maxres: Json)
    requires HasThumbList(info, items)
    requires FirstMatching(items, "hqdefault") == Ok(hq)
    requires FirstMatching(items, "maxresdefault") == Ok(maxres)
    ensures PickThumbnail(info)
         == if Truthy(maxres) then Ok(maxres)
            else if Truthy(hq) then Ok(hq)
            else Subscript(items[|items| - 1], "url")
  {
    var thumbs := Get(info, "thumbnails", Arr([]));
    assert Truthy(thumbs);
    assert Elements(thumbs) == Ok(items);
  }

  /** A truthy `thumbnail` field is taken as it is. */
  lemma GivenThumbnailWins(info: Dict)
    requires Truthy(Get(info, "thumbnail", Null))
    ensures PickThumbnail(info) == Ok(Get(info, "thumbnail", Null))
  {
  }

  /** The first `maxresdefault` entry wins when its url is truthy. */
  lemma MaxresIsPreferred(info: Dict, items: seq<Json>, k: int)
    requires HasThumbList(info, items)
    requires IsFirstWith(items, "maxresdefault", k) && Truthy(UrlOf(items[k]))
    ensures PickThumbnail(info) == Ok(UrlOf(items[k]))
  {
    FirstMatchingFinds(items, "maxresdefault", k);
    FirstMatchingTotal(items, "hqdefault");
  }

  /** Without a `maxresdefault` entry the first `hqdefault` entry wins when
      its url is truthy. */
  lemma HqIsNext(info: Dict, items: seq<Json>, k: int)
    requires HasThumbList(info, items)
    requires forall j :: 0 <= j < |items| ==> !Occurs(IdOf(items[j]), "maxresdefault")
    requires IsFirstWith(items, "hqdefault", k) && Truthy(UrlOf(items[k]))
    ensures PickThumbnail(info) == Ok(UrlOf(items[k]))
  {
    FirstMatchingFinds(items, "hqdefault", k);
    FirstMatchingMisses(items, "maxresdefault");
  }

  /** With neither kind of entry the last entry's url is taken. */
  lemma LastEntryOtherwise(info: Dict, items: seq<Json>)
    requires HasThumbList(info, items)
    requires forall j :: 0 <= j < |items| ==> !Occurs(IdOf(items[j]), "maxresdefault")
    requires forall j :: 0 <= j < |items| ==> !Occurs(IdOf(items[j]), "hqdefault")
    ensures PickThumbnail(info) == Ok(UrlOf(items[|items| - 1]))
  {
    FirstMatchingMisses(items, "hqdefault");
    FirstMatchingMisses(items, "maxresdefault");
    PickFromList(info, items, Null, Null);
    assert IsThumbEntry(items[|items| - 1]);
  }

  /** With no usable thumbnail fields the URL is built from the video id. */
  lemma ThumbnailFromId(info: Dict)
    requires !Truthy(Get(info, "thumbnail", Null)) && !Truthy(Get(info, "thumbnails", Arr([])))
    ensures PickThumbnail(info) == Ok(Str(DefaultThumbnail(Get(info, "id", Str("")))))
  {
  }

  /* ---------------------------------------------------------------------- */
  /* process_video and process_webpage                                       */
  /* ---------------------------------------------------------------------- */

  /** The dictionary both functions return. */
  datatype Record = Record(
    name: Json, url: Json, kind: string,
    summary: Json, tags: string, category: Json,
    thumbnail: Json, uploader: Json, duration: Json)

  /** The foreign outcomes one video depends on: whether the transcript API
      stage raised, what the subtitle download left, and the model calls. */
  datatype VideoWorld = VideoWorld(primaryRaises: bool, fetch: SubtitleFetch, services: Services)

  /** `process_video(video_info, ai_model)`: the thumbnail is chosen first
      (and may raise), then the transcript is fetched and the enrichment
      asked with the info's title and description. */
  function ProcessVideo(info: Dict, aiModel: string, world: VideoWorld): (r: Result<Record>)
    ensures r.Raised? <==> PickThumbnail(info).Raised?
    ensures r.Ok? ==>
      && r.value.kind == "video"
      && r.value.thumbnail == PickThumbnail(info).value
      && (!HasKey(info, "title") ==> r.value.name == Str("No Title"))
      && (!HasKey(info, "webpage_url") ==> r.value.url == Str(""))
      && (!HasKey(info, "uploader") ==> r.value.uploader == Str("Unknown Uploader"))
      && (!HasKey(info, "duration") ==> r.value.duration == Int(0))
  {
    var title := Get(info, "title", Str("No Title"));
    var description := Get(info, "description", Str(""));
    var thumbnail :- PickThumbnail(info);
    var transcript := GetVideoTranscript(info, world.primaryRaises, world.fetch);
    var e := Enrich(title, description, transcript, aiModel, world.services);
    Ok(Record(title, Get(info, "webpage_url", Str("")), "video",
              e.summary, e.tags, e.category,
              thumbnail, Get(info, "uploader", Str("Unknown Uploader")), Get(info, "duration", Int(0))))
  }

  /** When the transcript API stage returns normally the transcript is None,
      so the description is the only context: a video without a truthy
      description gets the "not enough content" fields. */
  lemma SilentPrimaryUsesDescription(info: Dict, aiModel: string, world: VideoWorld)
    requires !world.primaryRaises
    requires PickThumbnail(info).Ok?
    requires !Truthy(Get(info, "description", Str("")))
    ensures ProcessVideo(info, aiModel, world).Ok?
    ensures var v := ProcessVideo(info, aiModel, world).value;
      v.summary == Str("Not enough content.") && v.tags == "" && v.category == Str("Uncategorized")
  {
  }

  /** What fetching and parsing a page gave: the title tag's string (None
      when there is no title tag, `Null` when the tag holds no single string)
      and the visible text. */
  datatype Page = Page(title: Option<Json>, text: string)

  /** The description `process_webpage` hands to the enrichment. */
  const WebpageDescription := Str("This is webpage")

  /** `process_webpage(url, ai_model)`: None when the fetch, the status check
      or the parse raised; otherwise a record built from the page. */
  function ProcessWebpage(url: string, aiModel: string, page: Option<Page>, services: Services): (r: Option<Record>)
    ensures r.Some? <==> page.Some?
    ensures r.Some? ==>
      && r.value.kind == "webpage" && r.value.url == Str(url)
      && r.value.thumbnail == Null && r.value.uploader == Null && r.value.duration == Null
      && (page.value.title.None? ==> r.value.name == Str("No Title Found"))
      && (page.value.title.Some? ==> r.value.name == page.value.title.value)
  {
    match page
    case None => None
    case Some(p) =>
      var title := match p.title case None => Str("No Title Found") case Some(t) => t;
      var e := Enrich(title, WebpageDescription, Str(p.text), aiModel, services);
      Some(Record(title, Str(url), "webpage", e.summary, e.tags, e.category, Null, Null, Null))
  }

  /** A page is never "not enough content": with no text the fixed
      description becomes the context and the model is still asked. */
  lemma EmptyPageStillAsksModel(url: string, aiModel: string, title: Option<Json>, services: Services)
    ensures var r := ProcessWebpage(url, aiModel, Some(Page(title, "")), services);
      var t := match title case None => Str("No Title Found") case Some(t) => t;
      match services.generate(aiModel, Prompt(t, WebpageDescription))
      case None => r.value.summary == Str("Error")
      case Some(reply) => r.value.summary == ParseReply(reply, services.loads).summary
  {
  }

  /* ---------------------------------------------------------------------- */
  /* The playlist loop in main                                               */
  /* ---------------------------------------------------------------------- */

  /** What became of one playlist entry. */
  datatype EntryOutcome = Skipped | Saved(record: Record) | Failed(fault: Fault)

  /** One iteration: whether it paused before the entry, and the outcome. */
  datatype EntryStep = EntryStep(paused: bool, outcome: EntryOutcome)

  /** The outcome for one entry. `attempt` stands for extracting the video
      at a URL and processing it. A dictionary without a truthy url is
      skipped; anything else than a dictionary fails on `.get`. */
  function EntryOutcomeOf(entry: Json, attempt: Json -> Result<Record>): EntryOutcome {
    match entry
    case Obj(fields) =>
      var url := Get(fields, "url", Null);
      if !Truthy(url) then Skipped
      else (match attempt(url) case Ok(record) => Saved(record) case Raised(f) => Failed(f))
    case _ => Failed(AttributeError)
  }

  /** How the loop over `entries[k..]` ends. */
  datatype LoopEnd = Completed | Crashed(fault: Fault)

  /** The loop as written: the `except` handler logs `entry.get('url')`,
      which raises again for an entry that is not a dictionary, and that
      second exception leaves the loop and the script. The crashing entry
      still gets its step: the pause before it and its failed attempt. */
  function PlaylistLoopAsWritten(entries: seq<Json>, attempt: Json -> Result<Record>, k: nat): (r: (seq<EntryStep>, LoopEnd))
    requires k <= |entries|
    ensures |r.0| <= |entries| - k
    ensures r.1 == Completed ==> |r.0| == |entries| - k
    ensures forall j :: 0 <= j < |r.0| ==> r.0[j].paused == (k + j > 0)
    decreases |entries| - k
  {
    if k == |entries| then ([], Completed)
    else if !entries[k].Obj? then ([EntryStep(k > 0, Failed(AttributeError))], Crashed(AttributeError))
    else
      var rest := PlaylistLoopAsWritten(entries, attempt, k + 1);
      ([EntryStep(k > 0, EntryOutcomeOf(entries[k], attempt))] + rest.0, rest.1)
  }

  /** The loop with a handler that cannot raise: every entry gets its step. */
  function PlaylistLoop(entries: seq<Json>, attempt: Json -> Result<Record>, k: nat): (r: seq<EntryStep>)
    requires k <= |entries|
    ensures |r| == |entries| - k
    ensures forall j :: 0 <= j < |r| ==> r[j].paused == (k + j > 0)
    decreases |entries| - k
  {
    if k == |entries| then []
    else [EntryStep(k > 0, EntryOutcomeOf(entries[k], attempt))] + PlaylistLoop(entries, attempt, k + 1)
  }

  /** Each entry's outcome depends on that entry alone: an error on one
      entry neither stops the loop nor changes what happens to the others. */
  lemma {:induction false} PlaylistLoopIsPerEntry(entries: seq<Json>, attempt: Json -> Result<Record>, k: nat)
    requires k <= |entries|
    ensures forall j :: k <= j < |entries| ==>
      PlaylistLoop(entries, attempt, k)[j - k].outcome == EntryOutcomeOf(entries[j], attempt)
    decreases |entries| - k
  {
    if k < |entries| {
      PlaylistLoopIsPerEntry(entries, attempt, k + 1);
    }
  }

  /** The pause comes before every entry but the first, skipped ones
      included, and a dictionary entry is skipped exactly when its url is
      missing or falsy. */
  lemma PacingAndSkipping(entries: seq<Json>, attempt: Json -> Result<Record>)
    ensures var steps := PlaylistLoop(entries, attempt, 0);
      forall j :: 0 <= j < |entries| ==>
        && (steps[j].paused <==> j > 0)
        && (entries[j].Obj? ==> (steps[j].outcome == Skipped <==> !Truthy(Get(entries[j].fields, "url", Null))))
  {
    PlaylistLoopIsPerEntry(entries, attempt, 0);
  }

  /** Over dictionary entries the loop as written agrees with the corrected
      loop and completes. */
  lemma {:induction false} AsWrittenAgreesOnDicts(entries: seq<Json>, attempt: Json -> Result<Record>, k: nat)
    requires k <= |entries|
    requires forall j :: k <= j < |entries| ==> entries[j].Obj?
    ensures PlaylistLoopAsWritten(entries, attempt, k) == (PlaylistLoop(entries, attempt, k), Completed)
    decreases |entries| - k
  {
    if k < |entries| {
      AsWrittenAgreesOnDicts(entries, attempt, k + 1);
    }
  }

  /** A non-dictionary entry (yt-dlp gives None for an unavailable video)
      ends the loop as written: the video after it is never attempted. */
  lemma NonDictEntryStopsLoop(attempt: Json -> Result<Record>)
    ensures var entries := [Null, Obj([("url", Str("u"))])];
      && PlaylistLoopAsWritten(entries, attempt, 0) == ([EntryStep(false, Failed(AttributeError))], Crashed(AttributeError))
      && |PlaylistLoop(entries, attempt, 0)| == 2
      && PlaylistLoop(entries, attempt, 0)[1] == EntryStep(true, EntryOutcomeOf(entries[1], attempt))
  {
  }
}
