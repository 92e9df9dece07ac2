/** The live search boxes: on every key-up the query is lower-cased and each
    item's inline display becomes "block" when its lower-cased text contains
    the query, "none" otherwise. The service cards and the sponsor cards are
    searched on their visible text, gallery photos on `alt`, gallery videos on
    `data-name`. */
module Search {
  import opened Dom
  import opened Text

  /** Case-insensitive containment, the test every search box applies: the
      lower-cased query occurs at some index of the lower-cased text. */
  function Matches(text: string, query: string): (m: bool)
    ensures m <==> exists i :: OccursAt(Lower(text), Lower(query), i)
    ensures query == [] ==> m
  {
    IncludesIffOccurs(Lower(text), Lower(query));
    Includes(Lower(text), Lower(query))
  }

  /** The display one search gives an item with searchable text `text`:
      "block" exactly when the lower-cased query occurs somewhere in the
      lower-cased text, "none" otherwise. */
  function SearchDisplay(text: string, query: string): (d: Display)
    ensures d == Block || d == Hidden
    ensures d == Block <==> exists i :: OccursAt(Lower(text), Lower(query), i)
  {
    if Matches(text, query) then Block else Hidden
  }

  /** An empty query shows every item. */
  lemma EmptyQueryShowsAll(text: string)
    ensures SearchDisplay(text, []) == Block
  {
  }

  /** The search ignores the case of both the query and the text. */
  lemma CaseInsensitive(text: string, query: string)
    ensures SearchDisplay(Lower(text), query) == SearchDisplay(text, query)
    ensures SearchDisplay(text, Lower(query)) == SearchDisplay(text, query)
  {
    LowerIdempotent(text);
    LowerIdempotent(query);
  }

  /** Typing more characters can only hide items: an item shown for a longer
      query is shown for each of its prefixes. */
  lemma LongerQueryShowsFewer(text: string, query: string, more: string)
    ensures SearchDisplay(text, query + more) == Block ==> SearchDisplay(text, query) == Block
  {
    LowerAppend(query, more);
    if Matches(text, query + more) {
      IncludesPrefix(Lower(text), Lower(query), Lower(more));
    }
  }

  /** The query "photo" against the alt texts "Photo1" and "Video2" shows the
      first and hides the second. */
  lemma PhotoExample()
    ensures SearchDisplay("Photo1", "photo") == Block
    ensures SearchDisplay("Video2", "photo") == Hidden
  {
    var photo, video := Lower("Photo1"), Lower("Video2");
    assert Lower("photo") == "photo";
    assert photo[0] as int == 'p' as int && video[0] as int == 'v' as int;
    assert photo == "photo1";
    assert video == "video2";
    assert OccursAt(photo, "photo", 0);
    IncludesChar(video, 'p');
    assert 'p' !in video;
  }

  /** One key-up on a search box over the items whose searchable texts are
      `texts`: each item's display is decided by its own text alone. */
  method FilterItems(display: array<Display>, texts: seq<string>, query: string)
    requires display.Length == |texts|
    modifies display
    ensures forall i :: 0 <= i < display.Length ==> display[i] == SearchDisplay(texts[i], query)
  {
    var filter := Lower(query);
    for i := 0 to display.Length
      invariant forall j :: 0 <= j < i ==> display[j] == SearchDisplay(texts[j], query)
    {
      display[i] := if Includes(Lower(texts[i]), filter) then Block else Hidden;
    }
  }

  /** A video's searchable name: its `data-name`, or "" when it has none. */
  function VideoName(dataName: Option<string>): (name: string)
    ensures dataName.Some? ==> name == dataName.value
    ensures dataName.None? ==> name == []
  {
    match dataName
    case Some(n) => n
    case None => []
  }

  /** A video without `data-name` stays visible only while the query is empty. */
  lemma UnnamedVideoShownOnlyForEmptyQuery(query: string)
    ensures SearchDisplay(VideoName(None), query) == Block <==> query == []
  {
  }

  /** One key-up on the gallery search box: photos match on their `alt` text,
      videos on their name; photos and videos are decided independently. */
  method GallerySearch(photos: array<Display>, alts: seq<string>,
                       videos: array<Display>, dataNames: seq<Option<string>>, query: string)
    requires photos.Length == |alts| && videos.Length == |dataNames|
    requires photos != videos
    modifies photos, videos
    ensures forall i :: 0 <= i < photos.Length ==> photos[i] == SearchDisplay(alts[i], query)
    ensures forall i :: 0 <= i < videos.Length ==> videos[i] == SearchDisplay(VideoName(dataNames[i]), query)
  {
    var filter := Lower(query);
    for i := 0 to photos.Length
      invariant forall j :: 0 <= j < i ==> photos[j] == SearchDisplay(alts[j], query)
    {
      photos[i] := if Includes(Lower(alts[i]), filter) then Block else Hidden;
    }
    for i := 0 to videos.Length
      invariant forall j :: 0 <= j < photos.Length ==> photos[j] == SearchDisplay(alts[j], query)
      invariant forall j :: 0 <= j < i ==> videos[j] == SearchDisplay(VideoName(dataNames[j]), query)
    {
      var name := VideoName(dataNames[i]);
      videos[i] := if Includes(Lower(name), filter) then Block else Hidden;
    }
  }
}
