/** Feed retrieval of clnews/news.py: a channel asks the feed parser for its
    URL, classifies the HTTP status, and turns the entries into events.
    `feedparser.parse` is not modelled; its answer is a `Response` value
    produced by a function the caller supplies. */
module News {
  import opened Types
  import Markup

  /** One news item. Its fields are set once, by the constructor, and never
      change afterwards, so an event is a value. */
  datatype Event = Event(title: string, url: string, date: string, summary: string)

  /** `Event(title, url, date, summary='')`: the summary is stored with its
      markup stripped by the same rule as `remove_html`. */
  function NewEvent(title: string, url: string, date: string, summary: string := ""): (e: Event)
    ensures e.title == title && e.url == url && e.date == date
    ensures |e.summary| <= |summary|
  {
    Event(title, url, date, Markup.RemoveHtml(summary))
  }

  /** An event keeps title, URL and date as given; its summary holds no tag,
      a summary without tags is kept verbatim, and the default summary is
      empty. */
  lemma NewEventFields(title: string, url: string, date: string, summary: string)
    ensures NewEvent(title, url, date, summary).title == title
    ensures NewEvent(title, url, date, summary).url == url
    ensures NewEvent(title, url, date, summary).date == date
    ensures Markup.Tagless(NewEvent(title, url, date, summary).summary)
    ensures Markup.Tagless(summary) ==> NewEvent(title, url, date, summary).summary == summary
    ensures NewEvent(title, url, date).summary == ""
  {
    Markup.RemoveHtmlTagless(summary);
    Markup.RemoveHtmlFixedIffTagless(summary);
  }

  /** `repr(event)`: `"%s, %s" % (title, url)`. */
  function Repr(e: Event): (r: string)
    ensures |r| == |e.title| + 2 + |e.url|
    ensures r[..|e.title|] == e.title
    ensures r[|e.title|..|e.title| + 2] == ", "
    ensures r[|e.title| + 2..] == e.url
  {
    e.title + ", " + e.url
  }

  /** A raw entry of a parsed feed. `summary` is `None` when the entry's
      summary is not a string, which makes the stripping regex raise
      `TypeError`. */
  datatype FeedEntry = FeedEntry(title: string, link: string, published: string, summary: Option<string>)

  /** What `feedparser.parse(url)` answers: an HTTP status and the entries. */
  datatype Response = Response(status: int, entries: seq<FeedEntry>)

  /** `Channel._get_data`: 200 (OK) yields the entries, 404 (Not Found) raises
      `ChannelDataNotFound`, any other status `ChannelServerError`. */
  function GetData(response: Response): (r: Result<seq<FeedEntry>>)
    ensures r.Ok? <==> response.status == 200
    ensures r.Ok? ==> r.value == response.entries
    ensures r.Err? ==> r.error == if response.status == 404 then ChannelDataNotFound else ChannelServerError
  {
    if response.status == 200 then Ok(response.entries)
    else if response.status == 404 then Err(ChannelDataNotFound)
    else Err(ChannelServerError)
  }

  /** The event built from one entry: title, link, published date, stripped
      summary. */
  function FromEntry(e: FeedEntry): Event
    requires e.summary.Some?
  {
    NewEvent(e.title, e.link, e.published, e.summary.value)
  }

  /** The list comprehension of `get_events`: one event per entry, in entry
      order; an entry whose summary is not text raises `TypeError` and no
      list is produced. */
  function ToEvents(entries: seq<FeedEntry>): (r: Result<seq<Event>>)
    ensures r.Ok? <==> forall i :: 0 <= i < |entries| ==> entries[i].summary.Some?
    ensures r.Ok? ==> |r.value| == |entries|
    ensures r.Ok? ==> forall i :: 0 <= i < |entries| ==> r.value[i] == FromEntry(entries[i])
    ensures r.Err? ==> r.error == TypeError
  {
    if entries == [] then Ok([])
    else if entries[0].summary.None? then Err(TypeError)
    else
      match ToEvents(entries[1..])
      case Ok(rest) => Ok([FromEntry(entries[0])] + rest)
      case Err(e) => Err(e)
  }

  /** What `get_events` returns for the parser's response: the classified
      status first, then the mapped entries, with a mapping failure reported
      as `ChannelRetrieveEventsError`. */
  function Retrieve(response: Response): (r: Result<seq<Event>>)
    ensures r.Ok? <==> response.status == 200 && forall i :: 0 <= i < |response.entries| ==> response.entries[i].summary.Some?
    ensures r.Ok? ==> |r.value| == |response.entries|
    ensures r.Ok? ==> forall i :: 0 <= i < |response.entries| ==> r.value[i] == FromEntry(response.entries[i])
    ensures response.status == 404 ==> r == Err(ChannelDataNotFound)
    ensures response.status != 200 && response.status != 404 ==> r == Err(ChannelServerError)
    ensures response.status == 200 && r.Err? ==> r.error == ChannelRetrieveEventsError
  {
    match GetData(response)
    case Err(e) => Err(e)
    case Ok(entries) =>
      match ToEvents(entries)
      case Ok(events) => Ok(events)
      case Err(_) => Err(ChannelRetrieveEventsError)
  }

  /** A feed channel and the events last retrieved from it. */
  class Channel {
    var name: string
    var url: string
    var events: seq<Event>

    constructor (name: string, url: string)
      ensures this.name == name && this.url == url && events == []
    {
      this.name := name;
      this.url := url;
      events := [];
    }

    /** `get_events`, with `parse` standing for `feedparser.parse`. On
        success the events are stored and returned; on failure the error
        propagates and the stored events stay as they were. */
    method GetEvents(parse: string -> Response) returns (r: Result<seq<Event>>)
      modifies this`events
      ensures r == Retrieve(parse(url))
      ensures events == if r.Ok? then r.value else old(events)
    {
      var data := GetData(parse(url));
      if data.Err? {
        return Err(data.error);
      }
      var mapped := ToEvents(data.value);
      if mapped.Err? {
        return Err(ChannelRetrieveEventsError);
      }
      events := mapped.value;
      r := Ok(events);
    }
  }
}
