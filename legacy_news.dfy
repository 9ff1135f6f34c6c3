/** Feed retrieval of the older top-level news.py. The event and the status
    classification are the same as in clnews/news.py (`News.Event`,
    `News.GetData`); what differs is that events are built from title, link
    and published date only, so every summary is the default empty string and
    no markup is stripped. */
module LegacyNews {
  import opened Types
  import News
  import Markup

  /** `Event(title, url, date, summary='')` of news.py: every field is stored
      verbatim, so it agrees with the event of clnews/news.py exactly when
      the summary holds no tag. */
  function NewEvent(title: string, url: string, date: string, summary: string := ""): (e: News.Event)
    ensures e.title == title && e.url == url && e.date == date && e.summary == summary
    ensures e == News.NewEvent(title, url, date, summary) <==> Markup.Tagless(summary)
  {
    Markup.RemoveHtmlFixedIffTagless(summary);
    News.Event(title, url, date, summary)
  }

  /** The list comprehension of `get_events`, which passes three arguments:
      one event per entry, in entry order, each with an empty summary. It
      cannot fail. */
  function ToEvents(entries: seq<News.FeedEntry>): (r: seq<News.Event>)
    ensures |r| == |entries|
    ensures forall i :: 0 <= i < |entries| ==>
              r[i] == NewEvent(entries[i].title, entries[i].link, entries[i].published)
  {
    if entries == [] then []
    else [NewEvent(entries[0].title, entries[0].link, entries[0].published)] + ToEvents(entries[1..])
  }

  /** What `get_events` returns for the parser's response. */
  function Retrieve(response: News.Response): (r: Result<seq<News.Event>>)
    ensures r.Ok? <==> response.status == 200
    ensures r.Ok? ==> |r.value| == |response.entries|
    ensures r.Ok? ==> forall i :: 0 <= i < |r.value| ==>
              r.value[i].title == response.entries[i].title &&
              r.value[i].url == response.entries[i].link &&
              r.value[i].date == response.entries[i].published &&
              r.value[i].summary == ""
    ensures r.Err? ==> r.error == if response.status == 404 then ChannelDataNotFound else ChannelServerError
  {
    match News.GetData(response)
    case Err(e) => Err(e)
    case Ok(entries) => Ok(ToEvents(entries))
  }

  /** Wherever the newer version succeeds, the older one succeeds too, with
      the same events except that their summaries are empty. */
  lemma RetrieveVersionsAgree(response: News.Response)
    requires News.Retrieve(response).Ok?
    ensures Retrieve(response).Ok?
    ensures |Retrieve(response).value| == |News.Retrieve(response).value|
    ensures forall i :: 0 <= i < |Retrieve(response).value| ==>
              Retrieve(response).value[i] == News.Retrieve(response).value[i].(summary := "")
  {
  }

  /** A feed channel and the events last retrieved from it (news.py). */
  class Channel {
    var name: string
    var url: string
    var events: seq<News.Event>

    constructor (name: string, url: string)
      ensures this.name == name && this.url == url && events == []
    {
      this.name := name;
      this.url := url;
      events := [];
    }

    /** `get_events`, with `parse` standing for `feedparser.parse`. */
    method GetEvents(parse: string -> News.Response) returns (r: Result<seq<News.Event>>)
      modifies this`events
      ensures r == Retrieve(parse(url))
      ensures events == if r.Ok? then r.value else old(events)
    {
      var data := News.GetData(parse(url));
      if data.Err? {
        return Err(data.error);
      }
      events := ToEvents(data.value);
      r := Ok(events);
    }
  }
}
