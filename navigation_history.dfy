/**
 * The tab's navigation history, kept for workspace persistence: a list of
 * (title, url) entries and the index of the current one, updated in place by the
 * navigation listener.
 */
module NavigationHistory {

  datatype Entry = Entry(title: string, url: string)

  /** The history as a value: the entries and the current position (-1 when empty). */
  datatype History = History(entries: seq<Entry>, index: int)

  const Empty := History([], -1)

  /** The listener does nothing when the reported URL is already the last entry's. */
  predicate IsRepeat(h: History, url: string) {
    |h.entries| > 0 && h.entries[|h.entries| - 1].url == url
  }

  /** The entries up to and including the current one: what the truncation loop leaves. */
  function Kept(h: History): (kept: seq<Entry>)
    ensures kept <= h.entries
    ensures -1 <= h.index < |h.entries| ==> |kept| == h.index + 1
  {
    if h.index + 1 <= 0 then []
    else if h.index + 1 < |h.entries| then h.entries[..h.index + 1]
    else h.entries
  }

  /**
   * One navigation event: unless it repeats the last URL, the entries after the
   * current one are dropped, the page is appended and becomes the current entry.
   */
  function Recorded(h: History, title: string, url: string): (r: History)
    ensures IsRepeat(h, url) ==> r == h
    ensures !IsRepeat(h, url) ==> r.entries == Kept(h) + [Entry(title, url)]
    ensures !IsRepeat(h, url) ==> r.index == |r.entries| - 1
    ensures !IsRepeat(h, url) && -1 <= h.index < |h.entries| ==>
              |r.entries| == h.index + 2 && r.entries[..h.index + 1] == h.entries[..h.index + 1]
  {
    if IsRepeat(h, url) then h
    else
      var entries := Kept(h) + [Entry(title, url)];
      History(entries, |entries| - 1)
  }

  /** The current entry is the last one. */
  predicate AtTail(h: History) {
    h.index == |h.entries| - 1
  }

  /** No entry repeats the URL of the one before it. */
  predicate NoAdjacentRepeats(entries: seq<Entry>) {
    forall i :: 0 < i < |entries| ==> entries[i - 1].url != entries[i].url
  }

  /** At the tail nothing is truncated: a new page is simply appended. */
  lemma RecordedAtTailAppends(h: History, title: string, url: string)
    requires AtTail(h)
    ensures AtTail(Recorded(h, title, url))
    ensures !IsRepeat(h, url) ==> Recorded(h, title, url).entries == h.entries + [Entry(title, url)]
  {
  }

  /** A recorded navigation never puts the same URL twice in a row. */
  lemma RecordedKeepsNoAdjacentRepeats(h: History, title: string, url: string)
    requires AtTail(h) && NoAdjacentRepeats(h.entries)
    ensures NoAdjacentRepeats(Recorded(h, title, url).entries)
  {
  }

  /** The history after a sequence of (title, url) navigation events. */
  function RecordAll(h: History, events: seq<Entry>): History
    decreases |events|
  {
    if |events| == 0 then h
    else RecordAll(Recorded(h, events[0].title, events[0].url), events[1..])
  }

  /**
   * From an empty history the current entry is always the last: the truncation
   * branch of the listener is never taken, and no URL appears twice in a row.
   */
  lemma {:induction false} ReplayStaysAtTail(h: History, events: seq<Entry>)
    requires AtTail(h) && NoAdjacentRepeats(h.entries)
    ensures AtTail(RecordAll(h, events)) && NoAdjacentRepeats(RecordAll(h, events).entries)
    ensures |RecordAll(h, events).entries| <= |h.entries| + |events|
    decreases |events|
  {
    if |events| > 0 {
      var next := Recorded(h, events[0].title, events[0].url);
      RecordedAtTailAppends(h, events[0].title, events[0].url);
      RecordedKeepsNoAdjacentRepeats(h, events[0].title, events[0].url);
      ReplayStaysAtTail(next, events[1..]);
    }
  }

  /** The history the tab component holds, changed in place by its navigation listener. */
  class TabHistory {
    var entries: seq<Entry>
    var historyIndex: int

    ghost predicate Valid()
      reads this
    {
      -1 <= historyIndex < |entries|
    }

    function Model(): History
      reads this
    {
      History(entries, historyIndex)
    }

    constructor()
      ensures Valid() && Model() == Empty
    {
      entries := [];
      historyIndex := -1;
    }

    /** The listener's update, removing forward entries one at a time from the end. */
    method OnNavigated(pageTitle: string, url: string)
      requires Valid()
      modifies this
      ensures Valid()
      ensures Model() == Recorded(old(Model()), pageTitle, url)
    {
      if |entries| == 0 || entries[|entries| - 1].url != url {
        if historyIndex < |entries| - 1 {
          while |entries| > historyIndex + 1
            invariant historyIndex == old(historyIndex)
            invariant historyIndex + 1 <= |entries|
            invariant entries == old(entries)[..|entries|]
            decreases |entries|
          {
            entries := entries[..|entries| - 1];
          }
        }
        entries := entries + [Entry(pageTitle, url)];
        historyIndex := |entries| - 1;
      }
    }
  }
}
