/**
 * The recent-activity feed that the simulated real-time updates extend:
 * the newest item goes first and the feed is trimmed back to five items.
 */
module Feed {
  import opened Lookup

  /** One of the activities the simulation picks from. */
  datatype Activity = Activity(kind: string, text: string, status: string)

  const Activities: seq<Activity> := [
    Activity("pothole", "New pothole reported on Elm Street", "new"),
    Activity("streetlight", "Streetlight repair completed", "resolved"),
    Activity("trash", "Sanitation request assigned", "assigned"),
    Activity("graffiti", "Graffiti removal in progress", "progress")
  ]

  /** An item of the feed: avatar class, icon, headline, timestamp and status badge. */
  datatype FeedItem = FeedItem(kind: string, icon: string, text: string, timestamp: string, status: string)

  /** The item addRandomActivity builds for an activity. */
  function Render(a: Activity): (item: FeedItem)
    ensures item.kind == a.kind && item.text == a.text && item.status == a.status
    ensures item.timestamp == "Just now"
    ensures item.icon == ActivityIcon(a.kind)
    ensures a in Activities ==> item.icon != DefaultActivityIcon
  {
    FeedItem(a.kind, ActivityIcon(a.kind), a.text, "Just now", a.status)
  }

  const MaxItems: nat := 5

  /**
   * Insert before the first item, then remove the last item if there are now
   * more than five. Only one item is ever removed, so a feed that the page
   * already filled beyond five keeps its length instead of shrinking to five.
   */
  function Prepend<T>(feed: seq<T>, item: T): (r: seq<T>)
    ensures |r| == if |feed| < MaxItems then |feed| + 1 else |feed|
    ensures r[0] == item
    ensures r[1..] <= feed
  {
    var grown := [item] + feed;
    if |grown| > MaxItems then grown[..|grown| - 1] else grown
  }

  /** A feed of at most five items stays at most five items long. */
  lemma PrependBounded<T>(feed: seq<T>, item: T)
    requires |feed| <= MaxItems
    ensures |Prepend(feed, item)| <= MaxItems
  {
  }

  function Reverse<T>(s: seq<T>): (r: seq<T>)
    ensures |r| == |s|
  {
    if s == [] then [] else [s[|s| - 1]] + Reverse(s[..|s| - 1])
  }

  /** The feed after the items `arrivals` were added one after another, oldest first. */
  function PrependAll<T>(feed: seq<T>, arrivals: seq<T>): seq<T>
    decreases |arrivals|
  {
    if arrivals == [] then feed
    else Prepend(PrependAll(feed, arrivals[..|arrivals| - 1]), arrivals[|arrivals| - 1])
  }

  function Min(a: nat, b: nat): nat {
    if a <= b then a else b
  }

  /**
   * Starting from a feed of at most five items, the feed always shows the
   * most recent items, newest first, followed by what remains of the
   * original feed, five items at most.
   */
  lemma {:induction false} NewestFirst<T>(feed: seq<T>, arrivals: seq<T>)
    requires |feed| <= MaxItems
    ensures PrependAll(feed, arrivals)
      == (Reverse(arrivals) + feed)[..Min(|arrivals| + |feed|, MaxItems)]
    decreases |arrivals|
  {
    if arrivals != [] {
      var older := arrivals[..|arrivals| - 1];
      var x := arrivals[|arrivals| - 1];
      NewestFirst(feed, older);
      var m := Min(|older| + |feed|, MaxItems);
      var p := PrependAll(feed, older);
      assert p == (Reverse(older) + feed)[..m];
      assert Reverse(arrivals) == [x] + Reverse(older);
      var n := Min(|arrivals| + |feed|, MaxItems);
      assert n <= m + 1;
      assert Prepend(p, x) == ([x] + p)[..n];
      assert ([x] + p)[..n] == ([x] + Reverse(older) + feed)[..n];
    }
  }
}
