/**
 * The unread badges: a "last seen" time per tab or entity key, and the number of items
 * updated after it.
 */
module NotificationReads {
  import opened Wrappers

  /** An item of a list: `updated_at` and `last_update`, "" when missing or null. */
  datatype Entry = Entry(id: string, updatedAt: string, lastUpdate: string)

  /** `new Date(s).getTime()` in milliseconds, None where it is NaN. */
  type DateParse = string -> Option<int>

  /** `getUpdatedAt`: the first timestamp given, 0 when none is or it does not parse. */
  function UpdatedAt(parse: DateParse, e: Entry): int {
    var u := if e.updatedAt != "" then e.updatedAt else e.lastUpdate;
    if u == "" then 0 else parse(u).GetOr(0)
  }

  /** `lastSeen[key] ?? 0` */
  function Seen(lastSeen: map<string, int>, key: string): int {
    if key in lastSeen then lastSeen[key] else 0
  }

  /** How many of `items` were updated after `seenAt`. */
  function UnreadCount(parse: DateParse, items: seq<Entry>, seenAt: int): nat
    decreases |items|
  {
    if items == [] then 0
    else UnreadCount(parse, items[..|items| - 1], seenAt) + (if UpdatedAt(parse, items[|items| - 1]) > seenAt then 1 else 0)
  }

  /** The positions below `n` of the items updated after `seenAt`. */
  function UnreadPositions(parse: DateParse, items: seq<Entry>, seenAt: int, n: nat): set<nat>
    requires n <= |items|
  {
    set i: nat | i < n && UpdatedAt(parse, items[i]) > seenAt
  }

  /** The count of the first `n` items is the number of unread positions below `n`. */
  lemma {:induction false} UnreadCountPositions(parse: DateParse, items: seq<Entry>, seenAt: int, n: nat)
    requires n <= |items|
    ensures UnreadCount(parse, items[..n], seenAt) == |UnreadPositions(parse, items, seenAt, n)|
    decreases n
  {
    if n > 0 {
      UnreadCountPositions(parse, items, seenAt, n - 1);
      assert items[..n][..n - 1] == items[..n - 1];
      var p, q := UnreadPositions(parse, items, seenAt, n - 1), UnreadPositions(parse, items, seenAt, n);
      if UpdatedAt(parse, items[n - 1]) > seenAt {
        assert q == p + {n - 1};
      } else {
        assert q == p;
      }
    }
  }

  /** Never more than the items, and at least one exactly when some item is newer than `seenAt`. */
  lemma {:induction false} UnreadCountBounds(parse: DateParse, items: seq<Entry>, seenAt: int)
    ensures UnreadCount(parse, items, seenAt) <= |items|
    ensures UnreadCount(parse, items, seenAt) > 0 <==> exists i :: 0 <= i < |items| && UpdatedAt(parse, items[i]) > seenAt
    decreases |items|
  {
    if items != [] {
      var n := |items| - 1;
      UnreadCountBounds(parse, items[..n], seenAt);
      assert forall i :: 0 <= i < n ==> items[..n][i] == items[i];
    }
  }

  /** A later "last seen" never shows more unread items. */
  lemma {:induction false} UnreadCountMonotone(parse: DateParse, items: seq<Entry>, early: int, late: int)
    requires early <= late
    ensures UnreadCount(parse, items, late) <= UnreadCount(parse, items, early)
    decreases |items|
  {
    if items != [] {
      UnreadCountMonotone(parse, items[..|items| - 1], early, late);
    }
  }

  /** The count of two lists together is the sum of their counts. */
  lemma {:induction false} UnreadCountAppend(parse: DateParse, a: seq<Entry>, b: seq<Entry>, seenAt: int)
    ensures UnreadCount(parse, a + b, seenAt) == UnreadCount(parse, a, seenAt) + UnreadCount(parse, b, seenAt)
    decreases |b|
  {
    if b == [] {
      assert a + b == a;
    } else {
      assert (a + b)[..|a + b| - 1] == a + b[..|b| - 1];
      UnreadCountAppend(parse, a, b[..|b| - 1], seenAt);
    }
  }

  /** Marking a key seen at a time no item is newer than clears its badge. */
  lemma MarkClears(parse: DateParse, lastSeen: map<string, int>, key: string, now: int, items: seq<Entry>)
    requires forall i :: 0 <= i < |items| ==> UpdatedAt(parse, items[i]) <= now
    ensures UnreadCount(parse, items, Seen(lastSeen[key := now], key)) == 0
  {
    UnreadCountBounds(parse, items, now);
  }

  /** An item with neither timestamp counts as updated at 0, so it is never unread. */
  lemma MissingNeverUnread(parse: DateParse, id: string, seenAt: int)
    requires seenAt >= 0
    ensures UnreadCount(parse, [Entry(id, "", "")], seenAt) == 0
  {
    assert [Entry(id, "", "")][..0] == [];
  }

  /** `useIsEntityUnread`: the entity was updated at a positive time after its last-seen time. */
  function EntityUnread(parse: DateParse, lastSeen: map<string, int>, key: string, updatedAt: string): bool {
    var ts := if updatedAt != "" then parse(updatedAt) else Some(0);
    ts.Some? && ts.value > 0 && ts.value > Seen(lastSeen, key)
  }

  /**
   * With a last-seen time that is not negative, an entity is unread exactly when the list of
   * just that entity has one unread item.
   */
  lemma EntityUnreadAgrees(parse: DateParse, lastSeen: map<string, int>, key: string, e: Entry)
    requires Seen(lastSeen, key) >= 0 && e.lastUpdate == ""
    ensures EntityUnread(parse, lastSeen, key, e.updatedAt) <==> UnreadCount(parse, [e], Seen(lastSeen, key)) == 1
  {
    assert [e][..0] == [];
  }

  /** The per-user "last seen" state of `NotificationReadsProvider`. */
  class Reads {
    var lastSeen: map<string, int>

    /** The state `loadState` read from storage. */
    constructor(initial: map<string, int>)
      ensures lastSeen == initial
    {
      lastSeen := initial;
    }

    /** `markAsSeen(key)` at the clock reading `now`. */
    method MarkAsSeen(key: string, now: int)
      modifies this
      ensures lastSeen == old(lastSeen)[key := now]
      ensures Seen(lastSeen, key) == now
      ensures forall k :: k != key ==> Seen(lastSeen, k) == Seen(old(lastSeen), k)
    {
      lastSeen := lastSeen[key := now];
    }

    /** `getUnreadCount(tabKey, items)` */
    method GetUnreadCount(parse: DateParse, tabKey: string, items: seq<Entry>) returns (count: nat)
      ensures count == UnreadCount(parse, items, Seen(lastSeen, tabKey))
    {
      var seenAt := if tabKey in lastSeen then lastSeen[tabKey] else 0;
      count := 0;
      for i := 0 to |items|
        invariant count == UnreadCount(parse, items[..i], seenAt)
      {
        assert items[..i + 1][..i] == items[..i];
        var e := items[i];
        var u := if e.updatedAt != "" then e.updatedAt else e.lastUpdate;
        var updatedAt := if u == "" then 0 else (match parse(u) case Some(t) => t case None => 0);
        if updatedAt > seenAt {
          count := count + 1;
        }
      }
      assert items[..|items|] == items;
    }

    /** `hasUnread(tabKey, items)` */
    method HasUnread(parse: DateParse, tabKey: string, items: seq<Entry>) returns (b: bool)
      ensures b <==> exists i :: 0 <= i < |items| && UpdatedAt(parse, items[i]) > Seen(lastSeen, tabKey)
    {
      var count := GetUnreadCount(parse, tabKey, items);
      UnreadCountBounds(parse, items, Seen(lastSeen, tabKey));
      b := count > 0;
    }
  }
}
