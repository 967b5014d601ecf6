/**
 * The notification log: one entry per notification identifier, newest first,
 * merging the two observations of a notification ("we asked for it" and "it
 * was delivered") without losing the read state or duplicating the entry.
 *
 * Clock readings (`Date()`) are parameters in seconds. The persisted copy in
 * the key-value store is a field holding what was last written, or nothing,
 * or undecodable data.
 */
module NotificationLog {
  import opened Wrappers

  datatype Status = Attempted | Delivered

  datatype Entry = Entry(
    id: string,
    createdAt: int,
    status: Status,
    title: string,
    body: string,
    isRead: bool,
    copyId: Option<string>)

  /** What the key-value store holds under the log's key. */
  datatype Stored = Absent | Undecodable | Saved(entries: seq<Entry>)

  // ---------------------------------------------------------------------------
  // The log as a value

  /** No identifier appears twice. */
  predicate DistinctIds(entries: seq<Entry>) {
    forall i, j :: 0 <= i < j < |entries| ==> entries[i].id != entries[j].id
  }

  /** The index of the first entry with identifier `id` (Swift's `firstIndex(where:)`). */
  function FirstIndex(entries: seq<Entry>, id: string): (r: Option<nat>)
    ensures r.Some? ==> r.value < |entries| && entries[r.value].id == id
    ensures r.Some? ==> forall j :: 0 <= j < r.value ==> entries[j].id != id
    ensures r.None? <==> forall j :: 0 <= j < |entries| ==> entries[j].id != id
    decreases |entries|
  {
    if entries == [] then None
    else if entries[0].id == id then Some(0)
    else match FirstIndex(entries[1..], id)
      case Some(k) => Some(k + 1)
      case None => None
  }

  /** The merged status: delivered if either observation says so. */
  function Upgrade(current: Status, incoming: Status): (s: Status)
    ensures s == Delivered <==> current == Delivered || incoming == Delivered
  {
    if incoming == Delivered then Delivered else current
  }

  /**
   * The log after observing notification `id`: a known entry keeps its place,
   * creation time and read state, takes the new title and body, upgrades its
   * status and keeps its copy id unless a new one is given; an unknown one is
   * inserted, unread, at the head.
   */
  function Upserted(entries: seq<Entry>, id: string, status: Status, title: string, body: string,
                    copyId: Option<string>, now: int): seq<Entry>
  {
    match FirstIndex(entries, id)
    case Some(i) =>
      var e := entries[i];
      entries[i := Entry(id, e.createdAt, Upgrade(e.status, status), title, body, e.isRead,
                         if copyId.Some? then copyId else e.copyId)]
    case None =>
      [Entry(id, now, status, title, body, false, copyId)] + entries
  }

  /** The log after the user has read notification `id`. */
  function MarkedRead(entries: seq<Entry>, id: string): seq<Entry> {
    match FirstIndex(entries, id)
    case Some(i) => entries[i := entries[i].(isRead := true)]
    case None => entries
  }

  /** The number of unread entries (the app badge). */
  function CountUnread(entries: seq<Entry>): (n: nat)
    ensures n <= |entries|
    ensures n == 0 <==> forall k :: 0 <= k < |entries| ==> entries[k].isRead
    decreases |entries|
  {
    if entries == [] then 0
    else (if entries[0].isRead then 0 else 1) + CountUnread(entries[1..])
  }

  /** The read flags of the log, in order. */
  function ReadFlags(entries: seq<Entry>): (flags: seq<bool>)
    ensures |flags| == |entries| && forall k :: 0 <= k < |entries| ==> flags[k] == entries[k].isRead
  {
    seq(|entries|, k requires 0 <= k < |entries| => entries[k].isRead)
  }

  /** The unread count is the number of `false` read flags. */
  lemma {:induction false} CountUnreadIsUnreadFlags(entries: seq<Entry>)
    ensures CountUnread(entries) == multiset(ReadFlags(entries))[false]
    decreases |entries|
  {
    if entries != [] {
      CountUnreadIsUnreadFlags(entries[1..]);
      assert ReadFlags(entries) == [entries[0].isRead] + ReadFlags(entries[1..]);
    }
  }

  /** The entry for `id`, if the log has one. */
  function EntryFor(entries: seq<Entry>, id: string): Option<Entry> {
    match FirstIndex(entries, id)
    case Some(i) => Some(entries[i])
    case None => None
  }

  /** Replacing the first entry for an identifier by one with the same identifier keeps it first. */
  lemma FirstIndexKept(entries: seq<Entry>, i: nat, x: Entry)
    requires FirstIndex(entries, x.id) == Some(i)
    ensures FirstIndex(entries[i := x], x.id) == Some(i)
  {
    var r := entries[i := x];
    assert r[i].id == x.id;
    assert forall j :: 0 <= j < i ==> r[j] == entries[j];
  }

  // ---------------------------------------------------------------------------
  // Upsert

  /** An unknown identifier is inserted at the head, unread, with what was observed. */
  lemma UpsertInsertsUnknown(entries: seq<Entry>, id: string, status: Status, title: string, body: string,
                             copyId: Option<string>, now: int)
    requires forall k :: 0 <= k < |entries| ==> entries[k].id != id
    ensures var r := Upserted(entries, id, status, title, body, copyId, now);
            |r| == |entries| + 1 && r[1..] == entries &&
            r[0] == Entry(id, now, status, title, body, false, copyId)
  {
  }

  /**
   * A known identifier keeps its position, length, creation time and read
   * state; title and body are replaced, the status only upgrades, the copy id
   * is kept only when none is given; every other entry is untouched.
   */
  lemma UpsertMergesKnown(entries: seq<Entry>, i: nat, status: Status, title: string, body: string,
                          copyId: Option<string>, now: int)
    requires i < |entries| && FirstIndex(entries, entries[i].id) == Some(i)
    ensures var e := entries[i];
            var r := Upserted(entries, e.id, status, title, body, copyId, now);
            |r| == |entries| &&
            r[i].id == e.id && r[i].createdAt == e.createdAt && r[i].isRead == e.isRead &&
            r[i].title == title && r[i].body == body &&
            r[i].status == Upgrade(e.status, status) &&
            r[i].copyId == (if copyId.Some? then copyId else e.copyId) &&
            forall j :: 0 <= j < |r| && j != i ==> r[j] == entries[j]
  {
  }

  /** Observing "delivered" always leaves the entry delivered. */
  lemma UpsertDeliveredEndsDelivered(entries: seq<Entry>, id: string, title: string, body: string,
                                     copyId: Option<string>, now: int)
    ensures var r := Upserted(entries, id, Delivered, title, body, copyId, now);
            EntryFor(r, id).Some? && EntryFor(r, id).value.status == Delivered
  {
    var r := Upserted(entries, id, Delivered, title, body, copyId, now);
    match FirstIndex(entries, id)
    case Some(i) =>
      assert r[i].id == id;
      FirstIndexKept(entries, i, r[i]);
    case None =>
      assert FirstIndex(r, id) == Some(0);
  }

  /** A delivered entry is never downgraded by a later "attempted" observation. */
  lemma UpsertNeverDowngrades(entries: seq<Entry>, id: string, status: Status, title: string, body: string,
                              copyId: Option<string>, now: int)
    requires EntryFor(entries, id).Some? && EntryFor(entries, id).value.status == Delivered
    ensures var r := Upserted(entries, id, status, title, body, copyId, now);
            EntryFor(r, id).Some? && EntryFor(r, id).value.status == Delivered
  {
    var i := FirstIndex(entries, id).value;
    var r := Upserted(entries, id, status, title, body, copyId, now);
    FirstIndexKept(entries, i, r[i]);
  }

  /**
   * The two observations of one notification commute on the status: in
   * either order, the entry ends up delivered.
   */
  lemma StatusOrderIndependent(entries: seq<Entry>, id: string, t1: string, b1: string, t2: string, b2: string,
                               c1: Option<string>, c2: Option<string>, now1: int, now2: int)
    ensures var r := Upserted(Upserted(entries, id, Attempted, t1, b1, c1, now1), id, Delivered, t2, b2, c2, now2);
            EntryFor(r, id).Some? && EntryFor(r, id).value.status == Delivered
    ensures var r := Upserted(Upserted(entries, id, Delivered, t1, b1, c1, now1), id, Attempted, t2, b2, c2, now2);
            EntryFor(r, id).Some? && EntryFor(r, id).value.status == Delivered
  {
    UpsertDeliveredEndsDelivered(Upserted(entries, id, Attempted, t1, b1, c1, now1), id, t2, b2, c2, now2);
    UpsertDeliveredEndsDelivered(entries, id, t1, b1, c1, now1);
    UpsertNeverDowngrades(Upserted(entries, id, Delivered, t1, b1, c1, now1), id, Attempted, t2, b2, c2, now2);
  }

  /** Observing the same notification twice is the same as observing it once. */
  lemma UpsertIdempotent(entries: seq<Entry>, id: string, status: Status, title: string, body: string,
                         copyId: Option<string>, now: int)
    ensures var once := Upserted(entries, id, status, title, body, copyId, now);
            Upserted(once, id, status, title, body, copyId, now) == once
  {
    var once := Upserted(entries, id, status, title, body, copyId, now);
    match FirstIndex(entries, id)
    case Some(i) =>
      FirstIndexKept(entries, i, once[i]);
    case None =>
      assert FirstIndex(once, id) == Some(0);
  }

  /** Upsert keeps identifiers unique. */
  lemma UpsertKeepsIdsDistinct(entries: seq<Entry>, id: string, status: Status, title: string, body: string,
                               copyId: Option<string>, now: int)
    requires DistinctIds(entries)
    ensures DistinctIds(Upserted(entries, id, status, title, body, copyId, now))
  {
    var r := Upserted(entries, id, status, title, body, copyId, now);
    match FirstIndex(entries, id)
    case Some(i) =>
      assert forall k :: 0 <= k < |r| ==> r[k].id == entries[k].id;
    case None =>
      assert forall k :: 1 <= k < |r| ==> r[k] == entries[k - 1];
  }

  // ---------------------------------------------------------------------------
  // Mark read

  /**
   * Marking read sets the flag on the first entry with that identifier and
   * changes nothing else; an unknown identifier leaves the log as it is.
   */
  lemma MarkReadSetsFlag(entries: seq<Entry>, id: string)
    ensures var r := MarkedRead(entries, id);
            |r| == |entries| &&
            (forall k :: 0 <= k < |entries| ==> r[k].(isRead := entries[k].isRead) == entries[k]) &&
            match FirstIndex(entries, id)
            case Some(i) => r[i].isRead && forall k :: 0 <= k < |r| && k != i ==> r[k] == entries[k]
            case None => r == entries
  {
  }

  lemma MarkReadIdempotent(entries: seq<Entry>, id: string)
    ensures MarkedRead(MarkedRead(entries, id), id) == MarkedRead(entries, id)
  {
    var once := MarkedRead(entries, id);
    match FirstIndex(entries, id)
    case Some(i) =>
      FirstIndexKept(entries, i, once[i]);
    case None =>
  }

  lemma MarkReadKeepsIdsDistinct(entries: seq<Entry>, id: string)
    requires DistinctIds(entries)
    ensures DistinctIds(MarkedRead(entries, id))
  {
    var r := MarkedRead(entries, id);
    assert forall k :: 0 <= k < |r| ==> r[k].id == entries[k].id;
  }

  // ---------------------------------------------------------------------------
  // Unread count

  /** Replacing one entry changes the count only by the change of that entry's flag. */
  lemma {:induction false} CountUnreadUpdate(entries: seq<Entry>, i: nat, x: Entry)
    requires i < |entries|
    ensures CountUnread(entries[i := x]) + (if entries[i].isRead then 0 else 1)
         == CountUnread(entries) + (if x.isRead then 0 else 1)
    decreases |entries|
  {
    var r := entries[i := x];
    if i > 0 {
      assert r[1..] == entries[1..][i - 1 := x];
      CountUnreadUpdate(entries[1..], i - 1, x);
    } else {
      assert r[1..] == entries[1..];
    }
  }

  /** Marking read never raises the count, and lowers it by one exactly when it reads an unread entry. */
  lemma MarkReadCount(entries: seq<Entry>, id: string)
    ensures CountUnread(MarkedRead(entries, id)) <= CountUnread(entries)
    ensures CountUnread(MarkedRead(entries, id)) ==
            CountUnread(entries) - (if EntryFor(entries, id).Some? && !EntryFor(entries, id).value.isRead then 1 else 0)
  {
    match FirstIndex(entries, id)
    case Some(i) =>
      CountUnreadUpdate(entries, i, entries[i].(isRead := true));
    case None =>
  }

  /** A new identifier adds one unread entry; a known one leaves the count as it was. */
  lemma UpsertCount(entries: seq<Entry>, id: string, status: Status, title: string, body: string,
                    copyId: Option<string>, now: int)
    ensures CountUnread(Upserted(entries, id, status, title, body, copyId, now)) ==
            CountUnread(entries) + (if EntryFor(entries, id).None? then 1 else 0)
  {
    var r := Upserted(entries, id, status, title, body, copyId, now);
    match FirstIndex(entries, id)
    case Some(i) =>
      CountUnreadUpdate(entries, i, r[i]);
    case None =>
      assert r[1..] == entries;
  }

  // ---------------------------------------------------------------------------
  // Observations of other identifiers

  /** Two logs that agree on where `x` appears agree on its first index. */
  lemma {:induction false} FirstIndexSamePlaces(a: seq<Entry>, b: seq<Entry>, x: string)
    requires |a| == |b|
    requires forall j :: 0 <= j < |a| ==> (a[j].id == x <==> b[j].id == x)
    ensures FirstIndex(a, x) == FirstIndex(b, x)
    decreases |a|
  {
    if a != [] && a[0].id != x {
      FirstIndexSamePlaces(a[1..], b[1..], x);
    }
  }

  /** Observing notification `id` leaves the entry of every other identifier as it was. */
  lemma UpsertLeavesOthers(entries: seq<Entry>, id: string, status: Status, title: string, body: string,
                           copyId: Option<string>, now: int, x: string)
    requires x != id
    ensures EntryFor(Upserted(entries, id, status, title, body, copyId, now), x) == EntryFor(entries, x)
  {
    var r := Upserted(entries, id, status, title, body, copyId, now);
    match FirstIndex(entries, id)
    case Some(i) =>
      FirstIndexSamePlaces(r, entries, x);
    case None =>
      assert r[1..] == entries;
  }

  /** A notification the centre reports as delivered: its identifier and content. */
  datatype Delivery = Delivery(identifier: string, title: string, body: string)

  /** The log after replaying delivered notifications in order, each without a copy id. */
  function Replayed(entries: seq<Entry>, delivered: seq<Delivery>, now: int): seq<Entry>
    decreases |delivered|
  {
    if delivered == [] then entries
    else
      var n := delivered[|delivered| - 1];
      Upserted(Replayed(entries, delivered[..|delivered| - 1], now), n.identifier, Delivered, n.title, n.body, None, now)
  }

  /** Once delivered, always delivered, whatever identifier is observed next. */
  lemma UpsertKeepsDelivered(entries: seq<Entry>, id: string, status: Status, title: string, body: string,
                             copyId: Option<string>, now: int, x: string)
    requires EntryFor(entries, x).Some? && EntryFor(entries, x).value.status == Delivered
    ensures var r := Upserted(entries, id, status, title, body, copyId, now);
            EntryFor(r, x).Some? && EntryFor(r, x).value.status == Delivered
  {
    if x == id {
      UpsertNeverDowngrades(entries, id, status, title, body, copyId, now);
    } else {
      UpsertLeavesOthers(entries, id, status, title, body, copyId, now, x);
    }
  }

  /** After a resync, every reported notification is in the log as delivered. */
  lemma {:induction false} ReplayedAllDelivered(entries: seq<Entry>, delivered: seq<Delivery>, now: int, k: nat)
    requires k < |delivered|
    ensures var r := Replayed(entries, delivered, now);
            EntryFor(r, delivered[k].identifier).Some? && EntryFor(r, delivered[k].identifier).value.status == Delivered
    decreases |delivered|
  {
    var init := delivered[..|delivered| - 1];
    var n := delivered[|delivered| - 1];
    var before := Replayed(entries, init, now);
    if k == |delivered| - 1 {
      UpsertDeliveredEndsDelivered(before, n.identifier, n.title, n.body, None, now);
    } else {
      ReplayedAllDelivered(entries, init, now, k);
      assert init[k] == delivered[k];
      UpsertKeepsDelivered(before, n.identifier, Delivered, n.title, n.body, None, now, delivered[k].identifier);
    }
  }

  // ---------------------------------------------------------------------------
  // Scenarios

  /** "Attempted" then "delivered" for one identifier on an empty log leaves one delivered, unread entry. */
  lemma AttemptThenDelivered(now1: int, now2: int)
    ensures Upserted(Upserted([], "n1", Attempted, "T", "B", None, now1), "n1", Delivered, "T2", "B2", None, now2)
         == [Entry("n1", now1, Delivered, "T2", "B2", false, None)]
  {
    var once := Upserted([], "n1", Attempted, "T", "B", None, now1);
    assert FirstIndex(once, "n1") == Some(0);
  }

  /** A later "delivered" observation does not undo a read. */
  lemma ReadSurvivesRedelivery(entries: seq<Entry>, id: string, title: string, body: string,
                               copyId: Option<string>, now: int)
    requires EntryFor(entries, id).Some?
    ensures var r := Upserted(MarkedRead(entries, id), id, Delivered, title, body, copyId, now);
            EntryFor(r, id).Some? && EntryFor(r, id).value.isRead
  {
    var i := FirstIndex(entries, id).value;
    var m := MarkedRead(entries, id);
    FirstIndexKept(entries, i, m[i]);
    var r := Upserted(m, id, Delivered, title, body, copyId, now);
    FirstIndexKept(m, i, r[i]);
  }

  /**
   * Tapping a notification records it as delivered and then reads it: the
   * entry is present, delivered and read, whether or not it was logged before.
   */
  lemma TapRecordsDeliveredAndRead(entries: seq<Entry>, id: string, title: string, body: string, now: int)
    ensures var r := MarkedRead(Upserted(entries, id, Delivered, title, body, None, now), id);
            EntryFor(r, id).Some? && EntryFor(r, id).value.isRead && EntryFor(r, id).value.status == Delivered
  {
    UpsertDeliveredEndsDelivered(entries, id, title, body, None, now);
    var u := Upserted(entries, id, Delivered, title, body, None, now);
    var i := FirstIndex(u, id).value;
    var r := MarkedRead(u, id);
    FirstIndexKept(u, i, r[i]);
  }

  // ---------------------------------------------------------------------------
  // The store

  /** The log as it is loaded: what was saved, or empty when nothing readable was stored. */
  function Loaded(stored: Stored): seq<Entry> {
    if stored.Saved? then stored.entries else []
  }

  class LogStore {
    var entries: seq<Entry>
    /** The copy in the key-value store. */
    var stored: Stored

    /** Loading the stored copy gives back the log held in memory. */
    ghost predicate Reloads()
      reads this
    {
      Loaded(stored) == entries
    }

    /** Loads the log; missing or undecodable data gives an empty log. */
    constructor (stored: Stored)
      ensures stored.Saved? ==> entries == stored.entries
      ensures !stored.Saved? ==> entries == []
      ensures this.stored == stored
      ensures Reloads()
    {
      this.stored := stored;
      entries := Loaded(stored);
    }

    function UnreadCount(): nat
      reads this
    {
      CountUnread(entries)
    }

    method UpsertAttempt(identifier: string, title: string, body: string, copyId: Option<string>, now: int)
      modifies this
      ensures entries == Upserted(old(entries), identifier, Attempted, title, body, copyId, now)
      ensures stored == Saved(entries) && Reloads()
    {
      Upsert(identifier, Attempted, title, body, copyId, now);
    }

    method UpsertDelivered(identifier: string, title: string, body: string, copyId: Option<string>, now: int)
      modifies this
      ensures entries == Upserted(old(entries), identifier, Delivered, title, body, copyId, now)
      ensures stored == Saved(entries) && Reloads()
    {
      Upsert(identifier, Delivered, title, body, copyId, now);
    }

    /** Marks an entry read and saves; an unknown identifier changes and saves nothing. */
    method MarkRead(id: string)
      modifies this
      ensures entries == MarkedRead(old(entries), id)
      ensures stored == if FirstIndex(old(entries), id).Some? then Saved(entries) else old(stored)
      ensures old(Reloads()) ==> Reloads()
    {
      var found := FirstIndex(entries, id);
      if found.None? {
        return;
      }
      var idx := found.value;
      entries := entries[idx := entries[idx].(isRead := true)];
      Save();
    }

    method Upsert(identifier: string, status: Status, title: string, body: string, copyId: Option<string>, now: int)
      modifies this
      ensures entries == Upserted(old(entries), identifier, status, title, body, copyId, now)
      ensures stored == Saved(entries) && Reloads()
    {
      var found := FirstIndex(entries, identifier);
      if found.Some? {
        var idx := found.value;
        var wasRead := entries[idx].isRead;
        var createdAt := entries[idx].createdAt;
        entries := entries[idx := Entry(identifier, createdAt,
                                        if status == Delivered then Delivered else entries[idx].status,
                                        title, body, wasRead, if copyId.Some? then copyId else entries[idx].copyId)];
      } else {
        entries := [Entry(identifier, now, status, title, body, false, copyId)] + entries;
      }
      Save();
    }

    method Save()
      modifies this`stored
      ensures stored == Saved(entries) && Reloads()
    {
      stored := Saved(entries);
    }
  }
}
