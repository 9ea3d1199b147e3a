/**
 The unlock history cursor. Ring's history page shows the newest 20 items of an Intercom; the cursor
 remembers only the last page and a time floor, and still reports each unlock once over a whole run.
 */
module UnlockHistory {
  import opened Wrappers
  import PushEvents

  const POLL_SECONDS := 20
  const MAX_REPLAY := 15 * 60
  const LATE_TOLERANCE := 120
  const PAGE_LIMIT := 20

  datatype Unlock = Unlock(eventId: string, occurredAt: int, detail: PushEvents.Detail)

  datatype Cursor = Cursor(start: int, floor: int, seen: set<string>)

  function NewCursor(startedAt: int): Cursor {
    Cursor(startedAt, startedAt, {})
  }

  predicate IsFresh(c: Cursor, u: Unlock) {
    u.eventId !in c.seen && u.occurredAt >= c.floor
  }

  function Reported(c: Cursor, page: seq<Unlock>): (r: seq<Unlock>)
    ensures forall u :: u in r <==> u in page && IsFresh(c, u)
  {
    if page == [] then []
    else
      var last := page[|page| - 1];
      assert page == page[..|page| - 1] + [last];
      Reported(c, page[..|page| - 1]) + if IsFresh(c, last) then [last] else []
  }

  function Raised(floor: int, page: seq<Unlock>): (r: int)
    ensures r >= floor && forall u :: u in page ==> r >= u.occurredAt - LATE_TOLERANCE
    ensures r == floor || exists u :: u in page && r == u.occurredAt - LATE_TOLERANCE
  {
    if page == [] then floor
    else
      var last := page[|page| - 1];
      assert page == page[..|page| - 1] + [last] && last in page;
      var rest := Raised(floor, page[..|page| - 1]);
      if last.occurredAt - LATE_TOLERANCE > rest then last.occurredAt - LATE_TOLERANCE else rest
  }

  function Lifted(floor: int, newest: Option<int>): int {
    if newest.Some? && newest.value - LATE_TOLERANCE > floor then newest.value - LATE_TOLERANCE else floor
  }

  function Ids(page: seq<Unlock>): set<string> {
    set u | u in page :: u.eventId
  }

  function Advanced(c: Cursor, page: seq<Unlock>): Cursor {
    c.(floor := Raised(c.floor, page), seen := Ids(page))
  }

  class UnlockCursor {
    const start: int
    var floor: int
    var seen: set<string>

    function Value(): Cursor
      reads this
    {
      Cursor(start, floor, seen)
    }

    constructor (startedAt: int)
      ensures Value() == NewCursor(startedAt)
    {
      start, floor, seen := startedAt, startedAt, {};
    }

    constructor Restore(value: Cursor)
      ensures Value() == value
    {
      start, floor, seen := value.start, value.floor, value.seen;
    }

    method Advance(page: seq<Unlock>) returns (report: seq<Unlock>)
      modifies this
      ensures report == Reported(old(Value()), page)
      ensures Value() == Advanced(old(Value()), page)
    {
      var c := Value();
      var newest, ids: set<string> := None, {};
      report := [];
      for i := 0 to |page|
        modifies {}
        invariant report == Reported(c, page[..i])
        invariant Raised(c.floor, page[..i]) == Lifted(c.floor, newest)
        invariant ids == Ids(page[..i])
      {
        PageStep(c, page, i);
        if page[i].eventId !in seen && page[i].occurredAt >= floor {
          report := report + [page[i]];
        }
        newest := MaxOption(newest, page[i].occurredAt);
        ids := ids + {page[i].eventId};
      }
      assert page[..|page|] == page;
      if newest.Some? && newest.value - LATE_TOLERANCE > floor {
        floor := newest.value - LATE_TOLERANCE;
      }
      seen := ids;
    }
  }

  lemma PageStep(c: Cursor, page: seq<Unlock>, i: nat)
    requires i < |page|
    ensures Reported(c, page[..i + 1]) == Reported(c, page[..i]) + if IsFresh(c, page[i]) then [page[i]] else []
    ensures Ids(page[..i + 1]) == Ids(page[..i]) + {page[i].eventId}
    ensures Raised(c.floor, page[..i + 1]) ==
            var rest, own := Raised(c.floor, page[..i]), page[i].occurredAt - LATE_TOLERANCE;
            if own > rest then own else rest
  {
    assert page[..i + 1][..i] == page[..i];
    assert page[..i + 1] == page[..i] + [page[i]];
    assert forall u :: u in page[..i + 1] <==> u in page[..i] || u == page[i];
    assert forall u :: u in page[..i] ==> u.eventId in Ids(page[..i + 1]);
    assert page[i].eventId in Ids(page[..i + 1]);
  }

  // ------------------------------------------------------------- runs of one cursor

  function After(start: int, pages: seq<seq<Unlock>>): Cursor {
    if pages == [] then NewCursor(start)
    else Advanced(After(start, pages[..|pages| - 1]), pages[|pages| - 1])
  }

  /** What the k-th poll of a run reports. */
  function ReportOf(start: int, pages: seq<seq<Unlock>>, k: nat): seq<Unlock>
    requires k < |pages|
  {
    Reported(After(start, pages[..k]), pages[k])
  }

  ghost predicate OnEarlierPage(pages: seq<seq<Unlock>>, k: nat, id: string)
    requires k <= |pages|
  {
    exists i :: 0 <= i < k && id in Ids(pages[i])
  }

  ghost predicate NeverReturns(pages: seq<seq<Unlock>>) {
    forall i, j, k, id ::
      0 <= i < j < k < |pages| && id in Ids(pages[i]) && id !in Ids(pages[j]) ==> id !in Ids(pages[k])
  }

  /** The floor after k pages: the start, or the newest time of an earlier page less the tolerance. */
  lemma {:induction false} FloorIsHighest(start: int, pages: seq<seq<Unlock>>)
    ensures After(start, pages).floor >= start
    ensures forall i, u :: 0 <= i < |pages| && u in pages[i] ==>
              After(start, pages).floor >= u.occurredAt - LATE_TOLERANCE
    ensures After(start, pages).floor == start ||
            exists i, u :: 0 <= i < |pages| && u in pages[i]
                           && After(start, pages).floor == u.occurredAt - LATE_TOLERANCE
  {
    if pages != [] {
      var front, last := pages[..|pages| - 1], pages[|pages| - 1];
      FloorIsHighest(start, front);
      var before, now := After(start, front).floor, After(start, pages).floor;
      assert now == Raised(before, last);
      forall i, u | 0 <= i < |pages| && u in pages[i]
        ensures now >= u.occurredAt - LATE_TOLERANCE
      {
        if i < |front| {
          assert u in front[i];
        }
      }
      if now != before {
        var u :| u in last && now == u.occurredAt - LATE_TOLERANCE;
        assert u in pages[|pages| - 1];
      } else if now != start {
        var i, u: Unlock :| 0 <= i < |front| && u in front[i] && before == u.occurredAt - LATE_TOLERANCE;
        assert u in pages[i];
      }
    }
  }

  lemma SeenIsLastPage(start: int, pages: seq<seq<Unlock>>, k: nat)
    requires k <= |pages|
    ensures After(start, pages[..k]).seen == if k == 0 then {} else Ids(pages[k - 1])
  {
    if k > 0 {
      assert pages[..k][..k - 1] == pages[..k - 1];
    }
  }

  /** An unlock is reported at its first appearance and only there, exactly when its time is at least
      the start and at least every time on an earlier page less two minutes. */
  lemma ReportedExactlyAtFirstAppearance(start: int, pages: seq<seq<Unlock>>, k: nat, u: Unlock)
    requires NeverReturns(pages) && k < |pages|
    ensures u in ReportOf(start, pages, k) <==>
            && u in pages[k]
            && !OnEarlierPage(pages, k, u.eventId)
            && u.occurredAt >= start
            && (forall i, v :: 0 <= i < k && v in pages[i] ==> u.occurredAt >= v.occurredAt - 120)
  {
    SeenIsLastPage(start, pages, k);
    FloorIsHighest(start, pages[..k]);
    var c := After(start, pages[..k]);
    assert forall i :: 0 <= i < k ==> pages[..k][i] == pages[i];
    if u in pages[k] {
      assert u.eventId in Ids(pages[k]);
      if i :| 0 <= i < k && u.eventId in Ids(pages[i]) {
        assert u.eventId in Ids(pages[k - 1]);
        assert u.eventId in c.seen;
      }
    }
  }

  ghost predicate DistinctIds(page: seq<Unlock>) {
    forall a, b :: 0 <= a < b < |page| ==> page[a].eventId != page[b].eventId
  }

  ghost predicate DistinctPages(pages: seq<seq<Unlock>>) {
    forall k :: 0 <= k < |pages| ==> DistinctIds(pages[k])
  }

  lemma {:induction false} ReportIsDistinct(c: Cursor, page: seq<Unlock>)
    requires DistinctIds(page)
    ensures DistinctIds(Reported(c, page))
  {
    if page != [] {
      var front, last := page[..|page| - 1], page[|page| - 1];
      ReportIsDistinct(c, front);
      var r := Reported(c, front);
      forall a | 0 <= a < |r| ensures r[a].eventId != last.eventId {
        assert r[a] in front;
        var k :| 0 <= k < |front| && front[k] == r[a];
        assert page[k].eventId != page[|page| - 1].eventId;
      }
    }
  }

  /** Over the whole run each id is reported at most once, by different polls or by one. */
  lemma ReportedAtMostOnce(start: int, pages: seq<seq<Unlock>>, i: nat, a: nat, j: nat, b: nat)
    requires NeverReturns(pages) && DistinctPages(pages) && i < |pages| && j < |pages| && (i, a) != (j, b)
    requires a < |ReportOf(start, pages, i)| && b < |ReportOf(start, pages, j)|
    ensures ReportOf(start, pages, i)[a].eventId != ReportOf(start, pages, j)[b].eventId
  {
    var u, v := ReportOf(start, pages, i)[a], ReportOf(start, pages, j)[b];
    assert u in ReportOf(start, pages, i) && v in ReportOf(start, pages, j);
    if i == j {
      ReportIsDistinct(After(start, pages[..i]), pages[i]);
    } else if i < j {
      ReportedExactlyAtFirstAppearance(start, pages, j, v);
      assert u.eventId in Ids(pages[i]);
    } else {
      ReportedExactlyAtFirstAppearance(start, pages, i, u);
      assert v.eventId in Ids(pages[j]);
    }
  }

  // --------------------------------------------------- where pages come from

  /** Any history item; only unlocks reach the cursor. `newer` is Ring's own ordering. */
  datatype Item = Item(unlock: Unlock, isUnlock: bool)

  ghost function Above(history: set<Item>, newer: (Item, Item) -> bool, x: Item): set<Item> {
    set y | y in history && newer(y, x)
  }

  ghost predicate InWindow(history: set<Item>, newer: (Item, Item) -> bool, x: Item) {
    x in history && |Above(history, newer, x)| < PAGE_LIMIT
  }

  ghost predicate OneItemPerId(history: set<Item>) {
    forall x, y :: x in history && y in history && x.unlock.eventId == y.unlock.eventId ==> x == y
  }

  /** Each page lists once the unlocks among the newest 20 items of a history that only grows, in which one
      id names one item. Late indexing may insert an item below newer ones. */
  ghost predicate Windows(pages: seq<seq<Unlock>>, histories: seq<set<Item>>, newer: (Item, Item) -> bool) {
    && |pages| == |histories|
    && (forall i, j :: 0 <= i < j < |histories| ==> histories[i] <= histories[j])
    && (forall k :: 0 <= k < |histories| ==> OneItemPerId(histories[k]))
    && DistinctPages(pages)
    && (forall k, u :: 0 <= k < |pages| ==> (u in pages[k] <==> InWindow(histories[k], newer, Item(u, true))))
  }

  lemma OutsideStaysOutside(a: set<Item>, b: set<Item>, newer: (Item, Item) -> bool, x: Item)
    requires a <= b && x in a && !InWindow(a, newer, x)
    ensures !InWindow(b, newer, x)
  {
    SubsetSize(Above(a, newer, x), Above(b, newer, x));
  }

  /** An id that has left the newest-20 window of a growing history never returns to it. */
  lemma WindowsNeverReturn(pages: seq<seq<Unlock>>, histories: seq<set<Item>>, newer: (Item, Item) -> bool)
    requires Windows(pages, histories, newer)
    ensures NeverReturns(pages)
  {
    forall i, j, k, id | 0 <= i < j < k < |pages| && id in Ids(pages[i]) && id !in Ids(pages[j])
      ensures id !in Ids(pages[k])
    {
      var u :| u in pages[i] && u.eventId == id;
      var x := Item(u, true);
      assert InWindow(histories[i], newer, x);
      assert u !in pages[j];
      OutsideStaysOutside(histories[j], histories[k], newer, x);
      forall v | v in pages[k]
        ensures v.eventId != id
      {
        assert InWindow(histories[k], newer, Item(v, true));
      }
    }
  }

  /** Exactly-once reporting for every run over a growing Ring history: no two reports, of different polls or of one,
      are of the same unlock. */
  lemma GrowingHistoryReportsOnce(start: int, pages: seq<seq<Unlock>>, histories: seq<set<Item>>,
                                  newer: (Item, Item) -> bool, i: nat, a: nat, j: nat, b: nat)
    requires Windows(pages, histories, newer) && i < |pages| && j < |pages| && (i, a) != (j, b)
    requires a < |ReportOf(start, pages, i)| && b < |ReportOf(start, pages, j)|
    ensures ReportOf(start, pages, i)[a].eventId != ReportOf(start, pages, j)[b].eventId
  {
    WindowsNeverReturn(pages, histories, newer);
    ReportedAtMostOnce(start, pages, i, a, j, b);
  }

  // ------------------------------------------------------- one poll of all Intercoms

  datatype PageRead = Page(device: string, unlocks: seq<Unlock>) | Failed

  datatype DeviceUnlock = DeviceUnlock(device: string, unlock: Unlock)

  /** Only the first cycle may look back to the start, and at most 15 minutes; an Intercom added later
      starts from about now. */
  function FloorFor(cursors: map<string, Cursor>, startedAt: int, now: int): int {
    if cursors != map[] then now - POLL_SECONDS
    else if startedAt > now - MAX_REPLAY then startedAt else now - MAX_REPLAY
  }

  function CursorOf(cursors: map<string, Cursor>, device: string, floor: int): Cursor {
    if device in cursors then cursors[device] else NewCursor(floor)
  }

  function Labelled(device: string, report: seq<Unlock>): seq<DeviceUnlock> {
    seq(|report|, i requires 0 <= i < |report| => DeviceUnlock(device, report[i]))
  }

  function PollAll(cursors: map<string, Cursor>, floor: int, pages: seq<PageRead>)
    : (map<string, Cursor>, seq<DeviceUnlock>)
  {
    if pages == [] then (cursors, [])
    else
      var (before, published) := PollAll(cursors, floor, pages[..|pages| - 1]);
      match pages[|pages| - 1]
      case Failed => (before, published)
      case Page(device, unlocks) =>
        var c := CursorOf(before, device, floor);
        (before[device := Advanced(c, unlocks)], published + Labelled(device, Reported(c, unlocks)))
  }

  class UnlockWatch {
    var cursors: map<string, Cursor>

    constructor ()
      ensures cursors == map[]
    {
      cursors := map[];
    }

    method PollUnlocks(pages: seq<PageRead>, startedAt: int, now: int)
      returns (read: bool, published: seq<DeviceUnlock>)
      modifies this
      ensures read <==> exists i :: 0 <= i < |pages| && pages[i].Page?
      ensures (cursors, published) == PollAll(old(cursors), FloorFor(old(cursors), startedAt, now), pages)
    {
      var floor := now - POLL_SECONDS;
      if cursors == map[] {
        floor := if startedAt > now - MAX_REPLAY then startedAt else now - MAX_REPLAY;
      }
      read, published := false, [];
      for i := 0 to |pages|
        invariant read <==> exists k :: 0 <= k < i && pages[k].Page?
        invariant (cursors, published) == PollAll(old(cursors), floor, pages[..i])
      {
        assert pages[..i + 1][..i] == pages[..i];
        if pages[i].Page? {
          read := true;
          var cursor := new UnlockCursor(floor);
          if pages[i].device in cursors {
            cursor := new UnlockCursor.Restore(cursors[pages[i].device]);
          }
          var report := cursor.Advance(pages[i].unlocks);
          cursors := cursors[pages[i].device := Cursor(cursor.start, cursor.floor, cursor.seen)];
          published := published + Labelled(pages[i].device, report);
        }
      }
      assert pages[..|pages|] == pages;
    }
  }

  function OwnPages(pages: seq<PageRead>, device: string): seq<PageRead> {
    if pages == [] then []
    else
      var rest, last := OwnPages(pages[..|pages| - 1], device), pages[|pages| - 1];
      if last.Page? && last.device == device then rest + [last] else rest
  }

  function OwnReports(reports: seq<DeviceUnlock>, device: string): seq<DeviceUnlock> {
    if reports == [] then []
    else
      var rest, last := OwnReports(reports[..|reports| - 1], device), reports[|reports| - 1];
      if last.device == device then rest + [last] else rest
  }

  lemma {:induction false} OwnReportsConcat(a: seq<DeviceUnlock>, b: seq<DeviceUnlock>, device: string)
    ensures OwnReports(a + b, device) == OwnReports(a, device) + OwnReports(b, device)
  {
    if b == [] {
      assert a + b == a;
    } else {
      OwnReportsConcat(a, b[..|b| - 1], device);
      assert (a + b)[..|a + b| - 1] == a + b[..|b| - 1];
    }
  }

  lemma {:induction false} OwnReportsLabelled(reports: seq<DeviceUnlock>, owner: string, device: string)
    requires forall i :: 0 <= i < |reports| ==> reports[i].device == owner
    ensures OwnReports(reports, device) == if owner == device then reports else []
  {
    if reports != [] {
      OwnReportsLabelled(reports[..|reports| - 1], owner, device);
      assert reports == reports[..|reports| - 1] + [reports[|reports| - 1]];
    }
  }

  /** Within one poll, at a given floor, what a device's cursor becomes and what is published for it depend on its own
      pages alone. */
  lemma {:induction false} OnePollIsIndependent(cursors: map<string, Cursor>, floor: int, pages: seq<PageRead>,
                                                device: string)
    ensures var all, own := PollAll(cursors, floor, pages), PollAll(cursors, floor, OwnPages(pages, device));
            && CursorOf(all.0, device, floor) == CursorOf(own.0, device, floor)
            && (device in all.0 <==> device in own.0)
            && OwnReports(all.1, device) == own.1
  {
    if pages != [] {
      var front, last := pages[..|pages| - 1], pages[|pages| - 1];
      OnePollIsIndependent(cursors, floor, front, device);
      if last.Page? {
        var (before, published) := PollAll(cursors, floor, front);
        var report := Labelled(last.device, Reported(CursorOf(before, last.device, floor), last.unlocks));
        OwnReportsConcat(published, report, device);
        OwnReportsLabelled(report, last.device, device);
        if last.device == device {
          assert OwnPages(pages, device)[..|OwnPages(pages, device)| - 1] == OwnPages(front, device);
        }
      }
    }
  }

  // ------------------------------------------------------- all polls of all Intercoms

  datatype Poll = Poll(pages: seq<PageRead>, now: int)

  /** The cursors after some polls. */
  function Watched(startedAt: int, polls: seq<Poll>): map<string, Cursor> {
    if polls == [] then map[]
    else Polled(Watched(startedAt, polls[..|polls| - 1]), startedAt, polls[|polls| - 1]).0
  }

  function Polled(cursors: map<string, Cursor>, startedAt: int, poll: Poll): (map<string, Cursor>, seq<DeviceUnlock>) {
    PollAll(cursors, FloorFor(cursors, startedAt, poll.now), poll.pages)
  }

  /** What the k-th poll publishes. */
  function PublishedBy(startedAt: int, polls: seq<Poll>, k: nat): seq<DeviceUnlock>
    requires k < |polls|
  {
    Polled(Watched(startedAt, polls[..k]), startedAt, polls[k]).1
  }

  /** The same polls with the pages of one device only. */
  function Alone(polls: seq<Poll>, device: string): (r: seq<Poll>)
    ensures |r| == |polls|
    ensures forall k :: 0 <= k < |polls| ==> r[k] == Poll(OwnPages(polls[k].pages, device), polls[k].now)
  {
    seq(|polls|, k requires 0 <= k < |polls| => Poll(OwnPages(polls[k].pages, device), polls[k].now))
  }

  predicate ReadsAny(poll: Poll) {
    exists i :: 0 <= i < |poll.pages| && poll.pages[i].Page?
  }

  predicate Shows(poll: Poll, device: string) {
    OwnPages(poll.pages, device) != []
  }

  predicate NoneShow(polls: seq<Poll>, device: string) {
    forall k :: 0 <= k < |polls| ==> !Shows(polls[k], device)
  }

  predicate NoneRead(polls: seq<Poll>) {
    forall k :: 0 <= k < |polls| ==> !ReadsAny(polls[k])
  }

  /** At the first page of the device: no other Intercom was read by an earlier poll, or the bridge was started just
      one polling interval ago, so that both floors are the same. */
  predicate StartsAlike(startedAt: int, polls: seq<Poll>, device: string) {
    forall k :: 0 <= k < |polls| && Shows(polls[k], device) && NoneShow(polls[..k], device) ==>
      NoneRead(polls[..k]) || startedAt == polls[k].now - POLL_SECONDS
  }

  /** Pages of one device move its own cursor only, and depend on nothing but that cursor. */
  lemma {:induction false} OwnPoll(c: map<string, Cursor>, f: int, d: map<string, Cursor>, g: int, pages: seq<PageRead>,
                                   device: string)
    requires OwnPages(pages, device) == pages && pages != []
    requires CursorOf(c, device, f) == CursorOf(d, device, g)
    ensures var x, y := PollAll(c, f, pages), PollAll(d, g, pages);
            device in x.0 && device in y.0 && x.0[device] == y.0[device] && x.1 == y.1
  {
    var front := pages[..|pages| - 1];
    OwnFront(pages, device);
    if front != [] {
      OwnPoll(c, f, d, g, front, device);
    }
  }

  lemma OwnFront(pages: seq<PageRead>, device: string)
    requires OwnPages(pages, device) == pages && pages != []
    ensures var front, last := pages[..|pages| - 1], pages[|pages| - 1];
            OwnPages(front, device) == front && last.Page? && last.device == device
  {
    OwnPagesShrink(pages[..|pages| - 1], device);
    var front, last := pages[..|pages| - 1], pages[|pages| - 1];
    assert pages == front + [last];
    if last.Page? && last.device == device {
      assert OwnPages(front, device) + [last] == front + [last];
      assert (OwnPages(front, device) + [last])[..|front|] == front;
    }
  }

  lemma {:induction false} OwnPagesShrink(pages: seq<PageRead>, device: string)
    ensures |OwnPages(pages, device)| <= |pages|
    ensures OwnPages(OwnPages(pages, device), device) == OwnPages(pages, device)
  {
    if pages != [] {
      OwnPagesShrink(pages[..|pages| - 1], device);
      var own := OwnPages(pages[..|pages| - 1], device);
      var last := pages[|pages| - 1];
      assert (own + [last])[..|own|] == own;
    }
  }

  lemma {:induction false} PollKeys(c: map<string, Cursor>, f: int, pages: seq<PageRead>, device: string)
    ensures var after := PollAll(c, f, pages).0;
            && (device in after <==> device in c || OwnPages(pages, device) != [])
            && (device in after ==> after[device].start == if device in c then c[device].start else f)
  {
    if pages != [] {
      PollKeys(c, f, pages[..|pages| - 1], device);
    }
  }

  lemma {:induction false} PollEmpty(c: map<string, Cursor>, f: int, poll: Poll)
    ensures PollAll(c, f, poll.pages).0 == map[] <==> c == map[] && !ReadsAny(poll)
    decreases |poll.pages|
  {
    if poll.pages != [] {
      var pages := poll.pages;
      var front, last := Poll(pages[..|pages| - 1], poll.now), pages[|pages| - 1];
      PollEmpty(c, f, front);
      assert ReadsAny(poll) <==> ReadsAny(front) || last.Page? by {
        if i :| 0 <= i < |pages| && pages[i].Page? {
          assert i < |front.pages| ==> front.pages[i].Page?;
        }
        if i :| 0 <= i < |front.pages| && front.pages[i].Page? {
          assert pages[i].Page?;
        }
        assert last.Page? ==> pages[|pages| - 1].Page?;
      }
      if last.Page? {
        assert last.device in PollAll(c, f, pages).0;
      }
    }
  }

  lemma {:induction false} WatchedEmpty(startedAt: int, polls: seq<Poll>)
    ensures Watched(startedAt, polls) == map[] <==> NoneRead(polls)
  {
    if polls != [] {
      var front, last := polls[..|polls| - 1], polls[|polls| - 1];
      WatchedEmpty(startedAt, front);
      var c := Watched(startedAt, front);
      PollEmpty(c, FloorFor(c, startedAt, last.now), last);
      assert NoneRead(polls) <==> NoneRead(front) && !ReadsAny(last);
    }
  }

  lemma {:induction false} WatchedKeys(startedAt: int, polls: seq<Poll>, device: string)
    ensures device in Watched(startedAt, polls) <==> !NoneShow(polls, device)
  {
    if polls != [] {
      var front, last := polls[..|polls| - 1], polls[|polls| - 1];
      WatchedKeys(startedAt, front, device);
      var c := Watched(startedAt, front);
      PollKeys(c, FloorFor(c, startedAt, last.now), last.pages, device);
      assert NoneShow(polls, device) <==> NoneShow(front, device) && !Shows(last, device);
    }
  }

  lemma AloneFront(polls: seq<Poll>, device: string, k: nat)
    requires k <= |polls|
    ensures Alone(polls, device)[..k] == Alone(polls[..k], device)
  {
  }

  /** Alone, a device is the only one read. */
  lemma AloneReads(poll: Poll, device: string)
    ensures var own := Poll(OwnPages(poll.pages, device), poll.now);
            (ReadsAny(own) <==> Shows(poll, device)) && (Shows(own, device) <==> Shows(poll, device))
  {
    OwnPagesShrink(poll.pages, device);
    var own := OwnPages(poll.pages, device);
    if own != [] {
      OwnFront(own, device);
      assert own[|own| - 1].Page?;
    }
  }

  lemma AloneNoneRead(polls: seq<Poll>, device: string)
    ensures NoneRead(Alone(polls, device)) <==> NoneShow(polls, device)
    ensures NoneShow(Alone(polls, device), device) <==> NoneShow(polls, device)
  {
    forall k | 0 <= k < |polls|
      ensures ReadsAny(Alone(polls, device)[k]) <==> Shows(polls[k], device)
      ensures Shows(Alone(polls, device)[k], device) <==> Shows(polls[k], device)
    {
      AloneReads(polls[k], device);
    }
  }

  /** One poll, from cursors that agree on the device. */
  lemma PollAlike(c: map<string, Cursor>, d: map<string, Cursor>, startedAt: int, poll: Poll, device: string)
    requires device in c <==> device in d
    requires device in c ==> c[device] == d[device]
    requires device !in c && Shows(poll, device) ==>
      FloorFor(c, startedAt, poll.now) == FloorFor(d, startedAt, poll.now)
    ensures var own := Poll(OwnPages(poll.pages, device), poll.now);
            var x, y := Polled(c, startedAt, poll), Polled(d, startedAt, own);
            && (device in x.0 <==> device in y.0) && (device in x.0 ==> x.0[device] == y.0[device])
            && OwnReports(x.1, device) == y.1
  {
    var f, g := FloorFor(c, startedAt, poll.now), FloorFor(d, startedAt, poll.now);
    var own := OwnPages(poll.pages, device);
    OnePollIsIndependent(c, f, poll.pages, device);
    PollKeys(c, f, poll.pages, device);
    OwnPagesShrink(poll.pages, device);
    if own != [] {
      OwnPoll(c, f, d, g, own, device);
    }
  }

  /** The floors of the two runs at the device's first page. */
  lemma FloorsAlike(startedAt: int, front: seq<Poll>, poll: Poll, device: string)
    requires NoneShow(front, device)
    ensures FloorFor(Watched(startedAt, front), startedAt, poll.now)
            == FloorFor(Watched(startedAt, Alone(front, device)), startedAt, poll.now)
            <==> NoneRead(front) || startedAt == poll.now - POLL_SECONDS
  {
    WatchedEmpty(startedAt, front);
    WatchedEmpty(startedAt, Alone(front, device));
    AloneNoneRead(front, device);
  }

  lemma {:induction false} WatchedAlike(startedAt: int, polls: seq<Poll>, device: string)
    ensures var c, d := Watched(startedAt, polls), Watched(startedAt, Alone(polls, device));
            && (device in c <==> device in d)
            && (StartsAlike(startedAt, polls, device) && device in c ==> c[device] == d[device])
            && (!StartsAlike(startedAt, polls, device) ==> device in c && c[device].start != d[device].start)
  {
    if polls != [] {
      var front, last := polls[..|polls| - 1], polls[|polls| - 1];
      WatchedAlike(startedAt, front, device);
      AlikeStep(startedAt, polls, device);
    }
  }

  lemma AlikeFront(startedAt: int, polls: seq<Poll>, device: string)
    requires polls != []
    ensures var front, last := polls[..|polls| - 1], polls[|polls| - 1];
            StartsAlike(startedAt, polls, device) <==>
              && StartsAlike(startedAt, front, device)
              && (Shows(last, device) && NoneShow(front, device) ==>
                    NoneRead(front) || startedAt == last.now - POLL_SECONDS)
  {
    var front := polls[..|polls| - 1];
    assert forall k :: 0 <= k < |front| ==> front[k] == polls[k] && front[..k] == polls[..k];
  }

  lemma AlikeStep(startedAt: int, polls: seq<Poll>, device: string)
    requires polls != []
    requires var front := polls[..|polls| - 1];
             var c, d := Watched(startedAt, front), Watched(startedAt, Alone(front, device));
             && (device in c <==> device in d)
             && (StartsAlike(startedAt, front, device) && device in c ==> c[device] == d[device])
             && (!StartsAlike(startedAt, front, device) ==> device in c && c[device].start != d[device].start)
    ensures var c, d := Watched(startedAt, polls), Watched(startedAt, Alone(polls, device));
            && (device in c <==> device in d)
            && (StartsAlike(startedAt, polls, device) && device in c ==> c[device] == d[device])
            && (!StartsAlike(startedAt, polls, device) ==> device in c && c[device].start != d[device].start)
  {
    var front, last := polls[..|polls| - 1], polls[|polls| - 1];
    var c, d := Watched(startedAt, front), Watched(startedAt, Alone(front, device));
    var own := Poll(OwnPages(last.pages, device), last.now);
    AloneFront(polls, device, |front|);
    AlikeFront(startedAt, polls, device);
    WatchedKeys(startedAt, front, device);
    PollKeys(c, FloorFor(c, startedAt, last.now), last.pages, device);
    PollKeys(d, FloorFor(d, startedAt, last.now), own.pages, device);
    AloneReads(last, device);
    if device !in c {
      FloorsAlike(startedAt, front, last, device);
    }
    if StartsAlike(startedAt, polls, device) {
      PollAlike(c, d, startedAt, last, device);
    }
  }

  /** Intercoms are independent over a whole run exactly when they start alike: then all that is published for a
      device, and its cursor, are what they would be without the others; otherwise its cursor never is, because
      another Intercom that was read before has cut its first look back. */
  lemma IntercomsAreIndependent(startedAt: int, polls: seq<Poll>, device: string)
    ensures StartsAlike(startedAt, polls, device) ==>
              forall k :: 0 <= k < |polls| ==>
                OwnReports(PublishedBy(startedAt, polls, k), device) == PublishedBy(startedAt, Alone(polls, device), k)
    ensures !NoneShow(polls, device) ==>
              var c, d := Watched(startedAt, polls), Watched(startedAt, Alone(polls, device));
              device in c && device in d && (c[device] == d[device] <==> StartsAlike(startedAt, polls, device))
  {
    WatchedAlike(startedAt, polls, device);
    WatchedKeys(startedAt, polls, device);
    if StartsAlike(startedAt, polls, device) {
      forall k | 0 <= k < |polls|
        ensures OwnReports(PublishedBy(startedAt, polls, k), device) == PublishedBy(startedAt, Alone(polls, device), k)
      {
        PublishedAlike(startedAt, polls, k, device);
      }
    }
  }

  lemma PublishedAlike(startedAt: int, polls: seq<Poll>, k: nat, device: string)
    requires k < |polls| && StartsAlike(startedAt, polls, device)
    ensures OwnReports(PublishedBy(startedAt, polls, k), device) == PublishedBy(startedAt, Alone(polls, device), k)
  {
    var front := polls[..k];
    assert forall j :: 0 <= j < k ==> front[j] == polls[j] && front[..j] == polls[..j];
    assert StartsAlike(startedAt, front, device);
    WatchedAlike(startedAt, front, device);
    AloneFront(polls, device, k);
    WatchedKeys(startedAt, front, device);
    if device !in Watched(startedAt, front) {
      FloorsAlike(startedAt, front, polls[k], device);
    }
    PollAlike(Watched(startedAt, front), Watched(startedAt, Alone(front, device)), startedAt, polls[k], device);
  }

  /** Where they do not start alike, an unlock at the lower of the two floors is published with or without the others,
      but not both. */
  lemma LateIntercomDiffers(startedAt: int, front: seq<Poll>, device: string, now: int, u: Unlock)
    requires NoneShow(front, device) && !NoneRead(front) && startedAt != now - 20
    requires var first := if startedAt > now - 900 then startedAt else now - 900;
             u.occurredAt == if first < now - 20 then first else now - 20
    ensures var polls := front + [Poll([Page(device, [u])], now)];
            OwnReports(PublishedBy(startedAt, polls, |front|), device)
            != PublishedBy(startedAt, Alone(polls, device), |front|)
  {
    var last := Poll([Page(device, [u])], now);
    var polls := front + [last];
    assert polls[..|front|] == front;
    AloneFront(polls, device, |front|);
    WatchedEmpty(startedAt, front);
    WatchedKeys(startedAt, front, device);
    WatchedEmpty(startedAt, Alone(front, device));
    WatchedKeys(startedAt, Alone(front, device), device);
    AloneNoneRead(front, device);
    OnlyPage(device, u);
    FirstReport(Watched(startedAt, front), now - POLL_SECONDS, device, u);
    FirstReport(map[], FloorFor(map[], startedAt, now), device, u);
  }

  lemma OnlyPage(device: string, u: Unlock)
    ensures OwnPages([Page(device, [u])], device) == [Page(device, [u])]
  {
    assert [Page(device, [u])][..0] == [];
  }

  lemma FirstReport(c: map<string, Cursor>, floor: int, device: string, u: Unlock)
    requires device !in c
    ensures var published := PollAll(c, floor, [Page(device, [u])]).1;
            published == (if u.occurredAt >= floor then [DeviceUnlock(device, u)] else [])
            && OwnReports(published, device) == published
  {
    var pages := [Page(device, [u])];
    OneReported(NewCursor(floor), [u], u);
    OnePage(c, floor, pages, device, [u]);
    OwnReportsLabelled(PollAll(c, floor, pages).1, device, device);
  }

  lemma OneReported(c: Cursor, page: seq<Unlock>, u: Unlock)
    requires |page| == 1 && page[0] == u
    ensures Reported(c, page) == if IsFresh(c, u) then [u] else []
  {
    var front := page[..0];
    assert Reported(c, front) == [];
  }

  lemma OnePage(c: map<string, Cursor>, floor: int, pages: seq<PageRead>, device: string, unlocks: seq<Unlock>)
    requires |pages| == 1 && pages[0] == Page(device, unlocks)
    ensures PollAll(c, floor, pages).1 == Labelled(device, Reported(CursorOf(c, device, floor), unlocks))
  {
    var front := pages[..0];
    assert PollAll(c, floor, front) == (c, []);
  }

  /** For instance: the bridge starts at 0; in the poll at 20 only Intercom A is read; in the poll at 40 Intercom B
      shows an unlock of time 5, which is not published; had A failed as well, it would have been. */
  lemma LateIntercomLosesAnUnlock(a: string, b: string, u: Unlock)
    requires a != b && u.occurredAt == 5
    ensures var second := Poll([Page(b, [u])], 40);
            && PublishedBy(0, [Poll([Page(a, []), Failed], 20), second], 1) == []
            && PublishedBy(0, [Poll([Failed, Failed], 20), second], 1) == [DeviceUnlock(b, u)]
  {
    var second := Poll([Page(b, [u])], 40);
    var read, failed := Poll([Page(a, []), Failed], 20), Poll([Failed, Failed], 20);
    FirstPoll(read, second);
    FirstPoll(failed, second);
    assert read.pages[0].Page?;
    assert ReadsAny(read) && !ReadsAny(failed);
    NotShown(read, b);
    NotShown(failed, b);
    FirstReport(Watched(0, [read]), 20, b, u);
    FirstReport(Watched(0, [failed]), 0, b, u);
  }

  lemma {:induction false} NotShown(poll: Poll, device: string)
    requires forall i :: 0 <= i < |poll.pages| && poll.pages[i].Page? ==> poll.pages[i].device != device
    ensures !Shows(poll, device)
    decreases |poll.pages|
  {
    if poll.pages != [] {
      NotShown(poll.(pages := poll.pages[..|poll.pages| - 1]), device);
    }
  }

  lemma FirstPoll(first: Poll, second: Poll)
    ensures [first, second][..1] == [first]
    ensures Watched(0, [first]) == map[] <==> !ReadsAny(first)
    ensures forall device :: device in Watched(0, [first]) <==> Shows(first, device)
  {
    WatchedEmpty(0, [first]);
    forall device ensures device in Watched(0, [first]) <==> Shows(first, device) {
      WatchedKeys(0, [first], device);
    }
  }
}
