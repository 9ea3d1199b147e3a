/**
 The recording archive: what `cleanup` evicts, and what a commit can rely on.

 A recording is a media file and a manifest. Directory order, I/O failures and the clock are free.
 */
module Retention {
  import opened Wrappers

  const MAX_ARCHIVE_BYTES: nat := 512 * 1024 * 1024
  const MAX_MEDIA_BYTES: nat := 8 * 1024 * 1024
  const MIN_MEDIA_BYTES: nat := 128
  const RETENTION_SECONDS: nat := 30 * 24 * 60 * 60
  const I64_MAX: int := 0x7FFF_FFFF_FFFF_FFFF

  type Id = nat

  datatype Item = Item(id: Id, startedAt: int, endedAt: int, savedAt: int, bytes: nat)

  datatype Error = Rejected | Storage | InvalidManifest

  type Manifests = map<Id, Item>

  predicate Sound(item: Item) {
    item.bytes <= 8388608 && item.startedAt <= item.endedAt
  }

  /** Subtraction that saturates at the ends of a signed 64-bit integer. */
  function SaturatingSub(a: int, b: int): int {
    if a - b > I64_MAX then I64_MAX else if a - b < -I64_MAX - 1 then -I64_MAX - 1 else a - b
  }

  /** Subtraction of unsigned integers that saturates at zero. */
  function SaturatingLess(a: nat, b: nat): nat {
    if a >= b then a - b else 0
  }

  /** Saved more than thirty days ago. */
  predicate TooOld(item: Item, current: int) {
    current - item.savedAt > 2592000
  }

  function Sum(s: seq<Item>): nat {
    if s == [] then 0 else s[0].bytes + Sum(s[1..])
  }

  ghost function Ids(s: seq<Item>): set<Id> {
    set x | x in s :: x.id
  }

  predicate Distinct(s: seq<Item>) {
    forall i, j :: 0 <= i < j < |s| ==> s[i].id != s[j].id
  }

  /** The sequence holds each manifest once. */
  ghost predicate Listing(s: seq<Item>, m: Manifests) {
    Distinct(s) && Ids(s) == m.Keys && forall i :: 0 <= i < |s| ==> s[i].id in m && m[s[i].id] == s[i]
  }

  // ------------------------------------------------------------------- stable sorting

  function Insert(key: Item -> int, x: Item, s: seq<Item>): seq<Item> {
    if s == [] || key(x) <= key(s[0]) then [x] + s else [s[0]] + Insert(key, x, s[1..])
  }

  function SortBy(key: Item -> int, s: seq<Item>): seq<Item> {
    if s == [] then [] else Insert(key, s[0], SortBy(key, s[1..]))
  }

  /** Increasing in the key, and newest end first among equal keys. */
  predicate Before(key: Item -> int, a: Item, b: Item) {
    key(a) < key(b) || (key(a) == key(b) && a.endedAt >= b.endedAt)
  }

  predicate InOrder(key: Item -> int, s: seq<Item>) {
    forall i, j :: 0 <= i < j < |s| ==> Before(key, s[i], s[j])
  }

  predicate EndsDown(s: seq<Item>) {
    forall i, j :: 0 <= i < j < |s| ==> s[i].endedAt >= s[j].endedAt
  }

  lemma {:induction false} InsertHolds(key: Item -> int, x: Item, s: seq<Item>, y: Item)
    ensures y in Insert(key, x, s) <==> y == x || y in s
  {
    if !(s == [] || key(x) <= key(s[0])) {
      InsertHolds(key, x, s[1..], y);
      assert s == [s[0]] + s[1..];
    }
  }

  lemma {:induction false} InsertSum(key: Item -> int, x: Item, s: seq<Item>)
    ensures Sum(Insert(key, x, s)) == x.bytes + Sum(s)
  {
    var r := Insert(key, x, s);
    if !(s == [] || key(x) <= key(s[0])) {
      InsertSum(key, x, s[1..]);
      assert r[1..] == Insert(key, x, s[1..]);
    } else {
      assert r[1..] == s;
    }
  }

  lemma ConsDistinct(x: Item, s: seq<Item>)
    ensures Distinct([x] + s) <==> Distinct(s) && x.id !in Ids(s)
  {
    var r := [x] + s;
    assert forall j :: 0 <= j < |s| ==> r[j + 1] == s[j];
    forall y | Distinct(r) && y in s ensures x.id != y.id {
      var j :| 0 <= j < |s| && s[j] == y;
      assert r[0].id != r[j + 1].id;
    }
  }

  lemma {:induction false} InsertDistinct(key: Item -> int, x: Item, s: seq<Item>)
    requires Distinct(s) && x.id !in Ids(s)
    ensures Distinct(Insert(key, x, s))
  {
    ConsDistinct(x, s);
    if !(s == [] || key(x) <= key(s[0])) {
      var rest := s[1..];
      assert s == [s[0]] + rest;
      ConsDistinct(s[0], rest);
      InsertDistinct(key, x, rest);
      var r := Insert(key, x, rest);
      forall y | y in r ensures y.id != s[0].id {
        InsertHolds(key, x, rest, y);
      }
      ConsDistinct(s[0], r);
    }
  }

  lemma {:induction false} InsertInOrder(key: Item -> int, x: Item, s: seq<Item>)
    requires InOrder(key, s) && forall y :: y in s ==> x.endedAt >= y.endedAt
    ensures InOrder(key, Insert(key, x, s))
  {
    var r := Insert(key, x, s);
    if !(s == [] || key(x) <= key(s[0])) {
      var rest := s[1..];
      InsertInOrder(key, x, rest);
      assert r[1..] == Insert(key, x, rest);
      forall y | y in r[1..] ensures Before(key, s[0], y) {
        InsertHolds(key, x, rest, y);
      }
      assert forall j :: 0 < j < |r| ==> r[j] == r[1..][j - 1] && r[j] in r[1..];
    } else {
      assert forall j :: 0 < j < |r| ==> r[j] == s[j - 1];
    }
  }

  lemma {:induction false} SortHolds(key: Item -> int, s: seq<Item>, y: Item)
    ensures y in SortBy(key, s) <==> y in s
  {
    if s != [] {
      SortHolds(key, s[1..], y);
      InsertHolds(key, s[0], SortBy(key, s[1..]), y);
      assert s == [s[0]] + s[1..];
    }
  }

  lemma SortIds(key: Item -> int, s: seq<Item>)
    ensures Ids(SortBy(key, s)) == Ids(s)
  {
    forall y ensures y in SortBy(key, s) <==> y in s {
      SortHolds(key, s, y);
    }
  }

  lemma {:induction false} SortKeeps(key: Item -> int, s: seq<Item>)
    ensures Sum(SortBy(key, s)) == Sum(s)
    ensures Distinct(s) ==> Distinct(SortBy(key, s))
  {
    if s != [] {
      SortKeeps(key, s[1..]);
      InsertSum(key, s[0], SortBy(key, s[1..]));
      SortIds(key, s[1..]);
      if Distinct(s) {
        assert s == [s[0]] + s[1..];
        ConsDistinct(s[0], s[1..]);
        InsertDistinct(key, s[0], SortBy(key, s[1..]));
      }
    }
  }

  /** Sorting is stable: ends that ran down before still do among equal keys. */
  lemma {:induction false} SortInOrder(key: Item -> int, s: seq<Item>)
    requires EndsDown(s)
    ensures InOrder(key, SortBy(key, s))
  {
    if s != [] {
      SortInOrder(key, s[1..]);
      forall y | y in SortBy(key, s[1..]) ensures s[0].endedAt >= y.endedAt {
        SortHolds(key, s[1..], y);
      }
      InsertInOrder(key, s[0], SortBy(key, s[1..]));
    }
  }

  lemma {:induction false} SortEndsDown(s: seq<Item>)
    ensures EndsDown(SortBy(ByEnd, s))
  {
    if s != [] {
      SortEndsDown(s[1..]);
      InsertEndsDown(s[0], SortBy(ByEnd, s[1..]));
    }
  }

  lemma {:induction false} InsertEndsDown(x: Item, s: seq<Item>)
    requires EndsDown(s)
    ensures EndsDown(Insert(ByEnd, x, s))
  {
    var r := Insert(ByEnd, x, s);
    if !(s == [] || ByEnd(x) <= ByEnd(s[0])) {
      InsertEndsDown(x, s[1..]);
      assert r[1..] == Insert(ByEnd, x, s[1..]);
      forall y | y in r[1..] ensures s[0].endedAt >= y.endedAt {
        InsertHolds(ByEnd, x, s[1..], y);
      }
      assert forall j :: 0 < j < |r| ==> r[j] == r[1..][j - 1] && r[j] in r[1..];
    } else {
      assert forall j :: 0 < j < |r| ==> r[j] == s[j - 1];
    }
  }

  function ByEnd(x: Item): int { -x.endedAt }

  function BySaved(x: Item): int { x.savedAt }

  lemma SortListing(key: Item -> int, s: seq<Item>, m: Manifests)
    requires Listing(s, m)
    ensures Listing(SortBy(key, s), m)
  {
    SortKeeps(key, s);
    SortIds(key, s);
    var r := SortBy(key, s);
    forall i | 0 <= i < |r| ensures r[i].id in m && m[r[i].id] == r[i] {
      SortHolds(key, s, r[i]);
    }
  }

  // ------------------------------------------------------------------- bytes of an archive

  ghost function Bytes(m: Manifests): nat {
    if m == map[] then 0 else
      var id :| id in m;
      m[id].bytes + Bytes(m - {id})
  }

  /** Taking one recording away takes its bytes away, whichever it is. */
  lemma {:induction false} BytesWithout(m: Manifests, id: Id)
    requires id in m
    ensures Bytes(m) == m[id].bytes + Bytes(m - {id})
    decreases |m|
  {
    var picked :| picked in m && Bytes(m) == m[picked].bytes + Bytes(m - {picked});
    if picked != id {
      BytesWithout(m - {picked}, id);
      BytesWithout(m - {id}, picked);
      assert m - {picked} - {id} == m - {id} - {picked};
    }
  }

  lemma {:induction false} BytesGrow(small: Manifests, big: Manifests)
    requires small.Keys <= big.Keys && forall id :: id in small ==> small[id] == big[id]
    ensures Bytes(small) <= Bytes(big)
    decreases |small|
  {
    if small != map[] {
      var id :| id in small;
      BytesWithout(small, id);
      BytesWithout(big, id);
      BytesGrow(small - {id}, big - {id});
    }
  }

  lemma {:induction false} ListingSum(s: seq<Item>, m: Manifests)
    requires Listing(s, m)
    ensures Sum(s) == Bytes(m)
  {
    if s == [] {
      assert m.Keys == {};
      assert m == map[];
    } else {
      ListingTail(s, m);
      BytesWithout(m, s[0].id);
      ListingSum(s[1..], m - {s[0].id});
    }
  }

  lemma TailIds(s: seq<Item>)
    requires Distinct(s) && s != []
    ensures Distinct(s[1..]) && s[0].id !in Ids(s[1..]) && Ids(s) == {s[0].id} + Ids(s[1..])
  {
    var rest := s[1..];
    assert s == [s[0]] + rest;
    ConsDistinct(s[0], rest);
    assert forall x :: x in s <==> x == s[0] || x in rest;
  }

  lemma ListingTail(s: seq<Item>, m: Manifests)
    requires Listing(s, m) && s != []
    ensures Listing(s[1..], m - {s[0].id})
  {
    TailIds(s);
    var rest := s[1..];
    forall i | 0 <= i < |rest| ensures rest[i].id in m - {s[0].id} && m[rest[i].id] == rest[i] {
      assert rest[i] == s[i + 1] && rest[i].id in Ids(rest);
    }
  }

  /** What is left of an archive after the first `k` of a listing are gone. */
  lemma {:induction false} ListingSuffix(s: seq<Item>, m: Manifests, k: nat)
    requires Listing(s, m) && k <= |s|
    ensures Listing(s[k..], m - Ids(s[..k]))
  {
    if k == 0 {
      assert s[0..] == s && m - Ids([]) == m;
    } else {
      ListingTail(s, m);
      ListingSuffix(s[1..], m - {s[0].id}, k - 1);
      assert s[1..][k - 1..] == s[k..];
      assert s[..k] == [s[0]] + s[1..][..k - 1];
      assert m - {s[0].id} - Ids(s[1..][..k - 1]) == m - Ids(s[..k]);
    }
  }

  // ------------------------------------------------------------------- what cleanup keeps

  /** Everything in the sequence may stay: all young enough, together small enough. */
  predicate Fits(s: seq<Item>, current: int) {
    (forall i :: 0 <= i < |s| ==> !TooOld(s[i], current)) && Sum(s) <= 536870912
  }

  /** `s[cut..]` is the longest suffix that fits. */
  predicate LongestFit(s: seq<Item>, current: int, cut: nat) {
    && cut <= |s|
    && Fits(s[cut..], current)
    && TooMuch(s, current, cut)
  }

  /** No suffix that starts before `cut` fits. */
  predicate TooMuch(s: seq<Item>, current: int, cut: nat)
    requires cut <= |s|
  {
    forall j: nat :: j < cut ==> !Fits(s[j..], current)
  }

  /** The order of eviction: saved first goes first, and among those saved together the one that ended last. */
  ghost predicate EvictionOrder(s: seq<Item>, m: Manifests) {
    Listing(s, m) && InOrder(BySaved, s)
  }

  /** Whether the greedy loop deletes item `i`, while everything before it is gone, decides the suffix. */
  lemma GreedyStep(s: seq<Item>, current: int, i: nat)
    requires InOrder(BySaved, s) && i < |s|
    ensures TooOld(s[i], current) || Sum(s[i..]) > MAX_ARCHIVE_BYTES <==> !Fits(s[i..], current)
    ensures Sum(s[i..]) == s[i].bytes + Sum(s[i + 1..])
  {
    var suffix := s[i..];
    assert suffix[0] == s[i] && suffix[1..] == s[i + 1..];
    assert forall j :: 0 <= j < |suffix| ==> suffix[j] == s[i + j];
    if !TooOld(s[i], current) {
      forall j | 0 <= j < |suffix| ensures !TooOld(suffix[j], current) {
        assert j > 0 ==> Before(BySaved, s[i], s[i + j]);
      }
    }
  }

  /** The state of the loop at `i`: either everything before `i` is gone, or what is left fits already. */
  ghost predicate Greedy(s: seq<Item>, current: int, cut: nat, i: nat, total: nat) {
    && cut <= i <= |s| && total == Sum(s[cut..])
    && (cut == i || Fits(s[cut..], current)) && TooMuch(s, current, cut)
  }

  /** The test of the loop holds only while everything before `i` is gone and what is left does not fit. */
  lemma LoopTest(s: seq<Item>, current: int, cut: nat, i: nat, total: nat)
    requires InOrder(BySaved, s) && Greedy(s, current, cut, i, total) && i < |s|
    ensures if TooOld(s[i], current) || total > MAX_ARCHIVE_BYTES
            then cut == i && Greedy(s, current, i + 1, i + 1, SaturatingLess(total, s[i].bytes))
            else Greedy(s, current, cut, i + 1, total)
  {
    GreedyStep(s, current, i);
    assert cut < i ==> s[cut..][i - cut] == s[i];
  }

  lemma {:induction false} SumSuffix(s: seq<Item>, k: nat)
    requires k <= |s|
    ensures Sum(s[k..]) <= Sum(s)
  {
    if k > 0 {
      SumSuffix(s[1..], k - 1);
      assert s[1..][k - 1..] == s[k..];
    } else {
      assert s[0..] == s;
    }
  }

  /** Recordings that certainly come no earlier than `x` in any eviction order, `x` included. */
  ghost function SurelyFollowing(m: Manifests, x: Item): Manifests {
    map id | id in m && (m[id] == x || x.savedAt < m[id].savedAt
                         || (x.savedAt == m[id].savedAt && x.endedAt > m[id].endedAt)) :: m[id]
  }

  /** Recordings that may do so: these differ only by those that tie with `x` in both times. */
  ghost function PossiblyFollowing(m: Manifests, x: Item): Manifests {
    map id | id in m && Before(BySaved, x, m[id]) :: m[id]
  }

  /** Position `p` survives exactly when it is young and all from it on fits. */
  lemma SurvivesAt(s: seq<Item>, current: int, cut: nat, p: nat)
    requires InOrder(BySaved, s) && LongestFit(s, current, cut) && p < |s|
    ensures p >= cut <==> !TooOld(s[p], current) && Sum(s[p..]) <= MAX_ARCHIVE_BYTES
  {
    GreedyStep(s, current, p);
    if p >= cut {
      SumSuffix(s[cut..], p - cut);
      assert s[cut..][p - cut..] == s[p..];
      assert s[cut..][p - cut] == s[p];
    }
  }

  lemma SuffixBetween(s: seq<Item>, m: Manifests, p: nat)
    requires EvictionOrder(s, m) && p < |s|
    ensures Bytes(SurelyFollowing(m, s[p])) <= Sum(s[p..]) <= Bytes(PossiblyFollowing(m, s[p]))
  {
    var rest := m - Ids(s[..p]);
    ListingSuffix(s, m, p);
    ListingSum(s[p..], rest);
    var surely, possibly := SurelyFollowing(m, s[p]), PossiblyFollowing(m, s[p]);
    forall id | id in surely ensures id in rest {
      forall y | y in s[..p] ensures y.id != id {
        var j :| 0 <= j < p && s[j] == y;
        assert Before(BySaved, s[j], s[p]);
      }
    }
    BytesGrow(surely, rest);
    forall id | id in rest ensures id in possibly {
      assert id in Ids(s[p..]);
      var y :| y in s[p..] && y.id == id;
      var j :| p <= j < |s| && s[j] == y;
      assert j > p ==> Before(BySaved, s[p], s[j]);
    }
    BytesGrow(rest, possibly);
  }

  /**
   What survives, said without any order: a recording that is too old, or that with everything surely after it
   exceeds the archive, goes; one that is young and with everything possibly after it fits, stays.
   */
  lemma SurvivalIsDecided(s: seq<Item>, m: Manifests, current: int, cut: nat, id: Id)
    requires EvictionOrder(s, m) && LongestFit(s, current, cut) && id in m
    ensures id in m - Ids(s[..cut]) ==>
              !TooOld(m[id], current) && Bytes(SurelyFollowing(m, m[id])) <= MAX_ARCHIVE_BYTES
    ensures MustStay(m, id, current) ==> id in m - Ids(s[..cut])
  {
    assert id in Ids(s);
    var x :| x in s && x.id == id;
    var p :| 0 <= p < |s| && s[p] == x;
    SurvivesAt(s, current, cut, p);
    SuffixBetween(s, m, p);
    if p >= cut {
      forall y | y in s[..cut] ensures y.id != id {
        var j :| 0 <= j < cut && s[j] == y;
        assert s[j].id != s[p].id;
      }
    } else {
      assert s[..cut][p] == x;
    }
  }

  /** The archive `after` is what cleaning `before` may leave. */
  ghost predicate Decided(before: Manifests, after: Manifests, current: int) {
    && after.Keys <= before.Keys
    && (forall id :: id in after ==> after[id] == before[id] && !TooOld(before[id], current))
    && Bytes(after) <= MAX_ARCHIVE_BYTES
    && (forall id :: id in after ==> Bytes(SurelyFollowing(before, before[id])) <= MAX_ARCHIVE_BYTES)
    && (forall id :: id in before && MustStay(before, id, current) ==> id in after)
  }

  ghost predicate MustStay(m: Manifests, id: Id, current: int)
    requires id in m
  {
    !TooOld(m[id], current) && Bytes(PossiblyFollowing(m, m[id])) <= MAX_ARCHIVE_BYTES
  }

  lemma DecidedByCut(s: seq<Item>, m: Manifests, current: int, cut: nat)
    requires EvictionOrder(s, m) && LongestFit(s, current, cut)
    ensures Decided(m, m - Ids(s[..cut]), current)
  {
    Within(s, m, current, cut);
    forall id | id in m
      ensures id in m - Ids(s[..cut]) ==> Bytes(SurelyFollowing(m, m[id])) <= MAX_ARCHIVE_BYTES
      ensures MustStay(m, id, current) ==> id in m - Ids(s[..cut])
    {
      SurvivalIsDecided(s, m, current, cut, id);
    }
  }

  /** A sound recording saved strictly after all others always survives. */
  lemma StrictlyNewestSurvives(s: seq<Item>, m: Manifests, current: int, cut: nat, id: Id)
    requires EvictionOrder(s, m) && LongestFit(s, current, cut) && id in m
    requires Sound(m[id]) && !TooOld(m[id], current)
    requires forall other :: other in m && other != id ==> m[other].savedAt < m[id].savedAt
    ensures id in m - Ids(s[..cut])
  {
    assert id in Ids(s);
    var following := PossiblyFollowing(m, m[id]);
    assert following - {id} == map[];
    BytesWithout(following, id);
    SurvivalIsDecided(s, m, current, cut, id);
  }

  // ------------------------------------------------------------------- ties

  /** Without a full tie, survival is exactly youth and room. */
  lemma UntiedSurvival(s: seq<Item>, m: Manifests, t: int, cut: nat, id: Id)
    requires EvictionOrder(s, m) && LongestFit(s, t, cut) && id in m
    requires Bytes(SurelyFollowing(m, m[id])) == Bytes(PossiblyFollowing(m, m[id]))
    ensures id in m - Ids(s[..cut]) <==> MustStay(m, id, t)
  {
    SurvivalIsDecided(s, m, t, cut, id);
  }

  /** Recordings of the largest size saved in the same second `t`, of which `id` ended last. */
  predicate Burst(m: Manifests, t: int, id: Id) {
    && id in m
    && (forall other :: other in m ==> m[other].bytes == MAX_MEDIA_BYTES && m[other].savedAt == t)
    && (forall other :: other in m && other != id ==> m[other].endedAt < m[id].endedAt)
  }

  lemma Times(n: nat, size: nat)
    ensures (n + 1) * size == n * size + size
  {
  }

  lemma {:induction false} FullSizeBytes(m: Manifests, size: nat)
    requires forall id :: id in m ==> m[id].bytes == size
    ensures Bytes(m) == |m| * size
    decreases |m|
  {
    if m != map[] {
      var id :| id in m;
      BytesWithout(m, id);
      var rest := m - {id};
      assert m == rest[id := m[id]];
      assert |m| == |rest| + 1;
      FullSizeBytes(rest, size);
      Times(|rest|, size);
    }
  }

  /** "Strictly" is needed: in a burst, even the recording that ended last survives only among at most 64. */
  lemma BurstCanEvictItsLast(s: seq<Item>, m: Manifests, t: int, cut: nat, id: Id)
    requires EvictionOrder(s, m) && LongestFit(s, t, cut) && Burst(m, t, id)
    ensures id in m - Ids(s[..cut]) <==> |m| <= 64
  {
    BurstFollows(m, t, id);
    UntiedSurvival(s, m, t, cut, id);
    BurstStays(m, t, id);
  }

  lemma BurstFollows(m: Manifests, t: int, id: Id)
    requires Burst(m, t, id)
    ensures SurelyFollowing(m, m[id]) == m && PossiblyFollowing(m, m[id]) == m
  {
  }

  lemma BurstStays(m: Manifests, t: int, id: Id)
    requires Burst(m, t, id) && PossiblyFollowing(m, m[id]) == m
    ensures MustStay(m, id, t) <==> |m| <= 64
  {
    FullSizeBytes(m, MAX_MEDIA_BYTES);
    RoomFor(|m|);
  }

  lemma RoomFor(n: nat)
    ensures n * MAX_MEDIA_BYTES <= MAX_ARCHIVE_BYTES <==> n <= 64
  {
  }

  // ------------------------------------------------------------------- the store

  /** Every manifest is well formed. */
  ghost predicate AllValid(m: Manifests) {
    forall id :: id in m ==> m[id].bytes <= 8388608 && m[id].startedAt <= m[id].endedAt
  }

  class RecordingStore {
    var media: set<Id>            // ids with a media file
    var manifests: Manifests
    ghost var faults: nat         // file operations that failed

    ghost predicate Valid()
      reads this
    {
      forall id :: id in manifests ==> manifests[id].id == id
    }

    constructor ()
      ensures Valid() && media == {} && manifests == map[] && faults == 0
    {
      media, manifests, faults := {}, map[], 0;
    }

    /** Whether a file operation goes through. */
    method Works() returns (ok: bool)
      modifies this`faults
      ensures faults == old(faults) + if ok then 0 else 1
    {
      ok := *;
      faults := faults + if ok then 0 else 1;
    }

    /** Every manifest, newest end first, or nothing at all if one of them is not sound. */
    method List() returns (r: Result<seq<Item>, Error>)
      requires Valid()
      modifies this`faults
      ensures r.Ok? ==> Listing(r.value, manifests) && EndsDown(r.value)
      ensures r.Ok? ==> AllValid(manifests)
      ensures faults >= old(faults)
      ensures faults == old(faults) && AllValid(manifests) ==> r.Ok?
    {
      var items: seq<Item> := [];
      var rest := manifests.Keys;
      while rest != {}
        invariant rest <= manifests.Keys
        invariant Listing(items, manifests - rest)
        invariant forall i :: 0 <= i < |items| ==> Sound(items[i])
        invariant faults >= old(faults)
        decreases |rest|
      {
        var id :| id in rest;
        var readable := Works();
        if !readable {
          return Err(Storage);
        }
        if manifests[id].bytes > MAX_MEDIA_BYTES || manifests[id].startedAt > manifests[id].endedAt {
          return Err(InvalidManifest);
        }
        AppendListing(items, manifests, rest, id);
        items := items + [manifests[id]];
        rest := rest - {id};
      }
      assert manifests - {} == manifests;
      AllSound(items, manifests);
      SortListing(ByEnd, items, manifests);
      SortEndsDown(items);
      r := Ok(SortBy(ByEnd, items));
    }

    /** Media first, manifest last; a missing file is no error. */
    method Delete(id: Id) returns (r: Result<(), Error>)
      modifies this
      ensures r.Ok? ==> manifests == old(manifests) - {id} && media == old(media) - {id}
      ensures r.Err? ==> manifests == old(manifests) && old(media) - {id} <= media <= old(media)
      ensures faults >= old(faults) && (faults == old(faults) ==> r.Ok?)
    {
      var removed := Works();
      if !removed {
        return Err(Storage);
      }
      media := media - {id};
      removed := Works();
      if !removed {
        return Err(Storage);
      }
      manifests := manifests - {id};
      r := Ok(());
    }

    /**
     Keeps exactly the longest suffix, in eviction order, that is young enough and small enough. A deletion
     that fails stops earlier, so nothing outside the evicted prefix is ever touched.
     */
    method Cleanup(current: int) returns (r: Result<(), Error>, ghost ordered: seq<Item>, ghost cut: nat)
      requires Valid()
      modifies this
      ensures Valid()
      ensures r.Ok? ==> EvictionOrder(ordered, old(manifests)) && LongestFit(ordered, current, cut)
      ensures r.Ok? ==> manifests == old(manifests) - Ids(ordered[..cut]) && media == old(media) - Ids(ordered[..cut])
      ensures r.Ok? ==> AllValid(old(manifests))
      ensures faults >= old(faults) && (faults == old(faults) && AllValid(old(manifests)) ==> r.Ok?)
      ensures r.Ok? ==> Bytes(manifests) <= 536870912
      ensures r.Ok? ==> forall id :: id in manifests ==> manifests[id].savedAt >= current - 2592000
      ensures r.Err? ==> Interrupted(old(manifests), old(media), current)
    {
      ordered, cut := [], 0;
      var listed := List();
      if listed.Err? {
        return Err(listed.error), ordered, cut;
      }
      var items := SortBy(BySaved, listed.value);
      SortListing(BySaved, listed.value, manifests);
      SortInOrder(BySaved, listed.value);
      SortKeeps(BySaved, listed.value);
      ordered := items;
      var total := TotalBytes(listed.value);
      r, cut := Evict(items, total, current);
      if r.Ok? {
        Within(items, old(manifests), current, cut);
      }
    }

    method TotalBytes(items: seq<Item>) returns (total: nat)
      ensures total == Sum(items)
    {
      total := 0;
      for i := 0 to |items|
        invariant total + Sum(items[i..]) == Sum(items)
      {
        assert items[i..][1..] == items[i + 1..];
        total := total + items[i].bytes;
      }
    }

    /** The greedy loop with its running total. */
    method Evict(items: seq<Item>, bytes: nat, current: int) returns (r: Result<(), Error>, ghost cut: nat)
      requires InOrder(BySaved, items) && bytes == Sum(items)
      modifies this
      ensures r.Ok? ==> LongestFit(items, current, cut) && Evicted(items, old(manifests), old(media), cut)
      ensures r.Err? ==> StoppedAt(items, cut, old(manifests), old(media), current)
      ensures faults >= old(faults) && (faults == old(faults) ==> r.Ok?)
    {
      var total: nat := bytes;
      cut := 0;
      assert items[0..] == items && manifests - Ids(items[..0]) == manifests && media - Ids(items[..0]) == media;
      for i := 0 to |items|
        invariant Greedy(items, current, cut, i, total) && Evicted(items, old(manifests), old(media), cut)
        invariant faults >= old(faults)
      {
        LoopTest(items, current, cut, i, total);
        if SaturatingSub(current, items[i].savedAt) > RETENTION_SECONDS || total > MAX_ARCHIVE_BYTES {
          var deleted := Delete(items[i].id);
          EvictOne(items, i, old(manifests), old(media));
          if deleted.Err? {
            return Err(deleted.error), cut;
          }
          total := SaturatingLess(total, items[i].bytes);
          cut := cut + 1;
        }
      }
      r := Ok(());
    }

    /**
     Stores a recording and evicts. Success means that the archive is within both bounds and that what survived
     was decided by the times and sizes alone; a recording saved strictly last is always among it. Failure leaves
     the archive as it was, or with the recording stored and the eviction interrupted.
     */
    method Commit(id: Id, startedAt: int, endedAt: int, bytes: nat, wellFormed: bool, now: int)
      returns (r: Result<Item, Error>)
      requires Valid() && id !in manifests && id !in media
      modifies this
      ensures Valid()
      ensures !wellFormed || !(128 <= bytes <= 8388608) ==>
        r.Err? && manifests == old(manifests) && media == old(media)
      ensures startedAt > endedAt ==> r.Err?
      ensures (faults == old(faults) && wellFormed && 128 <= bytes <= 8388608 && startedAt <= endedAt
               && AllValid(old(manifests))) ==> r.Ok?
      ensures var item := Item(id, startedAt, endedAt, now, bytes);
        && (r.Ok? ==> r.value == item && Decided(old(manifests)[id := item], manifests, now))
        && (r.Ok? && (forall other :: other in old(manifests) ==> old(manifests)[other].savedAt < now) ==>
              id in manifests && id in media)
        && (r.Err? ==>
              || (manifests == old(manifests) && media == old(media))
              || (manifests == old(manifests) && media == old(media) + {id} && faults == old(faults) + 2)
              || Interrupted(old(manifests)[id := item], old(media) + {id}, now))
    {
      var ready := Works();
      if !ready {
        return Err(Storage);
      }
      if !wellFormed || bytes < MIN_MEDIA_BYTES || bytes > MAX_MEDIA_BYTES {
        return Err(Rejected);
      }
      var item := Item(id, startedAt, endedAt, now, bytes);
      var written := Works();
      if !written {
        return Err(Storage);
      }
      media := media + {id};
      written := Works();
      if !written {
        var undone := Works();
        if undone {
          media := media - {id};
        }
        return Err(Storage);
      }
      manifests := manifests[id := item];
      ghost var stored, files := manifests, media;
      var cleaned, ordered, cut := Cleanup(now);
      if cleaned.Err? {
        return Err(cleaned.error);
      }
      assert stored[id] == item;
      DecidedByCut(ordered, stored, now, cut);
      if forall other :: other in old(manifests) ==> old(manifests)[other].savedAt < now {
        StrictlyNewestSurvives(ordered, stored, now, cut, id);
      }
      r := Ok(item);
    }

    /** Exactly the first `cut` of the order are gone. */
    ghost predicate Evicted(order: seq<Item>, before: Manifests, mediaBefore: set<Id>, cut: nat)
      reads this
    {
      cut <= |order| && manifests == before - Ids(order[..cut]) && media == mediaBefore - Ids(order[..cut])
    }

    /** Some of the recordings that had to go are gone, oldest first; at most one more lost its media. */
    ghost predicate Interrupted(before: Manifests, mediaBefore: set<Id>, current: int)
      reads this
    {
      (manifests == before && media == mediaBefore) ||
      exists order, at: nat :: EvictionOrder(order, before) && StoppedAt(order, at, before, mediaBefore, current)
    }

    ghost predicate StoppedAt(order: seq<Item>, at: nat, before: Manifests, mediaBefore: set<Id>, current: int)
      reads this
    {
      && at < |order|
      && TooMuch(order, current, at + 1)
      && manifests == before - Ids(order[..at])
      && mediaBefore - Ids(order[..at + 1]) <= media <= mediaBefore - Ids(order[..at])
    }
  }

  lemma AppendListing(s: seq<Item>, m: Manifests, rest: set<Id>, id: Id)
    requires Listing(s, m - rest) && id in rest && id in m && m[id].id == id
    ensures Listing(s + [m[id]], m - (rest - {id}))
  {
    assert forall i :: 0 <= i < |s| ==> s[i].id in m - rest;
    assert Ids(s + [m[id]]) == Ids(s) + {id};
    assert (m - (rest - {id})).Keys == (m - rest).Keys + {id};
  }

  lemma AllSound(s: seq<Item>, m: Manifests)
    requires Listing(s, m) && forall i :: 0 <= i < |s| ==> Sound(s[i])
    ensures AllValid(m)
  {
    forall id | id in m ensures Sound(m[id]) {
      assert id in Ids(s);
      var x :| x in s && x.id == id;
    }
  }

  lemma EvictOne(s: seq<Item>, i: nat, m: Manifests, media: set<Id>)
    requires i < |s|
    ensures Ids(s[..i + 1]) == Ids(s[..i]) + {s[i].id}
    ensures m - Ids(s[..i + 1]) == m - Ids(s[..i]) - {s[i].id}
    ensures media - Ids(s[..i + 1]) == media - Ids(s[..i]) - {s[i].id}
  {
    assert s[..i + 1] == s[..i] + [s[i]];
  }

  lemma Within(s: seq<Item>, m: Manifests, current: int, cut: nat)
    requires EvictionOrder(s, m) && cut <= |s| && (cut == |s| || Fits(s[cut..], current))
    ensures Fits(s[cut..], current)
    ensures Bytes(m - Ids(s[..cut])) <= MAX_ARCHIVE_BYTES
    ensures forall id :: id in m - Ids(s[..cut]) ==> !TooOld(m[id], current)
  {
    var rest := m - Ids(s[..cut]);
    ListingSuffix(s, m, cut);
    ListingSum(s[cut..], rest);
    forall id | id in rest ensures !TooOld(m[id], current) {
      assert id in Ids(s[cut..]);
    }
  }
}
