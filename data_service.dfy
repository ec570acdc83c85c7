/** The weather API's `DataService`: a generator of ten segments and ten
    segment updates whose ids come from a `Random(0)` stream, cached in an
    `IDistributedCache` under `segment:{id}` and `update:{id}`. A cache hit
    re-derives the ids by replaying the same stream. */
module WeatherData {
  import opened Wrappers
  import opened Text
  import opened Seqs
  import opened Entities
  import opened Serialization
  import opened Decoding
  import opened CacheWrapper
  import opened DistributedCaches

  /** How many segments, and how many updates, one generation produces. */
  const Count: nat := 10

  /** `segment:{0}`. */
  function SegmentKey(id: Guid): string {
    "segment:" + id
  }

  /** `update:{0}`. */
  function UpdateKey(id: Guid): string {
    "update:" + id
  }

  /** Equal keys of one kind come from equal ids, and a segment key is
      never an update key. */
  lemma DataKeysInjective(a: Guid, b: Guid)
    ensures SegmentKey(a) == SegmentKey(b) <==> a == b
    ensures UpdateKey(a) == UpdateKey(b) <==> a == b
    ensures SegmentKey(a) != UpdateKey(b)
  {
    if SegmentKey(a) == SegmentKey(b) {
      assert a == SegmentKey(a)[8..] == SegmentKey(b)[8..] == b;
    }
    if UpdateKey(a) == UpdateKey(b) {
      assert a == UpdateKey(a)[7..] == UpdateKey(b)[7..] == b;
    }
    assert SegmentKey(a)[0] == 's' && UpdateKey(b)[0] == 'u';
  }

  /** A `System.Random`, seen only through the Guids `GetGuid` builds from
      its bytes: `stream(n)` is the Guid of the n-th draw of the seed, and
      `drawn` counts the draws made so far. */
  class Random {
    const stream: nat -> Guid
    var drawn: nat

    /** `new Random(0)`, with `stream` the Guids that seed yields. */
    constructor (stream: nat -> Guid)
      ensures this.stream == stream && drawn == 0
    {
      this.stream := stream;
      drawn := 0;
    }
  }

  /** `GetGuid(r)`: sixteen bytes from `r` make the next Guid. */
  method GetGuid(r: Random) returns (g: Guid)
    modifies r
    ensures g == r.stream(old(r.drawn))
    ensures r.drawn == old(r.drawn) + 1
  {
    g := r.stream(r.drawn);
    r.drawn := r.drawn + 1;
  }

  /** Segment `i` of a generation that starts at draw `p`: its id is draw
      `p + i`, its tenant draw `p + 20 + i`, and it links exactly update `i`. */
  function GenSegment(stream: nat -> Guid, p: nat, i: nat): Segment {
    Segment(stream(p + i), stream(p + 2 * Count + i), "segment#" + NatToString(i),
            [stream(p + Count + i)])
  }

  /** Update `i` of a generation that starts at draw `p`: its id is draw
      `p + 10 + i` and it links exactly segment `i`; nobody assigns its
      inspection id. */
  function GenUpdate(stream: nat -> Guid, p: nat, i: nat): SegmentUpdate {
    SegmentUpdate(stream(p + Count + i), "segmentUpdate#" + NatToString(i),
                  [stream(p + i)], EmptyGuid)
  }

  function GenSegments(stream: nat -> Guid, p: nat): (segs: seq<Segment>)
    ensures |segs| == Count
    ensures forall i :: 0 <= i < Count ==> segs[i] == GenSegment(stream, p, i)
  {
    seq(Count, i requires 0 <= i => GenSegment(stream, p, i))
  }

  function GenUpdates(stream: nat -> Guid, p: nat): (ups: seq<SegmentUpdate>)
    ensures |ups| == Count
    ensures forall i :: 0 <= i < Count ==> ups[i] == GenUpdate(stream, p, i)
  {
    seq(Count, i requires 0 <= i => GenUpdate(stream, p, i))
  }

  /** The ten segments as the first `Select` builds them, before linking. */
  function Unlinked(stream: nat -> Guid, p: nat, i: nat): Segment {
    Segment(stream(p + i), EmptyGuid, "segment#" + NatToString(i), [])
  }

  /** One round of the linking loop of `GenData`: ten appends of each
      side's id to the other's list, a tenant draw, then `Distinct` on both
      lists, which leaves each list holding the other side's id once. */
  method Link(r: Random, segment: Segment, update: SegmentUpdate)
    returns (linked: Segment, linkedUpdate: SegmentUpdate)
    requires segment.segmentUpdateIds == [] && update.segmentIds == []
    modifies r
    ensures linked == segment.(tenantId := r.stream(old(r.drawn)), segmentUpdateIds := [update.segmentUpdateId])
    ensures linkedUpdate == update.(segmentIds := [segment.segmentId])
    ensures r.drawn == old(r.drawn) + 1
  {
    linked, linkedUpdate := segment, update;
    for j := 0 to Count
      invariant linked == segment.(segmentUpdateIds := Repeat(update.segmentUpdateId, j))
      invariant linkedUpdate == update.(segmentIds := Repeat(segment.segmentId, j))
    {
      linked := linked.(segmentUpdateIds := linked.segmentUpdateIds + [linkedUpdate.segmentUpdateId]);
      linkedUpdate := linkedUpdate.(segmentIds := linkedUpdate.segmentIds + [linked.segmentId]);
    }
    var tenant := GetGuid(r);
    linked := linked.(tenantId := tenant);
    DistinctOfRepeat(update.segmentUpdateId, Count);
    DistinctOfRepeat(segment.segmentId, Count);
    linked := linked.(segmentUpdateIds := Distinct(linked.segmentUpdateIds));
    linkedUpdate := linkedUpdate.(segmentIds := Distinct(linkedUpdate.segmentIds));
  }

  /** The first `Select(...).ToList()` of `GenData`: a segment per draw,
      named by its index, with no tenant and no links yet. */
  method NewSegments(r: Random) returns (segments: seq<Segment>)
    modifies r
    ensures |segments| == Count
    ensures forall k :: 0 <= k < Count ==> segments[k] == Unlinked(r.stream, old(r.drawn), k)
    ensures r.drawn == old(r.drawn) + Count
  {
    segments := [];
    for idx := 0 to Count
      invariant r.drawn == old(r.drawn) + idx
      invariant |segments| == idx
      invariant forall k :: 0 <= k < idx ==> segments[k] == Unlinked(r.stream, old(r.drawn), k)
    {
      var id := GetGuid(r);
      segments := segments + [Segment(id, EmptyGuid, "segment#" + NatToString(idx), [])];
    }
  }

  /** The second `Select(...).ToList()` of `GenData`: an update per draw,
      named by its index, with no links yet. */
  method NewUpdates(r: Random) returns (updates: seq<SegmentUpdate>)
    modifies r
    ensures |updates| == Count
    ensures forall k :: 0 <= k < Count ==>
      updates[k] == UnlinkedUpdate(r.stream, old(r.drawn), k)
    ensures r.drawn == old(r.drawn) + Count
  {
    updates := [];
    for idx := 0 to Count
      invariant r.drawn == old(r.drawn) + idx
      invariant |updates| == idx
      invariant forall k :: 0 <= k < idx ==>
        updates[k] == UnlinkedUpdate(r.stream, old(r.drawn), k)
    {
      var id := GetGuid(r);
      updates := updates + [SegmentUpdate(id, "segmentUpdate#" + NatToString(idx), [], EmptyGuid)];
    }
  }

  /** Update `i` as the second `Select` builds it, its id drawn at `q + i`. */
  function UnlinkedUpdate(stream: nat -> Guid, q: nat, i: nat): SegmentUpdate {
    SegmentUpdate(stream(q + i), "segmentUpdate#" + NatToString(i), [], EmptyGuid)
  }

  /** Round `i` of the linking loop of `GenData`, in place: segment `i` and
      update `i` become their generated, linked selves. */
  method LinkAt(r: Random, segments: seq<Segment>, updates: seq<SegmentUpdate>, ghost p: nat, i: nat)
    returns (linked: seq<Segment>, linkedUpdates: seq<SegmentUpdate>)
    requires i < |segments| && i < |updates|
    requires r.drawn == p + 2 * Count + i
    requires segments[i] == Unlinked(r.stream, p, i)
    requires updates[i] == UnlinkedUpdate(r.stream, p + Count, i)
    modifies r
    ensures r.drawn == old(r.drawn) + 1
    ensures linked == segments[i := GenSegment(r.stream, p, i)]
    ensures linkedUpdates == updates[i := GenUpdate(r.stream, p, i)]
  {
    var segment, update := Link(r, segments[i], updates[i]);
    linked, linkedUpdates := segments[i := segment], updates[i := update];
  }

  /** `GenData(r)`: ten segments from the next ten draws, ten updates from
      the ten after, then for each index ten appends of each side's id to
      the other's list, a tenant draw, and `Distinct` on both lists. */
  method GenData(r: Random) returns (segments: seq<Segment>, updates: seq<SegmentUpdate>)
    modifies r
    ensures segments == GenSegments(r.stream, old(r.drawn))
    ensures updates == GenUpdates(r.stream, old(r.drawn))
    ensures r.drawn == old(r.drawn) + 3 * Count
  {
    ghost var p := r.drawn;
    segments := NewSegments(r);
    updates := NewUpdates(r);
    for i := 0 to Count
      invariant r.drawn == p + 2 * Count + i
      invariant |segments| == |updates| == Count
      invariant forall k :: 0 <= k < i ==> segments[k] == GenSegment(r.stream, p, k)
      invariant forall k :: i <= k < Count ==> segments[k] == Unlinked(r.stream, p, k)
      invariant forall k :: 0 <= k < i ==> updates[k] == GenUpdate(r.stream, p, k)
      invariant forall k :: i <= k < Count ==>
        updates[k] == UnlinkedUpdate(r.stream, p + Count, k)
    {
      segments, updates := LinkAt(r, segments, updates, p, i);
    }
    assert forall k :: 0 <= k < Count ==> segments[k] == GenSegments(r.stream, p)[k];
    assert forall k :: 0 <= k < Count ==> updates[k] == GenUpdates(r.stream, p)[k];
  }

  /** `from su in updates where su.SegmentIds.Contains(segmentId) select su`. */
  function UpdatesOf(updates: seq<SegmentUpdate>, segmentId: Guid): (r: seq<SegmentUpdate>)
    ensures forall u :: u in r <==> u in updates && segmentId in u.segmentIds
    ensures |r| <= |updates|
    decreases |updates|
  {
    if updates == [] then []
    else
      var last := updates[|updates| - 1];
      var rest := UpdatesOf(updates[..|updates| - 1], segmentId);
      if segmentId in last.segmentIds then rest + [last] else rest
  }

  /** The filter keeps the original order: filtering a concatenation is
      concatenating the filtered parts. */
  lemma {:induction false} UpdatesOfAppend(a: seq<SegmentUpdate>, b: seq<SegmentUpdate>, segmentId: Guid)
    ensures UpdatesOf(a + b, segmentId) == UpdatesOf(a, segmentId) + UpdatesOf(b, segmentId)
    decreases |b|
  {
    if b != [] {
      var b' := b[..|b| - 1];
      assert (a + b)[..|a + b| - 1] == a + b';
      UpdatesOfAppend(a, b', segmentId);
    } else {
      assert a + b == a;
    }
  }

  /** Filtering one more update keeps it exactly when it lists the segment. */
  lemma UpdatesOfSnoc(updates: seq<SegmentUpdate>, u: SegmentUpdate, segmentId: Guid)
    ensures UpdatesOf(updates + [u], segmentId)
            == UpdatesOf(updates, segmentId) + if segmentId in u.segmentIds then [u] else []
  {
    assert (updates + [u])[..|updates|] == updates;
  }

  /** The key an entity of each kind is cached under. */
  function SegmentEntryKey(s: Segment): string {
    SegmentKey(s.segmentId)
  }

  function UpdateEntryKey(u: SegmentUpdate): string {
    UpdateKey(u.segmentUpdateId)
  }

  /** A `foreach` of `SetString(key(x), serialise(x))` over `items`. */
  function StoreAll<T>(entries: map<string, string>, items: seq<T>, keyOf: T -> string, encode: T -> string)
    : map<string, string>
    decreases |items|
  {
    if items == [] then entries
    else
      var last := items[|items| - 1];
      StoreAll(entries, items[..|items| - 1], keyOf, encode)[keyOf(last) := encode(last)]
  }

  /** A key no item maps to keeps its value. */
  lemma {:induction false} StoreAllKeeps<T>(entries: map<string, string>, items: seq<T>, keyOf: T -> string,
                                            encode: T -> string, key: string)
    requires forall x | x in items :: key != keyOf(x)
    ensures Get(StoreAll(entries, items, keyOf, encode), key) == Get(entries, key)
    decreases |items|
  {
    if items != [] {
      StoreAllKeeps(entries, items[..|items| - 1], keyOf, encode, key);
    }
  }

  /** The last item written under a key is the one stored there. */
  lemma {:induction false} StoreAllStores<T>(entries: map<string, string>, items: seq<T>, keyOf: T -> string,
                                             encode: T -> string, k: nat)
    requires k < |items|
    requires forall j :: k < j < |items| ==> keyOf(items[j]) != keyOf(items[k])
    ensures Get(StoreAll(entries, items, keyOf, encode), keyOf(items[k])) == Some(encode(items[k]))
    decreases |items|
  {
    if k < |items| - 1 {
      var front := items[..|items| - 1];
      assert front[k] == items[k];
      StoreAllStores(entries, front, keyOf, encode, k);
    }
  }

  /** The values a cache hit reads for ten consecutive draws from `q`. */
  function ValuesAt(entries: map<string, string>, stream: nat -> Guid, q: nat, keyOf: Guid -> string)
    : (values: seq<Option<string>>)
    ensures |values| == Count
    ensures forall i :: 0 <= i < Count ==> values[i] == Get(entries, keyOf(stream(q + i)))
  {
    seq(Count, i requires 0 <= i => Get(entries, keyOf(stream(q + i))))
  }

  /** What the cache-hit branch of `FetchData` returns when the instance's
      stream is at draw `p`: the segments cached under the next ten draws,
      then the updates cached under the ten after; a missing or malformed
      value raises. */
  function ReadBack(entries: map<string, string>, stream: nat -> Guid, p: nat)
    : Result<(seq<Segment>, seq<SegmentUpdate>), Fault>
  {
    match DecodeEach(ValuesAt(entries, stream, p, SegmentKey), DecodeSegment)
    case Failure(e) => Failure(e)
    case Success(segments) =>
      match DecodeEach(ValuesAt(entries, stream, p + Count, UpdateKey), DecodeUpdate)
      case Failure(e) => Failure(e)
      case Success(updates) => Success((segments, updates))
  }

  /** The store after the cache-miss branch of `FetchData` wrote the data it
      generated from draw `p` on: every segment, then every update. */
  function Stored(entries: map<string, string>, stream: nat -> Guid, p: nat): map<string, string> {
    StoreAll(StoreAll(entries, GenSegments(stream, p), SegmentEntryKey, EncodeSegment),
             GenUpdates(stream, p), UpdateEntryKey, EncodeUpdate)
  }

  /** `IsDataCached`: whether the first draw of a fresh seed-0 stream names a
      cached segment. */
  predicate DataCached(entries: map<string, string>, seedZero: nat -> Guid) {
    SegmentKey(seedZero(0)) in entries
  }

  /** What `FetchData` returns. */
  function FetchResult(entries: map<string, string>, seedZero: nat -> Guid, stream: nat -> Guid, p: nat)
    : Result<(seq<Segment>, seq<SegmentUpdate>), Fault>
  {
    if DataCached(entries, seedZero) then ReadBack(entries, stream, p)
    else Success((GenSegments(stream, p), GenUpdates(stream, p)))
  }

  /** The store `FetchData` leaves behind. */
  function FetchStore(entries: map<string, string>, seedZero: nat -> Guid, stream: nat -> Guid, p: nat)
    : map<string, string>
  {
    if DataCached(entries, seedZero) then entries else Stored(entries, stream, p)
  }

  /** `IsDataCached(distributedCache)`: a fresh `Random(0)` gives one Guid,
      and the data counts as cached when `segment:{that Guid}` is not null. */
  method IsDataCached(cache: DistributedCache, seedZero: nat -> Guid) returns (cached: bool)
    ensures cached <==> SegmentKey(seedZero(0)) in cache.entries
  {
    var r := new Random(seedZero);
    var id := GetGuid(r);
    var value := cache.GetString(SegmentKey(id));
    cached := value.Some?;
  }

  /** The service, as one (transient) instance sees it: the cache, and its
      own `Random(0)` whose draws it consumes. */
  class DataService {
    const cache: DistributedCache
    /** The Guids a `Random(0)` yields, the same for every instance. */
    const seedZero: nat -> Guid
    const rnd: Random

    constructor (cache: DistributedCache, seedZero: nat -> Guid)
      ensures this.cache == cache && this.seedZero == seedZero
      ensures fresh(rnd) && rnd.stream == seedZero && rnd.drawn == 0
    {
      this.cache := cache;
      this.seedZero := seedZero;
      rnd := new Random(seedZero);
    }

    /** One `Select(...).ToList()` of the hit branch of `FetchData`: ten
        times a draw, then a read of the key it names, then a decode; a nil
        or malformed value raises. */
    method ReadEach<T>(keyOf: Guid -> string, decode: string -> Option<T>) returns (r: Result<seq<T>, Fault>)
      modifies rnd
      ensures r == DecodeEach(ValuesAt(cache.entries, rnd.stream, old(rnd.drawn), keyOf), decode)
      ensures r.Success? ==> rnd.drawn == old(rnd.drawn) + Count
      ensures old(rnd.drawn) < rnd.drawn <= old(rnd.drawn) + Count
    {
      ghost var values := ValuesAt(cache.entries, rnd.stream, rnd.drawn, keyOf);
      var items := [];
      for idx := 0 to Count
        invariant rnd.drawn == old(rnd.drawn) + idx
        invariant DecodeEach(values[..idx], decode) == Success(items)
      {
        var id := GetGuid(rnd);
        var value := cache.GetString(keyOf(id));
        if value.None? || decode(value.value).None? {
          DecodeEachStops(values, decode, idx, items);
          r := Failure(if value.None? then MissingValue else MalformedValue);
          return;
        }
        DecodeEachExtends(values, decode, idx, items);
        items := items + [decode(value.value).value];
      }
      assert values[..Count] == values;
      r := Success(items);
    }

    /** The hit branch of `FetchData`: the ten segments, then the ten updates. */
    method ReadCached() returns (r: Result<(seq<Segment>, seq<SegmentUpdate>), Fault>)
      modifies rnd
      ensures r == ReadBack(cache.entries, rnd.stream, old(rnd.drawn))
      ensures r.Success? ==> rnd.drawn == old(rnd.drawn) + 2 * Count
      ensures old(rnd.drawn) < rnd.drawn <= old(rnd.drawn) + 2 * Count
    {
      ghost var p := rnd.drawn;
      var segments := ReadEach(SegmentKey, DecodeSegment);
      assert segments == DecodeEach(ValuesAt(cache.entries, rnd.stream, p, SegmentKey), DecodeSegment);
      if segments.Failure? {
        r := Failure(segments.error);
        return;
      }
      assert rnd.drawn == p + Count;
      var updates := ReadEach(UpdateKey, DecodeUpdate);
      assert updates == DecodeEach(ValuesAt(cache.entries, rnd.stream, p + Count, UpdateKey), DecodeUpdate);
      if updates.Failure? {
        r := Failure(updates.error);
        return;
      }
      r := Success((segments.value, updates.value));
    }

    /** One `foreach` of the miss branch of `FetchData`: every item is
        cached, in order, under its key. */
    method WriteEach<T>(items: seq<T>, keyOf: T -> string, encode: T -> string)
      modifies cache
      ensures cache.entries == StoreAll(old(cache.entries), items, keyOf, encode)
    {
      for k := 0 to |items|
        invariant cache.entries == StoreAll(old(cache.entries), items[..k], keyOf, encode)
      {
        assert items[..k + 1][..k] == items[..k];
        cache.SetString(keyOf(items[k]), encode(items[k]));
      }
      assert items[..|items|] == items;
    }

    /** The miss branch of `FetchData`: generate, then cache every segment
        and then every update under its own key. */
    method GenerateAndStore() returns (segments: seq<Segment>, updates: seq<SegmentUpdate>)
      modifies rnd, cache
      ensures segments == GenSegments(rnd.stream, old(rnd.drawn))
      ensures updates == GenUpdates(rnd.stream, old(rnd.drawn))
      ensures rnd.drawn == old(rnd.drawn) + 3 * Count
      ensures cache.entries == Stored(old(cache.entries), rnd.stream, old(rnd.drawn))
    {
      segments, updates := GenData(rnd);
      WriteEach(segments, SegmentEntryKey, EncodeSegment);
      WriteEach(updates, UpdateEntryKey, EncodeUpdate);
    }

    /** `FetchData()`: cache-aside over the generated data. */
    method FetchData() returns (r: Result<(seq<Segment>, seq<SegmentUpdate>), Fault>)
      modifies rnd, cache
      ensures r == FetchResult(old(cache.entries), seedZero, rnd.stream, old(rnd.drawn))
      ensures cache.entries == FetchStore(old(cache.entries), seedZero, rnd.stream, old(rnd.drawn))
      ensures old(DataCached(cache.entries, seedZero)) ==> cache.entries == old(cache.entries)
      ensures !old(DataCached(cache.entries, seedZero)) ==> r.Success? && rnd.drawn == old(rnd.drawn) + 3 * Count
      ensures r.Success? && old(DataCached(cache.entries, seedZero)) ==> rnd.drawn == old(rnd.drawn) + 2 * Count
    {
      var cached := IsDataCached(cache, seedZero);
      if cached {
        r := ReadCached();
      } else {
        var segments, updates := GenerateAndStore();
        r := Success((segments, updates));
      }
    }

    /** `GetSegments()`: the segments `FetchData` returns. */
    method GetSegments() returns (r: Result<seq<Segment>, Fault>)
      modifies rnd, cache
      ensures var f := FetchResult(old(cache.entries), seedZero, rnd.stream, old(rnd.drawn));
              r == if f.Success? then Success(f.value.0) else Failure(f.error)
      ensures cache.entries == FetchStore(old(cache.entries), seedZero, rnd.stream, old(rnd.drawn))
    {
      var data := FetchData();
      r := if data.Success? then Success(data.value.0) else Failure(data.error);
    }

    /** `GetSegmentUpdate(segmentId)`: the fetched updates that list
        `segmentId`, in their fetched order. */
    method GetSegmentUpdate(segmentId: Guid) returns (r: Result<seq<SegmentUpdate>, Fault>)
      modifies rnd, cache
      ensures var f := FetchResult(old(cache.entries), seedZero, rnd.stream, old(rnd.drawn));
              r == if f.Success? then Success(UpdatesOf(f.value.1, segmentId)) else Failure(f.error)
      ensures cache.entries == FetchStore(old(cache.entries), seedZero, rnd.stream, old(rnd.drawn))
    {
      var data := FetchData();
      r := if data.Success? then Success(UpdatesOf(data.value.1, segmentId)) else Failure(data.error);
    }
  }

  /** The ten Guids drawn from `q` on. */
  function Draws(stream: nat -> Guid, q: nat): (ids: seq<Guid>)
    ensures |ids| == Count && forall i :: 0 <= i < Count ==> ids[i] == stream(q + i)
  {
    seq(Count, i requires 0 <= i => stream(q + i))
  }

  /** The draws that become segment ids differ from each other, and so do
      the draws that become update ids (random Guids, which nothing checks). */
  predicate DistinctDraws(stream: nat -> Guid, p: nat) {
    NoDuplicates(Draws(stream, p)) && NoDuplicates(Draws(stream, p + Count))
  }

  /** Distinct draws: two of the ten are equal only at the same index. */
  lemma DrawsDiffer(stream: nat -> Guid, q: nat, i: nat, j: nat)
    requires NoDuplicates(Draws(stream, q)) && i < Count && j < Count
    ensures stream(q + i) == stream(q + j) <==> i == j
  {
    assert Draws(stream, q)[i] == stream(q + i) && Draws(stream, q)[j] == stream(q + j);
  }

  /** The generated link is symmetric and one-to-one: segment `i` lists
      update `j` exactly when `i == j`, exactly when update `j` lists
      segment `i`. */
  lemma GeneratedLinks(stream: nat -> Guid, p: nat, i: nat, j: nat)
    requires DistinctDraws(stream, p) && i < Count && j < Count
    ensures var s, u := GenSegments(stream, p)[i], GenUpdates(stream, p)[j];
            && (u.segmentUpdateId in s.segmentUpdateIds <==> i == j)
            && (s.segmentId in u.segmentIds <==> i == j)
  {
    assert Draws(stream, p)[i] == stream(p + i) && Draws(stream, p)[j] == stream(p + j);
    assert Draws(stream, p + Count)[i] == stream(p + Count + i);
    assert Draws(stream, p + Count)[j] == stream(p + Count + j);
  }

  /** `GetSegmentUpdate` on generated data: the updates of segment `i` are
      update `i` alone. */
  lemma {:induction false} GeneratedUpdatesOfSegment(stream: nat -> Guid, p: nat, i: nat)
    requires DistinctDraws(stream, p) && i < Count
    ensures UpdatesOf(GenUpdates(stream, p), stream(p + i)) == [GenUpdate(stream, p, i)]
  {
    var ups, id := GenUpdates(stream, p), stream(p + i);
    for n := 0 to Count
      invariant UpdatesOf(ups[..n], id) == if i < n then [GenUpdate(stream, p, i)] else []
    {
      UpdatesOfNext(stream, p, i, n);
    }
    assert ups[..Count] == ups;
  }

  /** One more generated update adds update `i` to segment `i`'s updates
      exactly when it is update `i`. */
  lemma UpdatesOfNext(stream: nat -> Guid, p: nat, i: nat, n: nat)
    requires DistinctDraws(stream, p) && i < Count && n < Count
    ensures var ups := GenUpdates(stream, p);
            UpdatesOf(ups[..n + 1], stream(p + i))
            == UpdatesOf(ups[..n], stream(p + i)) + if i == n then [GenUpdate(stream, p, i)] else []
  {
    var ups := GenUpdates(stream, p);
    assert ups[..n + 1] == ups[..n] + [ups[n]];
    UpdatesOfSnoc(ups[..n], ups[n], stream(p + i));
    assert ups[n].segmentIds == [stream(p + n)];
    DrawsDiffer(stream, p, i, n);
  }

  /** Segment `i` of a generation from draw `p` is cached under its key
      once the miss branch has written. */
  lemma StoredSegmentAt(entries: map<string, string>, stream: nat -> Guid, p: nat, i: nat)
    requires DistinctDraws(stream, p) && i < Count
    ensures Get(Stored(entries, stream, p), SegmentKey(stream(p + i))) == Some(EncodeSegment(GenSegment(stream, p, i)))
  {
    var segs, ups := GenSegments(stream, p), GenUpdates(stream, p);
    forall j | i < j < Count
      ensures SegmentEntryKey(segs[j]) != SegmentEntryKey(segs[i])
    {
      assert Draws(stream, p)[i] == stream(p + i) && Draws(stream, p)[j] == stream(p + j);
      DataKeysInjective(stream(p + j), stream(p + i));
    }
    StoreAllStores(entries, segs, SegmentEntryKey, EncodeSegment, i);
    forall u | u in ups
      ensures SegmentKey(stream(p + i)) != UpdateEntryKey(u)
    {
      DataKeysInjective(stream(p + i), u.segmentUpdateId);
    }
    StoreAllKeeps(StoreAll(entries, segs, SegmentEntryKey, EncodeSegment), ups, UpdateEntryKey, EncodeUpdate,
                  SegmentKey(stream(p + i)));
  }

  /** Update `i` of a generation from draw `p` is cached under its key once
      the miss branch has written. */
  lemma StoredUpdateAt(entries: map<string, string>, stream: nat -> Guid, p: nat, i: nat)
    requires DistinctDraws(stream, p) && i < Count
    ensures Get(Stored(entries, stream, p), UpdateKey(stream(p + Count + i))) == Some(EncodeUpdate(GenUpdate(stream, p, i)))
  {
    var ups := GenUpdates(stream, p);
    forall j | i < j < Count
      ensures UpdateEntryKey(ups[j]) != UpdateEntryKey(ups[i])
    {
      assert Draws(stream, p + Count)[i] == stream(p + Count + i) && Draws(stream, p + Count)[j] == stream(p + Count + j);
      DataKeysInjective(stream(p + Count + j), stream(p + Count + i));
    }
    StoreAllStores(StoreAll(entries, GenSegments(stream, p), SegmentEntryKey, EncodeSegment), ups,
                   UpdateEntryKey, EncodeUpdate, i);
  }

  /** Ten segments cached under ten draws read back as those segments. */
  lemma SegmentsReadBack(entries: map<string, string>, stream: nat -> Guid, q: nat, segs: seq<Segment>)
    requires |segs| == Count
    requires forall i :: 0 <= i < Count ==> Get(entries, SegmentKey(stream(q + i))) == Some(EncodeSegment(segs[i]))
    ensures DecodeEach(ValuesAt(entries, stream, q, SegmentKey), DecodeSegment) == Success(segs)
  {
    var values := ValuesAt(entries, stream, q, SegmentKey);
    forall i | 0 <= i < Count
      ensures values[i].Some? && DecodeSegment(values[i].value) == Some(segs[i])
    {
      SegmentRoundTrip(segs[i]);
    }
    DecodeEachAll(values, DecodeSegment, segs);
  }

  /** Ten updates cached under ten draws read back as those updates. */
  lemma UpdatesReadBack(entries: map<string, string>, stream: nat -> Guid, q: nat, ups: seq<SegmentUpdate>)
    requires |ups| == Count
    requires forall i :: 0 <= i < Count ==> Get(entries, UpdateKey(stream(q + i))) == Some(EncodeUpdate(ups[i]))
    ensures DecodeEach(ValuesAt(entries, stream, q, UpdateKey), DecodeUpdate) == Success(ups)
  {
    var values := ValuesAt(entries, stream, q, UpdateKey);
    forall i | 0 <= i < Count
      ensures values[i].Some? && DecodeUpdate(values[i].value) == Some(ups[i])
    {
      UpdateRoundTrip(ups[i]);
    }
    DecodeEachAll(values, DecodeUpdate, ups);
  }

  /** After the miss branch, the ten segment draws read back the segments. */
  lemma StoredSegmentsReadBack(entries: map<string, string>, stream: nat -> Guid, p: nat)
    requires DistinctDraws(stream, p)
    ensures DecodeEach(ValuesAt(Stored(entries, stream, p), stream, p, SegmentKey), DecodeSegment)
            == Success(GenSegments(stream, p))
  {
    var segs := GenSegments(stream, p);
    forall i | 0 <= i < Count
      ensures Get(Stored(entries, stream, p), SegmentKey(stream(p + i))) == Some(EncodeSegment(segs[i]))
    {
      StoredSegmentAt(entries, stream, p, i);
    }
    SegmentsReadBack(Stored(entries, stream, p), stream, p, segs);
  }

  /** After the miss branch, the ten update draws read back the updates. */
  lemma StoredUpdatesReadBack(entries: map<string, string>, stream: nat -> Guid, p: nat)
    requires DistinctDraws(stream, p)
    ensures DecodeEach(ValuesAt(Stored(entries, stream, p), stream, p + Count, UpdateKey), DecodeUpdate)
            == Success(GenUpdates(stream, p))
  {
    var ups, q := GenUpdates(stream, p), p + Count;
    forall i | 0 <= i < Count
      ensures Get(Stored(entries, stream, p), UpdateKey(stream(q + i))) == Some(EncodeUpdate(ups[i]))
    {
      StoredUpdateAt(entries, stream, p, i);
    }
    UpdatesReadBack(Stored(entries, stream, p), stream, q, ups);
  }

  /** After the miss branch, replaying the same draws reads back what was
      generated. */
  lemma StoredReadsBack(entries: map<string, string>, stream: nat -> Guid, p: nat)
    requires DistinctDraws(stream, p)
    ensures ReadBack(Stored(entries, stream, p), stream, p) == Success((GenSegments(stream, p), GenUpdates(stream, p)))
  {
    StoredSegmentsReadBack(entries, stream, p);
    StoredUpdatesReadBack(entries, stream, p);
  }

  /** The cache-aside round trip: after a fresh instance missed and wrote
      what it generated, the data counts as cached, and the next fresh
      instance replays the same draws and reads back exactly that data. */
  lemma MissThenHit(entries: map<string, string>, stream: nat -> Guid)
    requires DistinctDraws(stream, 0)
    ensures DataCached(Stored(entries, stream, 0), stream)
    ensures ReadBack(Stored(entries, stream, 0), stream, 0) == Success((GenSegments(stream, 0), GenUpdates(stream, 0)))
  {
    StoredSegmentAt(entries, stream, 0, 0);
    StoredReadsBack(entries, stream, 0);
  }
}
