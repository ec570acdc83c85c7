/** `RemoteDataService`: a cache-aside service that, the first time a tenant
    is asked about, fetches the whole dataset from the upstream API and
    indexes it into the store, then answers every query from the store. */
module RemoteData {
  import opened Wrappers
  import opened Text
  import opened Seqs
  import opened Entities
  import opened Serialization
  import opened KeyScheme
  import opened CacheWrapper
  import opened StoreWrites
  import opened Populate
  import opened Queries
  import opened Decoding

  /** The upstream `api/data` endpoint as `HttpClientWrapper` sees it: it
      yields the dataset, or nothing when the response is not a success or
      the request raised (the wrapper then returns a null object). */
  class DataApi {
    const response: Option<AllData>
    var requests: nat

    constructor (response: Option<AllData>)
      ensures this.response == response && requests == 0
    {
      this.response := response;
      requests := 0;
    }

    method GetAllData() returns (r: Option<AllData>)
      modifies this
      ensures r == response && requests == old(requests) + 1
    {
      r := response;
      requests := requests + 1;
    }
  }

  /** The tenant counts as cached when `tenant:{t}` is neither nil nor
      empty. */
  predicate Warm(db: Db, t: Guid) {
    !IsNullOrEmpty(Get(db.strings, KeyString(Tenant(t))))
  }

  /** The store after `CheckCache(t)`: untouched when the tenant is cached
      or the fetch yields nothing, repopulated otherwise. */
  function Refreshed(db: Db, t: Guid, response: Option<AllData>): Db {
    if Warm(db, t) || response.None? then db else Apply(db, PopulateWrites(response.value))
  }

  /** `CheckCache(t)` raises: the tenant is not cached and the fetch yields
      nothing (`data.Segments` on a null `data`). */
  predicate RefreshFails(db: Db, t: Guid, response: Option<AllData>) {
    !Warm(db, t) && response.None?
  }

  /** How many upstream requests `CheckCache(t)` makes. */
  function Fetches(db: Db, t: Guid): nat {
    if Warm(db, t) then 0 else 1
  }

  class RemoteDataService {
    const cache: DistributedCacheWrapper
    const api: DataApi

    constructor (cache: DistributedCacheWrapper, api: DataApi)
      ensures this.cache == cache && this.api == api
    {
      this.cache := cache;
      this.api := api;
    }

    /** The head of a segment's iteration. */
    method WriteHead(s: Segment)
      modifies cache
      ensures cache.State() == Apply(old(cache.State()), HeadWrites(s))
    {
      ghost var db := cache.State();
      ghost var ws := HeadWrites(s);
      cache.StringSet(KeyString(Tenant(s.tenantId)), s.tenantId);
      ApplyPrefix(db, ws, 0);
      cache.StringSet(KeyString(SegmentRecord(s.segmentId)), EncodeSegment(s));
      ApplyPrefix(db, ws, 1);
      cache.SetAdd(KeyString(TenantSegments(s.tenantId)), [s.segmentId]);
      ApplyPrefix(db, ws, 2);
      assert ws[..3] == ws;
    }

    /** The body of the update loop for a linked update. */
    method WriteUpdate(s: Segment, u: SegmentUpdate)
      modifies cache
      ensures cache.State() == Apply(old(cache.State()), UpdateWrites(s, u))
    {
      ghost var db := cache.State();
      ghost var ws := UpdateWrites(s, u);
      var record := KeyString(UpdateRecord(s.segmentId, u.segmentUpdateId));
      cache.StringSet(record, EncodeUpdate(u));
      ApplyPrefix(db, ws, 0);
      cache.SetAdd(KeyString(UpdateSegments(u.segmentUpdateId)), u.segmentIds);
      ApplyPrefix(db, ws, 1);
      cache.SetAdd(KeyString(TenantUpdates(s.tenantId)), [record]);
      ApplyPrefix(db, ws, 2);
      cache.SetAdd(KeyString(SegmentUpdates(s.segmentId)), [record]);
      ApplyPrefix(db, ws, 3);
      cache.SetAdd(KeyString(UpdateInspections(u.segmentUpdateId)), [u.inspectionId]);
      ApplyPrefix(db, ws, 4);
      assert ws[..5] == ws;
    }

    /** The body of the inspection loop for a linked inspection. */
    method WriteInspection(s: Segment, i: Inspection)
      modifies cache
      ensures cache.State() == Apply(old(cache.State()), InspectionWrites(s, i))
    {
      ghost var db := cache.State();
      ghost var ws := InspectionWrites(s, i);
      cache.StringSet(KeyString(InspectionRecord(i.inspectionId)), EncodeInspection(i));
      ApplyPrefix(db, ws, 0);
      cache.SetAdd(KeyString(InspectionSegments(i.inspectionId)), i.segmentIds);
      ApplyPrefix(db, ws, 1);
      cache.SetAdd(KeyString(TenantInspections(s.tenantId)), [i.inspectionId]);
      ApplyPrefix(db, ws, 2);
      cache.SetAdd(KeyString(SegmentInspections(s.segmentId)), [i.inspectionId]);
      ApplyPrefix(db, ws, 3);
      assert ws[..4] == ws;
    }

    /** The loop over the updates linked to `s`. */
    method WriteLinkedUpdates(s: Segment, updates: seq<SegmentUpdate>)
      modifies cache
      ensures cache.State() == Apply(old(cache.State()), UpdatesWrites(s, updates))
    {
      ghost var db := cache.State();
      for j := 0 to |updates|
        invariant cache.State() == Apply(db, UpdatesWrites(s, updates[..j]))
      {
        var u := updates[j];
        UpdatesWritesStep(s, updates, j);
        if s.segmentId in u.segmentIds {
          WriteUpdate(s, u);
          ApplyAppend(db, UpdatesWrites(s, updates[..j]), UpdateWrites(s, u));
        } else {
          assert UpdatesWrites(s, updates[..j]) + [] == UpdatesWrites(s, updates[..j]);
        }
      }
      assert updates[..|updates|] == updates;
    }

    /** The loop over the inspections linked to `s`. */
    method WriteLinkedInspections(s: Segment, inspections: seq<Inspection>)
      modifies cache
      ensures cache.State() == Apply(old(cache.State()), InspectionsWrites(s, inspections))
    {
      ghost var db := cache.State();
      for j := 0 to |inspections|
        invariant cache.State() == Apply(db, InspectionsWrites(s, inspections[..j]))
      {
        var i := inspections[j];
        InspectionsWritesStep(s, inspections, j);
        if s.segmentId in i.segmentIds {
          WriteInspection(s, i);
          ApplyAppend(db, InspectionsWrites(s, inspections[..j]), InspectionWrites(s, i));
        } else {
          assert InspectionsWrites(s, inspections[..j]) + [] == InspectionsWrites(s, inspections[..j]);
        }
      }
      assert inspections[..|inspections|] == inspections;
    }

    /** One iteration of the segment loop. */
    method WriteSegment(s: Segment, d: AllData)
      modifies cache
      ensures cache.State() == Apply(old(cache.State()), SegmentWrites(s, d))
    {
      ghost var db := cache.State();
      WriteHead(s);
      WriteLinkedUpdates(s, d.updates);
      ApplyAppend(db, HeadWrites(s), UpdatesWrites(s, d.updates));
      WriteLinkedInspections(s, d.inspections);
      ApplyAppend(db, HeadWrites(s) + UpdatesWrites(s, d.updates), InspectionsWrites(s, d.inspections));
    }

    /** Fetches the dataset once and writes it, segment by segment, into
        the store; with no dataset it raises before writing anything. */
    method UpdateCache() returns (outcome: Outcome<Fault>)
      modifies cache, api
      ensures api.requests == old(api.requests) + 1
      ensures api.response.None? ==>
        outcome == Fail(UpstreamUnavailable) && cache.State() == old(cache.State())
      ensures api.response.Some? ==>
        outcome == Pass && cache.State() == Apply(old(cache.State()), PopulateWrites(api.response.value))
    {
      var fetched := api.GetAllData();
      if fetched.None? {
        return Fail(UpstreamUnavailable);
      }
      var d := fetched.value;
      ghost var db := cache.State();
      for k := 0 to |d.segments|
        invariant cache.State() == Apply(db, SegmentsWrites(d.segments[..k], d))
        modifies cache
      {
        WriteSegment(d.segments[k], d);
        ApplyAppend(db, SegmentsWrites(d.segments[..k], d), SegmentWrites(d.segments[k], d));
        SegmentsWritesPrefix(d.segments, d, k);
      }
      assert d.segments[..|d.segments|] == d.segments;
      outcome := Pass;
    }

    /** Repopulates the store unless the tenant is already cached. */
    method CheckCache(tenantId: Guid) returns (outcome: Outcome<Fault>)
      modifies cache, api
      ensures cache.State() == Refreshed(old(cache.State()), tenantId, api.response)
      ensures api.requests == old(api.requests) + Fetches(old(cache.State()), tenantId)
      ensures outcome.Fail? <==> RefreshFails(old(cache.State()), tenantId, api.response)
      ensures outcome.Fail? ==> outcome.error == UpstreamUnavailable
    {
      var tenant := cache.StringGet(KeyString(Tenant(tenantId)));
      if IsNullOrEmpty(tenant) {
        outcome := UpdateCache();
      } else {
        outcome := Pass;
      }
    }

    method GetSegmentsByTenant(tenantId: Guid) returns (r: Result<seq<Segment>, Fault>)
      modifies cache, api
      ensures cache.State() == Refreshed(old(cache.State()), tenantId, api.response)
      ensures api.requests == old(api.requests) + Fetches(old(cache.State()), tenantId)
      ensures RefreshFails(old(cache.State()), tenantId, api.response) ==> r == Failure(UpstreamUnavailable)
      ensures !RefreshFails(old(cache.State()), tenantId, api.response) ==>
        exists ids :: && IsEnumeration(ids, Members(cache.State().sets, KeyString(TenantSegments(tenantId))))
                      && r == ReadSegmentsByTenant(cache.State(), ids)
    {
      var checked := CheckCache(tenantId);
      if checked.Fail? {
        return Failure(checked.error);
      }
      var ids := cache.SetGet(KeyString(TenantSegments(tenantId)));
      var values := cache.StringGetMany(SegmentKeys(ids));
      assert values == Lookup(cache.strings, SegmentKeys(ids));
      r := DecodeEach(values, DecodeSegment);
    }

    /** Reads `segment:{segmentId}` without checking that the segment
        belongs to the tenant. */
    method GetSegment(tenantId: Guid, segmentId: Guid) returns (r: Result<Segment, Fault>)
      modifies cache, api
      ensures cache.State() == Refreshed(old(cache.State()), tenantId, api.response)
      ensures api.requests == old(api.requests) + Fetches(old(cache.State()), tenantId)
      ensures RefreshFails(old(cache.State()), tenantId, api.response) ==> r == Failure(UpstreamUnavailable)
      ensures !RefreshFails(old(cache.State()), tenantId, api.response) ==>
        r == ReadSegment(cache.State().strings, segmentId)
    {
      var checked := CheckCache(tenantId);
      if checked.Fail? {
        return Failure(checked.error);
      }
      var value := cache.StringGet(KeyString(SegmentRecord(segmentId)));
      if value.None? {
        return Failure(MissingValue);
      }
      var decoded := DecodeSegment(value.value);
      if decoded.None? {
        return Failure(MalformedValue);
      }
      r := Success(decoded.value);
    }

    method GetSegmentUpdatesBySegment(tenantId: Guid, segmentId: Guid)
      returns (r: Result<seq<SegmentUpdate>, Fault>)
      modifies cache, api
      ensures cache.State() == Refreshed(old(cache.State()), tenantId, api.response)
      ensures api.requests == old(api.requests) + Fetches(old(cache.State()), tenantId)
      ensures RefreshFails(old(cache.State()), tenantId, api.response) ==> r == Failure(UpstreamUnavailable)
      ensures !RefreshFails(old(cache.State()), tenantId, api.response) ==>
        exists keys :: && IsEnumeration(keys, Members(cache.State().sets, KeyString(SegmentUpdates(segmentId))))
                       && r == ReadUpdatesBySegment(cache.State(), keys)
    {
      var checked := CheckCache(tenantId);
      if checked.Fail? {
        return Failure(checked.error);
      }
      var keys := cache.SetGet(KeyString(SegmentUpdates(segmentId)));
      var values := cache.StringGetMany(keys);
      assert values == Lookup(cache.strings, keys);
      r := DecodeEach(values, DecodeUpdate);
    }

    method GetSegmentUpdatesByTenant(tenantId: Guid) returns (r: Result<seq<SegmentUpdate>, Fault>)
      modifies cache, api
      ensures cache.State() == Refreshed(old(cache.State()), tenantId, api.response)
      ensures api.requests == old(api.requests) + Fetches(old(cache.State()), tenantId)
      ensures RefreshFails(old(cache.State()), tenantId, api.response) ==> r == Failure(UpstreamUnavailable)
      ensures !RefreshFails(old(cache.State()), tenantId, api.response) ==>
        exists keys :: && IsEnumeration(keys, Members(cache.State().sets, KeyString(TenantUpdates(tenantId))))
                       && r == ReadUpdatesByTenant(cache.State(), keys)
    {
      var checked := CheckCache(tenantId);
      if checked.Fail? {
        return Failure(checked.error);
      }
      var keys := cache.SetGet(KeyString(TenantUpdates(tenantId)));
      var values := cache.StringGetMany(keys);
      assert values == Lookup(cache.strings, keys);
      r := DecodeEach(Distinct(values), DecodeUpdate);
    }

    method GetInspectionsBySegment(tenantId: Guid, segmentId: Guid)
      returns (r: Result<seq<Inspection>, Fault>)
      modifies cache, api
      ensures cache.State() == Refreshed(old(cache.State()), tenantId, api.response)
      ensures api.requests == old(api.requests) + Fetches(old(cache.State()), tenantId)
      ensures RefreshFails(old(cache.State()), tenantId, api.response) ==> r == Failure(UpstreamUnavailable)
      ensures !RefreshFails(old(cache.State()), tenantId, api.response) ==>
        exists ids :: && IsEnumeration(ids, Members(cache.State().sets, KeyString(SegmentInspections(segmentId))))
                      && r == ReadInspections(cache.State(), ids)
    {
      var checked := CheckCache(tenantId);
      if checked.Fail? {
        return Failure(checked.error);
      }
      var ids := cache.SetGet(KeyString(SegmentInspections(segmentId)));
      var values := cache.StringGetMany(InspectionKeys(ids));
      assert values == Lookup(cache.strings, InspectionKeys(ids));
      r := DecodeEach(values, DecodeInspection);
    }

    method GetInspectionsByTenant(tenantId: Guid) returns (r: Result<seq<Inspection>, Fault>)
      modifies cache, api
      ensures cache.State() == Refreshed(old(cache.State()), tenantId, api.response)
      ensures api.requests == old(api.requests) + Fetches(old(cache.State()), tenantId)
      ensures RefreshFails(old(cache.State()), tenantId, api.response) ==> r == Failure(UpstreamUnavailable)
      ensures !RefreshFails(old(cache.State()), tenantId, api.response) ==>
        exists ids :: && IsEnumeration(ids, Members(cache.State().sets, KeyString(TenantInspections(tenantId))))
                      && r == ReadInspections(cache.State(), ids)
    {
      var checked := CheckCache(tenantId);
      if checked.Fail? {
        return Failure(checked.error);
      }
      var ids := cache.SetGet(KeyString(TenantInspections(tenantId)));
      var values := cache.StringGetMany(InspectionKeys(ids));
      assert values == Lookup(cache.strings, InspectionKeys(ids));
      r := DecodeEach(values, DecodeInspection);
    }
  }

  // -------------------------------------------------------------------------
  // The cache-aside rule

  /** Once a tenant's segment has been written, the tenant counts as cached,
      so its later queries fetch nothing. */
  lemma PopulatedTenantIsWarm(db: Db, d: AllData, s: Segment)
    requires Clean(d) && s in d.segments && s.tenantId != ""
    ensures Warm(Apply(db, PopulateWrites(d)), s.tenantId)
    ensures Fetches(Apply(db, PopulateWrites(d)), s.tenantId) == 0
  {
    PopulatedSegment(db, d, s);
  }

  /** A refresh followed by another refresh, for the same tenant or for a
      tenant the data does not mention, leaves the store as the first one
      left it: repopulating with the same data changes nothing. */
  lemma RefreshIdempotent(db: Db, t1: Guid, t2: Guid, response: Option<AllData>)
    requires !Warm(db, t1)
    ensures Refreshed(Refreshed(db, t1, response), t2, response) == Refreshed(db, t1, response)
  {
    if response.Some? {
      ApplyTwice(db, PopulateWrites(response.value));
    }
  }

  /** A refresh cut short after its first write leaves the first tenant
      marked as cached without its segment; from then on `CheckCache` never
      refetches for that tenant and `GetSegment` raises. */
  lemma InterruptedRefreshIsNeverRepaired(d: AllData, response: Option<AllData>)
    requires WellFormedData(d) && |d.segments| > 0 && d.segments[0].tenantId != ""
    ensures var s := d.segments[0];
      var interrupted := Apply(EmptyDb, PopulateWrites(d)[..1]);
      && Refreshed(interrupted, s.tenantId, response) == interrupted
      && Fetches(interrupted, s.tenantId) == 0
      && ReadSegment(interrupted.strings, s.segmentId) == Failure(MissingValue)
  {
    InterruptedAfterPresence(d);
  }

  /** On an empty store, the first query of a tenant populates it with the
      fetched data, whichever tenant it names. */
  lemma ColdStart(t: Guid, d: AllData)
    ensures Fetches(EmptyDb, t) == 1
    ensures Refreshed(EmptyDb, t, Some(d)) == Populated(d)
  {
  }
}
