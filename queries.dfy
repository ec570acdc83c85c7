/** The read side of `RemoteDataService`: each query reads an index set,
    turns its members into entity keys, fetches those in one MGET and
    deserialises every value. Here as functions of the store content, with
    the answers they give on a freshly populated store. */
module Queries {
  import opened Wrappers
  import opened Text
  import opened Seqs
  import opened Entities
  import opened Serialization
  import opened KeyScheme
  import opened CacheWrapper
  import opened StoreWrites
  import opened Populate
  import opened Decoding

  /** `Select(s => string.Format(segmentCacheKeyTemplate, s))`. */
  function SegmentKeys(ids: seq<Guid>): (keys: seq<string>)
    ensures |keys| == |ids|
    ensures forall k :: 0 <= k < |ids| ==> keys[k] == KeyString(SegmentRecord(ids[k]))
  {
    seq(|ids|, k requires 0 <= k < |ids| => KeyString(SegmentRecord(ids[k])))
  }

  /** `Select(ii => string.Format(inspectionCacheKeyTemplate, ii))`. */
  function InspectionKeys(ids: seq<Guid>): (keys: seq<string>)
    ensures |keys| == |ids|
    ensures forall k :: 0 <= k < |ids| ==> keys[k] == KeyString(InspectionRecord(ids[k]))
  {
    seq(|ids|, k requires 0 <= k < |ids| => KeyString(InspectionRecord(ids[k])))
  }

  /** MGET keys against the string content of the store. */
  function Lookup(strings: map<string, string>, keys: seq<string>): (values: seq<Option<string>>)
    ensures |values| == |keys|
    ensures forall k :: 0 <= k < |keys| ==> values[k] == Get(strings, keys[k])
  {
    seq(|keys|, k requires 0 <= k < |keys| => Get(strings, keys[k]))
  }

  /** `DeserializeObject<Segment>(StringGet(segment:{sid}))`. */
  function ReadSegment(strings: map<string, string>, sid: Guid): (r: Result<Segment, Fault>)
    ensures r.Success? <==>
      && Get(strings, KeyString(SegmentRecord(sid))).Some?
      && DecodeSegment(strings[KeyString(SegmentRecord(sid))]).Some?
  {
    match Get(strings, KeyString(SegmentRecord(sid)))
    case None => Failure(MissingValue)
    case Some(v) =>
      match DecodeSegment(v)
      case None => Failure(MalformedValue)
      case Some(s) => Success(s)
  }

  // -----------------------------------------------------------------------
  // The six read pipelines, over an enumeration of the index set

  /** GetSegmentsByTenant: ids of `tenant:{t}:segments`, as segment keys. */
  function ReadSegmentsByTenant(db: Db, ids: seq<string>): (r: Result<seq<Segment>, Fault>)
    ensures r.Success? <==> forall k :: 0 <= k < |ids| ==>
      var key := KeyString(SegmentRecord(ids[k])); key in db.strings && DecodeSegment(db.strings[key]).Some?
    ensures r.Success? ==> |r.value| == |ids| && forall k :: 0 <= k < |ids| ==>
      DecodeSegment(db.strings[KeyString(SegmentRecord(ids[k]))]) == Some(r.value[k])
  {
    DecodeEach(Lookup(db.strings, SegmentKeys(ids)), DecodeSegment)
  }

  /** GetSegmentUpdatesBySegment: the members of `segment:{s}:updates` are
      record keys already. */
  function ReadUpdatesBySegment(db: Db, keys: seq<string>): (r: Result<seq<SegmentUpdate>, Fault>)
    ensures r.Success? <==> forall k :: 0 <= k < |keys| ==> keys[k] in db.strings && DecodeUpdate(db.strings[keys[k]]).Some?
    ensures r.Success? ==> |r.value| == |keys| && forall k :: 0 <= k < |keys| ==>
      DecodeUpdate(db.strings[keys[k]]) == Some(r.value[k])
  {
    DecodeEach(Lookup(db.strings, keys), DecodeUpdate)
  }

  /** A condition holds of every value after `Distinct` exactly when it
      holds of every value before. */
  lemma DistinctAll<T>(values: seq<T>, p: T -> bool)
    ensures (forall k :: 0 <= k < |Distinct(values)| ==> p(Distinct(values)[k])) <==>
            (forall k :: 0 <= k < |values| ==> p(values[k]))
  {
    var unique := Distinct(values);
    if forall k :: 0 <= k < |unique| ==> p(unique[k]) {
      forall k | 0 <= k < |values|
        ensures p(values[k])
      {
        assert values[k] in unique;
        var j :| 0 <= j < |unique| && unique[j] == values[k];
        assert p(unique[j]);
      }
    } else {
      var k :| 0 <= k < |unique| && !p(unique[k]);
      assert unique[k] in values;
      var j :| 0 <= j < |values| && values[j] == unique[k];
      assert !p(values[j]);
    }
  }

  /** GetSegmentUpdatesByTenant: the one pipeline that drops repeated
      values (an update stored once per linked segment) before decoding. */
  function ReadUpdatesByTenant(db: Db, keys: seq<string>): (r: Result<seq<SegmentUpdate>, Fault>)
    ensures r.Success? <==> forall k :: 0 <= k < |keys| ==> keys[k] in db.strings && DecodeUpdate(db.strings[keys[k]]).Some?
    ensures r.Success? ==> |r.value| <= |keys|
  {
    var values := Lookup(db.strings, keys);
    DistinctAll(values, (v: Option<string>) => v.Some? && DecodeUpdate(v.value).Some?);
    DecodeEach(Distinct(values), DecodeUpdate)
  }

  /** GetInspectionsBySegment and GetInspectionsByTenant: inspection ids,
      as inspection keys. */
  function ReadInspections(db: Db, ids: seq<string>): (r: Result<seq<Inspection>, Fault>)
    ensures r.Success? <==> forall k :: 0 <= k < |ids| ==>
      var key := KeyString(InspectionRecord(ids[k])); key in db.strings && DecodeInspection(db.strings[key]).Some?
    ensures r.Success? ==> |r.value| == |ids| && forall k :: 0 <= k < |ids| ==>
      DecodeInspection(db.strings[KeyString(InspectionRecord(ids[k]))]) == Some(r.value[k])
  {
    DecodeEach(Lookup(db.strings, InspectionKeys(ids)), DecodeInspection)
  }

  // -----------------------------------------------------------------------
  // Answers on a store populated from empty

  /** The store after `UpdateCache` wrote `d` into an empty database. */
  function Populated(d: AllData): Db {
    Apply(EmptyDb, PopulateWrites(d))
  }

  predicate Clean(d: AllData) {
    WellFormedData(d) && UniqueIds(d)
  }

  /** A fetched segment reads back from its segment key. */
  lemma StoredSegment(d: AllData, s: Segment)
    requires Clean(d) && s in d.segments
    ensures Get(Populated(d).strings, KeyString(SegmentRecord(s.segmentId))).Some?
    ensures DecodeSegment(Get(Populated(d).strings, KeyString(SegmentRecord(s.segmentId))).value) == Some(s)
  {
    PopulatedSegment(EmptyDb, d, s);
    SegmentRoundTrip(s);
  }

  /** A member of `tenant:{t}:segments` is the id of a fetched segment of
      `t`, stored under its segment key. */
  lemma TenantSegmentMember(d: AllData, t: Guid, id: string) returns (s: Segment)
    requires Clean(d) && ColonFree(t)
    requires id in Members(Populated(d).sets, KeyString(TenantSegments(t)))
    ensures s in d.segments && s.tenantId == t && s.segmentId == id
  {
    TenantSegmentsIndex(EmptyDb, d, t, id);
    assert Members(EmptyDb.sets, KeyString(TenantSegments(t))) == {};
    s :| s in d.segments && s.tenantId == t && s.segmentId == id;
  }

  /** Values that decode, one per id, to segments satisfying `linked` with
      those ids, where no two such segments share an id and every such id is
      listed, decode to every such segment exactly once. */
  lemma LinkedSegmentsDecode(values: seq<Option<string>>, ids: seq<string>, linked: Segment -> bool)
    requires |values| == |ids| && NoDuplicates(ids)
    requires forall k :: 0 <= k < |ids| ==>
      && values[k].Some?
      && DecodeSegment(values[k].value).Some?
      && linked(DecodeSegment(values[k].value).value)
      && DecodeSegment(values[k].value).value.segmentId == ids[k]
    requires forall s :: linked(s) ==> s.segmentId in ids
    requires forall s, u :: linked(s) && linked(u) && s.segmentId == u.segmentId ==> s == u
    ensures var r := DecodeEach(values, DecodeSegment);
      && r.Success? && |r.value| == |ids| && NoDuplicates(r.value)
      && forall s :: s in r.value <==> linked(s)
  {
    var r := DecodeEach(values, DecodeSegment);
    assert forall k :: 0 <= k < |ids| ==> r.value[k].segmentId == ids[k] && linked(r.value[k]);
    forall s | linked(s)
      ensures s in r.value
    {
      var k :| 0 <= k < |ids| && ids[k] == s.segmentId;
      assert r.value[k] == s;
    }
  }

  /** GetSegmentsByTenant answers every fetched segment of the tenant, once
      each, whatever order the set reply has. */
  lemma SegmentsByTenantAnswer(d: AllData, t: Guid, ids: seq<string>)
    requires Clean(d) && ColonFree(t)
    requires IsEnumeration(ids, Members(Populated(d).sets, KeyString(TenantSegments(t))))
    ensures var r := ReadSegmentsByTenant(Populated(d), ids);
      && r.Success? && |r.value| == |ids| && NoDuplicates(r.value)
      && forall s :: s in r.value <==> s in d.segments && s.tenantId == t
  {
    var values := Lookup(Populated(d).strings, SegmentKeys(ids));
    forall k | 0 <= k < |ids|
      ensures && values[k].Some?
              && DecodeSegment(values[k].value).Some?
              && DecodeSegment(values[k].value).value in d.segments
              && DecodeSegment(values[k].value).value.tenantId == t
              && DecodeSegment(values[k].value).value.segmentId == ids[k]
    {
      var s := TenantSegmentMember(d, t, ids[k]);
      StoredSegment(d, s);
    }
    forall s | s in d.segments && s.tenantId == t
      ensures s.segmentId in ids
    {
      TenantSegmentsIndex(EmptyDb, d, t, s.segmentId);
    }
    LinkedSegmentsDecode(values, ids, s => s in d.segments && s.tenantId == t);
  }

  /** GetSegment answers the fetched segment with that id, of whichever
      tenant, and raises when there is none. */
  lemma SegmentAnswer(d: AllData, sid: Guid)
    requires Clean(d) && ColonFree(sid)
    ensures (exists s :: s in d.segments && s.segmentId == sid) ==>
      && ReadSegment(Populated(d).strings, sid).Success?
      && ReadSegment(Populated(d).strings, sid).value in d.segments
      && ReadSegment(Populated(d).strings, sid).value.segmentId == sid
    ensures (forall s :: s in d.segments ==> s.segmentId != sid) ==>
      ReadSegment(Populated(d).strings, sid) == Failure(MissingValue)
  {
    SegmentRecordWritten(d, sid);
    StringAfter(EmptyDb, PopulateWrites(d), KeyString(SegmentRecord(sid)));
    if s :| s in d.segments && s.segmentId == sid {
      PopulatedSegment(EmptyDb, d, s);
      SegmentRoundTrip(s);
    }
  }

  /** A member of `segment:{sid}:updates` is the record key of an update
      linked to a fetched segment with id `sid`, holding that update. */
  lemma SegmentUpdateMember(d: AllData, sid: Guid, key: string) returns (u: SegmentUpdate)
    requires Clean(d) && ColonFree(sid)
    requires key in Members(Populated(d).sets, KeyString(SegmentUpdates(sid)))
    ensures u in d.updates && sid in u.segmentIds && (exists s :: s in d.segments && s.segmentId == sid)
    ensures key == KeyString(UpdateRecord(sid, u.segmentUpdateId))
    ensures Get(Populated(d).strings, key).Some?
    ensures DecodeUpdate(Get(Populated(d).strings, key).value) == Some(u)
  {
    SegmentUpdatesIndex(EmptyDb, d, sid, key);
    assert Members(EmptyDb.sets, KeyString(SegmentUpdates(sid))) == {};
    var s, v :| && s in d.segments && v in d.updates && s.segmentId == sid && Linked(v.segmentIds, s)
                && key == KeyString(UpdateRecord(sid, v.segmentUpdateId));
    u := v;
    PopulatedUpdate(EmptyDb, d, s, u);
    UpdateRoundTrip(u);
  }

  /** Values that decode, one per key, to updates satisfying `linked` whose
      key is that key, where no two such updates share a key and every such
      key is listed, decode to every such update exactly once. */
  lemma LinkedUpdatesDecode(values: seq<Option<string>>, keys: seq<string>,
                            keyOf: SegmentUpdate -> string, linked: SegmentUpdate -> bool)
    requires |values| == |keys| && NoDuplicates(keys)
    requires forall k :: 0 <= k < |keys| ==>
      && values[k].Some?
      && DecodeUpdate(values[k].value).Some?
      && linked(DecodeUpdate(values[k].value).value)
      && keyOf(DecodeUpdate(values[k].value).value) == keys[k]
    requires forall u :: linked(u) ==> keyOf(u) in keys
    requires forall u, v :: linked(u) && linked(v) && keyOf(u) == keyOf(v) ==> u == v
    ensures var r := DecodeEach(values, DecodeUpdate);
      && r.Success? && |r.value| == |keys| && NoDuplicates(r.value)
      && forall u :: u in r.value <==> linked(u)
  {
    var r := DecodeEach(values, DecodeUpdate);
    assert forall k :: 0 <= k < |keys| ==> keyOf(r.value[k]) == keys[k] && linked(r.value[k]);
    forall u | linked(u)
      ensures u in r.value
    {
      var k :| 0 <= k < |keys| && keys[k] == keyOf(u);
      assert r.value[k] == u;
    }
  }

  /** An update linked to a fetched segment with id `sid`. */
  predicate SegmentLinked(d: AllData, sid: Guid, u: SegmentUpdate) {
    u in d.updates && sid in u.segmentIds && exists s :: s in d.segments && s.segmentId == sid
  }

  /** GetSegmentUpdatesBySegment answers every update linked to the
      segment, once each, provided the segment was fetched. */
  lemma UpdatesBySegmentAnswer(d: AllData, sid: Guid, keys: seq<string>)
    requires Clean(d) && ColonFree(sid)
    requires IsEnumeration(keys, Members(Populated(d).sets, KeyString(SegmentUpdates(sid))))
    ensures var r := ReadUpdatesBySegment(Populated(d), keys);
      && r.Success? && |r.value| == |keys| && NoDuplicates(r.value)
      && forall u :: u in r.value <==>
           (u in d.updates && sid in u.segmentIds && exists s :: s in d.segments && s.segmentId == sid)
  {
    var values := Lookup(Populated(d).strings, keys);
    var keyOf := (u: SegmentUpdate) => KeyString(UpdateRecord(sid, u.segmentUpdateId));
    forall k | 0 <= k < |keys|
      ensures && values[k].Some?
              && DecodeUpdate(values[k].value).Some?
              && SegmentLinked(d, sid, DecodeUpdate(values[k].value).value)
              && keyOf(DecodeUpdate(values[k].value).value) == keys[k]
    {
      var u := SegmentUpdateMember(d, sid, keys[k]);
    }
    forall u | SegmentLinked(d, sid, u)
      ensures keyOf(u) in keys
    {
      var s :| s in d.segments && s.segmentId == sid;
      SegmentUpdatesIndex(EmptyDb, d, sid, keyOf(u));
    }
    forall u, v | SegmentLinked(d, sid, u) && SegmentLinked(d, sid, v) && keyOf(u) == keyOf(v)
      ensures u == v
    {
      KeyStringInjective(UpdateRecord(sid, u.segmentUpdateId), UpdateRecord(sid, v.segmentUpdateId));
    }
    LinkedUpdatesDecode(values, keys, keyOf, u => SegmentLinked(d, sid, u));
  }

  /** An update linked to a fetched segment of tenant `t`. */
  predicate TenantLinked(d: AllData, t: Guid, u: SegmentUpdate) {
    u in d.updates && exists s :: s in d.segments && s.tenantId == t && Linked(u.segmentIds, s)
  }

  /** A linked update reads back from its segment-scoped record key. */
  lemma StoredUpdate(d: AllData, s: Segment, u: SegmentUpdate)
    requires Clean(d) && s in d.segments && u in d.updates && Linked(u.segmentIds, s)
    ensures Get(Populated(d).strings, KeyString(UpdateRecord(s.segmentId, u.segmentUpdateId)))
      == Some(EncodeUpdate(u))
  {
    PopulatedUpdate(EmptyDb, d, s, u);
  }

  /** A member of `tenant:{t}:updates` is the record key of an update linked
      to a fetched segment of `t`, and holds that update. */
  lemma TenantUpdateMember(d: AllData, t: Guid, key: string) returns (u: SegmentUpdate)
    requires Clean(d) && ColonFree(t)
    requires key in Members(Populated(d).sets, KeyString(TenantUpdates(t)))
    ensures TenantLinked(d, t, u)
    ensures Get(Populated(d).strings, key) == Some(EncodeUpdate(u))
  {
    TenantUpdatesIndex(EmptyDb, d, t, key);
    assert Members(EmptyDb.sets, KeyString(TenantUpdates(t))) == {};
    var s, v :| && s in d.segments && v in d.updates && s.tenantId == t && Linked(v.segmentIds, s)
                && key == KeyString(UpdateRecord(s.segmentId, v.segmentUpdateId));
    u := v;
    StoredUpdate(d, s, u);
  }

  /** Every value read for `tenant:{t}:updates` is a serialised update
      linked to a segment of `t`... */
  lemma TenantUpdateValues(d: AllData, t: Guid, keys: seq<string>)
    requires Clean(d) && ColonFree(t)
    requires IsEnumeration(keys, Members(Populated(d).sets, KeyString(TenantUpdates(t))))
    ensures forall x :: x in Lookup(Populated(d).strings, keys) ==>
      exists u :: TenantLinked(d, t, u) && x == Some(EncodeUpdate(u))
  {
    var values := Lookup(Populated(d).strings, keys);
    forall x | x in values
      ensures exists u :: TenantLinked(d, t, u) && x == Some(EncodeUpdate(u))
    {
      var k :| 0 <= k < |values| && values[k] == x;
      var u := TenantUpdateMember(d, t, keys[k]);
    }
  }

  /** ... and every such update is among them. */
  lemma TenantUpdateListed(d: AllData, t: Guid, keys: seq<string>, u: SegmentUpdate)
    requires Clean(d) && ColonFree(t) && TenantLinked(d, t, u)
    requires IsEnumeration(keys, Members(Populated(d).sets, KeyString(TenantUpdates(t))))
    ensures Some(EncodeUpdate(u)) in Lookup(Populated(d).strings, keys)
  {
    var s :| s in d.segments && s.tenantId == t && Linked(u.segmentIds, s);
    var key := KeyString(UpdateRecord(s.segmentId, u.segmentUpdateId));
    TenantUpdatesIndex(EmptyDb, d, t, key);
    StoredUpdate(d, s, u);
    var k :| 0 <= k < |keys| && keys[k] == key;
    assert Lookup(Populated(d).strings, keys)[k] == Some(EncodeUpdate(u));
  }

  /** Values that are each the encoding of an update satisfying `linked`
      decode, after `Distinct`, to such updates, one per value. */
  lemma DistinctUpdatesDecodeEach(values: seq<Option<string>>, linked: SegmentUpdate -> bool)
    requires forall x :: x in values ==> exists u :: linked(u) && x == Some(EncodeUpdate(u))
    ensures var unique, r := Distinct(values), DecodeEach(Distinct(values), DecodeUpdate);
      && r.Success?
      && forall k :: 0 <= k < |unique| ==> unique[k] == Some(EncodeUpdate(r.value[k])) && linked(r.value[k])
  {
    var unique := Distinct(values);
    forall k | 0 <= k < |unique|
      ensures && unique[k].Some?
              && DecodeUpdate(unique[k].value).Some?
              && linked(DecodeUpdate(unique[k].value).value)
              && unique[k] == Some(EncodeUpdate(DecodeUpdate(unique[k].value).value))
    {
      assert unique[k] in values;
      var u :| linked(u) && unique[k] == Some(EncodeUpdate(u));
      UpdateRoundTrip(u);
    }
  }

  /** Values that are each the encoding of an update satisfying `linked`,
      and that include the encoding of every such update, decode after
      `Distinct` to every such update exactly once. */
  lemma DistinctUpdatesDecode(values: seq<Option<string>>, linked: SegmentUpdate -> bool)
    requires forall x :: x in values ==> exists u :: linked(u) && x == Some(EncodeUpdate(u))
    requires forall u :: linked(u) ==> Some(EncodeUpdate(u)) in values
    ensures var r := DecodeEach(Distinct(values), DecodeUpdate);
      && r.Success? && NoDuplicates(r.value)
      && forall u :: u in r.value <==> linked(u)
  {
    var unique := Distinct(values);
    DistinctUpdatesDecodeEach(values, linked);
    var r := DecodeEach(unique, DecodeUpdate);
    forall u | linked(u)
      ensures u in r.value
    {
      assert Some(EncodeUpdate(u)) in unique;
      var m :| 0 <= m < |unique| && unique[m] == Some(EncodeUpdate(u));
      UpdateEncodingInjective(u, r.value[m]);
    }
  }

  /** GetSegmentUpdatesByTenant answers every update linked to a fetched
      segment of the tenant exactly once, although such an update is
      indexed once per linked segment: `Distinct` drops the repeats. */
  lemma UpdatesByTenantAnswer(d: AllData, t: Guid, keys: seq<string>)
    requires Clean(d) && ColonFree(t)
    requires IsEnumeration(keys, Members(Populated(d).sets, KeyString(TenantUpdates(t))))
    ensures var r := ReadUpdatesByTenant(Populated(d), keys);
      && r.Success? && NoDuplicates(r.value)
      && forall u :: u in r.value <==> TenantLinked(d, t, u)
  {
    var values := Lookup(Populated(d).strings, keys);
    TenantUpdateValues(d, t, keys);
    forall u | TenantLinked(d, t, u)
      ensures Some(EncodeUpdate(u)) in values
    {
      TenantUpdateListed(d, t, keys, u);
    }
    DistinctUpdatesDecode(values, u => TenantLinked(d, t, u));
  }

  /** A linked inspection reads back from its key. */
  lemma StoredInspection(d: AllData, s: Segment, i: Inspection)
    requires Clean(d) && s in d.segments && i in d.inspections && Linked(i.segmentIds, s)
    ensures Get(Populated(d).strings, KeyString(InspectionRecord(i.inspectionId))).Some?
    ensures DecodeInspection(Get(Populated(d).strings, KeyString(InspectionRecord(i.inspectionId))).value)
      == Some(i)
  {
    PopulatedInspection(EmptyDb, d, s, i);
    InspectionRoundTrip(i);
  }

  /** An inspection linked to a fetched segment with id `sid`. */
  predicate SegmentLinkedInspection(d: AllData, sid: Guid, i: Inspection) {
    i in d.inspections && exists s :: s in d.segments && s.segmentId == sid && Linked(i.segmentIds, s)
  }

  /** An inspection linked to a fetched segment of tenant `t`. */
  predicate TenantLinkedInspection(d: AllData, t: Guid, i: Inspection) {
    i in d.inspections && exists s :: s in d.segments && s.tenantId == t && Linked(i.segmentIds, s)
  }

  lemma SegmentInspectionMember(d: AllData, sid: Guid, id: string) returns (s: Segment, i: Inspection)
    requires Clean(d) && ColonFree(sid)
    requires id in Members(Populated(d).sets, KeyString(SegmentInspections(sid)))
    ensures s in d.segments && s.segmentId == sid && i in d.inspections && Linked(i.segmentIds, s)
    ensures i.inspectionId == id
  {
    SegmentInspectionsIndex(EmptyDb, d, sid, id);
    assert Members(EmptyDb.sets, KeyString(SegmentInspections(sid))) == {};
    s, i :| && s in d.segments && i in d.inspections && s.segmentId == sid && Linked(i.segmentIds, s)
            && id == i.inspectionId;
  }

  lemma TenantInspectionMember(d: AllData, t: Guid, id: string) returns (s: Segment, i: Inspection)
    requires Clean(d) && ColonFree(t)
    requires id in Members(Populated(d).sets, KeyString(TenantInspections(t)))
    ensures s in d.segments && s.tenantId == t && i in d.inspections && Linked(i.segmentIds, s)
    ensures i.inspectionId == id
  {
    TenantInspectionsIndex(EmptyDb, d, t, id);
    assert Members(EmptyDb.sets, KeyString(TenantInspections(t))) == {};
    s, i :| && s in d.segments && i in d.inspections && s.tenantId == t && Linked(i.segmentIds, s)
            && id == i.inspectionId;
  }

  /** Values that decode, one per id, to inspections satisfying `linked`
      with those ids, where `linked` holds of one inspection per id and every
      such id is listed once, decode to every such inspection exactly once. */
  lemma LinkedInspectionsDecode(values: seq<Option<string>>, ids: seq<string>, linked: Inspection -> bool)
    requires |values| == |ids| && NoDuplicates(ids)
    requires forall k :: 0 <= k < |ids| ==>
      && values[k].Some?
      && DecodeInspection(values[k].value).Some?
      && linked(DecodeInspection(values[k].value).value)
      && DecodeInspection(values[k].value).value.inspectionId == ids[k]
    requires forall i :: linked(i) ==> i.inspectionId in ids
    requires forall i, j :: linked(i) && linked(j) && i.inspectionId == j.inspectionId ==> i == j
    ensures var r := DecodeEach(values, DecodeInspection);
      && r.Success? && |r.value| == |ids| && NoDuplicates(r.value)
      && forall i :: i in r.value <==> linked(i)
  {
    var r := DecodeEach(values, DecodeInspection);
    assert forall k :: 0 <= k < |ids| ==> r.value[k].inspectionId == ids[k] && linked(r.value[k]);
    forall i | linked(i)
      ensures i in r.value
    {
      var k :| 0 <= k < |ids| && ids[k] == i.inspectionId;
      assert r.value[k] == i;
    }
  }

  /** GetInspectionsBySegment answers every inspection linked to the
      segment, once each. */
  lemma InspectionsBySegmentAnswer(d: AllData, sid: Guid, ids: seq<string>)
    requires Clean(d) && ColonFree(sid)
    requires IsEnumeration(ids, Members(Populated(d).sets, KeyString(SegmentInspections(sid))))
    ensures var r := ReadInspections(Populated(d), ids);
      && r.Success? && |r.value| == |ids| && NoDuplicates(r.value)
      && forall i :: i in r.value <==> SegmentLinkedInspection(d, sid, i)
  {
    var values := Lookup(Populated(d).strings, InspectionKeys(ids));
    forall k | 0 <= k < |ids|
      ensures && values[k].Some?
              && DecodeInspection(values[k].value).Some?
              && SegmentLinkedInspection(d, sid, DecodeInspection(values[k].value).value)
              && DecodeInspection(values[k].value).value.inspectionId == ids[k]
    {
      var s, i := SegmentInspectionMember(d, sid, ids[k]);
      StoredInspection(d, s, i);
    }
    forall i | SegmentLinkedInspection(d, sid, i)
      ensures i.inspectionId in ids
    {
      SegmentInspectionsIndex(EmptyDb, d, sid, i.inspectionId);
    }
    LinkedInspectionsDecode(values, ids, i => SegmentLinkedInspection(d, sid, i));
  }

  /** GetInspectionsByTenant answers every inspection linked to a fetched
      segment of the tenant, once each. */
  lemma InspectionsByTenantAnswer(d: AllData, t: Guid, ids: seq<string>)
    requires Clean(d) && ColonFree(t)
    requires IsEnumeration(ids, Members(Populated(d).sets, KeyString(TenantInspections(t))))
    ensures var r := ReadInspections(Populated(d), ids);
      && r.Success? && |r.value| == |ids| && NoDuplicates(r.value)
      && forall i :: i in r.value <==> TenantLinkedInspection(d, t, i)
  {
    var values := Lookup(Populated(d).strings, InspectionKeys(ids));
    forall k | 0 <= k < |ids|
      ensures && values[k].Some?
              && DecodeInspection(values[k].value).Some?
              && TenantLinkedInspection(d, t, DecodeInspection(values[k].value).value)
              && DecodeInspection(values[k].value).value.inspectionId == ids[k]
    {
      var s, i := TenantInspectionMember(d, t, ids[k]);
      StoredInspection(d, s, i);
    }
    forall i | TenantLinkedInspection(d, t, i)
      ensures i.inspectionId in ids
    {
      var s :| s in d.segments && s.tenantId == t && Linked(i.segmentIds, s);
      TenantInspectionsIndex(EmptyDb, d, t, i.inspectionId);
    }
    LinkedInspectionsDecode(values, ids, i => TenantLinkedInspection(d, t, i));
  }
}
