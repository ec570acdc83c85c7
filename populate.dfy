/** What `UpdateCache` writes for a fetched dataset, in the order it writes
    it, and what the store holds afterwards: every entity under its key and
    every relation indexed in both directions. */
module Populate {
  import opened Wrappers
  import opened Text
  import opened Entities
  import opened Serialization
  import opened KeyScheme
  import opened CacheWrapper
  import opened StoreWrites

  /** The `Where(x => x.SegmentIds.Contains(segment.SegmentId))` filter. */
  predicate Linked(segmentIds: seq<Guid>, s: Segment) {
    s.segmentId in segmentIds
  }

  /** The first three writes of a segment's iteration: the tenant presence
      marker, the segment itself and the tenant-to-segment index. */
  function HeadWrites(s: Segment): seq<Write> {
    [ StringSet(Tenant(s.tenantId), s.tenantId),
      StringSet(SegmentRecord(s.segmentId), EncodeSegment(s)),
      SetAdd(TenantSegments(s.tenantId), [s.segmentId]) ]
  }

  /** The writes for one update linked to segment `s`. */
  function UpdateWrites(s: Segment, u: SegmentUpdate): seq<Write> {
    var record := KeyString(UpdateRecord(s.segmentId, u.segmentUpdateId));
    [ StringSet(UpdateRecord(s.segmentId, u.segmentUpdateId), EncodeUpdate(u)),
      SetAdd(UpdateSegments(u.segmentUpdateId), u.segmentIds),
      SetAdd(TenantUpdates(s.tenantId), [record]),
      SetAdd(SegmentUpdates(s.segmentId), [record]),
      SetAdd(UpdateInspections(u.segmentUpdateId), [u.inspectionId]) ]
  }

  /** The writes for one inspection linked to segment `s`. */
  function InspectionWrites(s: Segment, i: Inspection): seq<Write> {
    [ StringSet(InspectionRecord(i.inspectionId), EncodeInspection(i)),
      SetAdd(InspectionSegments(i.inspectionId), i.segmentIds),
      SetAdd(TenantInspections(s.tenantId), [i.inspectionId]),
      SetAdd(SegmentInspections(s.segmentId), [i.inspectionId]) ]
  }

  /** The inner loop over the updates, in order, skipping unlinked ones. */
  function UpdatesWrites(s: Segment, us: seq<SegmentUpdate>): seq<Write>
    decreases |us|
  {
    if us == [] then []
    else
      var u := us[|us| - 1];
      UpdatesWrites(s, us[..|us| - 1]) + (if Linked(u.segmentIds, s) then UpdateWrites(s, u) else [])
  }

  /** The inner loop over the inspections, in order, skipping unlinked ones. */
  function InspectionsWrites(s: Segment, ins: seq<Inspection>): seq<Write>
    decreases |ins|
  {
    if ins == [] then []
    else
      var i := ins[|ins| - 1];
      InspectionsWrites(s, ins[..|ins| - 1]) + (if Linked(i.segmentIds, s) then InspectionWrites(s, i) else [])
  }

  lemma UpdatesWritesStep(s: Segment, us: seq<SegmentUpdate>, j: nat)
    requires j < |us|
    ensures UpdatesWrites(s, us[..j + 1]) ==
      UpdatesWrites(s, us[..j]) + (if Linked(us[j].segmentIds, s) then UpdateWrites(s, us[j]) else [])
  {
    assert us[..j + 1][..j] == us[..j];
  }

  lemma InspectionsWritesStep(s: Segment, ins: seq<Inspection>, j: nat)
    requires j < |ins|
    ensures InspectionsWrites(s, ins[..j + 1]) ==
      InspectionsWrites(s, ins[..j]) + (if Linked(ins[j].segmentIds, s) then InspectionWrites(s, ins[j]) else [])
  {
    assert ins[..j + 1][..j] == ins[..j];
  }

  /** One iteration of the outer loop. */
  function SegmentWrites(s: Segment, d: AllData): seq<Write> {
    HeadWrites(s) + UpdatesWrites(s, d.updates) + InspectionsWrites(s, d.inspections)
  }

  /** The outer loop over the segments `ss`. */
  function SegmentsWrites(ss: seq<Segment>, d: AllData): seq<Write>
    decreases |ss|
  {
    if ss == [] then []
    else SegmentsWrites(ss[..|ss| - 1], d) + SegmentWrites(ss[|ss| - 1], d)
  }

  /** Every write `UpdateCache` issues for the dataset, in order. */
  function PopulateWrites(d: AllData): seq<Write> {
    SegmentsWrites(d.segments, d)
  }

  // -----------------------------------------------------------------------
  // Where each write comes from

  /** The part of a segment's iteration a write belongs to. */
  datatype Part = Head | OfUpdate(u: SegmentUpdate) | OfInspection(i: Inspection)

  predicate IssuedFor(d: AllData, s: Segment, p: Part, w: Write) {
    && s in d.segments
    && match p
       case Head => w in HeadWrites(s)
       case OfUpdate(u) => u in d.updates && Linked(u.segmentIds, s) && w in UpdateWrites(s, u)
       case OfInspection(i) => i in d.inspections && Linked(i.segmentIds, s) && w in InspectionWrites(s, i)
  }

  lemma {:induction false} UpdatesWritesOrigin(s: Segment, us: seq<SegmentUpdate>, w: Write)
    returns (u: SegmentUpdate)
    requires w in UpdatesWrites(s, us)
    ensures u in us && Linked(u.segmentIds, s) && w in UpdateWrites(s, u)
    decreases |us|
  {
    var last := us[|us| - 1];
    if w in UpdatesWrites(s, us[..|us| - 1]) {
      u := UpdatesWritesOrigin(s, us[..|us| - 1], w);
    } else {
      u := last;
    }
  }

  lemma {:induction false} UpdatesWritesInclude(s: Segment, us: seq<SegmentUpdate>, u: SegmentUpdate)
    requires u in us && Linked(u.segmentIds, s)
    ensures forall w :: w in UpdateWrites(s, u) ==> w in UpdatesWrites(s, us)
    decreases |us|
  {
    if u != us[|us| - 1] {
      UpdatesWritesInclude(s, us[..|us| - 1], u);
    }
  }

  lemma {:induction false} InspectionsWritesOrigin(s: Segment, ins: seq<Inspection>, w: Write)
    returns (i: Inspection)
    requires w in InspectionsWrites(s, ins)
    ensures i in ins && Linked(i.segmentIds, s) && w in InspectionWrites(s, i)
    decreases |ins|
  {
    var last := ins[|ins| - 1];
    if w in InspectionsWrites(s, ins[..|ins| - 1]) {
      i := InspectionsWritesOrigin(s, ins[..|ins| - 1], w);
    } else {
      i := last;
    }
  }

  lemma {:induction false} InspectionsWritesInclude(s: Segment, ins: seq<Inspection>, i: Inspection)
    requires i in ins && Linked(i.segmentIds, s)
    ensures forall w :: w in InspectionWrites(s, i) ==> w in InspectionsWrites(s, ins)
    decreases |ins|
  {
    if i != ins[|ins| - 1] {
      InspectionsWritesInclude(s, ins[..|ins| - 1], i);
    }
  }

  lemma {:induction false} SegmentsWritesOrigin(ss: seq<Segment>, d: AllData, w: Write)
    returns (s: Segment)
    requires w in SegmentsWrites(ss, d)
    ensures s in ss && w in SegmentWrites(s, d)
    decreases |ss|
  {
    if w in SegmentsWrites(ss[..|ss| - 1], d) {
      s := SegmentsWritesOrigin(ss[..|ss| - 1], d, w);
    } else {
      s := ss[|ss| - 1];
    }
  }

  lemma {:induction false} SegmentsWritesInclude(ss: seq<Segment>, d: AllData, s: Segment)
    requires s in ss
    ensures forall w :: w in SegmentWrites(s, d) ==> w in SegmentsWrites(ss, d)
    decreases |ss|
  {
    if s != ss[|ss| - 1] {
      SegmentsWritesInclude(ss[..|ss| - 1], d, s);
    }
  }

  /** Every write `UpdateCache` issues belongs to a fetched segment's
      iteration: its head, or a linked update or inspection. */
  lemma Origin(d: AllData, w: Write) returns (s: Segment, p: Part)
    requires w in PopulateWrites(d)
    ensures IssuedFor(d, s, p, w)
  {
    s := SegmentsWritesOrigin(d.segments, d, w);
    if w in HeadWrites(s) {
      p := Head;
    } else if w in UpdatesWrites(s, d.updates) {
      var u := UpdatesWritesOrigin(s, d.updates, w);
      p := OfUpdate(u);
    } else {
      var i := InspectionsWritesOrigin(s, d.inspections, w);
      p := OfInspection(i);
    }
  }

  /** ... and every such write is issued. */
  lemma Issued(d: AllData, s: Segment, p: Part, w: Write) returns (j: nat)
    requires IssuedFor(d, s, p, w)
    ensures j < |PopulateWrites(d)| && PopulateWrites(d)[j] == w
  {
    SegmentsWritesInclude(d.segments, d, s);
    match p {
      case Head =>
      case OfUpdate(u) => UpdatesWritesInclude(s, d.updates, u);
      case OfInspection(i) => InspectionsWritesInclude(s, d.inspections, i);
    }
    assert w in PopulateWrites(d);
    j :| 0 <= j < |PopulateWrites(d)| && PopulateWrites(d)[j] == w;
  }

  // -----------------------------------------------------------------------
  // Conditions on the fetched data

  /** Every id a key is built from is a Guid string, hence free of ':'. */
  predicate WellFormedData(d: AllData) {
    && (forall s | s in d.segments :: ColonFree(s.segmentId) && ColonFree(s.tenantId))
    && (forall u | u in d.updates :: ColonFree(u.segmentUpdateId))
    && (forall i | i in d.inspections :: ColonFree(i.inspectionId))
  }

  /** Ids identify entities: two entities of a kind with one id are one. */
  predicate UniqueIds(d: AllData) {
    && (forall a, b | a in d.segments && b in d.segments && a.segmentId == b.segmentId :: a == b)
    && (forall a, b | a in d.updates && b in d.updates && a.segmentUpdateId == b.segmentUpdateId :: a == b)
    && (forall a, b | a in d.inspections && b in d.inspections && a.inspectionId == b.inspectionId :: a == b)
  }

  lemma IssuedKeyWellFormed(d: AllData, s: Segment, p: Part, w: Write)
    requires WellFormedData(d) && IssuedFor(d, s, p, w)
    ensures w.key.WellFormed()
  {
  }

  /** A key `UpdateCache` writes names the one key it was built from. */
  lemma SameKey(d: AllData, w: Write, k: Key) returns (s: Segment, p: Part)
    requires WellFormedData(d) && w in PopulateWrites(d)
    requires k.WellFormed() && KeyString(w.key) == KeyString(k)
    ensures IssuedFor(d, s, p, w) && w.key == k
  {
    s, p := Origin(d, w);
    IssuedKeyWellFormed(d, s, p, w);
    KeyStringInjective(w.key, k);
  }

  /** The string writes: the tenant marker holds the tenant id, and each
      entity key holds the encoding of the entity it is built from. */
  lemma StringWriteShape(d: AllData, s: Segment, p: Part, w: Write)
    requires IssuedFor(d, s, p, w) && w.StringSet?
    ensures w.key.IsStringKey()
    ensures w.key.Tenant? ==> w.value == w.key.tenantId
    ensures w.key.SegmentRecord? ==> s.segmentId == w.key.segmentId && w.value == EncodeSegment(s)
    ensures w.key.UpdateRecord? ==>
      p.OfUpdate? && p.u.segmentUpdateId == w.key.updateId && w.value == EncodeUpdate(p.u)
    ensures w.key.InspectionRecord? ==>
      p.OfInspection? && p.i.inspectionId == w.key.inspectionId && w.value == EncodeInspection(p.i)
  {
  }

  /** All writes to one string key store the same value, so the order of
      the segments does not decide what an entity key holds. */
  lemma StringWritesAgree(d: AllData, j1: nat, j2: nat)
    requires WellFormedData(d) && UniqueIds(d)
    requires j1 < |PopulateWrites(d)| && j2 < |PopulateWrites(d)|
    requires PopulateWrites(d)[j1].StringSet? && PopulateWrites(d)[j2].StringSet?
    requires KeyString(PopulateWrites(d)[j1].key) == KeyString(PopulateWrites(d)[j2].key)
    ensures PopulateWrites(d)[j1].value == PopulateWrites(d)[j2].value
  {
    var w1, w2 := PopulateWrites(d)[j1], PopulateWrites(d)[j2];
    var s1, p1 := Origin(d, w1);
    IssuedKeyWellFormed(d, s1, p1, w1);
    var s2, p2 := SameKey(d, w2, w1.key);
    StringWriteShape(d, s1, p1, w1);
    StringWriteShape(d, s2, p2, w2);
  }

  /** The value a string key holds after `UpdateCache` is the value every
      write to it stores. */
  lemma StoredValue(db: Db, d: AllData, s: Segment, p: Part, w: Write)
    requires WellFormedData(d) && UniqueIds(d) && IssuedFor(d, s, p, w) && w.StringSet?
    ensures Get(Apply(db, PopulateWrites(d)).strings, KeyString(w.key)) == Some(w.value)
  {
    var ws := PopulateWrites(d);
    var j := Issued(d, s, p, w);
    forall i | 0 <= i < |ws| && ws[i].StringSet? && KeyString(ws[i].key) == KeyString(ws[j].key)
      ensures ws[i].value == ws[j].value
    {
      StringWritesAgree(d, i, j);
    }
    WrittenValue(ws, j);
    StringAfter(db, ws, KeyString(w.key));
  }

  /** A set-add `UpdateCache` issues leaves its members in the set. */
  lemma AddedAfter(db: Db, d: AllData, s: Segment, p: Part, w: Write, x: string)
    requires IssuedFor(d, s, p, w) && w.SetAdd? && x in w.members
    ensures x in Members(Apply(db, PopulateWrites(d)).sets, KeyString(w.key))
  {
    var j := Issued(d, s, p, w);
    MembersAfter(db, PopulateWrites(d), KeyString(w.key), x);
  }

  // -----------------------------------------------------------------------
  // What the store holds after UpdateCache

  /** Every fetched segment is stored under `segment:{id}`, its tenant is
      marked present under `tenant:{t}`, and its id is in
      `tenant:{t}:segments`. */
  lemma PopulatedSegment(db: Db, d: AllData, s: Segment)
    requires WellFormedData(d) && UniqueIds(d) && s in d.segments
    ensures var after := Apply(db, PopulateWrites(d));
      && Get(after.strings, KeyString(SegmentRecord(s.segmentId))) == Some(EncodeSegment(s))
      && Get(after.strings, KeyString(Tenant(s.tenantId))) == Some(s.tenantId)
      && s.segmentId in Members(after.sets, KeyString(TenantSegments(s.tenantId)))
  {
    var head := HeadWrites(s);
    StoredValue(db, d, s, Head, head[0]);
    StoredValue(db, d, s, Head, head[1]);
    AddedAfter(db, d, s, Head, head[2], s.segmentId);
  }

  /** An update linked to a fetched segment `s` is stored under
      `segment:{s}:update:{u}`; that key is indexed under the segment and
      under its tenant, and the update is indexed both ways with its
      segments and with its inspection. */
  lemma PopulatedUpdate(db: Db, d: AllData, s: Segment, u: SegmentUpdate)
    requires WellFormedData(d) && UniqueIds(d)
    requires s in d.segments && u in d.updates && Linked(u.segmentIds, s)
    ensures var after := Apply(db, PopulateWrites(d));
      var record := KeyString(UpdateRecord(s.segmentId, u.segmentUpdateId));
      && Get(after.strings, record) == Some(EncodeUpdate(u))
      && record in Members(after.sets, KeyString(SegmentUpdates(s.segmentId)))
      && record in Members(after.sets, KeyString(TenantUpdates(s.tenantId)))
      && SetOf(u.segmentIds) <= Members(after.sets, KeyString(UpdateSegments(u.segmentUpdateId)))
      && u.inspectionId in Members(after.sets, KeyString(UpdateInspections(u.segmentUpdateId)))
  {
    var ws := UpdateWrites(s, u);
    var p := OfUpdate(u);
    var record := KeyString(UpdateRecord(s.segmentId, u.segmentUpdateId));
    StoredValue(db, d, s, p, ws[0]);
    forall x | x in u.segmentIds
      ensures x in Members(Apply(db, PopulateWrites(d)).sets, KeyString(UpdateSegments(u.segmentUpdateId)))
    {
      AddedAfter(db, d, s, p, ws[1], x);
    }
    AddedAfter(db, d, s, p, ws[2], record);
    AddedAfter(db, d, s, p, ws[3], record);
    AddedAfter(db, d, s, p, ws[4], u.inspectionId);
  }

  /** An inspection linked to a fetched segment `s` is stored under
      `inspection:{i}`, lists its segments, and is indexed under the segment
      and under its tenant. */
  lemma PopulatedInspection(db: Db, d: AllData, s: Segment, i: Inspection)
    requires WellFormedData(d) && UniqueIds(d)
    requires s in d.segments && i in d.inspections && Linked(i.segmentIds, s)
    ensures var after := Apply(db, PopulateWrites(d));
      && Get(after.strings, KeyString(InspectionRecord(i.inspectionId))) == Some(EncodeInspection(i))
      && SetOf(i.segmentIds) <= Members(after.sets, KeyString(InspectionSegments(i.inspectionId)))
      && i.inspectionId in Members(after.sets, KeyString(TenantInspections(s.tenantId)))
      && i.inspectionId in Members(after.sets, KeyString(SegmentInspections(s.segmentId)))
  {
    var ws := InspectionWrites(s, i);
    var p := OfInspection(i);
    StoredValue(db, d, s, p, ws[0]);
    forall x | x in i.segmentIds
      ensures x in Members(Apply(db, PopulateWrites(d)).sets, KeyString(InspectionSegments(i.inspectionId)))
    {
      AddedAfter(db, d, s, p, ws[1], x);
    }
    AddedAfter(db, d, s, p, ws[2], i.inspectionId);
    AddedAfter(db, d, s, p, ws[3], i.inspectionId);
  }

  // -----------------------------------------------------------------------
  // Every index holds exactly the fetched relation

  /** A member the populator added to `tenant:{t}:segments` comes
      from a fetched relation. */
  lemma TenantSegmentsIndexSound(d: AllData, t: Guid, x: string, j: nat)
    requires WellFormedData(d) && ColonFree(t)
    requires j < |PopulateWrites(d)| && PopulateWrites(d)[j].SetAdd? && x in PopulateWrites(d)[j].members
    requires KeyString(PopulateWrites(d)[j].key) == KeyString(TenantSegments(t))
    ensures exists s :: s in d.segments && s.tenantId == t && s.segmentId == x
  {
    var ws := PopulateWrites(d);
    var key := TenantSegments(t);
    var s, p := SameKey(d, ws[j], key);
    assert s.tenantId == t && s.segmentId == x;
  }

  /** `tenant:{t}:segments` gains exactly the ids of the fetched segments of
      tenant `t`. */
  lemma TenantSegmentsIndex(db: Db, d: AllData, t: Guid, x: string)
    requires WellFormedData(d) && ColonFree(t)
    ensures x in Members(Apply(db, PopulateWrites(d)).sets, KeyString(TenantSegments(t))) <==>
      || x in Members(db.sets, KeyString(TenantSegments(t)))
      || exists s :: s in d.segments && s.tenantId == t && s.segmentId == x
  {
    var ws := PopulateWrites(d);
    var key := TenantSegments(t);
    MembersAfter(db, ws, KeyString(key), x);
    if j :| 0 <= j < |ws| && ws[j].SetAdd? && KeyString(ws[j].key) == KeyString(key) && x in ws[j].members {
      TenantSegmentsIndexSound(d, t, x, j);
    }
    if s :| s in d.segments && s.tenantId == t && s.segmentId == x {
      AddedAfter(db, d, s, Head, HeadWrites(s)[2], x);
    }
  }

  /** A member the populator added to `segment:{sid}:updates` comes
      from a fetched relation. */
  lemma SegmentUpdatesIndexSound(d: AllData, sid: Guid, x: string, j: nat)
    requires WellFormedData(d) && ColonFree(sid)
    requires j < |PopulateWrites(d)| && PopulateWrites(d)[j].SetAdd? && x in PopulateWrites(d)[j].members
    requires KeyString(PopulateWrites(d)[j].key) == KeyString(SegmentUpdates(sid))
    ensures exists s, u :: s in d.segments && u in d.updates && s.segmentId == sid && Linked(u.segmentIds, s)
              && x == KeyString(UpdateRecord(sid, u.segmentUpdateId))
  {
    var ws := PopulateWrites(d);
    var key := SegmentUpdates(sid);
    var s, p := SameKey(d, ws[j], key);
    var u := p.u;
    assert s in d.segments && u in d.updates && s.segmentId == sid && Linked(u.segmentIds, s)
      && x == KeyString(UpdateRecord(sid, u.segmentUpdateId));
  }

  /** `segment:{sid}:updates` gains exactly the update record keys of the
      updates linked to a fetched segment with id `sid`. */
  lemma SegmentUpdatesIndex(db: Db, d: AllData, sid: Guid, x: string)
    requires WellFormedData(d) && ColonFree(sid)
    ensures x in Members(Apply(db, PopulateWrites(d)).sets, KeyString(SegmentUpdates(sid))) <==>
      || x in Members(db.sets, KeyString(SegmentUpdates(sid)))
      || exists s, u :: s in d.segments && u in d.updates && s.segmentId == sid && Linked(u.segmentIds, s)
           && x == KeyString(UpdateRecord(sid, u.segmentUpdateId))
  {
    var ws := PopulateWrites(d);
    var key := SegmentUpdates(sid);
    MembersAfter(db, ws, KeyString(key), x);
    if j :| 0 <= j < |ws| && ws[j].SetAdd? && KeyString(ws[j].key) == KeyString(key) && x in ws[j].members {
      SegmentUpdatesIndexSound(d, sid, x, j);
    }
    if s, u :| s in d.segments && u in d.updates && s.segmentId == sid && Linked(u.segmentIds, s) && x == KeyString(UpdateRecord(sid, u.segmentUpdateId)) {
      AddedAfter(db, d, s, OfUpdate(u), UpdateWrites(s, u)[3], x);
    }
  }

  /** A member the populator added to `tenant:{t}:updates` comes
      from a fetched relation. */
  lemma TenantUpdatesIndexSound(d: AllData, t: Guid, x: string, j: nat)
    requires WellFormedData(d) && ColonFree(t)
    requires j < |PopulateWrites(d)| && PopulateWrites(d)[j].SetAdd? && x in PopulateWrites(d)[j].members
    requires KeyString(PopulateWrites(d)[j].key) == KeyString(TenantUpdates(t))
    ensures exists s, u :: s in d.segments && u in d.updates && s.tenantId == t && Linked(u.segmentIds, s)
              && x == KeyString(UpdateRecord(s.segmentId, u.segmentUpdateId))
  {
    var ws := PopulateWrites(d);
    var key := TenantUpdates(t);
    var s, p := SameKey(d, ws[j], key);
    var u := p.u;
    assert s in d.segments && u in d.updates && s.tenantId == t && Linked(u.segmentIds, s)
      && x == KeyString(UpdateRecord(s.segmentId, u.segmentUpdateId));
  }

  /** `tenant:{t}:updates` gains exactly the update record keys of the
      updates linked to a fetched segment of tenant `t`. */
  lemma TenantUpdatesIndex(db: Db, d: AllData, t: Guid, x: string)
    requires WellFormedData(d) && ColonFree(t)
    ensures x in Members(Apply(db, PopulateWrites(d)).sets, KeyString(TenantUpdates(t))) <==>
      || x in Members(db.sets, KeyString(TenantUpdates(t)))
      || exists s, u :: s in d.segments && u in d.updates && s.tenantId == t && Linked(u.segmentIds, s)
           && x == KeyString(UpdateRecord(s.segmentId, u.segmentUpdateId))
  {
    var ws := PopulateWrites(d);
    var key := TenantUpdates(t);
    MembersAfter(db, ws, KeyString(key), x);
    if j :| 0 <= j < |ws| && ws[j].SetAdd? && KeyString(ws[j].key) == KeyString(key) && x in ws[j].members {
      TenantUpdatesIndexSound(d, t, x, j);
    }
    if s, u :| s in d.segments && u in d.updates && s.tenantId == t && Linked(u.segmentIds, s) && x == KeyString(UpdateRecord(s.segmentId, u.segmentUpdateId)) {
      AddedAfter(db, d, s, OfUpdate(u), UpdateWrites(s, u)[2], x);
    }
  }

  /** A member the populator added to `segment:{sid}:inspections` comes
      from a fetched relation. */
  lemma SegmentInspectionsIndexSound(d: AllData, sid: Guid, x: string, j: nat)
    requires WellFormedData(d) && ColonFree(sid)
    requires j < |PopulateWrites(d)| && PopulateWrites(d)[j].SetAdd? && x in PopulateWrites(d)[j].members
    requires KeyString(PopulateWrites(d)[j].key) == KeyString(SegmentInspections(sid))
    ensures exists s, i :: s in d.segments && i in d.inspections && s.segmentId == sid && Linked(i.segmentIds, s)
              && x == i.inspectionId
  {
    var ws := PopulateWrites(d);
    var key := SegmentInspections(sid);
    var s, p := SameKey(d, ws[j], key);
    var i := p.i;
    assert s in d.segments && i in d.inspections && s.segmentId == sid && Linked(i.segmentIds, s)
      && x == i.inspectionId;
  }

  /** `segment:{sid}:inspections` gains exactly the ids of the inspections
      linked to a fetched segment with id `sid`. */
  lemma SegmentInspectionsIndex(db: Db, d: AllData, sid: Guid, x: string)
    requires WellFormedData(d) && ColonFree(sid)
    ensures x in Members(Apply(db, PopulateWrites(d)).sets, KeyString(SegmentInspections(sid))) <==>
      || x in Members(db.sets, KeyString(SegmentInspections(sid)))
      || exists s, i :: s in d.segments && i in d.inspections && s.segmentId == sid && Linked(i.segmentIds, s)
           && x == i.inspectionId
  {
    var ws := PopulateWrites(d);
    var key := SegmentInspections(sid);
    MembersAfter(db, ws, KeyString(key), x);
    if j :| 0 <= j < |ws| && ws[j].SetAdd? && KeyString(ws[j].key) == KeyString(key) && x in ws[j].members {
      SegmentInspectionsIndexSound(d, sid, x, j);
    }
    if s, i :| s in d.segments && i in d.inspections && s.segmentId == sid && Linked(i.segmentIds, s) && x == i.inspectionId {
      AddedAfter(db, d, s, OfInspection(i), InspectionWrites(s, i)[3], x);
    }
  }

  /** A member the populator added to `tenant:{t}:inspections` comes
      from a fetched relation. */
  lemma TenantInspectionsIndexSound(d: AllData, t: Guid, x: string, j: nat)
    requires WellFormedData(d) && ColonFree(t)
    requires j < |PopulateWrites(d)| && PopulateWrites(d)[j].SetAdd? && x in PopulateWrites(d)[j].members
    requires KeyString(PopulateWrites(d)[j].key) == KeyString(TenantInspections(t))
    ensures exists s, i :: s in d.segments && i in d.inspections && s.tenantId == t && Linked(i.segmentIds, s)
              && x == i.inspectionId
  {
    var ws := PopulateWrites(d);
    var key := TenantInspections(t);
    var s, p := SameKey(d, ws[j], key);
    var i := p.i;
    assert s in d.segments && i in d.inspections && s.tenantId == t && Linked(i.segmentIds, s)
      && x == i.inspectionId;
  }

  /** `tenant:{t}:inspections` gains exactly the ids of the inspections
      linked to a fetched segment of tenant `t`. */
  lemma TenantInspectionsIndex(db: Db, d: AllData, t: Guid, x: string)
    requires WellFormedData(d) && ColonFree(t)
    ensures x in Members(Apply(db, PopulateWrites(d)).sets, KeyString(TenantInspections(t))) <==>
      || x in Members(db.sets, KeyString(TenantInspections(t)))
      || exists s, i :: s in d.segments && i in d.inspections && s.tenantId == t && Linked(i.segmentIds, s)
           && x == i.inspectionId
  {
    var ws := PopulateWrites(d);
    var key := TenantInspections(t);
    MembersAfter(db, ws, KeyString(key), x);
    if j :| 0 <= j < |ws| && ws[j].SetAdd? && KeyString(ws[j].key) == KeyString(key) && x in ws[j].members {
      TenantInspectionsIndexSound(d, t, x, j);
    }
    if s, i :| s in d.segments && i in d.inspections && s.tenantId == t && Linked(i.segmentIds, s) && x == i.inspectionId {
      AddedAfter(db, d, s, OfInspection(i), InspectionWrites(s, i)[2], x);
    }
  }

  /** A member the populator added to `update:{uid}:segments` is a segment
      id listed by an update with id `uid` linked to a fetched segment. */
  lemma UpdateSegmentsIndexSound(d: AllData, uid: Guid, x: string, j: nat)
    requires WellFormedData(d) && ColonFree(uid)
    requires j < |PopulateWrites(d)| && PopulateWrites(d)[j].SetAdd? && x in PopulateWrites(d)[j].members
    requires KeyString(PopulateWrites(d)[j].key) == KeyString(UpdateSegments(uid))
    ensures exists s, u :: s in d.segments && u in d.updates && u.segmentUpdateId == uid && Linked(u.segmentIds, s)
              && x in u.segmentIds
  {
    var ws := PopulateWrites(d);
    var key := UpdateSegments(uid);
    var s, p := SameKey(d, ws[j], key);
    var u := p.u;
    assert s in d.segments && u in d.updates && u.segmentUpdateId == uid && Linked(u.segmentIds, s)
      && x in u.segmentIds;
  }

  /** `update:{uid}:segments` gains exactly the segment ids listed by the
      updates with id `uid` that a fetched segment links to. */
  lemma UpdateSegmentsIndex(db: Db, d: AllData, uid: Guid, x: string)
    requires WellFormedData(d) && ColonFree(uid)
    ensures x in Members(Apply(db, PopulateWrites(d)).sets, KeyString(UpdateSegments(uid))) <==>
      || x in Members(db.sets, KeyString(UpdateSegments(uid)))
      || exists s, u :: s in d.segments && u in d.updates && u.segmentUpdateId == uid && Linked(u.segmentIds, s)
           && x in u.segmentIds
  {
    var ws := PopulateWrites(d);
    var key := UpdateSegments(uid);
    MembersAfter(db, ws, KeyString(key), x);
    if j :| 0 <= j < |ws| && ws[j].SetAdd? && KeyString(ws[j].key) == KeyString(key) && x in ws[j].members {
      UpdateSegmentsIndexSound(d, uid, x, j);
    }
    if s, u :| s in d.segments && u in d.updates && u.segmentUpdateId == uid && Linked(u.segmentIds, s) && x in u.segmentIds {
      AddedAfter(db, d, s, OfUpdate(u), UpdateWrites(s, u)[1], x);
    }
  }

  /** A member the populator added to `update:{uid}:inspections` is the
      inspection id of an update with id `uid` linked to a fetched segment. */
  lemma UpdateInspectionsIndexSound(d: AllData, uid: Guid, x: string, j: nat)
    requires WellFormedData(d) && ColonFree(uid)
    requires j < |PopulateWrites(d)| && PopulateWrites(d)[j].SetAdd? && x in PopulateWrites(d)[j].members
    requires KeyString(PopulateWrites(d)[j].key) == KeyString(UpdateInspections(uid))
    ensures exists s, u :: s in d.segments && u in d.updates && u.segmentUpdateId == uid && Linked(u.segmentIds, s)
              && x == u.inspectionId
  {
    var ws := PopulateWrites(d);
    var key := UpdateInspections(uid);
    var s, p := SameKey(d, ws[j], key);
    var u := p.u;
    assert s in d.segments && u in d.updates && u.segmentUpdateId == uid && Linked(u.segmentIds, s)
      && x == u.inspectionId;
  }

  /** `update:{uid}:inspections` gains exactly the inspection ids of the
      updates with id `uid` that a fetched segment links to. */
  lemma UpdateInspectionsIndex(db: Db, d: AllData, uid: Guid, x: string)
    requires WellFormedData(d) && ColonFree(uid)
    ensures x in Members(Apply(db, PopulateWrites(d)).sets, KeyString(UpdateInspections(uid))) <==>
      || x in Members(db.sets, KeyString(UpdateInspections(uid)))
      || exists s, u :: s in d.segments && u in d.updates && u.segmentUpdateId == uid && Linked(u.segmentIds, s)
           && x == u.inspectionId
  {
    var ws := PopulateWrites(d);
    var key := UpdateInspections(uid);
    MembersAfter(db, ws, KeyString(key), x);
    if j :| 0 <= j < |ws| && ws[j].SetAdd? && KeyString(ws[j].key) == KeyString(key) && x in ws[j].members {
      UpdateInspectionsIndexSound(d, uid, x, j);
    }
    if s, u :| s in d.segments && u in d.updates && u.segmentUpdateId == uid && Linked(u.segmentIds, s) && x == u.inspectionId {
      AddedAfter(db, d, s, OfUpdate(u), UpdateWrites(s, u)[4], x);
    }
  }

  /** A member the populator added to `inspection:{iid}:segments` is a
      segment id listed by an inspection with id `iid` linked to a fetched
      segment. */
  lemma InspectionSegmentsIndexSound(d: AllData, iid: Guid, x: string, j: nat)
    requires WellFormedData(d) && ColonFree(iid)
    requires j < |PopulateWrites(d)| && PopulateWrites(d)[j].SetAdd? && x in PopulateWrites(d)[j].members
    requires KeyString(PopulateWrites(d)[j].key) == KeyString(InspectionSegments(iid))
    ensures exists s, i :: s in d.segments && i in d.inspections && i.inspectionId == iid && Linked(i.segmentIds, s)
              && x in i.segmentIds
  {
    var ws := PopulateWrites(d);
    var key := InspectionSegments(iid);
    var s, p := SameKey(d, ws[j], key);
    var i := p.i;
    assert s in d.segments && i in d.inspections && i.inspectionId == iid && Linked(i.segmentIds, s)
      && x in i.segmentIds;
  }

  /** `inspection:{iid}:segments` gains exactly the segment ids listed by
      the inspections with id `iid` that a fetched segment links to. */
  lemma InspectionSegmentsIndex(db: Db, d: AllData, iid: Guid, x: string)
    requires WellFormedData(d) && ColonFree(iid)
    ensures x in Members(Apply(db, PopulateWrites(d)).sets, KeyString(InspectionSegments(iid))) <==>
      || x in Members(db.sets, KeyString(InspectionSegments(iid)))
      || exists s, i :: s in d.segments && i in d.inspections && i.inspectionId == iid && Linked(i.segmentIds, s)
           && x in i.segmentIds
  {
    var ws := PopulateWrites(d);
    var key := InspectionSegments(iid);
    MembersAfter(db, ws, KeyString(key), x);
    if j :| 0 <= j < |ws| && ws[j].SetAdd? && KeyString(ws[j].key) == KeyString(key) && x in ws[j].members {
      InspectionSegmentsIndexSound(d, iid, x, j);
    }
    if s, i :| s in d.segments && i in d.inspections && i.inspectionId == iid && Linked(i.segmentIds, s) && x in i.segmentIds {
      AddedAfter(db, d, s, OfInspection(i), InspectionWrites(s, i)[1], x);
    }
  }

  /** An update is stored once per fetched segment it is linked to, under
      `segment:{s}:update:{u}`, and under no other record key; an update no
      fetched segment links to is not stored at all. */
  lemma UpdateRecordWritten(d: AllData, sid: Guid, uid: Guid)
    requires WellFormedData(d) && ColonFree(sid) && ColonFree(uid)
    ensures KeyString(UpdateRecord(sid, uid)) in Written(PopulateWrites(d)) <==>
      exists s, u :: s in d.segments && u in d.updates && s.segmentId == sid
        && u.segmentUpdateId == uid && Linked(u.segmentIds, s)
  {
    var ws := PopulateWrites(d);
    var key := UpdateRecord(sid, uid);
    WrittenKeys(ws, KeyString(key));
    if j :| 0 <= j < |ws| && ws[j].StringSet? && KeyString(ws[j].key) == KeyString(key) {
      var s, p := SameKey(d, ws[j], key);
      StringWriteShape(d, s, p, ws[j]);
      assert p.OfUpdate? && s.segmentId == sid && p.u.segmentUpdateId == uid;
    }
    if s, u :| s in d.segments && u in d.updates && s.segmentId == sid && u.segmentUpdateId == uid && Linked(u.segmentIds, s) {
      var j := Issued(d, s, OfUpdate(u), UpdateWrites(s, u)[0]);
    }
  }

  /** `segment:{sid}` is written exactly when a fetched segment has id
      `sid`. */
  lemma SegmentRecordWritten(d: AllData, sid: Guid)
    requires WellFormedData(d) && ColonFree(sid)
    ensures KeyString(SegmentRecord(sid)) in Written(PopulateWrites(d)) <==>
      exists s :: s in d.segments && s.segmentId == sid
  {
    var ws := PopulateWrites(d);
    var key := SegmentRecord(sid);
    WrittenKeys(ws, KeyString(key));
    if j :| 0 <= j < |ws| && ws[j].StringSet? && KeyString(ws[j].key) == KeyString(key) {
      var s, p := SameKey(d, ws[j], key);
      StringWriteShape(d, s, p, ws[j]);
    }
    if s :| s in d.segments && s.segmentId == sid {
      var j := Issued(d, s, Head, HeadWrites(s)[1]);
    }
  }

  // -----------------------------------------------------------------------
  // Write order

  lemma {:induction false} SegmentsWritesPrefix(ss: seq<Segment>, d: AllData, k: nat)
    requires k < |ss|
    ensures SegmentsWrites(ss[..k + 1], d) <= SegmentsWrites(ss, d)
    ensures SegmentsWrites(ss[..k + 1], d) == SegmentsWrites(ss[..k], d) + SegmentWrites(ss[k], d)
    decreases |ss|
  {
    assert ss[..k + 1][..k] == ss[..k];
    if k + 1 < |ss| {
      var front := ss[..|ss| - 1];
      SegmentsWritesPrefix(front, d, k);
      assert front[..k + 1] == ss[..k + 1];
    } else {
      assert ss[..k + 1] == ss;
    }
  }

  /** In every segment's iteration the tenant presence marker is written
      first, before the segment itself and all of its index entries. */
  lemma PresenceWrittenFirst(d: AllData, k: nat)
    requires k < |d.segments|
    ensures var at := |SegmentsWrites(d.segments[..k], d)|;
      var s := d.segments[k];
      && at + 2 < |PopulateWrites(d)|
      && PopulateWrites(d)[at] == StringSet(Tenant(s.tenantId), s.tenantId)
      && PopulateWrites(d)[at + 1] == StringSet(SegmentRecord(s.segmentId), EncodeSegment(s))
      && PopulateWrites(d)[at + 2] == SetAdd(TenantSegments(s.tenantId), [s.segmentId])
  {
    SegmentsWritesPrefix(d.segments, d, k);
    var before := SegmentsWrites(d.segments[..k], d);
    var upTo := SegmentsWrites(d.segments[..k + 1], d);
    assert upTo[|before|..|before| + 3] == HeadWrites(d.segments[k]);
  }

  /** If `UpdateCache` stops after its first write, the first tenant is
      marked present although none of its data is stored. */
  lemma InterruptedAfterPresence(d: AllData)
    requires WellFormedData(d) && |d.segments| > 0
    ensures var s := d.segments[0];
      var interrupted := Apply(EmptyDb, PopulateWrites(d)[..1]);
      && Get(interrupted.strings, KeyString(Tenant(s.tenantId))) == Some(s.tenantId)
      && Get(interrupted.strings, KeyString(SegmentRecord(s.segmentId))) == None
      && Members(interrupted.sets, KeyString(TenantSegments(s.tenantId))) == {}
  {
    var s := d.segments[0];
    PresenceWrittenFirst(d, 0);
    assert d.segments[..0] == [];
    var w := PopulateWrites(d)[0];
    assert PopulateWrites(d)[..1] == [] + [w];
    ApplySnoc(EmptyDb, [], w);
    if KeyString(Tenant(s.tenantId)) == KeyString(SegmentRecord(s.segmentId)) {
      KeyStringInjective(Tenant(s.tenantId), SegmentRecord(s.segmentId));
    }
  }
}
