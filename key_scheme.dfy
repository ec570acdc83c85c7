/** The key templates of `RemoteDataService`: one string key per entity and
    one set-valued index key per direction of every relation. */
module KeyScheme {
  import opened Text
  import opened Entities

  datatype Key =
    | Tenant(tenantId: Guid)                          // tenant:{t}
    | SegmentRecord(segmentId: Guid)                  // segment:{s}
    | UpdateRecord(segmentId: Guid, updateId: Guid)   // segment:{s}:update:{u}
    | InspectionRecord(inspectionId: Guid)            // inspection:{i}
    | TenantSegments(tenantId: Guid)                  // tenant:{t}:segments
    | TenantInspections(tenantId: Guid)               // tenant:{t}:inspections
    | TenantUpdates(tenantId: Guid)                   // tenant:{t}:updates
    | UpdateSegments(updateId: Guid)                  // update:{u}:segments
    | UpdateInspections(updateId: Guid)               // update:{u}:inspections
    | InspectionSegments(inspectionId: Guid)          // inspection:{i}:segments
    | SegmentUpdates(segmentId: Guid)                 // segment:{s}:updates
    | SegmentInspections(segmentId: Guid)             // segment:{s}:inspections
  {
    /** The keys that hold strings (entity values and the tenant marker);
        every other key holds a set. */
    predicate IsStringKey() {
      Tenant? || SegmentRecord? || UpdateRecord? || InspectionRecord?
    }

    /** Every id the key is built from is free of ':'. */
    predicate WellFormed() {
      match this
      case UpdateRecord(s, u) => ColonFree(s) && ColonFree(u)
      case Tenant(t) => ColonFree(t)
      case SegmentRecord(s) => ColonFree(s)
      case InspectionRecord(i) => ColonFree(i)
      case TenantSegments(t) => ColonFree(t)
      case TenantInspections(t) => ColonFree(t)
      case TenantUpdates(t) => ColonFree(t)
      case UpdateSegments(u) => ColonFree(u)
      case UpdateInspections(u) => ColonFree(u)
      case InspectionSegments(i) => ColonFree(i)
      case SegmentUpdates(s) => ColonFree(s)
      case SegmentInspections(s) => ColonFree(s)
    }
  }

  /** The key as `string.Format` renders its template. */
  function KeyString(k: Key): string {
    match k
    case Tenant(t) => "tenant:" + t
    case SegmentRecord(s) => "segment:" + s
    case UpdateRecord(s, u) => "segment:" + s + ":update:" + u
    case InspectionRecord(i) => "inspection:" + i
    case TenantSegments(t) => "tenant:" + t + ":segments"
    case TenantInspections(t) => "tenant:" + t + ":inspections"
    case TenantUpdates(t) => "tenant:" + t + ":updates"
    case UpdateSegments(u) => "update:" + u + ":segments"
    case UpdateInspections(u) => "update:" + u + ":inspections"
    case InspectionSegments(i) => "inspection:" + i + ":segments"
    case SegmentUpdates(s) => "segment:" + s + ":updates"
    case SegmentInspections(s) => "segment:" + s + ":inspections"
  }

  /** The ':'-separated fields of a key. */
  function KeyParts(k: Key): seq<string> {
    match k
    case Tenant(t) => ["tenant", t]
    case SegmentRecord(s) => ["segment", s]
    case UpdateRecord(s, u) => ["segment", s, "update", u]
    case InspectionRecord(i) => ["inspection", i]
    case TenantSegments(t) => ["tenant", t, "segments"]
    case TenantInspections(t) => ["tenant", t, "inspections"]
    case TenantUpdates(t) => ["tenant", t, "updates"]
    case UpdateSegments(u) => ["update", u, "segments"]
    case UpdateInspections(u) => ["update", u, "inspections"]
    case InspectionSegments(i) => ["inspection", i, "segments"]
    case SegmentUpdates(s) => ["segment", s, "updates"]
    case SegmentInspections(s) => ["segment", s, "inspections"]
  }

  /** Splitting a rendered key on ':' recovers its fields. */
  lemma SplitKeyString(k: Key)
    requires k.WellFormed()
    ensures Split(KeyString(k)) == KeyParts(k)
  {
    match k
    case Tenant(t) => SplitTwo("tenant", t, "tenant:");
    case SegmentRecord(s) => SplitTwo("segment", s, "segment:");
    case InspectionRecord(i) => SplitTwo("inspection", i, "inspection:");
    case UpdateRecord(s, u) => SplitUpdateRecord(s, u);
    case TenantSegments(t) => SplitThree("tenant", t, "segments", "tenant:", ":segments");
    case TenantInspections(t) => SplitThree("tenant", t, "inspections", "tenant:", ":inspections");
    case TenantUpdates(t) => SplitThree("tenant", t, "updates", "tenant:", ":updates");
    case UpdateSegments(u) => SplitThree("update", u, "segments", "update:", ":segments");
    case UpdateInspections(u) => SplitThree("update", u, "inspections", "update:", ":inspections");
    case InspectionSegments(i) => SplitThree("inspection", i, "segments", "inspection:", ":segments");
    case SegmentUpdates(s) => SplitThree("segment", s, "updates", "segment:", ":updates");
    case SegmentInspections(s) => SplitThree("segment", s, "inspections", "segment:", ":inspections");
  }

  lemma SplitUpdateRecord(s: string, u: string)
    requires ColonFree(s) && ColonFree(u)
    ensures Split(KeyString(UpdateRecord(s, u))) == ["segment", s, "update", u]
  {
    SplitFour("segment", s, "update", u, "segment:", ":update:");
  }

  lemma SplitFour(a: string, b: string, c: string, d: string, prefix: string, infix: string)
    requires ColonFree(a) && ColonFree(b) && ColonFree(c) && ColonFree(d)
    requires prefix == a + ":" && infix == ":" + c + ":"
    ensures Split(prefix + b + infix + d) == [a, b, c, d]
  {
    var rest := c + ":" + d;
    var tail := b + ":" + rest;
    JoinFour(a, b, c, d, prefix, infix);
    calc {
      Split(prefix + b + infix + d);
      Split(a + ":" + tail);
      { SplitCons(a, tail); }
      [a] + Split(tail);
      { SplitCons(b, rest); }
      [a] + ([b] + Split(rest));
      { SplitCons(c, d); SplitAtom(d); }
      [a] + ([b] + ([c] + [d]));
      [a, b, c, d];
    }
  }

  /** The rendered four-field key, regrouped field by field. */
  lemma JoinFour(a: string, b: string, c: string, d: string, prefix: string, infix: string)
    requires prefix == a + ":" && infix == ":" + c + ":"
    ensures prefix + b + infix + d == a + ":" + (b + ":" + (c + ":" + d))
  {
    var rest := c + ":" + d;
    assert infix + d == ":" + rest;
    assert b + infix + d == b + ":" + rest;
    assert prefix + b + infix + d == prefix + (b + infix + d);
  }

  lemma SplitTwo(a: string, b: string, prefix: string)
    requires ColonFree(a) && ColonFree(b) && prefix == a + ":"
    ensures Split(prefix + b) == [a, b]
  {
    assert prefix + b == a + ":" + b;
    SplitCons(a, b);
    SplitAtom(b);
  }

  lemma SplitThree(a: string, b: string, c: string, prefix: string, suffix: string)
    requires ColonFree(a) && ColonFree(b) && ColonFree(c)
    requires prefix == a + ":" && suffix == ":" + c
    ensures Split(prefix + b + suffix) == [a, b, c]
  {
    assert prefix + b + suffix == a + ":" + (b + ":" + c);
    calc {
      Split(prefix + b + suffix);
      Split(a + ":" + (b + ":" + c));
      { SplitCons(a, b + ":" + c); }
      [a] + Split(b + ":" + c);
      { SplitCons(b, c); SplitAtom(c); }
      [a] + ([b] + [c]);
      [a, b, c];
    }
  }

  /** The key templates never coincide: for colon-free ids, two keys render
      to the same string only if they are the same key. In particular no
      string-valued key equals a set-valued one, and the update record key
      `segment:{s}:update:{u}` differs for every segment an update is
      linked to. */
  lemma KeyStringInjective(k1: Key, k2: Key)
    requires k1.WellFormed() && k2.WellFormed()
    requires KeyString(k1) == KeyString(k2)
    ensures k1 == k2
  {
    SplitKeyString(k1);
    SplitKeyString(k2);
    var p1, p2 := KeyParts(k1), KeyParts(k2);
    assert p1 == p2;
    assert "tenant"[0] == 't' && "segment"[0] == 's' && "update"[0] == 'u' && "inspection"[0] == 'i';
    assert "segments"[0] == 's' && "updates"[0] == 'u' && "inspections"[0] == 'i';
  }
}
