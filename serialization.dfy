/** Serialisation of the entities into cache values. The services use
    Newtonsoft JSON; what the cache depends on is only that the encoding is
    injective and that decoding inverts it, so the model uses a small
    self-delimiting text format with exactly those two properties: every
    character of a text field is followed by '+', a field ends with "..",
    and a list is a run of '+'-prefixed fields closed by '.'. */
module Serialization {
  import opened Wrappers
  import opened Entities

  function EncodeText(s: string): (t: string)
    ensures |t| == 2 * |s| + 2
  {
    seq(2 * |s| + 2, k requires 0 <= k < 2 * |s| + 2 =>
      if k >= 2 * |s| then '.' else if k % 2 == 0 then s[k / 2] else '+')
  }

  /** The encoding of a text field, character by character. */
  lemma EncodeTextCons(s: string)
    ensures s == [] ==> EncodeText(s) == ".."
    ensures s != [] ==> EncodeText(s) == [s[0], '+'] + EncodeText(s[1..])
  {
    if s != [] {
      var t, t' := EncodeText(s), EncodeText(s[1..]);
      forall k | 2 <= k < |t|
        ensures t[k] == t'[k - 2]
      {
        if k < 2 * |s| {
          assert (k - 2) % 2 == k % 2 && (k - 2) / 2 == k / 2 - 1;
        }
      }
      assert t == [s[0], '+'] + t';
    }
  }

  /** Reads one text field off the front of `t`, returning it and the rest. */
  function DecodeText(t: string): (r: Option<(string, string)>)
    ensures r.Some? ==> |r.value.1| < |t|
    decreases |t|
  {
    if |t| < 2 then None
    else if t[1] == '.' then
      if t[0] == '.' then Some(("", t[2..])) else None
    else if t[1] == '+' then
      var p :- DecodeText(t[2..]);
      Some(([t[0]] + p.0, p.1))
    else None
  }

  lemma {:induction false} TextRoundTrip(s: string, rest: string)
    ensures DecodeText(EncodeText(s) + rest) == Some((s, rest))
  {
    EncodeTextCons(s);
    if s != [] {
      var t := EncodeText(s) + rest;
      assert t == [s[0], '+'] + (EncodeText(s[1..]) + rest);
      assert t[2..] == EncodeText(s[1..]) + rest;
      TextRoundTrip(s[1..], rest);
      assert [s[0]] + s[1..] == s;
    }
  }

  function EncodeList(xs: seq<string>): (t: string)
    ensures |t| >= 1
  {
    if xs == [] then "." else "+" + (EncodeText(xs[0]) + EncodeList(xs[1..]))
  }

  /** Reads one list of text fields off the front of `t`. */
  function DecodeList(t: string): (r: Option<(seq<string>, string)>)
    ensures r.Some? ==> |r.value.1| < |t|
    decreases |t|
  {
    if |t| == 0 then None
    else if t[0] == '.' then Some(([], t[1..]))
    else if t[0] == '+' then
      var head :- DecodeText(t[1..]);
      var tail :- DecodeList(head.1);
      Some(([head.0] + tail.0, tail.1))
    else None
  }

  lemma {:induction false} ListRoundTrip(xs: seq<string>, rest: string)
    ensures DecodeList(EncodeList(xs) + rest) == Some((xs, rest))
  {
    var t := EncodeList(xs) + rest;
    if xs != [] {
      assert t[1..] == EncodeText(xs[0]) + (EncodeList(xs[1..]) + rest);
      TextRoundTrip(xs[0], EncodeList(xs[1..]) + rest);
      ListRoundTrip(xs[1..], rest);
      assert [xs[0]] + xs[1..] == xs;
    }
  }

  // ---------------------------------------------------------------------
  // Entities

  function EncodeSegment(s: Segment): string {
    "S" + (EncodeText(s.segmentId) + (EncodeText(s.tenantId)
      + (EncodeText(s.segmentName) + EncodeList(s.segmentUpdateIds))))
  }

  function DecodeSegment(t: string): Option<Segment> {
    if |t| == 0 || t[0] != 'S' then None
    else
      var id :- DecodeText(t[1..]);
      var tenant :- DecodeText(id.1);
      var name :- DecodeText(tenant.1);
      var updates :- DecodeList(name.1);
      if updates.1 == "" then Some(Segment(id.0, tenant.0, name.0, updates.0)) else None
  }

  function EncodeUpdate(u: SegmentUpdate): string {
    "U" + (EncodeText(u.segmentUpdateId) + (EncodeText(u.segmentUpdateName)
      + (EncodeList(u.segmentIds) + EncodeText(u.inspectionId))))
  }

  function DecodeUpdate(t: string): Option<SegmentUpdate> {
    if |t| == 0 || t[0] != 'U' then None
    else
      var id :- DecodeText(t[1..]);
      var name :- DecodeText(id.1);
      var segments :- DecodeList(name.1);
      var inspection :- DecodeText(segments.1);
      if inspection.1 == "" then Some(SegmentUpdate(id.0, name.0, segments.0, inspection.0)) else None
  }

  function EncodeInspection(i: Inspection): string {
    "I" + (EncodeText(i.inspectionId) + (EncodeText(i.inspectionName)
      + (EncodeText(i.segmentUpdateId) + EncodeList(i.segmentIds))))
  }

  function DecodeInspection(t: string): Option<Inspection> {
    if |t| == 0 || t[0] != 'I' then None
    else
      var id :- DecodeText(t[1..]);
      var name :- DecodeText(id.1);
      var update :- DecodeText(name.1);
      var segments :- DecodeList(update.1);
      if segments.1 == "" then Some(Inspection(id.0, name.0, update.0, segments.0)) else None
  }

  /** Deserialising a serialised segment gives back the same segment. */
  lemma SegmentRoundTrip(s: Segment)
    ensures DecodeSegment(EncodeSegment(s)) == Some(s)
  {
    var t := EncodeSegment(s);
    var r3 := EncodeList(s.segmentUpdateIds);
    var r2 := EncodeText(s.segmentName) + r3;
    var r1 := EncodeText(s.tenantId) + r2;
    assert t[1..] == EncodeText(s.segmentId) + r1;
    TextRoundTrip(s.segmentId, r1);
    TextRoundTrip(s.tenantId, r2);
    TextRoundTrip(s.segmentName, r3);
    ListRoundTrip(s.segmentUpdateIds, "");
    assert r3 + "" == r3;
  }

  lemma UpdateRoundTrip(u: SegmentUpdate)
    ensures DecodeUpdate(EncodeUpdate(u)) == Some(u)
  {
    var t := EncodeUpdate(u);
    var r3 := EncodeText(u.inspectionId);
    var r2 := EncodeList(u.segmentIds) + r3;
    var r1 := EncodeText(u.segmentUpdateName) + r2;
    assert t[1..] == EncodeText(u.segmentUpdateId) + r1;
    TextRoundTrip(u.segmentUpdateId, r1);
    TextRoundTrip(u.segmentUpdateName, r2);
    ListRoundTrip(u.segmentIds, r3);
    TextRoundTrip(u.inspectionId, "");
    assert r3 + "" == r3;
  }

  lemma InspectionRoundTrip(i: Inspection)
    ensures DecodeInspection(EncodeInspection(i)) == Some(i)
  {
    var t := EncodeInspection(i);
    var r3 := EncodeList(i.segmentIds);
    var r2 := EncodeText(i.segmentUpdateId) + r3;
    var r1 := EncodeText(i.inspectionName) + r2;
    assert t[1..] == EncodeText(i.inspectionId) + r1;
    TextRoundTrip(i.inspectionId, r1);
    TextRoundTrip(i.inspectionName, r2);
    TextRoundTrip(i.segmentUpdateId, r3);
    ListRoundTrip(i.segmentIds, "");
    assert r3 + "" == r3;
  }

  /** Distinct segments have distinct serialised forms. */
  lemma SegmentEncodingInjective(a: Segment, b: Segment)
    requires EncodeSegment(a) == EncodeSegment(b)
    ensures a == b
  {
    SegmentRoundTrip(a);
    SegmentRoundTrip(b);
  }

  lemma UpdateEncodingInjective(a: SegmentUpdate, b: SegmentUpdate)
    requires EncodeUpdate(a) == EncodeUpdate(b)
    ensures a == b
  {
    UpdateRoundTrip(a);
    UpdateRoundTrip(b);
  }

  lemma InspectionEncodingInjective(a: Inspection, b: Inspection)
    requires EncodeInspection(a) == EncodeInspection(b)
    ensures a == b
  {
    InspectionRoundTrip(a);
    InspectionRoundTrip(b);
  }
}
