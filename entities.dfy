/** The data transfer objects of `core/DataDto`: segments, segment updates
    and inspections, and the whole dataset the upstream returns. */
module Entities {

  /** A `System.Guid`, held in its canonical "D" string form
      (32 hex digits in five hyphen-separated groups). */
  type Guid = string

  /** `Guid.Empty`, the value of a Guid property nobody assigned. */
  const EmptyGuid: Guid := "00000000-0000-0000-0000-000000000000"

  /** A segment belongs to exactly one tenant and lists its related updates. */
  datatype Segment = Segment(
    segmentId: Guid,
    tenantId: Guid,
    segmentName: string,
    segmentUpdateIds: seq<Guid>)

  /** A segment update relates to many segments and at most one inspection.
      The DTO class itself has no `InspectionId`, but the populator reads one,
      so the model carries it. */
  datatype SegmentUpdate = SegmentUpdate(
    segmentUpdateId: Guid,
    segmentUpdateName: string,
    segmentIds: seq<Guid>,
    inspectionId: Guid)

  /** An inspection was produced by one update and covers many segments. */
  datatype Inspection = Inspection(
    inspectionId: Guid,
    inspectionName: string,
    segmentUpdateId: Guid,
    segmentIds: seq<Guid>)

  /** The body of the upstream `api/data` response. */
  datatype AllData = AllData(
    segments: seq<Segment>,
    updates: seq<SegmentUpdate>,
    inspections: seq<Inspection>)
}
