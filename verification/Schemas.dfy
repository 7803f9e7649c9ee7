/**
 Shared data contracts (core/schemas.py). A point in time is an integer number of
 microseconds, the resolution of the system's timestamps; durations use the same unit.
 Floats are exact reals.
 */
module Schemas {

  type Time = int

  const SECOND: int := 1_000_000
  const MINUTE: int := 60 * SECOND

  /** Names of locations, cameras and providers: they are only ever compared. */
  datatype Name = Name(text: string)

  datatype Option<+T> = None | Some(value: T)

  function Max(a: real, b: real): real { if a >= b then a else b }
  function Min(a: real, b: real): real { if a <= b then a else b }
  function AbsInt(a: int): nat { if a >= 0 then a else -a }

  datatype Point = Point(x: real, y: real)

  /** Axis-aligned box in pixel coordinates. Nothing orders its corners. */
  datatype BBox = BBox(x1: real, y1: real, x2: real, y2: real) {
    /** Bottom centre: the foot position. */
    function Anchor(): Point {
      Point((x1 + x2) / 2.0, y2)
    }

    function Area(): real {
      Max(0.0, x2 - x1) * Max(0.0, y2 - y1)
    }
  }

  datatype Detection = Detection(bbox: BBox, confidence: real, trackerId: Option<int>)

  datatype ZoneKind = Queue | Service | Fulfilment

  datatype ZoneEventType = Enter | Exit

  datatype ZoneEvent = ZoneEvent(tenantId: int, locationId: Name, cameraId: Name, zone: ZoneKind,
                                 eventType: ZoneEventType, trackerId: int, ts: Time, dwell: Option<int>)

  datatype PosEventType = OrderCreated | OrderCompleted | OrderCancelled | CheckOpen | CheckClosed

  datatype PosEvent = PosEvent(tenantId: int, locationId: Name, provider: Name, eventId: Name,
                               eventType: PosEventType, occurredAt: Time, receivedAt: Time)

  datatype FrameMetadata = FrameMetadata(tenantId: int, locationId: Name, cameraId: Name, ts: Time,
                                         detections: seq<Detection>)
}
