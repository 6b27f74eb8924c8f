// The driver proper (src/ft5x06.c): sizing the touch-data read request, and
// decoding the 30-byte staging buffer into a caller-owned touchInfo record.

module Ft5x06 {
  import opened Ft5x06Types
  import opened I2c

  /** The C `int` parameter of ft5x06_queryTouchInfo. */
  type Int32 = n: int | -0x8000_0000 <= n < 0x8000_0000

  // ---------------------------------------------------------------------------
  // Query sizing

  /**
   * ft5x06_queryTouchInfo: the read request issued for `numPoints` points, or
   * None when no request is issued. The length counts the gesture and count
   * bytes, four data bytes per point and two reserved bytes between records.
   */
  function QueryTouchInfo(numPoints: Int32): (req: Option<ReadRequest>)
    ensures req.None? <==> numPoints == 0
    ensures req.Some? ==>
      req.value.address == I2cAddress &&
      req.value.register == TouchDataRegister &&
      req.value.length == 6 * numPoints
  {
    if numPoints == 0 then None
    else Some(ReadRequest(I2cAddress, TouchDataRegister, 2 + 4 * numPoints + 2 * (numPoints - 1)))
  }

  /** For 1 to 5 points the request is 6 to 30 bytes: it fits the decoder's staging buffer. */
  lemma QueryFitsStaging(numPoints: Int32)
    requires 1 <= numPoints <= MaxPoints
    ensures QueryTouchInfo(numPoints).Some?
    ensures 6 <= QueryTouchInfo(numPoints).value.length <= StagingSize
  {
  }

  /**
   * The requested bytes end exactly after the record of the last requested
   * slot: a slot's record lies inside them if and only if the slot was
   * requested.
   */
  lemma QueryCoversRequestedRecords(numPoints: Int32, i: nat)
    requires 1 <= numPoints <= MaxPoints && i < MaxPoints
    ensures QueryTouchInfo(numPoints).Some?
    ensures QueryTouchInfo(numPoints).value.length == RecordOffset(numPoints - 1) + 4
    ensures RecordOffset(i) + 4 <= QueryTouchInfo(numPoints).value.length <==> i < numPoints
  {
  }

  // ---------------------------------------------------------------------------
  // Wire format of the staging buffer

  /** Offset of the event/X-high byte of point slot `i`; its record is four bytes. */
  function RecordOffset(i: nat): (off: nat)
    requires i < MaxPoints
    ensures 2 <= off && off + 3 < StagingSize
    ensures i == MaxPoints - 1 ==> off + 3 == StagingSize - 1
  {
    2 + i * 6
  }

  /**
   * The 2-bit event code in the top two bits of a record's first byte. The
   * driver extracts it with a shift and a mask; see EventFieldIsShiftMask.
   */
  function EventField(b: Byte): (code: int)
    ensures 0 <= code <= 3
    ensures code * 64 <= b as int < (code + 1) * 64
  {
    b as int / 64
  }

  /**
   * A 12-bit coordinate: the low four bits of `hi` above the eight bits of
   * `lo`. The driver assembles it with a shift and an or; see Coord12IsShiftOr.
   */
  function Coord12(hi: Byte, lo: Byte): (c: int)
    ensures 0 <= c <= 0x0FFF
    ensures c / 256 == hi as int % 16 && c % 256 == lo as int
  {
    (hi as int % 16) * 256 + lo as int
  }

  /** EventField is the driver's `(b >> 6) & 0b11` on an 8-bit byte. */
  lemma EventFieldIsShiftMask(b: bv8)
    ensures EventField(b as Byte) == ((b >> 6) & 0x03) as int
  {
    assert (b >> 6) & 0x03 == b / 64;
  }

  /** Coord12 is the driver's `((hi & 0x0f) << 8) | lo` on 8-bit bytes. */
  lemma Coord12IsShiftOr(hi: bv8, lo: bv8)
    ensures Coord12(hi as Byte, lo as Byte) == (((hi & 0x0F) as bv32 << 8) | lo as bv32) as int
  {
    var n := hi % 16;
    assert ((hi & 0x0F) as bv32 << 8) | lo as bv32 == n as bv32 * 256 + lo as bv32;
    NibbleValue(hi);
    NibbleAndByteValue(n, lo);
  }

  /** The remainder modulo 16 of a byte keeps its meaning as a number. */
  lemma NibbleValue(b: bv8)
    ensures (b % 16) as int == b as int % 16
  {
  }

  /** A nibble times 256 plus a byte does not overflow 32 bits. */
  lemma NibbleAndByteValue(n: bv8, lo: bv8)
    requires n < 16
    ensures (n as bv32 * 256 + lo as bv32) as int == n as int * 256 + lo as int
  {
  }

  /** The event code of slot `i` in the staging buffer. */
  function EventCode(buf: Staging, i: nat): (code: int)
    requires i < MaxPoints
    ensures 0 <= code <= 3
  {
    EventField(buf[RecordOffset(i)])
  }

  /** The X coordinate of slot `i`: bytes 0 and 1 of its record. */
  function CoordX(buf: Staging, i: nat): (x: nat)
    requires i < MaxPoints
    ensures x <= 0x0FFF
  {
    Coord12(buf[RecordOffset(i)], buf[RecordOffset(i) + 1])
  }

  /** The Y coordinate of slot `i`: bytes 2 and 3 of its record. */
  function CoordY(buf: Staging, i: nat): (y: nat)
    requires i < MaxPoints
    ensures y <= 0x0FFF
  {
    Coord12(buf[RecordOffset(i) + 2], buf[RecordOffset(i) + 3])
  }

  // ---------------------------------------------------------------------------
  // Specification of the decoder

  /** Return code of a decode together with the target record's value afterwards. */
  datatype Outcome = Outcome(rc: RetVal, after: Report)

  /**
   * Slot `i` once the loop has handled it, as a function of its prior value:
   * it gets the event of its record, and when `i` is below `count` also the
   * coordinates of its record; otherwise its coordinates stay as they were.
   */
  function SlotAfter(prior: TouchCoor, buf: Staging, count: Byte, i: nat): TouchCoor
    requires i < MaxPoints
  {
    var ev := EventOf(EventCode(buf, i));
    if i < count as int then TouchCoor(CoordX(buf, i), CoordY(buf, i), ev)
    else prior.(event := ev)
  }

  /**
   * The slot loop from slot `i` on, over the slots `pts` as they stand. A
   * slot whose event code exceeds 3 stops the loop with ErrEvent.
   */
  function DecodeSlots(pts: seq<TouchCoor>, buf: Staging, count: Byte, i: nat): (r: (RetVal, seq<TouchCoor>))
    requires |pts| == MaxPoints && i <= MaxPoints
    ensures |r.1| == MaxPoints
    ensures forall k :: 0 <= k < i ==> r.1[k] == pts[k]
    decreases MaxPoints - i
  {
    if i == MaxPoints then (Ok, pts)
    else if EventCode(buf, i) > 3 then (ErrEvent, pts)
    else DecodeSlots(pts[i := SlotAfter(pts[i], buf, count, i)], buf, count, i + 1)
  }

  /**
   * ft5x06_retrieveTouchInfo on a non-null record holding `prior`, when the
   * transport delivers `rx`.
   */
  function Retrieve(prior: Report, rx: Fetch): (o: Outcome)
    requires WellFormed(prior)
    ensures WellFormed(o.after)
  {
    match rx
    case FetchFailed => Outcome(ErrI2c, prior)
    case Fetched(buf) =>
      var staged := prior.(gesture := buf[0], numPoints := buf[1]);
      if staged.numPoints > 5 then Outcome(ErrNumPoints, staged)
      else
        var (rc, pts) := DecodeSlots(prior.points, buf, buf[1], 0);
        Outcome(rc, staged.(points := pts))
  }

  /** The slot loop never fails, and leaves every slot from `i` on as SlotAfter says. */
  lemma {:induction false} DecodeSlotsClosedForm(pts: seq<TouchCoor>, buf: Staging, count: Byte, i: nat)
    requires |pts| == MaxPoints && i <= MaxPoints
    ensures DecodeSlots(pts, buf, count, i).0 == Ok
    ensures forall k :: i <= k < MaxPoints ==>
      DecodeSlots(pts, buf, count, i).1[k] == SlotAfter(pts[k], buf, count, k)
    decreases MaxPoints - i
  {
    if i < MaxPoints {
      var next := pts[i := SlotAfter(pts[i], buf, count, i)];
      DecodeSlotsClosedForm(next, buf, count, i + 1);
    }
  }

  // ---------------------------------------------------------------------------
  // Properties of the decoder

  /** A failed fetch reports ErrI2c and leaves the record exactly as it was. */
  lemma RetrieveTransportFailure(prior: Report)
    requires WellFormed(prior)
    ensures Retrieve(prior, FetchFailed) == Outcome(ErrI2c, prior)
  {
  }

  /**
   * A point count above 5 reports ErrNumPoints; gesture and count have
   * already been overwritten by bytes 0 and 1, and no slot is touched.
   */
  lemma RetrieveBadCount(prior: Report, buf: Staging)
    requires WellFormed(prior) && buf[1] > 5
    ensures Retrieve(prior, Fetched(buf)).rc == ErrNumPoints
    ensures Retrieve(prior, Fetched(buf)).after == Report(buf[0], buf[1], prior.points)
  {
  }

  /**
   * A fetched buffer whose count is at most 5 decodes successfully: gesture
   * and count are bytes 0 and 1, every slot gets the event of its record,
   * active slots get the coordinates of their record and inactive slots keep
   * their coordinates.
   */
  lemma RetrieveSuccess(prior: Report, buf: Staging)
    requires WellFormed(prior) && buf[1] <= 5
    ensures var o := Retrieve(prior, Fetched(buf));
      o.rc == Ok && o.after.gesture == buf[0] && o.after.numPoints == buf[1] &&
      forall k :: 0 <= k < MaxPoints ==>
        o.after.points[k].event == EventOf(EventField(buf[2 + 6 * k])) &&
        (k < buf[1] as int ==>
          o.after.points[k].x == Coord12(buf[2 + 6 * k], buf[3 + 6 * k]) &&
          o.after.points[k].y == Coord12(buf[4 + 6 * k], buf[5 + 6 * k])) &&
        (k >= buf[1] as int ==>
          o.after.points[k].x == prior.points[k].x &&
          o.after.points[k].y == prior.points[k].y)
  {
    var o := Retrieve(prior, Fetched(buf));
    var (rc, pts) := DecodeSlots(prior.points, buf, buf[1], 0);
    DecodeSlotsClosedForm(prior.points, buf, buf[1], 0);
    assert o == Outcome(rc, Report(buf[0], buf[1], pts));
    forall k | 0 <= k < MaxPoints
      ensures o.after.points[k].event == EventOf(EventField(buf[2 + 6 * k]))
      ensures k < buf[1] as int ==>
          o.after.points[k].x == Coord12(buf[2 + 6 * k], buf[3 + 6 * k]) &&
          o.after.points[k].y == Coord12(buf[4 + 6 * k], buf[5 + 6 * k])
      ensures k >= buf[1] as int ==>
          o.after.points[k].x == prior.points[k].x &&
          o.after.points[k].y == prior.points[k].y
    {
      assert o.after.points[k] == SlotAfter(prior.points[k], buf, buf[1], k);
      assert RecordOffset(k) == 2 + 6 * k;
    }
  }

  /**
   * Which return code a decode gives: ErrI2c exactly when the fetch fails,
   * ErrNumPoints exactly when the count byte exceeds 5, Ok otherwise; the
   * defensive ErrEvent is never returned.
   */
  lemma RetrieveReturnCodes(prior: Report, rx: Fetch)
    requires WellFormed(prior)
    ensures var rc := Retrieve(prior, rx).rc;
      rc != ErrEvent && rc != NullArg &&
      (rc == ErrI2c <==> rx.FetchFailed?) &&
      (rc == ErrNumPoints <==> rx.Fetched? && rx.buffer[1] > 5) &&
      (rc == Ok <==> rx.Fetched? && rx.buffer[1] <= 5)
  {
    if rx.Fetched? && rx.buffer[1] <= 5 {
      DecodeSlotsClosedForm(prior.points, rx.buffer, rx.buffer[1], 0);
    }
  }

  /** After a successful decode every active slot holds 12-bit coordinates. */
  lemma RetrieveCoordinatesBounded(prior: Report, buf: Staging)
    requires WellFormed(prior)
    requires Retrieve(prior, Fetched(buf)).rc == Ok
    ensures var o := Retrieve(prior, Fetched(buf));
      o.after.numPoints <= 5 &&
      forall k :: 0 <= k < o.after.numPoints as int ==>
        o.after.points[k].x <= 0x0FFF && o.after.points[k].y <= 0x0FFF
  {
    RetrieveSuccess(prior, buf);
  }

  // ---------------------------------------------------------------------------
  // The decoder

  /**
   * ft5x06_retrieveTouchInfo: fetch the staging buffer and decode it into the
   * record `t` in place. A null record is refused before the transport is used.
   */
  method RetrieveTouchInfo(t: TouchInfo?, bus: Transport) returns (rc: RetVal)
    requires t != null ==> t.Valid()
    modifies bus`fetches, t, if t == null then {} else {t.points}
    ensures t == null ==> rc == NullArg && bus.fetches == old(bus.fetches)
    ensures t != null ==>
      t.Valid() && bus.fetches == old(bus.fetches) + 1 &&
      Outcome(rc, t.Value()) == Retrieve(old(t.Value()), old(bus.rx))
  {
    if t == null {
      return NullArg;
    }
    var rx := bus.GetData();
    if rx.FetchFailed? {
      return ErrI2c;
    }
    var buffer := rx.buffer;
    t.gesture := buffer[0];
    t.numPoints := buffer[1];
    if t.numPoints > 5 {
      return ErrNumPoints;
    }
    ghost var prior := t.points[..];
    for i := 0 to MaxPoints
      modifies t.points
      invariant forall k :: 0 <= k < i ==> t.points[k] == SlotAfter(prior[k], buffer, buffer[1], k)
      invariant forall k :: i <= k < MaxPoints ==> t.points[k] == prior[k]
    {
      // Every slot's event is stored, so that a lifted finger (an inactive
      // slot) is still reported.
      var code := EventField(buffer[2 + i * 6]);
      if code > 3 {
        return ErrEvent;
      }
      t.points[i] := t.points[i].(event := EventOf(code));
      // Only active slots get coordinates.
      if i < t.numPoints as int {
        t.points[i] := t.points[i].(x := Coord12(buffer[2 + i * 6], buffer[3 + i * 6]));
        t.points[i] := t.points[i].(y := Coord12(buffer[4 + i * 6], buffer[5 + i * 6]));
      }
      assert RecordOffset(i) == 2 + i * 6;
      assert t.points[i] == SlotAfter(prior[i], buffer, buffer[1], i);
    }
    DecodeSlotsClosedForm(prior, buffer, buffer[1], 0);
    assert t.points[..] == DecodeSlots(prior, buffer, buffer[1], 0).1;
    return Ok;
  }
}
