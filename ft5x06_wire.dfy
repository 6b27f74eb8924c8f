// The controller's side of the wire format: a report laid out in the staging
// buffer the way the FT5x06 sends it. Decoding such a buffer gives the report
// back, which pins the decoder's offsets, shifts and masks down from the other
// side.

module Ft5x06Wire {
  import opened Ft5x06Types
  import opened I2c
  import opened Ft5x06

  /**
   * The four data bytes of one point record, event and coordinates packed.
   * `pad0` fills bits 5-4 of the first byte and `pad2` the top nibble of the
   * third, bits the decoder does not read.
   */
  function EncodeRecord(p: TouchCoor, pad0: int, pad2: int): (bytes: seq<Byte>)
    requires p.x <= 0x0FFF && p.y <= 0x0FFF
    requires 0 <= pad0 < 4 && 0 <= pad2 < 16
    ensures |bytes| == 4
  {
    [(p.event.Code() * 64 + pad0 * 16 + p.x / 256) as Byte, (p.x % 256) as Byte,
     (pad2 * 16 + p.y / 256) as Byte, (p.y % 256) as Byte]
  }

  /** Decoding a record's bytes gives back its event and both coordinates, whatever the padding. */
  lemma RecordRoundTrip(p: TouchCoor, pad0: int, pad2: int)
    requires p.x <= 0x0FFF && p.y <= 0x0FFF
    requires 0 <= pad0 < 4 && 0 <= pad2 < 16
    ensures var b := EncodeRecord(p, pad0, pad2);
      EventOf(EventField(b[0])) == p.event &&
      Coord12(b[0], b[1]) == p.x &&
      Coord12(b[2], b[3]) == p.y
  {
    var b := EncodeRecord(p, pad0, pad2);
    var e := p.event.Code();
    assert b[0] as int == e * 64 + pad0 * 16 + p.x / 256;
    assert EventField(b[0]) == e;
    assert (b[0] as int) % 16 == p.x / 256;
    assert (b[2] as int) % 16 == p.y / 256;
    EventCodeRoundTrip(p.event);
  }

  /** A report the controller can send: at most 5 points, 12-bit coordinates. */
  predicate Sendable(r: Report)
  {
    WellFormed(r) && r.numPoints <= 5 &&
    forall k :: 0 <= k < MaxPoints ==> r.points[k].x <= 0x0FFF && r.points[k].y <= 0x0FFF
  }

  /**
   * Byte `j` of the staging buffer holding `r`: the gesture, the count, then
   * for each slot its 4-byte record followed by 2 reserved bytes. Every bit
   * the decoder does not read (the reserved bytes, bits 5-4 of a record's
   * first byte, the top nibble of its third) is taken from `fill`.
   */
  function WireByte(r: Report, fill: Staging, j: nat): Byte
    requires Sendable(r) && j < StagingSize
  {
    if j == 0 then r.gesture
    else if j == 1 then r.numPoints
    else
      var k, m := (j - 2) / 6, (j - 2) % 6;
      var off := 2 + 6 * k;
      if m < 4 then EncodeRecord(r.points[k], fill[off] as int / 16 % 4, fill[off + 2] as int / 16)[m]
      else fill[j]
  }

  /** The staging buffer holding `r` as the controller lays it out, padded from `fill`. */
  function EncodeReport(r: Report, fill: Staging): (buf: Staging)
    requires Sendable(r)
    ensures buf[0] == r.gesture && buf[1] == r.numPoints
  {
    seq(StagingSize, j requires 0 <= j < StagingSize => WireByte(r, fill, j))
  }

  /** Byte `m` of slot `k`'s record sits at the offset the decoder reads. */
  lemma EncodeReportLayout(r: Report, fill: Staging, k: nat, m: nat)
    requires Sendable(r) && k < MaxPoints && m < 4
    ensures var off := RecordOffset(k);
      EncodeReport(r, fill)[off + m] ==
        EncodeRecord(r.points[k], fill[off] as int / 16 % 4, fill[off + 2] as int / 16)[m]
  {
    var j := RecordOffset(k) + m;
    assert (j - 2) / 6 == k && (j - 2) % 6 == m;
  }

  /** The two reserved bytes after slot `k`'s record are the filler's. */
  lemma EncodeReportReserved(r: Report, fill: Staging, k: nat)
    requires Sendable(r) && k < MaxPoints
    ensures var off := RecordOffset(k);
      off + 5 < StagingSize ==>
        EncodeReport(r, fill)[off + 4] == fill[off + 4] &&
        EncodeReport(r, fill)[off + 5] == fill[off + 5]
  {
    var off := RecordOffset(k);
    if off + 5 < StagingSize {
      assert (off + 4 - 2) / 6 == k && (off + 4 - 2) % 6 == 4;
      assert (off + 5 - 2) / 6 == k && (off + 5 - 2) % 6 == 5;
    }
  }

  /**
   * What a record holding `prior` contains after decoding `r`: gesture,
   * count and events from `r`, coordinates from `r` for the active slots and
   * from `prior` for the others.
   */
  function Received(prior: Report, r: Report): Report
    requires WellFormed(prior) && Sendable(r)
  {
    Report(r.gesture, r.numPoints,
      seq(MaxPoints, k requires 0 <= k < MaxPoints =>
        if k < r.numPoints as int then r.points[k]
        else prior.points[k].(event := r.points[k].event)))
  }

  /** Decoding the controller's layout of `r` sets slot `k` as Received says. */
  lemma DecodeEncodeSlot(prior: Report, r: Report, fill: Staging, k: nat)
    requires WellFormed(prior) && Sendable(r) && k < MaxPoints
    ensures Retrieve(prior, Fetched(EncodeReport(r, fill))).after.points[k] == Received(prior, r).points[k]
  {
    var buf := EncodeReport(r, fill);
    var off := RecordOffset(k);
    var p := r.points[k];
    var rec := EncodeRecord(p, fill[off] as int / 16 % 4, fill[off + 2] as int / 16);
    DecodeSlotsClosedForm(prior.points, buf, buf[1], 0);
    assert Retrieve(prior, Fetched(buf)).after.points[k] == SlotAfter(prior.points[k], buf, buf[1], k);
    EncodeReportLayout(r, fill, k, 0);
    EncodeReportLayout(r, fill, k, 1);
    EncodeReportLayout(r, fill, k, 2);
    EncodeReportLayout(r, fill, k, 3);
    RecordRoundTrip(p, fill[off] as int / 16 % 4, fill[off + 2] as int / 16);
    assert EventOf(EventCode(buf, k)) == p.event;
    assert CoordX(buf, k) == p.x && CoordY(buf, k) == p.y;
  }

  /**
   * Decoding the controller's layout of `r` succeeds and gives `r` back,
   * whatever the bits the decoder does not read hold.
   */
  lemma DecodeEncode(prior: Report, r: Report, fill: Staging)
    requires WellFormed(prior) && Sendable(r)
    ensures Retrieve(prior, Fetched(EncodeReport(r, fill))) == Outcome(Ok, Received(prior, r))
  {
    var o := Retrieve(prior, Fetched(EncodeReport(r, fill)));
    RetrieveSuccess(prior, EncodeReport(r, fill));
    forall k | 0 <= k < MaxPoints
      ensures o.after.points[k] == Received(prior, r).points[k]
    {
      DecodeEncodeSlot(prior, r, fill, k);
    }
    assert o.after.points == Received(prior, r).points;
  }

  /**
   * A query for two points asks for 12 bytes; a report with two touches,
   * (100, 200) put down and (300, 400) in contact, and three lifted slots,
   * sent with every unread bit set, decodes to those touches and events.
   */
  lemma TwoTouchExample(prior: Report)
    requires WellFormed(prior)
    ensures QueryTouchInfo(2) == Some(ReadRequest(0x38, 0x01, 12))
    ensures var sent := Report(0, 2, [TouchCoor(100, 200, PutDown), TouchCoor(300, 400, Contact),
                                      TouchCoor(0, 0, PutUp), TouchCoor(0, 0, PutUp), TouchCoor(0, 0, PutUp)]);
      var o := Retrieve(prior, Fetched(EncodeReport(sent, seq(StagingSize, _ => 0xFF))));
      o.rc == Ok && o.after.gesture == 0 && o.after.numPoints == 2 &&
      o.after.points[0] == TouchCoor(100, 200, PutDown) &&
      o.after.points[1] == TouchCoor(300, 400, Contact) &&
      o.after.points[2] == prior.points[2].(event := PutUp) &&
      o.after.points[3] == prior.points[3].(event := PutUp) &&
      o.after.points[4] == prior.points[4].(event := PutUp)
  {
    var sent := Report(0, 2, [TouchCoor(100, 200, PutDown), TouchCoor(300, 400, Contact),
                              TouchCoor(0, 0, PutUp), TouchCoor(0, 0, PutUp), TouchCoor(0, 0, PutUp)]);
    assert Sendable(sent);
    DecodeEncode(prior, sent, seq(StagingSize, _ => 0xFF));
    var got := Received(prior, sent);
    assert got.points[0] == sent.points[0] && got.points[1] == sent.points[1];
    assert got.points[2] == prior.points[2].(event := PutUp);
    assert got.points[3] == prior.points[3].(event := PutUp);
    assert got.points[4] == prior.points[4].(event := PutUp);
  }

  /**
   * Single fields: bytes 0x01, 0x23 give coordinate 0x123 = 291; a first byte
   * 0b11000101 carries the reserved event 3, 0b00000101 the put-down event 0.
   */
  lemma FieldExamples()
    ensures Coord12(0x01, 0x23) == 291
    ensures EventOf(EventField(0xC5)) == Invalid
    ensures EventOf(EventField(0x05)) == PutDown
  {
  }
}
