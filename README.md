# FT5x06 touch-controller driver — a Dafny model

The FT5x06 is a capacitive touch controller on an I2C bus. Its driver does two
things:

- `ft5x06_queryTouchInfo` asks the controller for the touch data of a given
  number of points. It issues one read request to address 0x38, register
  0x01, for a length computed from the point count.
- `ft5x06_retrieveTouchInfo` takes the received bytes into a 30-byte staging
  buffer and decodes them into a caller-owned `touchInfo` record. The record
  holds a gesture byte, a point count and five point slots, each with X, Y
  and an event. Bytes 0 and 1 hold the gesture and the count; the record of
  slot `i` starts at byte `2 + 6i`. That record's first byte carries the
  2-bit event in its top bits and the high nibble of X in its low bits; then
  comes the low byte of X, then the high nibble and the low byte of Y.

The model has four modules:

- `Ft5x06Types` (`ft5x06_types.dfy`) holds the header's constants and the
  event and return-code enumerations. It also has `TouchCoor`, a `Report`
  value, and the `TouchInfo` class: a record with mutable `gesture` and
  `numPoints` fields and a five-element array of slots.
- `I2c` (`i2c.dfy`) is the transport, seen only from the outside. A read
  request is a value `(address, register, length)`. A `Transport` object
  delivers either a failure or 30 arbitrary bytes, and it counts how often it
  was asked.
- `Ft5x06` (`ft5x06.dfy`) holds the query as a function. It also holds the
  wire-format fields, and the decoder specified as a function (`Retrieve`),
  with lemmas on its outcomes for every input. Finally it has the decoder
  itself as an imperative method, `RetrieveTouchInfo`. That method updates
  the record in place with the C function's order of writes and early
  returns, apart from the two differences listed under "Left out". It is
  proved equal to `Retrieve`.
- `Ft5x06Wire` (`ft5x06_wire.dfy`) is the controller's side of the format: how
  a report is laid out in the buffer. Decoding that layout gives the report
  back, with the same offsets, masks and shifts. This holds whatever the bits
  the decoder does not read contain.

On a point count above 5 the decoder has already written the gesture and
the count into the record when it rejects the count (src/ft5x06.c:47-51);
only the slots stay untouched (`RetrieveBadCount`).

## Model

| member | source | states |
|---|---|---|
| Ft5x06Types.TouchEvent.Code | src/ft5x06.h:74-90 | every event enumerator has a value in 0..3 |
| Ft5x06Types.EventOf | src/ft5x06.h:74-90 | every 2-bit code names the enumerator with exactly that value |
| Ft5x06Types.EventCodeRoundTrip | src/ft5x06.h:74-90 | converting an enumerator to its value and back gives the same enumerator |
| Ft5x06Types.RetVal.Code | src/ft5x06.h:145-163 | return codes are 0..4, and 0 is exactly the OK code |
| Ft5x06Types.TouchInfo.constructor | src/ft5x06.h:118-131 | a record has exactly five slots and holds the caller's initial contents |
| I2c.Transport.GetData | src/ft5x06.c:44-45 | a fetch delivers what the bus received (a failure or 30 bytes) and counts as one fetch |
| Ft5x06.QueryTouchInfo | src/ft5x06.c:21-35 | no request for 0 points; otherwise one request to address 0x38, register 0x01, of exactly 6n bytes |
| Ft5x06.QueryFitsStaging | src/ft5x06.c:26-33 | for 1 to 5 points the request is 6 to 30 bytes, within the 30-byte staging buffer |
| Ft5x06.QueryCoversRequestedRecords | src/ft5x06.c:26-33 | the request ends exactly after the last requested slot's record; a slot's record lies inside it if and only if the slot was requested |
| Ft5x06.RecordOffset | src/ft5x06.c:54-73 | every byte a slot record occupies lies at index 2..29; the last slot's record ends at byte 29 |
| Ft5x06.EventField | src/ft5x06.c:59-61 | the event code is 0..3 and is the byte's top two bits |
| Ft5x06.EventFieldIsShiftMask | src/ft5x06.c:59 | the event code equals the shift-by-6 and mask-by-3 of the byte |
| Ft5x06.Coord12 | src/ft5x06.c:68-72 | a coordinate is at most 4095; its high byte is the low nibble of the first byte and its low byte is the second byte |
| Ft5x06.Coord12IsShiftOr | src/ft5x06.c:68-72 | the coordinate equals the masked nibble shifted by 8, or-ed with the low byte |
| Ft5x06.EventCode | src/ft5x06.c:59 | slot i's event code, read from byte 2 + 6i, is in 0..3 |
| Ft5x06.CoordX | src/ft5x06.c:68-69 | slot i's X, read from bytes 2 + 6i and 3 + 6i, is at most 4095 |
| Ft5x06.CoordY | src/ft5x06.c:71-72 | slot i's Y, read from bytes 4 + 6i and 5 + 6i, is at most 4095 |
| Ft5x06.DecodeSlots | src/ft5x06.c:54-73 | the slot loop from slot i leaves five slots and does not change the slots before i |
| Ft5x06.DecodeSlotsClosedForm | src/ft5x06.c:54-73 | the slot loop never reports an event error, and each slot from i on ends up with its record's event, plus its coordinates if active |
| Ft5x06.Retrieve | src/ft5x06.c:37-76 | decoding keeps the record at five slots |
| Ft5x06.RetrieveTransportFailure | src/ft5x06.c:42-45 | a failed fetch returns the I2C error code and leaves the record unchanged |
| Ft5x06.RetrieveBadCount | src/ft5x06.c:47-51 | a count byte above 5 returns the point-count error; gesture and count are already bytes 0 and 1 and no slot changes |
| Ft5x06.RetrieveSuccess | src/ft5x06.c:47-75 | a count of at most 5 returns OK, with gesture = byte 0 and count = byte 1. Every slot gets its event from byte 2 + 6k. Active slots get X and Y from their record; inactive slots keep their X and Y |
| Ft5x06.RetrieveReturnCodes | src/ft5x06.c:39-75 | I2C error if and only if the fetch fails; point-count error if and only if the count byte exceeds 5; OK otherwise; the event error and the null-argument code never come from a decode |
| Ft5x06.RetrieveCoordinatesBounded | src/ft5x06.c:50-72 | after a successful decode the count is at most 5, and every active slot's X and Y are at most 4095 |
| Ft5x06.RetrieveTouchInfo | src/ft5x06.c:37-76 | a null record returns the null-argument code before any fetch. Otherwise exactly one fetch happens, and the return code and the record's new contents are what `Retrieve` gives for the old contents and the received bytes |
| Ft5x06Wire.EncodeRecord | src/ft5x06.c:59-72 | the controller packs a slot into a 4-byte record, with arbitrary padding in the bits the decoder does not read |
| Ft5x06Wire.RecordRoundTrip | src/ft5x06.c:59-72 | decoding a packed record gives back its event, X and Y, whatever its padding bits |
| Ft5x06Wire.EncodeReport | src/ft5x06.c:47-49 | the controller's layout puts the gesture in byte 0 and the count in byte 1 |
| Ft5x06Wire.EncodeReportLayout | src/ft5x06.c:54-73 | byte m of slot k's record sits at the offset the decoder reads for slot k |
| Ft5x06Wire.EncodeReportReserved | src/ft5x06.c:54-73 | the two reserved bytes after each record, which the decoder skips, hold the filler's bytes |
| Ft5x06Wire.DecodeEncodeSlot | src/ft5x06.c:54-73 | decoding the controller's layout sets each slot as sent (active) or to its event only (inactive) |
| Ft5x06Wire.DecodeEncode | src/ft5x06.c:37-76 | decoding the controller's layout of any sendable report returns OK, whatever the unread bits hold. The result has the report's gesture, count and events, the active slots' coordinates, and the prior coordinates elsewhere |
| Ft5x06Wire.TwoTouchExample | src/ft5x06.c:21-76 | a query for 2 points asks for 12 bytes. Two touches at (100, 200) put down and (300, 400) in contact, sent with every unread bit set, decode with gesture 0 and count 2 to exactly those touches. Slots 2 to 4 report put up and keep their prior coordinates |
| Ft5x06Wire.FieldExamples | src/ft5x06.c:59-72 | bytes 0x01, 0x23 give coordinate 291; first bytes 0xC5 and 0x05 carry the reserved and put-down events |

## Left out

- The I2C transport's implementation (`i2c_gets`, `i2c_getData`): i2cDriver.h is not part of this model. A request is only recorded as a value, and a fetch yields a failure or arbitrary bytes.
- The interrupt-driven protocol (query, wait for the controller's interrupt, retrieve). The caller sequences it over asynchronous hardware; the driver has no logic for it.
- Gesture semantics: the gesture byte is copied unchecked, as in the driver, so the gesture enumeration (src/ft5x06.h:54-69) is not modelled.
- Ft5x06.QueryTouchInfo: the length is computed over unbounded integers. The C `int` expression overflows when the point count's absolute value exceeds 357913941. The parameter type of `i2c_gets`, and what a negative length becomes there, are not known to this model.
- Ft5x06.RetrieveTouchInfo: checks the event code before storing it, whereas the driver stores the raw code first and then tests it. The model's event field is the `TouchEvent` datatype, which has no value above 3. The test never succeeds (`EventField` ensures the code is in 0..3), so the two orders give the same result.
- Ft5x06.RetrieveTouchInfo: writes each coordinate in one step. The driver writes the shifted high nibble first and or-s in the low byte second; nothing reads the intermediate value.
- Ft5x06.EventField and Ft5x06.Coord12: computed arithmetically on byte values. Their equality with the driver's shifts and masks is proved separately on 8-bit and 32-bit vectors (`EventFieldIsShiftMask`, `Coord12IsShiftOr`).
- `x` and `y` are unbounded naturals, not the C `unsigned int`. The decoder only stores values up to 4095, so the width never matters.
- The decoder reads the event byte of every slot, including slots beyond the queried length. Those bytes are whatever the staging buffer holds. `QueryCoversRequestedRecords` states which records the request covers; what the controller returns beyond that is not modelled.
