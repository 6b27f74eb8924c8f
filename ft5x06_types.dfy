// Types of the FT5x06 touch-controller driver: the constants, enumerations and
// records that src/ft5x06.h declares.

module Ft5x06Types {

  datatype Option<T> = None | Some(value: T)

  /** An unsigned char of the driver and one byte on the I2C wire. */
  newtype Byte = b: int | 0 <= b < 0x100

  /** Fixed I2C address of the controller (FT5X06_I2C_ADDR). */
  const I2cAddress: Byte := 0x38

  /** Register at which the touch data (gesture, count, point records) begins. */
  const TouchDataRegister: Byte := 0x01

  /** Number of point slots in a touchInfo record. */
  const MaxPoints: nat := 5

  /** ft5x06_touchEvent: the 2-bit event kind of one point slot. */
  datatype TouchEvent = PutDown | PutUp | Contact | Invalid
  {
    /** The enumerator's value in the C enumeration. */
    function Code(): (c: int)
      ensures 0 <= c <= 3
    {
      match this
      case PutDown => 0
      case PutUp => 1
      case Contact => 2
      case Invalid => 3
    }
  }

  /** The enumerator whose value is `code`; every 2-bit code names one. */
  function EventOf(code: int): (e: TouchEvent)
    requires 0 <= code <= 3
    ensures e.Code() == code
  {
    if code == 0 then PutDown
    else if code == 1 then PutUp
    else if code == 2 then Contact
    else Invalid
  }

  /**
   * touchCoor: one point slot. `x` and `y` are C unsigned ints; the decoder
   * only ever stores 12-bit values in them, so no width limit is modelled.
   */
  datatype TouchCoor = TouchCoor(x: nat, y: nat, event: TouchEvent)

  /** The value held by a touchInfo record: gesture, point count and the slots. */
  datatype Report = Report(gesture: Byte, numPoints: Byte, points: seq<TouchCoor>)

  /** A report whose slot sequence has the fixed length of the C array. */
  predicate WellFormed(r: Report)
  {
    |r.points| == MaxPoints
  }

  /** ft5x06_retrieveTouchInfoRetVal. */
  datatype RetVal = Ok | ErrI2c | NullArg | ErrNumPoints | ErrEvent
  {
    /** The enumerator's value in the C enumeration. */
    function Code(): (c: int)
      ensures 0 <= c <= 4
      ensures c == 0 <==> this == Ok
    {
      match this
      case Ok => 0
      case ErrI2c => 1
      case NullArg => 2
      case ErrNumPoints => 3
      case ErrEvent => 4
    }
  }

  /** Each event value converts back to the enumerator it came from. */
  lemma EventCodeRoundTrip(e: TouchEvent)
    ensures EventOf(e.Code()) == e
  {
  }

  /**
   * struct touchInfo, a caller-owned record the decoder fills in place.
   * Its five slots form a fixed-size array embedded in the record.
   */
  class TouchInfo {
    var gesture: Byte
    var numPoints: Byte
    const points: array<TouchCoor>

    ghost predicate Valid()
      reads this
    {
      points.Length == MaxPoints
    }

    /** The record's current contents as a value. */
    ghost function Value(): (r: Report)
      reads this, points
      ensures WellFormed(r) <==> Valid()
    {
      Report(gesture, numPoints, points[..])
    }

    /** A record whose initial (caller-chosen) contents are `init`. */
    constructor (init: Report)
      requires WellFormed(init)
      ensures Valid() && fresh(points)
      ensures Value() == init
    {
      gesture := init.gesture;
      numPoints := init.numPoints;
      points := new TouchCoor[MaxPoints](i requires 0 <= i < MaxPoints => init.points[i]);
      new;
      assert points[..] == init.points;
    }
  }
}
