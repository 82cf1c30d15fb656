/**
 * The collaborators behind bcd.h and tai.h. Neither header is part of this model, so
 * their operations are supplied as function values: BCD validity and digit decoding,
 * conversion between calendar dates and the continuous TAI microsecond counter, the
 * day of the year, and the TAI-UTC difference in whole seconds at an instant.
 */
module Clock {
  import opened Bytes

  /** The calendar fields of tai.h's Date. */
  datatype Date = Date(year: int, month: int, day: int, hour: int, min: int, sec: int, usec: int)

  /** bcd_valid (over the six bytes of a timestamp) and bcd_int (one byte). */
  datatype Bcd = Bcd(valid: seq<byte> -> bool, toInt: byte -> int)

  /** tai_time, tai_date (with its day-of-year output) and tai_utc_diff. */
  datatype Tai = Tai(time: Date -> int, date: int -> Date, yearDay: int -> int, utcDiff: int -> int)

  /** Byte positions of the six BCD fields of a 6D6 timestamp. */
  const BcdYear := 0
  const BcdMonth := 1
  const BcdDay := 2
  const BcdHour := 3
  const BcdMinute := 4
  const BcdSecond := 5

  /** bcd_time: a six-byte BCD timestamp (years counted from 2000) as a TAI instant. */
  function BcdTime(bcd: Bcd, tai: Tai, s: seq<byte>): int
    requires |s| == 6
  {
    tai.time(Date(bcd.toInt(s[BcdYear]) + 2000, bcd.toInt(s[BcdMonth]), bcd.toInt(s[BcdDay]),
                  bcd.toInt(s[BcdHour]), bcd.toInt(s[BcdMinute]), bcd.toInt(s[BcdSecond]), 0))
  }
}
