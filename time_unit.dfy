/** `TimeUnit`: the units a duration may be expressed in, and their wire strings. */
module TimeUnits {
  import opened Wrappers

  /** The seven members, in declaration order (underlying values 0 to 6). */
  datatype TimeUnit = Nanoseconds | Microseconds | Millisecond | Second | Minute | Hour | Day

  datatype ArgumentOutOfRange = ArgumentOutOfRange(value: int)

  /** The `EnumMember` value each member is annotated with. */
  function EnumMemberValue(u: TimeUnit): string {
    match u
    case Nanoseconds => "nanos"
    case Microseconds => "micros"
    case Millisecond => "ms"
    case Second => "s"
    case Minute => "m"
    case Hour => "h"
    case Day => "d"
  }

  /** The member's underlying integer value. */
  function Ordinal(u: TimeUnit): (v: nat)
    ensures v < 7
  {
    match u
    case Nanoseconds => 0
    case Microseconds => 1
    case Millisecond => 2
    case Second => 3
    case Minute => 4
    case Hour => 5
    case Day => 6
  }

  /** The member an integer names, if any: a C# enum variable may hold any integer. */
  function FromOrdinal(v: int): (r: Option<TimeUnit>)
    ensures r.Some? <==> 0 <= v < 7
    ensures r.Some? ==> Ordinal(r.value) == v
  {
    if v == 0 then Some(Nanoseconds)
    else if v == 1 then Some(Microseconds)
    else if v == 2 then Some(Millisecond)
    else if v == 3 then Some(Second)
    else if v == 4 then Some(Minute)
    else if v == 5 then Some(Hour)
    else if v == 6 then Some(Day)
    else None
  }

  /** `GetStringValue`: the switch gives each member the string it is annotated with. */
  function GetStringValue(u: TimeUnit): (s: string)
    ensures s == EnumMemberValue(u)
  {
    match u
    case Nanoseconds => "nanos"
    case Microseconds => "micros"
    case Millisecond => "ms"
    case Second => "s"
    case Minute => "m"
    case Hour => "h"
    case Day => "d"
  }

  /** `GetStringValue` on the raw enum value: anything but the seven members
      reaches the `default` branch and throws `ArgumentOutOfRangeException`. */
  function GetStringValueOf(v: int): (r: Result<string, ArgumentOutOfRange>)
    ensures r.Failure? <==> !(0 <= v < 7)
    ensures r.Failure? ==> r.error == ArgumentOutOfRange(v)
    ensures r.Success? ==> exists u :: Ordinal(u) == v && r.value == GetStringValue(u)
  {
    match FromOrdinal(v)
    case Some(u) => Success(GetStringValue(u))
    case None => Failure(ArgumentOutOfRange(v))
  }

  /** Distinct units have distinct wire strings. */
  lemma GetStringValueInjective(a: TimeUnit, b: TimeUnit)
    ensures GetStringValue(a) == GetStringValue(b) ==> a == b
  {
  }

  /** Every wire string is non-empty lower-case ASCII. */
  lemma GetStringValueIsLowerAscii(u: TimeUnit)
    ensures |GetStringValue(u)| > 0
    ensures forall i :: 0 <= i < |GetStringValue(u)| ==> 'a' <= GetStringValue(u)[i] <= 'z'
  {
  }
}
