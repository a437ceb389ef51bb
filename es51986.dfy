/**
 * The interface of the external `es51986` decoder that the program consumes: a decoded record
 * (`Output`), its derived primary value (`OutputValue`) and the unit enumerations. The decoder itself
 * is not part of this model; `GetValue` stands for `Output::get_value`, whose result is carried in the
 * record.
 */
module Es51986 {
  import opened Prelude

  datatype PrefixUnit = Mega | Kilo | None | Millis | Micro | Nano

  datatype BaseUnit = Ampere | Volt | Ohm | Hearts | Farad

  datatype ValueUnit = ValueUnit(prefixUnit: PrefixUnit, baseUnit: BaseUnit)

  /** The primary value of a record: its digits as the meter shows them, and its unit. */
  datatype OutputValue = OutputValue(digits: string, valueUnit: ValueUnit)

  /** A decoded record: the frame it was decoded from and, when it has one, its primary value. */
  datatype Output = Output(frame: seq<byte>, primary: Prelude.Option<OutputValue>)

  /** `Output::get_value`. */
  function GetValue(o: Output): Prelude.Option<OutputValue> {
    o.primary
  }
}
