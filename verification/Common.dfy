/** Small types shared by every module: optional values and already-parsed form fields. */
module Common {

  datatype Option<+T> = None | Some(value: T)

  /** A numeric form field after parsing. Quantities and money are in hundredths. */
  datatype NumField = Absent | Blank | Malformed | Num(n: int)

  /** A date form field after parsing; days are counted from an arbitrary origin. */
  datatype DateField = NoDate | BadDate | On(day: int)
}
