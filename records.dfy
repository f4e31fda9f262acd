/** EDIGEO records as the lexer hands them to the reader, the errors the reader
    raises, and the `safeGet*` accessors that read a record's first value. */
module EdigeoRecords {
  import opened EdigeoValues

  /** One lexed line: a record name such as "BOM" or "RID", the declared
      length and the values in file order. */
  datatype Record = Record(name: string, length: int, values: seq<string>)

  /** What reading a file or a field can fail with. */
  datatype Error =
    | MalformedRecord(line: string)           // the lexer rejected a non-empty line
    | UnexpectedFirstRecord(record: Record)   // the first record is not BOM
    | UnexpectedCharsetRecord(record: Record) // another record where CSE belongs
    | UnknownCharset(record: Record)          // the charset resolver rejected CSE's value
    | RecordAfterEndOfFile(record: Record)    // a record after EOM
    | BlockCreationFailed(record: Record)     // the block factory threw on RTY's type code
    | OrphanRecord(record: Record)            // a body record with no current block
    | UnexpectedRecord(record: Record)        // a record the current block rejects
    | MissingValue(record: Record)            // the first value of an empty value list
    | InvalidNumber(record: Record)           // the first value is not a Java int
    | InvalidDate(record: Record)             // the first value is not a yyyyMMdd date

  datatype Result<T> = Ok(value: T) | Err(error: Error)

  /** A value together with the diagnostic line logged while reading it. */
  datatype Logged<T> = Logged(value: T, log: Option<string>)

  /** The accessors look at the declared length, never at the value count. */
  predicate Declared(r: Record) {
    r.length > 0
  }

  /** `safeGet`: the first value, or absent when the declared length is not positive. */
  function SafeGet(r: Record): (res: Result<Option<string>>)
    ensures res.Err? ==> res.error == MissingValue(r)
    ensures res.Err? <==> Declared(r) && |r.values| == 0
    ensures res == Ok(None) <==> !Declared(r)
    ensures Declared(r) && |r.values| > 0 ==> res == Ok(Some(r.values[0]))
  {
    if !Declared(r) then Ok(None)
    else if |r.values| == 0 then Err(MissingValue(r))
    else Ok(Some(r.values[0]))
  }

  /** `safeGetInt`: the first value read by `Integer.parseInt`, or 0. */
  function SafeGetInt(r: Record): (res: Result<int>)
    ensures res.Ok? ==> MinInt <= res.value <= MaxInt
    ensures res.Err? ==> res.error == MissingValue(r) || res.error == InvalidNumber(r)
  {
    if !Declared(r) then Ok(0)
    else if |r.values| == 0 then Err(MissingValue(r))
    else match ParseInt(r.values[0])
      case None => Err(InvalidNumber(r))
      case Some(n) => Ok(n)
  }

  /** `safeGetDate`: the first value read with the "yyyyMMdd" pattern, or absent. */
  function SafeGetDate(r: Record): (res: Result<Option<Date>>)
    ensures res.Ok? && res.value.Some? ==> ValidDate(res.value.value) && FourDigitYear(res.value.value)
    ensures res.Err? ==> res.error == MissingValue(r) || res.error == InvalidDate(r)
  {
    if !Declared(r) then Ok(None)
    else if |r.values| == 0 then Err(MissingValue(r))
    else match ParseDate(r.values[0])
      case None => Err(InvalidDate(r))
      case Some(d) => Ok(Some(d))
  }

  /** `safeGetAndLog`: what `safeGet` returns, and the line "msg: value" logged
      whenever a value is present. */
  function SafeGetAndLog(r: Record, msg: string): (res: Result<Logged<Option<string>>>)
    ensures res.Ok? <==> SafeGet(r).Ok?
    ensures res.Ok? ==> res.value.value == SafeGet(r).value
    ensures res.Err? ==> res.error == SafeGet(r).error
    ensures res.Ok? ==> (res.value.log.Some? <==> res.value.value.Some?)
    ensures res.Ok? && res.value.value.Some? ==> res.value.log == Some(msg + ": " + res.value.value.value)
  {
    if Declared(r) then
      if |r.values| == 0 then Err(MissingValue(r))
      else
        var v := r.values[0];
        Ok(Logged(Some(v), Some(msg + ": " + v)))
    else Ok(Logged(None, None))
  }

  /** `safeGetDateAndLog`: what `safeGetDate` returns, and the line
      "msg: yyyy-MM-dd" logged whenever a date is present. */
  function SafeGetDateAndLog(r: Record, msg: string): (res: Result<Logged<Option<Date>>>)
    ensures res.Ok? <==> SafeGetDate(r).Ok?
    ensures res.Ok? ==> res.value.value == SafeGetDate(r).value
    ensures res.Err? ==> res.error == SafeGetDate(r).error
    ensures res.Ok? ==> (res.value.log.Some? <==> res.value.value.Some?)
    ensures res.Ok? && res.value.value.Some? ==> res.value.log == Some(msg + ": " + IsoString(res.value.value.value))
  {
    if Declared(r) then
      if |r.values| == 0 then Err(MissingValue(r))
      else match ParseDate(r.values[0])
        case None => Err(InvalidDate(r))
        case Some(v) => Ok(Logged(Some(v), Some(msg + ": " + IsoString(v))))
    else Ok(Logged(None, None))
  }

  /** With a declared length that is not positive every accessor gives its default (absent, or
      0 for integers), whatever values the record carries. */
  lemma AbsentDefaults(r: Record)
    requires !Declared(r)
    ensures SafeGet(r) == Ok(None) && SafeGetInt(r) == Ok(0) && SafeGetDate(r) == Ok(None)
  {
  }

  /** The typed accessors decode exactly the value `safeGet` returns, fail on
      a missing value exactly when `safeGet` does, and report a present value
      their parser rejects as an invalid number or date of that record. */
  lemma TypedAccessorsDecodeSafeGet(r: Record)
    ensures SafeGet(r).Err? <==> SafeGetInt(r) == Err(MissingValue(r))
    ensures SafeGet(r).Err? <==> SafeGetDate(r) == Err(MissingValue(r))
    ensures SafeGet(r) == Ok(None) ==> SafeGetInt(r) == Ok(0) && SafeGetDate(r) == Ok(None)
    ensures SafeGet(r).Ok? && SafeGet(r).value.Some? ==>
      var v := SafeGet(r).value.value;
      (SafeGetInt(r).Ok? <==> ParseInt(v).Some?)
      && (SafeGetInt(r).Ok? ==> SafeGetInt(r).value == ParseInt(v).value)
      && (SafeGetDate(r).Ok? <==> ParseDate(v).Some?)
      && (SafeGetDate(r).Ok? ==> SafeGetDate(r).value == Some(ParseDate(v).value))
    ensures SafeGet(r).Ok? && SafeGetInt(r).Err? ==> SafeGetInt(r) == Err(InvalidNumber(r))
    ensures SafeGet(r).Ok? && SafeGetDate(r).Err? ==> SafeGetDate(r) == Err(InvalidDate(r))
  {
  }

  /** An integer field written by `Integer.toString` reads back as that integer. */
  lemma IntFieldRoundTrip(name: string, n: int)
    requires MinInt <= n <= MaxInt
    ensures SafeGetInt(Record(name, 1, [IntToDecimal(n)])) == Ok(n)
  {
    ParseIntRoundTrip(n);
  }

  /** A date field written with the "yyyyMMdd" pattern reads back as that date. */
  lemma DateFieldRoundTrip(name: string, d: Date)
    requires ValidDate(d) && FourDigitYear(d)
    ensures SafeGetDate(Record(name, 1, [FormatBasic(d)])) == Ok(Some(d))
  {
    ParseDateRoundTrip(d);
  }
}
