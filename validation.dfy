// Request validation for the API routes: required fields, numeric fields and the
// numeric id taken from a route parameter. A failed check throws an `APIError` with
// status 400 and code `VALIDATION_ERROR`; here the throw is a `Thrown` result.

module Validation {
  import opened Strings
  import opened JsNumbers

  /** The JavaScript values a request body field can hold. */
  datatype JsValue = Undefined | Null | Text(s: string) | Number(x: real) | Bool(b: bool) | Obj

  datatype ApiError = ApiError(message: string, status: int, code: string)

  datatype Checked<T> = Ok(value: T) | Thrown(error: ApiError)

  const ValidationCode: string := "VALIDATION_ERROR"

  /** `data[field]`: an absent key reads as `undefined`. */
  function Field(data: map<string, JsValue>, field: string): JsValue
  {
    if field in data then data[field] else Undefined
  }

  /** `=== undefined || === null || === ""`; `0` and `false` are present. */
  predicate Missing(v: JsValue)
  {
    v == Undefined || v == Null || v == Text("")
  }

  /** Position of the first required field that is missing. */
  function FirstMissing(data: map<string, JsValue>, fields: seq<string>): (r: Option<nat>)
    ensures r.Some? ==> r.value < |fields| && Missing(Field(data, fields[r.value])) &&
                        forall j :: 0 <= j < r.value ==> !Missing(Field(data, fields[j]))
    ensures r.None? ==> forall j :: 0 <= j < |fields| ==> !Missing(Field(data, fields[j]))
  {
    if fields == [] then None
    else if Missing(Field(data, fields[0])) then Some(0)
    else match FirstMissing(data, fields[1..])
      case None => None
      case Some(k) => Some(k + 1)
  }

  function MissingFieldError(field: string): ApiError
  {
    ApiError("Missing required field: " + field, 400, ValidationCode)
  }

  /** `validateRequiredFields`: the loop throws at the first missing field, in list order. */
  method ValidateRequiredFields(data: map<string, JsValue>, fields: seq<string>) returns (r: Option<ApiError>)
    ensures r.None? <==> forall j :: 0 <= j < |fields| ==> !Missing(Field(data, fields[j]))
    ensures r.Some? ==> exists k :: 0 <= k < |fields| && FirstMissing(data, fields) == Some(k) &&
                                     r.value == MissingFieldError(fields[k])
  {
    for i := 0 to |fields|
      invariant forall j :: 0 <= j < i ==> !Missing(Field(data, fields[j]))
    {
      if Missing(Field(data, fields[i])) {
        FirstMissingIs(data, fields, i);
        return Some(MissingFieldError(fields[i]));
      }
    }
    return None;
  }

  lemma {:induction false} FirstMissingIs(data: map<string, JsValue>, fields: seq<string>, k: nat)
    requires k < |fields| && Missing(Field(data, fields[k]))
    requires forall j :: 0 <= j < k ==> !Missing(Field(data, fields[j]))
    ensures FirstMissing(data, fields) == Some(k)
  {
    if k > 0 {
      FirstMissingIs(data, fields[1..], k - 1);
    }
  }

  /** Fields holding numbers or booleans, `0` and `false` included, always pass. */
  lemma NumbersAndBooleansArePresent(data: map<string, JsValue>, fields: seq<string>)
    requires forall j :: 0 <= j < |fields| ==> fields[j] in data && (data[fields[j]].Number? || data[fields[j]].Bool?)
    ensures FirstMissing(data, fields).None?
  {
    assert forall j :: 0 <= j < |fields| ==> !Missing(Field(data, fields[j]));
  }

  /** `Number(value)`; `None` is NaN. A plain object converts to NaN. */
  function NumberOfValue(v: JsValue): Option<real>
  {
    match v
    case Undefined => None
    case Null => Some(0.0)
    case Text(s) => NumberOf(s)
    case Number(x) => Some(x)
    case Bool(b) => Some(if b then 1.0 else 0.0)
    case Obj => None
  }

  /** `validateNumericField`. */
  function ValidateNumericField(v: JsValue, fieldName: string): (r: Option<ApiError>)
    ensures r.Some? <==> NumberOfValue(v).None?
    ensures r.Some? ==> r.value == ApiError(fieldName + " must be a number", 400, ValidationCode)
  {
    if NumberOfValue(v).None? then Some(ApiError(fieldName + " must be a number", 400, ValidationCode)) else None
  }

  /** A numeral passes, blank text passes (it converts to 0), anything else is rejected. */
  lemma NumericFieldOfText(s: string, fieldName: string)
    ensures IsBlank(s) ==> ValidateNumericField(Text(s), fieldName).None?
    ensures !IsBlank(s) ==> (ValidateNumericField(Text(s), fieldName).None? <==> ParseDecimal(Trim(s)).Some?)
  {
    if IsBlank(s) {
      NumberOfBlank(s);
    } else {
      TrimEmptyIffBlank(s);
    }
  }

  const InvalidId: ApiError := ApiError("Invalid ID parameter", 400, ValidationCode)

  /** `validateIdParam` as written: the guard tests `Number(id)` but the result is
      `parseInt(id, 10)`, which is NaN (`None`) for some ids the guard lets through. */
  function ValidateIdParamAsWritten(id: string): Checked<Option<int>>
  {
    if id == [] || NumberOf(id).None? then Thrown(InvalidId) else Ok(ParseInt(id))
  }

  lemma {:induction false} ParseIntOfBlank(s: string)
    requires IsBlank(s)
    ensures ParseInt(s).None?
  {
    assert TrimLeft(s) == [];
  }

  /** A non-empty blank id passes the guard (`Number("  ")` is 0) and comes back as NaN. */
  lemma BlankIdIsNaN(id: string)
    requires id != [] && IsBlank(id)
    ensures ValidateIdParamAsWritten(id) == Ok(None)
  {
    NumberOfBlank(id);
    ParseIntOfBlank(id);
  }

  /** `validateIdParam` rejecting every id that does not give an integer. */
  function ValidateIdParam(id: string): (r: Checked<int>)
    ensures r.Thrown? ==> r.error == InvalidId
    ensures r.Ok? ==> ParseInt(id) == Some(r.value) && ValidateIdParamAsWritten(id) == Ok(Some(r.value))
    ensures ValidateIdParamAsWritten(id).Thrown? ==> r.Thrown?
  {
    if id == [] || NumberOf(id).None? || ParseInt(id).None? then Thrown(InvalidId) else Ok(ParseInt(id).value)
  }

  /** An id of digits is accepted with its decimal value, by both versions. */
  lemma ValidIdOfDigits(id: string)
    requires id != [] && AllDigits(id)
    ensures ValidateIdParam(id) == Ok(DigitsValue(id) as int)
    ensures ValidateIdParamAsWritten(id) == Ok(Some(DigitsValue(id) as int))
  {
    assert id[..|id|] == id && id[|id|..] == [];
    DigitRunOfDigits(id, |id|);
    assert ParseDecimal(id) == Some(DigitsValue(id) as real);
    NumberOfNumeral(id);
    assert TrimLeft(id) == id;
    assert id[0..] == id;
  }

  /** `whole.frac` is accepted and truncated to `whole`: `"1.5"` gives 1. */
  lemma ValidIdTruncates(whole: string, frac: string)
    requires whole != [] && AllDigits(whole) && AllDigits(frac)
    ensures ValidateIdParam(whole + "." + frac) == Ok(DigitsValue(whole) as int)
  {
    var s := whole + "." + frac;
    DottedNumeral(whole, frac);
    NumberOfNumeral(s);
    ParseIntStopsAtDot(whole, frac);
  }

  /** `whole.frac` is a numeral with no space at either end. */
  lemma DottedNumeral(whole: string, frac: string)
    requires whole != [] && AllDigits(whole) && AllDigits(frac)
    ensures var s := whole + "." + frac;
            ParseDecimal(s).Some? && !IsSpace(s[0]) && !IsSpace(s[|s| - 1])
  {
    var s := whole + "." + frac;
    assert s[0] == whole[0];
    assert ParseDecimal(s).Some? by {
      assert s[..|whole|] == whole && s[|whole|..] == "." + frac && ("." + frac)[1..] == frac;
      DigitRunStops(s, |whole|);
    }
    if frac == [] {
      assert s[|s| - 1] == '.';
    } else {
      assert s[|s| - 1] == frac[|frac| - 1];
    }
  }

  /** Ids that are blank are now rejected. */
  lemma BlankIdRejected(id: string)
    requires IsBlank(id)
    ensures ValidateIdParam(id) == Thrown(InvalidId)
  {
    if id != [] {
      ParseIntOfBlank(id);
    }
  }
}
