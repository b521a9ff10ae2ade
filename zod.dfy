/**
 * The part of zod's object validation that the two request schemas use:
 * each field of the shape is checked in declaration order, every failing
 * field contributes one issue, and the object is accepted only when no
 * field failed.  Keys outside the shape are dropped.
 */
module Zod {
  import opened Wrappers
  import opened Json
  import opened Strings

  /** What went wrong with one field.  Zod's own message texts are not modelled,
      except for the message a `refine` supplies. */
  datatype IssueCode =
    | Required               // the key is absent (the value is undefined)
    | InvalidType            // the value has the wrong JSON type
    | TooSmall(minimum: nat) // a string of fewer than `minimum` UTF-16 code units
    | Custom(message: string)

  /** One entry of `ZodError.errors`; `path` is the field name, "" for the whole object. */
  datatype Issue = Issue(path: string, code: IssueCode)

  /** The issues a field check contributes: none on success, its one issue on failure. */
  function IssuesOf<T>(r: Result<T, Issue>): (issues: seq<Issue>)
    ensures r.Success? <==> issues == []
    ensures r.Failure? ==> issues == [r.error]
  {
    match r
    case Success(_) => []
    case Failure(e) => [e]
  }

  /** The key holds a string whose JavaScript length is at least `minLen`. */
  predicate IsStringOfLength(fields: map<string, Json>, key: string, minLen: nat)
  {
    key in fields && fields[key].JStr? && Utf16Length(fields[key].s) >= minLen
  }

  /** `z.string().min(minLen)` as a required field of an object; zod compares `.length`. */
  function RequiredString(fields: map<string, Json>, key: string, minLen: nat): (r: Result<string, Issue>)
    ensures r.Success? <==> IsStringOfLength(fields, key, minLen)
    ensures r.Success? ==> fields[key] == JStr(r.value)
    ensures r.Failure? ==> r.error.path == key
    ensures r.Failure? && key !in fields ==> r.error.code == Required
  {
    if key !in fields then Failure(Issue(key, Required))
    else match fields[key]
      case JStr(s) => if Utf16Length(s) >= minLen then Success(s) else Failure(Issue(key, TooSmall(minLen)))
      case _ => Failure(Issue(key, InvalidType))
  }

  predicate IsOptionalString(fields: map<string, Json>, key: string, nullable: bool)
  {
    key !in fields || fields[key].JStr? || (nullable && fields[key] == JNull)
  }

  /** `z.string().optional()` (nullable == false) or `.nullable().optional()` (nullable == true). */
  function OptionalString(fields: map<string, Json>, key: string, nullable: bool): (r: Result<Option<string>, Issue>)
    ensures r.Success? <==> IsOptionalString(fields, key, nullable)
    ensures r == Success(None) <==> key !in fields || (nullable && fields[key] == JNull)
    ensures r.Success? && r.value.Some? ==> fields[key] == JStr(r.value.value)
    ensures r.Failure? ==> r.error == Issue(key, InvalidType)
  {
    if key !in fields then Success(None)
    else match fields[key]
      case JStr(s) => Success(Some(s))
      case JNull => if nullable then Success(None) else Failure(Issue(key, InvalidType))
      case _ => Failure(Issue(key, InvalidType))
  }

  /** A required boolean refined to accept only `true`, failing with the refinement's `message` otherwise. */
  function TrueBoolean(fields: map<string, Json>, key: string, message: string): (r: Result<bool, Issue>)
    ensures r.Success? <==> key in fields && fields[key] == JBool(true)
    ensures r.Success? ==> r.value
    ensures key in fields && fields[key] == JBool(false) ==> r == Failure(Issue(key, Custom(message)))
    ensures r.Failure? ==> r.error.path == key
  {
    if key !in fields then Failure(Issue(key, Required))
    else match fields[key]
      case JBool(b) => if b then Success(true) else Failure(Issue(key, Custom(message)))
      case _ => Failure(Issue(key, InvalidType))
  }

  /** The single issue zod reports when the value to parse is not an object at all. */
  const NotAnObject := Issue("", InvalidType)
}
