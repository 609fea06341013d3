/**
 * The few pieces of the .NET runtime the service depends on: 32-bit integers
 * and unchecked multiplication, character case and white space, and the
 * exception types it throws together with the text their `Message` yields.
 */
module Runtime {
  import opened Wrappers

  const IntMinValue: int := -0x8000_0000
  const IntMaxValue: int := 0x7fff_ffff

  /** System.Int32. */
  type int32 = x: int | IntMinValue <= x <= IntMaxValue

  /**
   * The value of a C# `int` expression evaluated in an unchecked context:
   * the mathematical value reduced to two's complement 32-bit.
   */
  function Unchecked(x: int): (r: int32)
    ensures (r - x) % 0x1_0000_0000 == 0
    ensures IntMinValue <= x <= IntMaxValue ==> r == x
  {
    (x - IntMinValue) % 0x1_0000_0000 + IntMinValue
  }

  /** `char.ToUpper`, restricted to the ASCII letters. */
  function ToUpper(c: char): (r: char)
    ensures 'a' <= c <= 'z' ==> r as int == c as int - 32
    ensures !('a' <= c <= 'z') ==> r == c
    ensures !('a' <= r <= 'z')
  {
    if 'a' <= c <= 'z' then (c as int - 32) as char else c
  }

  /** `char.ToLowerInvariant`, restricted to the ASCII letters. */
  function ToLower(c: char): (r: char)
    ensures 'A' <= c <= 'Z' ==> r as int == c as int + 32
    ensures !('A' <= c <= 'Z') ==> r == c
  {
    if 'A' <= c <= 'Z' then (c as int + 32) as char else c
  }

  /** `char.IsWhiteSpace` on the Latin-1 range: tab to carriage return, space, NEL, NBSP. */
  predicate IsWhiteSpace(c: char) {
    '\t' <= c <= '\r' || c == ' ' || c == '\U{85}' || c == '\U{A0}'
  }

  /** `string.IsNullOrWhiteSpace` for a non-null string. */
  predicate IsNullOrWhiteSpace(s: string) {
    forall i :: 0 <= i < |s| ==> IsWhiteSpace(s[i])
  }

  /**
   * The four class hierarchies the service's and the middleware's type tests
   * look at. None of them contains another, so every class lies in at most
   * one of them.
   */
  datatype Family = ArgumentFamily | ValidationFamily | DuplicateNameFamily | DbUpdateFamily | Unrelated

  /** The exception classes that the service throws or the middleware tests for. */
  datatype ExceptionType =
    | ArgumentException            // System.ArgumentException
    | ArgumentOutOfRangeException  // System.ArgumentOutOfRangeException, a subclass of ArgumentException
    | ValidationException          // System.ComponentModel.DataAnnotations.ValidationException
    | DuplicateNameException       // System.Data.DuplicateNameException
    | DbUpdateException            // Microsoft.EntityFrameworkCore.DbUpdateException
    // Any other class, with the hierarchy it derives from: ArgumentNullException
    // lies in ArgumentFamily, DbUpdateConcurrencyException in DbUpdateFamily,
    // InvalidOperationException in none of them (Unrelated).
    | OtherException(typeName: string, family: Family)

  /** The hierarchy a class belongs to. */
  function FamilyOf(t: ExceptionType): Family {
    match t
    case ArgumentException => ArgumentFamily
    case ArgumentOutOfRangeException => ArgumentFamily
    case ValidationException => ValidationFamily
    case DuplicateNameException => DuplicateNameFamily
    case DbUpdateException => DbUpdateFamily
    case OtherException(_, f) => f
  }

  /** `ex is ArgumentException` */
  predicate IsArgumentException(t: ExceptionType) {
    FamilyOf(t) == ArgumentFamily
  }

  /** `ex is ValidationException` */
  predicate IsValidationException(t: ExceptionType) {
    FamilyOf(t) == ValidationFamily
  }

  /** `ex is DuplicateNameException` */
  predicate IsDuplicateNameException(t: ExceptionType) {
    FamilyOf(t) == DuplicateNameFamily
  }

  /** `ex is DbUpdateException` */
  predicate IsDbUpdateException(t: ExceptionType) {
    FamilyOf(t) == DbUpdateFamily
  }

  /** An exception object: its class, the message passed to its constructor, and its ParamName. */
  datatype Exception = Exception(kind: ExceptionType, text: string, paramName: Option<string>) {

    /**
     * `Exception.Message`. An ArgumentException with a non-empty parameter
     * name appends " (Parameter '<name>')" to the message it was given.
     */
    function Message(): (m: string)
      ensures text <= m
      ensures m == text <==> !(IsArgumentException(kind) && paramName.Some? && paramName.value != "")
    {
      if IsArgumentException(kind) && paramName.Some? && paramName.value != "" then
        text + " (Parameter '" + paramName.value + "')"
      else
        text
    }
  }
}
