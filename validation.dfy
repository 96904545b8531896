/** Request bodies and the rules of the request validator the handlers use
    (`fastest-validator`). Each rule is a predicate on one field of a body; a
    handler's schema is the conjunction of its fields' rules. */
module Validation {
  import opened Common

  /** A JSON value in a request body, told apart only as finely as the schemas
      need. A field the body does not carry reads as `Null` (the validator treats
      `undefined` and `null` alike). */
  datatype Value = Null | Str(s: string) | Arr(items: seq<Value>) | Other

  /** `{ type: "string", min, max }`: a string whose length lies within the bounds.
      `empty: false` is the lower bound 1. */
  predicate StringField(v: Value, min: nat, max: Option<nat>) {
    v.Str? && min <= |v.s| && (max.Some? ==> |v.s| <= max.value)
  }

  /** Every item of an array is a string (`items: "string"`). */
  predicate AllStrings(items: seq<Value>) {
    forall i :: 0 <= i < |items| ==> items[i].Str?
  }

  /** `{ type: "array", items: "string" }`, with `optional: true` when `optional`
      holds and `empty: false` when `allowEmpty` does not. */
  predicate StringArrayField(v: Value, optional: bool, allowEmpty: bool) {
    || (optional && v.Null?)
    || (v.Arr? && (allowEmpty || |v.items| > 0) && AllStrings(v.items))
  }

  /** The strings of an array that passed `items: "string"`. */
  function Strings(items: seq<Value>): (r: seq<string>)
    requires AllStrings(items)
    ensures |r| == |items|
    ensures forall i :: 0 <= i < |items| ==> r[i] == items[i].s
  {
    if items == [] then [] else [items[0].s] + Strings(items[1..])
  }

  /** The strings of an optional string array; an absent array stores as the
      empty list, the default of an array path in the document store. */
  function OptionalStrings(v: Value): (r: seq<string>)
    requires StringArrayField(v, true, true)
    ensures v.Null? ==> r == []
    ensures v.Arr? ==> |r| == |v.items| && forall i :: 0 <= i < |r| ==> r[i] == v.items[i].s
  {
    if v.Null? then [] else Strings(v.items)
  }

  predicate IsHexDigit(c: char) {
    ('0' <= c <= '9') || ('a' <= c <= 'f') || ('A' <= c <= 'F')
  }

  /** `id.match(/^[0-9a-fA-F]{24}$/)`: the text form of an ObjectId. */
  predicate IsObjectIdHex(s: string) {
    |s| == 24 && forall i :: 0 <= i < |s| ==> IsHexDigit(s[i])
  }

  /** What the document store can cast to an ObjectId when a string is written
      to a reference field: 24 hexadecimal digits, or a 12-character string
      taken as the id's 12 bytes. Any other string fails the cast. */
  predicate CastsToObjectId(s: string) {
    IsObjectIdHex(s) || |s| == 12
  }
}
