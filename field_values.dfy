/** `ListsService.convertValueToType`: how a custom-field text would be turned into a value of
    the field's declared type. Nothing in the service calls it. */
module FieldValues {
  import opened Text

  /** The value `convertValueToType` returns. The number, date and parsed-JSON results come
      from `Number`, `new Date` and `JSON.parse`, which are not part of this model; they are
      represented by the text they were computed from. */
  datatype Converted =
    | NumberOf(text: string)
    | Boolean(truth: bool)
    | DateOf(text: string)
    | JsonOf(text: string)
    | Items(items: seq<string>)
    | Raw(text: string)

  /** `convertValueToType(value, fieldType)`; `jsonParses` says whether `JSON.parse(value)`
      succeeds. The type name is compared case-insensitively. */
  function ConvertValueToType(value: string, fieldType: string, jsonParses: bool): (r: Converted)
    ensures Fold(fieldType) == "boolean" ==> r == Boolean(Fold(value) == "true")
    ensures Fold(fieldType) == "array" && jsonParses ==> r == JsonOf(value)
    ensures Fold(fieldType) == "array" && !jsonParses ==> r.Items? && |r.items| == |Split(value, ',')|
    ensures Fold(fieldType) !in {"number", "boolean", "date", "array"} ==> r == Raw(value)
  {
    var t := Fold(fieldType);
    if t == "number" then NumberOf(value)
    else if t == "boolean" then Boolean(Fold(value) == "true")
    else if t == "date" then DateOf(value)
    else if t == "array" then
      if jsonParses then JsonOf(value)
      else Items(seq(|Split(value, ',')|, k requires 0 <= k < |Split(value, ',')| => Trim(Split(value, ',')[k])))
    else Raw(value)
  }

  /** A boolean field is true exactly for the four letters of `true` in any case; surrounding
      white space makes it false. */
  lemma BooleanMeaning(value: string, fieldType: string, jsonParses: bool)
    requires Fold(fieldType) == "boolean"
    ensures ConvertValueToType(value, fieldType, jsonParses) == Boolean(true) <==>
      |value| == 4 && Lower(value[0]) == 't' && Lower(value[1]) == 'r' && Lower(value[2]) == 'u' && Lower(value[3]) == 'e'
  {
    if |value| == 4 && Lower(value[0]) == 't' && Lower(value[1]) == 'r' && Lower(value[2]) == 'u' && Lower(value[3]) == 'e' {
      assert Fold(value) == "true";
    }
    if Fold(value) == "true" {
      assert Fold(value)[0] == Lower(value[0]) && Fold(value)[1] == Lower(value[1]);
      assert Fold(value)[2] == Lower(value[2]) && Fold(value)[3] == Lower(value[3]);
    }
  }

  /** `item` is `piece` with only white space cut from its two ends. */
  ghost predicate TrimmedFrom(piece: string, item: string) {
    exists i :: CutAt(piece, item, i)
  }

  /** Without valid JSON, an array field becomes the comma-separated pieces of the text, in
      order: each piece is already trimmed, contains no comma, and is what is left of the
      corresponding piece of the text once white space is cut from both ends. */
  lemma {:induction false} ArrayItems(value: string, fieldType: string)
    requires Fold(fieldType) == "array"
    ensures var r := ConvertValueToType(value, fieldType, false);
      && r.Items?
      && forall k :: 0 <= k < |r.items| ==>
           && Trim(r.items[k]) == r.items[k]
           && ',' !in r.items[k]
           && TrimmedFrom(Split(value, ',')[k], r.items[k])
  {
    var pieces := Split(value, ',');
    var r := ConvertValueToType(value, fieldType, false);
    forall k | 0 <= k < |r.items|
      ensures Trim(r.items[k]) == r.items[k]
      ensures ',' !in r.items[k]
      ensures TrimmedFrom(pieces[k], r.items[k])
    {
      assert r.items[k] == Trim(pieces[k]);
      TrimIdempotent(pieces[k]);
      var i :| CutAt(pieces[k], r.items[k], i);
      CutKeepsOut(pieces[k], r.items[k], i, ',');
    }
  }

  /** A character missing from a text is missing from every piece cut out of it. */
  lemma CutKeepsOut(piece: string, item: string, i: int, c: char)
    requires CutAt(piece, item, i) && c !in piece
    ensures c !in item
  {
    forall j | 0 <= j < |item| ensures item[j] != c {
      assert item[j] == piece[i + j];
    }
  }
}
