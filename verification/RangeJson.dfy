/**
Storing a metric's `Range` in a database column as JSON (api/assessment/metric.go). A JSON document
is a `Value`; turning it into text and back is left to encoding/json.
*/
module RangeJson {
  import opened Wrappers
  import opened Values
  import PageTokens

  type Int64 = PageTokens.Int64

  datatype MinMax = MinMax(min: Int64, max: Int64)

  /**
  A pointer to a value: nil, to a value that JSON can express, or to one that it cannot because NaN,
  an infinity or a value without a kind occurs in it.
  */
  datatype Pointer = Nil | To(value: Value) | NoJson

  type Pointers = seq<Pointer>

  /** The oneof field: not set, or a variant whose message pointer may be nil. */
  datatype Variant =
    | Unset
    | Allowed(list: Option<Pointers>)
    | Order(list: Option<Pointers>)
    | Between(bounds: Option<MinMax>)

  // ---------------------------------------------------------------- encoding

  predicate Expressible(list: Pointers) {
    forall i :: 0 <= i < |list| ==> !list[i].NoJson?
  }

  function EncodePointers(list: Pointers): seq<Value>
    requires Expressible(list)
  {
    seq(|list|, i requires 0 <= i < |list| => if list[i].Nil? then Null else list[i].value)
  }

  /** A message with one repeated field that is omitted when empty. */
  function EncodeList(list: Option<Pointers>): Option<Value> {
    if list.None? then Some(Null)
    else if list.value == [] then Some(Struct(map[]))
    else if Expressible(list.value) then Some(Struct(map["values" := List(EncodePointers(list.value))]))
    else None
  }

  function Tagged(name: string, message: Option<Value>): Option<Value> {
    if message.None? then None else Some(Struct(map[name := message.value]))
  }

  function EncodeInt(name: string, x: Int64): map<string, Value> {
    if x == 0 then map[] else map[name := Number(x as real)]
  }

  function EncodeBounds(bounds: Option<MinMax>): Value {
    if bounds.None? then Null
    else Struct(EncodeInt("min", bounds.value.min) + EncodeInt("max", bounds.value.max))
  }

  /** `MarshalJSON`; an unset range is of an unsupported type, and some values make encoding fail. */
  function Marshal(r: Variant): Option<Value> {
    match r
    case Unset => None
    case Allowed(list) => Tagged("allowedValues", EncodeList(list))
    case Order(list) => Tagged("order", EncodeList(list))
    case Between(bounds) => Tagged("minMax", Some(EncodeBounds(bounds)))
  }

  // ---------------------------------------------------------------- decoding

  /** The field of a document; nothing if the document is null or lacks it, an error if it is no object. */
  function FieldOf(doc: Value, name: string): Result<Value, ()> {
    match doc
    case Null => Success(Null)
    case Struct(fields) => Success(if name in fields then fields[name] else Null)
    case _ => Failure(())
  }

  function DecodePointers(items: seq<Value>): Pointers {
    seq(|items|, i requires 0 <= i < |items| => if items[i].Null? then Nil else To(items[i]))
  }

  /** Decoding into a message pointer: null leaves it nil. */
  function DecodeList(v: Value): Result<Option<Pointers>, ()> {
    if v.Null? then Success(None)
    else
      match FieldOf(v, "values")
      case Failure(_) => Failure(())
      case Success(Null) => Success(Some([]))
      case Success(List(items)) => Success(Some(DecodePointers(items)))
      case Success(_) => Failure(())
  }

  function DecodeInt(v: Value, name: string): Result<Int64, ()> {
    match FieldOf(v, name)
    case Failure(_) => Failure(())
    case Success(Null) => Success(0)
    case Success(Number(n)) =>
      var i := n.Floor;
      if i as real == n && -0x8000_0000_0000_0000 <= i < 0x8000_0000_0000_0000 then Success(i) else Failure(())
    case Success(_) => Failure(())
  }

  function DecodeBounds(v: Value): Result<Option<MinMax>, ()> {
    if v.Null? then Success(None)
    else
      match (DecodeInt(v, "min"), DecodeInt(v, "max"))
      case (Success(min), Success(max)) => Success(Some(MinMax(min, max)))
      case _ => Failure(())
  }

  function ListField(doc: Value, name: string): Result<Option<Pointers>, ()> {
    match FieldOf(doc, name)
    case Failure(_) => Failure(())
    case Success(v) => DecodeList(v)
  }

  function BoundsField(doc: Value): Result<Option<MinMax>, ()> {
    match FieldOf(doc, "minMax")
    case Failure(_) => Failure(())
    case Success(v) => DecodeBounds(v)
  }

  datatype Scanned = Scanned(range: Variant, ok: bool)

  /**
  `UnmarshalJSON`: the variants are tried in order and the first that decodes to something is taken;
  otherwise the receiver keeps its range, and only an error of the last attempt is reported.
  */
  function Unmarshal(current: Variant, doc: Value): Scanned {
    var allowed, order, between := ListField(doc, "allowedValues"), ListField(doc, "order"), BoundsField(doc);
    if allowed.Success? && allowed.value.Some? then Scanned(Allowed(allowed.value), true)
    else if order.Success? && order.value.Some? then Scanned(Order(order.value), true)
    else if between.Success? && between.value.Some? then Scanned(Between(between.value), true)
    else Scanned(current, between.Success?)
  }

  /** What a database column can hold: JSON text, bytes that are no JSON, or something else. */
  datatype Column = Json(doc: Value) | Garbage | OtherType

  class Range {
    var range: Variant

    constructor (range: Variant)
      ensures this.range == range
    {
      this.range := range;
    }

    method UnmarshalJSON(doc: Value) returns (ok: bool)
      modifies this
      ensures Scanned(range, ok) == Unmarshal(old(range), doc)
    {
      var allowed := ListField(doc, "allowedValues");
      if allowed.Success? && allowed.value.Some? {
        range := Allowed(allowed.value);
        return true;
      }
      var order := ListField(doc, "order");
      if order.Success? && order.value.Some? {
        range := Order(order.value);
        return true;
      }
      var between := BoundsField(doc);
      if between.Success? && between.value.Some? {
        range := Between(between.value);
        return true;
      }
      ok := between.Success?;
    }

    method Scan(column: Column) returns (ok: bool)
      modifies this
      ensures column.Json? ==> Scanned(range, ok) == Unmarshal(old(range), column.doc)
      ensures !column.Json? ==> !ok && range == old(range)
    {
      if column.Json? {
        ok := UnmarshalJSON(column.doc);
      } else {
        ok := false;
      }
    }
  }

  // ---------------------------------------------------------------- round trip

  predicate NoNullValues(list: Pointers) {
    forall i :: 0 <= i < |list| ==> list[i] != To(Null)
  }

  /** The message is there and no value in it is the null value. */
  predicate Restorable(r: Variant) {
    match r
    case Unset => false
    case Allowed(list) => list.Some? && NoNullValues(list.value)
    case Order(list) => list.Some? && NoNullValues(list.value)
    case Between(bounds) => bounds.Some?
  }

  predicate SameVariant(r: Variant, r': Variant) {
    (r.Allowed? && r'.Allowed?) || (r.Order? && r'.Order?) || (r.Between? && r'.Between?)
  }

  /** Storing fails for an unset range and for one with a value that JSON cannot express. */
  predicate Storable(r: Variant) {
    match r
    case Unset => false
    case Allowed(list) => list.Some? ==> Expressible(list.value)
    case Order(list) => list.Some? ==> Expressible(list.value)
    case Between(_) => true
  }

  lemma PointersRoundTrip(list: Pointers)
    requires Expressible(list)
    ensures |DecodePointers(EncodePointers(list))| == |list|
    ensures DecodePointers(EncodePointers(list)) == list <==> NoNullValues(list)
  {
  }

  lemma ListRoundTrip(list: Option<Pointers>)
    ensures EncodeList(list).Some? <==> (list.Some? ==> Expressible(list.value))
    ensures EncodeList(list).Some? ==>
      var back := DecodeList(EncodeList(list).value);
      && back.Success? && back.value.Some? == list.Some?
      && (list.Some? ==> (back.value == list <==> NoNullValues(list.value)))
  {
    if list.Some? && Expressible(list.value) {
      PointersRoundTrip(list.value);
    }
  }

  lemma BoundsRoundTrip(bounds: Option<MinMax>)
    ensures DecodeBounds(EncodeBounds(bounds)) == Success(bounds)
  {
    if bounds.Some? {
      var fields := EncodeInt("min", bounds.value.min) + EncodeInt("max", bounds.value.max);
      assert "min" != "max" by {
        assert "min"[1] != "max"[1];
      }
      assert DecodeInt(Struct(fields), "min") == Success(bounds.value.min);
      assert DecodeInt(Struct(fields), "max") == Success(bounds.value.max);
    }
  }

  lemma NamesDiffer()
    ensures "allowedValues" != "order" && "allowedValues" != "minMax" && "order" != "minMax"
  {
  }

  /**
  A range is stored exactly when it is set and JSON can express its values. Reading back what was
  stored never fails and never yields another variant; and it restores the range, whatever the
  receiver held before, exactly when the message is present and contains no null value. (A null list
  and an empty list are the same here.)
  */
  lemma RoundTripExactly(r: Variant)
    ensures Marshal(r).Some? <==> Storable(r)
    ensures Marshal(r).Some? ==> forall current ::
              var back := Unmarshal(current, Marshal(r).value);
              back.ok && (back.range == current || SameVariant(back.range, r))
    ensures Marshal(r).Some? ==>
              ((forall current :: Unmarshal(current, Marshal(r).value).range == r) <==> Restorable(r))
  {
    NamesDiffer();
    match r {
      case Unset =>
      case Allowed(list) => ListRoundTrip(list);
      case Order(list) => ListRoundTrip(list);
      case Between(bounds) => BoundsRoundTrip(bounds);
    }
    if Storable(r) && !Restorable(r) {
      assert Unmarshal(Unset, Marshal(r).value).range != r;
    }
  }

  // ---------------------------------------------------------------- documents

  /** The document is an object with something other than null under the name. */
  predicate Has(doc: Value, name: string) {
    doc.Struct? && name in doc.fields && !doc.fields[name].Null?
  }

  /** The value is a message with a list: an object whose "values" are a list, null or absent. */
  predicate IsList(v: Value) {
    v.Struct? && (!Has(v, "values") || v.fields["values"].List?)
  }

  /** The name holds an integer that fits into 64 bits, null, or nothing. */
  predicate IsInteger(v: Value, name: string) {
    Has(v, name) ==>
      && v.fields[name].Number? && v.fields[name].n == v.fields[name].n.Floor as real
      && -0x8000_0000_0000_0000 <= v.fields[name].n.Floor < 0x8000_0000_0000_0000
  }

  predicate IsBounds(v: Value) {
    v.Struct? && IsInteger(v, "min") && IsInteger(v, "max")
  }

  /** `list` holds the elements of the message, nil for null. */
  ghost predicate Lists(v: Value, list: Option<Pointers>) {
    && v.Struct? && list.Some?
    && var items := if Has(v, "values") && v.fields["values"].List? then v.fields["values"].items else [];
    && |list.value| == |items|
    && forall i :: 0 <= i < |items| ==> list.value[i] == if items[i].Null? then Nil else To(items[i])
  }

  ghost predicate Bounds(v: Value, bounds: Option<MinMax>) {
    && v.Struct? && bounds.Some?
    && (if Has(v, "min") then v.fields["min"] == Number(bounds.value.min as real) else bounds.value.min == 0)
    && (if Has(v, "max") then v.fields["max"] == Number(bounds.value.max as real) else bounds.value.max == 0)
  }

  lemma ListDecodes(v: Value)
    ensures DecodeList(v).Success? <==> v.Null? || IsList(v)
    ensures IsList(v) ==> Lists(v, DecodeList(v).value)
    ensures v.Null? ==> DecodeList(v) == Success(None)
  {
  }

  lemma BoundsDecode(v: Value)
    ensures DecodeBounds(v).Success? <==> v.Null? || IsBounds(v)
    ensures IsBounds(v) ==> Bounds(v, DecodeBounds(v).value)
    ensures v.Null? ==> DecodeBounds(v) == Success(None)
  {
  }

  /**
  Reading any document into any receiver. The allowed values are taken if there is a message of that
  shape, else the order, else the bounds; otherwise the receiver keeps its range, and that is an error
  exactly if the document is neither an object nor null, or its bounds are there and malformed.
  Malformed allowed values or a malformed order alone are no error.
  */
  lemma UnmarshalExactly(current: Variant, doc: Value)
    ensures var back := Unmarshal(current, doc);
            if Has(doc, "allowedValues") && IsList(doc.fields["allowedValues"]) then
              back.ok && back.range.Allowed? && Lists(doc.fields["allowedValues"], back.range.list)
            else if Has(doc, "order") && IsList(doc.fields["order"]) then
              back.ok && back.range.Order? && Lists(doc.fields["order"], back.range.list)
            else if Has(doc, "minMax") && IsBounds(doc.fields["minMax"]) then
              back.ok && back.range.Between? && Bounds(doc.fields["minMax"], back.range.bounds)
            else
              back.range == current && (back.ok <==> doc.Null? || (doc.Struct? && !Has(doc, "minMax")))
  {
    hide DecodeList, DecodeBounds, IsList, IsBounds, Lists, Bounds;
    ListDecodes(Null);
    BoundsDecode(Null);
    if doc.Struct? {
      if "allowedValues" in doc.fields {
        ListDecodes(doc.fields["allowedValues"]);
        ListIsPresent(doc.fields["allowedValues"]);
      }
      if "order" in doc.fields {
        ListDecodes(doc.fields["order"]);
        ListIsPresent(doc.fields["order"]);
      }
      if "minMax" in doc.fields {
        BoundsDecode(doc.fields["minMax"]);
        BoundsArePresent(doc.fields["minMax"]);
      }
    }
  }

  lemma ListIsPresent(v: Value)
    ensures IsList(v) ==> !v.Null? && DecodeList(v).Success? && DecodeList(v).value.Some?
  {
  }

  lemma BoundsArePresent(v: Value)
    ensures IsBounds(v) ==> !v.Null? && DecodeBounds(v).Success? && DecodeBounds(v).value.Some?
  {
  }

  /** The stored form of a message with a list: "values" is there exactly if the list is not empty. */
  ghost predicate ListDocument(v: Value, list: Option<Pointers>) {
    if list.None? then v.Null?
    else
      && v.Struct? && v.fields.Keys == (if list.value == [] then {} else {"values"})
      && (list.value != [] ==>
            && v.fields["values"].List? && |v.fields["values"].items| == |list.value|
            && forall i :: 0 <= i < |list.value| ==>
                 v.fields["values"].items[i]
                 == match list.value[i] case Nil => Null case To(x) => x case NoJson => Null)
  }

  /** ... and of bounds: each is there exactly if it is not zero. */
  ghost predicate BoundsDocument(v: Value, bounds: Option<MinMax>) {
    if bounds.None? then v.Null?
    else
      && v.Struct? && v.fields.Keys <= {"min", "max"}
      && ("min" in v.fields <==> bounds.value.min != 0) && ("max" in v.fields <==> bounds.value.max != 0)
      && (bounds.value.min != 0 ==> v.fields["min"] == Number(bounds.value.min as real))
      && (bounds.value.max != 0 ==> v.fields["max"] == Number(bounds.value.max as real))
  }

  lemma BoundsAreWritten(bounds: Option<MinMax>)
    ensures BoundsDocument(EncodeBounds(bounds), bounds)
  {
    assert "min"[1] != "max"[1];
  }

  /** The document of a stored range has exactly one key, that of its variant, with the message under it. */
  lemma MarshalExactly(r: Variant)
    requires Storable(r)
    ensures Marshal(r).Some? && Marshal(r).value.Struct?
    ensures var fields := Marshal(r).value.fields;
            match r
            case Unset => false
            case Allowed(list) => fields.Keys == {"allowedValues"} && ListDocument(fields["allowedValues"], list)
            case Order(list) => fields.Keys == {"order"} && ListDocument(fields["order"], list)
            case Between(bounds) => fields.Keys == {"minMax"} && BoundsDocument(fields["minMax"], bounds)
  {
    hide BoundsDocument, EncodeBounds;
    if r.Between? {
      BoundsAreWritten(r.bounds);
    }
  }
}
