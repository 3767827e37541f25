/**
 * Outbox payloads: events become JSON objects field by field and are rebuilt from them by the type hints
 * of a registered class. The text forms of UUIDs and timestamps are a codec whose parsers undo its printers.
 */
module EventSerialization {
  import opened Prelude
  import OutboxRows

  /** A string enum is named; its members are identified by their string values. */
  datatype FieldType =
    | UuidType
    | TimestampType
    | EnumType(name: string)
    | TextType
    | IntType
    | OptionalType(of: FieldType)
    | ListType(of: FieldType)

  datatype Value =
    | UuidValue(id: nat)
    | TimestampValue(micros: int)
    | EnumValue(enum: string, value: string)
    | TextValue(text: string)
    | IntValue(n: int)
    | NoneValue
    | ListValue(items: seq<Value>)

  datatype Json = JsonText(text: string) | JsonInt(n: int) | JsonNull | JsonList(items: seq<Json>)

  datatype Error = BadValue | MissingField | UnregisteredType

  datatype Codec = Codec(
    printUuid: nat -> string, parseUuid: string -> Option<nat>,
    printTime: int -> string, parseTime: string -> Option<int>,
    members: string -> set<string>)

  ghost predicate ParsersUndoPrinters(c: Codec) {
    && (forall u: nat :: c.parseUuid(c.printUuid(u)) == Some(u))
    && (forall t: int :: c.parseTime(c.printTime(t)) == Some(t))
  }

  predicate HasType(c: Codec, v: Value, t: FieldType) {
    match t
    case UuidType => v.UuidValue?
    case TimestampType => v.TimestampValue?
    case EnumType(name) => v.EnumValue? && v.enum == name && v.value in c.members(name)
    case TextType => v.TextValue?
    case IntType => v.IntValue?
    case OptionalType(of) => v.NoneValue? || HasType(c, v, of)
    case ListType(of) => v.ListValue? && forall i :: 0 <= i < |v.items| ==> HasType(c, v.items[i], of)
  }

  // ---- Encoding ----------------------------------------------------------------------------------------

  /** The JSON column's own encoder: it knows strings, and enums that are strings, but no UUIDs or timestamps. */
  function Dump(v: Value): Option<Json> {
    match v
    case TextValue(text) => Some(JsonText(text))
    case EnumValue(_, value) => Some(JsonText(value))
    case IntValue(n) => Some(JsonInt(n))
    case NoneValue => Some(JsonNull)
    case ListValue(items) => DumpAll(items)
    case UuidValue(_) => None
    case TimestampValue(_) => None
  }

  function DumpAll(items: seq<Value>): Option<Json> {
    if items == [] then Some(JsonList([]))
    else
      var first := Dump(items[0]);
      var rest := DumpAll(items[1..]);
      if first.Some? && rest.Some? && rest.value.JsonList? then Some(JsonList([first.value] + rest.value.items))
      else None
  }

  /** Only the field's own value is converted, not the elements of a list. */
  function Encode(c: Codec, v: Value): Option<Json> {
    match v
    case UuidValue(id) => Some(JsonText(c.printUuid(id)))
    case TimestampValue(t) => Some(JsonText(c.printTime(t)))
    case EnumValue(_, value) => Some(JsonText(value))
    case _ => Dump(v)
  }

  // ---- Decoding ----------------------------------------------------------------------------------------

  /** A type with exactly one argument besides None counts as that argument: `X | None`, but also `list[X]`. */
  function Underlying(t: FieldType): FieldType {
    match t
    case OptionalType(of) => of
    case ListType(of) => of
    case _ => t
  }

  function Load(j: Json): Value {
    match j
    case JsonText(text) => TextValue(text)
    case JsonInt(n) => IntValue(n)
    case JsonNull => NoneValue
    case JsonList(items) => ListValue(LoadAll(items))
  }

  function LoadAll(items: seq<Json>): seq<Value> {
    if items == [] then [] else [Load(items[0])] + LoadAll(items[1..])
  }

  function Decode(c: Codec, t: FieldType, j: Json): Result<Value, Error> {
    if j.JsonNull? then Ok(NoneValue)
    else match Underlying(t)
      case UuidType =>
        if j.JsonText? && c.parseUuid(j.text).Some? then Ok(UuidValue(c.parseUuid(j.text).value)) else Err(BadValue)
      case TimestampType =>
        if j.JsonText? && c.parseTime(j.text).Some? then Ok(TimestampValue(c.parseTime(j.text).value))
        else Err(BadValue)
      case EnumType(name) =>
        if j.JsonText? && j.text in c.members(name) then Ok(EnumValue(name, j.text)) else Err(BadValue)
      case _ => Ok(Load(j))
  }

  // ---- Which types survive -----------------------------------------------------------------------------

  /** Values of these types come back from JSON by themselves. */
  predicate Plain(t: FieldType) {
    match t
    case TextType => true
    case IntType => true
    case OptionalType(of) => Plain(of)
    case ListType(of) => Plain(of)
    case _ => false
  }

  predicate Scalar(t: FieldType) {
    t.UuidType? || t.TimestampType? || t.EnumType?
  }

  /** The shapes that the event files use, and every other shape that works. */
  predicate Supported(t: FieldType) {
    || Scalar(t)
    || (t.OptionalType? && Scalar(t.of))
    || Plain(t)
  }

  ghost predicate Survives(c: Codec, v: Value, t: FieldType) {
    Encode(c, v).Some? && Decode(c, t, Encode(c, v).value) == Ok(v)
  }

  lemma {:induction false} PlainComesBack(c: Codec, v: Value, t: FieldType)
    requires Plain(t) && HasType(c, v, t)
    ensures Dump(v).Some? && Load(Dump(v).value) == v
    decreases t, 0
  {
    match t
    case OptionalType(of) => if !v.NoneValue? { PlainComesBack(c, v, of); }
    case ListType(of) => PlainItemsComeBack(c, v.items, of);
    case _ =>
  }

  lemma {:induction false} PlainItemsComeBack(c: Codec, items: seq<Value>, t: FieldType)
    requires Plain(t) && forall i :: 0 <= i < |items| ==> HasType(c, items[i], t)
    ensures DumpAll(items).Some? && DumpAll(items).value.JsonList? && LoadAll(DumpAll(items).value.items) == items
    decreases t, |items| + 1
  {
    if items != [] {
      PlainComesBack(c, items[0], t);
      PlainItemsComeBack(c, items[1..], t);
      var first := Dump(items[0]).value;
      var rest := DumpAll(items[1..]).value.items;
      assert DumpAll(items).value.items == [first] + rest;
      assert ([first] + rest)[1..] == rest;
    }
  }

  /** Every field of a supported type comes back as it was, for any number of items and any text. */
  lemma SupportedSurvives(c: Codec, v: Value, t: FieldType)
    requires ParsersUndoPrinters(c) && HasType(c, v, t) && Supported(t)
    ensures Survives(c, v, t)
  {
    if Plain(t) {
      PlainComesBack(c, v, t);
      PlainEncodesAsDump(c, v, t);
    }
  }

  lemma {:induction false} PlainEncodesAsDump(c: Codec, v: Value, t: FieldType)
    requires Plain(t) && HasType(c, v, t)
    ensures Encode(c, v) == Dump(v) && !Scalar(Underlying(t))
    ensures Dump(v).Some? && Dump(v).value.JsonNull? ==> v.NoneValue?
  {
    if t.OptionalType? && !v.NoneValue? {
      PlainEncodesAsDump(c, v, t.of);
    }
    if v.ListValue? { DumpedListIsAList(v.items); }
  }

  lemma {:induction false} DumpedListIsAList(items: seq<Value>)
    ensures DumpAll(items).Some? ==> DumpAll(items).value.JsonList?
  {
  }

  /** A type that is not plain has a value that JSON alone loses or refuses. */
  lemma {:induction false} NotPlainIsLost(c: Codec, t: FieldType) returns (v: Value)
    requires !Plain(t) && forall e :: c.members(e) != {}
    ensures HasType(c, v, t) && !(Dump(v).Some? && Load(Dump(v).value) == v) && !v.NoneValue?
    ensures Encode(c, v) == Dump(v) || v.UuidValue? || v.TimestampValue?
    ensures Encode(c, v).Some? ==> !Encode(c, v).value.JsonNull? && Load(Encode(c, v).value) != v
  {
    match t
    case UuidType => v := UuidValue(0);
    case TimestampType => v := TimestampValue(0);
    case EnumType(name) =>
      var m :| m in c.members(name);
      v := EnumValue(name, m);
    case OptionalType(of) => v := NotPlainIsLost(c, of);
    case ListType(of) =>
      var w := NotPlainIsLost(c, of);
      v := ListValue([w]);
      SingletonIsLost(w);
  }

  lemma SingletonIsLost(w: Value)
    requires !(Dump(w).Some? && Load(Dump(w).value) == w)
    ensures DumpAll([w]).Some? ==> DumpAll([w]).value.JsonList? && LoadAll(DumpAll([w]).value.items) != [w]
  {
    assert [w][1..] == [];
    if Dump(w).Some? {
      var j := Dump(w).value;
      assert DumpAll([w]) == Some(JsonList([j] + []));
      assert ([j] + [])[1..] == [];
      assert LoadAll([j] + []) == [Load(j)] + [];
    }
  }

  /**
   * The supported types are exactly those whose every value survives. Lists of ids, timestamps or
   * enums are not among them, because the list's element type is taken for the field's type.
   */
  lemma SurvivalExactly(c: Codec, t: FieldType)
    requires ParsersUndoPrinters(c) && forall e :: c.members(e) != {}
    ensures Supported(t) <==> forall v :: HasType(c, v, t) ==> Survives(c, v, t)
  {
    if Supported(t) {
      forall v | HasType(c, v, t) ensures Survives(c, v, t) {
        SupportedSurvives(c, v, t);
      }
    } else {
      var v := UnsupportedIsLost(c, t);
      assert HasType(c, v, t) && !Survives(c, v, t);
    }
  }

  lemma UnsupportedIsLost(c: Codec, t: FieldType) returns (v: Value)
    requires !Supported(t) && forall e :: c.members(e) != {}
    ensures HasType(c, v, t) && !Survives(c, v, t)
  {
    if t.ListType? && Scalar(t.of) {
      v := ListValue([]);
    } else {
      v := NotPlainIsLost(c, t);
    }
  }

  // ---- Events ------------------------------------------------------------------------------------------

  datatype Field = Field(name: string, hint: FieldType, default: Option<Value>)

  datatype EventClass = EventClass(name: string, fields: seq<Field>)

  datatype Event = Event(cls: EventClass, values: map<string, Value>)

  type Payload = map<string, Json>

  ghost predicate Named(fields: seq<Field>, k: string) {
    exists i :: 0 <= i < |fields| && fields[i].name == k
  }

  ghost predicate WellFormed(c: Codec, e: Event) {
    && (forall i, j :: 0 <= i < j < |e.cls.fields| ==> e.cls.fields[i].name != e.cls.fields[j].name)
    && (forall k :: k in e.values <==> Named(e.cls.fields, k))
    && (forall i :: 0 <= i < |e.cls.fields| ==> HasType(c, e.values[e.cls.fields[i].name], e.cls.fields[i].hint))
  }

  ghost predicate AllSupported(cls: EventClass) {
    forall i :: 0 <= i < |cls.fields| ==> Supported(cls.fields[i].hint)
  }

  /** None: a value the JSON column cannot hold. */
  function EncodeFields(c: Codec, fields: seq<Field>, values: map<string, Value>): Option<Payload> {
    if fields == [] then Some(map[])
    else
      var last := fields[|fields| - 1];
      var before := EncodeFields(c, fields[..|fields| - 1], values);
      if before.None? || last.name !in values || Encode(c, values[last.name]).None? then None
      else Some(before.value[last.name := Encode(c, values[last.name]).value])
  }

  /** A missing field takes its default, which then passes through the decoder like a stored value. */
  function DecodeDefault(c: Codec, t: FieldType, v: Value): Result<Value, Error> {
    if v.NoneValue? then Ok(NoneValue)
    else match Underlying(t)
      case UuidType => if v.TextValue? && c.parseUuid(v.text).Some? then Ok(UuidValue(c.parseUuid(v.text).value))
                       else Err(BadValue)
      case TimestampType =>
          if v.TextValue? && c.parseTime(v.text).Some? then Ok(TimestampValue(c.parseTime(v.text).value))
          else Err(BadValue)
      case EnumType(name) =>
        if v.EnumValue? && v.value in c.members(name) then Ok(EnumValue(name, v.value))
        else if v.TextValue? && v.text in c.members(name) then Ok(EnumValue(name, v.text))
        else Err(BadValue)
      case _ => Ok(v)
  }

  function DecodeField(c: Codec, f: Field, payload: Payload): Result<Value, Error> {
    if f.name in payload then Decode(c, f.hint, payload[f.name])
    else if f.default.Some? then DecodeDefault(c, f.hint, f.default.value)
    else Err(MissingField)
  }

  function DecodeFields(c: Codec, fields: seq<Field>, payload: Payload): Result<map<string, Value>, Error> {
    if fields == [] then Ok(map[])
    else
      var last := fields[|fields| - 1];
      var before := DecodeFields(c, fields[..|fields| - 1], payload);
      if before.Err? then before
      else
        var v := DecodeField(c, last, payload);
        if v.Err? then Err(v.error) else Ok(before.value[last.name := v.value])
  }

  type Types = map<string, EventClass>

  function Deserialize(c: Codec, types: Types, eventType: string, payload: Payload): Result<Event, Error> {
    if eventType !in types then Err(UnregisteredType)
    else
      var values := DecodeFields(c, types[eventType].fields, payload);
      if values.Err? then Err(values.error) else Ok(Event(types[eventType], values.value))
  }

  lemma {:induction false} FieldsEncode(c: Codec, fields: seq<Field>, values: map<string, Value>)
    requires ParsersUndoPrinters(c)
    requires forall i, j :: 0 <= i < j < |fields| ==> fields[i].name != fields[j].name
    requires forall i :: 0 <= i < |fields| ==>
               fields[i].name in values && HasType(c, values[fields[i].name], fields[i].hint)
                   && Supported(fields[i].hint)
    ensures EncodeFields(c, fields, values).Some?
    ensures forall i :: 0 <= i < |fields| ==>
              var payload := EncodeFields(c, fields, values).value;
              fields[i].name in payload && Some(payload[fields[i].name]) == Encode(c, values[fields[i].name])
  {
    if fields != [] {
      var n := |fields| - 1;
      FieldsEncode(c, fields[..n], values);
      SupportedSurvives(c, values[fields[n].name], fields[n].hint);
      forall i | 0 <= i < n ensures fields[i].name in EncodeFields(c, fields, values).value
                              && Some(EncodeFields(c, fields, values).value[fields[i].name]) ==
                                  Encode(c, values[fields[i].name])
      {
        assert fields[..n][i] == fields[i];
      }
    }
  }

  /** Each field's stored form decodes to its value. */
  ghost predicate Restorable(c: Codec, fields: seq<Field>, payload: Payload, values: map<string, Value>) {
    forall i :: 0 <= i < |fields| ==> FieldRestorable(c, fields[i], payload, values)
  }

  ghost predicate FieldRestorable(c: Codec, f: Field, payload: Payload, values: map<string, Value>) {
    f.name in values && DecodeField(c, f, payload) == Ok(values[f.name])
  }

  /** The fields listed in `fields` come back with the values they had. */
  lemma {:induction false} FieldsDecode(c: Codec, fields: seq<Field>, payload: Payload, values: map<string, Value>)
    requires Restorable(c, fields, payload, values)
    ensures DecodeFields(c, fields, payload).Ok?
    ensures var decoded := DecodeFields(c, fields, payload).value;
            forall k :: (k in decoded <==> Named(fields, k))
                && (k in decoded ==> k in values && decoded[k] == values[k])
  {
    if fields != [] {
      var n := |fields| - 1;
      assert FieldRestorable(c, fields[n], payload, values);
      FieldsDecode(c, fields[..n], payload, values);
      var before := DecodeFields(c, fields[..n], payload).value;
      assert DecodeFields(c, fields, payload).value == before[fields[n].name := values[fields[n].name]];
      forall k ensures Named(fields, k) <==> k == fields[n].name || Named(fields[..n], k) {
        NamedOneMore(fields, k);
      }
    }
  }

  lemma NamedOneMore(fields: seq<Field>, k: string)
    requires fields != []
    ensures Named(fields, k) <==> k == fields[|fields| - 1].name || Named(fields[..|fields| - 1], k)
  {
    var n := |fields| - 1;
    if Named(fields[..n], k) {
      var i :| 0 <= i < n && fields[..n][i].name == k;
      assert fields[i].name == k;
    }
    if Named(fields, k) {
      var i :| 0 <= i < |fields| && fields[i].name == k;
      if i < n { assert fields[..n][i].name == k; }
    }
  }

  lemma EncodedIsRestorable(c: Codec, e: Event)
    requires ParsersUndoPrinters(c) && WellFormed(c, e) && AllSupported(e.cls)
    ensures EncodeFields(c, e.cls.fields, e.values).Some?
    ensures Restorable(c, e.cls.fields, EncodeFields(c, e.cls.fields, e.values).value, e.values)
  {
    var fields := e.cls.fields;
    FieldsEncode(c, fields, e.values);
    var payload := EncodeFields(c, fields, e.values).value;
    forall i | 0 <= i < |fields| ensures FieldRestorable(c, fields[i], payload, e.values) {
      SupportedSurvives(c, e.values[fields[i].name], fields[i].hint);
    }
  }

  /** Deserialising a serialised event of a registered class with supported fields gives the event back. */
  lemma EventRoundTrip(c: Codec, types: Types, e: Event)
    requires ParsersUndoPrinters(c) && WellFormed(c, e) && AllSupported(e.cls)
    requires e.cls.name in types && types[e.cls.name] == e.cls
    ensures EncodeFields(c, e.cls.fields, e.values).Some?
    ensures Deserialize(c, types, e.cls.name, EncodeFields(c, e.cls.fields, e.values).value) == Ok(e)
  {
    EncodedIsRestorable(c, e);
    var payload := EncodeFields(c, e.cls.fields, e.values).value;
    FieldsDecode(c, e.cls.fields, payload, e.values);
    SameMap(DecodeFields(c, e.cls.fields, payload).value, e.values);
  }

  /**
   * A payload from before the fields `added` existed still gives the event, if each of them has its
   * default value and that is neither an id nor a timestamp.
   */
  lemma OlderPayloadRestores(c: Codec, types: Types, e: Event, added: set<string>)
    requires ParsersUndoPrinters(c) && WellFormed(c, e) && AllSupported(e.cls)
    requires e.cls.name in types && types[e.cls.name] == e.cls
    requires forall i :: 0 <= i < |e.cls.fields| && e.cls.fields[i].name in added ==>
               var v := e.values[e.cls.fields[i].name];
               e.cls.fields[i].default == Some(v) && !v.UuidValue? && !v.TimestampValue?
    ensures EncodeFields(c, e.cls.fields, e.values).Some?
    ensures Deserialize(c, types, e.cls.name, EncodeFields(c, e.cls.fields, e.values).value - added) == Ok(e)
  {
    EncodedIsRestorable(c, e);
    var fields := e.cls.fields;
    var payload := EncodeFields(c, fields, e.values).value;
    forall i | 0 <= i < |fields| ensures FieldRestorable(c, fields[i], payload - added, e.values) {
      assert FieldRestorable(c, fields[i], payload, e.values);
      if fields[i].name in added { DefaultsWorkExactly(c, fields[i].hint, e.values[fields[i].name]); }
    }
    FieldsDecode(c, fields, payload - added, e.values);
    SameMap(DecodeFields(c, fields, payload - added).value, e.values);
  }

  /** The field cannot be restored: its stored value does not decode, or it is missing and so is a usable default. */
  predicate Unrestorable(c: Codec, f: Field, payload: Payload) {
    if f.name in payload then Decode(c, f.hint, payload[f.name]).Err?
    else f.default.None? || DecodeDefault(c, f.hint, f.default.value).Err?
  }

  /** Deserialising fails exactly for an unregistered type or a field that cannot be restored. */
  lemma DeserializeFailsExactly(c: Codec, types: Types, eventType: string, payload: Payload)
    ensures Deserialize(c, types, eventType, payload) == Err(UnregisteredType) <==> eventType !in types
    ensures Deserialize(c, types, eventType, payload).Err? <==>
            || eventType !in types
            || exists i :: 0 <= i < |types[eventType].fields| && Unrestorable(c, types[eventType].fields[i], payload)
  {
    if eventType in types { FieldsFailExactly(c, types[eventType].fields, payload); }
  }

  lemma {:induction false} FieldsFailExactly(c: Codec, fields: seq<Field>, payload: Payload)
    ensures DecodeFields(c, fields, payload).Err? <==>
            exists i :: 0 <= i < |fields| && Unrestorable(c, fields[i], payload)
    ensures DecodeFields(c, fields, payload) != Err(UnregisteredType)
  {
    if fields != [] {
      var n := |fields| - 1;
      FieldsFailExactly(c, fields[..n], payload);
      assert forall i :: 0 <= i < n ==> fields[..n][i] == fields[i];
    }
  }

  lemma SameMap(a: map<string, Value>, b: map<string, Value>)
    requires forall k :: (k in a <==> k in b) && (k in a ==> a[k] == b[k])
    ensures a == b
  {
  }

  /** A default of an id or timestamp type is never usable: its value is not the text that the decoder parses. */
  lemma DefaultsWorkExactly(c: Codec, t: FieldType, v: Value)
    requires HasType(c, v, t) && Supported(t)
    ensures DecodeDefault(c, t, v) == Ok(v) <==> !v.UuidValue? && !v.TimestampValue?
    ensures DecodeDefault(c, t, v).Err? <==> v.UuidValue? || v.TimestampValue?
  {
    if Plain(t) { PlainEncodesAsDump(c, v, t); PlainValuesAreNotScalar(c, v, t); }
  }

  /** A default that is a text, a number or None is decoded like the same value in a payload. */
  lemma DefaultsDecodeLikeStoredValues(c: Codec, t: FieldType, v: Value)
    requires v.TextValue? || v.IntValue? || v.NoneValue?
    ensures Encode(c, v).Some? && DecodeDefault(c, t, v) == Decode(c, t, Encode(c, v).value)
  {
  }

  lemma {:induction false} PlainValuesAreNotScalar(c: Codec, v: Value, t: FieldType)
    requires Plain(t) && HasType(c, v, t)
    ensures !v.UuidValue? && !v.TimestampValue? && !v.EnumValue?
  {
    if t.OptionalType? && !v.NoneValue? { PlainValuesAreNotScalar(c, v, t.of); }
  }

  // ---- The row a publisher writes ------------------------------------------------------------------------

  const EVENT_ID := "event_id"
  const OCCURRED_AT := "occurred_at"

  /** Every event has an id and the time at which it occurred. */
  predicate IsDomainEvent(e: Event) {
    && EVENT_ID in e.values && e.values[EVENT_ID].UuidValue?
    && OCCURRED_AT in e.values && e.values[OCCURRED_AT].TimestampValue?
  }

  /** The timestamp that deserialising the payload gives, if it gives an event at all. */
  function OriginalTime(c: Codec, types: Types, eventType: string, payload: Payload): Option<int> {
    match Deserialize(c, types, eventType, payload)
    case Ok(e) =>
      if OCCURRED_AT in e.values && e.values[OCCURRED_AT].TimestampValue? then Some(e.values[OCCURRED_AT].micros)
      else None
    case Err(_) => None
  }

  datatype PendingRow = PendingRow(eventId: nat, eventType: string, payload: Payload, occurredAt: int)

  /** The committed row, with its primary key and no failure counted, as the workers see it. */
  function Stored(c: Codec, types: Types, row: PendingRow, id: nat): OutboxRows.Row {
    OutboxRows.Row(id, OriginalTime(c, types, row.eventType, row.payload), row.occurredAt, 0)
  }

  /** The row of one event, or None when its class is not registered or its payload cannot be stored. */
  function RowOf(c: Codec, types: Types, e: Event): Option<PendingRow>
    requires IsDomainEvent(e)
  {
    var payload := EncodeFields(c, e.cls.fields, e.values);
    if payload.None? || e.cls.name !in types then None
    else Some(PendingRow(e.values[EVENT_ID].id, e.cls.name, payload.value, e.values[OCCURRED_AT].micros))
  }

  /**
   * The row names the event and its own time, deserialising it gives the event back, and the workers take
   * it for one that nobody has claimed, until a claim stamps a later time on it.
   */
  ghost predicate Carries(c: Codec, types: Types, row: PendingRow, e: Event) {
    && Deserialize(c, types, row.eventType, row.payload) == Ok(e)
    && EVENT_ID in e.values && e.values[EVENT_ID] == UuidValue(row.eventId)
    && OCCURRED_AT in e.values && e.values[OCCURRED_AT] == TimestampValue(row.occurredAt)
    && forall id :: OutboxRows.Unclaimed(Stored(c, types, row, id))
         && forall now :: now > row.occurredAt ==>
              !OutboxRows.Unclaimed(Stored(c, types, row, id).(occurredAt := now))
  }

  /** An event of a registered class whose fields the payload can hold. */
  ghost predicate Publishable(c: Codec, types: Types, e: Event) {
    WellFormed(c, e) && AllSupported(e.cls) && e.cls.name in types && types[e.cls.name] == e.cls
  }

  /** A publishable event gets a row, and the row carries it. */
  lemma PublishedRowIsUnclaimed(c: Codec, types: Types, e: Event)
    requires ParsersUndoPrinters(c) && Publishable(c, types, e) && IsDomainEvent(e)
    ensures RowOf(c, types, e).Some? && Carries(c, types, RowOf(c, types, e).value, e)
  {
    EventRoundTrip(c, types, e);
  }

  /** A row counts as unclaimed exactly if its payload can be read back and gives the time in the row. */
  lemma UnclaimedExactly(c: Codec, types: Types, row: PendingRow, id: nat)
    ensures OutboxRows.Unclaimed(Stored(c, types, row, id)) <==>
            var read := Deserialize(c, types, row.eventType, row.payload);
            && read.Ok? && OCCURRED_AT in read.value.values
            && read.value.values[OCCURRED_AT] == TimestampValue(row.occurredAt)
    ensures Deserialize(c, types, row.eventType, row.payload).Err? ==> Stored(c, types, row, id).original.None?
  {
  }

  // ---- Registry and publisher ------------------------------------------------------------------------------

  class EventTypeRegistry {
    var types: Types

    constructor ()
      ensures types == map[]
    {
      types := map[];
    }

    method Register(cls: EventClass)
      modifies this
      ensures types == old(types)[cls.name := cls]
    {
      types := types[cls.name := cls];
    }

    /**
     * `names` is the other registry's insertion order. Fails exactly when a name stands for two
     * different classes; the entries before the first such name have then been taken over already.
     */
    method Merge(other: EventTypeRegistry, names: seq<string>) returns (merged: bool)
      requires forall n :: n in names <==> n in other.types
      requires forall i, j :: 0 <= i < j < |names| ==> names[i] != names[j]
      modifies this
      ensures merged <==> forall n :: n in old(other.types) && n in old(types) ==> old(types)[n] == old(other.types)[n]
      ensures merged ==> types == old(types) + old(other.types)
      ensures !merged ==> exists k :: 0 <= k < |names| && TakenOver(old(types), old(other.types), names, k, types)
                                && names[k] in old(other.types) && names[k] in old(types)
                                    && old(types)[names[k]] != old(other.types)[names[k]]
    {
      ghost var before := types;
      var incoming := other.types;
      for i := 0 to |names|
        invariant TakenOver(before, incoming, names, i, types)
      {
        var n := names[i];
        if n in types && types[n] != incoming[n] {
          assert n in before && before[n] == types[n];
          return false;
        }
        types := types[n := incoming[n]];
      }
      assert types == before + incoming;
      return true;
    }

    method Resolve(eventType: string) returns (cls: Option<EventClass>)
      ensures cls == if eventType in types then Some(types[eventType]) else None
    {
      cls := if eventType in types then Some(types[eventType]) else None;
    }
  }

  /** The first `k` names have been taken over, without conflict, and nothing else has changed. */
  ghost predicate TakenOver(before: Types, incoming: Types, names: seq<string>, k: nat, now: Types) {
    && k <= |names|
    && (forall n :: n in now <==> n in before || n in names[..k])
    && (forall n :: n in names[..k] ==> n in incoming && n in now && now[n] == incoming[n])
    && (forall n :: n in before ==> n in now && now[n] == before[n])
  }

  /** The row that the event gets; if the event is publishable, the row carries it. */
  ghost predicate RowFor(c: Codec, types: Types, e: Event, row: PendingRow)
    requires IsDomainEvent(e)
  {
    && RowOf(c, types, e) == Some(row)
    && (ParsersUndoPrinters(c) && Publishable(c, types, e) ==> Carries(c, types, row, e))
  }

  lemma RowOfIsRowFor(c: Codec, types: Types, e: Event)
    requires IsDomainEvent(e)
    ensures RowOf(c, types, e).Some? ==> RowFor(c, types, e, RowOf(c, types, e).value)
    ensures ParsersUndoPrinters(c) && Publishable(c, types, e) ==> RowOf(c, types, e).Some?
  {
    if ParsersUndoPrinters(c) && Publishable(c, types, e) { PublishedRowIsUnclaimed(c, types, e); }
  }

  class OutboxPublisher {
    var pending: seq<PendingRow>

    /**
     * Rows join the caller's transaction, in order. An unregistered class fails here, a payload that JSON
     * refuses at the flush; the rows before it stay pending until the transaction is rolled back.
     */
    method Publish(c: Codec, registry: EventTypeRegistry, events: seq<Event>) returns (published: bool)
      requires forall i :: 0 <= i < |events| ==> IsDomainEvent(events[i])
      modifies this
      ensures |old(pending)| <= |pending| <= |old(pending)| + |events| && pending[..|old(pending)|] == old(pending)
      ensures forall i :: 0 <= i < |pending| - |old(pending)| ==>
                RowFor(c, registry.types, events[i], pending[|old(pending)| + i])
      ensures published <==> |pending| == |old(pending)| + |events|
      ensures !published ==> RowOf(c, registry.types, events[|pending| - |old(pending)|]).None?
      ensures !published ==>
                var e := events[|pending| - |old(pending)|];
                !(ParsersUndoPrinters(c) && Publishable(c, registry.types, e))
    {
      ghost var before := pending;
      for k := 0 to |events|
        invariant |pending| == |before| + k && pending[..|before|] == before
        invariant forall i :: 0 <= i < k ==> RowFor(c, registry.types, events[i], pending[|before| + i])
      {
        var row := MakeRow(c, registry, events[k]);
        if row.None? {
          return false;
        }
        pending := pending + [row.value];
      }
      return true;
    }

    method MakeRow(c: Codec, registry: EventTypeRegistry, e: Event) returns (row: Option<PendingRow>)
      requires IsDomainEvent(e)
      ensures row.Some? ==> RowFor(c, registry.types, e, row.value)
      ensures row.None? ==> RowOf(c, registry.types, e).None?
      ensures row.None? ==> !(ParsersUndoPrinters(c) && Publishable(c, registry.types, e))
    {
      RowOfIsRowFor(c, registry.types, e);
      var payload := EncodeFields(c, e.cls.fields, e.values);
      var cls := registry.Resolve(e.cls.name);
      if cls.None? || payload.None? {
        return None;
      }
      row := Some(PendingRow(e.values[EVENT_ID].id, e.cls.name, payload.value, e.values[OCCURRED_AT].micros));
    }
  }
}
