/**
 The structured-output validator (ai/schema.py).

 A schema is a record of the keywords in use; `unsupported` holds the others.  Floats are reals, and parsing
 JSON and matching regular expressions are parameters.
 */
module SchemaCheck {
  import opened Common

  datatype Json =
    | Null
    | Bool(b: bool)
    | Integer(n: int)
    | Float(x: real)
    | Str(s: string)
    | Arr(items: seq<Json>)
    | Obj(fields: map<string, Json>)

  datatype Schema = Schema(
    unsupported: set<string>,
    expected: Option<string>,
    nullable: bool,
    choices: Option<seq<Json>>,
    minimum: Option<real>, maximum: Option<real>,
    minLength: Option<int>, maxLength: Option<int>,
    pattern: Option<string>,
    minItems: Option<int>, maxItems: Option<int>,
    items: Option<Schema>,
    properties: seq<(string, Schema)>,
    required: seq<string>,
    closed: bool)                       // `additionalProperties` is False

  datatype Reason =
    | UnsupportedKeywords | UnknownType | WrongType | NotAChoice | TooSmall | TooLarge | TooShort | TooLong | NoMatch
    | TooFewItems | TooManyItems | MissingField(name: string) | ExtraFields | NotAnObject | NotJson

  datatype Seg = Index(i: nat) | Field(name: string)

  type Path = seq<Seg>

  datatype Failure = Failure(path: Path, reason: Reason)

  type Matches = (string, string) -> bool

  const TYPES: set<string> := {"object", "array", "string", "number", "integer", "boolean"}

  // ---------------------------------------------------------------- Python's view of values

  /** `isinstance`: `bool` is a subclass of `int`. */
  predicate IsInstance(v: Json, expected: string) {
    match v
    case Null => false
    case Bool(_) => expected in {"boolean", "integer", "number"}
    case Integer(_) => expected in {"integer", "number"}
    case Float(_) => expected == "number"
    case Str(_) => expected == "string"
    case Arr(_) => expected == "array"
    case Obj(_) => expected == "object"
  }

  predicate IsNumeric(v: Json) {
    v.Bool? || v.Integer? || v.Float?
  }

  function Numeric(v: Json): real
    requires IsNumeric(v)
  {
    match v case Bool(b) => (if b then 1.0 else 0.0) case Integer(n) => n as real case Float(x) => x
  }

  /** `==`: numbers compare by value whatever their type, so `1 == 1.0 == True`. */
  predicate Equal(a: Json, b: Json) {
    if IsNumeric(a) then IsNumeric(b) && Numeric(a) == Numeric(b)
    else match a
      case Arr(items) =>
        b.Arr? && |items| == |b.items| && forall i :: 0 <= i < |items| ==> Equal(items[i], b.items[i])
      case Obj(fields) =>
        b.Obj? && fields.Keys == b.fields.Keys && forall k :: k in fields ==> Equal(fields[k], b.fields[k])
      case _ => a == b
  }

  predicate IsChoice(v: Json, choices: seq<Json>) {
    exists i :: 0 <= i < |choices| && Equal(v, choices[i])
  }

  // ---------------------------------------------------------------- the checks

  /** `if item_schema`: an empty dict is false. */
  predicate IsEmpty(s: Schema) {
    s == Schema({}, None, false, None, None, None, None, None, None, None, None, None, [], [], false)
  }

  predicate Truthy(s: Option<string>) {
    s.Some? && s.value != ""
  }

  /** The first rule the value itself breaks, in the order they are checked. */
  function Fault(s: Schema, v: Json, matches: Matches): Option<Reason> {
    if s.unsupported != {} then Some(UnsupportedKeywords)
    else if Truthy(s.expected) then
      var expected := s.expected.value;
      if v.Null? && s.nullable then None
      else if expected !in TYPES then Some(UnknownType)
      else if expected in {"number", "integer"} && v.Bool? then Some(WrongType)
      else if !IsInstance(v, expected) then Some(WrongType)
      else ContentFault(s, v, matches)
    else ContentFault(s, v, matches)
  }

  function ContentFault(s: Schema, v: Json, matches: Matches): Option<Reason> {
    if s.choices.Some? && !IsChoice(v, s.choices.value) then Some(NotAChoice)
    else match v
      case Str(text) => StringFault(s, text, matches)
      case Integer(_) => NumberFault(s, v)
      case Float(_) => NumberFault(s, v)
      case Arr(items) => ArrayFault(s, items)
      case Obj(fields) => ObjectFault(s, fields)
      case _ => None
  }

  function NumberFault(s: Schema, v: Json): Option<Reason>
    requires IsNumeric(v)
  {
    if s.minimum.Some? && Numeric(v) < s.minimum.value then Some(TooSmall)
    else if s.maximum.Some? && Numeric(v) > s.maximum.value then Some(TooLarge)
    else None
  }

  function StringFault(s: Schema, text: string, matches: Matches): Option<Reason> {
    if s.minLength.Some? && |text| < s.minLength.value then Some(TooShort)
    else if s.maxLength.Some? && |text| > s.maxLength.value then Some(TooLong)
    else if Truthy(s.pattern) && !matches(s.pattern.value, text) then Some(NoMatch)
    else None
  }

  function ArrayFault(s: Schema, items: seq<Json>): Option<Reason> {
    if s.minItems.Some? && |items| < s.minItems.value then Some(TooFewItems)
    else if s.maxItems.Some? && |items| > s.maxItems.value then Some(TooManyItems)
    else None
  }

  function ObjectFault(s: Schema, fields: map<string, Json>): Option<Reason> {
    var missing := FirstMissing(s.required, fields);
    if missing.Some? then Some(MissingField(missing.value))
    else if s.closed && HasExtra(s, fields) then Some(ExtraFields)
    else None
  }

  function FirstMissing(required: seq<string>, fields: map<string, Json>): (r: Option<string>)
    ensures r.None? <==> forall name :: name in required ==> name in fields
    ensures r.Some? ==> r.value in required && r.value !in fields
  {
    if required == [] then None
    else if required[0] !in fields then Some(required[0]) else FirstMissing(required[1..], fields)
  }

  predicate HasExtra(s: Schema, fields: map<string, Json>) {
    exists name :: name in fields && forall k :: 0 <= k < |s.properties| ==> s.properties[k].0 != name
  }

  function Check(s: Schema, v: Json, path: Path, matches: Matches): Result<(), Failure>
    decreases s, 1, 0
  {
    match Fault(s, v, matches)
    case Some(reason) => Err(Failure(path, reason))
    case None =>
      if v.Arr? && s.items.Some? && !IsEmpty(s.items.value) then CheckItems(s.items.value, v.items, 0, path, matches)
      else if v.Obj? then CheckProperties(s, 0, v.fields, path, matches)
      else Ok(())
  }

  /** The items from number `index` on. */
  function CheckItems(s: Schema, items: seq<Json>, index: nat, path: Path, matches: Matches): Result<(), Failure>
    requires index <= |items|
    decreases s, 2, |items| - index
  {
    if index == |items| then Ok(())
    else
      var r := Check(s, items[index], path + [Index(index)], matches);
      if r.Err? then r else CheckItems(s, items, index + 1, path, matches)
  }

  /** The properties from number `k` on. */
  function CheckProperties(s: Schema, k: nat, fields: map<string, Json>, path: Path, matches: Matches)
    : Result<(), Failure>
    requires k <= |s.properties|
    decreases s, 0, |s.properties| - k
  {
    if k == |s.properties| then Ok(())
    else
      var (name, sub) := s.properties[k];
      if name in fields then
        var r := Check(sub, fields[name], path + [Field(name)], matches);
        if r.Err? then r else CheckProperties(s, k + 1, fields, path, matches)
      else CheckProperties(s, k + 1, fields, path, matches)
  }

  function ValidateAgainst(s: Schema, raw: string, parse: string -> Option<Json>, matches: Matches)
    : Result<Json, Failure>
  {
    match parse(raw)
    case None => Err(Failure([], NotJson))
    case Some(data) =>
      match Check(s, data, [], matches)
      case Err(f) => Err(f)
      case Ok(_) => if data.Obj? then Ok(data) else Err(Failure([], NotAnObject))
  }

  // ---------------------------------------------------------------- what a schema means

  /** Where a path leads, in the schema and in the value at once; nowhere if either stops short. */
  function At(s: Schema, v: Json, path: Path): Option<(Schema, Json)>
    decreases |path|
  {
    if path == [] then Some((s, v))
    else match path[0]
      case Index(i) =>
        if v.Arr? && i < |v.items| && s.items.Some? then At(s.items.value, v.items[i], path[1..]) else None
      case Field(name) =>
        var sub := Property(s.properties, name);
        if v.Obj? && name in v.fields && sub.Some? then At(sub.value, v.fields[name], path[1..]) else None
  }

  function Property(properties: seq<(string, Schema)>, name: string): Option<Schema> {
    if properties == [] then None
    else if properties[0].0 == name then Some(properties[0].1) else Property(properties[1..], name)
  }

  /** What a schema demands of a value, leaving aside what is inside the value. */
  ghost predicate Conforms(s: Schema, v: Json, matches: Matches) {
    forall r: Reason :: !Breaks(s, v, r, matches)
  }

  /** Values as Python's `==` sees them: a number is its value, whatever its type. */
  datatype Value =
    | Nothing
    | Number(x: real)
    | Text(s: string)
    | List(items: seq<Value>)
    | Dict(fields: map<string, Value>)

  function Norm(v: Json): Value {
    match v
    case Null => Nothing
    case Bool(b) => Number(if b then 1.0 else 0.0)
    case Integer(n) => Number(n as real)
    case Float(x) => Number(x)
    case Str(s) => Text(s)
    case Arr(items) => List(seq(|items|, i requires 0 <= i < |items| => Norm(items[i])))
    case Obj(fields) => Dict(map k | k in fields :: Norm(fields[k]))
  }

  function PropertyNames(s: Schema): set<string> {
    set k | 0 <= k < |s.properties| :: s.properties[k].0
  }

  predicate HasText(o: Option<string>) {
    o.Some? && |o.value| > 0
  }

  predicate NullAllowed(s: Schema, v: Json) {
    v == Null && s.nullable && HasText(s.expected)
  }

  predicate NamesType(expected: string) {
    || expected == "object" || expected == "array" || expected == "string" || expected == "number"
    || expected == "integer" || expected == "boolean"
  }

  predicate HasType(v: Json, expected: string) {
    match expected
    case "object" => v.Obj?
    case "array" => v.Arr?
    case "string" => v.Str?
    case "number" => v.Integer? || v.Float?
    case "integer" => v.Integer?
    case _ => v.Bool?
  }

  /** The value breaks the rule named by `r`. */
  predicate Breaks(s: Schema, v: Json, r: Reason, matches: Matches) {
    match r
    case UnsupportedKeywords => exists k :: k in s.unsupported
    case UnknownType => HasText(s.expected) && !NullAllowed(s, v) && !NamesType(s.expected.value)
    case WrongType =>
      HasText(s.expected) && !NullAllowed(s, v) && NamesType(s.expected.value) && !HasType(v, s.expected.value)
    case NotAChoice =>
      !NullAllowed(s, v) && s.choices.Some? && forall c :: c in s.choices.value ==> Norm(c) != Norm(v)
    case TooSmall => s.minimum.Some? && IsBelow(v, s.minimum.value)
    case TooLarge => s.maximum.Some? && IsAbove(v, s.maximum.value)
    case TooShort => v.Str? && s.minLength.Some? && |v.s| < s.minLength.value
    case TooLong => v.Str? && s.maxLength.Some? && |v.s| > s.maxLength.value
    case NoMatch => v.Str? && HasText(s.pattern) && !matches(s.pattern.value, v.s)
    case TooFewItems => v.Arr? && s.minItems.Some? && |v.items| < s.minItems.value
    case TooManyItems => v.Arr? && s.maxItems.Some? && |v.items| > s.maxItems.value
    case MissingField(name) => v.Obj? && name in s.required && name !in v.fields
    case ExtraFields => v.Obj? && s.closed && !(v.fields.Keys <= PropertyNames(s))
    case NotAnObject => false
    case NotJson => false
  }

  /** Bounds are for numbers, and a boolean is none. */
  predicate IsBelow(v: Json, bound: real) {
    (v.Integer? && v.n as real < bound) || (v.Float? && v.x < bound)
  }

  predicate IsAbove(v: Json, bound: real) {
    (v.Integer? && v.n as real > bound) || (v.Float? && v.x > bound)
  }

  /** Schemas are dicts: no level names a property twice. */
  ghost predicate IsDict(s: Schema) {
    && (forall j, k :: 0 <= j < k < |s.properties| ==> s.properties[j].0 != s.properties[k].0)
    && (forall k :: 0 <= k < |s.properties| ==> IsDict(s.properties[k].1))
    && (s.items.Some? ==> IsDict(s.items.value))
  }

  /** Everything the schema reaches in the value conforms. */
  ghost predicate Satisfies(s: Schema, v: Json, matches: Matches) {
    forall path :: At(s, v, path).Some? ==> Conforms(At(s, v, path).value.0, At(s, v, path).value.1, matches)
  }

  // ---------------------------------------------------------------- a rejection names a real fault

  /** Two values are equal exactly if they have one normal form. */
  lemma {:induction false} EqualExact(a: Json, b: Json)
    ensures Equal(a, b) <==> Norm(a) == Norm(b)
  {
    if a.Arr? && b.Arr? && |a.items| == |b.items| {
      forall i | 0 <= i < |a.items| ensures Equal(a.items[i], b.items[i]) <==> Norm(a.items[i]) == Norm(b.items[i]) {
        EqualExact(a.items[i], b.items[i]);
      }
      if Norm(a) == Norm(b) {
        forall i | 0 <= i < |a.items| ensures Norm(a.items[i]) == Norm(b.items[i]) {
          assert Norm(a).items[i] == Norm(b).items[i];
        }
      }
    } else if a.Arr? && b.Arr? {
      assert |Norm(a).items| != |Norm(b).items|;
    } else if a.Obj? && b.Obj? {
      forall k | k in a.fields && k in b.fields
        ensures Equal(a.fields[k], b.fields[k]) <==> Norm(a.fields[k]) == Norm(b.fields[k])
      {
        EqualExact(a.fields[k], b.fields[k]);
      }
      assert Norm(a).fields.Keys == a.fields.Keys && Norm(b).fields.Keys == b.fields.Keys;
      if Norm(a) == Norm(b) {
        forall k | k in a.fields ensures Norm(a.fields[k]) == Norm(b.fields[k]) {
          assert Norm(a).fields[k] == Norm(b).fields[k];
        }
      }
    }
  }

  /** A value is among the choices exactly if one of them has its normal form; a string, if it is listed itself. */
  lemma ChoiceExact(v: Json, choices: seq<Json>)
    ensures IsChoice(v, choices) <==> exists c :: c in choices && Norm(c) == Norm(v)
    ensures v.Str? || v.Null? ==> (IsChoice(v, choices) <==> v in choices)
  {
    forall i | 0 <= i < |choices| ensures Equal(v, choices[i]) <==> Norm(choices[i]) == Norm(v) {
      EqualExact(v, choices[i]);
    }
    if c :| c in choices && Norm(c) == Norm(v) {
      var i :| 0 <= i < |choices| && choices[i] == c;
    }
  }

  lemma ExtraExact(s: Schema, fields: map<string, Json>)
    ensures HasExtra(s, fields) <==> !(fields.Keys <= PropertyNames(s))
  {
    if !(fields.Keys <= PropertyNames(s)) {
      var name :| name in fields && name !in PropertyNames(s);
    }
  }

  predicate IsContentRule(r: Reason) {
    !r.UnsupportedKeywords? && !r.UnknownType? && !r.WrongType?
  }

  /** What `ContentFault` finds, of a value whose type is as it should be. */
  lemma {:induction false} ContentFaultExact(s: Schema, v: Json, matches: Matches)
    requires !NullAllowed(s, v)
    ensures ContentFault(s, v, matches).Some? ==>
              Breaks(s, v, ContentFault(s, v, matches).value, matches)
    ensures ContentFault(s, v, matches).None? ==>
              forall r: Reason :: IsContentRule(r) ==> !Breaks(s, v, r, matches)
  {
    if s.choices.Some? { ChoiceExact(v, s.choices.value); }
    if v.Obj? { ExtraExact(s, v.fields); }
  }

  lemma {:induction false} TypeExact(s: Schema, v: Json)
    requires HasText(s.expected)
    ensures s.expected.value in TYPES <==> NamesType(s.expected.value)
    ensures NamesType(s.expected.value) ==>
              (HasType(v, s.expected.value) <==>
               !(s.expected.value in {"number", "integer"} && v.Bool?) && IsInstance(v, s.expected.value))
  {
  }

  /** The checks on a value itself find a fault exactly when a rule is broken. */
  lemma {:induction false} FaultExact(s: Schema, v: Json, matches: Matches)
    ensures match Fault(s, v, matches)
            case None => Conforms(s, v, matches)
            case Some(reason) => Breaks(s, v, reason, matches)
  {
    if Truthy(s.expected) { TypeExact(s, v); }
    if !NullAllowed(s, v) { ContentFaultExact(s, v, matches); }
  }

  /** `f` points below `path`, at a value that breaks the rule `f` names. */
  predicate Blames(s: Schema, v: Json, path: Path, f: Failure, matches: Matches) {
    && |path| <= |f.path| && f.path[..|path|] == path
    && At(s, v, f.path[|path|..]).Some?
    && Breaks(At(s, v, f.path[|path|..]).value.0, At(s, v, f.path[|path|..]).value.1, f.reason, matches)
  }

  lemma BlameFromBelow(s: Schema, v: Json, path: Path, seg: Seg, sub: Schema, below: Json, f: Failure,
                       matches: Matches)
    requires At(s, v, [seg]) == Some((sub, below)) && Blames(sub, below, path + [seg], f, matches)
    ensures Blames(s, v, path, f, matches)
  {
  }

  lemma {:induction false} PropertyAt(properties: seq<(string, Schema)>, k: nat)
    requires k < |properties|
    requires forall i, j :: 0 <= i < j < |properties| ==> properties[i].0 != properties[j].0
    ensures Property(properties, properties[k].0) == Some(properties[k].1)
  {
    if k > 0 { PropertyAt(properties[1..], k - 1); }
  }

  lemma {:induction false} ItemsBlame(s: Schema, items: seq<Json>, index: nat, path: Path, matches: Matches)
    requires s.items.Some? && IsDict(s.items.value) && index <= |items|
    ensures var r := CheckItems(s.items.value, items, index, path, matches);
            r.Err? ==> Blames(s, Arr(items), path, r.error, matches)
    decreases s, 0, |items| - index
  {
    if index < |items| {
      var sub, item := s.items.value, items[index];
      CheckBlames(sub, item, path + [Index(index)], matches);
      match Check(sub, item, path + [Index(index)], matches)
      case Ok(_) => ItemsBlame(s, items, index + 1, path, matches);
      case Err(f) =>
        assert [Index(index)][1..] == [];
        BlameFromBelow(s, Arr(items), path, Index(index), sub, item, f, matches);
    }
  }

  lemma {:induction false} PropertiesBlame(s: Schema, k: nat, fields: map<string, Json>, path: Path, matches: Matches)
    requires IsDict(s) && k <= |s.properties|
    ensures var r := CheckProperties(s, k, fields, path, matches);
            r.Err? ==> Blames(s, Obj(fields), path, r.error, matches)
    decreases s, 0, |s.properties| - k
  {
    if k < |s.properties| {
      PropertiesBlame(s, k + 1, fields, path, matches);
      var (name, sub) := s.properties[k];
      if name in fields {
        CheckBlames(sub, fields[name], path + [Field(name)], matches);
        match Check(sub, fields[name], path + [Field(name)], matches)
        case Ok(_) =>
        case Err(f) =>
          PropertyAt(s.properties, k);
          assert [Field(name)][1..] == [];
          BlameFromBelow(s, Obj(fields), path, Field(name), sub, fields[name], f, matches);
      }
    }
  }

  lemma {:induction false} CheckBlames(s: Schema, v: Json, path: Path, matches: Matches)
    requires IsDict(s)
    ensures Check(s, v, path, matches).Err? ==> Blames(s, v, path, Check(s, v, path, matches).error, matches)
    decreases s, 1, 0
  {
    FaultExact(s, v, matches);
    if Fault(s, v, matches).Some? {
      assert path[|path|..] == [];
    } else if v.Arr? {
      if s.items.Some? { ItemsBlame(s, v.items, 0, path, matches); }
    } else if v.Obj? {
      PropertiesBlame(s, 0, v.fields, path, matches);
    }
  }

  // ---------------------------------------------------------------- an acceptance covers everything

  lemma EmptySchemaAllows(s: Schema, v: Json, path: Path, matches: Matches)
    requires IsEmpty(s) && At(s, v, path).Some?
    ensures Conforms(At(s, v, path).value.0, At(s, v, path).value.1, matches)
  {
  }

  lemma {:induction false} EveryItemChecked(s: Schema, items: seq<Json>, index: nat, path: Path, i: nat,
                                            matches: Matches)
    requires index <= i < |items| && CheckItems(s, items, index, path, matches).Ok?
    ensures Check(s, items[i], path + [Index(i)], matches).Ok?
    decreases i - index
  {
    if index < i { EveryItemChecked(s, items, index + 1, path, i, matches); }
  }

  lemma {:induction false} EveryPropertyChecked(s: Schema, k: nat, fields: map<string, Json>, path: Path, name: string,
                                                matches: Matches)
    requires k <= |s.properties| && CheckProperties(s, k, fields, path, matches).Ok? && name in fields
    requires Property(s.properties[k..], name).Some?
    ensures Check(Property(s.properties[k..], name).value, fields[name], path + [Field(name)], matches).Ok?
    decreases |s.properties| - k
  {
    if s.properties[k].0 != name {
      assert s.properties[k..][1..] == s.properties[k + 1..];
      EveryPropertyChecked(s, k + 1, fields, path, name, matches);
    }
  }

  lemma {:induction false} CheckCovers(s: Schema, v: Json, path: Path, below: Path, matches: Matches)
    requires Check(s, v, path, matches).Ok? && At(s, v, below).Some?
    ensures Conforms(At(s, v, below).value.0, At(s, v, below).value.1, matches)
    decreases |below|
  {
    if below == [] {
      FaultExact(s, v, matches);
    } else {
      match below[0]
      case Index(i) =>
        if IsEmpty(s.items.value) {
          EmptySchemaAllows(s.items.value, v.items[i], below[1..], matches);
        } else {
          EveryItemChecked(s.items.value, v.items, 0, path, i, matches);
          CheckCovers(s.items.value, v.items[i], path + [Index(i)], below[1..], matches);
        }
      case Field(name) =>
        assert s.properties[0..] == s.properties;
        EveryPropertyChecked(s, 0, v.fields, path, name, matches);
        CheckCovers(Property(s.properties, name).value, v.fields[name], path + [Field(name)], below[1..], matches);
    }
  }

  /** The failure names a sub-value that is there and breaks the rule. */
  predicate IsReal(s: Schema, v: Json, f: Failure, matches: Matches) {
    At(s, v, f.path).Some? && Breaks(At(s, v, f.path).value.0, At(s, v, f.path).value.1, f.reason, matches)
  }

  /** The validator accepts exactly the values in which everything the schema reaches conforms, and what it
      reports on a rejection is a real sub-value breaking the reported rule. */
  lemma CheckExact(s: Schema, v: Json, matches: Matches)
    requires IsDict(s)
    ensures Check(s, v, [], matches).Ok? <==> Satisfies(s, v, matches)
    ensures Check(s, v, [], matches).Err? ==> IsReal(s, v, Check(s, v, [], matches).error, matches)
  {
    CheckBlames(s, v, [], matches);
    match Check(s, v, [], matches)
    case Ok(_) =>
      forall path | At(s, v, path).Some?
        ensures Conforms(At(s, v, path).value.0, At(s, v, path).value.1, matches)
      {
        CheckCovers(s, v, [], path, matches);
      }
    case Err(f) =>
      assert f.path[0..] == f.path;
  }

  /** What the gateway gets is always a JSON object that satisfies the prompt's schema. */
  lemma ValidatedIsObject(s: Schema, raw: string, parse: string -> Option<Json>, matches: Matches)
    requires IsDict(s)
    ensures ValidateAgainst(s, raw, parse, matches).Ok? <==>
            parse(raw).Some? && parse(raw).value.Obj? && Satisfies(s, parse(raw).value, matches)
  {
    if parse(raw).Some? { CheckExact(s, parse(raw).value, matches); }
  }
}
