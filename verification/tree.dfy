/** The parsed-document tree (the output of the XML parser, or of `JSON.parse`
    for the procurement API) and the helpers of packages/etl/src/lib/xml.ts:
    `ensureArray` and `getNestedValue`, plus the JavaScript value semantics the
    record mappers use on it (`?.`, `??`, truthiness, `String(v)`). */
module Tree {
  import opened Wrappers
  import opened Strings

  /** One key of an object, in document order. Element attributes appear with
      the `@_` prefix and element text under `#text`, as the parser emits them. */
  datatype Entry = Entry(key: string, value: Node)

  /** A parsed value. JavaScript's `undefined` is not a node: an absent value is
      `Option.None`. */
  datatype Node =
    | Obj(entries: seq<Entry>)
    | Arr(items: seq<Node>)
    | Str(s: string)
    | Num(n: int)
    | Bool(b: bool)
    | Null

  /** `typeof v === 'object' && v !== null` (arrays are objects). */
  predicate IsObject(v: Node)
  {
    v.Obj? || v.Arr?
  }

  /** `v === null || v === undefined`. */
  predicate Nullish(o: Option<Node>)
  {
    o.None? || o.value.Null?
  }

  /** JavaScript truthiness: `undefined`, `null`, `""`, `0` and `false` are falsy. */
  predicate Truthy(o: Option<Node>)
  {
    match o
    case None => false
    case Some(v) =>
      match v
      case Null => false
      case Str(s) => s != ""
      case Num(n) => n != 0
      case Bool(b) => b
      case _ => true
  }

  /** The value stored under `key`: the first entry carrying that key. */
  function Lookup(entries: seq<Entry>, key: string): (r: Option<Node>)
    ensures r.None? <==> forall i :: 0 <= i < |entries| ==> entries[i].key != key
    ensures r.Some? ==> exists i :: 0 <= i < |entries| && entries[i] == Entry(key, r.value)
  {
    if |entries| == 0 then None
    else if entries[0].key == key then Some(entries[0].value)
    else
      var r := Lookup(entries[1..], key);
      assert r.Some? ==> exists i :: 0 <= i < |entries[1..]| && entries[1..][i] == Entry(key, r.value);
      r
  }

  /** A canonical array index: "0" or decimal digits without a leading zero. */
  function ArrayIndex(key: string): Option<nat>
  {
    if |key| > 0 && AllDigits(key) && (|key| == 1 || key[0] != '0') then Some(DigitsValue(key))
    else None
  }

  /** `v[key]` on a value that is neither `null` nor `undefined`: object keys,
      array and string indices and `length`; every other property is absent. */
  function Member(v: Node, key: string): Option<Node>
  {
    match v
    case Obj(entries) => Lookup(entries, key)
    case Arr(items) =>
      if key == "length" then Some(Num(|items|))
      else if ArrayIndex(key).Some? && ArrayIndex(key).value < |items| then Some(items[ArrayIndex(key).value])
      else None
    case Str(s) =>
      if key == "length" then Some(Num(|s|))
      else if ArrayIndex(key).Some? && ArrayIndex(key).value < |s| then Some(Str([s[ArrayIndex(key).value]]))
      else None
    case _ => None
  }

  /** Optional chaining `o?.[key]`: absent when `o` is nullish. */
  function Get(o: Option<Node>, key: string): (r: Option<Node>)
    ensures Nullish(o) ==> r.None?
    ensures o.Some? && o.value.Obj? ==> r == Lookup(o.value.entries, key)
  {
    if Nullish(o) then None else Member(o.value, key)
  }

  /** `o ?? d`. */
  function Coalesce(o: Option<Node>, d: Node): (r: Node)
    ensures Nullish(o) ==> r == d
    ensures !Nullish(o) ==> Some(r) == o
  {
    if Nullish(o) then d else o.value
  }

  /** `o ?? null`, the form every mapper uses for an optional column. */
  function OrNull(o: Option<Node>): Node
  {
    Coalesce(o, Null)
  }

  /** `String(v)`. Arrays join their elements with "," and print `null` and
      `undefined` elements as empty text. */
  function ToText(v: Node): string
  {
    match v
    case Obj(_) => "[object Object]"
    case Arr(items) => ItemsText(items)
    case Str(s) => s
    case Num(n) => IntToString(n)
    case Bool(b) => if b then "true" else "false"
    case Null => "null"
  }

  function ItemsText(items: seq<Node>): string
  {
    if |items| == 0 then ""
    else
      var head := if items[0].Null? then "" else ToText(items[0]);
      if |items| == 1 then head else head + "," + ItemsText(items[1..])
  }

  /** A template-literal hole `${o}`: `undefined` prints as "undefined". */
  function TemplateText(o: Option<Node>): string
  {
    match o
    case None => "undefined"
    case Some(v) => ToText(v)
  }

  /** `ensureArray(val)` (xml.ts:36-40): absent and `null` become the empty
      list, an array stays as it is, any other single value becomes a
      one-element list. */
  function EnsureArray(o: Option<Node>): (r: seq<Node>)
    ensures Nullish(o) ==> r == []
    ensures !Nullish(o) && o.value.Arr? ==> r == o.value.items
    ensures !Nullish(o) && !o.value.Arr? ==> r == [o.value]
  {
    match o
    case None => []
    case Some(v) =>
      match v
      case Null => []
      case Arr(items) => items
      case _ => [v]
  }

  /** Normalising an already-normalised list changes nothing. */
  lemma EnsureArrayIdempotent(o: Option<Node>)
    ensures EnsureArray(Some(Arr(EnsureArray(o)))) == EnsureArray(o)
  {
  }

  /** A lone child and a one-element list of that child are treated alike, which
      is the point of the helper: the parser collapses single children. */
  lemma EnsureArraySingleChild(v: Node)
    requires !v.Arr? && !v.Null?
    ensures EnsureArray(Some(v)) == EnsureArray(Some(Arr([v])))
  {
  }

  /** The loop of `getNestedValue` (xml.ts:50-57), from the current value on. */
  function Nested(current: Option<Node>, keys: seq<string>): (r: Option<Node>)
    ensures |keys| == 0 ==> r == current
    ensures |keys| > 0 && (Nullish(current) || !IsObject(current.value)) ==> r.None?
    decreases keys
  {
    if |keys| == 0 then current
    else if Nullish(current) || !IsObject(current.value) then None
    else Nested(Member(current.value, keys[0]), keys[1..])
  }

  /** `getNestedValue(obj, ...keys)`. */
  function GetNestedValue(obj: Node, keys: seq<string>): (r: Option<Node>)
    ensures |keys| == 0 ==> r == Some(obj)
    ensures |keys| > 0 && !IsObject(obj) ==> r.None?
  {
    Nested(Some(obj), keys)
  }

  /** One step of the walk: a key read on an object or array value. */
  lemma NestedStep(obj: Node, key: string)
    requires IsObject(obj)
    ensures GetNestedValue(obj, [key]) == Member(obj, key)
  {
  }

  /** Walking `a + b` is walking `a` and then walking `b` from where it ended; so
      the lookup equals the chain of single-key lookups in order, and once the
      walk reaches a value that is not an object it stays undefined. */
  lemma {:induction false} NestedAppend(current: Option<Node>, a: seq<string>, b: seq<string>)
    ensures Nested(current, a + b) == Nested(Nested(current, a), b)
    decreases |a|
  {
    if |a| == 0 {
      assert a + b == b;
    } else if Nullish(current) || !IsObject(current.value) {
      assert Nested(current, a) == None;
    } else {
      assert (a + b)[1..] == a[1..] + b;
      NestedAppend(Member(current.value, a[0]), a[1..], b);
    }
  }
}
