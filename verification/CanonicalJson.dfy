// The canonical JSON printer that event identity rests on, and what its text stands for.
module CanonicalJson {
  import opened Common

  /** One UTF-16 code unit, as strings are compared, escaped and hashed. */
  newtype CodeUnit = x: int | 0 <= x < 0x1_0000

  type Text = seq<CodeUnit>

  const MAX_DEPTH: nat := 64

  /** A parsed JSON value. A number is what it prints as; a literal beyond the range of doubles has become an infinity. */
  datatype Json =
    | Null
    | Bool(b: bool)
    | Num(lexeme: Text)
    | Infinity(negative: bool)
    | Str(s: Text)
    | Arr(items: Items)
    | Obj(fields: Fields)

  datatype Items = NoItems | Item(head: Json, tail: Items)

  /** Properties in insertion order. */
  datatype Fields = NoFields | Field(key: Text, value: Json, tail: Fields)

  // ---------------------------------------------------------------- well-formed values

  predicate NumUnit(c: CodeUnit) {
    48 <= c <= 57 || c == 43 || c == 45 || c == 46 || c == 101
  }

  predicate Lexeme(t: Text) {
    |t| > 0 && (t[0] == 45 || 48 <= t[0] <= 57) && forall i :: 0 <= i < |t| ==> NumUnit(t[i])
  }

  function Get(fs: Fields, key: Text): Option<Json> {
    match fs
    case NoFields => None
    case Field(k, v, tail) => if k == key then Some(v) else Get(tail, key)
  }

  predicate Ok(j: Json) {
    match j
    case Num(lexeme) => Lexeme(lexeme)
    case Arr(items) => ItemsOk(items)
    case Obj(fields) => FieldsOk(fields)
    case _ => true
  }

  predicate ItemsOk(items: Items) {
    items.Item? ==> Ok(items.head) && ItemsOk(items.tail)
  }

  /** Keys are distinct. */
  predicate FieldsOk(fs: Fields) {
    fs.Field? ==> Ok(fs.value) && Get(fs.tail, fs.key).None? && FieldsOk(fs.tail)
  }

  // ---------------------------------------------------------------- strings

  function Hex(d: int): CodeUnit
    requires 0 <= d < 16
  {
    if d < 10 then (48 + d) as CodeUnit else (87 + d) as CodeUnit
  }

  function HexValue(c: CodeUnit): Option<int> {
    if 48 <= c <= 57 then Some(c as int - 48) else if 97 <= c <= 102 then Some(c as int - 87) else None
  }

  function Unicode(c: CodeUnit): Text {
    [92, 117, Hex(c as int / 4096), Hex(c as int / 256 % 16), Hex(c as int / 16 % 16), Hex(c as int % 16)]
  }

  predicate HighSurrogate(c: CodeUnit) { 0xd800 <= c <= 0xdbff }

  predicate LowSurrogate(c: CodeUnit) { 0xdc00 <= c <= 0xdfff }

  /** The short escapes: backspace, tab, line feed, form feed, carriage return, quote and backslash. */
  function ShortEscape(c: CodeUnit): Option<CodeUnit> {
    if c == 8 then Some(98) else if c == 9 then Some(116) else if c == 10 then Some(110) else if c == 12 then Some(102)
    else if c == 13 then Some(114) else if c == 34 then Some(34) else if c == 92 then Some(92) else None
  }

  function Unescape(c: CodeUnit): Option<CodeUnit> {
    if c == 98 then Some(8) else if c == 116 then Some(9) else if c == 110 then Some(10) else if c == 102 then Some(12)
    else if c == 114 then Some(13) else if c == 34 then Some(34) else if c == 92 then Some(92) else None
  }

  predicate PairFirst(s: Text) {
    |s| > 1 && HighSurrogate(s[0]) && LowSurrogate(s[1])
  }

  /** How the first unit is written, or the first two of a surrogate pair. */
  function Token(s: Text): Text
    requires s != []
  {
    if ShortEscape(s[0]).Some? then [92, ShortEscape(s[0]).value]
    else if s[0] < 32 then Unicode(s[0])
    else if PairFirst(s) then [s[0], s[1]]
    else if HighSurrogate(s[0]) || LowSurrogate(s[0]) then Unicode(s[0])
    else [s[0]]
  }

  function Taken(s: Text): nat {
    if PairFirst(s) then 2 else 1
  }

  /** Escapes quotes, backslashes, control characters and surrogates that are not part of a pair. */
  function Escaped(s: Text): Text {
    if s == [] then [] else Token(s) + Escaped(s[Taken(s)..])
  }

  function Quoted(s: Text): Text {
    [34] + Escaped(s) + [34]
  }

  // ---------------------------------------------------------------- the printer

  const NULL: Text := [110, 117, 108, 108]
  const TRUE: Text := [116, 114, 117, 101]
  const FALSE: Text := [102, 97, 108, 115, 101]

  /** `JSON.stringify` of anything but a container. */
  function PrintLeaf(j: Json): Text
    requires !j.Arr? && !j.Obj?
  {
    match j
    case Null => NULL
    case Bool(b) => if b then TRUE else FALSE
    case Num(lexeme) => lexeme
    case Infinity(_) => NULL
    case Str(s) => Quoted(s)
  }

  /** Lexicographic order of code units. */
  predicate Less(a: Text, b: Text) {
    b != [] && (a == [] || a[0] < b[0] || (a[0] == b[0] && Less(a[1..], b[1..])))
  }

  function Insert(key: Text, value: Json, fs: Fields): Fields {
    if fs.NoFields? || Less(key, fs.key) then Field(key, value, fs) else Field(fs.key, fs.value, Insert(key, value, fs.tail))
  }

  function Sorted(fs: Fields): Fields {
    if fs.NoFields? then fs else Insert(fs.key, fs.value, Sorted(fs.tail))
  }

  function Join(first: bool, text: Text): Text {
    if first then text else [44] + text
  }

  /** The source's printer: containers print their members one level deeper, and no value may lie deeper than the limit. */
  function Canonical(j: Json, depth: nat): Option<Text>
    decreases Size(j), 1
  {
    if depth > MAX_DEPTH then None else
    match j
    case Arr(items) =>
      (match CanonicalItems(items, depth + 1, true) case None => None case Some(t) => Some([91] + t + [93]))
    case Obj(fields) =>
      SortedSize(fields);
      (match CanonicalFields(Sorted(fields), depth + 1, true) case None => None case Some(t) => Some([123] + t + [125]))
    case _ => Some(PrintLeaf(j))
  }

  function CanonicalItems(items: Items, depth: nat, first: bool): Option<Text>
    decreases ItemsSize(items), 0
  {
    if items.NoItems? then Some([]) else
    match (Canonical(items.head, depth), CanonicalItems(items.tail, depth, false))
    case (Some(h), Some(t)) => Some(Join(first, h) + t)
    case _ => None
  }

  function CanonicalFields(fs: Fields, depth: nat, first: bool): Option<Text>
    decreases FieldsSize(fs), 0
  {
    if fs.NoFields? then Some([]) else
    match (Canonical(fs.value, depth), CanonicalFields(fs.tail, depth, false))
    case (Some(h), Some(t)) => Some(Join(first, Quoted(fs.key) + [58] + h) + t)
    case _ => None
  }

  function Size(j: Json): nat {
    match j
    case Arr(items) => 1 + ItemsSize(items)
    case Obj(fields) => 1 + FieldsSize(fields)
    case _ => 1
  }

  function ItemsSize(items: Items): nat {
    if items.NoItems? then 0 else 1 + Size(items.head) + ItemsSize(items.tail)
  }

  function FieldsSize(fs: Fields): nat {
    if fs.NoFields? then 0 else 1 + Size(fs.value) + FieldsSize(fs.tail)
  }

  lemma {:induction false} InsertSize(key: Text, value: Json, fs: Fields)
    ensures FieldsSize(Insert(key, value, fs)) == 1 + Size(value) + FieldsSize(fs)
  {
    if fs.Field? && !Less(key, fs.key) {
      InsertSize(key, value, fs.tail);
    }
  }

  lemma {:induction false} SortedSize(fs: Fields)
    ensures FieldsSize(Sorted(fs)) == FieldsSize(fs)
  {
    if fs.Field? {
      SortedSize(fs.tail);
      InsertSize(fs.key, fs.value, Sorted(fs.tail));
    }
  }

  // ---------------------------------------------------------------- canonical forms

  /** The value with every object's keys sorted and infinities read as null: what the printed text means. */
  function Canon(j: Json): Json {
    match j
    case Infinity(_) => Null
    case Arr(items) => Arr(CanonItems(items))
    case Obj(fields) => Obj(CanonFields(fields))
    case _ => j
  }

  function CanonItems(items: Items): Items {
    if items.NoItems? then items else Item(Canon(items.head), CanonItems(items.tail))
  }

  function CanonFields(fs: Fields): Fields {
    if fs.NoFields? then fs else Insert(fs.key, Canon(fs.value), CanonFields(fs.tail))
  }

  /** Nesting depth: leaves are 0. */
  function Height(j: Json): nat {
    match j
    case Arr(items) => ItemsHeight(items)
    case Obj(fields) => FieldsHeight(fields)
    case _ => 0
  }

  /** One more than the highest member; an empty container is 0. */
  function ItemsHeight(items: Items): nat {
    if items.NoItems? then 0 else Max(1 + Height(items.head), ItemsHeight(items.tail))
  }

  function FieldsHeight(fs: Fields): nat {
    if fs.NoFields? then 0 else Max(1 + Height(fs.value), FieldsHeight(fs.tail))
  }

  /** Prints a value in its own key order, without a depth limit. */
  function Print(j: Json): Text {
    match j
    case Arr(items) => [91] + PrintItems(items, true) + [93]
    case Obj(fields) => [123] + PrintFields(fields, true) + [125]
    case _ => PrintLeaf(j)
  }

  function PrintItems(items: Items, first: bool): Text {
    if items.NoItems? then [] else Join(first, Print(items.head)) + PrintItems(items.tail, false)
  }

  function PrintFields(fs: Fields, first: bool): Text {
    if fs.NoFields? then [] else Join(first, Quoted(fs.key) + [58] + Print(fs.value)) + PrintFields(fs.tail, false)
  }

  /** Maps the members of sorted fields. */
  function CanonValues(fs: Fields): Fields {
    if fs.NoFields? then fs else Field(fs.key, Canon(fs.value), CanonValues(fs.tail))
  }

  lemma {:induction false} InsertMaps(key: Text, value: Json, fs: Fields)
    ensures CanonValues(Insert(key, value, fs)) == Insert(key, Canon(value), CanonValues(fs))
    ensures FieldsHeight(Insert(key, value, fs)) == Max(1 + Height(value), FieldsHeight(fs))
  {
    if fs.Field? && !Less(key, fs.key) {
      InsertMaps(key, value, fs.tail);
    }
  }

  lemma {:induction false} SortedMaps(fs: Fields)
    ensures CanonValues(Sorted(fs)) == CanonFields(fs)
    ensures FieldsHeight(Sorted(fs)) == FieldsHeight(fs)
  {
    if fs.Field? {
      SortedMaps(fs.tail);
      InsertMaps(fs.key, fs.value, Sorted(fs.tail));
    }
  }

  /** The printer prints the canonical form, exactly when the value is not nested too deeply. */
  lemma {:induction false} CanonicalPrints(j: Json, depth: nat)
    ensures Canonical(j, depth) == if depth + Height(j) <= MAX_DEPTH then Some(Print(Canon(j))) else None
    decreases Size(j), 1
  {
    if depth <= MAX_DEPTH {
      match j
      case Arr(items) => CanonicalItemsPrint(items, depth + 1, true);
      case Obj(fields) =>
        SortedSize(fields);
        SortedMaps(fields);
        CanonicalFieldsPrint(Sorted(fields), depth + 1, true);
      case _ =>
    }
  }

  lemma {:induction false} CanonicalItemsPrint(items: Items, depth: nat, first: bool)
    requires depth > 0
    ensures CanonicalItems(items, depth, first) ==
              if depth - 1 + ItemsHeight(items) <= MAX_DEPTH || items.NoItems? then Some(PrintItems(CanonItems(items), first)) else None
    decreases ItemsSize(items), 0
  {
    if items.Item? {
      CanonicalPrints(items.head, depth);
      CanonicalItemsPrint(items.tail, depth, false);
    }
  }

  lemma {:induction false} CanonicalFieldsPrint(fs: Fields, depth: nat, first: bool)
    requires depth > 0
    ensures CanonicalFields(fs, depth, first) ==
              if depth - 1 + FieldsHeight(fs) <= MAX_DEPTH || fs.NoFields? then Some(PrintFields(CanonValues(fs), first)) else None
    decreases FieldsSize(fs), 0
  {
    if fs.Field? {
      CanonicalPrints(fs.value, depth);
      CanonicalFieldsPrint(fs.tail, depth, false);
    }
  }
}
