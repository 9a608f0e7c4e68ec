// A parser for canonical texts: it inverts the printer on any following text, so
// equal texts mean equal values up to the order of object keys.
module CanonicalParser {
  import opened Common
  import opened CanonicalJson

  // ---------------------------------------------------------------- the parser

  /** Reads up to the closing quote. */
  function ParseString(t: Text): (r: Option<(Text, Text)>)
    ensures r.Some? ==> |r.value.1| < |t|
  {
    if t == [] then None
    else if t[0] == 34 then Some(([], t[1..]))
    else if t[0] != 92 then Prepend(t[0], ParseString(t[1..]))
    else if |t| < 2 then None
    else if t[1] != 117 then
      if Unescape(t[1]).None? then None else Prepend(Unescape(t[1]).value, ParseString(t[2..]))
    else if |t| < 6 || FromHex(t[2], t[3], t[4], t[5]).None? then None
    else Prepend(FromHex(t[2], t[3], t[4], t[5]).value, ParseString(t[6..]))
  }

  function Prepend(c: CodeUnit, r: Option<(Text, Text)>): Option<(Text, Text)> {
    if r.None? then None else Some(([c] + r.value.0, r.value.1))
  }

  function FromHex(a: CodeUnit, b: CodeUnit, c: CodeUnit, d: CodeUnit): Option<CodeUnit> {
    match (HexValue(a), HexValue(b), HexValue(c), HexValue(d))
    case (Some(w), Some(x), Some(y), Some(z)) =>
      if 0 <= w < 16 && 0 <= x < 16 && 0 <= y < 16 && 0 <= z < 16 then Some((4096 * w + 256 * x + 16 * y + z) as CodeUnit) else None
    case _ => None
  }

  /** How many leading units belong to a number. */
  function NumLength(t: Text): (n: nat)
    ensures n <= |t|
  {
    if t == [] || !NumUnit(t[0]) then 0 else 1 + NumLength(t[1..])
  }

  function Parse(t: Text): (r: Option<(Json, Text)>)
    ensures r.Some? ==> |r.value.1| < |t|
    decreases |t|, 0
  {
    if t == [] then None
    else if t[0] == 34 then
      match ParseString(t[1..]) case None => None case Some((s, rest)) => Some((Str(s), rest))
    else if t[0] == 91 then
      match ParseItems(t[1..], true) case None => None case Some((items, rest)) => Some((Arr(items), rest))
    else if t[0] == 123 then
      match ParseFields(t[1..], true) case None => None case Some((fs, rest)) => Some((Obj(fs), rest))
    else if NULL <= t then Some((Null, t[4..]))
    else if TRUE <= t then Some((Bool(true), t[4..]))
    else if FALSE <= t then Some((Bool(false), t[5..]))
    else if NumUnit(t[0]) then Some((Num(t[..NumLength(t)]), t[NumLength(t)..]))
    else None
  }

  function ParseItems(t: Text, first: bool): (r: Option<(Items, Text)>)
    ensures r.Some? ==> |r.value.1| < |t|
    decreases |t|, 1
  {
    if t == [] then None
    else if t[0] == 93 then Some((NoItems, t[1..]))
    else if !first && t[0] != 44 then None
    else
      match Parse(if first then t else t[1..])
      case None => None
      case Some((head, more)) =>
        match ParseItems(more, false) case None => None case Some((tail, rest)) => Some((Item(head, tail), rest))
  }

  function ParseFields(t: Text, first: bool): (r: Option<(Fields, Text)>)
    ensures r.Some? ==> |r.value.1| < |t|
    decreases |t|, 1
  {
    if t == [] then None
    else if t[0] == 125 then Some((NoFields, t[1..]))
    else if !first && t[0] != 44 then None
    else
      var u := if first then t else t[1..];
      if u == [] || u[0] != 34 then None else
      match ParseString(u[1..])
      case None => None
      case Some((key, more)) =>
        if more == [] || more[0] != 58 then None else
        match Parse(more[1..])
        case None => None
        case Some((value, after)) =>
          match ParseFields(after, false) case None => None case Some((tail, rest)) => Some((Field(key, value, tail), rest))
  }

  // ---------------------------------------------------------------- it inverts the printer

  lemma DigitInverts(d: int)
    requires 0 <= d < 16
    ensures HexValue(Hex(d)) == Some(d)
  {
  }

  lemma DigitsAddUp(n: int)
    requires 0 <= n < 0x1_0000
    ensures 4096 * (n / 4096) + 256 * (n / 256 % 16) + 16 * (n / 16 % 16) + n % 16 == n
  {
    assert n / 256 / 16 == n / 4096 && n / 16 / 16 == n / 256;
  }

  lemma HexInverts(c: CodeUnit)
    ensures FromHex(Hex(c as int / 4096), Hex(c as int / 256 % 16), Hex(c as int / 16 % 16), Hex(c as int % 16)) == Some(c)
  {
    var n := c as int;
    DigitInverts(n / 4096);
    DigitInverts(n / 256 % 16);
    DigitInverts(n / 16 % 16);
    DigitInverts(n % 16);
    DigitsAddUp(n);
  }

  /** Reading one raw unit, one short escape, one numeric escape. */
  lemma ReadRaw(c: CodeUnit, more: Text)
    requires c != 34 && c != 92
    ensures ParseString([c] + more) == Prepend(c, ParseString(more))
  {
    assert ([c] + more)[1..] == more;
  }

  lemma ReadShort(c: CodeUnit, more: Text)
    requires ShortEscape(c).Some?
    ensures ParseString([92, ShortEscape(c).value] + more) == Prepend(c, ParseString(more))
  {
    assert ([92, ShortEscape(c).value] + more)[2..] == more;
  }

  lemma ReadUnicode(c: CodeUnit, more: Text)
    ensures ParseString(Unicode(c) + more) == Prepend(c, ParseString(more))
  {
    HexInverts(c);
    var t := Unicode(c) + more;
    assert t[6..] == more;
    assert t[0] == 92 && t[1] == 117;
    assert t[2] == Hex(c as int / 4096) && t[3] == Hex(c as int / 256 % 16) && t[4] == Hex(c as int / 16 % 16) && t[5] == Hex(c as int % 16);
  }

  function PrependAll(cs: Text, r: Option<(Text, Text)>): Option<(Text, Text)> {
    if r.None? then None else Some((cs + r.value.0, r.value.1))
  }

  lemma PrependTwo(c: CodeUnit, d: CodeUnit, r: Option<(Text, Text)>)
    ensures Prepend(c, Prepend(d, r)) == PrependAll([c, d], r)
  {
    if r.Some? {
      assert [c] + ([d] + r.value.0) == [c, d] + r.value.0;
    }
  }

  lemma ReadToken(s: Text, more: Text)
    requires s != []
    ensures Taken(s) <= |s|
    ensures ParseString(Token(s) + more) == PrependAll(s[..Taken(s)], ParseString(more))
  {
    var c := s[0];
    assert s[..1] == [c];
    if ShortEscape(c).Some? {
      ReadShort(c, more);
    } else if PairFirst(s) && c >= 32 {
      assert s[..2] == [c, s[1]] && [c, s[1]] + more == [c] + ([s[1]] + more);
      ReadRaw(c, [s[1]] + more);
      ReadRaw(s[1], more);
      PrependTwo(c, s[1], ParseString(more));
    } else if c < 32 || HighSurrogate(c) || LowSurrogate(c) {
      ReadUnicode(c, more);
    } else {
      ReadRaw(c, more);
    }
  }

  lemma {:induction false} StringsInvert(s: Text, rest: Text)
    ensures ParseString(Escaped(s) + [34] + rest) == Some((s, rest))
    decreases |s|
  {
    if s == [] {
      assert Escaped(s) + [34] + rest == [34] + rest;
    } else {
      var k := Taken(s);
      var more := Escaped(s[k..]) + [34] + rest;
      ReadToken(s, more);
      StringsInvert(s[k..], rest);
      Regroup(true, Token(s), Escaped(s[k..]), 34, rest);
      assert s[..k] + s[k..] == s;
    }
  }

  /** A text that does not continue a number. */
  predicate EndsNumber(rest: Text) {
    rest == [] || !NumUnit(rest[0])
  }

  lemma {:induction false} NumbersInvert(t: Text, rest: Text)
    requires (forall i :: 0 <= i < |t| ==> NumUnit(t[i])) && EndsNumber(rest)
    ensures NumLength(t + rest) == |t|
  {
    if t == [] {
      assert t + rest == rest;
    } else {
      assert (t + rest)[1..] == t[1..] + rest;
      NumbersInvert(t[1..], rest);
    }
  }

  /** No infinities: what parsing canonical text can produce. */
  predicate Clean(j: Json) {
    match j
    case Infinity(_) => false
    case Arr(items) => ItemsClean(items)
    case Obj(fields) => FieldsClean(fields)
    case _ => true
  }

  predicate ItemsClean(items: Items) {
    items.Item? ==> Clean(items.head) && ItemsClean(items.tail)
  }

  predicate FieldsClean(fs: Fields) {
    fs.Field? ==> Clean(fs.value) && FieldsClean(fs.tail)
  }

  lemma PrintStarts(j: Json)
    requires Ok(j)
    ensures |Print(j)| > 0 && Print(j)[0] != 93 && Print(j)[0] != 125
  {
  }

  lemma WordsInvert(rest: Text)
    ensures Parse(NULL + rest) == Some((Null, rest))
    ensures Parse(TRUE + rest) == Some((Bool(true), rest))
    ensures Parse(FALSE + rest) == Some((Bool(false), rest))
  {
    var n, t, f := NULL + rest, TRUE + rest, FALSE + rest;
    assert n[..4] == NULL && n[4..] == rest;
    assert t[..4] == TRUE && t[4..] == rest && t[0] == 116;
    assert f[..5] == FALSE && f[5..] == rest && f[0] == 102;
  }

  lemma LexemesInvert(lexeme: Text, rest: Text)
    requires Lexeme(lexeme) && EndsNumber(rest)
    ensures Parse(lexeme + rest) == Some((Num(lexeme), rest))
  {
    var t := lexeme + rest;
    NumbersInvert(lexeme, rest);
    assert t[..|lexeme|] == lexeme && t[|lexeme|..] == rest && t[0] == lexeme[0];
  }

  lemma QuotesInvert(s: Text, rest: Text)
    ensures Parse(Quoted(s) + rest) == Some((Str(s), rest))
  {
    StringsInvert(s, rest);
    assert (Quoted(s) + rest)[1..] == Escaped(s) + [34] + rest;
  }

  lemma LeavesInvert(j: Json, rest: Text)
    requires Ok(j) && !j.Infinity? && !j.Arr? && !j.Obj? && EndsNumber(rest)
    ensures Parse(PrintLeaf(j) + rest) == Some((j, rest))
  {
    match j
    case Num(lexeme) => LexemesInvert(lexeme, rest);
    case Str(s) => QuotesInvert(s, rest);
    case _ => WordsInvert(rest);
  }

  /** Parsing what was printed gives the value back and leaves exactly the following text. */
  lemma {:induction false} ParserInvertsPrinter(j: Json, rest: Text)
    requires Ok(j) && Clean(j) && EndsNumber(rest)
    ensures Parse(Print(j) + rest) == Some((j, rest))
    decreases j, 1
  {
    var t := Print(j) + rest;
    match j
    case Arr(items) =>
      assert t[1..] == PrintItems(items, true) + [93] + rest;
      ItemsInvert(items, true, rest);
    case Obj(fields) =>
      assert t[1..] == PrintFields(fields, true) + [125] + rest;
      FieldsInvert(fields, true, rest);
    case _ => LeavesInvert(j, rest);
  }

  lemma ReadFirst(c: CodeUnit, more: Text)
    ensures ([c] + more)[0] == c && ([c] + more)[1..] == more
  {
  }

  lemma {:induction false} ItemsInvert(items: Items, first: bool, rest: Text)
    requires ItemsOk(items) && ItemsClean(items)
    ensures ParseItems(PrintItems(items, first) + [93] + rest, first) == Some((items, rest))
    decreases items, 0
  {
    var t := PrintItems(items, first) + [93] + rest;
    if items.NoItems? {
      assert t == [93] + rest;
      ReadFirst(93, rest);
    } else {
      var more := PrintItems(items.tail, false) + [93] + rest;
      ItemsInvert(items.tail, false, rest);
      ParserInvertsPrinter(items.head, more);
      Regroup(first, Print(items.head), PrintItems(items.tail, false), 93, rest);
      PrintStarts(items.head);
      ReadFirst(44, Print(items.head) + more);
      ReadItem(t, first, Print(items.head) + more, items.head, items.tail, more, rest);
    }
  }

  /** One step of reading items. */
  lemma ReadItem(t: Text, first: bool, u: Text, head: Json, tail: Items, more: Text, rest: Text)
    requires t == Join(first, u) && u != [] && u[0] != 93
    requires Parse(u) == Some((head, more)) && ParseItems(more, false) == Some((tail, rest))
    ensures ParseItems(t, first) == Some((Item(head, tail), rest))
  {
    ReadFirst(44, u);
  }

  /** A printed member, regrouped as it is read: the member itself, then everything after it. */
  lemma Regroup(first: bool, member: Text, others: Text, close: CodeUnit, rest: Text)
    ensures (Join(first, member) + others) + [close] + rest == Join(first, member + (others + [close] + rest))
  {
    assert (member + others) + [close] + rest == member + (others + [close] + rest);
  }

  /** A printed property, regrouped as it is read: quote, key, colon, value. */
  lemma RegroupKey(key: Text, value: Text, more: Text)
    ensures (Quoted(key) + [58] + value) + more == [34] + (Escaped(key) + [34] + ([58] + (value + more)))
  {
    var e := Escaped(key);
    assert ([34] + e + [34]) + [58] + value + more == [34] + (e + [34] + ([58] + (value + more)));
  }

  lemma {:induction false} FieldsInvert(fs: Fields, first: bool, rest: Text)
    requires FieldsOk(fs) && FieldsClean(fs)
    ensures ParseFields(PrintFields(fs, first) + [125] + rest, first) == Some((fs, rest))
    decreases fs, 0
  {
    var t := PrintFields(fs, first) + [125] + rest;
    if fs.NoFields? {
      assert t == [125] + rest;
      ReadFirst(125, rest);
    } else {
      var member := Quoted(fs.key) + [58] + Print(fs.value);
      var more := PrintFields(fs.tail, false) + [125] + rest;
      FieldsInvert(fs.tail, false, rest);
      ParserInvertsPrinter(fs.value, more);
      Regroup(first, member, PrintFields(fs.tail, false), 125, rest);
      RegroupKey(fs.key, Print(fs.value), more);
      StringsInvert(fs.key, [58] + (Print(fs.value) + more));
      ReadField(t, first, fs.key, Print(fs.value) + more, fs.value, fs.tail, more, rest);
    }
  }

  /** One step of reading properties. */
  lemma ReadField(t: Text, first: bool, key: Text, text: Text, value: Json, tail: Fields, more: Text, rest: Text)
    requires t == Join(first, [34] + (Escaped(key) + [34] + ([58] + text)))
    requires ParseString(Escaped(key) + [34] + ([58] + text)) == Some((key, [58] + text))
    requires Parse(text) == Some((value, more)) && ParseFields(more, false) == Some((tail, rest))
    ensures ParseFields(t, first) == Some((Field(key, value, tail), rest))
  {
    var body := Escaped(key) + [34] + ([58] + text);
    ReadFirst(34, body);
    ReadFirst(44, [34] + body);
    ReadFirst(58, text);
  }

  // ---------------------------------------------------------------- equality up to key order

  /** The values agree, whatever the order of their keys; an infinity reads as null. */
  predicate Same(a: Json, b: Json)
    decreases a
  {
    match (a, b)
    case (Arr(x), Arr(y)) => SameItems(x, y)
    case (Obj(x), Obj(y)) => Within(x, y) && KeysWithin(y, x)
    case (Infinity(_), _) => b.Null? || b.Infinity?
    case (Null, _) => b.Null? || b.Infinity?
    case _ => a == b
  }

  predicate SameItems(a: Items, b: Items)
    decreases a
  {
    if a.NoItems? then b.NoItems? else b.Item? && Same(a.head, b.head) && SameItems(a.tail, b.tail)
  }

  /** Every property of `a` is one of `b`, with the same value. */
  predicate Within(a: Fields, b: Fields)
    decreases a
  {
    a.Field? ==> Get(b, a.key).Some? && Same(a.value, Get(b, a.key).value) && Within(a.tail, b)
  }

  predicate KeysWithin(a: Fields, b: Fields) {
    a.Field? ==> Get(b, a.key).Some? && KeysWithin(a.tail, b)
  }

  // ---------------------------------------------------------------- sorted fields

  lemma {:induction false} LessIsStrict(a: Text, b: Text)
    ensures !(Less(a, b) && Less(b, a))
    ensures a != b ==> Less(a, b) || Less(b, a)
    ensures !Less(a, a)
  {
    if a != [] && b != [] && a[0] == b[0] {
      LessIsStrict(a[1..], b[1..]);
      assert a == [a[0]] + a[1..] && b == [b[0]] + b[1..];
    }
    if a != [] {
      LessIsStrict(a[1..], a[1..]);
    }
  }

  lemma {:induction false} LessIsTransitive(a: Text, b: Text, c: Text)
    requires Less(a, b) && Less(b, c)
    ensures Less(a, c)
  {
    if a != [] && a[0] == b[0] && b[0] == c[0] {
      LessIsTransitive(a[1..], b[1..], c[1..]);
    }
  }

  predicate Ordered(fs: Fields) {
    fs.Field? ==> Ordered(fs.tail) && (fs.tail.Field? ==> Less(fs.key, fs.tail.key))
  }

  lemma {:induction false} InsertGets(key: Text, value: Json, fs: Fields, k: Text)
    requires Ordered(fs) && Get(fs, key).None?
    ensures Ordered(Insert(key, value, fs))
    ensures Get(Insert(key, value, fs), k) == if k == key then Some(value) else Get(fs, k)
  {
    if fs.Field? {
      LessIsStrict(key, fs.key);
      if !Less(key, fs.key) {
        InsertGets(key, value, fs.tail, k);
      }
    }
  }

  function CanonOption(o: Option<Json>): Option<Json> {
    if o.None? then None else Some(Canon(o.value))
  }

  lemma {:induction false} CanonGets(fs: Fields, k: Text)
    requires FieldsOk(fs)
    ensures Ordered(CanonFields(fs)) && Get(CanonFields(fs), k) == CanonOption(Get(fs, k))
  {
    if fs.Field? {
      CanonGets(fs.tail, fs.key);
      CanonGets(fs.tail, k);
      InsertGets(fs.key, Canon(fs.value), CanonFields(fs.tail), k);
    }
  }

  /** A smaller key than the first does not occur in ordered fields. */
  lemma {:induction false} SmallerIsAbsent(fs: Fields, k: Text)
    requires Ordered(fs) && fs.Field? && Less(k, fs.key)
    ensures Get(fs, k).None?
  {
    LessIsStrict(k, fs.key);
    if fs.tail.Field? {
      LessIsTransitive(k, fs.key, fs.tail.key);
      SmallerIsAbsent(fs.tail, k);
    }
  }

  lemma FirstIsUnique(fs: Fields)
    requires Ordered(fs) && fs.Field?
    ensures Get(fs.tail, fs.key).None?
  {
    if fs.tail.Field? {
      SmallerIsAbsent(fs.tail, fs.key);
    }
  }

  /** Ordered fields are determined by what looking up each key gives. */
  lemma {:induction false} OrderedIsUnique(a: Fields, b: Fields)
    requires Ordered(a) && Ordered(b) && forall k: Text :: Get(a, k) == Get(b, k)
    ensures a == b
  {
    assert a.Field? ==> Get(a, a.key).Some? && Get(b, a.key).Some?;
    assert b.Field? ==> Get(b, b.key).Some? && Get(a, b.key).Some?;
    if a.Field? && b.Field? {
      assert Get(b, a.key) == Get(a, a.key) && Get(a, b.key) == Get(b, b.key);
      LessIsStrict(a.key, b.key);
      if Less(a.key, b.key) { SmallerIsAbsent(b, a.key); }
      if Less(b.key, a.key) { SmallerIsAbsent(a, b.key); }
      FirstIsUnique(a);
      FirstIsUnique(b);
      forall k: Text ensures Get(a.tail, k) == Get(b.tail, k) {
        assert Get(a, k) == Get(b, k);
      }
      OrderedIsUnique(a.tail, b.tail);
    }
  }

  // ---------------------------------------------------------------- canonical forms decide equality

  lemma {:induction false} CanonDecides(a: Json, b: Json)
    requires Ok(a) && Ok(b)
    ensures Canon(a) == Canon(b) <==> Same(a, b)
    decreases a, 1
  {
    match (a, b)
    case (Arr(x), Arr(y)) => ItemsDecide(x, y);
    case (Obj(x), Obj(y)) => ObjectsDecide(x, y);
    case _ =>
  }

  lemma {:induction false} ItemsDecide(a: Items, b: Items)
    requires ItemsOk(a) && ItemsOk(b)
    ensures CanonItems(a) == CanonItems(b) <==> SameItems(a, b)
    decreases a, 0
  {
    if a.Item? && b.Item? {
      CanonDecides(a.head, b.head);
      ItemsDecide(a.tail, b.tail);
    }
  }

  lemma {:induction false} WithinDecides(a: Fields, b: Fields)
    requires FieldsOk(a) && FieldsOk(b)
    ensures Within(a, b) <==> forall k: Text :: Get(a, k).Some? ==> CanonOption(Get(a, k)) == CanonOption(Get(b, k))
    decreases a, 0
  {
    if a.Field? {
      WithinDecides(a.tail, b);
      assert Get(a, a.key) == Some(a.value);
      assert forall k: Text :: k != a.key ==> Get(a, k) == Get(a.tail, k);
      if Get(b, a.key).Some? {
        GetOk(b, a.key);
        CanonDecides(a.value, Get(b, a.key).value);
      }
      if forall k: Text :: Get(a, k).Some? ==> CanonOption(Get(a, k)) == CanonOption(Get(b, k)) {
        forall k: Text | Get(a.tail, k).Some? ensures CanonOption(Get(a.tail, k)) == CanonOption(Get(b, k)) {
          assert k != a.key;
          assert Get(a, k) == Get(a.tail, k);
        }
        assert CanonOption(Get(a, a.key)) == CanonOption(Get(b, a.key));
      }
    }
  }

  lemma {:induction false} GetOk(fs: Fields, k: Text)
    requires FieldsOk(fs) && Get(fs, k).Some?
    ensures Ok(Get(fs, k).value)
  {
    if fs.key != k {
      GetOk(fs.tail, k);
    }
  }

  lemma {:induction false} KeysWithinDecides(a: Fields, b: Fields)
    ensures KeysWithin(a, b) <==> forall k: Text :: Get(a, k).Some? ==> Get(b, k).Some?
  {
    if a.Field? {
      KeysWithinDecides(a.tail, b);
      assert Get(a, a.key) == Some(a.value);
      if forall k: Text :: Get(a, k).Some? ==> Get(b, k).Some? {
        forall k: Text | Get(a.tail, k).Some? ensures Get(b, k).Some? {
          assert Get(a, k).Some?;
        }
        assert Get(b, a.key).Some?;
      }
    }
  }

  lemma ObjectsDecide(a: Fields, b: Fields)
    requires FieldsOk(a) && FieldsOk(b)
    ensures CanonFields(a) == CanonFields(b) <==> (Within(a, b) && KeysWithin(b, a))
    decreases a, 1
  {
    WithinDecides(a, b);
    KeysWithinDecides(b, a);
    var x, y := CanonFields(a), CanonFields(b);
    CanonGets(a, []);
    CanonGets(b, []);
    forall k: Text ensures Get(x, k) == CanonOption(Get(a, k)) && Get(y, k) == CanonOption(Get(b, k)) {
      CanonGets(a, k);
      CanonGets(b, k);
    }
    if Within(a, b) && KeysWithin(b, a) {
      forall k: Text ensures Get(x, k) == Get(y, k) {
        assert Get(b, k).Some? ==> Get(a, k).Some?;
        assert Get(a, k).Some? ==> CanonOption(Get(a, k)) == CanonOption(Get(b, k));
      }
      OrderedIsUnique(x, y);
    }
    if x == y {
      forall k: Text ensures CanonOption(Get(a, k)) == CanonOption(Get(b, k)) {
        assert Get(x, k) == Get(y, k);
      }
    }
  }

  // ---------------------------------------------------------------- the printer is faithful

  lemma {:induction false} InsertKeepsOk(key: Text, value: Json, fs: Fields)
    requires FieldsOk(fs) && FieldsClean(fs) && Ok(value) && Clean(value) && Get(fs, key).None? && Ordered(fs)
    ensures FieldsOk(Insert(key, value, fs)) && FieldsClean(Insert(key, value, fs))
  {
    if fs.Field? && !Less(key, fs.key) {
      InsertKeepsOk(key, value, fs.tail);
      InsertGets(key, value, fs.tail, fs.key);
    }
  }

  lemma {:induction false} CanonIsOk(j: Json)
    requires Ok(j)
    ensures Ok(Canon(j)) && Clean(Canon(j))
  {
    match j
    case Arr(items) => CanonItemsOk(items);
    case Obj(fields) => CanonFieldsOk(fields);
    case _ =>
  }

  lemma {:induction false} CanonItemsOk(items: Items)
    requires ItemsOk(items)
    ensures ItemsOk(CanonItems(items)) && ItemsClean(CanonItems(items))
  {
    if items.Item? {
      CanonIsOk(items.head);
      CanonItemsOk(items.tail);
    }
  }

  lemma {:induction false} CanonFieldsOk(fs: Fields)
    requires FieldsOk(fs)
    ensures FieldsOk(CanonFields(fs)) && FieldsClean(CanonFields(fs))
  {
    if fs.Field? {
      CanonIsOk(fs.value);
      CanonFieldsOk(fs.tail);
      CanonGets(fs.tail, fs.key);
      InsertKeepsOk(fs.key, Canon(fs.value), CanonFields(fs.tail));
    }
  }

  /** Printing and parsing gives the canonical form of a value, whatever text follows. */
  lemma CanonicalTextParses(j: Json, rest: Text)
    requires Ok(j) && Height(j) <= MAX_DEPTH && EndsNumber(rest)
    ensures Canonical(j, 0).Some? && Parse(Canonical(j, 0).value + rest) == Some((Canon(j), rest))
  {
    CanonicalPrints(j, 0);
    CanonIsOk(j);
    ParserInvertsPrinter(Canon(j), rest);
  }

  /** A value is printed exactly when it is not nested too deeply, and two texts are equal exactly when the values agree up to key order. */
  lemma CanonicalTextIdentifies(a: Json, b: Json)
    requires Ok(a) && Ok(b)
    ensures Canonical(a, 0).Some? <==> Height(a) <= MAX_DEPTH
    ensures Canonical(a, 0).Some? && Canonical(b, 0).Some? ==> (Canonical(a, 0) == Canonical(b, 0) <==> Same(a, b))
  {
    CanonicalPrints(a, 0);
    CanonicalPrints(b, 0);
    CanonDecides(a, b);
    if Height(a) <= MAX_DEPTH && Height(b) <= MAX_DEPTH {
      CanonicalTextParses(a, []);
      CanonicalTextParses(b, []);
    }
  }

  /** The one confusion: a number literal beyond the range of doubles has the text of null. */
  lemma InfinityReadsAsNull()
    ensures Ok(Infinity(false)) && Canonical(Infinity(false), 0) == Canonical(Null, 0)
  {
  }

  // ---------------------------------------------------------------- the format itself

  /** Four lower-case hexadecimal digits. */
  predicate HexDigits(t: Text, n: int) {
    && |t| == 4 && (forall i :: 0 <= i < 4 ==> HexValue(t[i]).Some?)
    && n == 4096 * HexValue(t[0]).value + 256 * HexValue(t[1]).value + 16 * HexValue(t[2]).value + HexValue(t[3]).value
  }

  lemma UnicodeIsExact(c: CodeUnit)
    ensures |Unicode(c)| == 6 && Unicode(c)[..2] == [92, 117] && HexDigits(Unicode(c)[2..], c as int)
  {
    var n := c as int;
    DigitInverts(n / 4096);
    DigitInverts(n / 256 % 16);
    DigitInverts(n / 16 % 16);
    DigitInverts(n % 16);
    DigitsAddUp(n);
    var t := Unicode(c)[2..];
    assert t[0] == Hex(n / 4096) && t[1] == Hex(n / 256 % 16) && t[2] == Hex(n / 16 % 16) && t[3] == Hex(n % 16);
  }

  /** One unit by itself: the seven short escapes, `\uXXXX` for other controls and lone surrogates, and itself otherwise. */
  lemma EscapeIsExact(c: CodeUnit)
    ensures Escaped([c]) ==
              if c == 8 then [92, 98] else if c == 9 then [92, 116] else if c == 10 then [92, 110] else if c == 12 then [92, 102]
              else if c == 13 then [92, 114] else if c == 34 then [92, 34] else if c == 92 then [92, 92]
              else if c < 32 || 0xd800 <= c <= 0xdfff then Unicode(c) else [c]
  {
    assert [c][1..] == [] && Escaped([]) == [];
    assert Escaped([c]) == Token([c]) + [];
  }

  /** A surrogate pair is written as it is. */
  lemma PairIsKept(high: CodeUnit, low: CodeUnit)
    requires 0xd800 <= high <= 0xdbff && 0xdc00 <= low <= 0xdfff
    ensures Escaped([high, low]) == [high, low]
  {
    assert [high, low][2..] == [];
    assert Escaped([high, low]) == Token([high, low]) + Escaped([]);
  }

  /** Number texts: they start with a minus sign or a digit and go on with digits, signs, points and exponent marks. */
  lemma LexemeIsExact(t: Text)
    ensures Lexeme(t) <==>
              && t != [] && t[0] != 43 && t[0] != 46 && t[0] != 101
              && forall i :: 0 <= i < |t| ==> t[i] in [48, 49, 50, 51, 52, 53, 54, 55, 56, 57, 43, 45, 46, 101]
  {
    forall c: CodeUnit ensures NumUnit(c) <==> c in [48, 49, 50, 51, 52, 53, 54, 55, 56, 57, 43, 45, 46, 101] {
    }
  }

  /** The order of keys: the shorter of two texts that agree comes first, and otherwise the first difference decides. */
  lemma {:induction false} LessIsLexicographic(a: Text, b: Text)
    ensures Less(a, b) <==> exists n: nat :: n <= |a| && n < |b| && a[..n] == b[..n] && (n == |a| || a[n] < b[n])
  {
    if a != [] && b != [] && a[0] == b[0] {
      var c, d := a[1..], b[1..];
      LessIsLexicographic(c, d);
      if Less(c, d) {
        var n: nat :| n <= |c| && n < |d| && c[..n] == d[..n] && (n == |c| || c[n] < d[n]);
        assert a[..n + 1] == [a[0]] + c[..n] && b[..n + 1] == [b[0]] + d[..n];
      }
      if n: nat :| n <= |a| && n < |b| && a[..n] == b[..n] && (n == |a| || a[n] < b[n]) {
        assert n > 0;
        assert c[..n - 1] == a[..n][1..] && d[..n - 1] == b[..n][1..];
      }
    } else if b != [] && (a == [] || a[0] < b[0]) {
      assert a[..0] == b[..0];
    }
  }

  /** The keys of a printed object come in strictly increasing order, whatever order the value has them in. */
  lemma KeysAreSorted(fs: Fields, depth: nat)
    requires Ok(Obj(fs)) && depth + Height(Obj(fs)) <= MAX_DEPTH
    ensures exists sorted :: Ordered(sorted) && Canonical(Obj(fs), depth) == Some([123] + PrintFields(sorted, true) + [125])
  {
    CanonicalPrints(Obj(fs), depth);
    CanonGets(fs, []);
  }

  lemma Brackets(open: CodeUnit, p: Text, q: Text, close: CodeUnit)
    ensures [open] + (p + (([44] + q) + [])) + [close] == [open] + p + [44] + q + [close]
  {
  }

  /** Arrays: the items in order, between brackets, with a comma in between. */
  lemma ArrayTextIsExact(x: Json, y: Json, s: Text, t: Text, d: nat)
    requires d < MAX_DEPTH && Canonical(x, d + 1) == Some(s) && Canonical(y, d + 1) == Some(t)
    ensures Canonical(Arr(Item(x, Item(y, NoItems))), d) == Some([91] + s + [44] + t + [93])
  {
    var last := Item(y, NoItems);
    assert CanonicalItems(last, d + 1, false) == Some(([44] + t) + []);
    assert CanonicalItems(Item(x, last), d + 1, true) == Some(s + (([44] + t) + []));
    Brackets(91, s, t, 93);
  }

  /** Objects: key, colon and value of each field, between braces, the smaller key first, whatever order the value has them in. */
  lemma ObjectTextIsExact(x: Json, y: Json, k: Text, l: Text, s: Text, t: Text, d: nat)
    requires d < MAX_DEPTH && Less(k, l) && Canonical(x, d + 1) == Some(s) && Canonical(y, d + 1) == Some(t)
    ensures Canonical(Obj(Field(k, x, Field(l, y, NoFields))), d) == Some([123] + (Quoted(k) + [58] + s) + [44] + (Quoted(l) + [58] + t) + [125])
    ensures Canonical(Obj(Field(l, y, Field(k, x, NoFields))), d) == Canonical(Obj(Field(k, x, Field(l, y, NoFields))), d)
  {
    var first, second := Quoted(k) + [58] + s, Quoted(l) + [58] + t;
    var last := Field(l, y, NoFields);
    SortedPair(x, y, k, l);
    assert CanonicalFields(last, d + 1, false) == Some(([44] + second) + []);
    assert CanonicalFields(Field(k, x, last), d + 1, true) == Some(first + (([44] + second) + []));
    Brackets(123, first, second, 125);
  }

  lemma SortedPair(x: Json, y: Json, k: Text, l: Text)
    requires Less(k, l)
    ensures Sorted(Field(k, x, Field(l, y, NoFields))) == Field(k, x, Field(l, y, NoFields))
    ensures Sorted(Field(l, y, Field(k, x, NoFields))) == Field(k, x, Field(l, y, NoFields))
  {
    LessIsStrict(k, l);
    assert Sorted(Field(l, y, NoFields)) == Field(l, y, NoFields);
    assert Sorted(Field(k, x, NoFields)) == Field(k, x, NoFields);
  }

  /** Empty containers, the words, and the empty string. */
  lemma SmallTextsAreExact(d: nat)
    requires d <= MAX_DEPTH
    ensures Canonical(Arr(NoItems), d) == Some([91, 93]) && Canonical(Obj(NoFields), d) == Some([123, 125])
    ensures Canonical(Null, d) == Some([110, 117, 108, 108]) && Canonical(Str([]), d) == Some([34, 34])
    ensures Canonical(Bool(true), d) == Some([116, 114, 117, 101]) && Canonical(Bool(false), d) == Some([102, 97, 108, 115, 101])
  {
    assert Sorted(NoFields) == NoFields && Escaped([]) == [];
    assert Canonical(Str([]), d) == Some(Quoted([]));
    assert Quoted([]) == [34, 34];
    assert [91] + [] + [93] == [91, 93 as CodeUnit] && [123] + [] + [125] == [123, 125 as CodeUnit];
  }

  // ---------------------------------------------------------------- inbox identity

  const TYPE: Text := [116, 121, 112, 101]
  const PAYLOAD: Text := [112, 97, 121, 108, 111, 97, 100]

  /** What an inbox digest covers: the event's type and its payload. */
  function InboxValue(kind: Text, payload: Json): Json {
    Obj(Field(TYPE, Str(kind), Field(PAYLOAD, payload, NoFields)))
  }

  lemma InboxValueOk(t: Text, p: Json)
    requires Ok(p)
    ensures Ok(InboxValue(t, p)) && Height(InboxValue(t, p)) == 1 + Height(p)
  {
    assert |TYPE| != |PAYLOAD|;
    var last := Field(PAYLOAD, p, NoFields);
    assert FieldsOk(last) && Get(last, TYPE).None?;
    assert FieldsHeight(last) == 1 + Height(p);
    assert FieldsOk(Field(TYPE, Str(t), last));
    assert FieldsHeight(Field(TYPE, Str(t), last)) == Max(1 + Height(Str(t)), FieldsHeight(last));
  }

  lemma InboxValuesAgree(t: Text, p: Json, u: Text, q: Json)
    ensures Same(InboxValue(t, p), InboxValue(u, q)) <==> t == u && Same(p, q)
  {
    assert |TYPE| != |PAYLOAD|;
    var a, b := Field(TYPE, Str(t), Field(PAYLOAD, p, NoFields)), Field(TYPE, Str(u), Field(PAYLOAD, q, NoFields));
    assert Get(a, TYPE) == Some(Str(t)) && Get(b, TYPE) == Some(Str(u)) && Get(a, PAYLOAD) == Some(p) && Get(b, PAYLOAD) == Some(q);
    assert Within(a.tail, b) <==> Same(p, q) && Within(NoFields, b);
    assert Within(a, b) <==> Same(Str(t), Str(u)) && Within(a.tail, b);
    assert KeysWithin(b.tail, a);
  }

  /** Two events have the same digested text exactly when their types are equal and their payloads agree up to key order. */
  lemma InboxTextIdentifies(t: Text, p: Json, u: Text, q: Json)
    requires Ok(p) && Ok(q) && Height(p) < MAX_DEPTH && Height(q) < MAX_DEPTH
    ensures Canonical(InboxValue(t, p), 0).Some? && Canonical(InboxValue(u, q), 0).Some?
    ensures Canonical(InboxValue(t, p), 0) == Canonical(InboxValue(u, q), 0) <==> t == u && Same(p, q)
  {
    InboxValueOk(t, p);
    InboxValueOk(u, q);
    InboxValuesAgree(t, p, u, q);
    CanonicalTextIdentifies(InboxValue(t, p), InboxValue(u, q));
    CanonicalTextIdentifies(InboxValue(u, q), InboxValue(t, p));
  }
}
