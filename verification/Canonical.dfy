/** The two canonical serializers: `canonicalize` of the audit chain and
    `canonicalStringify` of the completion digests. */
module Canonical {
  import opened Prelude
  import opened Text

  /** A JSON number is identified with its shortest decimal text; `JSON.stringify`
      prints each finite double other than -0 in exactly one way. */
  predicate IsNumeral(s: string) {
    s != [] && forall c <- s :: '0' <= c <= '9' || c in "+-.e"
  }

  type Numeral = s: string | IsNumeral(s) witness "0"

  datatype Json =
    | Undefined
    | Null
    | Bool(b: bool)
    | Num(text: Numeral)
    | Str(s: string)
    | Arr(items: seq<Json>)
    | Obj(fields: seq<Field>)

  datatype Field = Field(key: string, value: Json)

  /** Object keys are unique. */
  predicate DistinctKeys(fs: seq<Field>) {
    forall i, j :: 0 <= i < j < |fs| ==> fs[i].key != fs[j].key
  }

  ghost predicate Valid(v: Json) {
    match v
    case Arr(items) => forall i :: 0 <= i < |items| ==> Valid(items[i])
    case Obj(fields) => DistinctKeys(fields) && forall i :: 0 <= i < |fields| ==> Valid(fields[i].value)
    case _ => true
  }

  // ---------------------------------------------------------------- quoting

  function HexDigit(d: nat): char
    requires d < 16
  {
    "0123456789abcdef"[d]
  }

  /** The letter of a two-character escape, for the characters that have one. */
  function ShortEscape(c: char): (r: string)
    ensures |r| <= 1 && (r != [] ==> r[0] in "\"\\btnfr")
  {
    if c == '"' || c == '\\' then [c]
    else if c as int == 8 then "b"
    else if c as int == 9 then "t"
    else if c as int == 10 then "n"
    else if c as int == 12 then "f"
    else if c as int == 13 then "r"
    else ""
  }

  /** One character inside a JSON string literal, escaped as `JSON.stringify` does. */
  function Escape(c: char): (r: string)
    ensures |r| in {1, 2, 6} && r[0] != '"'
    ensures |r| == 1 <==> r[0] != '\\'
    ensures |r| == 6 ==> r[1] == 'u'
    ensures |r| == 2 ==> r[1] != 'u'
  {
    if ShortEscape(c) != "" then "\\" + ShortEscape(c)
    else if c as int < 32 then "\\u00" + [HexDigit(c as int / 16), HexDigit(c as int % 16)]
    else [c]
  }

  lemma EscapeInjective(c: char, d: char)
    requires Escape(c) == Escape(d)
    ensures c == d
  {
    if |Escape(c)| == 2 {
      assert ShortEscape(c) == Escape(c)[1..] == Escape(d)[1..] == ShortEscape(d);
      assert ShortEscape(c)[0] == ShortEscape(d)[0];
    } else if |Escape(c)| == 6 {
      assert HexDigit(c as int / 16) == Escape(c)[4] == Escape(d)[4] == HexDigit(d as int / 16);
      assert HexDigit(c as int % 16) == Escape(c)[5] == Escape(d)[5] == HexDigit(d as int % 16);
    } else {
      assert Escape(c)[0] == Escape(d)[0];
    }
  }

  function EscapeAll(s: string): (r: string)
    ensures s != [] ==> r != [] && r[0] != '"'
  {
    if s == [] then [] else Escape(s[0]) + EscapeAll(s[1..])
  }

  function Quote(s: string): string {
    ['"'] + EscapeAll(s) + ['"']
  }

  lemma EscapeUnique(c: char, d: char, t: string, u: string)
    requires Escape(c) + t == Escape(d) + u
    ensures c == d && t == u
  {
    var x, y := Escape(c) + t, Escape(d) + u;
    assert x[0] == y[0];
    assert |Escape(c)| > 1 ==> x[1] == y[1];
    assert Escape(c) == x[..|Escape(c)|] && Escape(d) == y[..|Escape(d)|];
    EscapeInjective(c, d);
    assert t == x[|Escape(c)|..] && u == y[|Escape(d)|..];
  }

  lemma Assoc(p: string, q: string, r: string)
    ensures p + q + r == p + (q + r)
  {
  }

  lemma QuotedStep(a: string, b: string, t: string, u: string)
    requires a != [] && b != []
    requires EscapeAll(a) + t == EscapeAll(b) + u
    ensures a[0] == b[0] && EscapeAll(a[1..]) + t == EscapeAll(b[1..]) + u
  {
    Assoc(Escape(a[0]), EscapeAll(a[1..]), t);
    Assoc(Escape(b[0]), EscapeAll(b[1..]), u);
    EscapeUnique(a[0], b[0], EscapeAll(a[1..]) + t, EscapeAll(b[1..]) + u);
  }

  lemma {:induction false} QuotedUnique(a: string, b: string, t: string, u: string)
    requires t != [] && u != [] && t[0] == u[0] == '"'
    requires EscapeAll(a) + t == EscapeAll(b) + u
    ensures a == b && t == u
  {
    var x, y := EscapeAll(a) + t, EscapeAll(b) + u;
    assert x[0] == y[0];
    assert (a == [] <==> x[0] == '"') && (b == [] <==> y[0] == '"');
    if a == [] {
      assert EscapeAll(a) + t == t && EscapeAll(b) + u == u;
    } else {
      QuotedStep(a, b, t, u);
      QuotedUnique(a[1..], b[1..], t, u);
      assert a == [a[0]] + a[1..] && b == [b[0]] + b[1..];
    }
  }

  lemma QuoteUnique(a: string, b: string, t: string, u: string)
    requires Quote(a) + t == Quote(b) + u
    ensures a == b && t == u
  {
    var x, y := EscapeAll(a) + (['"'] + t), EscapeAll(b) + (['"'] + u);
    assert Quote(a) + t == ['"'] + x && Quote(b) + u == ['"'] + y;
    assert x == (['"'] + x)[1..] && y == (['"'] + y)[1..];
    QuotedUnique(a, b, ['"'] + t, ['"'] + u);
    assert t == (['"'] + t)[1..] && u == (['"'] + u)[1..];
  }

  // ---------------------------------------------------------------- serializers

  function Join(texts: seq<string>): string {
    if |texts| == 0 then "" else if |texts| == 1 then texts[0] else texts[0] + ("," + Join(texts[1..]))
  }

  /** The text of one property, kept with the key it is sorted by. */
  datatype Entry = Entry(key: string, text: string)

  function Insert(e: Entry, es: seq<Entry>): seq<Entry> {
    if es == [] || Less(e.key, es[0].key) then [e] + es else [es[0]] + Insert(e, es[1..])
  }

  function SortEntries(es: seq<Entry>): seq<Entry> {
    if es == [] then [] else Insert(es[0], SortEntries(es[1..]))
  }

  function EntryTexts(es: seq<Entry>): seq<string> {
    if es == [] then [] else [Quote(es[0].key) + (":" + es[0].text)] + EntryTexts(es[1..])
  }

  /** `canonicalize`: sorted keys; an undefined value prints as `null`. */
  function Canonicalize(v: Json): string
    decreases v, 1
  {
    match v
    case Undefined => "null"
    case Null => "null"
    case Bool(b) => if b then "true" else "false"
    case Num(text) => text
    case Str(s) => Quote(s)
    case Arr(items) => "[" + (Join(CanonicalItems(items)) + "]")
    case Obj(fields) => "{" + (Join(EntryTexts(SortEntries(CanonicalEntries(fields)))) + "}")
  }

  function CanonicalItems(items: seq<Json>): seq<string>
    decreases items, 0
  {
    if items == [] then [] else [Canonicalize(items[0])] + CanonicalItems(items[1..])
  }

  function CanonicalEntries(fs: seq<Field>): seq<Entry>
    decreases fs, 0
  {
    if fs == [] then [] else [Entry(fs[0].key, Canonicalize(fs[0].value))] + CanonicalEntries(fs[1..])
  }

  /** `canonicalStringify`: as above, but a property whose value is undefined is left out. */
  function Stringify(v: Json): string
    decreases v, 1
  {
    match v
    case Undefined => "null"
    case Null => "null"
    case Bool(b) => if b then "true" else "false"
    case Num(text) => text
    case Str(s) => Quote(s)
    case Arr(items) => "[" + (Join(StringifyItems(items)) + "]")
    case Obj(fields) => "{" + (Join(EntryTexts(SortEntries(StringifyEntries(fields)))) + "}")
  }

  function StringifyItems(items: seq<Json>): seq<string>
    decreases items, 0
  {
    if items == [] then [] else [Stringify(items[0])] + StringifyItems(items[1..])
  }

  function StringifyEntries(fs: seq<Field>): seq<Entry>
    decreases fs, 0
  {
    if fs == [] then []
    else if fs[0].value.Undefined? then StringifyEntries(fs[1..])
    else [Entry(fs[0].key, Stringify(fs[0].value))] + StringifyEntries(fs[1..])
  }

  // ---------------------------------------------------------------- equality of values

  function Get(fs: seq<Field>, key: string): Json {
    if fs == [] then Undefined else if fs[0].key == key then fs[0].value else Get(fs[1..], key)
  }

  ghost predicate Has(fs: seq<Field>, key: string) {
    exists i :: 0 <= i < |fs| && fs[i].key == key
  }

  /** Equality of values up to the order of object keys; undefined counts as null. */
  ghost predicate Same(a: Json, b: Json)
    decreases a, 1
  {
    match a
    case Undefined => b.Undefined? || b.Null?
    case Null => b.Undefined? || b.Null?
    case Bool(_) => a == b
    case Num(_) => a == b
    case Str(_) => a == b
    case Arr(xs) => b.Arr? && |xs| == |b.items| && forall i :: 0 <= i < |xs| ==> Same(xs[i], b.items[i])
    case Obj(fs) => b.Obj? && SameFields(fs, b.fields)
  }

  ghost predicate SameFields(fs: seq<Field>, gs: seq<Field>)
    decreases fs, 0
  {
    && (forall i :: 0 <= i < |gs| ==> Has(fs, gs[i].key))
    && forall i :: 0 <= i < |fs| ==> Has(gs, fs[i].key) && Same(fs[i].value, Get(gs, fs[i].key))
  }

  // ---------------------------------------------------------------- normal form

  function InsertField(f: Field, fs: seq<Field>): seq<Field> {
    if fs == [] || Less(f.key, fs[0].key) then [f] + fs else [fs[0]] + InsertField(f, fs[1..])
  }

  function SortFields(fs: seq<Field>): seq<Field> {
    if fs == [] then [] else InsertField(fs[0], SortFields(fs[1..]))
  }

  /** Keys sorted at every level, undefined replaced by null. */
  function Norm(v: Json): Json
    decreases v, 1
  {
    match v
    case Undefined => Null
    case Arr(items) => Arr(NormItems(items))
    case Obj(fields) => Obj(SortFields(NormFields(fields)))
    case _ => v
  }

  function NormItems(items: seq<Json>): (r: seq<Json>)
    decreases items, 0
  {
    if items == [] then [] else [Norm(items[0])] + NormItems(items[1..])
  }

  function NormFields(fs: seq<Field>): (r: seq<Field>)
    decreases fs, 0
  {
    if fs == [] then [] else [Field(fs[0].key, Norm(fs[0].value))] + NormFields(fs[1..])
  }

  /** Serialization in the given key order. */
  function Print(v: Json): string
    decreases v, 1
  {
    match v
    case Undefined => "null"
    case Null => "null"
    case Bool(b) => if b then "true" else "false"
    case Num(text) => text
    case Str(s) => Quote(s)
    case Arr(items) => "[" + (Join(PrintItems(items)) + "]")
    case Obj(fields) => "{" + (Join(EntryTexts(PrintEntries(fields))) + "}")
  }

  function PrintItems(items: seq<Json>): seq<string>
    decreases items, 0
  {
    if items == [] then [] else [Print(items[0])] + PrintItems(items[1..])
  }

  function PrintEntries(fs: seq<Field>): seq<Entry>
    decreases fs, 0
  {
    if fs == [] then [] else [Entry(fs[0].key, Print(fs[0].value))] + PrintEntries(fs[1..])
  }

  lemma {:induction false} InsertCommutes(f: Field, fs: seq<Field>)
    ensures PrintEntries(InsertField(f, fs)) == Insert(Entry(f.key, Print(f.value)), PrintEntries(fs))
  {
    if fs != [] && !Less(f.key, fs[0].key) {
      InsertCommutes(f, fs[1..]);
    }
  }

  lemma {:induction false} SortCommutes(fs: seq<Field>)
    ensures PrintEntries(SortFields(fs)) == SortEntries(PrintEntries(fs))
  {
    if fs != [] {
      SortCommutes(fs[1..]);
      InsertCommutes(fs[0], SortFields(fs[1..]));
    }
  }

  /** The serializer of the audit chain prints the normal form. */
  lemma {:induction false} CanonicalizeIsPrint(v: Json)
    ensures Canonicalize(v) == Print(Norm(v))
    decreases v, 1
  {
    match v
    case Arr(items) => CanonicalItemsArePrinted(items);
    case Obj(fields) =>
      CanonicalEntriesArePrinted(fields);
      SortCommutes(NormFields(fields));
    case _ =>
  }

  lemma {:induction false} CanonicalItemsArePrinted(items: seq<Json>)
    ensures CanonicalItems(items) == PrintItems(NormItems(items))
    decreases items, 0
  {
    if items != [] {
      CanonicalizeIsPrint(items[0]);
      CanonicalItemsArePrinted(items[1..]);
    }
  }

  lemma {:induction false} CanonicalEntriesArePrinted(fs: seq<Field>)
    ensures CanonicalEntries(fs) == PrintEntries(NormFields(fs))
    decreases fs, 0
  {
    if fs != [] {
      CanonicalizeIsPrint(fs[0].value);
      CanonicalEntriesArePrinted(fs[1..]);
    }
  }

  // ---------------------------------------------------------------- unique reading

  ghost predicate Defined(v: Json) {
    match v
    case Undefined => false
    case Arr(items) => forall i :: 0 <= i < |items| ==> Defined(items[i])
    case Obj(fields) => forall i :: 0 <= i < |fields| ==> Defined(fields[i].value)
    case _ => true
  }

  /** What may follow a value inside a serialization. */
  predicate Stop(t: string) {
    t == [] || t[0] in ",]}"
  }

  function Kind(v: Json): nat {
    match v
    case Undefined => 0
    case Null => 0
    case Bool(b) => if b then 1 else 2
    case Num(_) => 3
    case Str(_) => 4
    case Arr(_) => 5
    case Obj(_) => 6
  }

  function KindOfHead(c: char): nat {
    if c == 'n' then 0 else if c == 't' then 1 else if c == 'f' then 2
    else if c == '"' then 4 else if c == '[' then 5 else if c == '{' then 6
    else if c in ",]}" then 7 else 3
  }

  lemma Head(v: Json)
    ensures Print(v) != "" && KindOfHead(Print(v)[0]) == Kind(v)
  {
    match v
    case Num(text) => assert text[0] in text;
    case _ =>
  }

  lemma {:induction false} NumeralUnique(x: string, y: string, t: string, u: string)
    requires forall c <- x :: c !in ",]}"
    requires forall c <- y :: c !in ",]}"
    requires Stop(t) && Stop(u) && x + t == y + u
    ensures x == y && t == u
  {
    assert (x != [] ==> x[0] in x) && (y != [] ==> y[0] in y);
    if x != [] && y != [] {
      assert x + t == [x[0]] + (x[1..] + t) && y + u == [y[0]] + (y[1..] + u);
      assert (x + t)[0] == (y + u)[0] && (x + t)[1..] == (y + u)[1..];
      NumeralUnique(x[1..], y[1..], t, u);
      assert x == [x[0]] + x[1..] && y == [y[0]] + y[1..];
    } else {
      assert (x == [] ==> x + t == t) && (y == [] ==> y + u == u);
    }
  }

  lemma JoinUnfold(texts: seq<string>, t: string)
    requires texts != []
    ensures Join(texts) + t == texts[0] + (if |texts| == 1 then t else "," + (Join(texts[1..]) + t))
  {
    if |texts| > 1 {
      Assoc(texts[0], "," + Join(texts[1..]), t);
      Assoc(",", Join(texts[1..]), t);
    }
  }

  lemma DropFirst(c: string, x: string, y: string)
    requires |c| == 1 && c + x == c + y
    ensures x == y
  {
    assert x == (c + x)[1..] && y == (c + y)[1..];
  }

  lemma SameKind(a: Json, b: Json, t: string, u: string)
    requires Print(a) + t == Print(b) + u
    ensures Kind(a) == Kind(b)
  {
    Head(a);
    Head(b);
    assert (Print(a) + t)[0] == (Print(b) + u)[0];
  }

  /** A serialization can be read in one way only, whatever follows it. */
  lemma {:induction false} PrintUnique(a: Json, b: Json, t: string, u: string)
    requires Defined(a) && Defined(b) && Stop(t) && Stop(u)
    requires Print(a) + t == Print(b) + u
    ensures a == b && t == u
    decreases a, 1
  {
    SameKind(a, b, t, u);
    match a
    case Null => DropSame("null", t, u);
    case Bool(v) => DropSame(if v then "true" else "false", t, u);
    case Num(text) => NumeralUnique(text, b.text, t, u);
    case Str(x) => QuoteUnique(x, b.s, t, u);
    case Arr(xs) =>
      Bracketed("[", Join(PrintItems(xs)), "]", t);
      Bracketed("[", Join(PrintItems(b.items)), "]", u);
      DropFirst("[", Join(PrintItems(xs)) + ("]" + t), Join(PrintItems(b.items)) + ("]" + u));
      ItemsUnique(xs, b.items, t, u);
    case Obj(fs) =>
      Bracketed("{", Join(EntryTexts(PrintEntries(fs))), "}", t);
      Bracketed("{", Join(EntryTexts(PrintEntries(b.fields))), "}", u);
      DropFirst("{", Join(EntryTexts(PrintEntries(fs))) + ("}" + t), Join(EntryTexts(PrintEntries(b.fields))) + ("}" + u));
      FieldsUnique(fs, b.fields, t, u);
  }

  lemma DropSame(p: string, t: string, u: string)
    requires p + t == p + u
    ensures t == u
  {
    assert t == (p + t)[|p|..] && u == (p + u)[|p|..];
  }

  lemma Bracketed(l: string, m: string, r: string, t: string)
    ensures l + (m + r) + t == l + (m + (r + t))
  {
    Assoc(l, m + r, t);
    Assoc(m, r, t);
  }

  lemma {:induction false} ItemsUnique(xs: seq<Json>, ys: seq<Json>, t: string, u: string)
    requires forall i :: 0 <= i < |xs| ==> Defined(xs[i])
    requires forall i :: 0 <= i < |ys| ==> Defined(ys[i])
    requires Join(PrintItems(xs)) + ("]" + t) == Join(PrintItems(ys)) + ("]" + u)
    ensures xs == ys && t == u
    decreases xs, 0
  {
    if xs != [] { Head(xs[0]); JoinUnfold(PrintItems(xs), "]" + t); }
    if ys != [] { Head(ys[0]); JoinUnfold(PrintItems(ys), "]" + u); }
    assert (Join(PrintItems(xs)) + ("]" + t))[0] == if xs == [] then ']' else Print(xs[0])[0];
    assert (Join(PrintItems(ys)) + ("]" + u))[0] == if ys == [] then ']' else Print(ys[0])[0];
    assert (Join(PrintItems(xs)) + ("]" + t))[0] == (Join(PrintItems(ys)) + ("]" + u))[0];
    if xs == [] {
      assert Join(PrintItems(xs)) + ("]" + t) == "]" + t && Join(PrintItems(ys)) + ("]" + u) == "]" + u;
      DropFirst("]", t, u);
    } else {
      var tx := if |xs| == 1 then "]" + t else "," + (Join(PrintItems(xs[1..])) + ("]" + t));
      var ty := if |ys| == 1 then "]" + u else "," + (Join(PrintItems(ys[1..])) + ("]" + u));
      PrintUnique(xs[0], ys[0], tx, ty);
      assert tx[0] == ty[0];
      if |xs| == 1 {
        DropFirst("]", t, u);
      } else {
        DropFirst(",", Join(PrintItems(xs[1..])) + ("]" + t), Join(PrintItems(ys[1..])) + ("]" + u));
        ItemsUnique(xs[1..], ys[1..], t, u);
      }
      assert xs == [xs[0]] + xs[1..] && ys == [ys[0]] + ys[1..];
    }
  }

  /** Either both lists of entries are printed empty or neither is. */
  lemma FieldsBothEmpty(fs: seq<Field>, gs: seq<Field>, t: string, u: string)
    requires Join(EntryTexts(PrintEntries(fs))) + ("}" + t) == Join(EntryTexts(PrintEntries(gs))) + ("}" + u)
    ensures fs == [] <==> gs == []
    ensures fs == [] ==> t == u
  {
    if fs != [] { JoinUnfold(EntryTexts(PrintEntries(fs)), "}" + t); }
    if gs != [] { JoinUnfold(EntryTexts(PrintEntries(gs)), "}" + u); }
    assert (Join(EntryTexts(PrintEntries(fs))) + ("}" + t))[0] == if fs == [] then '}' else '"';
    assert (Join(EntryTexts(PrintEntries(gs))) + ("}" + u))[0] == if gs == [] then '}' else '"';
    assert (Join(EntryTexts(PrintEntries(fs))) + ("}" + t))[0] == (Join(EntryTexts(PrintEntries(gs))) + ("}" + u))[0];
    if fs == [] {
      assert Join(EntryTexts(PrintEntries(fs))) + ("}" + t) == "}" + t;
      assert Join(EntryTexts(PrintEntries(gs))) + ("}" + u) == "}" + u;
      DropFirst("}", t, u);
    }
  }

  lemma {:induction false} FieldsUnique(fs: seq<Field>, gs: seq<Field>, t: string, u: string)
    requires forall i :: 0 <= i < |fs| ==> Defined(fs[i].value)
    requires forall i :: 0 <= i < |gs| ==> Defined(gs[i].value)
    requires Join(EntryTexts(PrintEntries(fs))) + ("}" + t) == Join(EntryTexts(PrintEntries(gs))) + ("}" + u)
    ensures fs == gs && t == u
    decreases fs, 0
  {
    FieldsBothEmpty(fs, gs, t, u);
    if fs != [] {
      JoinUnfold(EntryTexts(PrintEntries(fs)), "}" + t);
      JoinUnfold(EntryTexts(PrintEntries(gs)), "}" + u);
      var tx := if |fs| == 1 then "}" + t else "," + (Join(EntryTexts(PrintEntries(fs[1..]))) + ("}" + t));
      var ty := if |gs| == 1 then "}" + u else "," + (Join(EntryTexts(PrintEntries(gs[1..]))) + ("}" + u));
      Bracketed(Quote(fs[0].key), ":", Print(fs[0].value), tx);
      Bracketed(Quote(gs[0].key), ":", Print(gs[0].value), ty);
      QuoteUnique(fs[0].key, gs[0].key, ":" + (Print(fs[0].value) + tx), ":" + (Print(gs[0].value) + ty));
      DropFirst(":", Print(fs[0].value) + tx, Print(gs[0].value) + ty);
      PrintUnique(fs[0].value, gs[0].value, tx, ty);
      assert tx[0] == ty[0];
      if |fs| == 1 {
        DropFirst("}", t, u);
      } else {
        DropFirst(",", Join(EntryTexts(PrintEntries(fs[1..]))) + ("}" + t), Join(EntryTexts(PrintEntries(gs[1..]))) + ("}" + u));
        FieldsUnique(fs[1..], gs[1..], t, u);
      }
      assert fs == [fs[0]] + fs[1..] && gs == [gs[0]] + gs[1..];
    }
  }

  // ---------------------------------------------------------------- normal forms and equality

  lemma {:induction false} GetIsTheOne(fs: seq<Field>, i: nat)
    requires DistinctKeys(fs) && i < |fs|
    ensures Get(fs, fs[i].key) == fs[i].value
  {
    if i > 0 {
      assert fs[0].key != fs[i].key;
      GetIsTheOne(fs[1..], i - 1);
    }
  }

  lemma {:induction false} NormFieldsAt(fs: seq<Field>)
    ensures |NormFields(fs)| == |fs|
    ensures forall i :: 0 <= i < |fs| ==> NormFields(fs)[i] == Field(fs[i].key, Norm(fs[i].value))
  {
    if fs != [] {
      NormFieldsAt(fs[1..]);
    }
  }

  lemma {:induction false} NormItemsAt(items: seq<Json>)
    ensures |NormItems(items)| == |items|
    ensures forall i :: 0 <= i < |items| ==> NormItems(items)[i] == Norm(items[i])
  {
    if items != [] {
      NormItemsAt(items[1..]);
    }
  }

  lemma {:induction false} InsertKeepsElements(f: Field, fs: seq<Field>)
    ensures forall g :: g in InsertField(f, fs) <==> g == f || g in fs
  {
    if fs != [] && !Less(f.key, fs[0].key) {
      InsertKeepsElements(f, fs[1..]);
      assert fs == [fs[0]] + fs[1..];
    }
  }

  lemma {:induction false} SortKeepsElements(fs: seq<Field>)
    ensures forall g :: g in SortFields(fs) <==> g in fs
  {
    if fs != [] {
      SortKeepsElements(fs[1..]);
      InsertKeepsElements(fs[0], SortFields(fs[1..]));
      assert fs == [fs[0]] + fs[1..];
    }
  }

  ghost predicate Ascending(fs: seq<Field>) {
    forall i, j :: 0 <= i < j < |fs| ==> Less(fs[i].key, fs[j].key)
  }

  lemma {:induction false} InsertAscending(f: Field, fs: seq<Field>)
    requires Ascending(fs) && forall g <- fs :: g.key != f.key
    ensures Ascending(InsertField(f, fs))
  {
    if fs != [] {
      LessTotal(f.key, fs[0].key);
      assert fs[0] in fs;
      if Less(f.key, fs[0].key) {
        forall j | 0 <= j < |fs| ensures Less(f.key, fs[j].key) {
          if j > 0 { LessTransitive(f.key, fs[0].key, fs[j].key); }
        }
      } else {
        InsertAscending(f, fs[1..]);
        InsertKeepsElements(f, fs[1..]);
        var r := InsertField(f, fs[1..]);
        forall j | 0 <= j < |r| ensures Less(fs[0].key, r[j].key) {
          assert r[j] in r;
        }
      }
    }
  }

  lemma {:induction false} SortAscending(fs: seq<Field>)
    requires DistinctKeys(fs)
    ensures Ascending(SortFields(fs))
  {
    if fs != [] {
      SortAscending(fs[1..]);
      SortKeepsElements(fs[1..]);
      InsertAscending(fs[0], SortFields(fs[1..]));
    }
  }

  /** The elements of an ascending list determine it. */
  lemma {:induction false} AscendingUnique(fs: seq<Field>, gs: seq<Field>)
    requires Ascending(fs) && Ascending(gs)
    requires forall g :: g in fs <==> g in gs
    ensures fs == gs
  {
    assert (fs != [] ==> fs[0] in fs) && (gs != [] ==> gs[0] in gs);
    if fs != [] {
      LessTotal(fs[0].key, gs[0].key);
      assert fs[0] == gs[0];
      LessIrreflexive(fs[0].key);
      assert forall g :: g in fs[1..] <==> g in fs && g != fs[0];
      assert forall g :: g in gs[1..] <==> g in gs && g != gs[0];
      AscendingUnique(fs[1..], gs[1..]);
      assert fs == [fs[0]] + fs[1..] && gs == [gs[0]] + gs[1..];
    }
  }

  lemma {:induction false} NormSame(a: Json, b: Json)
    requires Valid(a) && Valid(b)
    ensures Norm(a) == Norm(b) <==> Same(a, b)
    decreases a
  {
    match a
    case Arr(xs) =>
      if b.Arr? {
        NormItemsAt(xs);
        NormItemsAt(b.items);
        if |xs| == |b.items| {
          forall i | 0 <= i < |xs| ensures Norm(xs[i]) == Norm(b.items[i]) <==> Same(xs[i], b.items[i]) {
            NormSame(xs[i], b.items[i]);
          }
          assert (forall i :: 0 <= i < |xs| ==> NormItems(xs)[i] == NormItems(b.items)[i]) <==> NormItems(xs) == NormItems(b.items);
        }
      }
    case Obj(fs) =>
      if b.Obj? {
        forall i, j | 0 <= i < |fs| && 0 <= j < |b.fields|
          ensures Norm(fs[i].value) == Norm(b.fields[j].value) <==> Same(fs[i].value, b.fields[j].value)
        {
          NormSame(fs[i].value, b.fields[j].value);
        }
        if SameFields(fs, b.fields) {
          SameFieldsSorted(fs, b.fields);
        } else if SortFields(NormFields(fs)) == SortFields(NormFields(b.fields)) {
          SortedFieldsSame(fs, b.fields);
        }
      }
    case _ =>
  }

  lemma SameFieldsSorted(fs: seq<Field>, gs: seq<Field>)
    requires DistinctKeys(fs) && DistinctKeys(gs) && SameFields(fs, gs)
    requires forall i, j :: 0 <= i < |fs| && 0 <= j < |gs| && Same(fs[i].value, gs[j].value) ==> Norm(fs[i].value) == Norm(gs[j].value)
    ensures SortFields(NormFields(fs)) == SortFields(NormFields(gs))
  {
    var f, g := NormFields(fs), NormFields(gs);
    NormFieldsAt(fs);
    NormFieldsAt(gs);
    forall i | 0 <= i < |fs| ensures f[i] in g {
      var j :| 0 <= j < |gs| && gs[j].key == fs[i].key;
      GetIsTheOne(gs, j);
      assert f[i] == g[j];
    }
    forall j | 0 <= j < |gs| ensures g[j] in f {
      var i :| 0 <= i < |fs| && fs[i].key == gs[j].key;
      GetIsTheOne(gs, j);
      assert f[i] == g[j];
    }
    SortKeepsElements(f);
    SortKeepsElements(g);
    SortAscending(f);
    SortAscending(g);
    AscendingUnique(SortFields(f), SortFields(g));
  }

  lemma SortedFieldsSame(fs: seq<Field>, gs: seq<Field>)
    requires DistinctKeys(gs) && SortFields(NormFields(fs)) == SortFields(NormFields(gs))
    requires forall i, j :: 0 <= i < |fs| && 0 <= j < |gs| && Norm(fs[i].value) == Norm(gs[j].value) ==> Same(fs[i].value, gs[j].value)
    ensures SameFields(fs, gs)
  {
    var f, g := NormFields(fs), NormFields(gs);
    NormFieldsAt(fs);
    NormFieldsAt(gs);
    SortKeepsElements(f);
    SortKeepsElements(g);
    forall i | 0 <= i < |fs| ensures Has(gs, fs[i].key) && Same(fs[i].value, Get(gs, fs[i].key)) {
      assert f[i] in f && f[i] in g;
      var j :| 0 <= j < |g| && g[j] == f[i];
      GetIsTheOne(gs, j);
    }
    forall j | 0 <= j < |gs| ensures Has(fs, gs[j].key) {
      assert g[j] in g && g[j] in f;
      var i :| 0 <= i < |f| && f[i] == g[j];
    }
  }

  lemma {:induction false} NormDefined(v: Json)
    ensures Defined(Norm(v))
    decreases v
  {
    match v
    case Arr(items) =>
      NormItemsAt(items);
      forall i | 0 <= i < |items| ensures Defined(Norm(items[i])) { NormDefined(items[i]); }
    case Obj(fields) =>
      NormFieldsAt(fields);
      SortKeepsElements(NormFields(fields));
      var r := SortFields(NormFields(fields));
      forall i | 0 <= i < |r| ensures Defined(r[i].value) {
        assert r[i] in r && r[i] in NormFields(fields);
        var j :| 0 <= j < |fields| && NormFields(fields)[j] == r[i];
        NormDefined(fields[j].value);
      }
    case _ =>
  }

  /** The audit serializer identifies exactly the values equal up to key order. */
  lemma CanonicalizeInjective(a: Json, b: Json)
    requires Valid(a) && Valid(b)
    ensures Canonicalize(a) == Canonicalize(b) <==> Same(a, b)
  {
    CanonicalizeIsPrint(a);
    CanonicalizeIsPrint(b);
    NormSame(a, b);
    NormDefined(a);
    NormDefined(b);
    if Canonicalize(a) == Canonicalize(b) {
      PrintUnique(Norm(a), Norm(b), "", "");
    }
  }

  predicate DistinctTexts(keys: seq<string>) {
    forall i, j :: 0 <= i < j < |keys| ==> keys[i] != keys[j]
  }

  /** An object with fixed keys and the i-th value `value(i)`. */
  function Record(keys: seq<string>, value: nat -> Json): Json {
    Obj(seq(|keys|, i requires 0 <= i < |keys| => Field(keys[i], value(i))))
  }

  lemma RecordSameAt(keys: seq<string>, f: nat -> Json, g: nat -> Json, i: nat)
    requires DistinctTexts(keys) && i < |keys| && Same(Record(keys, f), Record(keys, g))
    ensures Same(f(i), g(i))
  {
    var r, q := Record(keys, f).fields, Record(keys, g).fields;
    assert r[i].key == keys[i] == q[i].key;
    GetIsTheOne(q, i);
  }

  /** A record gives each key its own value. */
  lemma RecordGet(keys: seq<string>, f: nat -> Json, i: nat)
    requires DistinctTexts(keys) && i < |keys|
    ensures Get(Record(keys, f).fields, keys[i]) == f(i)
  {
    var r := Record(keys, f).fields;
    assert r[i].key == keys[i];
    GetIsTheOne(r, i);
  }

  lemma RecordValid(keys: seq<string>, f: nat -> Json)
    requires DistinctTexts(keys) && forall i: nat :: i < |keys| ==> Valid(f(i)) && Defined(f(i))
    ensures Valid(Record(keys, f)) && Defined(Record(keys, f))
  {
  }

  /** An array with the elements of `xs`, each in its own JSON form. */
  function List<T>(xs: seq<T>, f: T -> Json): Json {
    Arr(seq(|xs|, i requires 0 <= i < |xs| => f(xs[i])))
  }

  lemma ListSame<T>(xs: seq<T>, ys: seq<T>, f: T -> Json)
    requires Same(List(xs, f), List(ys, f))
    requires forall i, j :: 0 <= i < |xs| && 0 <= j < |ys| && Same(f(xs[i]), f(ys[j])) ==> xs[i] == ys[j]
    ensures xs == ys
  {
    forall i | 0 <= i < |xs| ensures xs[i] == ys[i] {
      assert Same(List(xs, f).items[i], List(ys, f).items[i]);
    }
  }

  lemma ListValid<T>(xs: seq<T>, f: T -> Json)
    requires forall i :: 0 <= i < |xs| ==> Valid(f(xs[i])) && Defined(f(xs[i]))
    ensures Valid(List(xs, f)) && Defined(List(xs, f))
  {
  }

  lemma StrSame(a: string, b: string)
    ensures Same(Str(a), Str(b)) <==> a == b
  {
  }

  // ---------------------------------------------------------------- numbers and nullable columns

  function NatJson(n: nat): Json {
    assert IsNumeral(NatText(n));
    Num(NatText(n))
  }

  function OptStr(s: Option<string>): Json {
    if s.Some? then Str(s.value) else Null
  }

  function OptNat(n: Option<nat>): Json {
    if n.Some? then NatJson(n.value) else Null
  }

  lemma OptStrSame(a: Option<string>, b: Option<string>)
    ensures Same(OptStr(a), OptStr(b)) <==> a == b
  {
  }

  lemma NatJsonSame(m: nat, n: nat)
    ensures Same(NatJson(m), NatJson(n)) <==> m == n
  {
    if NatText(m) == NatText(n) { NatTextInjective(m, n); }
  }

  lemma OptNatSame(a: Option<nat>, b: Option<nat>)
    ensures Same(OptNat(a), OptNat(b)) <==> a == b
  {
    if a.Some? && b.Some? { NatJsonSame(a.value, b.value); }
  }

  // ---------------------------------------------------------------- the digest serializer

  /** What `JSON.stringify` keeps of a value: properties that are undefined disappear. */
  function Prune(v: Json): Json
    decreases v, 1
  {
    match v
    case Undefined => Null
    case Arr(items) => Arr(PruneItems(items))
    case Obj(fields) => Obj(PruneFields(fields))
    case _ => v
  }

  function PruneItems(items: seq<Json>): seq<Json>
    decreases items, 0
  {
    if items == [] then [] else [Prune(items[0])] + PruneItems(items[1..])
  }

  function PruneFields(fs: seq<Field>): seq<Field>
    decreases fs, 0
  {
    if fs == [] then []
    else if fs[0].value.Undefined? then PruneFields(fs[1..])
    else [Field(fs[0].key, Prune(fs[0].value))] + PruneFields(fs[1..])
  }

  lemma {:induction false} StringifyIsCanonicalize(v: Json)
    ensures Stringify(v) == Canonicalize(Prune(v))
    decreases v, 1
  {
    match v
    case Arr(items) => StringifyItemsAre(items);
    case Obj(fields) => StringifyEntriesAre(fields);
    case _ =>
  }

  lemma {:induction false} StringifyItemsAre(items: seq<Json>)
    ensures StringifyItems(items) == CanonicalItems(PruneItems(items))
    decreases items, 0
  {
    if items != [] {
      StringifyIsCanonicalize(items[0]);
      StringifyItemsAre(items[1..]);
    }
  }

  lemma {:induction false} StringifyEntriesAre(fs: seq<Field>)
    ensures StringifyEntries(fs) == CanonicalEntries(PruneFields(fs))
    decreases fs, 0
  {
    if fs != [] {
      if !fs[0].value.Undefined? { StringifyIsCanonicalize(fs[0].value); }
      StringifyEntriesAre(fs[1..]);
    }
  }

  ghost predicate PrunedFrom(fs: seq<Field>, f: Field) {
    exists j :: 0 <= j < |fs| && !fs[j].value.Undefined? && f == Field(fs[j].key, Prune(fs[j].value))
  }

  lemma {:induction false} PruneFieldsFrom(fs: seq<Field>)
    ensures forall f <- PruneFields(fs) :: PrunedFrom(fs, f)
    ensures DistinctKeys(fs) ==> DistinctKeys(PruneFields(fs))
  {
    if fs != [] {
      PruneFieldsFrom(fs[1..]);
      forall f | f in PruneFields(fs[1..]) ensures PrunedFrom(fs, f) {
        var j :| 0 <= j < |fs[1..]| && !fs[1..][j].value.Undefined? && f == Field(fs[1..][j].key, Prune(fs[1..][j].value));
        assert fs[1..][j] == fs[j + 1];
      }
      if !fs[0].value.Undefined? {
        assert PrunedFrom(fs, Field(fs[0].key, Prune(fs[0].value)));
        var r := PruneFields(fs[1..]);
        if DistinctKeys(fs) {
          forall i | 0 <= i < |r| ensures r[i].key != fs[0].key {
            assert r[i] in r && PrunedFrom(fs[1..], r[i]);
          }
        }
      }
    }
  }

  lemma {:induction false} PruneItemsAt(items: seq<Json>)
    ensures |PruneItems(items)| == |items|
    ensures forall i :: 0 <= i < |items| ==> PruneItems(items)[i] == Prune(items[i])
  {
    if items != [] {
      PruneItemsAt(items[1..]);
    }
  }

  lemma {:induction false} PruneValid(v: Json)
    requires Valid(v)
    ensures Valid(Prune(v)) && Defined(Prune(v))
    decreases v
  {
    match v
    case Arr(items) =>
      PruneItemsAt(items);
      forall i | 0 <= i < |items| ensures Valid(Prune(items[i])) && Defined(Prune(items[i])) { PruneValid(items[i]); }
    case Obj(fields) =>
      PruneFieldsFrom(fields);
      var r := PruneFields(fields);
      forall i | 0 <= i < |r| ensures Valid(r[i].value) && Defined(r[i].value) {
        assert r[i] in r && PrunedFrom(fields, r[i]);
        var j :| 0 <= j < |fields| && !fields[j].value.Undefined? && r[i] == Field(fields[j].key, Prune(fields[j].value));
        PruneValid(fields[j].value);
      }
    case _ =>
  }

  /** The digest serializer identifies exactly the values equal up to key order
      once undefined properties are dropped. */
  lemma StringifyInjective(a: Json, b: Json)
    requires Valid(a) && Valid(b)
    ensures Stringify(a) == Stringify(b) <==> Same(Prune(a), Prune(b))
  {
    StringifyIsCanonicalize(a);
    StringifyIsCanonicalize(b);
    PruneValid(a);
    PruneValid(b);
    CanonicalizeInjective(Prune(a), Prune(b));
  }

  lemma {:induction false} PruneKeepsDefined(v: Json)
    requires Defined(v)
    ensures Prune(v) == v
    decreases v, 1
  {
    match v
    case Arr(items) =>
      PruneItemsAt(items);
      forall i | 0 <= i < |items| ensures Prune(items[i]) == items[i] { PruneKeepsDefined(items[i]); }
      assert PruneItems(items) == items;
    case Obj(fields) => PruneKeepsFields(fields);
    case _ =>
  }

  lemma {:induction false} PruneKeepsFields(fs: seq<Field>)
    requires forall i :: 0 <= i < |fs| ==> Defined(fs[i].value)
    ensures PruneFields(fs) == fs
    decreases fs, 0
  {
    if fs != [] {
      PruneKeepsDefined(fs[0].value);
      PruneKeepsFields(fs[1..]);
    }
  }

  /** On plain JSON values the two serializers agree. */
  lemma SerializersAgree(v: Json)
    requires Defined(v)
    ensures Stringify(v) == Canonicalize(v)
  {
    StringifyIsCanonicalize(v);
    PruneKeepsDefined(v);
  }
}
