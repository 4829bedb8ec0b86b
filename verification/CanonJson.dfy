/** Canonical JSON, the bytes every signature covers: what canonicalising promises of all documents. */
module CanonJson {
  import opened Base
  import opened Json
  import opened JsonText

  /** Every number in the tree is a JSON literal, as it is in any decoded tree. */
  predicate NumbersOk(t: Json) {
    match t
    case Num(lit) => IsNumber(lit)
    case Arr(items) => forall i :: 0 <= i < |items| ==> NumbersOk(items[i])
    case Obj(fields) => forall k :: k in fields ==> NumbersOk(fields[k])
    case _ => true
  }

  predicate Signable(t: Json) {
    NullFree(t) && NumbersOk(t)
  }

  // ---- the canonical document of a value ----

  function CharPiece(c: char): Piece {
    if c == '"' || c == '\\' then Short(c)
    else if c as int == 8 then Short('b')
    else if c as int == 12 then Short('f')
    else if c == '\n' then Short('n')
    else if c == '\r' then Short('r')
    else if c == '\t' then Short('t')
    else if c < ' ' then Hex(['0', '0', HexDigit(c as int / 16), HexDigit(c as int % 16)])
    else if c as int == 0x2028 || c as int == 0x2029 then Hex(['2', '0', '2', HexDigit(c as int % 16)])
    else Raw(c)
  }

  predicate PieceOf(c: char, p: Piece) {
    WfPiece(p) && PieceText(p) == Escape(c) && PieceValue(p) == c
  }

  lemma {:induction false} ControlPiece(c: char)
    requires c < ' '
    ensures PieceOf(c, CharPiece(c))
  {
  }

  lemma {:induction false} SeparatorPiece(c: char)
    requires c as int == 0x2028 || c as int == 0x2029
    ensures PieceOf(c, CharPiece(c))
  {
  }

  lemma {:induction false} CharPieceOk(c: char)
    ensures PieceOf(c, CharPiece(c))
  {
    if c < ' ' {
      ControlPiece(c);
    } else if c as int == 0x2028 || c as int == 0x2029 {
      SeparatorPiece(c);
    }
  }

  function CharPieces(s: string): seq<Piece> {
    if s == "" then [] else [CharPiece(s[0])] + CharPieces(s[1..])
  }

  lemma {:induction false} CharPiecesOk(s: string)
    ensures WfPieces(CharPieces(s)) && PiecesText(CharPieces(s)) == EscapeAll(s) && PiecesValue(CharPieces(s)) == s
  {
    if s != "" {
      CharPieceOk(s[0]);
      CharPiecesOk(s[1..]);
      assert CharPieces(s)[1..] == CharPieces(s[1..]);
    }
  }

  ghost function CanonDoc(t: Json): Doc
    decreases t, 1, 0
  {
    match t
    case Null => DNull
    case Bool(b) => DBool(b)
    case Num(lit) => DNum(lit)
    case Str(s) => DStr(CharPieces(s))
    case Arr(items) => if items == [] then DNoItems("") else DArr("", CanonItems(t, 0))
    case Obj(fields) =>
      SortedKeysIn(fields);
      var keys := SortedKeys(fields.Keys);
      if keys == [] then DNoFields("") else DObj("", CanonFields(t, keys, 0))
  }

  ghost function CanonItems(t: Json, i: nat): Items
    requires t.Arr? && i < |t.items|
    decreases t, 0, |t.items| - i
  {
    var d := CanonDoc(t.items[i]);
    if i + 1 == |t.items| then LastItem(d, "") else Item(d, "", "", CanonItems(t, i + 1))
  }

  ghost function CanonFields(t: Json, keys: seq<string>, i: nat): Fields
    requires t.Obj? && i < |keys| && forall j :: 0 <= j < |keys| ==> keys[j] in t.fields
    decreases t, 0, |keys| - i
  {
    var k, d := CharPieces(keys[i]), CanonDoc(t.fields[keys[i]]);
    if i + 1 == |keys| then LastField(k, "", "", d, "") else Field(k, "", "", d, "", "", CanonFields(t, keys, i + 1))
  }

  ghost predicate CanonOk(t: Json) {
    WfDoc(CanonDoc(t)) && Text(CanonDoc(t)) == Print(t) && Value(CanonDoc(t)) == t
  }

  /** Printing is one particular document of the value. */
  lemma {:induction false} CanonDocOk(t: Json)
    requires Signable(t)
    ensures CanonOk(t)
    decreases t, 2, 0
  {
    match t
    case Bool(b) =>
    case Num(lit) =>
    case Str(s) => CharPiecesOk(s);
    case Arr(items) => CanonArrOk(t);
    case Obj(fields) => CanonObjOk(t);
  }

  lemma {:induction false} CanonArrOk(t: Json)
    requires t.Arr? && Signable(t)
    ensures CanonOk(t)
    decreases t, 1, 0
  {
    if t.items != [] {
      CanonItemsOk(t, 0);
      assert t.items[0..] == t.items;
      Bracketed("[", ItemsText(CanonItems(t, 0)), PrintItems(t, 0), "]");
    }
  }

  lemma {:induction false} CanonObjOk(t: Json)
    requires t.Obj? && Signable(t)
    ensures CanonOk(t)
    decreases t, 1, 0
  {
    SortedKeysIn(t.fields);
    var keys := SortedKeys(t.fields.Keys);
    if keys == [] {
      assert t.fields.Keys == {};
      assert t.fields == map[];
    } else {
      CanonFieldsOk(t, keys, 0, map[]);
      KeysCover(t, keys);
      Bracketed("{", FieldsText(CanonFields(t, keys, 0)), PrintFields(t, keys, 0), "}");
    }
  }

  lemma {:induction false} Bracketed(open: string, l: string, p: string, close: string)
    requires Comma(0) + l == p + close
    ensures open + "" + l == open + p + close
  {
    assert Comma(0) + l == l;
  }

  lemma {:induction false} CanonItemsOk(t: Json, i: nat)
    requires t.Arr? && i < |t.items| && Signable(t)
    ensures WfItems(CanonItems(t, i))
    ensures Comma(i) + ItemsText(CanonItems(t, i)) == PrintItems(t, i) + "]"
    ensures ItemsValue(CanonItems(t, i)) == t.items[i..]
    decreases t, 0, |t.items| - i
  {
    CanonDocOk(t.items[i]);
    var p := Print(t.items[i]);
    if i + 1 == |t.items| {
      assert t.items[i..] == [t.items[i]];
      LastItemTexts(Comma(i), p);
    } else {
      CanonItemsOk(t, i + 1);
      assert t.items[i..] == [t.items[i]] + t.items[i + 1..];
      ItemTexts(Comma(i), p, ItemsText(CanonItems(t, i + 1)), PrintItems(t, i + 1));
    }
  }

  lemma {:induction false} LastItemTexts(c: string, p: string)
    ensures c + (p + "" + "]") == c + p + "" + "]"
  {
  }

  lemma {:induction false} ItemTexts(c: string, p: string, l: string, q: string)
    requires "," + l == q + "]"
    ensures c + (p + "" + "," + "" + l) == c + p + q + "]"
  {
    assert c + (p + "" + "," + "" + l) == c + p + ("," + l);
  }

  /** The fields of t from keys[i] on, over acc. */
  ghost function Over(t: Json, keys: seq<string>, i: nat, acc: map<string, Json>): map<string, Json>
    requires t.Obj? && i <= |keys| && forall j :: 0 <= j < |keys| ==> keys[j] in t.fields
    decreases |keys| - i
  {
    if i == |keys| then acc else Over(t, keys, i + 1, acc[keys[i] := t.fields[keys[i]]])
  }

  lemma {:induction false} OverIs(t: Json, keys: seq<string>, i: nat, acc: map<string, Json>)
    requires t.Obj? && i <= |keys| && forall j :: 0 <= j < |keys| ==> keys[j] in t.fields
    requires forall k :: k in acc ==> k in t.fields && acc[k] == t.fields[k]
    requires forall j :: 0 <= j < i ==> keys[j] in acc
    ensures var r := Over(t, keys, i, acc);
            (forall j :: 0 <= j < |keys| ==> keys[j] in r) && forall k :: k in r ==>
              k in t.fields && r[k] == t.fields[k]
    decreases |keys| - i
  {
    if i < |keys| {
      OverIs(t, keys, i + 1, acc[keys[i] := t.fields[keys[i]]]);
    }
  }

  lemma {:induction false} KeysCover(t: Json, keys: seq<string>)
    requires t.Obj? && Elements(keys) == t.fields.Keys && forall j :: 0 <= j < |keys| ==> keys[j] in t.fields
    ensures Over(t, keys, 0, map[]) == t.fields
  {
    OverIs(t, keys, 0, map[]);
    var r := Over(t, keys, 0, map[]);
    forall k | k in t.fields
      ensures k in r
    {
      assert k in Elements(keys);
    }
  }

  lemma {:induction false} CanonFieldsOk(t: Json, keys: seq<string>, i: nat, acc: map<string, Json>)
    requires t.Obj? && i < |keys| && Signable(t) && forall j :: 0 <= j < |keys| ==> keys[j] in t.fields
    ensures WfFields(CanonFields(t, keys, i))
    ensures Comma(i) + FieldsText(CanonFields(t, keys, i)) == PrintFields(t, keys, i) + "}"
    ensures FieldsValue(CanonFields(t, keys, i), acc) == Over(t, keys, i, acc)
    decreases t, 0, |keys| - i
  {
    var k := keys[i];
    CharPiecesOk(k);
    CanonDocOk(t.fields[k]);
    if i + 1 == |keys| {
      LastFieldTexts(Comma(i), EscapeAll(k), Print(t.fields[k]));
    } else {
      CanonFieldsOk(t, keys, i + 1, acc[k := t.fields[k]]);
      FieldTexts(Comma(i), EscapeAll(k), Print(t.fields[k]), FieldsText(CanonFields(t, keys, i + 1)),
                 PrintFields(t, keys, i + 1));
    }
  }

  lemma {:induction false} LastFieldTexts(c: string, e: string, p: string)
    ensures c + (("\"" + e + "\"") + "" + ":" + "" + p + "" + "}") == c + ("\"" + e + "\"") + ":" + p + "" + "}"
  {
  }

  lemma {:induction false} FieldTexts(c: string, e: string, p: string, l: string, q: string)
    requires "," + l == q + "}"
    ensures c + (("\"" + e + "\"") + "" + ":" + "" + p + "" + "," + "" + l) == c + ("\"" + e + "\"") + ":" + p + q + "}"
  {
    assert c + (("\"" + e + "\"") + "" + ":" + "" + p + "" + "," + "" + l)
           == c + ("\"" + e + "\"") + ":" + p + ("," + l);
    assert c + ("\"" + e + "\"") + ":" + p + q + "}" == c + ("\"" + e + "\"") + ":" + p + (q + "}");
  }

  // ---- theorems ----

  /** Canonicalising any way of writing a value down, with any whitespace around it, gives the
      canonical bytes of the value, and fails exactly when the value holds a null. */
  lemma {:induction false} MarshalRawOf(w1: string, d: Doc, w2: string)
    requires AllWs(w1) && AllWs(w2) && WfDoc(d)
    ensures Decode(w1 + Text(d) + w2) == Ok(Value(d))
    ensures MarshalRaw(w1 + Text(d) + w2) == if NullFree(Value(d)) then Ok(Print(Value(d))) else Rejected
  {
    StartsSolid(d);
    assert w1 + Text(d) + w2 == w1 + (Text(d) + w2);
    SkipTo(w1, Text(d) + w2);
    ParseText(d, w2);
    assert w2 == w2 + "";
    SkipWsOver(w2, "");
  }

  lemma {:induction false} Bare(d: Doc)
    requires WfDoc(d)
    ensures Decode(Text(d)) == Ok(Value(d))
    ensures MarshalRaw(Text(d)) == if NullFree(Value(d)) then Ok(Print(Value(d))) else Rejected
  {
    MarshalRawOf("", d, "");
    assert "" + Text(d) + "" == Text(d);
  }

  /** Parsing undoes printing. */
  lemma {:induction false} RoundTrip(t: Json)
    requires Signable(t)
    ensures Decode(Print(t)) == Ok(t)
  {
    CanonDocOk(t);
    Bare(CanonDoc(t));
  }

  /** Two values have the same canonical bytes only if they are the same value. */
  lemma {:induction false} PrintInjective(t: Json, u: Json)
    requires Signable(t) && Signable(u) && Print(t) == Print(u)
    ensures t == u
  {
    RoundTrip(t);
    RoundTrip(u);
  }

  /** Two null-free documents canonicalise alike exactly when they denote the same value:
      whitespace, escapes and key order at every depth do not matter, and nothing else is lost. */
  lemma {:induction false} CanonicalIff(d: Doc, e: Doc)
    requires WfDoc(d) && WfDoc(e) && NullFree(Value(d)) && NullFree(Value(e))
    ensures MarshalRaw(Text(d)) == MarshalRaw(Text(e)) <==> Value(d) == Value(e)
  {
    Bare(d);
    Bare(e);
    DecodedNumbers(Text(d));
    DecodedNumbers(Text(e));
    if Print(Value(d)) == Print(Value(e)) {
      PrintInjective(Value(d), Value(e));
    }
  }

  /** Canonicalising canonical bytes changes nothing. */
  lemma {:induction false} Idempotent(text: string)
    requires MarshalRaw(text).Ok?
    ensures MarshalRaw(MarshalRaw(text).value) == MarshalRaw(text)
  {
    DecodedNumbers(text);
    RoundTrip(Decode(text).value);
  }

  /** A document followed by more text is refused, unless what follows starts with a closing
      bracket: then it, and everything after it, is ignored. */
  lemma {:induction false} TrailingData(d: Doc, w: string, junk: string)
    requires WfDoc(d) && AllWs(w) && junk != "" && !IsWs(junk[0]) && Ends(w + junk)
    ensures Decode(Text(d) + (w + junk)) == if junk[0] == ']' || junk[0] == '}' then Ok(Value(d)) else Rejected
  {
    StartsSolid(d);
    assert "" + (Text(d) + (w + junk)) == Text(d) + (w + junk);
    SkipTo("", Text(d) + (w + junk));
    ParseText(d, w + junk);
    SkipTo(w, junk);
  }

  // ---- key order ----

  ghost function Pairs(l: Fields): set<(string, Json)>
    requires WfFields(l)
  {
    {(PiecesValue(l.k), Value(l.d))} + if l.LastField? then {} else Pairs(l.tail)
  }

  ghost function FieldKeys(l: Fields): set<string>
    requires WfFields(l)
  {
    {PiecesValue(l.k)} + if l.LastField? then {} else FieldKeys(l.tail)
  }

  ghost predicate DistinctKeys(l: Fields)
    requires WfFields(l)
  {
    l.LastField? || (PiecesValue(l.k) !in FieldKeys(l.tail) && DistinctKeys(l.tail))
  }

  lemma {:induction false} PairsKeys(l: Fields, k: string, v: Json)
    requires WfFields(l) && (k, v) in Pairs(l)
    ensures k in FieldKeys(l)
  {
    if l.Field? && (k, v) in Pairs(l.tail) {
      PairsKeys(l.tail, k, v);
    }
  }

  lemma {:induction false} ValueOfKey(l: Fields, acc: map<string, Json>, k: string, v: Json)
    requires WfFields(l) && DistinctKeys(l)
    ensures var r := FieldsValue(l, acc);
            (k in r && r[k] == v) <==> (k, v) in Pairs(l) || (k !in FieldKeys(l) && k in acc && acc[k] == v)
    decreases l
  {
    if l.Field? {
      ValueOfKey(l.tail, acc[PiecesValue(l.k) := Value(l.d)], k, v);
      if (k, v) in Pairs(l.tail) {
        PairsKeys(l.tail, k, v);
      }
    }
  }

  lemma {:induction false} PairsDecide(l: Fields, m: Fields)
    requires WfFields(l) && WfFields(m) && DistinctKeys(l) && DistinctKeys(m) && Pairs(l) == Pairs(m)
    ensures FieldsValue(l, map[]) == FieldsValue(m, map[])
  {
    var a, b := FieldsValue(l, map[]), FieldsValue(m, map[]);
    forall k | k in a
      ensures k in b && b[k] == a[k]
    {
      ValueOfKey(l, map[], k, a[k]);
      ValueOfKey(m, map[], k, a[k]);
    }
    forall k | k in b
      ensures k in a
    {
      ValueOfKey(m, map[], k, b[k]);
      ValueOfKey(l, map[], k, b[k]);
    }
  }

  /** Reordering the fields of an object leaves its value, hence its canonical bytes, alone. */
  lemma {:induction false} KeyOrderFree(l: Fields, m: Fields)
    requires WfFields(l) && WfFields(m) && DistinctKeys(l) && DistinctKeys(m) && Pairs(l) == Pairs(m)
    ensures Value(DObj("", l)) == Value(DObj("", m))
    ensures MarshalRaw(Text(DObj("", l))) == MarshalRaw(Text(DObj("", m)))
  {
    PairsDecide(l, m);
    Bare(DObj("", l));
    Bare(DObj("", m));
  }

  // ---- decoded trees hold only number literals ----

  lemma {:induction false} ParsedNumbers(s: string)
    requires ParseValue(s).Ok?
    ensures NumbersOk(ParseValue(s).value.0)
    decreases |s|, 1
  {
    if s[0] == '{' {
      var u := SkipWs(s[1..]);
      if u == "" || u[0] != '}' {
        FieldNumbers(u, map[]);
      }
    } else if s[0] == '[' {
      var u := SkipWs(s[1..]);
      if u == "" || u[0] != ']' {
        ItemNumbers(u);
      }
    }
  }

  lemma {:induction false} ItemNumbers(s: string)
    requires ParseItems(s).Ok?
    ensures forall i :: 0 <= i < |ParseItems(s).value.0| ==> NumbersOk(ParseItems(s).value.0[i])
    decreases |s|, 2
  {
    ParsedNumbers(s);
    var s2 := SkipWs(ParseValue(s).value.1);
    if s2[0] == ',' {
      ItemNumbers(SkipWs(s2[1..]));
    }
  }

  lemma {:induction false} FieldNumbers(s: string, acc: map<string, Json>)
    requires ParseFields(s, acc).Ok?
    requires forall k :: k in acc ==> NumbersOk(acc[k])
    ensures NumbersOk(ParseFields(s, acc).value.0)
    decreases |s|, 2
  {
    var (k, s1) := ParseChars(s[1..]).value;
    var s2 := SkipWs(s1);
    ParsedNumbers(SkipWs(s2[1..]));
    var (v, s3) := ParseValue(SkipWs(s2[1..])).value;
    var s4 := SkipWs(s3);
    if s4[0] == ',' {
      FieldNumbers(SkipWs(s4[1..]), acc[k := v]);
    }
  }

  lemma {:induction false} DecodedNumbers(text: string)
    ensures Decode(text).Ok? ==> NumbersOk(Decode(text).value)
  {
    if Decode(text).Ok? {
      ParsedNumbers(SkipWs(text));
    }
  }

  // ---- the writer ----

  /** bytes.Buffer, as far as the writer uses it. */
  class Buffer {
    var bytes: string

    constructor ()
      ensures bytes == ""
    {
      bytes := "";
    }

    method Write(s: string)
      modifies this
      ensures bytes == old(bytes) + s
    {
      bytes := bytes + s;
    }

    method WriteQuoted(s: string)
      modifies this
      ensures bytes == old(bytes) + Quote(s)
    {
      Write(Quote(s));
    }

    /** Succeeds exactly on null-free values, appending their canonical bytes; on failure some
        prefix may have been written, which the caller throws away. */
    method WriteValue(t: Json) returns (ok: bool)
      modifies this
      ensures ok == NullFree(t)
      ensures ok ==> bytes == old(bytes) + Print(t)
      decreases t, 1
    {
      match t {
        case Null =>
          return false;
        case Bool(b) =>
          if b {
            Write("true");
          } else {
            Write("false");
          }
          return true;
        case Str(s) =>
          WriteQuoted(s);
          return true;
        case Num(lit) =>
          Write(lit);
          return true;
        case Arr(items) =>
          ok := WriteItems(t);
        case Obj(fields) =>
          ok := WriteFields(t);
      }
    }

    method WriteItems(t: Json) returns (ok: bool)
      requires t.Arr?
      modifies this
      ensures ok == NullFree(t)
      ensures ok ==> bytes == old(bytes) + Print(t)
      decreases t, 0
    {
      Write("[");
      ghost var start := bytes;
      for i := 0 to |t.items|
        invariant forall j :: 0 <= j < i ==> NullFree(t.items[j])
        invariant bytes + PrintItems(t, i) == start + PrintItems(t, 0)
      {
        ghost var before := bytes;
        if i > 0 {
          Write(",");
        }
        assert bytes == before + Comma(i);
        var one := WriteValue(t.items[i]);
        if !one {
          return false;
        }
        Regroup(before, Comma(i), Print(t.items[i]), PrintItems(t, i + 1));
      }
      assert bytes + "" == bytes;
      Write("]");
      Regroup(old(bytes), "[", PrintItems(t, 0), "]");
      return true;
    }

    method WriteFields(t: Json) returns (ok: bool)
      requires t.Obj?
      modifies this
      ensures ok == NullFree(t)
      ensures ok ==> bytes == old(bytes) + Print(t)
      decreases t, 0, 2
    {
      var keys := SortStrings(t.fields.Keys);
      SortedKeysIn(t.fields);
      Write("{");
      ok := WriteSorted(t, keys);
      AllKeysNullFree(t, keys);
      if !ok {
        return;
      }
      Write("}");
      Regroup(old(bytes), "{", PrintFields(t, keys, 0), "}");
    }

    method WriteSorted(t: Json, keys: seq<string>) returns (ok: bool)
      requires t.Obj? && forall j :: 0 <= j < |keys| ==> keys[j] in t.fields
      modifies this
      ensures ok == forall j :: 0 <= j < |keys| ==> NullFree(t.fields[keys[j]])
      ensures ok ==> bytes == old(bytes) + PrintFields(t, keys, 0)
      decreases t, 0, 1
    {
      ghost var goal := bytes + PrintFields(t, keys, 0);
      for i := 0 to |keys|
        invariant forall j :: 0 <= j < i ==> NullFree(t.fields[keys[j]])
        invariant bytes + PrintFields(t, keys, i) == goal
      {
        var one := WriteField(t, keys, i);
        if !one {
          return false;
        }
      }
      NothingLeft(t, keys, bytes);
      return true;
    }

    method WriteField(t: Json, keys: seq<string>, i: nat) returns (ok: bool)
      requires t.Obj? && i < |keys| && forall j :: 0 <= j < |keys| ==> keys[j] in t.fields
      modifies this
      ensures ok == NullFree(t.fields[keys[i]])
      ensures ok ==> bytes + PrintFields(t, keys, i + 1) == old(bytes) + PrintFields(t, keys, i)
      decreases t, 0, 0
    {
      if i > 0 {
        Write(",");
      }
      assert bytes == old(bytes) + Comma(i);
      WriteQuoted(keys[i]);
      Write(":");
      assert bytes == old(bytes) + (Comma(i) + Quote(keys[i]) + ":");
      ok := WriteValue(t.fields[keys[i]]);
      Regroup(old(bytes), Comma(i) + Quote(keys[i]) + ":", Print(t.fields[keys[i]]), PrintFields(t, keys, i + 1));
    }
  }

  lemma {:induction false} AllKeysNullFree(t: Json, keys: seq<string>)
    requires t.Obj? && Elements(keys) == t.fields.Keys && forall j :: 0 <= j < |keys| ==> keys[j] in t.fields
    ensures NullFree(t) <==> forall j :: 0 <= j < |keys| ==> NullFree(t.fields[keys[j]])
  {
  }

  lemma {:induction false} NothingLeft(t: Json, keys: seq<string>, bytes: string)
    requires t.Obj? && forall j :: 0 <= j < |keys| ==> keys[j] in t.fields
    ensures bytes + PrintFields(t, keys, |keys|) == bytes
  {
  }

  lemma {:induction false} Regroup(before: string, c: string, p: string, rest: string)
    ensures before + c + p + rest == before + (c + p + rest)
  {
  }

  /** Collect a map's keys in whatever order iteration gives, then sort. */
  method SortStrings(ks: set<string>) returns (q: seq<string>)
    ensures q == SortedKeys(ks)
  {
    q := [];
    var todo := ks;
    while todo != {}
      invariant todo <= ks && Sorted(q) && Elements(q) == ks - todo
      decreases |todo|
    {
      var k :| k in todo;
      assert k !in Elements(q);
      InsertSorted(q, k);
      q := Insert(q, k);
      todo := todo - {k};
    }
    SortedUnique(q, SortedKeys(ks));
  }

  /** canonjson.MarshalRaw, computed. */
  method Marshal(text: string) returns (r: Result<string>)
    ensures r == MarshalRaw(text)
  {
    var t := Decode(text);
    if t.Rejected? {
      return Rejected;
    }
    var out := new Buffer();
    var ok := out.WriteValue(t.value);
    if !ok {
      return Rejected;
    }
    assert "" + Print(t.value) == Print(t.value);
    return Ok(out.bytes);
  }
}
