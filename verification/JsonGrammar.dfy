/** The decoder's language: the texts it accepts are exactly the documents, and it reads each as its value. */
module JsonGrammar {
  import opened Base
  import opened Json
  import opened JsonText
  import opened CanonJson

  lemma {:induction false} Joined(w: string, d: string, rest: string)
    ensures w + (d + rest) == w + d + rest
  {
  }

  lemma {:induction false} Regrouped(head: string, before: string, l: string, rest: string)
    ensures head + ("," + before + (l + rest)) == head + "," + before + l + rest
  {
  }

  lemma {:induction false} TakeWs(s: string) returns (w: string)
    ensures AllWs(w) && s == w + SkipWs(s)
  {
    if s != "" && IsWs(s[0]) {
      var v := TakeWs(s[1..]);
      w := [s[0]] + v;
    } else {
      w := "";
    }
  }

  /** What ReadChar read was one piece, and a high surrogate it left alone is not completed by the rest. */
  ghost predicate PieceRead(s: string, p: Piece, n: nat) {
    n <= |s| && WfPiece(p) && s == PieceText(p) + s[n..] && |PieceText(p)| == n
    && !(p.Lone? && High(Unit(p.h)) && Completes(s[n..]))
  }

  lemma {:induction false} TakeEscape(s: string) returns (p: Piece)
    requires ReadChar(s).Some? && s[0] == '\\' && s[1] == 'u'
    ensures PieceRead(s, p, ReadChar(s).value.1) && PieceValue(p) == ReadChar(s).value.0
  {
    var h := s[2..6];
    assert s[2..] == h + s[6..] && s == "\\u" + h + s[6..];
    UnitPrefix(h, s[6..]);
    if High(Unit(h)) && Completes(s[6..]) {
      var lo := s[8..12];
      assert s[6..][2..] == s[8..] == lo + s[12..];
      UnitPrefix(lo, s[12..]);
      p := Pair(h, lo);
    } else if High(Unit(h)) || Low(Unit(h)) {
      assert |s| >= 12 ==> s[6..][2..] == s[8..];
      p := Lone(h);
    } else {
      p := Hex(h);
    }
  }

  lemma {:induction false} TakePiece(s: string) returns (p: Piece)
    requires ReadChar(s).Some?
    ensures PieceRead(s, p, ReadChar(s).value.1) && PieceValue(p) == ReadChar(s).value.0
  {
    if s[0] != '\\' {
      p := Raw(s[0]);
    } else if s[1] != 'u' {
      p := Short(s[1]);
    } else {
      p := TakeEscape(s);
    }
  }

  lemma {:induction false} LowStarts(q: Piece, r: string)
    requires WfPiece(q) && q.Lone? && Low(Unit(q.h))
    ensures Completes(PieceText(q) + r)
  {
    assert (PieceText(q) + r)[2..] == q.h + r;
    UnitPrefix(q.h, r);
  }

  lemma {:induction false} ConsPieces(p: Piece, ps: seq<Piece>)
    requires WfPiece(p) && WfPieces(ps) && (ps != [] ==> !Join(p, ps[0]))
    ensures WfPieces([p] + ps)
    ensures PiecesText([p] + ps) == PieceText(p) + PiecesText(ps)
    ensures PiecesValue([p] + ps) == [PieceValue(p)] + PiecesValue(ps)
  {
    var all := [p] + ps;
    assert all[1..] == ps;
    forall i, j | 0 <= i && j == i + 1 < |all|
      ensures !Join(all[i], all[j])
    {
      if i > 0 {
        assert all[i] == ps[i - 1] && all[j] == ps[j - 1];
      }
    }
  }

  lemma {:induction false} NotJoined(s: string, p: Piece, n: nat, ps: seq<Piece>, rest: string)
    requires PieceRead(s, p, n) && WfPieces(ps) && ps != [] && s[n..] == PiecesText(ps) + "\"" + rest
    ensures !Join(p, ps[0])
  {
    if ps[0].Lone? && Low(Unit(ps[0].h)) {
      var r := PiecesText(ps[1..]) + "\"" + rest;
      Joined(PieceText(ps[0]), PiecesText(ps[1..]), "\"" + rest);
      Joined(PiecesText(ps), "\"", rest);
      Joined(PiecesText(ps[1..]), "\"", rest);
      LowStarts(ps[0], r);
    }
  }

  lemma {:induction false} ParseCharsStep(s: string)
    requires ParseChars(s).Ok? && s[0] != '"'
    ensures ReadChar(s).Some? && ParseChars(s[ReadChar(s).value.1..]).Ok?
    ensures var (cs, rest) := ParseChars(s[ReadChar(s).value.1..]).value;
            ParseChars(s).value == ([ReadChar(s).value.0] + cs, rest)
  {
  }

  /** The pieces the decoder took off s spell cs and leave rest. */
  ghost predicate PiecesRead(s: string, ps: seq<Piece>, cs: string, rest: string) {
    WfPieces(ps) && s == PiecesText(ps) + "\"" + rest && PiecesValue(ps) == cs
  }

  lemma {:induction false} AddPiece(s: string, p: Piece, n: nat, ps: seq<Piece>, cs: string, rest: string)
    requires PieceRead(s, p, n) && PiecesRead(s[n..], ps, cs, rest)
    ensures PiecesRead(s, [p] + ps, [PieceValue(p)] + cs, rest)
  {
    if ps != [] {
      NotJoined(s, p, n, ps, rest);
    }
    ConsPieces(p, ps);
    Joined(PieceText(p), PiecesText(ps), "\"" + rest);
    Joined(PiecesText(ps), "\"", rest);
    Joined(PiecesText([p] + ps), "\"", rest);
  }

  lemma {:induction false} TakeChars(s: string) returns (ps: seq<Piece>)
    requires ParseChars(s).Ok?
    ensures PiecesRead(s, ps, ParseChars(s).value.0, ParseChars(s).value.1)
    decreases |s|
  {
    if s[0] == '"' {
      ps := [];
    } else {
      ParseCharsStep(s);
      var n := ReadChar(s).value.1;
      var p := TakePiece(s);
      var qs := TakeChars(s[n..]);
      var (cs, rest) := ParseChars(s[n..]).value;
      AddPiece(s, p, n, qs, cs, rest);
      ps := [p] + qs;
    }
  }

  /** Writing d and then rest gives s, and d means t. */
  ghost predicate Reads(s: string, d: Doc, t: Json, rest: string) {
    WfDoc(d) && s == Text(d) + rest && Value(d) == t
  }

  lemma {:induction false} TakeValue(s: string) returns (d: Doc)
    requires ParseValue(s).Ok?
    ensures Reads(s, d, ParseValue(s).value.0, ParseValue(s).value.1)
    decreases |s|, 1
  {
    if s[0] == '{' {
      d := TakeObject(s);
    } else if s[0] == '[' {
      d := TakeArray(s);
    } else if s[0] == '"' {
      var ps := TakeChars(s[1..]);
      d := DStr(ps);
      assert s == "\"" + s[1..];
    } else if "true" <= s {
      d := DBool(true);
    } else if "false" <= s {
      d := DBool(false);
    } else if "null" <= s {
      d := DNull;
    } else {
      d := DNum(s[..NumRun(s)]);
    }
  }

  lemma {:induction false} TakeArray(s: string) returns (d: Doc)
    requires ParseValue(s).Ok? && s[0] == '['
    ensures Reads(s, d, ParseValue(s).value.0, ParseValue(s).value.1)
    decreases |s|, 0
  {
    var w := TakeWs(s[1..]);
    var u := SkipWs(s[1..]);
    assert s == "[" + w + u;
    if u[0] == ']' {
      d := DNoItems(w);
      assert u == "]" + u[1..];
    } else {
      var l := TakeItems(u);
      d := DArr(w, l);
    }
  }

  lemma {:induction false} TakeObject(s: string) returns (d: Doc)
    requires ParseValue(s).Ok? && s[0] == '{'
    ensures Reads(s, d, ParseValue(s).value.0, ParseValue(s).value.1)
    decreases |s|, 0
  {
    var w := TakeWs(s[1..]);
    var u := SkipWs(s[1..]);
    assert s == "{" + w + u;
    if u[0] == '}' {
      d := DNoFields(w);
      assert u == "}" + u[1..];
    } else {
      var l := TakeFields(u, map[]);
      d := DObj(w, l);
    }
  }

  /** The items read off s. */
  ghost predicate ItemsTaken(s: string, l: Items, vs: seq<Json>, rest: string) {
    WfItems(l) && s == ItemsText(l) + rest && ItemsValue(l) == vs
  }

  lemma {:induction false} AddItem(s: string, d: Doc, after: string, before: string, tail: Items, rest: string)
    requires WfDoc(d) && AllWs(after) && AllWs(before) && WfItems(tail)
    requires s == Text(d) + after + ("," + before + (ItemsText(tail) + rest))
    ensures ItemsTaken(s, Item(d, after, before, tail), [Value(d)] + ItemsValue(tail), rest)
  {
    Regrouped(Text(d) + after, before, ItemsText(tail), rest);
  }

  lemma {:induction false} TakeItems(s: string) returns (l: Items)
    requires ParseItems(s).Ok?
    ensures ItemsTaken(s, l, ParseItems(s).value.0, ParseItems(s).value.1)
    decreases |s|, 2
  {
    var d := TakeValue(s);
    var s1 := ParseValue(s).value.1;
    var after := TakeWs(s1);
    var s2 := SkipWs(s1);
    Joined(Text(d), after, s2);
    if s2[0] == ']' {
      l := LastItem(d, after);
      assert s2 == "]" + s2[1..];
    } else {
      var before := TakeWs(s2[1..]);
      var u := SkipWs(s2[1..]);
      assert s2 == "," + before + u;
      var tail := TakeItems(u);
      l := Item(d, after, before, tail);
      AddItem(s, d, after, before, tail, ParseItems(u).value.1);
    }
  }

  /** A field's key, colon and value, with the whitespace between them. */
  ghost predicate FieldTaken(s: string, l: Fields, k: string, v: Json, s4: string) {
    l.LastField? && WfFields(l) && PiecesValue(l.k) == k && Value(l.d) == v
    && s == StrText(l.k) + l.w1 + ":" + l.w2 + Text(l.d) + l.after + s4
  }

  lemma {:induction false} TakeField(s: string, k: string, v: Json, s4: string) returns (l: Fields)
    requires FieldRead(s, k, v, s4)
    ensures FieldTaken(s, l, k, v, s4)
    decreases |s|, 1
  {
    var ps := TakeChars(s[1..]);
    var s1 := ParseChars(s[1..]).value.1;
    var w1 := TakeWs(s1);
    var s2 := SkipWs(s1);
    var w2 := TakeWs(s2[1..]);
    var u := SkipWs(s2[1..]);
    var d := TakeValue(u);
    var after := TakeWs(ParseValue(u).value.1);
    l := LastField(ps, w1, w2, d, after);
    FieldWhole(s, l, s1, s2, u, s4);
  }

  lemma {:induction false} FieldWhole(s: string, l: Fields, s1: string, s2: string, u: string, s4: string)
    requires l.LastField?
    requires s != "" && s[0] == '"' && s[1..] == PiecesText(l.k) + "\"" + s1
    requires s1 == l.w1 + s2 && s2 != "" && s2[0] == ':' && s2[1..] == l.w2 + u
    requires u == Text(l.d) + (l.after + s4)
    ensures s == StrText(l.k) + l.w1 + ":" + l.w2 + Text(l.d) + l.after + s4
  {
    assert s == "\"" + s[1..] && s2 == ":" + s2[1..];
    var q, p, v, end := "\"", PiecesText(l.k), Text(l.d), l.after + s4;
    Joined(p, q, s1);
    Joined(q, p, q + s1);
    Joined(q + p, q, s1);
    Joined(StrText(l.k), l.w1, s2);
    Joined(StrText(l.k) + l.w1, ":", l.w2 + u);
    Joined(StrText(l.k) + l.w1 + ":", l.w2, u);
    Joined(StrText(l.k) + l.w1 + ":" + l.w2, v, end);
    Joined(StrText(l.k) + l.w1 + ":" + l.w2 + v, l.after, s4);
  }

  /** The fields read off s, on top of acc. */
  ghost predicate FieldsTaken(s: string, acc: map<string, Json>, l: Fields, t: Json, rest: string) {
    WfFields(l) && s == FieldsText(l) + rest && Obj(FieldsValue(l, acc)) == t
  }

  lemma {:induction false} ParseFieldsStep(s: string, acc: map<string, Json>) returns (k: string, v: Json, s4: string)
    requires ParseFields(s, acc).Ok?
    ensures FieldRead(s, k, v, s4) && |s4| < |s| && s4 != ""
    ensures s4[0] == '}' ==> ParseFields(s, acc) == Ok((Obj(acc[k := v]), s4[1..]))
    ensures s4[0] != '}' ==> s4[0] == ',' && ParseFields(s, acc) == ParseFields(SkipWs(s4[1..]), acc[k := v])
  {
    k := ParseChars(s[1..]).value.0;
    var u := SkipWs(SkipWs(ParseChars(s[1..]).value.1)[1..]);
    v := ParseValue(u).value.0;
    s4 := SkipWs(ParseValue(u).value.1);
  }

  lemma {:induction false} AddLast(s: string, acc: map<string, Json>, f: Fields, k: string, v: Json, rest: string)
    requires FieldTaken(s, f, k, v, "}" + rest)
    ensures FieldsTaken(s, acc, f, Obj(acc[k := v]), rest)
  {
  }

  lemma {:induction false} AddField(s: string, acc: map<string, Json>, f: Fields, k: string, v: Json, before: string,
                                    tail: Fields, rest: string) returns (l: Fields)
    requires WfFields(tail) && AllWs(before)
    requires FieldTaken(s, f, k, v, "," + before + (FieldsText(tail) + rest))
    ensures FieldsTaken(s, acc, l, Obj(FieldsValue(tail, acc[k := v])), rest)
  {
    l := Field(f.k, f.w1, f.w2, f.d, f.after, before, tail);
    Regrouped(StrText(f.k) + f.w1 + ":" + f.w2 + Text(f.d) + f.after, before, FieldsText(tail), rest);
  }

  lemma {:induction false} TakeFields(s: string, acc: map<string, Json>) returns (l: Fields)
    requires ParseFields(s, acc).Ok?
    ensures FieldsTaken(s, acc, l, ParseFields(s, acc).value.0, ParseFields(s, acc).value.1)
    decreases |s|, 2
  {
    var (t, rest) := ParseFields(s, acc).value;
    var k, v, s4 := ParseFieldsStep(s, acc);
    var f := TakeField(s, k, v, s4);
    if s4[0] == '}' {
      assert s4 == "}" + s4[1..];
      AddLast(s, acc, f, k, v, s4[1..]);
      l := f;
    } else {
      l := TakeMore(s, acc, f, k, v, s4, t, rest);
    }
  }

  lemma {:induction false} TakeMore(s: string, acc: map<string, Json>, f: Fields, k: string, v: Json, s4: string,
                                    t: Json, rest: string) returns (l: Fields)
    requires FieldTaken(s, f, k, v, s4) && s4 != "" && s4[0] == ',' && |s4| < |s|
    requires ParseFields(SkipWs(s4[1..]), acc[k := v]) == Ok((t, rest))
    ensures FieldsTaken(s, acc, l, t, rest)
    decreases |s|, 1
  {
    var before := TakeWs(s4[1..]);
    var u := SkipWs(s4[1..]);
    assert s4 == "," + before + u;
    var tail := TakeFields(u, acc[k := v]);
    l := AddField(s, acc, f, k, v, before, tail, rest);
  }

  // ---- theorems ----

  /** text is whitespace, a document, and at its end whitespace that a closing bracket may follow. */
  ghost predicate Writes(text: string, w: string, d: Doc, rest: string) {
    AllWs(w) && WfDoc(d) && text == w + Text(d) + rest
    && var u := SkipWs(rest); (u == "" || u[0] == ']' || u[0] == '}')
  }

  ghost predicate Written(text: string, t: Json) {
    exists w, d, rest :: Writes(text, w, d, rest) && Value(d) == t
  }

  lemma {:induction false} AcceptedIsWritten(text: string)
    requires Decode(text).Ok?
    ensures Written(text, Decode(text).value)
  {
    var w := TakeWs(text);
    var s := SkipWs(text);
    var d := TakeValue(s);
    var (t, rest) := ParseValue(s).value;
    Joined(w, Text(d), rest);
    assert Writes(text, w, d, rest) && Value(d) == t;
  }

  lemma {:induction false} WrittenIsAccepted(text: string, w: string, d: Doc, rest: string)
    requires Writes(text, w, d, rest)
    ensures Decode(text) == Ok(Value(d))
  {
    StartsSolid(d);
    Joined(w, Text(d), rest);
    SkipTo(w, Text(d) + rest);
    ParseText(d, rest);
  }

  /** The decoder accepts exactly the documents, and reads each as the value it denotes. */
  lemma {:induction false} DecodeIff(text: string, t: Json)
    ensures Decode(text) == Ok(t) <==> Written(text, t)
  {
    if Decode(text).Ok? {
      AcceptedIsWritten(text);
    }
    forall w, d, rest | Writes(text, w, d, rest) && Value(d) == t
      ensures Decode(text) == Ok(t)
    {
      WrittenIsAccepted(text, w, d, rest);
    }
  }

  /** Two texts canonicalise to the same bytes exactly when they write the same null-free value. */
  lemma {:induction false} SameBytesIff(text: string, other: string)
    requires MarshalRaw(text).Ok?
    ensures MarshalRaw(other) == MarshalRaw(text) <==> Written(other, Decode(text).value)
  {
    var t := Decode(text).value;
    DecodeIff(other, t);
    if MarshalRaw(other) == MarshalRaw(text) {
      DecodedNumbers(text);
      DecodedNumbers(other);
      PrintInjective(t, Decode(other).value);
    }
  }
}
