/** Reading JSON text: the decoder's grammar, and every way of writing a value down. */
module JsonText {
  import opened Base
  import opened Json

  // ---- the decoder ----

  predicate IsWs(c: char) {
    c == ' ' || c == '\t' || c == '\r' || c == '\n'
  }

  function SkipWs(s: string): (r: string)
    ensures |r| <= |s|
  {
    if s != "" && IsWs(s[0]) then SkipWs(s[1..]) else s
  }

  predicate IsDigit(c: char) {
    '0' <= c <= '9'
  }

  function SkipDigits(s: string): string {
    if s != "" && IsDigit(s[0]) then SkipDigits(s[1..]) else s
  }

  predicate IsExponent(s: string) {
    s == "" ||
    ((s[0] == 'e' || s[0] == 'E') &&
     var t := if |s| > 1 && (s[1] == '+' || s[1] == '-') then s[2..] else s[1..];
     t != "" && IsDigit(t[0]) && SkipDigits(t) == "")
  }

  predicate IsFraction(s: string) {
    if s != "" && s[0] == '.' then |s| > 1 && IsDigit(s[1]) && IsExponent(SkipDigits(s[1..]))
    else IsExponent(s)
  }

  predicate NumChar(c: char) {
    IsDigit(c) || c == '+' || c == '-' || c == '.' || c == 'e' || c == 'E'
  }

  /** A JSON number literal. */
  predicate IsNumber(s: string) {
    && (forall i :: 0 <= i < |s| ==> NumChar(s[i]))
    && s != ""
    && var t := if s[0] == '-' then s[1..] else s;
       t != "" && IsDigit(t[0]) && IsFraction(if t[0] == '0' then t[1..] else SkipDigits(t))
  }

  function NumRun(s: string): (r: nat)
    ensures r <= |s|
  {
    if s != "" && NumChar(s[0]) then 1 + NumRun(s[1..]) else 0
  }

  function HexVal(c: char): (r: int)
    ensures -1 <= r < 16
  {
    if IsDigit(c) then c as int - '0' as int
    else if 'a' <= c <= 'f' then c as int - 'a' as int + 10
    else if 'A' <= c <= 'F' then c as int - 'A' as int + 10
    else -1
  }

  /** The 16-bit unit of four hex digits, or -1. */
  function Unit(s: string): (r: int)
    ensures -1 <= r < 0x10000
  {
    if |s| < 4 || HexVal(s[0]) < 0 || HexVal(s[1]) < 0 || HexVal(s[2]) < 0 || HexVal(s[3]) < 0 then -1
    else 4096 * HexVal(s[0]) + 256 * HexVal(s[1]) + 16 * HexVal(s[2]) + HexVal(s[3])
  }

  predicate High(u: int) {
    0xD800 <= u < 0xDC00
  }

  predicate Low(u: int) {
    0xDC00 <= u < 0xE000
  }

  function Combine(hi: int, lo: int): char
    requires High(hi) && Low(lo)
  {
    ((hi - 0xD800) * 0x400 + (lo - 0xDC00) + 0x10000) as char
  }

  function Unescape(e: char): Option<char> {
    if e == '"' || e == '\\' || e == '/' then Some(e)
    else if e == 'b' then Some(8 as char)
    else if e == 'f' then Some(12 as char)
    else if e == 'n' then Some('\n')
    else if e == 'r' then Some('\r')
    else if e == 't' then Some('\t')
    else None
  }

  /** One character of a string literal and how much text it took; a surrogate without its partner
      reads as U+FFFD. */
  function ReadChar(s: string): (r: Option<(char, nat)>)
    ensures r.Some? ==> 0 < r.value.1 <= |s|
  {
    if s == "" || s[0] == '"' || s[0] < ' ' then None
    else if s[0] != '\\' then Some((s[0], 1))
    else if |s| < 2 then None
    else if s[1] != 'u' then (match Unescape(s[1]) case None => None case Some(c) => Some((c, 2)))
    else
      var u := Unit(s[2..]);
      if u < 0 then None
      else if High(u) && |s| >= 12 && s[6] == '\\' && s[7] == 'u' && Low(Unit(s[8..])) then
        Some((Combine(u, Unit(s[8..])), 12))
      else if High(u) || Low(u) then Some((0xFFFD as char, 6))
      else Some((u as char, 6))
  }

  function ParseChars(s: string): (r: Result<(string, string)>)
    ensures r.Ok? ==> |r.value.1| < |s|
    decreases |s|
  {
    if s != "" && s[0] == '"' then Ok(("", s[1..]))
    else
      match ReadChar(s)
      case None => Rejected
      case Some((c, n)) =>
        var (cs, rest) :- ParseChars(s[n..]);
        Ok(([c] + cs, rest))
  }

  function ParseValue(s: string): (r: Result<(Json, string)>)
    ensures r.Ok? ==> |r.value.1| < |s|
    decreases |s|, 1
  {
    if s == "" then Rejected
    else if s[0] == '{' then
      var u := SkipWs(s[1..]);
      if u != "" && u[0] == '}' then Ok((Obj(map[]), u[1..])) else ParseFields(u, map[])
    else if s[0] == '[' then
      var u := SkipWs(s[1..]);
      if u != "" && u[0] == ']' then Ok((Arr([]), u[1..])) else
        var (items, rest) :- ParseItems(u);
        Ok((Arr(items), rest))
    else if s[0] == '"' then
      var (cs, rest) :- ParseChars(s[1..]);
      Ok((Str(cs), rest))
    else if "true" <= s then Ok((Bool(true), s[4..]))
    else if "false" <= s then Ok((Bool(false), s[5..]))
    else if "null" <= s then Ok((Null, s[4..]))
    else
      var n := NumRun(s);
      if IsNumber(s[..n]) then Ok((Num(s[..n]), s[n..])) else Rejected
  }

  function ParseItems(s: string): (r: Result<(seq<Json>, string)>)
    ensures r.Ok? ==> |r.value.1| < |s|
    decreases |s|, 2
  {
    var (v, s1) :- ParseValue(s);
    var s2 := SkipWs(s1);
    if s2 != "" && s2[0] == ']' then Ok(([v], s2[1..]))
    else if s2 != "" && s2[0] == ',' then
      var (vs, rest) :- ParseItems(SkipWs(s2[1..]));
      Ok(([v] + vs, rest))
    else Rejected
  }

  /** A repeated key keeps its last value. */
  function ParseFields(s: string, acc: map<string, Json>): (r: Result<(Json, string)>)
    ensures r.Ok? ==> |r.value.1| < |s|
    decreases |s|, 2
  {
    if s == "" || s[0] != '"' then Rejected
    else
      var (k, s1) :- ParseChars(s[1..]);
      var s2 := SkipWs(s1);
      if s2 == "" || s2[0] != ':' then Rejected
      else
        var (v, s3) :- ParseValue(SkipWs(s2[1..]));
        var s4 := SkipWs(s3);
        if s4 != "" && s4[0] == '}' then Ok((Obj(acc[k := v]), s4[1..]))
        else if s4 != "" && s4[0] == ',' then ParseFields(SkipWs(s4[1..]), acc[k := v])
        else Rejected
  }

  /** Decode one value; `More` does not see a closing bracket, so one may follow, with anything after it. */
  function Decode(text: string): Result<Json> {
    var (t, rest) :- ParseValue(SkipWs(text));
    var u := SkipWs(rest);
    if u == "" || u[0] == ']' || u[0] == '}' then Ok(t) else Rejected
  }

  /** canonjson.MarshalRaw. */
  function MarshalRaw(text: string): Result<string> {
    var t :- Decode(text);
    if NullFree(t) then Ok(Print(t)) else Rejected
  }

  // ---- documents: a value together with every choice made in writing it ----

  datatype Piece = Raw(c: char) | Short(e: char) | Hex(h: string) | Pair(hi: string, lo: string) | Lone(h: string)

  datatype Doc =
    | DNull
    | DBool(b: bool)
    | DNum(lit: string)
    | DStr(ps: seq<Piece>)
    | DNoItems(ws: string)
    | DArr(ws: string, items: Items)
    | DNoFields(ws: string)
    | DObj(ws: string, fields: Fields)

  datatype Items =
    | LastItem(d: Doc, after: string)
    | Item(d: Doc, after: string, before: string, tail: Items)

  datatype Fields =
    | LastField(k: seq<Piece>, w1: string, w2: string, d: Doc, after: string)
    | Field(k: seq<Piece>, w1: string, w2: string, d: Doc, after: string, before: string, tail: Fields)

  function PieceText(p: Piece): string {
    match p
    case Raw(c) => [c]
    case Short(e) => ['\\', e]
    case Hex(h) => "\\u" + h
    case Pair(hi, lo) => "\\u" + hi + "\\u" + lo
    case Lone(h) => "\\u" + h
  }

  predicate WfPiece(p: Piece) {
    match p
    case Raw(c) => c != '"' && c != '\\' && c >= ' '
    case Short(e) => Unescape(e).Some?
    case Hex(h) => |h| == 4 && Unit(h) >= 0 && !High(Unit(h)) && !Low(Unit(h))
    case Pair(hi, lo) => |hi| == |lo| == 4 && High(Unit(hi)) && Low(Unit(lo))
    case Lone(h) => |h| == 4 && (High(Unit(h)) || Low(Unit(h)))
  }

  function PieceValue(p: Piece): char
    requires WfPiece(p)
  {
    match p
    case Raw(c) => c
    case Short(e) => Unescape(e).value
    case Hex(h) => Unit(h) as char
    case Pair(hi, lo) => Combine(Unit(hi), Unit(lo))
    case Lone(h) => 0xFFFD as char
  }

  /** Two lone surrogates that would be read together. */
  predicate Join(p: Piece, q: Piece) {
    p.Lone? && q.Lone? && High(Unit(p.h)) && Low(Unit(q.h))
  }

  function PiecesText(ps: seq<Piece>): string {
    if ps == [] then "" else PieceText(ps[0]) + PiecesText(ps[1..])
  }

  predicate WfPieces(ps: seq<Piece>) {
    && (forall i :: 0 <= i < |ps| ==> WfPiece(ps[i]))
    && (forall i, j :: 0 <= i && j == i + 1 < |ps| ==> !Join(ps[i], ps[j]))
  }

  function PiecesValue(ps: seq<Piece>): string
    requires WfPieces(ps)
  {
    if ps == [] then "" else [PieceValue(ps[0])] + PiecesValue(ps[1..])
  }

  predicate AllWs(w: string) {
    forall i :: 0 <= i < |w| ==> IsWs(w[i])
  }

  predicate WfDoc(d: Doc) {
    match d
    case DNum(lit) => IsNumber(lit)
    case DStr(ps) => WfPieces(ps)
    case DNoItems(ws) => AllWs(ws)
    case DArr(ws, items) => AllWs(ws) && WfItems(items)
    case DNoFields(ws) => AllWs(ws)
    case DObj(ws, fields) => AllWs(ws) && WfFields(fields)
    case _ => true
  }

  predicate WfItems(l: Items) {
    WfDoc(l.d) && AllWs(l.after) && (l.Item? ==> AllWs(l.before) && WfItems(l.tail))
  }

  predicate WfFields(l: Fields) {
    WfPieces(l.k) && AllWs(l.w1) && AllWs(l.w2) && WfDoc(l.d) && AllWs(l.after)
    && (l.Field? ==> AllWs(l.before) && WfFields(l.tail))
  }

  function StrText(ps: seq<Piece>): string {
    "\"" + PiecesText(ps) + "\""
  }

  function Text(d: Doc): string {
    match d
    case DNull => "null"
    case DBool(b) => if b then "true" else "false"
    case DNum(lit) => lit
    case DStr(ps) => StrText(ps)
    case DNoItems(ws) => "[" + ws + "]"
    case DArr(ws, items) => "[" + ws + ItemsText(items)
    case DNoFields(ws) => "{" + ws + "}"
    case DObj(ws, fields) => "{" + ws + FieldsText(fields)
  }

  function ItemsText(l: Items): string {
    match l
    case LastItem(d, after) => Text(d) + after + "]"
    case Item(d, after, before, tail) => Text(d) + after + "," + before + ItemsText(tail)
  }

  function FieldsText(l: Fields): string {
    match l
    case LastField(k, w1, w2, d, after) => StrText(k) + w1 + ":" + w2 + Text(d) + after + "}"
    case Field(k, w1, w2, d, after, before, tail) =>
      StrText(k) + w1 + ":" + w2 + Text(d) + after + "," + before + FieldsText(tail)
  }

  function Value(d: Doc): Json
    requires WfDoc(d)
  {
    match d
    case DNull => Null
    case DBool(b) => Bool(b)
    case DNum(lit) => Num(lit)
    case DStr(ps) => Str(PiecesValue(ps))
    case DNoItems(ws) => Arr([])
    case DArr(ws, items) => Arr(ItemsValue(items))
    case DNoFields(ws) => Obj(map[])
    case DObj(ws, fields) => Obj(FieldsValue(fields, map[]))
  }

  function ItemsValue(l: Items): seq<Json>
    requires WfItems(l)
  {
    match l
    case LastItem(d, after) => [Value(d)]
    case Item(d, after, before, tail) => [Value(d)] + ItemsValue(tail)
  }

  function FieldsValue(l: Fields, acc: map<string, Json>): map<string, Json>
    requires WfFields(l)
    decreases l
  {
    var acc' := acc[PiecesValue(l.k) := Value(l.d)];
    if l.LastField? then acc' else FieldsValue(l.tail, acc')
  }

  // ---- reading back what was written ----

  lemma {:induction false} SkipWsOver(w: string, s: string)
    requires AllWs(w)
    ensures SkipWs(w + s) == SkipWs(s)
  {
    if w == "" {
      assert w + s == s;
    } else {
      assert (w + s)[1..] == w[1..] + s;
      SkipWsOver(w[1..], s);
    }
  }

  /** Whitespace, then text that starts with something else. */
  lemma {:induction false} SkipTo(w: string, s: string)
    requires AllWs(w) && s != "" && !IsWs(s[0])
    ensures SkipWs(w + s) == s
  {
    SkipWsOver(w, s);
  }

  lemma {:induction false} UnitPrefix(h: string, rest: string)
    requires |h| == 4
    ensures Unit(h + rest) == Unit(h)
  {
  }

  lemma {:induction false} ReadPair(hi: string, lo: string, rest: string)
    requires WfPiece(Pair(hi, lo))
    ensures ReadChar("\\u" + hi + "\\u" + lo + rest) == Some((Combine(Unit(hi), Unit(lo)), 12))
  {
  }

  /** The text goes on with the second half of a surrogate pair. */
  predicate Completes(rest: string) {
    |rest| >= 6 && rest[0] == '\\' && rest[1] == 'u' && Low(Unit(rest[2..]))
  }

  lemma {:induction false} ReadLone(h: string, rest: string)
    requires WfPiece(Lone(h)) && !(High(Unit(h)) && Completes(rest))
    ensures ReadChar("\\u" + h + rest) == Some((0xFFFD as char, 6))
  {
    var s := "\\u" + h + rest;
    assert s[2..] == h + rest;
    UnitPrefix(h, rest);
    if |s| >= 12 {
      assert s[8..] == rest[2..];
    }
  }

  /** What follows a lone surrogate does not complete it. */
  lemma {:induction false} NotPaired(p: Piece, ps: seq<Piece>, rest: string)
    requires WfPieces([p] + ps) && p.Lone? && High(Unit(p.h))
    ensures !Completes(PiecesText(ps) + "\"" + rest)
  {
    if ps != [] {
      var all := [p] + ps;
      assert WfPiece(all[1]) && !Join(all[0], all[1]);
      var q, r := ps[0], PiecesText(ps[1..]) + "\"" + rest;
      assert PiecesText(ps) + "\"" + rest == PieceText(q) + r;
      NotLow(q, r);
    }
  }

  lemma {:induction false} EscapeStarts(h: string, r: string)
    requires |h| == 4
    ensures ("\\u" + h + r)[2..] == h + r && Unit(("\\u" + h + r)[2..]) == Unit(h)
  {
    UnitPrefix(h, r);
  }

  lemma {:induction false} PairNotLow(hi: string, lo: string, r: string)
    requires WfPiece(Pair(hi, lo))
    ensures !Completes("\\u" + hi + "\\u" + lo + r)
  {
    assert "\\u" + hi + "\\u" + lo + r == "\\u" + hi + ("\\u" + lo + r);
    EscapeStarts(hi, "\\u" + lo + r);
  }

  lemma {:induction false} NotLow(q: Piece, r: string)
    requires WfPiece(q) && !(q.Lone? && Low(Unit(q.h)))
    ensures !Completes(PieceText(q) + r)
  {
    match q
    case Raw(c) =>
    case Short(e) =>
    case Hex(h) =>
      EscapeStarts(h, r);
    case Lone(h) =>
      EscapeStarts(h, r);
    case Pair(hi, lo) =>
      PairNotLow(hi, lo, r);
  }

  lemma {:induction false} ReadPiece(p: Piece, rest: string)
    requires WfPiece(p) && !(p.Lone? && High(Unit(p.h)) && Completes(rest))
    ensures ReadChar(PieceText(p) + rest) == Some((PieceValue(p), |PieceText(p)|))
  {
    match p
    case Raw(c) =>
    case Short(e) =>
    case Hex(h) =>
      assert ("\\u" + h + rest)[2..] == h + rest;
      UnitPrefix(h, rest);
    case Pair(hi, lo) =>
      ReadPair(hi, lo, rest);
    case Lone(h) =>
      ReadLone(h, rest);
  }

  lemma {:induction false} ParsePieces(ps: seq<Piece>, rest: string)
    requires WfPieces(ps)
    ensures ParseChars(PiecesText(ps) + "\"" + rest) == Ok((PiecesValue(ps), rest))
  {
    var s := PiecesText(ps) + "\"" + rest;
    if ps == [] {
      assert s == "\"" + rest;
    } else {
      var p, q := PieceText(ps[0]), PiecesText(ps[1..]) + "\"" + rest;
      assert s == p + q;
      assert [ps[0]] + ps[1..] == ps;
      if ps[0].Lone? && High(Unit(ps[0].h)) {
        NotPaired(ps[0], ps[1..], rest);
      }
      ReadPiece(ps[0], q);
      assert s[|p|..] == q;
      ParsePieces(ps[1..], rest);
    }
  }

  /** Text that cannot continue a number. */
  predicate Ends(rest: string) {
    rest == "" || !NumChar(rest[0])
  }

  lemma {:induction false} RunOf(lit: string, rest: string)
    requires forall i :: 0 <= i < |lit| ==> NumChar(lit[i])
    requires Ends(rest)
    ensures NumRun(lit + rest) == |lit|
  {
    if lit == "" {
      assert lit + rest == rest;
    } else {
      assert (lit + rest)[1..] == lit[1..] + rest;
      RunOf(lit[1..], rest);
    }
  }

  lemma {:induction false} StartsSolid(d: Doc)
    requires WfDoc(d)
    ensures Text(d) != "" && !IsWs(Text(d)[0]) && Text(d)[0] !in "]},:"
  {
  }

  lemma {:induction false} ItemsStart(l: Items)
    requires WfItems(l)
    ensures ItemsText(l) != "" && !IsWs(ItemsText(l)[0]) && ItemsText(l)[0] != ']'
  {
    StartsSolid(l.d);
  }

  // One step of the decoder each, free of how the text was put together.

  lemma {:induction false} ArrStep(s: string, items: seq<Json>, rest: string)
    requires s != "" && s[0] == '['
    requires var u := SkipWs(s[1..]); u != "" && u[0] != ']' && ParseItems(u) == Ok((items, rest))
    ensures ParseValue(s) == Ok((Arr(items), rest))
  {
  }

  lemma {:induction false} ObjStep(s: string, t: Json, rest: string)
    requires s != "" && s[0] == '{'
    requires var u := SkipWs(s[1..]); u != "" && u[0] != '}' && ParseFields(u, map[]) == Ok((t, rest))
    ensures ParseValue(s) == Ok((t, rest))
  {
  }

  lemma {:induction false} LastItemStep(s: string, v: Json, s1: string, rest: string)
    requires ParseValue(s) == Ok((v, s1)) && SkipWs(s1) == "]" + rest
    ensures ParseItems(s) == Ok(([v], rest))
  {
  }

  lemma {:induction false} ItemStep(s: string, v: Json, s1: string, u: string, vs: seq<Json>, rest: string)
    requires ParseValue(s) == Ok((v, s1)) && SkipWs(s1) == "," + u && ParseItems(SkipWs(u)) == Ok((vs, rest))
    ensures ParseItems(s) == Ok(([v] + vs, rest))
  {
  }

  /** A key, a colon and a value have been read, up to s4. */
  ghost predicate FieldRead(s: string, k: string, v: Json, s4: string) {
    s != "" && s[0] == '"' && ParseChars(s[1..]).Ok? && ParseChars(s[1..]).value.0 == k &&
    var s2 := SkipWs(ParseChars(s[1..]).value.1);
    s2 != "" && s2[0] == ':' && ParseValue(SkipWs(s2[1..])).Ok? &&
    var (v', s3) := ParseValue(SkipWs(s2[1..])).value;
    v' == v && SkipWs(s3) == s4
  }

  lemma {:induction false} LastFieldStep(s: string, acc: map<string, Json>, k: string, v: Json, rest: string)
    requires FieldRead(s, k, v, "}" + rest)
    ensures ParseFields(s, acc) == Ok((Obj(acc[k := v]), rest))
  {
  }

  lemma {:induction false} FieldStep(s: string, acc: map<string, Json>, k: string, v: Json, u: string)
    requires FieldRead(s, k, v, "," + u)
    ensures ParseFields(s, acc) == ParseFields(SkipWs(u), acc[k := v])
  {
  }

  lemma {:induction false} NumStep(lit: string, rest: string)
    requires IsNumber(lit) && Ends(rest)
    ensures ParseValue(lit + rest) == Ok((Num(lit), rest))
  {
    var s := lit + rest;
    RunOf(lit, rest);
    assert s[..|lit|] == lit && s[|lit|..] == rest;
    assert s[0] == lit[0];
  }

  lemma {:induction false} StrStep(ps: seq<Piece>, rest: string)
    requires WfPieces(ps)
    ensures ParseValue(StrText(ps) + rest) == Ok((Str(PiecesValue(ps)), rest))
  {
    var s := StrText(ps) + rest;
    assert s[1..] == PiecesText(ps) + "\"" + rest;
    ParsePieces(ps, rest);
  }

  lemma {:induction false} EmptyStep(open: string, ws: string, close: string, rest: string)
    requires AllWs(ws) && (open, close) in [("[", "]"), ("{", "}")]
    ensures ParseValue(open + ws + close + rest) == Ok((if open == "[" then Arr([]) else Obj(map[]), rest))
  {
    var s := open + ws + close + rest;
    assert s[1..] == ws + (close + rest);
    SkipTo(ws, close + rest);
    assert (close + rest)[1..] == rest;
  }

  lemma {:induction false} WordStep(word: string, rest: string)
    requires word in ["true", "false", "null"]
    ensures ParseValue(word + rest)
            == Ok((if word == "true" then Bool(true) else if word == "false" then Bool(false) else Null, rest))
  {
  }

  /** After an opening bracket and whitespace comes t. */
  lemma {:induction false} Opened(s: string, open: string, ws: string, text: string, rest: string)
    requires s == open + ws + text + rest && |open| == 1 && AllWs(ws) && text != "" && !IsWs(text[0])
    ensures s[0] == open[0] && SkipWs(s[1..]) == text + rest && (text + rest)[0] == text[0]
  {
    assert s[1..] == ws + (text + rest);
    SkipTo(ws, text + rest);
  }

  /** Every document reads back as its value, whatever follows it. */
  lemma {:induction false} ParseText(d: Doc, rest: string)
    requires WfDoc(d) && Ends(rest)
    ensures ParseValue(Text(d) + rest) == Ok((Value(d), rest))
    decreases d
  {
    match d
    case DNull => WordStep("null", rest);
    case DBool(b) => WordStep(if b then "true" else "false", rest);
    case DNum(lit) => NumStep(lit, rest);
    case DStr(ps) => StrStep(ps, rest);
    case DNoItems(ws) => EmptyStep("[", ws, "]", rest);
    case DNoFields(ws) => EmptyStep("{", ws, "}", rest);
    case DArr(ws, items) =>
      ItemsStart(items);
      Opened(Text(d) + rest, "[", ws, ItemsText(items), rest);
      ParseItemsText(items, rest);
      ArrStep(Text(d) + rest, ItemsValue(items), rest);
    case DObj(ws, fields) =>
      FieldsStart(fields);
      Opened(Text(d) + rest, "{", ws, FieldsText(fields), rest);
      ParseFieldsText(fields, map[], rest);
      ObjStep(Text(d) + rest, Value(d), rest);
  }

  lemma {:induction false} FieldsStart(l: Fields)
    ensures FieldsText(l) != "" && FieldsText(l)[0] == '"'
  {
  }

  lemma {:induction false} ParseItemsText(l: Items, rest: string)
    requires WfItems(l)
    ensures ParseItems(ItemsText(l) + rest) == Ok((ItemsValue(l), rest))
    decreases l
  {
    var s := ItemsText(l) + rest;
    if l.LastItem? {
      var s1 := l.after + ("]" + rest);
      assert s == Text(l.d) + s1;
      ParseText(l.d, s1);
      SkipTo(l.after, "]" + rest);
      LastItemStep(s, Value(l.d), s1, rest);
    } else {
      var t := ItemsText(l.tail) + rest;
      var u := l.before + t;
      var s1 := l.after + ("," + u);
      assert s == Text(l.d) + s1;
      ParseText(l.d, s1);
      SkipTo(l.after, "," + u);
      ItemsStart(l.tail);
      SkipTo(l.before, t);
      ParseItemsText(l.tail, rest);
      ItemStep(s, Value(l.d), s1, u, ItemsValue(l.tail), rest);
    }
  }

  /** The field's text regrouped, tail by tail. */
  lemma {:induction false} FieldCuts(s: string, p: string, w1: string, w2: string, v: string, s3: string)
    requires s == "\"" + p + "\"" + w1 + ":" + w2 + v + s3
    ensures s[0] == '"' && s[1..] == p + "\"" + (w1 + (":" + (w2 + (v + s3))))
    ensures (":" + (w2 + (v + s3)))[1..] == w2 + (v + s3)
  {
  }

  /** Reading one field's key and value, given that the value reads back. */
  lemma {:induction false} ReadField(s: string, l: Fields, s4: string)
    requires WfFields(l) && s == "\"" + PiecesText(l.k) + "\"" + l.w1 + ":" + l.w2 + Text(l.d) + (l.after + s4)
    requires s4 != "" && !IsWs(s4[0])
    requires ParseValue(Text(l.d) + (l.after + s4)) == Ok((Value(l.d), l.after + s4))
    ensures FieldRead(s, PiecesValue(l.k), Value(l.d), s4)
  {
    var v := Text(l.d) + (l.after + s4);
    var c := ":" + (l.w2 + v);
    FieldCuts(s, PiecesText(l.k), l.w1, l.w2, Text(l.d), l.after + s4);
    ParsePieces(l.k, l.w1 + c);
    SkipTo(l.w1, c);
    StartsSolid(l.d);
    SkipTo(l.w2, v);
    SkipTo(l.after, s4);
  }

  lemma {:induction false} ParseFieldsText(l: Fields, acc: map<string, Json>, rest: string)
    requires WfFields(l)
    ensures ParseFields(FieldsText(l) + rest, acc) == Ok((Obj(FieldsValue(l, acc)), rest))
    decreases l
  {
    if l.LastField? {
      LastFieldText(l, rest);
      ParseText(l.d, l.after + ("}" + rest));
      ReadField(FieldsText(l) + rest, l, "}" + rest);
      LastFieldStep(FieldsText(l) + rest, acc, PiecesValue(l.k), Value(l.d), rest);
    } else {
      var t := FieldsText(l.tail) + rest;
      FieldText(l, rest);
      ParseText(l.d, l.after + ("," + (l.before + t)));
      ReadField(FieldsText(l) + rest, l, "," + (l.before + t));
      FieldStep(FieldsText(l) + rest, acc, PiecesValue(l.k), Value(l.d), l.before + t);
      FieldsStart(l.tail);
      SkipTo(l.before, t);
      ParseFieldsText(l.tail, acc[PiecesValue(l.k) := Value(l.d)], rest);
    }
  }

  lemma {:induction false} LastFieldText(l: Fields, rest: string)
    requires l.LastField?
    ensures FieldsText(l) + rest
            == "\"" + PiecesText(l.k) + "\"" + l.w1 + ":" + l.w2 + Text(l.d) + (l.after + ("}" + rest))
  {
  }

  lemma {:induction false} FieldText(l: Fields, rest: string)
    requires l.Field?
    ensures FieldsText(l) + rest
            == "\"" + PiecesText(l.k) + "\"" + l.w1 + ":" + l.w2 + Text(l.d)
              + (l.after + ("," + (l.before + (FieldsText(l.tail) + rest))))
  {
  }
}
