/** The canonical bytes, spelled out: what every value is printed as, and in which order. */
module CanonForm {
  import opened Base
  import opened Json
  import opened JsonText

  /** The parts with commas between them. */
  function Commas(parts: seq<string>): string {
    if parts == [] then ""
    else if |parts| == 1 then parts[0]
    else Commas(parts[..|parts| - 1]) + "," + parts[|parts| - 1]
  }

  // ---- strings ----

  /** e is the way c is written: a two-character escape where there is one, four lower-case hex digits for the
      other control characters and the two separators, and everything else as it is. */
  predicate WrittenAs(c: char, e: string) {
    if c == '"' then e == "\\\""
    else if c == '\\' then e == "\\\\"
    else if c as int == 8 then e == "\\b"
    else if c as int == 9 then e == "\\t"
    else if c as int == 10 then e == "\\n"
    else if c as int == 12 then e == "\\f"
    else if c as int == 13 then e == "\\r"
    else if c as int == 0x2028 then e == "\\u2028"
    else if c as int == 0x2029 then e == "\\u2029"
    else if c as int < 32 then
      |e| == 6 && e[..2] == "\\u" && (forall i :: 2 <= i < 6 ==> e[i] in "0123456789abcdef") && Unit(e[2..]) == c as int
    else e == [c]
  }

  lemma {:induction false} ControlForm(c: char)
    requires c as int < 32 && c as int !in {8, 9, 10, 12, 13}
    ensures WrittenAs(c, Escape(c))
  {
    var hi, lo := c as int / 16, c as int % 16;
    HexForm(hi);
    HexForm(lo);
    SixForm("\\u00", [HexDigit(hi), HexDigit(lo)], "00");
  }

  lemma {:induction false} SeparatorForm(c: char)
    requires c as int == 0x2028 || c as int == 0x2029
    ensures WrittenAs(c, Escape(c))
  {
    assert HexDigit(8) == '8' && HexDigit(9) == '9';
  }

  lemma {:induction false} SixForm(head: string, tail: string, h: string)
    requires head == "\\u" + h && |head + tail| == 6
    ensures (head + tail)[..2] == "\\u" && (head + tail)[2..] == h + tail
  {
  }

  lemma {:induction false} EscapeForm(c: char)
    ensures WrittenAs(c, Escape(c))
  {
    if c as int < 32 && c as int !in {8, 9, 10, 12, 13} {
      ControlForm(c);
    } else if c as int == 0x2028 || c as int == 0x2029 {
      SeparatorForm(c);
    }
  }

  lemma {:induction false} HexForm(n: int)
    requires 0 <= n < 16
    ensures HexDigit(n) == "0123456789abcdef"[n] && HexVal(HexDigit(n)) == n
  {
  }

  function Concat(parts: seq<string>): string {
    if parts == [] then "" else parts[0] + Concat(parts[1..])
  }

  /** A string is its characters, each written so, between quotes. */
  lemma {:induction false} StringForm(s: string) returns (parts: seq<string>)
    ensures |parts| == |s| && (forall i :: 0 <= i < |s| ==> WrittenAs(s[i], parts[i]))
    ensures Quote(s) == "\"" + Concat(parts) + "\""
  {
    parts := EscapedParts(s);
  }

  lemma {:induction false} EscapedParts(s: string) returns (parts: seq<string>)
    ensures |parts| == |s| && (forall i :: 0 <= i < |s| ==> WrittenAs(s[i], parts[i])) && EscapeAll(s) == Concat(parts)
  {
    if s == "" {
      parts := [];
    } else {
      var tail := EscapedParts(s[1..]);
      EscapeForm(s[0]);
      parts := [Escape(s[0])] + tail;
      assert parts[1..] == tail;
    }
  }

  // ---- arrays and objects ----

  function ItemTexts(t: Json): (r: seq<string>)
    requires t.Arr?
    ensures |r| == |t.items| && forall i :: 0 <= i < |r| ==> r[i] == Print(t.items[i])
  {
    seq(|t.items|, i requires 0 <= i < |t.items| => Print(t.items[i]))
  }

  function FieldTexts(t: Json, keys: seq<string>): (r: seq<string>)
    requires t.Obj? && forall j :: 0 <= j < |keys| ==> keys[j] in t.fields
    ensures |r| == |keys| && forall i :: 0 <= i < |r| ==> r[i] == Quote(keys[i]) + ":" + Print(t.fields[keys[i]])
  {
    seq(|keys|, i requires 0 <= i < |keys| => Quote(keys[i]) + ":" + Print(t.fields[keys[i]]))
  }

  lemma {:induction false} CommasSnoc(parts: seq<string>, i: nat)
    requires i < |parts|
    ensures Commas(parts[..i + 1]) == Commas(parts[..i]) + Comma(i) + parts[i]
  {
    assert parts[..i + 1][..i] == parts[..i];
    if i == 0 {
      assert parts[..1] == [parts[0]];
    }
  }

  lemma {:induction false} Appended(a: string, comma: string, p: string, rest: string)
    ensures a + comma + p + rest == a + (comma + p + rest)
  {
  }

  lemma {:induction false} ItemsForm(t: Json, i: nat)
    requires t.Arr? && i <= |t.items|
    ensures Commas(ItemTexts(t)) == Commas(ItemTexts(t)[..i]) + PrintItems(t, i)
    decreases |t.items| - i
  {
    var parts := ItemTexts(t);
    if i == |parts| {
      assert parts[..i] == parts;
    } else {
      ItemsForm(t, i + 1);
      CommasSnoc(parts, i);
      Appended(Commas(parts[..i]), Comma(i), parts[i], PrintItems(t, i + 1));
    }
  }

  lemma {:induction false} FieldsForm(t: Json, keys: seq<string>, i: nat)
    requires t.Obj? && i <= |keys| && forall j :: 0 <= j < |keys| ==> keys[j] in t.fields
    ensures Commas(FieldTexts(t, keys)) == Commas(FieldTexts(t, keys)[..i]) + PrintFields(t, keys, i)
    decreases |keys| - i
  {
    var parts := FieldTexts(t, keys);
    if i == |parts| {
      assert parts[..i] == parts;
    } else {
      FieldsForm(t, keys, i + 1);
      CommasSnoc(parts, i);
      FieldJoins(Comma(i), Quote(keys[i]), Print(t.fields[keys[i]]), PrintFields(t, keys, i + 1));
      Appended(Commas(parts[..i]), Comma(i), parts[i], PrintFields(t, keys, i + 1));
    }
  }

  lemma {:induction false} FieldJoins(comma: string, k: string, v: string, rest: string)
    ensures comma + k + ":" + v + rest == comma + (k + ":" + v) + rest
  {
  }

  lemma {:induction false} NothingFirst(parts: seq<string>, p: string)
    ensures Commas(parts[..0]) + p == p
  {
    assert parts[..0] == [];
  }

  /** An array is its items in order, between brackets, with commas between them. */
  lemma {:induction false} ArrayForm(t: Json)
    requires t.Arr?
    ensures Print(t) == "[" + Commas(ItemTexts(t)) + "]"
  {
    ItemsForm(t, 0);
    NothingFirst(ItemTexts(t), PrintItems(t, 0));
  }

  /** The keys of an object, each once, in ascending order of code points: of any two, the earlier one ends
      where the other goes on, or has the smaller code point where they first differ. */
  ghost predicate Ascending(keys: seq<string>, t: Json)
    requires t.Obj?
  {
    && (forall k :: k in keys <==> k in t.fields)
    && (forall i, j :: 0 <= i < j < |keys| ==> ComesBefore(keys[i], keys[j]))
  }

  lemma {:induction false} SortedAscends(keys: seq<string>, t: Json)
    requires t.Obj? && Sorted(keys) && Elements(keys) == t.fields.Keys
    ensures Ascending(keys, t)
  {
    forall i, j | 0 <= i < j < |keys|
      ensures ComesBefore(keys[i], keys[j])
    {
      LessIff(keys[i], keys[j]);
    }
    assert forall k :: k in keys <==> k in Elements(keys);
    assert forall k :: k in t.fields <==> k in t.fields.Keys;
  }

  /** An object is its fields in that order, between braces, with commas between them. */
  lemma {:induction false} ObjectForm(t: Json) returns (keys: seq<string>)
    requires t.Obj?
    ensures Ascending(keys, t) && Print(t) == "{" + Commas(FieldTexts(t, keys)) + "}"
  {
    keys := SortedKeys(t.fields.Keys);
    SortedAscends(keys, t);
    FieldsForm(t, keys, 0);
    assert Print(t) == "{" + PrintFields(t, keys, 0) + "}";
    NothingFirst(FieldTexts(t, keys), PrintFields(t, keys, 0));
  }
}
