/** JSON values and their canonical printing: keys sorted, no whitespace, only required escapes,
    number literals verbatim. Strings are sequences of code points, on which the source's bytewise
    key order is the lexicographic order. */
module Json {

  datatype Json =
    | Null
    | Bool(b: bool)
    | Num(lit: string)
    | Str(s: string)
    | Arr(items: seq<Json>)
    | Obj(fields: map<string, Json>)

  /** No null at any depth. */
  predicate NullFree(t: Json) {
    match t
    case Null => false
    case Arr(items) => forall i :: 0 <= i < |items| ==> NullFree(items[i])
    case Obj(fields) => forall k :: k in fields ==> NullFree(fields[k])
    case _ => true
  }

  // ---- key order ----

  predicate Less(a: string, b: string) {
    if b == "" then false
    else if a == "" then true
    else if a[0] != b[0] then a[0] < b[0]
    else Less(a[1..], b[1..])
  }

  /** Code point by code point: a and b agree up to n, where a ends or has the smaller one. */
  predicate DiffersAt(a: string, b: string, n: nat) {
    n <= |a| && n < |b| && a[..n] == b[..n] && (n == |a| || a[n] < b[n])
  }

  ghost predicate ComesBefore(a: string, b: string) {
    exists n: nat :: DiffersAt(a, b, n)
  }

  lemma {:induction false} LessIff(a: string, b: string)
    ensures Less(a, b) <==> ComesBefore(a, b)
  {
    if b == "" {
    } else if a == "" {
      assert DiffersAt(a, b, 0);
    } else if a[0] != b[0] {
      assert a[0] < b[0] ==> DiffersAt(a, b, 0);
      assert forall n: nat :: DiffersAt(a, b, n) && n > 0 ==> a[..n][0] == b[..n][0];
    } else {
      LessIff(a[1..], b[1..]);
      if n: nat :| DiffersAt(a[1..], b[1..], n) {
        assert a[..n + 1] == [a[0]] + a[1..][..n] && b[..n + 1] == [b[0]] + b[1..][..n];
        assert DiffersAt(a, b, n + 1);
      }
      if n: nat :| DiffersAt(a, b, n) {
        assert n > 0;
        assert a[1..][..n - 1] == a[..n][1..] && b[1..][..n - 1] == b[..n][1..];
        assert DiffersAt(a[1..], b[1..], n - 1);
      }
    }
  }

  lemma {:induction false} LessTotal(a: string, b: string)
    ensures Less(a, b) || a == b || Less(b, a)
  {
    if a != "" && b != "" && a[0] == b[0] {
      LessTotal(a[1..], b[1..]);
      assert a == [a[0]] + a[1..] && b == [b[0]] + b[1..];
    }
  }

  lemma {:induction false} LessTransitive(a: string, b: string, c: string)
    requires Less(a, b) && Less(b, c)
    ensures Less(a, c)
  {
    if a != "" && a[0] == b[0] == c[0] {
      LessTransitive(a[1..], b[1..], c[1..]);
    }
  }

  lemma {:induction false} LessIrreflexive(a: string)
    ensures !Less(a, a)
  {
    if a != "" {
      LessIrreflexive(a[1..]);
    }
  }

  ghost predicate Sorted(q: seq<string>) {
    forall i, j :: 0 <= i < j < |q| ==> Less(q[i], q[j])
  }

  function Elements(q: seq<string>): set<string> {
    set k | k in q
  }

  /** A set of keys has one sorted listing. */
  lemma {:induction false} SortedUnique(p: seq<string>, q: seq<string>)
    requires Sorted(p) && Sorted(q) && Elements(p) == Elements(q)
    ensures p == q
  {
    assert forall i :: 0 <= i < |p| ==> p[i] in Elements(p);
    assert forall i :: 0 <= i < |q| ==> q[i] in Elements(q);
    if p != [] && q != [] {
      assert p[0] in Elements(q) && q[0] in Elements(p);
      if p[0] != q[0] {
        var i :| 0 <= i < |q| && q[i] == p[0];
        var j :| 0 <= j < |p| && p[j] == q[0];
        LessTransitive(p[0], q[0], p[0]);
        LessIrreflexive(p[0]);
      }
      TailElements(p);
      TailElements(q);
      SortedUnique(p[1..], q[1..]);
      assert p == [p[0]] + p[1..] && q == [q[0]] + q[1..];
    }
  }

  lemma {:induction false} TailElements(p: seq<string>)
    requires Sorted(p) && p != []
    ensures Elements(p[1..]) == Elements(p) - {p[0]}
  {
    LessIrreflexive(p[0]);
    forall k | k in Elements(p) - {p[0]}
      ensures k in p[1..]
    {
      var i :| 0 <= i < |p| && p[i] == k;
      assert p[1..][i - 1] == k;
    }
  }

  /** Where k belongs in a sorted listing. */
  function Insert(q: seq<string>, k: string): seq<string> {
    if q == [] || Less(k, q[0]) then [k] + q else [q[0]] + Insert(q[1..], k)
  }

  lemma {:induction false} InsertSorted(q: seq<string>, k: string)
    requires Sorted(q) && k !in q
    ensures Sorted(Insert(q, k)) && Elements(Insert(q, k)) == Elements(q) + {k}
  {
    if q == [] {
    } else if Less(k, q[0]) {
      forall i | 0 <= i < |q|
        ensures Less(k, q[i])
      {
        if i > 0 {
          LessTransitive(k, q[0], q[i]);
        }
      }
      assert Elements([k] + q) == Elements(q) + {k};
    } else {
      LessTotal(k, q[0]);
      var r := Insert(q[1..], k);
      InsertSorted(q[1..], k);
      forall i | 0 <= i < |r|
        ensures Less(q[0], r[i])
      {
        assert r[i] in Elements(r);
        if r[i] != k {
          var j :| 0 <= j < |q[1..]| && q[1..][j] == r[i];
          assert q[j + 1] == r[i];
        }
      }
      assert Elements([q[0]] + r) == {q[0]} + Elements(r);
      assert q == [q[0]] + q[1..];
      assert Elements(q) == {q[0]} + Elements(q[1..]);
    }
  }

  predicate IsLeast(ks: set<string>, m: string) {
    m in ks && forall x :: x in ks ==> x == m || Less(m, x)
  }

  lemma {:induction false} LeastExists(ks: set<string>)
    requires ks != {}
    ensures exists m :: IsLeast(ks, m)
    decreases |ks|
  {
    var k :| k in ks;
    if ks - {k} == {} {
      assert ks == {k};
      assert IsLeast(ks, k);
    } else {
      LeastExists(ks - {k});
      var m :| IsLeast(ks - {k}, m);
      LessTotal(k, m);
      if Less(k, m) {
        forall x | x in ks
          ensures x == k || Less(k, x)
        {
          if x != k && x != m {
            LessTransitive(k, m, x);
          }
        }
        assert IsLeast(ks, k);
      } else {
        assert IsLeast(ks, m);
      }
    }
  }

  lemma {:induction false} LeastUnique(ks: set<string>)
    ensures forall m, n :: IsLeast(ks, m) && IsLeast(ks, n) ==> m == n
  {
    forall m, n | IsLeast(ks, m) && IsLeast(ks, n)
      ensures m == n
    {
      if m != n {
        LessTransitive(m, n, m);
        LessIrreflexive(m);
      }
    }
  }

  function SortedKeys(ks: set<string>): (q: seq<string>)
    ensures Sorted(q) && Elements(q) == ks
  {
    if ks == {} then []
    else
      LeastExists(ks);
      LeastUnique(ks);
      var m :| IsLeast(ks, m);
      var q := SortedKeys(ks - {m});
      LeastFirst(ks, m, q);
      [m] + q
  }

  lemma {:induction false} LeastFirst(ks: set<string>, m: string, q: seq<string>)
    requires IsLeast(ks, m) && Sorted(q) && Elements(q) == ks - {m}
    ensures Sorted([m] + q) && Elements([m] + q) == ks
  {
    assert forall i :: 0 <= i < |q| ==> q[i] in Elements(q);
    assert Elements([m] + q) == {m} + Elements(q);
  }

  // ---- printing ----

  function HexDigit(n: int): char
    requires 0 <= n < 16
  {
    if n < 10 then ('0' as int + n) as char else ('a' as int + n - 10) as char
  }

  function Escape(c: char): string {
    if c == '"' then "\\\""
    else if c == '\\' then "\\\\"
    else if c as int == 8 then "\\b"
    else if c as int == 12 then "\\f"
    else if c == '\n' then "\\n"
    else if c == '\r' then "\\r"
    else if c == '\t' then "\\t"
    else if c < ' ' then "\\u00" + [HexDigit(c as int / 16), HexDigit(c as int % 16)]
    else if c as int == 0x2028 || c as int == 0x2029 then "\\u202" + [HexDigit(c as int % 16)]
    else [c]
  }

  function EscapeAll(s: string): string {
    if s == "" then "" else Escape(s[0]) + EscapeAll(s[1..])
  }

  function Quote(s: string): string {
    "\"" + EscapeAll(s) + "\""
  }

  function Comma(i: nat): string {
    if i > 0 then "," else ""
  }

  /** What writeValue appends for a null-free value. */
  function Print(t: Json): string
    decreases t, 1, 0
  {
    match t
    case Null => ""
    case Bool(b) => if b then "true" else "false"
    case Num(lit) => lit
    case Str(s) => Quote(s)
    case Arr(items) => "[" + PrintItems(t, 0) + "]"
    case Obj(fields) =>
      SortedKeysIn(fields);
      "{" + PrintFields(t, SortedKeys(fields.Keys), 0) + "}"
  }

  function PrintItems(t: Json, i: nat): string
    requires t.Arr? && i <= |t.items|
    decreases t, 0, |t.items| - i
  {
    if i == |t.items| then ""
    else Comma(i) + Print(t.items[i]) + PrintItems(t, i + 1)
  }

  function PrintFields(t: Json, keys: seq<string>, i: nat): string
    requires t.Obj? && i <= |keys| && forall j :: 0 <= j < |keys| ==> keys[j] in t.fields
    decreases t, 0, |keys| - i
  {
    if i == |keys| then ""
    else
      Comma(i) + Quote(keys[i]) + ":" + Print(t.fields[keys[i]]) + PrintFields(t, keys, i + 1)
  }

  lemma {:induction false} SortedKeysIn(fields: map<string, Json>)
    ensures var q := SortedKeys(fields.Keys); forall j :: 0 <= j < |q| ==> q[j] in fields
  {
  }
}
