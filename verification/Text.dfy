/** The few `strings` functions the agent leans on, for ASCII text. */
module Text {

  predicate IsSpace(c: char) {
    c == ' ' || c == '\t' || c == '\n' || c == '\r' || c as int == 11 || c as int == 12
  }

  function LowerChar(c: char): char {
    if 'A' <= c <= 'Z' then (c as int + 32) as char else c
  }

  function ToLower(s: string): (r: string)
    ensures |r| == |s|
    ensures forall i :: 0 <= i < |s| ==> r[i] == LowerChar(s[i])
  {
    if s == "" then "" else [LowerChar(s[0])] + ToLower(s[1..])
  }

  function TrimLeft(s: string): string {
    if s != "" && IsSpace(s[0]) then TrimLeft(s[1..]) else s
  }

  function TrimRight(s: string): string {
    if s != "" && IsSpace(s[|s| - 1]) then TrimRight(s[..|s| - 1]) else s
  }

  function TrimSpace(s: string): string {
    TrimRight(TrimLeft(s))
  }

  predicate HasPrefix(s: string, p: string) {
    p <= s
  }

  predicate HasSuffix(s: string, p: string) {
    |p| <= |s| && s[|s| - |p|..] == p
  }

  function TrimPrefix(s: string, p: string): string {
    if HasPrefix(s, p) then s[|p|..] else s
  }

  function TrimSuffix(s: string, p: string): string {
    if HasSuffix(s, p) then s[..|s| - |p|] else s
  }

  function Digits(n: nat): (r: string)
    ensures |r| > 0
    ensures forall i :: 0 <= i < |r| ==> '0' <= r[i] <= '9'
    ensures n > 0 ==> r[0] != '0'
    ensures n == 0 ==> r == "0"
  {
    if n < 10 then [('0' as int + n) as char]
    else Digits(n / 10) + [('0' as int + n % 10) as char]
  }

  /** `%d`. */
  function Decimal(n: int): string {
    if n < 0 then "-" + Digits(-n) else Digits(n)
  }

  lemma {:induction false} DigitsInjective(m: nat, n: nat)
    requires Digits(m) == Digits(n)
    ensures m == n
    decreases m + n
  {
    var s, t := Digits(m), Digits(n);
    assert s[|s| - 1] as int - '0' as int == m % 10 && t[|t| - 1] as int - '0' as int == n % 10;
    if m >= 10 && n >= 10 {
      assert s[..|s| - 1] == Digits(m / 10) && t[..|t| - 1] == Digits(n / 10);
      DigitsInjective(m / 10, n / 10);
    }
  }

  lemma {:induction false} DecimalInjective(m: int, n: int)
    requires Decimal(m) == Decimal(n)
    ensures m == n
  {
    if m < 0 && n < 0 {
      assert Digits(-m) == Decimal(m)[1..] == Decimal(n)[1..] == Digits(-n);
      DigitsInjective(-m, -n);
    }
    if m >= 0 && n >= 0 {
      DigitsInjective(m, n);
    }
  }

  // ---- trimming and folding, from outside ----

  predicate Blank(c: char) {
    c == ' ' || ('\t' <= c <= '\r')
  }

  predicate AllBlank(s: string) {
    forall i :: 0 <= i < |s| ==> Blank(s[i])
  }

  /** t is s without the blanks around it. */
  ghost predicate Trimmed(s: string, t: string) {
    && (exists l, r :: AllBlank(l) && AllBlank(r) && s == l + t + r)
    && (t != "" ==> !Blank(t[0]) && !Blank(t[|t| - 1]))
  }

  lemma {:induction false} TrimLeftIs(s: string) returns (l: string)
    ensures AllBlank(l) && s == l + TrimLeft(s) && (TrimLeft(s) != "" ==> !Blank(TrimLeft(s)[0]))
  {
    if s != "" && IsSpace(s[0]) {
      var m := TrimLeftIs(s[1..]);
      l := [s[0]] + m;
      assert s == [s[0]] + s[1..];
    } else {
      l := "";
    }
  }

  lemma {:induction false} TrimRightIs(s: string) returns (r: string)
    ensures AllBlank(r) && s == TrimRight(s) + r
    ensures TrimRight(s) != "" ==> !Blank(TrimRight(s)[|TrimRight(s)| - 1]) && TrimRight(s)[0] == s[0]
  {
    if s != "" && IsSpace(s[|s| - 1]) {
      var m := TrimRightIs(s[..|s| - 1]);
      r := m + [s[|s| - 1]];
      assert s == s[..|s| - 1] + [s[|s| - 1]];
    } else {
      r := "";
    }
  }

  lemma {:induction false} TrimSpaceIs(s: string)
    ensures Trimmed(s, TrimSpace(s))
  {
    var l := TrimLeftIs(s);
    var r := TrimRightIs(TrimLeft(s));
    assert s == l + TrimSpace(s) + r;
  }

  /** t is s with every ASCII capital made small. */
  predicate Lowered(s: string, t: string) {
    |t| == |s| && forall i :: 0 <= i < |s| ==>
      t[i] as int == if 'A' <= s[i] <= 'Z' then s[i] as int + 32 else s[i] as int
  }

  lemma {:induction false} ToLowerIs(s: string)
    ensures Lowered(s, ToLower(s))
  {
  }
}
