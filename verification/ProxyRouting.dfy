/** Host names: which slug a proxied host names, and which certificate its handshake gets. */
module ProxyRouting {
  import opened Base
  import opened Text
  import J = Json

  /** Longest first, then alphabetical. */
  predicate Precedes(a: string, b: string) {
    |a| > |b| || (|a| == |b| && !J.Less(b, a))
  }

  /** Longer first; of equally long ones, the one with the smaller code point where they first differ. */
  lemma {:induction false} PrecedesIff(a: string, b: string)
    ensures Precedes(a, b) <==> |a| > |b| || (|a| == |b| && (a == b || J.ComesBefore(a, b)))
  {
    J.LessIff(a, b);
    J.LessTotal(a, b);
    if J.Less(a, b) && J.Less(b, a) {
      J.LessTransitive(a, b, a);
    }
    J.LessIrreflexive(a);
  }

  function InsertSuffix(s: seq<string>, x: string): (r: seq<string>)
    ensures multiset(r) == multiset(s) + multiset{x}
  {
    if s == [] || Precedes(x, s[0]) then [x] + s
    else
      assert s == [s[0]] + s[1..];
      [s[0]] + InsertSuffix(s[1..], x)
  }

  /** sort.Slice with that order. */
  function SortSuffixes(s: seq<string>): (r: seq<string>)
    ensures multiset(r) == multiset(s)
  {
    if s == [] then []
    else
      assert s == s[..|s| - 1] + [s[|s| - 1]];
      InsertSuffix(SortSuffixes(s[..|s| - 1]), s[|s| - 1])
  }

  lemma {:induction false} PrecedesTotal(a: string, b: string)
    ensures Precedes(a, b) || Precedes(b, a)
  {
    if J.Less(a, b) && J.Less(b, a) {
      J.LessTransitive(a, b, a);
      J.LessIrreflexive(a);
    }
  }

  lemma {:induction false} PrecedesTransitive(a: string, b: string, c: string)
    requires Precedes(a, b) && Precedes(b, c)
    ensures Precedes(a, c)
  {
    if |a| == |c| && J.Less(c, a) {
      J.LessTotal(a, b);
      J.LessTotal(b, c);
      if a != b && b != c {
        J.LessTransitive(a, b, c);
        J.LessTransitive(a, c, a);
      }
      J.LessIrreflexive(a);
      if a != b {
        J.LessTransitive(a, b, a);
      } else if b != c {
        J.LessTransitive(b, c, b);
      }
    }
  }

  ghost predicate Ordered(s: seq<string>) {
    forall i, j :: 0 <= i < j < |s| ==> Precedes(s[i], s[j])
  }

  lemma {:induction false} InsertOrdered(s: seq<string>, x: string)
    requires Ordered(s)
    ensures Ordered(InsertSuffix(s, x))
  {
    if s == [] {
    } else if Precedes(x, s[0]) {
      forall j | 0 <= j < |s|
        ensures Precedes(x, s[j])
      {
        if j > 0 {
          PrecedesTransitive(x, s[0], s[j]);
        }
      }
    } else {
      var r := InsertSuffix(s[1..], x);
      InsertOrdered(s[1..], x);
      PrecedesTotal(x, s[0]);
      forall j | 0 <= j < |r|
        ensures Precedes(s[0], r[j])
      {
        assert r[j] in multiset(r);
        assert r[j] == x || r[j] in s[1..];
      }
    }
  }

  lemma {:induction false} SortOrdered(s: seq<string>)
    ensures Ordered(SortSuffixes(s))
  {
    if s != [] {
      SortOrdered(s[..|s| - 1]);
      InsertOrdered(SortSuffixes(s[..|s| - 1]), s[|s| - 1]);
    }
  }

  // ---- the host part of host:port ----

  function LastColon(s: string): (i: int)
    ensures -1 <= i < |s|
    ensures i >= 0 ==> s[i] == ':'
    ensures forall k :: i < k < |s| ==> s[k] != ':'
  {
    if s == "" then -1 else if s[|s| - 1] == ':' then |s| - 1 else LastColon(s[..|s| - 1])
  }

  function FirstOf(s: string, c: char): (i: nat)
    ensures i <= |s| && (i < |s| ==> s[i] == c)
    ensures forall k :: 0 <= k < i ==> s[k] != c
  {
    if s == "" || s[0] == c then 0 else 1 + FirstOf(s[1..], c)
  }

  predicate Contains(s: string, c: char) {
    FirstOf(s, c) < |s|
  }

  /** net.SplitHostPort's host, or None where it reports an error. */
  function SplitHost(s: string): Option<string> {
    var i := LastColon(s);
    if i < 0 then None
    else if s[0] == '[' then
      var end := FirstOf(s, ']');
      if end == |s| || end + 1 != i || Contains(s[1..], '[') || Contains(s[end + 1..], ']') then None
      else Some(s[1..end])
    else if Contains(s[..i], ':') || Contains(s, '[') || Contains(s, ']') then None
    else Some(s[..i])
  }

  function HostOf(s: string): string {
    match SplitHost(s) case Some(h) => h case None => s
  }

  predicate Plain(s: string) {
    forall i :: 0 <= i < |s| ==> s[i] != ':' && s[i] != '[' && s[i] != ']'
  }

  /** A name without brackets and colons is its own host, alone or before a port. */
  lemma {:induction false} HostOfName(name: string, port: string)
    requires Plain(name) && Plain(port)
    ensures HostOf(name) == name && HostOf(name + ":" + port) == name
  {
    var s := name + ":" + port;
    assert s[|name|] == ':' && s[..|name|] == name;
    assert forall k :: |name| < k < |s| ==> s[k] == port[k - |name| - 1];
    assert LastColon(s) == |name|;
    assert s[0] != '[';
    assert !Contains(s, '[') && !Contains(s, ']') && !Contains(name, ':');
  }

  // ---- slugs ----

  function FirstDot(s: string): (r: nat)
    ensures r <= |s|
    ensures r < |s| ==> s[r] == '.'
    ensures forall i :: 0 <= i < r ==> s[i] != '.'
  {
    if s == "" || s[0] == '.' then 0 else 1 + FirstDot(s[1..])
  }

  /** Everything after the first dot. */
  function StripFirstLabel(host: string): string {
    var i := FirstDot(host);
    if i < |host| then host[i + 1..] else ""
  }

  /** Split at the first dot: a non-empty label before it, a registered suffix after it. */
  function SlugOf(host: string, suffixes: set<string>): string {
    var i := FirstDot(host);
    if 0 < i < |host| && host[i + 1..] != "" && host[i + 1..] in suffixes then host[..i] else ""
  }

  /** Does one suffix of the scan give a slug? */
  predicate Hits(host: string, suf: string) {
    && suf != "" && HasSuffix(host, "." + suf)
    && var slug := TrimSuffix(host, "." + suf);
       slug != "" && forall i :: 0 <= i < |slug| ==> slug[i] != '.'
  }

  lemma {:induction false} CutAt(host: string, full: string, n: nat)
    requires n <= |host| && host[n..] == full && full != ""
    ensures n < |host| && host[n] == full[0] && host[n + 1..] == full[1..]
  {
  }

  lemma {:induction false} FirstDotIs(host: string, n: nat)
    requires n < |host| && host[n] == '.' && forall i :: 0 <= i < n ==> host[i] != '.'
    ensures FirstDot(host) == n
  {
  }

  lemma {:induction false} HitSplits(host: string, suf: string)
    requires Hits(host, suf)
    ensures var i := FirstDot(host); 0 < i < |host| && suf == host[i + 1..] && TrimSuffix(host, "." + suf) == host[..i]
  {
    var full := "." + suf;
    var n := |host| - |full|;
    var slug := TrimSuffix(host, full);
    CutAt(host, full, n);
    assert full[1..] == suf;
    forall i | 0 <= i < n
      ensures host[i] != '.'
    {
      assert slug[i] == host[i];
    }
    FirstDotIs(host, n);
  }

  lemma {:induction false} SplitHits(host: string)
    requires var i := FirstDot(host); 0 < i < |host| && host[i + 1..] != ""
    ensures Hits(host, host[FirstDot(host) + 1..])
  {
  }

  /** Only the text after the first dot can hit, and then the slug is the text before it. */
  lemma {:induction false} HitsIff(host: string, suf: string)
    ensures Hits(host, suf) <==> var i := FirstDot(host); 0 < i < |host| && suf == host[i + 1..] && suf != ""
    ensures Hits(host, suf) ==> TrimSuffix(host, "." + suf) == host[..FirstDot(host)]
  {
    if Hits(host, suf) {
      HitSplits(host, suf);
    } else if 0 < FirstDot(host) < |host| && host[FirstDot(host) + 1..] != "" {
      SplitHits(host);
    }
  }

  predicate NoDot(s: string) {
    forall i :: 0 <= i < |s| ==> s[i] != '.'
  }

  /** A host has a slug exactly if it is a single label, a dot and a registered suffix; and the slug is the label. */
  lemma {:induction false} SlugIff(host: string, suffixes: set<string>, slug: string)
    requires slug != ""
    ensures SlugOf(host, suffixes) == slug
            <==> NoDot(slug) && exists suf :: suf in suffixes && suf != "" && host == slug + "." + suf
  {
    if SlugOf(host, suffixes) == slug {
      var i := FirstDot(host);
      assert host == slug + "." + host[i + 1..];
    }
    if NoDot(slug) {
      if suf :| suf in suffixes && suf != "" && host == slug + "." + suf {
        assert host[|slug|] == '.' && host[|slug| + 1..] == suf && host[..|slug|] == slug;
        FirstDotIs(host, |slug|);
      }
    }
  }

  /** The scan over the sorted list, whatever the list and its order, is the split of the host part at the
      first dot. */
  method ExtractSlug(hostport: string, suffixes: seq<string>) returns (slug: string)
    ensures slug == SlugOf(HostOf(hostport), set s | s in suffixes)
  {
    slug := ScanSuffixes(HostOf(hostport), suffixes);
  }

  method ScanSuffixes(host: string, suffixes: seq<string>) returns (slug: string)
    ensures slug == SlugOf(host, set s | s in suffixes)
  {
    if host == "" || |suffixes| == 0 {
      return "";
    }
    var ordered := SortSuffixes(suffixes);
    SameElements(ordered, suffixes);
    for n := 0 to |ordered|
      invariant forall k :: 0 <= k < n ==> !Hits(host, ordered[k])
    {
      var suf := ordered[n];
      HitsIff(host, suf);
      assert suf in ordered;
      if suf == "" {
        continue;
      }
      var full := "." + suf;
      if !HasSuffix(host, full) {
        continue;
      }
      slug := TrimSuffix(host, full);
      if slug == "" || FirstDot(slug) < |slug| {
        continue;
      }
      return;
    }
    MissesMean(host, ordered);
    return "";
  }

  lemma {:induction false} MissesMean(host: string, ordered: seq<string>)
    requires forall k :: 0 <= k < |ordered| ==> !Hits(host, ordered[k])
    ensures SlugOf(host, set s | s in ordered) == ""
  {
  }

  lemma {:induction false} SameElements(a: seq<string>, b: seq<string>)
    requires multiset(a) == multiset(b)
    ensures (set s | s in a) == (set s | s in b)
  {
    forall s
      ensures s in a <==> s in b
    {
      assert s in a <==> s in multiset(a);
      assert s in b <==> s in multiset(b);
    }
  }

  // ---- certificates ----

  function Normalise(h: string): string {
    TrimSuffix(TrimPrefix(ToLower(TrimSpace(h)), "*."), ".")
  }

  /** A host as registered: blanks around it dropped, in small letters, without one leading "*." and one
      trailing dot. */
  ghost predicate NormalFormOf(host: string, name: string) {
    exists t, u :: Trimmed(host, t) && Lowered(t, u) &&
      var v := if |u| >= 2 && u[0] == '*' && u[1] == '.' then u[2..] else u;
      name == if v != "" && v[|v| - 1] == '.' then v[..|v| - 1] else v
  }

  lemma {:induction false} NormaliseIs(host: string)
    ensures NormalFormOf(host, Normalise(host))
  {
    TrimSpaceIs(host);
    ToLowerIs(TrimSpace(host));
    var u := ToLower(TrimSpace(host));
    assert HasPrefix(u, "*.") <==> |u| >= 2 && u[0] == '*' && u[1] == '.';
    var v := TrimPrefix(u, "*.");
    assert HasSuffix(v, ".") <==> v != "" && v[|v| - 1] == '.';
  }

  predicate Lower(s: string) {
    forall i :: 0 <= i < |s| ==> LowerChar(s[i]) == s[i]
  }

  /** Exactly the names normalisation leaves alone. */
  lemma {:induction false} SelfNormalIff(h: string)
    ensures Normalise(h) == h <==>
            TrimSpace(h) == h && Lower(h) && !HasPrefix(h, "*.") && !HasSuffix(h, ".")
  {
    TrimShrinks(h);
    var t := TrimSpace(h);
    if Normalise(h) == h {
      assert |t| == |h|;
      assert t == h;
      assert ToLower(t) == h;
    }
    if t == h && Lower(h) {
      assert ToLower(h) == h;
    }
  }

  lemma {:induction false} TrimLeftShrinks(s: string)
    ensures |TrimLeft(s)| <= |s| && (|TrimLeft(s)| == |s| ==> TrimLeft(s) == s)
  {
    if s != "" && IsSpace(s[0]) {
      TrimLeftShrinks(s[1..]);
    }
  }

  lemma {:induction false} TrimRightShrinks(s: string)
    ensures |TrimRight(s)| <= |s| && (|TrimRight(s)| == |s| ==> TrimRight(s) == s)
  {
    if s != "" && IsSpace(s[|s| - 1]) {
      TrimRightShrinks(s[..|s| - 1]);
    }
  }

  lemma {:induction false} TrimShrinks(s: string)
    ensures |TrimSpace(s)| <= |s| && (|TrimSpace(s)| == |s| ==> TrimSpace(s) == s)
  {
    TrimLeftShrinks(s);
    TrimRightShrinks(TrimLeft(s));
  }

  /** A registered name need not be self-normalising: only one wildcard label is taken off. */
  lemma {:induction false} NotAllRegisteredAreSelfNormal()
    ensures Normalise("*.*.a") == "*.a" && Normalise("*.a") != "*.a"
  {
    assert TrimLeft("*.*.a") == "*.*.a" && TrimRight("*.*.a") == "*.*.a";
    assert ToLower("*.*.a") == "*.*.a";
    assert TrimPrefix("*.*.a", "*.") == "*.a";
    assert !HasSuffix("*.a", ".");
    SelfNormalIff("*.a");
    assert HasPrefix("*.a", "*.");
  }

  /** Each suffix with its certificate, if one has been issued. */
  type Entries<Cert> = map<string, Option<Cert>>

  function Lookup<Cert>(entries: Entries<Cert>, host: string): Option<Cert> {
    if Normalise(host) in entries then entries[Normalise(host)] else None
  }

  /** The certificate a server name selects by itself: the parent's, else the name's own. */
  function Selected<Cert>(entries: Entries<Cert>, serverName: string): Option<Cert> {
    if serverName == "" then None
    else
      var parent := Lookup(entries, StripFirstLabel(serverName));
      if parent.Some? then parent else Lookup(entries, serverName)
  }

  /** A handshake's server name selects a certificate exactly if the name without its first label is registered
      with it, or, where that holds none, the name itself is. */
  lemma {:induction false} SelectedIff<Cert>(entries: Entries<Cert>, serverName: string, c: Cert)
    ensures Selected(entries, serverName) == Some(c)
            <==> && serverName != ""
                 && var parent, own := Normalise(StripFirstLabel(serverName)), Normalise(serverName);
                    || (parent in entries && entries[parent] == Some(c))
                    || (!Usable(entries, parent) && own in entries && entries[own] == Some(c))
  {
  }

  predicate Usable<Cert>(entries: Entries<Cert>, k: string) {
    k in entries && entries[k].Some?
  }

  /** The certificate for everybody else: that of the first suffix, longest first, that holds one; None,
      an error, only when none does. */
  ghost predicate IsFallback<Cert>(entries: Entries<Cert>, r: Option<Cert>) {
    if r.None? then forall k :: !Usable(entries, k)
    else exists k :: Usable(entries, k) && entries[k] == r && forall l :: Usable(entries, l) ==> Precedes(k, l)
  }

  /** When a host has a slug under a registered, self-normalising suffix that holds a certificate, the
      handshake for that host selects the certificate of that very suffix. */
  lemma {:induction false} SlugAndCertificateAgree<Cert>(entries: Entries<Cert>, host: string)
    requires SlugOf(host, entries.Keys) != ""
    requires var suf := StripFirstLabel(host); Normalise(suf) == suf && entries[suf].Some?
    ensures Selected(entries, host) == entries[StripFirstLabel(host)]
    ensures host == SlugOf(host, entries.Keys) + "." + StripFirstLabel(host)
  {
    SlugSplits(host, entries.Keys);
    ParentDecides(entries, host, StripFirstLabel(host));
  }

  lemma {:induction false} SlugSplits(host: string, suffixes: set<string>)
    requires SlugOf(host, suffixes) != ""
    ensures host == SlugOf(host, suffixes) + "." + StripFirstLabel(host) && StripFirstLabel(host) in suffixes
  {
  }

  lemma {:induction false} ParentDecides<Cert>(entries: Entries<Cert>, host: string, suf: string)
    requires host != "" && suf == StripFirstLabel(host) && Normalise(suf) == suf && suf in entries && entries[suf].Some?
    ensures Selected(entries, host) == entries[suf]
  {
  }

  class Registry<Cert(==)> {
    var entries: Entries<Cert>

    /** Every registered name is the normal form of some spelling, and not empty. */
    ghost predicate Valid()
      reads this
    {
      forall k :: k in entries ==> k != "" && IsNormalForm(k)
    }

    constructor ()
      ensures Valid() && entries == map[]
    {
      entries := map[];
    }

    /** Registering a suffix changes no lookup: it has no certificate yet, or keeps the one it has. */
    method AddSuffix(host: string)
      requires Valid()
      modifies this
      ensures Valid()
      ensures entries.Keys == old(entries.Keys) + Named(host)
      ensures forall g :: Lookup(entries, g) == Lookup(old(entries), g)
    {
      var h := Normalise(host);
      if h == "" {
        return;
      }
      if h !in entries {
        entries := entries[h := None];
      }
    }

    /** Afterwards no spelling of the name finds a certificate, and every other name finds what it found. */
    method RemoveSuffix(host: string)
      requires Valid()
      modifies this
      ensures Valid()
      ensures entries.Keys == old(entries.Keys) - Named(host)
      ensures forall g :: Lookup(entries, g) == if Normalise(g) == Normalise(host) then None
              else Lookup(old(entries), g)
    {
      var h := Normalise(host);
      if h != "" {
        entries := entries - {h};
      }
    }

    /** LoadSuffix, once the certificate pair has been read and matches: every spelling of the name finds
        the certificate, unless the name is empty. */
    method Install(host: string, cert: Cert)
      requires Valid()
      modifies this
      ensures Valid()
      ensures entries.Keys == old(entries.Keys) + Named(host)
      ensures forall g :: Lookup(entries, g)
                          == if Normalise(g) == Normalise(host) != "" then Some(cert) else Lookup(old(entries), g)
    {
      var h := Normalise(host);
      if h != "" {
        entries := entries[h := Some(cert)];
      }
    }

    /** Every registered name, longest first. */
    method Suffixes() returns (out: seq<string>)
      ensures Ordered(out) && (set s | s in out) == entries.Keys && |out| == |entries.Keys|
    {
      out := [];
      var todo := entries.Keys;
      while todo != {}
        invariant todo <= entries.Keys && (set s | s in out) == entries.Keys - todo && |out| + |todo| == |entries.Keys|
        decreases |todo|
      {
        var k :| k in todo;
        todo := todo - {k};
        assert (set s | s in out + [k]) == (set s | s in out) + {k};
        out := out + [k];
      }
      SortOrdered(out);
      SameElements(SortSuffixes(out), out);
      assert |multiset(SortSuffixes(out))| == |multiset(out)|;
      out := SortSuffixes(out);
    }

    method FallbackCert() returns (r: Option<Cert>)
      ensures IsFallback(entries, r)
    {
      var ks := Suffixes();
      for i := 0 to |ks|
        invariant forall j :: 0 <= j < i ==> !Usable(entries, ks[j])
      {
        assert ks[i] in (set s | s in ks);
        if entries[ks[i]].Some? {
          FirstUsable(entries, ks, i);
          return entries[ks[i]];
        }
      }
      forall k | Usable(entries, k)
        ensures k in ks
      {
        assert k in (set s | s in ks);
      }
      return None;
    }

    method GetCertificate(serverName: string) returns (r: Option<Cert>)
      ensures if Selected(entries, serverName).Some? then r == Selected(entries, serverName) else IsFallback(entries, r)
    {
      if serverName != "" {
        var bare := StripFirstLabel(serverName);
        r := Lookup(entries, bare);
        if r.Some? {
          return;
        }
        r := Lookup(entries, serverName);
        if r.Some? {
          return;
        }
      }
      r := FallbackCert();
    }
  }

  ghost predicate IsNormalForm(k: string) {
    exists h :: Normalise(h) == k
  }

  /** The name a spelling registers, if any. */
  function Named(host: string): set<string> {
    if Normalise(host) == "" then {} else {Normalise(host)}
  }

  lemma {:induction false} FirstUsable<Cert>(entries: Entries<Cert>, ks: seq<string>, i: nat)
    requires Ordered(ks) && (set s | s in ks) == entries.Keys && i < |ks| && Usable(entries, ks[i])
    requires forall j :: 0 <= j < i ==> !Usable(entries, ks[j])
    ensures forall l :: Usable(entries, l) ==> Precedes(ks[i], l)
  {
    forall l | Usable(entries, l)
      ensures Precedes(ks[i], l)
    {
      assert l in (set s | s in ks);
      var j :| 0 <= j < |ks| && ks[j] == l;
      PrecedesTotal(l, l);
    }
  }
}
