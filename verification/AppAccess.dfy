/** Who reaches which app by its slug, from the ACL alone, and by client key. */
module AppAccess {
  import opened Base
  import opened Addresses
  import opened Allocator
  import opened Wire
  import opened Acl
  import opened Signing
  import opened DeviceState
  import opened Addressing
  import opened Firewall
  import opened Reachability

  predicate Fits(a: App, port: bool, slug: string) {
    (a.kind == "port") == port && a.slug == slug
  }

  predicate NoneFits(apps: seq<App>, port: bool, slug: string) {
    forall i :: 0 <= i < |apps| ==> !Fits(apps[i], port, slug)
  }

  /** a is the first app of that slug, raw-port or proxied as `port` says. */
  predicate IsFirst(apps: seq<App>, port: bool, slug: string, a: App) {
    exists i :: 0 <= i < |apps| && apps[i] == a && Fits(a, port, slug) && NoneFits(apps[..i], port, slug)
  }

  predicate NobodyHas(ms: seq<Member>, port: bool, slug: string) {
    forall i :: 0 <= i < |ms| ==> NoneFits(ms[i].apps, port, slug)
  }

  /** a is the first such app of the first member granted one. */
  predicate FirstGranted(ms: seq<Member>, port: bool, slug: string, a: App) {
    exists i :: 0 <= i < |ms| && IsFirst(ms[i].apps, port, slug, a) && NobodyHas(ms[..i], port, slug)
  }

  /** a is what the device has under that slug: in the catalogue, or else among the members' grants. */
  predicate Installed(ms: seq<Member>, apps: seq<App>, port: bool, slug: string, a: App) {
    IsFirst(apps, port, slug, a) || (NoneFits(apps, port, slug) && FirstGranted(ms, port, slug, a))
  }

  predicate SomeFits(apps: seq<App>, port: bool, slug: string) {
    exists i :: 0 <= i < |apps| && Fits(apps[i], port, slug)
  }

  predicate At(m: Member, ip: Address) {
    ip != NoAddress && exists j :: 0 <= j < |m.clients| && (m.clients[j].ip4 == ip || m.clients[j].ip6 == ip)
  }

  /** Member i has a client at this address and no later member does. */
  predicate LastAt(ms: seq<Member>, ip: Address, i: int) {
    0 <= i < |ms| && At(ms[i], ip) && forall j :: i < j < |ms| ==> !At(ms[j], ip)
  }

  /** The gate of the proxy: an active admin opens whatever the device has, any other active member
      what it was granted. */
  predicate MayOpen(ms: seq<Member>, apps: seq<App>, m: Member, slug: string, a: App) {
    && (m.status == "" || m.status == "active")
    && if m.role == "admin" || m.role == "owner" then Installed(ms, apps, false, slug, a)
       else IsFirst(m.apps, false, slug, a)
  }

  lemma {:induction false} FirstAppIff(apps: seq<App>, port: bool, slug: string, a: App)
    ensures FirstApp(apps, port, slug) == Some(a) <==> IsFirst(apps, port, slug, a)
    ensures FirstApp(apps, port, slug).None? <==> NoneFits(apps, port, slug)
  {
    if apps != [] {
      FirstAppIff(apps[1..], port, slug, a);
      if Fits(apps[0], port, slug) {
        assert NoneFits(apps[..0], port, slug);
      } else {
        FirstSkips(apps, port, slug, a);
      }
    }
  }

  lemma {:induction false} FirstSkips(apps: seq<App>, port: bool, slug: string, a: App)
    requires apps != [] && !Fits(apps[0], port, slug)
    ensures IsFirst(apps, port, slug, a) <==> IsFirst(apps[1..], port, slug, a)
  {
    if i :| 0 <= i < |apps| && apps[i] == a && Fits(a, port, slug) && NoneFits(apps[..i], port, slug) {
      assert apps[1..][i - 1] == a && apps[1..][..i - 1] == apps[..i][1..];
    }
    if i :| 0 <= i < |apps[1..]| && apps[1..][i] == a && Fits(a, port, slug) && NoneFits(apps[1..][..i], port, slug) {
      assert apps[i + 1] == a && apps[..i + 1] == [apps[0]] + apps[1..][..i];
    }
  }

  lemma {:induction false} FirstMemberAppIff(ms: seq<Member>, port: bool, slug: string, a: App)
    ensures FirstMemberApp(ms, port, slug) == Some(a) <==> FirstGranted(ms, port, slug, a)
    ensures FirstMemberApp(ms, port, slug).None? <==> NobodyHas(ms, port, slug)
  {
    if ms != [] {
      FirstAppIff(ms[0].apps, port, slug, a);
      FirstMemberAppIff(ms[1..], port, slug, a);
      if NoneFits(ms[0].apps, port, slug) {
        FirstMemberSkips(ms, port, slug, a);
      } else {
        assert NobodyHas(ms[..0], port, slug);
      }
    }
  }

  lemma {:induction false} FirstMemberSkips(ms: seq<Member>, port: bool, slug: string, a: App)
    requires ms != [] && NoneFits(ms[0].apps, port, slug)
    ensures FirstGranted(ms, port, slug, a) <==> FirstGranted(ms[1..], port, slug, a)
  {
    if i :| 0 <= i < |ms| && IsFirst(ms[i].apps, port, slug, a) && NobodyHas(ms[..i], port, slug) {
      assert ms[1..][i - 1] == ms[i] && ms[1..][..i - 1] == ms[..i][1..];
    }
    if i :| 0 <= i < |ms[1..]| && IsFirst(ms[1..][i].apps, port, slug, a) && NobodyHas(ms[1..][..i], port, slug) {
      assert ms[i + 1] == ms[1..][i] && ms[..i + 1] == [ms[0]] + ms[1..][..i];
    }
  }

  /** FindAppBySlug. */
  lemma {:induction false} CatalogueAppIff(ms: seq<Member>, apps: seq<App>, port: bool, slug: string, a: App)
    ensures CatalogueApp(ms, apps, port, slug) == Some(a) <==> Installed(ms, apps, port, slug, a)
    ensures CatalogueApp(ms, apps, port, slug).Some?
            <==> SomeFits(apps, port, slug) || exists i :: 0 <= i < |ms| && SomeFits(ms[i].apps, port, slug)
  {
    FirstAppIff(apps, port, slug, a);
    FirstMemberAppIff(ms, port, slug, a);
  }

  /** IsAppAllowed: the last member with a client at the source, if it is active, gets the app its gate
      opens; everybody else gets nothing. */
  lemma {:induction false} ProxyAppIff(ms: seq<Member>, apps: seq<App>, ip: Address, slug: string, a: App)
    ensures ProxyApp(ms, apps, ip, slug) == Some(a)
            <==> exists i :: LastAt(ms, ip, i) && MayOpen(ms, apps, ms[i], slug, a)
  {
    CatalogueAppIff(ms, apps, false, slug, a);
    var last := LastMatch(ms, Holds, ip);
    LastAtIs(ms, ip);
    if last.Some? {
      FirstAppIff(ms[last.value].apps, false, slug, a);
    }
  }

  /** IsPortAppAllowed: the same, for raw-port apps and without the admins' privilege. */
  lemma {:induction false} PortAppIff(ms: seq<Member>, ip: Address, slug: string, a: App)
    ensures PortApp(ms, ip, slug) == Some(a)
            <==> exists i :: LastAt(ms, ip, i) && (ms[i].status == "" || ms[i].status == "active")
                             && IsFirst(ms[i].apps, true, slug, a)
  {
    var last := LastMatch(ms, Holds, ip);
    LastAtIs(ms, ip);
    if last.Some? {
      FirstAppIff(ms[last.value].apps, true, slug, a);
    }
  }

  lemma {:induction false} LastAtIs(ms: seq<Member>, ip: Address)
    ensures forall i :: LastAt(ms, ip, i) <==> i >= 0 && LastMatch(ms, Holds, ip) == Some(i)
  {
    forall i | 0 <= i < |ms|
      ensures At(ms[i], ip) <==> Holds(ms[i], ip)
    {
      AtIsHolds(ms[i], ip);
    }
  }

  lemma {:induction false} AtIsHolds(m: Member, ip: Address)
    ensures At(m, ip) <==> Holds(m, ip)
  {
    if At(m, ip) {
      var j :| 0 <= j < |m.clients| && (m.clients[j].ip4 == ip || m.clients[j].ip6 == ip);
      assert HasAddress(m.clients[j], ip);
    }
  }

  // ---- by client key ----

  predicate Lists(m: Member, k: Key) {
    exists j :: 0 <= j < |m.clients| && m.clients[j].key == k
  }

  predicate LastLists(ms: seq<Member>, k: Key, i: int) {
    0 <= i < |ms| && Lists(ms[i], k) && forall j :: i < j < |ms| ==> !Lists(ms[j], k)
  }

  lemma {:induction false} AtIffLists(env: Env, s: State, f: Family, m: Member, k: Key)
    requires Agreement(env, s) && m in s.members && k != "" && k in s.alloc.bound
             && (f == IPv6 ==> DualStack(env.server6))
    ensures At(m, OverlaySource(env, f, s.alloc.bound[k])) <==> Lists(m, k)
  {
    var i :| 0 <= i < |s.members| && s.members[i] == m;
    assert AllAgree(env.server6, s.alloc, m.clients);
    assert Holdable(s.alloc, s.alloc.bound[k]);
  }

  /** Wherever ACL and allocator agree, from the IPv4 address bound to a key or its IPv6 partner, the proxy
      opens an app exactly if the last member listing the key is active and was granted it, or is an active
      admin and the device has it. */
  lemma {:induction false} ProxyReachability(env: Env, s: State, f: Family, k: Key, slug: string, a: App)
    requires Agreement(env, s) && k != "" && k in s.alloc.bound && (f == IPv6 ==> DualStack(env.server6))
    ensures ProxyApp(s.members, s.apps, OverlaySource(env, f, s.alloc.bound[k]), slug) == Some(a)
            <==> exists i :: LastLists(s.members, k, i) && MayOpen(s.members, s.apps, s.members[i], slug, a)
  {
    var ip := OverlaySource(env, f, s.alloc.bound[k]);
    ProxyAppIff(s.members, s.apps, ip, slug, a);
    SameLast(env, s, f, k);
  }

  lemma {:induction false} SameLast(env: Env, s: State, f: Family, k: Key)
    requires Agreement(env, s) && k != "" && k in s.alloc.bound && (f == IPv6 ==> DualStack(env.server6))
    ensures forall i :: LastAt(s.members, OverlaySource(env, f, s.alloc.bound[k]), i) <==> LastLists(s.members, k, i)
  {
    forall i | 0 <= i < |s.members|
      ensures At(s.members[i], OverlaySource(env, f, s.alloc.bound[k])) <==> Lists(s.members[i], k)
    {
      AtIffLists(env, s, f, s.members[i], k);
    }
  }

  /** In particular right after an applied push. */
  lemma {:induction false} AppliedPushProxy(env: Env, s: State, p: Push, now: Time, finished: Time, addOk: AddOk,
                                            f: Family, k: Key, slug: string, a: App)
    requires Agreement(env, s) && HandlePush(env, s, p, now, finished, addOk).1 == Applied
    requires k != "" && k in HandlePush(env, s, p, now, finished, addOk).0.alloc.bound
    requires f == IPv6 ==> DualStack(env.server6)
    ensures var t := HandlePush(env, s, p, now, finished, addOk).0;
            ProxyApp(t.members, t.apps, OverlaySource(env, f, t.alloc.bound[k]), slug) == Some(a)
            <==> exists i :: LastLists(t.members, k, i) && MayOpen(t.members, t.apps, t.members[i], slug, a)
  {
    PushKeepsAgreement(env, s, p, now, finished, addOk);
    ProxyReachability(env, HandlePush(env, s, p, now, finished, addOk).0, f, k, slug, a);
  }
}
