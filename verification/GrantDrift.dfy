/** The installed firewall grants against the current ACL: a push installs them, a provision does not. */
module GrantDrift {
  import opened Base
  import opened Prefixes
  import opened Addresses
  import opened Wire
  import opened Acl
  import opened Signing
  import opened DeviceState
  import opened Addressing
  import opened Provisioning
  import opened ProvisionFacts
  import opened AgentRuns
  import opened Firewall
  import opened Reachability
  import Al = Allocator

  /** The installed grants let through exactly what the ACL grants. */
  ghost predicate Current(s: State) {
    forall f, p :: SomeGrantAccepts(s.grants, f, p) <==> Granted(s.members, f, p)
  }

  ghost predicate SameGranted(ms: seq<Member>, ns: seq<Member>) {
    forall f, p :: Granted(ms, f, p) <==> Granted(ns, f, p)
  }

  ghost predicate SamePermitted(ms: seq<Member>, ns: seq<Member>) {
    forall l, proto, port :: KeyPermitted(ms, l, proto, port) <==> KeyPermitted(ns, l, proto, port)
  }

  // ---- addresses and keys ----

  lemma {:induction false} GrantedMeansKey(env: Env, a: Al.Alloc, ms: seq<Member>, f: Family,
                                           p: Packet) returns (l: Al.Key)
    requires Al.Valid(a) && MembersAgree(env.server6, a, ms) && Granted(ms, f, p)
    ensures l != "" && l in a.bound && KeyPermitted(ms, l, p.proto, p.dport)
    ensures p.src == OverlaySource(env, f, a.bound[l]) && p.src != NoAddress
  {
    var i :| 0 <= i < |ms| && ms[i].IsActive() && Owns(ms[i], f, p.src) && Permits(ms[i], p.proto, p.dport);
    var j :| 0 <= j < |ms[i].clients| && ms[i].clients[j].ip4 != NoAddress
        && ClientSource(ms[i].clients[j], f) == p.src;
    assert AllAgree(env.server6, a, ms[i].clients);
    assert Agrees(env.server6, a, ms[i].clients[j]);
    l := ms[i].clients[j].key;
    assert HasKey(ms[i], l);
  }

  lemma {:induction false} KeyMeansGranted(env: Env, a: Al.Alloc, ms: seq<Member>, f: Family, l: Al.Key, p: Packet)
    requires Al.Valid(a) && MembersAgree(env.server6, a, ms) && KeyPermitted(ms, l, p.proto, p.dport)
    requires l in a.bound && p.src == OverlaySource(env, f, a.bound[l]) && p.src != NoAddress
    ensures Granted(ms, f, p)
  {
    var i :| 0 <= i < |ms| && ms[i].IsActive() && HasKey(ms[i], l) && Permits(ms[i], p.proto, p.dport);
    var j :| 0 <= j < |ms[i].clients| && ms[i].clients[j].key == l;
    assert AllAgree(env.server6, a, ms[i].clients);
    assert Agrees(env.server6, a, ms[i].clients[j]);
    assert Al.Holdable(a, a.bound[l]);
    assert Owns(ms[i], f, p.src);
  }

  lemma {:induction false} PermittedIsBound(server6: Address, a: Al.Alloc, ms: seq<Member>, l: Al.Key, proto: Proto,
                                            port: int)
    requires MembersAgree(server6, a, ms) && KeyPermitted(ms, l, proto, port)
    ensures l != "" && l in a.bound
  {
    var i :| 0 <= i < |ms| && ms[i].IsActive() && HasKey(ms[i], l) && Permits(ms[i], proto, port);
    var j :| 0 <= j < |ms[i].clients| && ms[i].clients[j].key == l;
    assert AllAgree(server6, a, ms[i].clients);
    assert Agrees(server6, a, ms[i].clients[j]);
  }

  lemma {:induction false} PermittedShows(env: Env, a: Al.Alloc, ms: seq<Member>, ns: seq<Member>, l: Al.Key,
                                          proto: Proto, port: int)
    requires Al.Valid(a) && Al.Canonical(a) && MembersAgree(env.server6, a, ms) && MembersAgree(env.server6, a, ns)
    requires SameGranted(ms, ns) && KeyPermitted(ms, l, proto, port)
    ensures KeyPermitted(ns, l, proto, port)
  {
    PermittedIsBound(env.server6, a, ms, l, proto, port);
    assert Al.Holdable(a, a.bound[l]);
    var p := Packet(a.bound[l], proto, port, false);
    KeyMeansGranted(env, a, ms, IPv4, l, p);
    assert Granted(ns, IPv4, p);
    var l' := GrantedMeansKey(env, a, ns, IPv4, p);
  }

  /** Two member lists at one allocator's addresses grant the same packets exactly if they permit the
      same keys. */
  lemma {:induction false} SameGrantedIff(env: Env, a: Al.Alloc, ms: seq<Member>, ns: seq<Member>)
    requires Al.Valid(a) && Al.Canonical(a) && MembersAgree(env.server6, a, ms) && MembersAgree(env.server6, a, ns)
    ensures SameGranted(ms, ns) <==> SamePermitted(ms, ns)
  {
    if SameGranted(ms, ns) {
      forall l, proto, port
        ensures KeyPermitted(ms, l, proto, port) <==> KeyPermitted(ns, l, proto, port)
      {
        if KeyPermitted(ms, l, proto, port) {
          PermittedShows(env, a, ms, ns, l, proto, port);
        }
        if KeyPermitted(ns, l, proto, port) {
          PermittedShows(env, a, ns, ms, l, proto, port);
        }
      }
    }
    if SamePermitted(ms, ns) {
      forall f, p
        ensures Granted(ms, f, p) <==> Granted(ns, f, p)
      {
        GrantedCarries(env, a, ms, ns, f, p);
        GrantedCarries(env, a, ns, ms, f, p);
      }
    }
  }

  lemma {:induction false} GrantedCarries(env: Env, a: Al.Alloc, ms: seq<Member>, ns: seq<Member>, f: Family, p: Packet)
    requires Al.Valid(a) && MembersAgree(env.server6, a, ms) && MembersAgree(env.server6, a, ns)
             && SamePermitted(ms, ns)
    ensures Granted(ms, f, p) ==> Granted(ns, f, p)
  {
    if Granted(ms, f, p) {
      var l := GrantedMeansKey(env, a, ms, f, p);
      KeyMeansGranted(env, a, ns, f, l, p);
    }
  }

  // ---- a provision, on the state before it ----

  /** Will member i list the key once it has been provisioned for the first member of that id, or once
      that has been rolled back? Other members lose it; namesakes do not. */
  predicate WillHold(ms: seq<Member>, id: string, k: Al.Key, added: bool, i: nat)
    requires i < |ms|
  {
    if i == FirstMember(ms, id) then added else ms[i].id == id && HasKey(ms[i], k)
  }

  predicate WillPermit(ms: seq<Member>, id: string, k: Al.Key, added: bool, proto: Proto, port: int) {
    exists i :: 0 <= i < |ms| && ms[i].IsActive() && WillHold(ms, id, k, added, i) && Permits(ms[i], proto, port)
  }

  /** Somewhere the ports open to the key before are not those that will be. */
  ghost predicate ReachChanges(ms: seq<Member>, id: string, k: Al.Key, added: bool) {
    exists proto, port :: KeyPermitted(ms, k, proto, port) != WillPermit(ms, id, k, added, proto, port)
  }

  function ProvisionedMembers(ms: seq<Member>, id: string, rec: Client, added: bool): seq<Member> {
    var ns := AddClient(ms, id, rec).1;
    if added then ns else RemoveClient(ns, id, rec.key).1
  }

  lemma {:induction false} HoldsOnceAdded(server6: Address, a: Al.Alloc, ms: seq<Member>, id: string, rec: Client,
                                          i: nat, l: Al.Key)
    requires Al.Valid(a) && MembersAgree(server6, a, ms) && rec.key != "" && Agrees(server6, a, rec)
    requires FirstMember(ms, id) < |ms| && i < |ms|
    ensures var ns := AddClient(ms, id, rec).1;
            && |ns| == |ms| && ns[i] == ms[i].(clients := ns[i].clients) && FirstMember(ns, id) == FirstMember(ms, id)
            && (HasKey(ns[i], l) <==> if l == rec.key then WillHold(ms, id, l, true, i) else HasKey(ms[i], l))
  {
    AddClientShape(ms, id, rec);
    assert AllAgree(server6, a, ms[i].clients);
    PutKeys(ms[i], rec);
    NoKeyKept(ms[i], rec);
    if l != rec.key {
      StripsOnlyKey(server6, a, ms[i], rec, l);
    }
  }

  lemma {:induction false} HoldsOnceRemoved(ms: seq<Member>, id: string, k: Al.Key, i: nat, l: Al.Key)
    requires FirstMember(ms, id) < |ms| && i < |ms|
    ensures var ns := RemoveClient(ms, id, k).1;
            && |ns| == |ms| && ns[i] == ms[i].(clients := ns[i].clients)
            && (HasKey(ns[i], l) <==> HasKey(ms[i], l) && !(i == FirstMember(ms, id) && l == k))
  {
    NoKeyWithout(ms[i], k);
    if l != k {
      WithoutOther(ms[i], k, l);
    }
  }

  lemma {:induction false} WhoHolds(server6: Address, a: Al.Alloc, ms: seq<Member>, id: string, rec: Client,
                                    added: bool, i: nat, l: Al.Key)
    requires Al.Valid(a) && MembersAgree(server6, a, ms) && rec.key != "" && Agrees(server6, a, rec)
    requires FirstMember(ms, id) < |ms| && i < |ms|
    ensures var ns := ProvisionedMembers(ms, id, rec, added);
            && |ns| == |ms| && ns[i] == ms[i].(clients := ns[i].clients)
            && (HasKey(ns[i], l) <==> if l == rec.key then WillHold(ms, id, l, added, i) else HasKey(ms[i], l))
  {
    HoldsOnceAdded(server6, a, ms, id, rec, i, l);
    if !added {
      HoldsOnceRemoved(AddClient(ms, id, rec).1, id, rec.key, i, l);
    }
  }

  lemma {:induction false} WithoutOther(m: Member, k: Al.Key, l: Al.Key)
    requires l != k
    ensures HasKey(m.(clients := WithoutKey(m.clients, k)), l) <==> HasKey(m, l)
  {
    var n := m.(clients := WithoutKey(m.clients, k));
    if HasKey(m, l) {
      var j :| 0 <= j < |m.clients| && m.clients[j].key == l;
      InWithoutKey(m.clients, k, m.clients[j]);
      assert m.clients[j] in n.clients;
    }
    if HasKey(n, l) {
      var j :| 0 <= j < |n.clients| && n.clients[j].key == l;
      InWithoutKey(m.clients, k, n.clients[j]);
    }
  }

  lemma {:induction false} WhoIsPermitted(server6: Address, a: Al.Alloc, ms: seq<Member>, id: string, rec: Client,
                                          added: bool,
                                          l: Al.Key, proto: Proto, port: int)
    requires Al.Valid(a) && MembersAgree(server6, a, ms) && rec.key != "" && Agrees(server6, a, rec)
             && FirstMember(ms, id) < |ms|
    ensures KeyPermitted(ProvisionedMembers(ms, id, rec, added), l, proto, port)
            <==> if l == rec.key then WillPermit(ms, id, l, added, proto, port) else KeyPermitted(ms, l, proto, port)
  {
    var ns := ProvisionedMembers(ms, id, rec, added);
    WhoHolds(server6, a, ms, id, rec, added, 0, l);
    forall i | 0 <= i < |ms|
      ensures SamePerson(ms[i], ns[i])
      ensures HasKey(ns[i], l) <==> if l == rec.key then WillHold(ms, id, l, added, i) else HasKey(ms[i], l)
    {
      WhoHolds(server6, a, ms, id, rec, added, i, l);
    }
    if l == rec.key {
      PermittedWithKey(ms, ns, id, l, added, proto, port);
    } else {
      PermittedWithout(ms, ns, l, proto, port);
    }
  }

  predicate SamePerson(m: Member, n: Member) {
    n.apps == m.apps && n.status == m.status
  }

  lemma {:induction false} PermittedWithKey(ms: seq<Member>, ns: seq<Member>, id: string, k: Al.Key, added: bool,
                                            proto: Proto, port: int)
    requires |ns| == |ms|
    requires forall i :: 0 <= i < |ms| ==>
             SamePerson(ms[i], ns[i]) && (HasKey(ns[i], k) <==> WillHold(ms, id, k, added, i))
    ensures KeyPermitted(ns, k, proto, port) <==> WillPermit(ms, id, k, added, proto, port)
  {
    forall i | 0 <= i < |ms|
      ensures ns[i].IsActive() && Permits(ns[i], proto, port) <==> ms[i].IsActive() && Permits(ms[i], proto, port)
    {
      assert SamePerson(ms[i], ns[i]);
    }
  }

  lemma {:induction false} PermittedWithout(ms: seq<Member>, ns: seq<Member>, l: Al.Key, proto: Proto, port: int)
    requires |ns| == |ms|
    requires forall i :: 0 <= i < |ms| ==> SamePerson(ms[i], ns[i]) && (HasKey(ns[i], l) <==> HasKey(ms[i], l))
    ensures KeyPermitted(ns, l, proto, port) <==> KeyPermitted(ms, l, proto, port)
  {
    forall i | 0 <= i < |ms|
      ensures ns[i].IsActive() && Permits(ns[i], proto, port) <==> ms[i].IsActive() && Permits(ms[i], proto, port)
    {
      assert SamePerson(ms[i], ns[i]);
    }
  }

  lemma {:induction false} PermittedAfter(server6: Address, a: Al.Alloc, ms: seq<Member>, id: string, rec: Client,
                                          added: bool)
    requires Al.Valid(a) && MembersAgree(server6, a, ms) && rec.key != "" && Agrees(server6, a, rec)
             && FirstMember(ms, id) < |ms|
    ensures SamePermitted(ms, ProvisionedMembers(ms, id, rec, added)) <==> !ReachChanges(ms, id, rec.key, added)
  {
    forall l, proto, port
      ensures KeyPermitted(ProvisionedMembers(ms, id, rec, added), l, proto, port)
              <==> if l == rec.key then WillPermit(ms, id, l, added, proto, port) else KeyPermitted(ms, l, proto, port)
    {
      WhoIsPermitted(server6, a, ms, id, rec, added, l, proto, port);
    }
  }

  /** The provision gets as far as the ACL and changes which ports are open to the key. */
  ghost predicate Drifts(env: Env, s: State, e: Event) {
    e.ProvisionArrives? && Target(env, s, e.provision, e.now).Some? &&
    var (id, k) := Target(env, s, e.provision, e.now).value;
    k != "" && Al.Allocate(s.alloc, k).1.Some? && ReachChanges(s.members, id, k, e.added)
  }

  lemma {:induction false} InstallDrift(env: Env, s: State, id: string, k: Al.Key, added: bool)
    requires Agreement(env, s) && Current(s) && FirstMember(s.members, id) < |s.members|
    ensures Current(Install(env, s, id, k, added).0)
            <==> !(k != "" && Al.Allocate(s.alloc, k).1.Some? && ReachChanges(s.members, id, k, added))
  {
    var (a, ip) := Al.Allocate(s.alloc, k);
    if k != "" && ip.Some? {
      Al.AllocateLowestFree(s.alloc, k);
      Al.StepKeeps(s.alloc, Al.DoAllocate(k));
      var rec := Record(env, k, ip.value);
      AgreeExtends(env.server6, s.alloc, a, s.members);
      AddClientAgrees(env.server6, a, s.members, id, rec);
      RemoveAgrees(env.server6, a, AddClient(s.members, id, rec).1, id, k);
      AddClientShape(s.members, id, rec);
      PermittedAfter(env.server6, a, s.members, id, rec, added);
      SameGrantedIff(env, a, s.members, ProvisionedMembers(s.members, id, rec, added));
      CurrentIff(s, Install(env, s, id, k, added).0);
    }
  }

  lemma {:induction false} CurrentIff(s: State, t: State)
    requires Current(s) && t.grants == s.grants
    ensures Current(t) <==> SameGranted(s.members, t.members)
  {
    if Current(t) {
      forall f, p
        ensures Granted(s.members, f, p) <==> Granted(t.members, f, p)
      {
        assert SomeGrantAccepts(s.grants, f, p) == SomeGrantAccepts(t.grants, f, p);
      }
    }
  }

  lemma {:induction false} PushCurrent(env: Env, s: State, p: Push, now: Time, finished: Time, addOk: AddOk)
    requires AllocSound(s) && (HandlePush(env, s, p, now, finished, addOk).1 == Applied || Current(s))
    ensures Current(HandlePush(env, s, p, now, finished, addOk).0)
  {
    var t := HandlePush(env, s, p, now, finished, addOk).0;
    if HandlePush(env, s, p, now, finished, addOk).1 == Applied {
      AppliedGrants(env, s, p, now, finished, addOk);
      forall f, packet
        ensures SomeGrantAccepts(t.grants, f, packet) <==> Granted(t.members, f, packet)
      {
        GrantsMean(t.members, f, packet);
      }
    } else {
      UnappliedPush(env, s, p, now, finished, addOk);
    }
  }

  /** Where the installed grants are the ACL's, every event keeps them so, except exactly a provision,
      successful or rolled back, that changes which ports are open to its key. */
  lemma {:induction false} StepGrantsIff(env: Env, s: State, e: Event)
    requires Agreement(env, s) && Current(s)
    ensures Current(Step(env, s, e)) <==> !Drifts(env, s, e)
  {
    match e
    case PushArrives(p, now, finished, addOk) => PushCurrent(env, s, p, now, finished, addOk);
    case ProvisionArrives(req, now, added) => ProvisionDrift(env, s, e);
    case _ => CurrentIff(s, Step(env, s, e));
  }

  lemma {:induction false} ProvisionDrift(env: Env, s: State, e: Event)
    requires e.ProvisionArrives? && Agreement(env, s) && Current(s)
    ensures Current(Step(env, s, e)) <==> !Drifts(env, s, e)
  {
    ProvisionStep(env, s, e);
    var target := Target(env, s, e.provision, e.now);
    if target.Some? {
      var (id, k) := target.value;
      var t := Install(env, s, id, k, e.added).0;
      InstallDrift(env, s, id, k, e.added);
      assert t.grants == Step(env, s, e).grants && t.members == Step(env, s, e).members;
    }
  }

  // ---- runs ----

  ghost function CurrentAfter(env: Env, s: State): seq<Event> -> bool {
    (evs: seq<Event>) => Current(Run(env, s, evs))
  }

  ghost function DriftsAfter(env: Env, s: State): (seq<Event>, Event) -> bool {
    (evs: seq<Event>, e: Event) => Drifts(env, Run(env, s, evs), e)
  }

  lemma {:induction false} CurrentAt(env: Env, s: State, evs: seq<Event>, i: nat)
    requires i < |evs| && Agreement(env, Run(env, s, evs[..i])) && Current(Run(env, s, evs[..i]))
    ensures Current(Run(env, s, evs[..i + 1])) <==> !Drifts(env, Run(env, s, evs[..i]), evs[i])
  {
    RunStep(env, s, evs, i);
    StepGrantsIff(env, Run(env, s, evs[..i]), evs[i]);
  }

  /** Over whole runs: addresses agree and the installed grants are the ACL's throughout, if and only if
      no event is a rollback onto a namesake or a provision that changes the ports open to its key. */
  lemma {:induction false} RunGrantsIff(env: Env, s: State, evs: seq<Event>)
    requires Agreement(env, s) && Current(s)
    ensures Throughout(evs, AgreesAfter(env, s)) && Throughout(evs, CurrentAfter(env, s))
            <==> Harmless(evs, LeavesNamesakeAfter(env, s)) && Harmless(evs, DriftsAfter(env, s))
  {
    forall i | 0 <= i < |evs| && Agreement(env, Run(env, s, evs[..i]))
      ensures Agreement(env, Run(env, s, evs[..i + 1])) <==> !LeavesNamesake(env, Run(env, s, evs[..i]), evs[i])
      ensures Current(Run(env, s, evs[..i])) ==>
                (Current(Run(env, s, evs[..i + 1])) <==> !Drifts(env, Run(env, s, evs[..i]), evs[i]))
    {
      AgreementAt(env, s, evs, i);
      if Current(Run(env, s, evs[..i])) {
        CurrentAt(env, s, evs, i);
      }
    }
    BothThroughoutIff(evs, AgreesAfter(env, s), CurrentAfter(env, s), LeavesNamesakeAfter(env, s), DriftsAfter(env, s));
  }

  /** How far into the run the last applied push lies: the events up to and including it. */
  function LastApplied(env: Env, s: State, evs: seq<Event>): (n: nat)
    ensures n <= |evs|
  {
    if evs == [] then 0
    else
      if AppliesLast(env, s, evs) then |evs| else LastApplied(env, s, evs[..|evs| - 1])
  }

  /** The last event of the run is a push that is applied. */
  predicate AppliesLast(env: Env, s: State, evs: seq<Event>)
    requires evs != []
  {
    var e := evs[|evs| - 1];
    e.PushArrives? && HandlePush(env, Run(env, s, evs[..|evs| - 1]), e.push, e.now, e.finished, e.addOk).1 == Applied
  }

  lemma {:induction false} PushStepGrants(env: Env, s: State, p: Push, now: Time, finished: Time, addOk: AddOk)
    requires AllocSound(s)
    ensures var (t, verdict) := HandlePush(env, s, p, now, finished, addOk);
            if verdict == Applied then t.grants == Grants(t.members) else t.grants == s.grants
  {
    if HandlePush(env, s, p, now, finished, addOk).1 == Applied {
      AppliedGrants(env, s, p, now, finished, addOk);
    } else {
      UnappliedPush(env, s, p, now, finished, addOk);
    }
  }

  lemma {:induction false} ProvisionStepGrants(env: Env, s: State, e: Event)
    requires e.ProvisionArrives?
    ensures Step(env, s, e).grants == s.grants
  {
    ProvisionStep(env, s, e);
  }

  lemma {:induction false} StepGrants(env: Env, s: State, e: Event)
    requires AllocSound(s)
    ensures if e.PushArrives? && HandlePush(env, s, e.push, e.now, e.finished, e.addOk).1 == Applied
            then Step(env, s, e).grants == Grants(Step(env, s, e).members) else Step(env, s, e).grants == s.grants
  {
    match e
    case PushArrives(p, now, finished, addOk) => PushStepGrants(env, s, p, now, finished, addOk);
    case ProvisionArrives(req, now, added) => ProvisionStepGrants(env, s, e);
    case _ =>
  }

  lemma {:induction false} LastGrants(env: Env, s: State, evs: seq<Event>)
    requires evs != [] && AllocSound(Run(env, s, evs[..|evs| - 1]))
    ensures AllocSound(Run(env, s, evs))
    ensures if AppliesLast(env, s, evs) then Run(env, s, evs).grants == Grants(Run(env, s, evs).members)
            else Run(env, s, evs).grants == Run(env, s, evs[..|evs| - 1]).grants
  {
    var t, e := Run(env, s, evs[..|evs| - 1]), evs[|evs| - 1];
    StepGrants(env, t, e);
    StepAllocSound(env, t, e);
  }

  /** The installed grants are those of the members as the last applied push left them. */
  lemma {:induction false} RunGrants(env: Env, s: State, evs: seq<Event>)
    requires AllocSound(s) && s.grants == Grants(s.members)
    ensures AllocSound(Run(env, s, evs))
    ensures Run(env, s, evs).grants == Grants(Run(env, s, evs[..LastApplied(env, s, evs)]).members)
  {
    if evs == [] {
      assert evs[..0] == evs;
    } else {
      var front := evs[..|evs| - 1];
      RunGrants(env, s, front);
      LastGrants(env, s, evs);
      assert evs[..|evs|] == evs;
      assert front[..LastApplied(env, s, front)] == evs[..LastApplied(env, s, front)];
    }
  }

  /** At any moment of any run, whatever was provisioned since, a packet is decided by the members as
      the last applied push left them. */
  lemma {:induction false} RunReachability(env: Env, s: State, evs: seq<Event>, ports: seq<int>, f: Family, p: Packet)
    requires AllocSound(s) && s.grants == Grants(s.members)
    ensures var gs, ms := Run(env, s, evs).grants, Run(env, s, evs[..LastApplied(env, s, evs)]).members;
            && Decide(InputRules(ports, gs, f), p)
               == Some(p.established || p.proto == Icmp || (p.proto == Tcp && p.dport > 0 && p.dport in ports)
                       || Granted(ms, f, p))
            && Decide(ForwardRules(gs, f), p) == Some(Granted(ms, f, p))
  {
    RunGrants(env, s, evs);
    var ms := Run(env, s, evs[..LastApplied(env, s, evs)]).members;
    InputMeaning(ports, ms, f, p);
    ForwardMeaning(ms, f, p);
  }

  /** By key: a new packet from the address a key had at the last applied push passes FORWARD exactly
      if, as of that push, an active member listed the key and had a port app for it. */
  lemma {:induction false} RunReachabilityByKey(env: Env, s: State, evs: seq<Event>, f: Family, k: Al.Key, proto: Proto,
                                                port: int)
    requires AllocSound(s) && s.grants == Grants(s.members)
    requires var u := Run(env, s, evs[..LastApplied(env, s, evs)]);
             Agreement(env, u) && k != "" && k in u.alloc.bound && (f == IPv6 ==> DualStack(env.server6))
    ensures var u := Run(env, s, evs[..LastApplied(env, s, evs)]);
            Decide(ForwardRules(Run(env, s, evs).grants, f),
                   Packet(OverlaySource(env, f, u.alloc.bound[k]), proto, port, false))
            == Some(KeyPermitted(u.members, k, proto, port))
  {
    var u := Run(env, s, evs[..LastApplied(env, s, evs)]);
    RunReachability(env, s, evs, [], f, Packet(OverlaySource(env, f, u.alloc.bound[k]), proto, port, false));
    GrantedIffKeyPermitted(env, u, f, k, proto, port, false);
  }
}
