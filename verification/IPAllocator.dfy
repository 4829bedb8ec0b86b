/** The allocator object, each method proved against the operation on values of the same name. */
module IPAllocation {
  import opened Base
  import opened Addresses
  import A = Allocator
  import opened Allocator

  /** The allocator object. */
  class IPAllocator {
    const net: Net24
    const server: Address
    var bindings: map<Key, Address>
    var usedIPs: set<Address>

    function View(): Alloc
      reads this
    {
      Alloc(net, server, bindings, usedIPs)
    }

    /** NewIPAllocator: reserve, then load whatever the allocation file holds. */
    constructor (net: Net24, server: Address, file: Option<map<Key, Address>>)
      ensures this.net == net && this.server == server
      ensures file.None? ==> View() == Fresh(net, server)
      ensures file.Some? ==> Loaded(net, server, file.value, View())
    {
      this.net, this.server := net, server;
      bindings := map[];
      usedIPs := Reserved(net, server);
      new;
      if file.Some? {
        Load(file.value);
      }
    }

    method Load(file: map<Key, Address>)
      requires View() == Fresh(net, server)
      modifies this
      ensures Loaded(net, server, file, View())
    {
      var todo := file.Keys;
      while todo != {}
        invariant todo <= file.Keys
        invariant Valid(View())
        invariant forall k :: k in bindings ==>
                  k in file && k !in todo && file[k] == bindings[k] && Loadable(net, server, file[k])
        invariant forall k :: k in file && k !in todo && Loadable(net, server, file[k]) ==> file[k] in bindings.Values
        invariant usedIPs == Reserved(net, server) + bindings.Values
        decreases |todo|
      {
        var k :| k in todo;
        todo := todo - {k};
        var v := file[k];
        if !UnderPrefix(net, v) || v in usedIPs {
          continue;
        }
        ghost var before := View();
        assert k !in bindings;
        bindings := bindings[k := v];
        usedIPs := usedIPs + {v};
        LoadOneKeeps(before, View(), k, v);
      }
    }

    method Allocate(clientPubKey: Key) returns (ip: Option<Address>)
      modifies this
      ensures (View(), ip) == A.Allocate(old(View()), clientPubKey)
    {
      if clientPubKey in bindings {
        return Some(bindings[clientPubKey]);
      }
      var i := 2;
      while i < 255
        invariant 2 <= i <= 255
        invariant View() == old(View())
        invariant FirstFree(net, usedIPs, 2) == FirstFree(net, usedIPs, i)
      {
        if V4(net, i) !in usedIPs {
          ip := Some(V4(net, i));
          bindings := bindings[clientPubKey := V4(net, i)];
          usedIPs := usedIPs + {V4(net, i)};
          return;
        }
        i := i + 1;
      }
      return None;
    }

    method MarkUsed(clientPubKey: Key, ip: Address)
      modifies this
      ensures View() == A.MarkUsed(old(View()), clientPubKey, ip)
    {
      if !InSubnet(View(), ip) {
        return;
      }
      if ip in usedIPs {
        return;
      }
      usedIPs := usedIPs + {ip};
      if clientPubKey != "" {
        bindings := bindings[clientPubKey := ip];
      }
    }

    method TryAdopt(clientPubKey: Key, ip: Address) returns (ok: bool)
      modifies this
      ensures (View(), ok) == A.TryAdopt(old(View()), clientPubKey, ip)
    {
      if clientPubKey == "" || !InSubnet(View(), ip) {
        return false;
      }
      if clientPubKey in bindings {
        return bindings[clientPubKey] == ip;
      }
      var todo := bindings.Keys;
      while todo != {}
        invariant todo <= bindings.Keys
        invariant View() == old(View())
        invariant forall pk :: pk in bindings && pk !in todo && pk != clientPubKey ==> bindings[pk] != ip
        decreases |todo|
      {
        var pk :| pk in todo;
        todo := todo - {pk};
        if bindings[pk] == ip && pk != clientPubKey {
          return false;
        }
      }
      if ip in usedIPs {
        return false;
      }
      usedIPs := usedIPs + {ip};
      bindings := bindings[clientPubKey := ip];
      return true;
    }

    method Release(clientPubKey: Key)
      modifies this
      ensures View() == A.Release(old(View()), clientPubKey)
    {
      if clientPubKey in bindings {
        usedIPs := usedIPs - {bindings[clientPubKey]};
        bindings := bindings - {clientPubKey};
      }
    }
  }
}
