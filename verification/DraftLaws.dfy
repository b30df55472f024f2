/** What every edit of a topology draft keeps, and what connecting an interface allocates. */
module DraftLaws {
  import opened Basics
  import opened Addresses
  import opened FreeNames
  import opened DependencyGraph
  import opened Draft

  // ---------------------------------------------------------------- the invariant

  ghost predicate Blocks(m: Manifest) {
    && (forall n :: n in m.networks ==> ParseSubnet(m.networks[n].cidr).Some?)
    && (forall n, k :: n in m.networks && k in m.networks && n != k ==>
          Apart(ParseSubnet(m.networks[n].cidr).value, ParseSubnet(m.networks[k].cidr).value))
  }

  /** The address is the canonical text of a host of the interface's own network. */
  ghost predicate Homed(m: Manifest, nic: Nic) {
    && nic.network in m.networks && ParseSubnet(m.networks[nic.network].cidr).Some? && ParseIp(nic.address).Some?
    && var s, a := ParseSubnet(m.networks[nic.network].cidr).value, ParseIp(nic.address).value;
       s.base < a < s.base + s.size - 1
  }

  ghost predicate Homes(m: Manifest) {
    forall n, i :: n in m.nodes && 0 <= i < |m.nodes[n].nics| ==> Homed(m, m.nodes[n].nics[i])
  }

  /** One interface per network on a node, and no address twice. */
  ghost predicate Separate(nics: seq<Nic>) {
    forall i, j :: 0 <= i < j < |nics| ==> nics[i].network != nics[j].network && nics[i].address != nics[j].address
  }

  ghost predicate NoShared(a: seq<Nic>, b: seq<Nic>) {
    forall i, j :: 0 <= i < |a| && 0 <= j < |b| ==> a[i].address != b[j].address
  }

  ghost predicate Addressing(m: Manifest) {
    && (forall n :: n in m.nodes ==> Separate(m.nodes[n].nics))
    && (forall n, k :: n in m.nodes && k in m.nodes && n != k ==> NoShared(m.nodes[n].nics, m.nodes[k].nics))
  }

  ghost predicate Wired(m: Manifest) {
    Blocks(m) && Homes(m) && Addressing(m)
  }

  ghost predicate Startable(g: Graph) {
    Closed(g) && Acyclic(g)
  }

  ghost predicate WellFormed(m: Manifest) {
    Shape(m) && Wired(m) && Startable(GraphOf(m.nodes))
  }

  // ---------------------------------------------------------------- connect

  lemma NicsStayHomed(m: Manifest, node: string, nics: seq<Nic>)
    requires Homes(m) && node in m.nodes && forall i :: 0 <= i < |nics| ==> Homed(m, nics[i])
    ensures Homes(WithNics(m, node, nics))
  {
    var t := WithNics(m, node, nics);
    forall n, i | n in t.nodes && 0 <= i < |t.nodes[n].nics| ensures Homed(t, t.nodes[n].nics[i]) {
      assert Homed(m, t.nodes[n].nics[i]);
    }
  }

  lemma NicsStayApart(m: Manifest, node: string, nics: seq<Nic>)
    requires Addressing(m) && node in m.nodes && Separate(nics)
    requires forall n :: n in m.nodes && n != node ==> NoShared(nics, m.nodes[n].nics)
    ensures Addressing(WithNics(m, node, nics))
  {
    var t := WithNics(m, node, nics);
    forall n, k | n in t.nodes && k in t.nodes && n != k ensures NoShared(t.nodes[n].nics, t.nodes[k].nics) {
      if k == node {
        assert NoShared(nics, m.nodes[n].nics);
      }
    }
  }

  /** Replacing the interfaces of one node by homed, separate ones with addresses of no other node. */
  lemma NicsKeepWellFormed(m: Manifest, node: string, nics: seq<Nic>)
    requires WellFormed(m) && node in m.nodes && Shape(WithNics(m, node, nics))
    requires forall i :: 0 <= i < |nics| ==> Homed(m, nics[i])
    requires Separate(nics)
    requires forall n :: n in m.nodes && n != node ==> NoShared(nics, m.nodes[n].nics)
    ensures WellFormed(WithNics(m, node, nics))
  {
    assert GraphOf(WithNics(m, node, nics).nodes) == GraphOf(m.nodes);
    NicsStayHomed(m, node, nics);
    NicsStayApart(m, node, nics);
  }

  /** Some interface of the draft carries this address text. */
  ghost predicate InUse(nodes: map<string, Node>, address: string) {
    exists n, i :: n in nodes && 0 <= i < |nodes[n].nics| && nodes[n].nics[i].address == address
  }

  lemma UsedIsInUse(nodes: map<string, Node>)
    ensures forall address :: address in UsedAddresses(nodes) <==> InUse(nodes, address)
  {
  }

  lemma Unused(nodes: map<string, Node>, address: string)
    requires address !in UsedAddresses(nodes)
    ensures forall n, i :: n in nodes && 0 <= i < |nodes[n].nics| ==> nodes[n].nics[i].address != address
  {
    forall n, i | n in nodes && 0 <= i < |nodes[n].nics| ensures nodes[n].nics[i].address != address {
      assert nodes[n].nics[i].address in UsedAddresses(nodes);
    }
  }

  /** The address found is the least host address of the block whose text nobody in the draft uses; there is none exactly
      when all size - 2 of them are in use. */
  lemma LeastFreeAddress(s: Subnet, used: set<string>)
    requires s.size >= 2
    ensures var r := LeastFreeIn(s, used);
      && (r.Some? ==> s.base < r.value < s.base + s.size - 1 && Ip(r.value) !in used && AllTaken(Ip, s.base + 1, r.value, used))
      && (r.None? <==> AllTaken(Ip, s.base + 1, s.base + s.size - 1, used))
  {
    FirstBelowIsLeast(Ip, s.base + 1, s.base + s.size - 1, used);
  }

  /** Interface `p` moves to a network and an address that no other interface of the node has. */
  lemma MovedIsSeparate(nics: seq<Nic>, p: nat, network: string, address: string)
    requires Separate(nics) && p < |nics|
    requires forall j :: 0 <= j < |nics| && j != p ==> nics[j].network != network && nics[j].address != address
    ensures Separate(nics[p := nics[p].(network := network, address := address)])
  {
  }

  lemma AddedIsSeparate(nics: seq<Nic>, nic: Nic)
    requires Separate(nics)
    requires forall j :: 0 <= j < |nics| ==> nics[j].network != nic.network && nics[j].address != nic.address
    ensures Separate(nics + [nic])
  {
  }

  lemma AttachedIsSeparate(m: Manifest, node: string, nic: Option<string>, network: string, address: string)
    requires node in m.nodes && Separate(m.nodes[node].nics) && NodeShape(m, m.nodes[node])
    requires nic.Some? ==> IndexOf(m.nodes[node].nics, nic.value).Some?
    requires !AlreadyOn(m.nodes[node].nics, network, nic)
    requires forall i :: 0 <= i < |m.nodes[node].nics| ==> m.nodes[node].nics[i].address != address
    ensures Separate(Attached(m, node, nic, network, address))
  {
    var nics := m.nodes[node].nics;
    if nic.Some? {
      var p := IndexOf(nics, nic.value).value;
      forall j | 0 <= j < |nics| && j != p ensures nics[j].network != network {
        assert NicShape(m, nics, j) && NicShape(m, nics, p);
      }
      MovedIsSeparate(nics, p, network, address);
    } else {
      AddedIsSeparate(nics, Attached(m, node, nic, network, address)[|nics|]);
    }
  }

  lemma AttachedIsUnshared(m: Manifest, node: string, nic: Option<string>, network: string, address: string, other: seq<Nic>)
    requires node in m.nodes && (nic.Some? ==> IndexOf(m.nodes[node].nics, nic.value).Some?)
    requires NoShared(m.nodes[node].nics, other) && forall j :: 0 <= j < |other| ==> other[j].address != address
    ensures NoShared(Attached(m, node, nic, network, address), other)
  {
  }

  lemma HostIsHomed(m: Manifest, nic: Nic, a: nat)
    requires nic.network in m.networks && ParseSubnet(m.networks[nic.network].cidr).Some? && nic.address == Ip(a)
    requires var s := ParseSubnet(m.networks[nic.network].cidr).value; s.base < a < s.base + s.size - 1
    ensures Homed(m, nic)
  {
    SubnetIsPrivate(m.networks[nic.network].cidr, ParseSubnet(m.networks[nic.network].cidr).value);
    ParseOfIp(a);
  }

  lemma AttachedIsHomed(m: Manifest, node: string, nic: Option<string>, network: string, a: nat, i: nat)
    requires Homes(m) && node in m.nodes && (nic.Some? ==> IndexOf(m.nodes[node].nics, nic.value).Some?)
    requires network in m.networks && ParseSubnet(m.networks[network].cidr).Some?
    requires var s := ParseSubnet(m.networks[network].cidr).value; s.base < a < s.base + s.size - 1
    requires i < |Attached(m, node, nic, network, Ip(a))|
    ensures Homed(m, Attached(m, node, nic, network, Ip(a))[i])
  {
    var nics, after := m.nodes[node].nics, Attached(m, node, nic, network, Ip(a));
    if i < |nics| && after[i] == nics[i] {
      assert Homed(m, nics[i]);
    } else {
      HostIsHomed(m, after[i], a);
    }
  }

  lemma AttachKeepsWellFormed(m: Manifest, node: string, nic: Option<string>, network: string, a: nat)
    requires WellFormed(m) && node in m.nodes && network in m.networks
    requires nic.Some? ==> IndexOf(m.nodes[node].nics, nic.value).Some?
    requires !AlreadyOn(m.nodes[node].nics, network, nic)
    requires LeastFree(m.networks[network].cidr, UsedAddresses(m.nodes)) == Some(a)
    requires Shape(WithNics(m, node, Attached(m, node, nic, network, Ip(a))))
    ensures WellFormed(WithNics(m, node, Attached(m, node, nic, network, Ip(a))))
  {
    SubnetHasHosts(m.networks[network].cidr);
    LeastFreeAddress(ParseSubnet(m.networks[network].cidr).value, UsedAddresses(m.nodes));
    Unused(m.nodes, Ip(a));
    var after := Attached(m, node, nic, network, Ip(a));
    AttachedIsSeparate(m, node, nic, network, Ip(a));
    forall i | 0 <= i < |after| ensures Homed(m, after[i]) {
      AttachedIsHomed(m, node, nic, network, a, i);
    }
    forall n | n in m.nodes && n != node ensures NoShared(after, m.nodes[n].nics) {
      AttachedIsUnshared(m, node, nic, network, Ip(a), m.nodes[n].nics);
    }
    NicsKeepWellFormed(m, node, after);
  }

  lemma ConnectKeepsWellFormed(m: Manifest, node: string, nic: Option<string>, network: string, fits: Manifest -> bool)
    requires WellFormed(m) && Connect(m, node, nic, network, fits).Ok?
    ensures WellFormed(Connect(m, node, nic, network, fits).value)
  {
    if Connect(m, node, nic, network, fits).value != m {
      AttachKeepsWellFormed(m, node, nic, network, LeastFree(m.networks[network].cidr, UsedAddresses(m.nodes)).value);
    }
  }

  // ---------------------------------------------------------------- interface names

  lemma {:induction false} FewIds(nics: seq<Nic>)
    ensures |NicIds(nics)| <= |nics|
    decreases |nics|
  {
    if nics == [] {
      assert NicIds(nics) == {};
    } else {
      var last := |nics| - 1;
      FewIds(nics[..last]);
      forall id | id in NicIds(nics) ensures id in NicIds(nics[..last]) + {nics[last].id} {
        var i :| 0 <= i < |nics| && nics[i].id == id;
        if i < last { assert nics[..last][i].id == id; }
      }
      Fewer(NicIds(nics), NicIds(nics[..last]) + {nics[last].id});
    }
  }

  /** A node that may take another interface gets one of eth0 to eth7, the first not in use. */
  lemma NewInterfaceName(nics: seq<Nic>) returns (k: nat)
    requires |nics| < 8
    ensures k <= 7 && FreeEth(NicIds(nics)) == Eth(k)
    ensures forall i :: 0 <= i < |nics| ==> nics[i].id != Eth(k)
    ensures forall j: nat {:trigger Eth(j)} :: j < k ==> exists i :: 0 <= i < |nics| && nics[i].id == Eth(j)
  {
    var ids := NicIds(nics);
    k := First(Eth, 0, |ids| + 1, ids);
    EthsDiffer(0, |ids| + 1);
    FirstIsLeast(Eth, 0, |ids| + 1, ids);
    FoundWithin(Eth, 0, |ids| + 1, ids);
    FewIds(nics);
    forall i | 0 <= i < |nics| ensures nics[i].id != Eth(k) {
      assert nics[i].id in NicIds(nics);
    }
    forall j: nat | j < k ensures exists i :: 0 <= i < |nics| && nics[i].id == Eth(j) {
      assert Eth(j) in NicIds(nics);
    }
  }

  /** The guards of connect other than the two searches: no other interface of the node is on the network, and the one named
      is there and elsewhere, or there is room for a new one. */
  ghost predicate Joinable(m: Manifest, node: string, nic: Option<string>, network: string) {
    && Shape(m) && node in m.nodes && network in m.networks
    && var nics := m.nodes[node].nics;
       && (forall i :: 0 <= i < |nics| ==> nics[i].network != network)
       && (nic.None? ==> |nics| < 8)
       && (nic.Some? ==> exists i :: 0 <= i < |nics| && nics[i].id == nic.value)
  }

  /** The named interface is on the network, and no other is. */
  ghost predicate Settled(m: Manifest, node: string, nic: Option<string>, network: string) {
    && Shape(m) && node in m.nodes && network in m.networks
    && var nics := m.nodes[node].nics;
       && (exists i :: 0 <= i < |nics| && Some(nics[i].id) == nic && nics[i].network == network)
       && (forall i :: 0 <= i < |nics| && nics[i].network == network ==> Some(nics[i].id) == nic)
  }

  lemma IdsAreUnique(m: Manifest, nics: seq<Nic>, p: nat)
    requires p < |nics| && forall i :: 0 <= i < |nics| ==> NicShape(m, nics, i)
    ensures forall i :: 0 <= i < |nics| && i != p ==> nics[i].id != nics[p].id
  {
    forall i | 0 <= i < |nics| && i != p ensures nics[i].id != nics[p].id {
      assert NicShape(m, nics, i) && NicShape(m, nics, p);
    }
  }

  lemma IndexIsUnique(m: Manifest, nics: seq<Nic>, p: nat)
    requires p < |nics| && forall i :: 0 <= i < |nics| ==> NicShape(m, nics, i)
    ensures IndexOf(nics, nics[p].id) == Some(p)
  {
    IdsAreUnique(m, nics, p);
  }

  /** The edit goes on to look for an address exactly where its guards hold; an interface that is already there stays; and
      anything else is refused. */
  lemma ConnectGuards(m: Manifest, node: string, nic: Option<string>, network: string, fits: Manifest -> bool)
    ensures Settled(m, node, nic, network) && fits(m) ==> Connect(m, node, nic, network, fits) == Ok(m)
    ensures Joinable(m, node, nic, network) && fits(m) ==>
      && (nic.Some? ==> IndexOf(m.nodes[node].nics, nic.value).Some?)
      && Connect(m, node, nic, network, fits) == Allocate(m, node, nic, network, fits)
    ensures Connect(m, node, nic, network, fits).Ok? ==>
      fits(m) && (Settled(m, node, nic, network) || Joinable(m, node, nic, network))
  {
    if Shape(m) && node in m.nodes {
      var nics := m.nodes[node].nics;
      assert NodeShape(m, m.nodes[node]);
      forall i | 0 <= i < |nics| ensures IndexOf(nics, nics[i].id) == Some(i) {
        IndexIsUnique(m, nics, i);
      }
    }
  }

  lemma AllocateFailsWhenNoneFree(m: Manifest, node: string, nic: Option<string>, network: string, fits: Manifest -> bool)
    requires Joinable(m, node, nic, network) && (nic.Some? ==> IndexOf(m.nodes[node].nics, nic.value).Some?)
    requires forall address :: fits(WithNics(m, node, Attached(m, node, nic, network, address)))
    ensures Allocate(m, node, nic, network, fits).Err? <==>
              LeastFree(m.networks[network].cidr, UsedAddresses(m.nodes)).None?
  {
    var a := LeastFree(m.networks[network].cidr, UsedAddresses(m.nodes));
    if a.Some? {
      AttachedShape(m, node, nic, network, Ip(a.value));
    }
  }

  /** Given the other guards, and room for the encoded result, joining a network fails exactly when all size - 2 host
      addresses of it are in use somewhere in the draft. */
  lemma ConnectFailsExactlyWhenFull(m: Manifest, node: string, nic: Option<string>, network: string, s: Subnet,
                                    fits: Manifest -> bool)
    requires Joinable(m, node, nic, network) && fits(m) && ParseSubnet(m.networks[network].cidr) == Some(s)
    requires nic.Some? ==> IndexOf(m.nodes[node].nics, nic.value).Some?
    requires forall address :: fits(WithNics(m, node, Attached(m, node, nic, network, address)))
    ensures Connect(m, node, nic, network, fits).Err? <==>
              forall a: nat {:trigger Ip(a)} :: s.base < a < s.base + s.size - 1 ==> InUse(m.nodes, Ip(a))
  {
    ConnectGuards(m, node, nic, network, fits);
    AllocateFailsWhenNoneFree(m, node, nic, network, fits);
    SubnetHasHosts(m.networks[network].cidr);
    LeastFreeAddress(s, UsedAddresses(m.nodes));
    UsedIsInUse(m.nodes);
  }

  lemma NodeShapeCarries(m: Manifest, t: Manifest, node: Node)
    requires NodeShape(m, node) && m.networks.Keys <= t.networks.Keys
    ensures NodeShape(t, node)
  {
    forall i | 0 <= i < |node.nics| ensures NicShape(t, node.nics, i) {
      assert NicShape(m, node.nics, i);
    }
  }

  /** Replacing one node by another of proper shape. */
  lemma ShapeWithNode(m: Manifest, name: string, node: Node)
    requires Shape(m) && name in m.nodes && NodeShape(m, node)
    ensures Shape(m.(nodes := m.nodes[name := node]))
  {
    var t := m.(nodes := m.nodes[name := node]);
    assert t.nodes.Keys == m.nodes.Keys;
    assert |t.nodes| == |t.nodes.Keys| && |m.nodes| == |m.nodes.Keys|;
    forall n | n in t.nodes ensures Identifier(n) && NodeShape(t, t.nodes[n]) {
      NodeShapeCarries(m, t, t.nodes[n]);
    }
  }

  lemma EthIsIdentifier(k: nat)
    requires k <= 7
    ensures Identifier(Eth(k))
  {
  }

  lemma AttachedShape(m: Manifest, node: string, nic: Option<string>, network: string, address: string)
    requires Shape(m) && node in m.nodes && network in m.networks
    requires nic.Some? ==> IndexOf(m.nodes[node].nics, nic.value).Some?
    requires nic.None? ==> |m.nodes[node].nics| < 8
    ensures Shape(WithNics(m, node, Attached(m, node, nic, network, address)))
  {
    var nics, after := m.nodes[node].nics, Attached(m, node, nic, network, address);
    assert NodeShape(m, m.nodes[node]);
    forall i | 0 <= i < |after| ensures NicShape(m, after, i) {
      if i < |nics| {
        assert NicShape(m, nics, i);
      } else {
        var k := NewInterfaceName(nics);
        EthIsIdentifier(k);
      }
    }
    ShapeWithNode(m, node, m.nodes[node].(nics := after));
  }

  // ---------------------------------------------------------------- the other edits

  lemma {:induction false} WithoutKeeps(nics: seq<Nic>, id: string)
    ensures forall x :: x in Without(nics, id) <==> x in nics && x.id != id
    ensures Separate(nics) ==> Separate(Without(nics, id))
    decreases |nics|
  {
    if nics != [] {
      var rest, after := nics[1..], Without(nics, id);
      WithoutKeeps(rest, id);
      assert nics == [nics[0]] + rest;
      if Separate(nics) {
        assert Separate(rest);
        forall i, j | 0 <= i < j < |after| ensures after[i].network != after[j].network && after[i].address != after[j].address {
          if nics[0].id != id && i == 0 {
            assert after[j] == Without(rest, id)[j - 1] && after[j] in rest;
            var k :| 0 <= k < |rest| && rest[k] == after[j];
            assert nics[k + 1] == after[j];
          }
        }
      }
    }
  }

  lemma DisconnectKeepsWellFormed(m: Manifest, node: string, nic: string, fits: Manifest -> bool)
    requires WellFormed(m) && Disconnect(m, node, nic, fits).Ok?
    ensures WellFormed(Disconnect(m, node, nic, fits).value)
  {
    var nics, after := m.nodes[node].nics, Without(m.nodes[node].nics, nic);
    WithoutKeeps(nics, nic);
    forall i | 0 <= i < |after| ensures exists j :: 0 <= j < |nics| && nics[j] == after[i] {
      assert after[i] in nics;
    }
    forall i | 0 <= i < |after| ensures Homed(m, after[i]) {
      var j :| 0 <= j < |nics| && nics[j] == after[i];
      assert Homed(m, nics[j]);
    }
    forall n | n in m.nodes && n != node ensures NoShared(after, m.nodes[n].nics) {
      assert NoShared(nics, m.nodes[n].nics);
    }
    NicsKeepWellFormed(m, node, after);
  }

  /** Changing nodes but neither interfaces nor networks. */
  ghost predicate SameWiring(m: Manifest, t: Manifest) {
    && t.networks == m.networks
    && forall n :: n in t.nodes ==> if n in m.nodes then t.nodes[n].nics == m.nodes[n].nics else t.nodes[n].nics == []
  }

  lemma WiringKeepsWellFormed(m: Manifest, t: Manifest)
    requires Wired(m) && SameWiring(m, t)
    ensures Wired(t)
  {
    forall n, i | n in t.nodes && 0 <= i < |t.nodes[n].nics| ensures Homed(t, t.nodes[n].nics[i]) {
      assert Homed(m, m.nodes[n].nics[i]);
    }
    forall n, k | n in t.nodes && k in t.nodes && n != k ensures NoShared(t.nodes[n].nics, t.nodes[k].nics) {
      if n in m.nodes && k in m.nodes { assert NoShared(m.nodes[n].nics, m.nodes[k].nics); }
    }
  }

  lemma NodeInGraph(nodes: map<string, Node>, name: string, node: Node)
    ensures GraphOf(nodes[name := node]) == GraphOf(nodes)[name := node.dependsOn]
  {
  }

  lemma AddNodeKeepsWellFormed(m: Manifest, name: string, asset: string, fits: Manifest -> bool)
    requires WellFormed(m) && AddNode(m, name, asset, fits).Ok?
    ensures WellFormed(AddNode(m, name, asset, fits).value)
  {
    var t := AddNode(m, name, asset, fits).value;
    WiringKeepsWellFormed(m, t);
    NodeInGraph(m.nodes, name, t.nodes[name]);
    NewNodeIsAcyclic(GraphOf(m.nodes), name);
  }

  lemma {:induction false} DropKeeps(names: seq<string>, name: string)
    ensures forall d :: d in Drop(names, name) <==> d in names && d != name
    decreases |names|
  {
    if names != [] {
      DropKeeps(names[1..], name);
      assert names == [names[0]] + names[1..];
    }
  }

  lemma RemoveNodeKeepsWellFormed(m: Manifest, name: string, fits: Manifest -> bool)
    requires WellFormed(m) && RemoveNode(m, name, fits).Ok?
    ensures WellFormed(RemoveNode(m, name, fits).value)
  {
    var t := RemoveNode(m, name, fits).value;
    WiringKeepsWellFormed(m, t);
    var g, h := GraphOf(m.nodes), GraphOf(t.nodes);
    forall n | n in h ensures forall d :: d in h[n] <==> d in g[n] && d != name {
      DropKeeps(g[n], name);
    }
    SubgraphIsAcyclic(g, h);
  }

  /** Wiring and dependencies do not see the size of a node. */
  lemma ResizingKeeps(m: Manifest, node: string, resized: Node)
    requires WellFormed(m) && node in m.nodes
    requires resized.nics == m.nodes[node].nics && resized.dependsOn == m.nodes[node].dependsOn
    ensures var t := m.(nodes := m.nodes[node := resized]);
            Wired(t) && Startable(GraphOf(t.nodes))
  {
    WiringKeepsWellFormed(m, m.(nodes := m.nodes[node := resized]));
    NodeInGraph(m.nodes, node, resized);
    assert GraphOf(m.nodes)[node := resized.dependsOn] == GraphOf(m.nodes);
  }

  lemma ResourcesKeepWellFormed(m: Manifest, node: string, cpus: int, memory: int, fits: Manifest -> bool)
    requires WellFormed(m) && Resources(m, node, cpus, memory, fits).Ok?
    ensures WellFormed(Resources(m, node, cpus, memory, fits).value)
  {
    ResizingKeeps(m, node, m.nodes[node].(cpus := cpus, memory := memory));
  }

  lemma DependenciesKeepWellFormed(m: Manifest, node: string, selected: seq<string>, fits: Manifest -> bool)
    requires WellFormed(m) && Dependencies(m, node, selected, fits).Ok?
    ensures WellFormed(Dependencies(m, node, selected, fits).value)
  {
    WiringKeepsWellFormed(m, Dependencies(m, node, selected, fits).value);
  }

  lemma {:induction false} InsertAdds(name: string, names: seq<string>)
    ensures multiset(Insert(name, names)) == multiset{name} + multiset(names)
  {
    if names == [] || Before(name, names[0]) {
    } else {
      assert names == [names[0]] + names[1..];
      InsertAdds(name, names[1..]);
    }
  }

  lemma {:induction false} SortPermutes(names: seq<string>)
    ensures multiset(Sort(names)) == multiset(names)
  {
    if names != [] {
      assert names == [names[0]] + names[1..];
      SortPermutes(names[1..]);
      InsertAdds(names[0], Sort(names[1..]));
    }
  }

  /** On a well-formed draft a well-shaped selection is accepted exactly when it closes no cycle. */
  lemma DependenciesRefuseExactlyCycles(m: Manifest, node: string, selected: seq<string>, fits: Manifest -> bool)
    requires WellFormed(m) && fits(m) && node in m.nodes && Selectable(m, node, selected)
    requires fits(WithDependencies(m, node, Sort(selected)))
    ensures Dependencies(m, node, selected, fits).Ok? <==> Acyclic(GraphOf(m.nodes)[node := Sort(selected)])
    ensures forall d :: d in Sort(selected) <==> d in selected
  {
    var t := WithDependencies(m, node, Sort(selected));
    SortKeepsNames(selected);
    NodeInGraph(m.nodes, node, t.nodes[node]);
    DependenciesShape(m, node, Sort(selected));
    StillClosed(GraphOf(m.nodes), node, Sort(selected));
  }

  lemma StillClosed(g: Graph, node: string, names: seq<string>)
    requires Closed(g) && node in g && forall d :: d in names ==> d in g
    ensures Closed(g[node := names])
  {
  }

  lemma DependenciesShape(m: Manifest, node: string, names: seq<string>)
    requires Shape(m) && node in m.nodes
    ensures Shape(WithDependencies(m, node, names))
  {
    var after := m.nodes[node].(dependsOn := names);
    assert NodeShape(m, m.nodes[node]);
    forall i | 0 <= i < |after.nics| ensures NicShape(m, after.nics, i) {
      assert NicShape(m, m.nodes[node].nics, i);
    }
    ShapeWithNode(m, node, after);
  }

  lemma SortKeepsNames(names: seq<string>)
    ensures forall d :: d in Sort(names) <==> d in names
  {
    SortPermutes(names);
    forall d ensures d in Sort(names) <==> d in names {
      assert d in Sort(names) <==> d in multiset(Sort(names));
      assert d in names <==> d in multiset(names);
    }
  }

  lemma HomesCarry(m: Manifest, t: Manifest)
    requires Homes(m) && t.nodes == m.nodes
    requires forall n, i :: n in m.nodes && 0 <= i < |m.nodes[n].nics| ==>
               var k := m.nodes[n].nics[i].network; k in m.networks ==> k in t.networks && t.networks[k] == m.networks[k]
    ensures Homes(t)
  {
    forall n, i | n in t.nodes && 0 <= i < |t.nodes[n].nics| ensures Homed(t, t.nodes[n].nics[i]) {
      assert Homed(m, m.nodes[n].nics[i]);
    }
  }

  lemma RemoveNetworkKeepsWellFormed(m: Manifest, name: string, fits: Manifest -> bool)
    requires WellFormed(m) && RemoveNetwork(m, name, fits).Ok?
    ensures WellFormed(RemoveNetwork(m, name, fits).value)
  {
    HomesCarry(m, RemoveNetwork(m, name, fits).value);
  }

  lemma BlocksWithNetwork(m: Manifest, name: string, network: Network)
    requires Blocks(m) && name !in m.networks && ParseSubnet(network.cidr).Some?
    requires forall n :: n in m.networks ==> Clear(ParseSubnet(network.cidr).value, m.networks[n].cidr)
    ensures Blocks(m.(networks := m.networks[name := network]))
  {
  }

  lemma AddNetworkKeepsWellFormed(m: Manifest, name: string, cidr: string, fits: Manifest -> bool)
    requires WellFormed(m) && AddNetwork(m, name, cidr, fits).Ok?
    ensures WellFormed(AddNetwork(m, name, cidr, fits).value)
  {
    BlocksWithNetwork(m, name, Network(cidr, "none"));
    HomesCarry(m, AddNetwork(m, name, cidr, fits).value);
  }

  // ---------------------------------------------------------------- edits that undo each other

  lemma NetworksInUseExist(m: Manifest, name: string)
    requires Shape(m) && name !in m.networks
    ensures forall n, i :: n in m.nodes && 0 <= i < |m.nodes[n].nics| ==> m.nodes[n].nics[i].network != name
  {
    forall n, i | n in m.nodes && 0 <= i < |m.nodes[n].nics| ensures m.nodes[n].nics[i].network != name {
      assert NicShape(m, m.nodes[n].nics, i);
    }
  }

  lemma RemoveUnusedNetwork(m: Manifest, name: string, network: Network, fits: Manifest -> bool)
    requires Shape(m) && fits(m) && name !in m.networks
    requires Checked(m.(networks := m.networks[name := network]), fits).Ok?
    ensures RemoveNetwork(m.(networks := m.networks[name := network]), name, fits) == Ok(m)
  {
    NetworksInUseExist(m, name);
    assert m.networks[name := network] - {name} == m.networks;
  }

  /** Adding a network and removing it gives back the same draft. */
  lemma NetworkRoundTrip(m: Manifest, name: string, cidr: string, fits: Manifest -> bool)
    requires Shape(m) && fits(m) && AddNetwork(m, name, cidr, fits).Ok?
    ensures RemoveNetwork(AddNetwork(m, name, cidr, fits).value, name, fits) == Ok(m)
  {
    RemoveUnusedNetwork(m, name, Network(cidr, "none"), fits);
  }

  lemma {:induction false} DropNothing(names: seq<string>, name: string)
    requires name !in names
    ensures Drop(names, name) == names
    decreases |names|
  {
    if names != [] {
      DropNothing(names[1..], name);
      assert names == [names[0]] + names[1..];
    }
  }

  lemma ForgetNew(nodes: map<string, Node>, name: string, node: Node)
    requires Closed(GraphOf(nodes)) && name !in nodes
    ensures Forget(nodes[name := node], name) == nodes
  {
    var g := GraphOf(nodes);
    forall n | n in nodes ensures Forgetting(nodes[n], name) == nodes[n] {
      assert name in g[n] ==> name in g;
      DropNothing(nodes[n].dependsOn, name);
    }
  }

  /** Adding a node and removing it gives back the same draft. */
  lemma NodeRoundTrip(m: Manifest, name: string, asset: string, fits: Manifest -> bool)
    requires WellFormed(m) && fits(m) && AddNode(m, name, asset, fits).Ok?
    ensures RemoveNode(AddNode(m, name, asset, fits).value, name, fits) == Ok(m)
  {
    ForgetNew(m.nodes, name, AddNode(m, name, asset, fits).value.nodes[name]);
  }

  lemma {:induction false} WithoutLast(nics: seq<Nic>, nic: Nic)
    requires forall i :: 0 <= i < |nics| ==> nics[i].id != nic.id
    ensures Without(nics + [nic], nic.id) == nics
    decreases |nics|
  {
    if nics == [] {
      assert Without([nic], nic.id) == [] + Without([], nic.id);
    } else {
      assert (nics + [nic])[1..] == nics[1..] + [nic];
      WithoutLast(nics[1..], nic);
    }
  }

  lemma SameNics(m: Manifest, node: string, nics: seq<Nic>)
    requires node in m.nodes
    ensures WithNics(WithNics(m, node, nics), node, m.nodes[node].nics) == m
  {
    var t := WithNics(m, node, nics);
    assert t.nodes[node := t.nodes[node].(nics := m.nodes[node].nics)] == m.nodes;
  }

  lemma DisconnectLast(m: Manifest, node: string, nic: Nic, fits: Manifest -> bool)
    requires Shape(m) && fits(m) && node in m.nodes
    requires forall i :: 0 <= i < |m.nodes[node].nics| ==> m.nodes[node].nics[i].id != nic.id
    requires Checked(WithNics(m, node, m.nodes[node].nics + [nic]), fits).Ok?
    ensures Disconnect(WithNics(m, node, m.nodes[node].nics + [nic]), node, nic.id, fits) == Ok(m)
  {
    var nics := m.nodes[node].nics;
    WithoutLast(nics, nic);
    SameNics(m, node, nics + [nic]);
    assert (nics + [nic])[|nics|] == nic;
  }

  /** Joining a network with a new interface and removing that interface gives back the same draft. */
  lemma ConnectRoundTrip(m: Manifest, node: string, network: string, fits: Manifest -> bool)
    requires Joinable(m, node, None, network) && fits(m) && Connect(m, node, None, network, fits).Ok?
    ensures Disconnect(Connect(m, node, None, network, fits).value, node, FreeEth(NicIds(m.nodes[node].nics)), fits) == Ok(m)
  {
    var nics := m.nodes[node].nics;
    ConnectGuards(m, node, None, network, fits);
    var a := LeastFree(m.networks[network].cidr, UsedAddresses(m.nodes)).value;
    var k := NewInterfaceName(nics);
    DisconnectLast(m, node, Attached(m, node, None, network, Ip(a))[|nics|], fits);
  }
}
