/** What each edit changes, and that it changes nothing else. */
module DraftEffects {
  import opened Basics
  import opened Decimal
  import opened Addresses
  import opened DependencyGraph
  import opened Draft
  import opened DraftLaws

  /** Everything but the interfaces of one node is as it was. */
  ghost predicate OnlyInterfaces(m: Manifest, t: Manifest, node: string) {
    && t.schema == m.schema && t.assets == m.assets && t.networks == m.networks && t.nodes.Keys == m.nodes.Keys
    && node in m.nodes && t.nodes[node] == m.nodes[node].(nics := t.nodes[node].nics)
    && forall n :: n in m.nodes && n != node ==> t.nodes[n] == m.nodes[n]
  }

  /** One interface sits on another network, at another address; all else about it and its siblings stays. */
  ghost predicate MovedAt(nics: seq<Nic>, after: seq<Nic>, p: nat, network: string, a: nat) {
    && p < |nics| == |after|
    && after[p].id == nics[p].id && after[p].mac == nics[p].mac && after[p].model == nics[p].model
    && after[p].network == network && after[p].address == Ip(a)
    && forall j :: 0 <= j < |nics| && j != p ==> after[j] == nics[j]
  }

  /** A new interface at the end, with the first of the names eth0 to eth7 that the node does not use. */
  ghost predicate AppendedAt(nics: seq<Nic>, after: seq<Nic>, network: string, a: nat, model: string) {
    && |after| == |nics| + 1 && after[..|nics|] == nics
    && after[|nics|].network == network && after[|nics|].address == Ip(a)
    && after[|nics|].mac == "derived" && after[|nics|].model == model
    && exists k: nat :: k <= 7 && FirstName(nics, after[|nics|].id, k)
  }

  ghost predicate FirstName(nics: seq<Nic>, id: string, k: nat) {
    && id == "eth" + Text(k) && (forall i :: 0 <= i < |nics| ==> nics[i].id != id)
    && forall j: nat {:trigger Text(j)} :: j < k ==> exists i :: 0 <= i < |nics| && nics[i].id == "eth" + Text(j)
  }

  /** The least host address of the network that no interface in the draft has. */
  ghost predicate Least(m: Manifest, network: string, a: nat) {
    && network in m.networks && ParseSubnet(m.networks[network].cidr).Some?
    && var s := ParseSubnet(m.networks[network].cidr).value;
       && s.base < a < s.base + s.size - 1 && !InUse(m.nodes, Ip(a))
       && forall b: nat {:trigger Ip(b)} :: s.base < b < a ==> InUse(m.nodes, Ip(b))
  }

  lemma AllocateIsLeast(m: Manifest, network: string)
    requires network in m.networks && LeastFree(m.networks[network].cidr, UsedAddresses(m.nodes)).Some?
    ensures Least(m, network, LeastFree(m.networks[network].cidr, UsedAddresses(m.nodes)).value)
  {
    SubnetHasHosts(m.networks[network].cidr);
    LeastFreeAddress(ParseSubnet(m.networks[network].cidr).value, UsedAddresses(m.nodes));
    UsedIsInUse(m.nodes);
  }

  lemma AttachedEffect(m: Manifest, node: string, nic: Option<string>, network: string, a: nat)
    requires node in m.nodes && (nic.Some? ==> IndexOf(m.nodes[node].nics, nic.value).Some?)
    requires nic.None? ==> |m.nodes[node].nics| < 8
    ensures var nics, after := m.nodes[node].nics, Attached(m, node, nic, network, Ip(a));
            match nic
            case None => AppendedAt(nics, after, network, a, ModelFor(m, m.nodes[node].asset))
            case Some(id) => MovedAt(nics, after, IndexOf(nics, id).value, network, a) && nics[IndexOf(nics, id).value].id == id
  {
    if nic.None? {
      var nics := m.nodes[node].nics;
      var k := NewInterfaceName(nics);
      forall j: nat | j < k ensures exists i :: 0 <= i < |nics| && nics[i].id == "eth" + Text(j) {
        assert Eth(j) == "eth" + Text(j);
      }
      assert FirstName(nics, "eth" + Text(k), k);
    }
  }

  /** The named interface moves, or a new one is appended, to the least free host address of the network. A new one has the
      model that the architecture of the node's asset asks for. */
  ghost predicate Joined(m: Manifest, node: string, nic: Option<string>, network: string, after: seq<Nic>, a: nat)
    requires node in m.nodes
  {
    var nics := m.nodes[node].nics;
    && Least(m, network, a)
    && match nic
       case Some(id) => exists p :: 0 <= p < |nics| && nics[p].id == id && MovedAt(nics, after, p, network, a)
       case None =>
         var asset := m.nodes[node].asset;
         var arm := asset in m.assets && m.assets[asset] == "aarch64";
         AppendedAt(nics, after, network, a, if arm then "virtio-net-pci" else "e1000")
  }

  lemma AllocateEffect(m: Manifest, node: string, nic: Option<string>, network: string, fits: Manifest -> bool) returns (a: nat)
    requires node in m.nodes && network in m.networks && (nic.Some? ==> IndexOf(m.nodes[node].nics, nic.value).Some?)
    requires (nic.None? ==> |m.nodes[node].nics| < 8) && Allocate(m, node, nic, network, fits).Ok?
    ensures var t := Allocate(m, node, nic, network, fits).value;
            OnlyInterfaces(m, t, node) && Joined(m, node, nic, network, t.nodes[node].nics, a)
  {
    a := LeastFree(m.networks[network].cidr, UsedAddresses(m.nodes)).value;
    AllocateIsLeast(m, network);
    AttachedEffect(m, node, nic, network, a);
  }

  /** An interface that is already on the network stays; any other connection moves exactly the named interface, or appends one
      with the first unused name, and gives it the least free host address of the network. */
  lemma ConnectEffect(m: Manifest, node: string, nic: Option<string>, network: string, fits: Manifest -> bool) returns (a: nat)
    requires Connect(m, node, nic, network, fits).Ok?
    ensures var t := Connect(m, node, nic, network, fits).value;
      && OnlyInterfaces(m, t, node)
      && if exists p :: && 0 <= p < |m.nodes[node].nics| && Some(m.nodes[node].nics[p].id) == nic
                        && m.nodes[node].nics[p].network == network
         then t == m else Joined(m, node, nic, network, t.nodes[node].nics, a)
  {
    var nics := m.nodes[node].nics;
    a := 0;
    if nic.Some? && nics[IndexOf(nics, nic.value).value].network == network {
    } else {
      if nic.Some? { IdsAreUnique(m, nics, IndexOf(nics, nic.value).value); }
      a := AllocateEffect(m, node, nic, network, fits);
    }
  }

  lemma {:induction false} WithoutIsCut(nics: seq<Nic>, id: string, p: nat)
    requires p < |nics| && nics[p].id == id && forall i :: 0 <= i < |nics| && i != p ==> nics[i].id != id
    ensures Without(nics, id) == nics[..p] + nics[p + 1..]
    decreases |nics|
  {
    var rest := nics[1..];
    if p == 0 {
      WithoutNone(rest, id);
    } else {
      WithoutIsCut(rest, id, p - 1);
      assert nics[..p] == [nics[0]] + rest[..p - 1] && nics[p + 1..] == rest[p..];
    }
  }

  lemma {:induction false} WithoutNone(nics: seq<Nic>, id: string)
    requires forall i :: 0 <= i < |nics| ==> nics[i].id != id
    ensures Without(nics, id) == nics
    decreases |nics|
  {
    if nics != [] {
      WithoutNone(nics[1..], id);
      assert nics == [nics[0]] + nics[1..];
    }
  }

  /** Disconnecting cuts exactly the one interface of that name out of the list. */
  lemma DisconnectEffect(m: Manifest, node: string, nic: string, fits: Manifest -> bool) returns (p: nat)
    requires Disconnect(m, node, nic, fits).Ok?
    ensures var t := Disconnect(m, node, nic, fits).value;
      && OnlyInterfaces(m, t, node) && p < |m.nodes[node].nics| && m.nodes[node].nics[p].id == nic
      && t.nodes[node].nics == m.nodes[node].nics[..p] + m.nodes[node].nics[p + 1..]
  {
    var nics := m.nodes[node].nics;
    p := IndexOf(nics, nic).value;
    IdsAreUnique(m, nics, p);
    WithoutIsCut(nics, nic, p);
  }

  // ---------------------------------------------------------------- the order of dependencies

  ghost predicate Ordered(names: seq<string>) {
    forall i, j :: 0 <= i < j < |names| ==> Before(names[i], names[j])
  }

  lemma {:induction false} BeforeIsTotal(a: string, b: string)
    ensures Before(a, b) || Before(b, a)
    decreases |a|
  {
    if a != "" && b != "" && a[0] == b[0] {
      BeforeIsTotal(a[1..], b[1..]);
    }
  }

  lemma {:induction false} BeforeIsTransitive(a: string, b: string, c: string)
    requires Before(a, b) && Before(b, c)
    ensures Before(a, c)
    decreases |a|
  {
    if a != "" && a[0] == b[0] == c[0] {
      BeforeIsTransitive(a[1..], b[1..], c[1..]);
    }
  }

  lemma {:induction false} BeforeIsAntisymmetric(a: string, b: string)
    requires Before(a, b) && Before(b, a)
    ensures a == b
    decreases |a|
  {
    if a != "" {
      BeforeIsAntisymmetric(a[1..], b[1..]);
      assert a == [a[0]] + a[1..] && b == [b[0]] + b[1..];
    }
  }

  lemma OrderedParts(first: string, rest: seq<string>)
    requires Ordered([first] + rest)
    ensures Ordered(rest) && forall x :: x in rest ==> Before(first, x)
  {
    var names := [first] + rest;
    forall x | x in rest ensures Before(first, x) {
      var k :| 0 <= k < |rest| && rest[k] == x;
      assert names[k + 1] == x && names[0] == first;
    }
    forall i, j | 0 <= i < j < |rest| ensures Before(rest[i], rest[j]) {
      assert names[i + 1] == rest[i] && names[j + 1] == rest[j];
    }
  }

  lemma OrderedFrom(first: string, rest: seq<string>)
    requires Ordered(rest) && forall x :: x in rest ==> Before(first, x)
    ensures Ordered([first] + rest)
  {
    var names := [first] + rest;
    forall i, j | 0 <= i < j < |names| ensures Before(names[i], names[j]) {
      assert names[j] == rest[j - 1] && names[j] in rest;
      if i > 0 { assert names[i] == rest[i - 1]; }
    }
  }

  lemma {:induction false} InsertKeepsOrder(name: string, names: seq<string>)
    requires Ordered(names)
    ensures Ordered(Insert(name, names)) && forall x :: x in Insert(name, names) ==> x == name || x in names
    decreases |names|
  {
    if names == [] {
    } else {
      var first, rest := names[0], names[1..];
      assert names == [first] + rest;
      OrderedParts(first, rest);
      if Before(name, first) {
        forall x | x in names ensures Before(name, x) {
          if x != first { BeforeIsTransitive(name, first, x); }
        }
        OrderedFrom(name, names);
      } else {
        BeforeIsTotal(name, first);
        InsertKeepsOrder(name, rest);
        OrderedFrom(first, Insert(name, rest));
      }
    }
  }

  lemma {:induction false} SortIsOrdered(names: seq<string>)
    ensures Ordered(Sort(names))
    decreases |names|
  {
    if names != [] {
      SortIsOrdered(names[1..]);
      InsertKeepsOrder(names[0], Sort(names[1..]));
    }
  }

  /** The dependencies recorded are the selection itself, in order. */
  lemma DependenciesEffect(m: Manifest, node: string, selected: seq<string>, fits: Manifest -> bool)
    requires Dependencies(m, node, selected, fits).Ok?
    ensures var t := Dependencies(m, node, selected, fits).value;
      && node in m.nodes && t == m.(nodes := m.nodes[node := m.nodes[node].(dependsOn := t.nodes[node].dependsOn)])
      && Ordered(t.nodes[node].dependsOn) && multiset(t.nodes[node].dependsOn) == multiset(selected)
      && (forall i, j :: 0 <= i < j < |selected| ==> selected[i] != selected[j])
      && (forall d :: d in selected ==> d != node && d in m.nodes)
  {
    SortIsOrdered(selected);
    SortPermutes(selected);
  }

  lemma {:induction false} DropCounts(names: seq<string>, name: string)
    ensures multiset(Drop(names, name)) == multiset(names)[name := 0]
    decreases |names|
  {
    if names != [] {
      DropCounts(names[1..], name);
      assert names == [names[0]] + names[1..];
    }
  }

  lemma {:induction false} DropOrder(names: seq<string>, name: string)
    requires Ordered(names)
    ensures Ordered(Drop(names, name))
    decreases |names|
  {
    if names != [] {
      var first, rest := names[0], names[1..];
      assert names == [first] + rest;
      OrderedParts(first, rest);
      DropOrder(rest, name);
      DropKeeps(rest, name);
      OrderedFrom(first, Drop(rest, name));
    }
  }

  /** Removing a node takes its name, and nothing else, out of every list of dependencies, in the order they had. */
  lemma RemoveNodeEffect(m: Manifest, name: string, fits: Manifest -> bool)
    requires RemoveNode(m, name, fits).Ok?
    ensures var t := RemoveNode(m, name, fits).value;
      && name in m.nodes && t == m.(nodes := t.nodes) && t.nodes.Keys == m.nodes.Keys - {name}
      && forall n :: n in t.nodes ==>
           && t.nodes[n] == m.nodes[n].(dependsOn := t.nodes[n].dependsOn)
           && multiset(t.nodes[n].dependsOn) == multiset(m.nodes[n].dependsOn)[name := 0]
           && (Ordered(m.nodes[n].dependsOn) ==> Ordered(t.nodes[n].dependsOn))
  {
    var t := RemoveNode(m, name, fits).value;
    forall n | n in t.nodes
      ensures multiset(t.nodes[n].dependsOn) == multiset(m.nodes[n].dependsOn)[name := 0]
              && (Ordered(m.nodes[n].dependsOn) ==> Ordered(t.nodes[n].dependsOn))
    {
      DropCounts(m.nodes[n].dependsOn, name);
      if Ordered(m.nodes[n].dependsOn) { DropOrder(m.nodes[n].dependsOn, name); }
    }
  }

  // ---------------------------------------------------------------- when an edit is accepted, and what it then records

  lemma ShapeWithNewNode(m: Manifest, name: string, node: Node)
    requires Shape(m) && name !in m.nodes && |m.nodes| < 32 && Identifier(name) && node.nics == []
    ensures Shape(m.(nodes := m.nodes[name := node]))
  {
    var t := m.(nodes := m.nodes[name := node]);
    assert t.nodes.Keys == m.nodes.Keys + {name};
    assert |t.nodes| == |t.nodes.Keys| && |m.nodes| == |m.nodes.Keys|;
    forall n | n in t.nodes ensures Identifier(n) && NodeShape(t, t.nodes[n]) {
      if n != name { NodeShapeCarries(m, t, m.nodes[n]); }
    }
  }

  /** A node is added exactly under a new identifier, of a known asset, while there are fewer than 32; it starts small, with the
      firmware and the disk bus of its architecture, unconnected and depending on nothing. */
  lemma AddNodeEffect(m: Manifest, name: string, asset: string, fits: Manifest -> bool)
    ensures var arm := asset in m.assets && m.assets[asset] == "aarch64";
            var t := m.(nodes := m.nodes[name := if arm then Node(asset, 1, 512, "uefi", "virtio", [], [])
                                                 else Node(asset, 1, 512, "bios", "ide", [], [])]);
      && (AddNode(m, name, asset, fits).Ok? <==>
            && Shape(m) && Identifier(name) && name !in m.nodes && |m.nodes| < 32 && asset in m.assets && fits(m) && fits(t))
      && (AddNode(m, name, asset, fits).Ok? ==> AddNode(m, name, asset, fits).value == t)
  {
    if Shape(m) && Identifier(name) && name !in m.nodes && |m.nodes| < 32 && asset in m.assets {
      var arm := m.assets[asset] == "aarch64";
      ShapeWithNewNode(m, name, Node(asset, 1, 512, if arm then "uefi" else "bios", if arm then "virtio" else "ide", [], []));
    }
  }

  /** A node is resized exactly to 1 to 64 processors and 256 to 262144 MB, and nothing else about the draft changes. */
  lemma ResourcesEffect(m: Manifest, node: string, cpus: int, memory: int, fits: Manifest -> bool)
    ensures Resources(m, node, cpus, memory, fits).Err? <==>
              !(Shape(m) && fits(m) && node in m.nodes && 1 <= cpus <= 64 && 256 <= memory <= 262144
                && var was := m.nodes[node];
                   fits(m.(nodes := m.nodes[node := Node(was.asset, cpus, memory, was.firmware, was.disk, was.nics, was.dependsOn)])))
    ensures Resources(m, node, cpus, memory, fits).Ok? ==>
      && node in m.nodes && 1 <= cpus <= 64 && 256 <= memory <= 262144
      && var was, t := m.nodes[node], Resources(m, node, cpus, memory, fits).value;
         t == m.(nodes := m.nodes[node := Node(was.asset, cpus, memory, was.firmware, was.disk, was.nics, was.dependsOn)])
  {
    if Shape(m) && node in m.nodes && 1 <= cpus <= 64 && 256 <= memory <= 262144 {
      assert NodeShape(m, m.nodes[node]);
      NodeShapeCarries(m, m, m.nodes[node].(cpus := cpus, memory := memory));
      ShapeWithNode(m, node, m.nodes[node].(cpus := cpus, memory := memory));
    }
  }

  /** Two blocks share no address. */
  ghost predicate NoCommonAddress(s: Subnet, t: Subnet) {
    forall a {:trigger InBlock(a, s)} :: !(InBlock(a, s) && InBlock(a, t))
  }

  lemma ClearIsDisjoint(block: string, cidr: string)
    requires ParseSubnet(block).Some?
    ensures Clear(ParseSubnet(block).value, cidr) <==>
              ParseSubnet(cidr).Some? && NoCommonAddress(ParseSubnet(block).value, ParseSubnet(cidr).value)
  {
    SubnetHasHosts(block);
    if ParseSubnet(cidr).Some? {
      SubnetHasHosts(cidr);
      ApartIsDisjoint(ParseSubnet(block).value, ParseSubnet(cidr).value);
    }
  }

  lemma ShapeWithNewNetwork(m: Manifest, name: string, network: Network)
    requires Shape(m) && name !in m.networks && |m.networks| < 16 && Identifier(name)
    ensures Shape(m.(networks := m.networks[name := network]))
  {
    var t := m.(networks := m.networks[name := network]);
    assert t.networks.Keys == m.networks.Keys + {name};
    assert |t.networks| == |t.networks.Keys| && |m.networks| == |m.networks.Keys|;
    forall n | n in t.nodes ensures NodeShape(t, t.nodes[n]) {
      NodeShapeCarries(m, t, m.nodes[n]);
    }
  }

  /** A network is added exactly under a new identifier, as a readable private block that shares no address with the block of any
      other, all of which can be read, while there are fewer than 16; it has no uplink. */
  lemma AddNetworkEffect(m: Manifest, name: string, cidr: string, fits: Manifest -> bool)
    ensures AddNetwork(m, name, cidr, fits).Ok? <==>
         && Shape(m) && fits(m) && fits(m.(networks := m.networks[name := Network(cidr, "none")]))
         && Identifier(name) && name !in m.networks && |m.networks| < 16 && ParseSubnet(cidr).Some?
         && forall n :: n in m.networks ==>
              && ParseSubnet(m.networks[n].cidr).Some?
              && NoCommonAddress(ParseSubnet(cidr).value, ParseSubnet(m.networks[n].cidr).value)
    ensures AddNetwork(m, name, cidr, fits).Ok? ==>
      name !in m.networks && AddNetwork(m, name, cidr, fits).value == m.(networks := m.networks[name := Network(cidr, "none")])
  {
    if ParseSubnet(cidr).Some? {
      forall n | n in m.networks
        ensures Clear(ParseSubnet(cidr).value, m.networks[n].cidr) <==>
                  && ParseSubnet(m.networks[n].cidr).Some?
                  && NoCommonAddress(ParseSubnet(cidr).value, ParseSubnet(m.networks[n].cidr).value)
      {
        ClearIsDisjoint(cidr, m.networks[n].cidr);
      }
    }
    if Shape(m) && Identifier(name) && name !in m.networks && |m.networks| < 16 {
      ShapeWithNewNetwork(m, name, Network(cidr, "none"));
    }
  }

  lemma ShapeWithoutNetwork(m: Manifest, name: string)
    requires Shape(m)
    requires forall n, i :: n in m.nodes && 0 <= i < |m.nodes[n].nics| ==> m.nodes[n].nics[i].network != name
    ensures Shape(m.(networks := m.networks - {name}))
  {
    var t := m.(networks := m.networks - {name});
    assert t.networks.Keys == m.networks.Keys - {name};
    assert |t.networks| == |t.networks.Keys| && |m.networks| == |m.networks.Keys|;
    forall n | n in t.nodes ensures NodeShape(t, t.nodes[n]) {
      forall i | 0 <= i < |t.nodes[n].nics| ensures NicShape(t, t.nodes[n].nics, i) {
        assert NicShape(m, m.nodes[n].nics, i);
      }
    }
  }

  /** A network is removed exactly where no interface is on it. */
  lemma RemoveNetworkEffect(m: Manifest, name: string, fits: Manifest -> bool)
    ensures RemoveNetwork(m, name, fits).Ok? <==>
         && Shape(m) && fits(m) && name in m.networks && fits(m.(networks := m.networks - {name}))
         && forall n, i :: n in m.nodes && 0 <= i < |m.nodes[n].nics| ==> m.nodes[n].nics[i].network != name
    ensures RemoveNetwork(m, name, fits).Ok? ==>
      name in m.networks && RemoveNetwork(m, name, fits).value == m.(networks := m.networks - {name})
  {
    if Shape(m) && forall n, i :: n in m.nodes && 0 <= i < |m.nodes[n].nics| ==> m.nodes[n].nics[i].network != name {
      ShapeWithoutNetwork(m, name);
    }
  }

  lemma CutShape(m: Manifest, node: string, p: nat)
    requires Shape(m) && node in m.nodes && p < |m.nodes[node].nics|
    ensures var nics := m.nodes[node].nics; Shape(WithNics(m, node, nics[..p] + nics[p + 1..]))
  {
    var nics := m.nodes[node].nics;
    var after := nics[..p] + nics[p + 1..];
    assert NodeShape(m, m.nodes[node]);
    forall i | 0 <= i < |after| ensures NicShape(m, after, i) {
      assert NicShape(m, nics, if i < p then i else i + 1);
      assert forall j :: 0 <= j < i ==> after[j] == nics[if j < p then j else j + 1];
    }
    ShapeWithNode(m, node, m.nodes[node].(nics := after));
  }

  /** An interface is disconnected exactly where the node has it. */
  lemma DisconnectAccepts(m: Manifest, node: string, nic: string, fits: Manifest -> bool)
    ensures Disconnect(m, node, nic, fits).Ok? <==>
              && Shape(m) && fits(m) && node in m.nodes
              && var nics := m.nodes[node].nics;
                 exists p :: 0 <= p < |nics| && nics[p].id == nic && fits(WithNics(m, node, nics[..p] + nics[p + 1..]))
  {
    if Shape(m) && node in m.nodes && IndexOf(m.nodes[node].nics, nic).Some? {
      var nics := m.nodes[node].nics;
      var p := IndexOf(nics, nic).value;
      assert NodeShape(m, m.nodes[node]);
      IdsAreUnique(m, nics, p);
      WithoutIsCut(nics, nic, p);
      CutShape(m, node, p);
    }
  }

  /** A node is removed exactly where there is one. */
  lemma RemoveNodeAccepts(m: Manifest, name: string, fits: Manifest -> bool)
    ensures RemoveNode(m, name, fits).Ok? <==>
              Shape(m) && fits(m) && name in m.nodes && fits(m.(nodes := Forget(m.nodes, name)))
  {
    var t := m.(nodes := Forget(m.nodes, name));
    if Shape(m) && name in m.nodes {
      assert t.nodes.Keys == m.nodes.Keys - {name};
      assert |t.nodes| == |t.nodes.Keys| && |m.nodes| == |m.nodes.Keys|;
      forall n | n in t.nodes ensures NodeShape(t, t.nodes[n]) {
        assert NodeShape(m, m.nodes[n]);
        NodeShapeCarries(m, t, t.nodes[n]);
      }
    }
  }

  // ---------------------------------------------------------------- a beginning

  /** The empty draft is well formed, so every session on it keeps every draft well formed. */
  lemma EmptyDraftIsWellFormed(assets: map<string, string>)
    ensures WellFormed(Manifest(2, assets, map[], map[]))
  {
    assert GraphOf(map[]) == map[];
    OrderedIsAcyclic(map[], map[]);
  }
}
