/**
 * The topology draft editor: each edit takes a manifest value and returns a new one, or refuses.
 */
module Draft {
  import opened Basics
  import opened Decimal
  import opened Addresses
  import opened FreeNames
  import opened DependencyGraph

  datatype Nic = Nic(id: string, network: string, address: string, mac: string, model: string)

  datatype Node = Node(asset: string, cpus: nat, memory: nat, firmware: string, disk: string,
                       nics: seq<Nic>, dependsOn: seq<string>)

  datatype Network = Network(cidr: string, uplink: string)

  /** `assets` gives the architecture of each asset. */
  datatype Manifest = Manifest(schema: nat, assets: map<string, string>, nodes: map<string, Node>, networks: map<string, Network>)

  type Reply = Result<Manifest>

  const INVALID: Reply := Err("invalid")

  // ---------------------------------------------------------------- shape

  predicate IdentifierChar(c: char) {
    'a' <= c <= 'z' || IsDigit(c) || c == '-'
  }

  predicate Identifier(s: string) {
    1 <= |s| <= 48 && 'a' <= s[0] <= 'z' && forall i :: 0 <= i < |s| ==> IdentifierChar(s[i])
  }

  predicate NicShape(m: Manifest, nics: seq<Nic>, i: nat)
    requires i < |nics|
  {
    Identifier(nics[i].id) && nics[i].network in m.networks && forall j :: 0 <= j < i ==> nics[j].id != nics[i].id
  }

  predicate NodeShape(m: Manifest, node: Node) {
    |node.nics| <= 8 && forall i :: 0 <= i < |node.nics| ==> NicShape(m, node.nics, i)
  }

  /** What every edit checks of the manifest it is given and of the one it returns. */
  predicate Shape(m: Manifest) {
    && m.schema == 2 && |m.nodes| <= 32 && |m.networks| <= 16
    && (forall n :: n in m.nodes ==> Identifier(n) && NodeShape(m, m.nodes[n]))
    && (forall n :: n in m.networks ==> Identifier(n))
  }

  /** `fits` says whether the encoded manifest stays within its size limit. */
  function Checked(m: Manifest, fits: Manifest -> bool): Reply {
    if Shape(m) && fits(m) then Ok(m) else INVALID
  }

  method CheckNode(m: Manifest, node: Node) returns (ok: bool)
    ensures ok <==> NodeShape(m, node)
  {
    if |node.nics| > 8 { return false; }
    var ids := {};
    for i := 0 to |node.nics|
      invariant forall j :: 0 <= j < i ==> NicShape(m, node.nics, j)
      invariant forall id :: id in ids <==> exists j :: 0 <= j < i && node.nics[j].id == id
    {
      var nic := node.nics[i];
      if nic.id in ids || nic.network !in m.networks || !Identifier(nic.id) {
        assert !NicShape(m, node.nics, i);
        return false;
      }
      ids := ids + {nic.id};
    }
    return true;
  }

  method CheckNames(names: set<string>) returns (ok: bool)
    ensures ok <==> forall n :: n in names ==> Identifier(n)
  {
    var rest := names;
    while rest != {}
      invariant rest <= names && forall n :: n in names && n !in rest ==> Identifier(n)
      decreases |rest|
    {
      var n :| n in rest;
      if !Identifier(n) { return false; }
      rest := rest - {n};
    }
    return true;
  }

  method CheckNodes(m: Manifest) returns (ok: bool)
    ensures ok <==> forall n :: n in m.nodes ==> NodeShape(m, m.nodes[n])
  {
    var rest := m.nodes.Keys;
    while rest != {}
      invariant rest <= m.nodes.Keys && forall n :: n in m.nodes && n !in rest ==> NodeShape(m, m.nodes[n])
      decreases |rest|
    {
      var n :| n in rest;
      ok := CheckNode(m, m.nodes[n]);
      if !ok { return; }
      rest := rest - {n};
    }
    return true;
  }

  /** The check as the editor makes it, name by name and node by node. */
  method Check(m: Manifest, fits: Manifest -> bool) returns (r: Reply)
    ensures r == Checked(m, fits)
  {
    if m.schema != 2 || !fits(m) || |m.nodes| > 32 || |m.networks| > 16 { return INVALID; }
    var nodeNames := CheckNames(m.nodes.Keys);
    var networkNames := CheckNames(m.networks.Keys);
    var nodes := CheckNodes(m);
    return if nodeNames && networkNames && nodes then Ok(m) else INVALID;
  }

  // ---------------------------------------------------------------- connect

  function Eth(i: nat): string {
    "eth" + Text(i)
  }

  /** The first interface name not in use; there is one among as many names as there are uses, and one more. */
  function FreeEth(ids: set<string>): string {
    Eth(First(Eth, 0, |ids| + 1, ids))
  }

  function NicIds(nics: seq<Nic>): set<string> {
    set i | 0 <= i < |nics| :: nics[i].id
  }

  /** Every address text some interface of the draft carries. */
  function UsedAddresses(nodes: map<string, Node>): set<string> {
    set n, i | n in nodes && 0 <= i < |nodes[n].nics| :: nodes[n].nics[i].address
  }

  function IndexOf(nics: seq<Nic>, id: string): (r: Option<nat>)
    ensures r.Some? ==> r.value < |nics| && nics[r.value].id == id
    ensures r.None? <==> forall i :: 0 <= i < |nics| ==> nics[i].id != id
  {
    if nics == [] then None
    else if nics[0].id == id then Some(0)
    else match IndexOf(nics[1..], id)
      case None => None
      case Some(i) => Some(i + 1)
  }

  predicate AlreadyOn(nics: seq<Nic>, network: string, nic: Option<string>) {
    exists i :: 0 <= i < |nics| && nics[i].network == network && Some(nics[i].id) != nic
  }

  function ModelFor(m: Manifest, asset: string): string {
    if asset in m.assets && m.assets[asset] == "aarch64" then "virtio-net-pci" else "e1000"
  }

  function WithNics(m: Manifest, node: string, nics: seq<Nic>): Manifest
    requires node in m.nodes
  {
    m.(nodes := m.nodes[node := m.nodes[node].(nics := nics)])
  }

  /** The interfaces of `node` after joining `network` at `address`. */
  function Attached(m: Manifest, node: string, nic: Option<string>, network: string, address: string): seq<Nic>
    requires node in m.nodes && (nic.Some? ==> IndexOf(m.nodes[node].nics, nic.value).Some?)
  {
    var nics := m.nodes[node].nics;
    match nic
    case None => nics + [Nic(FreeEth(NicIds(nics)), network, address, "derived", ModelFor(m, m.nodes[node].asset))]
    case Some(id) =>
      var i := IndexOf(nics, id).value;
      nics[i := nics[i].(network := network, address := address)]
  }

  function Connect(m: Manifest, node: string, nic: Option<string>, network: string, fits: Manifest -> bool): Reply {
    if Checked(m, fits).Err? || node !in m.nodes || network !in m.networks then INVALID
    else
      var nics := m.nodes[node].nics;
      if AlreadyOn(nics, network, nic) || (nic.Some? && IndexOf(nics, nic.value).None?) then INVALID
      else if nic.Some? && nics[IndexOf(nics, nic.value).value].network == network then Ok(m)
      else if nic.None? && |nics| >= 8 then INVALID
      else Allocate(m, node, nic, network, fits)
  }

  function Allocate(m: Manifest, node: string, nic: Option<string>, network: string, fits: Manifest -> bool): Reply
    requires node in m.nodes && network in m.networks && (nic.Some? ==> IndexOf(m.nodes[node].nics, nic.value).Some?)
  {
    match LeastFree(m.networks[network].cidr, UsedAddresses(m.nodes))
    case None => INVALID
    case Some(a) => Checked(WithNics(m, node, Attached(m, node, nic, network, Ip(a))), fits)
  }

  /** The first host address of a block whose text is not used: neither the block's first address nor its last. */
  function LeastFreeIn(s: Subnet, used: set<string>): Option<nat> {
    FirstBelow(Ip, s.base + 1, s.base + s.size - 1, used)
  }

  function LeastFree(cidr: string, used: set<string>): Option<nat> {
    match ParseSubnet(cidr)
    case None => None
    case Some(s) => LeastFreeIn(s, used)
  }

  method FindEth(nics: seq<Nic>) returns (id: string)
    ensures id == FreeEth(NicIds(nics))
  {
    ghost var ids := NicIds(nics);
    EthsDiffer(0, |ids| + 1);
    var index := 0;
    while exists i :: 0 <= i < |nics| && nics[i].id == Eth(index)
      invariant index <= |ids| && AllTaken(Eth, 0, index, ids)
      decreases |ids| - index
    {
      assert Eth(index) in ids;
      Pigeonhole(Eth, 0, index + 1, ids);
      index := index + 1;
    }
    FirstIs(Eth, 0, index, |ids| + 1, ids);
    return Eth(index);
  }

  lemma EthInjective(i: nat, j: nat)
    ensures Eth(i) == Eth(j) ==> i == j
  {
    if Eth(i) == Eth(j) {
      assert Eth(i)[3..] == Text(i) && Eth(j)[3..] == Text(j);
      TextInjective(i, j);
    }
  }

  lemma EthsDiffer(i: nat, j: nat)
    ensures Differ(Eth, i, j)
  {
    forall k, l {:trigger Eth(k), Eth(l)} | i <= k < l < j ensures Eth(k) != Eth(l) {
      EthInjective(k, l);
    }
  }

  lemma SubnetHasHosts(text: string)
    requires ParseSubnet(text).Some?
    ensures 4 <= ParseSubnet(text).value.size
  {
    SubnetIsPrivate(text, ParseSubnet(text).value);
  }

  method FindAddress(cidr: string, used: set<string>) returns (r: Option<nat>)
    ensures r == LeastFree(cidr, used)
  {
    r := None;
    var block := ParseSubnet(cidr);
    if block.Some? {
      SubnetHasHosts(cidr);
      r := Search(Ip, block.value.base + 1, block.value.base + block.value.size - 1, used);
    }
  }

  method JoinNic(m: Manifest, node: string, nic: Option<string>, network: string, address: string) returns (nics: seq<Nic>)
    requires node in m.nodes && (nic.Some? ==> IndexOf(m.nodes[node].nics, nic.value).Some?)
    ensures nics == Attached(m, node, nic, network, address)
  {
    nics := m.nodes[node].nics;
    if nic.Some? {
      var position := IndexOf(nics, nic.value).value;
      nics := nics[position := nics[position].(network := network, address := address)];
    } else {
      var id := FindEth(nics);
      nics := nics + [Nic(id, network, address, "derived", ModelFor(m, m.nodes[node].asset))];
    }
  }

  /** The second half of the edit: an address is found and the interface joined. */
  method Attach(m: Manifest, node: string, nic: Option<string>, network: string, fits: Manifest -> bool) returns (r: Reply)
    requires node in m.nodes && network in m.networks && (nic.Some? ==> IndexOf(m.nodes[node].nics, nic.value).Some?)
    ensures r == Allocate(m, node, nic, network, fits)
  {
    var address := FindAddress(m.networks[network].cidr, UsedAddresses(m.nodes));
    if address.None? { return INVALID; }
    var nics := JoinNic(m, node, nic, network, Ip(address.value));
    r := Check(WithNics(m, node, nics), fits);
  }

  /** The edit as the editor makes it, with its searches as loops. */
  method DoConnect(m: Manifest, node: string, nic: Option<string>, network: string, fits: Manifest -> bool) returns (r: Reply)
    ensures r == Connect(m, node, nic, network, fits)
  {
    var given := Check(m, fits);
    if given.Err? || node !in m.nodes || network !in m.networks { return INVALID; }
    var nics := m.nodes[node].nics;
    if AlreadyOn(nics, network, nic) { return INVALID; }
    var position := if nic.Some? then IndexOf(nics, nic.value) else None;
    if nic.Some? && position.None? { return INVALID; }
    if position.Some? && nics[position.value].network == network { return Ok(m); }
    if nic.None? && |nics| >= 8 { return INVALID; }
    r := Attach(m, node, nic, network, fits);
  }

  // ---------------------------------------------------------------- the other edits

  function Disconnect(m: Manifest, node: string, nic: string, fits: Manifest -> bool): Reply {
    if Checked(m, fits).Err? || node !in m.nodes || IndexOf(m.nodes[node].nics, nic).None? then INVALID
    else Checked(WithNics(m, node, Without(m.nodes[node].nics, nic)), fits)
  }

  function Without(nics: seq<Nic>, id: string): seq<Nic> {
    if nics == [] then []
    else (if nics[0].id == id then [] else [nics[0]]) + Without(nics[1..], id)
  }

  function AddNode(m: Manifest, name: string, asset: string, fits: Manifest -> bool): Reply {
    if !Identifier(name) || Checked(m, fits).Err? || name in m.nodes || |m.nodes| >= 32 || asset !in m.assets then INVALID
    else
      var arm := m.assets[asset] == "aarch64";
      var node := Node(asset, 1, 512, if arm then "uefi" else "bios", if arm then "virtio" else "ide", [], []);
      Checked(m.(nodes := m.nodes[name := node]), fits)
  }

  function Drop(names: seq<string>, name: string): seq<string> {
    if names == [] then []
    else (if names[0] == name then [] else [names[0]]) + Drop(names[1..], name)
  }

  function Forgetting(node: Node, name: string): Node {
    node.(dependsOn := Drop(node.dependsOn, name))
  }

  function Forget(nodes: map<string, Node>, name: string): map<string, Node> {
    map n | n in nodes && n != name :: Forgetting(nodes[n], name)
  }

  function RemoveNode(m: Manifest, name: string, fits: Manifest -> bool): Reply {
    if Checked(m, fits).Err? || name !in m.nodes then INVALID
    else Checked(m.(nodes := Forget(m.nodes, name)), fits)
  }

  /** Those in `names` are still to be forgotten. */
  ghost predicate Forgotten(given: map<string, Node>, nodes: map<string, Node>, names: set<string>, name: string) {
    && names <= nodes.Keys && nodes.Keys == given.Keys - {name}
    && forall n :: n in nodes ==> nodes[n] == if n in names then given[n] else Forgetting(given[n], name)
  }

  lemma ForgetOne(given: map<string, Node>, nodes: map<string, Node>, names: set<string>, name: string, n: string)
    requires Forgotten(given, nodes, names, name) && n in names
    ensures Forgotten(given, nodes[n := Forgetting(nodes[n], name)], names - {n}, name)
  {
  }

  method DoForget(given: map<string, Node>, name: string) returns (nodes: map<string, Node>)
    ensures nodes == Forget(given, name)
  {
    nodes := given - {name};
    var names := nodes.Keys;
    while names != {}
      invariant Forgotten(given, nodes, names, name)
      decreases |names|
    {
      var n :| n in names;
      ForgetOne(given, nodes, names, name, n);
      nodes := nodes[n := Forgetting(nodes[n], name)];
      names := names - {n};
    }
  }

  method DoRemoveNode(m: Manifest, name: string, fits: Manifest -> bool) returns (r: Reply)
    ensures r == RemoveNode(m, name, fits)
  {
    var given := Check(m, fits);
    if given.Err? || name !in m.nodes { return INVALID; }
    var nodes := DoForget(m.nodes, name);
    r := Check(m.(nodes := nodes), fits);
  }

  function Resources(m: Manifest, node: string, cpus: int, memory: int, fits: Manifest -> bool): Reply {
    if Checked(m, fits).Err? || node !in m.nodes || !(1 <= cpus <= 64) || !(256 <= memory <= 262144) then INVALID
    else Checked(m.(nodes := m.nodes[node := m.nodes[node].(cpus := cpus, memory := memory)]), fits)
  }

  function GraphOf(nodes: map<string, Node>): Graph {
    map n | n in nodes :: nodes[n].dependsOn
  }

  ghost predicate Distinct(names: seq<string>) {
    forall i, j :: 0 <= i < j < |names| ==> names[i] != names[j]
  }

  /** The selection itself: distinct, existing, and not the node itself. */
  ghost predicate Selectable(m: Manifest, node: string, selected: seq<string>) {
    Distinct(selected) && forall d :: d in selected ==> d != node && d in m.nodes
  }

  function WithDependencies(m: Manifest, node: string, selected: seq<string>): Manifest
    requires node in m.nodes
  {
    m.(nodes := m.nodes[node := m.nodes[node].(dependsOn := selected)])
  }

  predicate Before(a: string, b: string) {
    a == "" || (b != "" && (a[0] < b[0] || (a[0] == b[0] && Before(a[1..], b[1..]))))
  }

  function Insert(name: string, names: seq<string>): seq<string> {
    if names == [] || Before(name, names[0]) then [name] + names else [names[0]] + Insert(name, names[1..])
  }

  function Sort(names: seq<string>): seq<string> {
    if names == [] then [] else Insert(names[0], Sort(names[1..]))
  }

  /** A well-shaped selection is accepted exactly when the whole graph then is closed and without a cycle. */
  ghost function Dependencies(m: Manifest, node: string, selected: seq<string>, fits: Manifest -> bool): Reply {
    if Checked(m, fits).Err? || node !in m.nodes || !Selectable(m, node, selected) then INVALID
    else
      var next := WithDependencies(m, node, Sort(selected));
      if Closed(GraphOf(next.nodes)) && Acyclic(GraphOf(next.nodes)) then Checked(next, fits) else INVALID
  }

  method DoDependencies(m: Manifest, node: string, selected: seq<string>, fits: Manifest -> bool)
    returns (r: Reply)
    ensures r == Dependencies(m, node, selected, fits)
  {
    var given := Check(m, fits);
    if given.Err? || node !in m.nodes { return INVALID; }
    var seen := {};
    for i := 0 to |selected|
      invariant forall d :: d in seen <==> exists j :: 0 <= j < i && selected[j] == d
      invariant forall j, k :: 0 <= j < k < i ==> selected[j] != selected[k]
      invariant forall j :: 0 <= j < i ==> selected[j] != node && selected[j] in m.nodes
    {
      if selected[i] in seen || selected[i] == node || selected[i] !in m.nodes {
        assert selected[i] in selected;
        return INVALID;
      }
      seen := seen + {selected[i]};
    }
    var next := WithDependencies(m, node, Sort(selected));
    ghost var rank;
    var ok;
    ok, rank := Layers(GraphOf(next.nodes));
    if !ok { return INVALID; }
    r := Check(next, fits);
  }

  function RemoveNetwork(m: Manifest, name: string, fits: Manifest -> bool): Reply {
    if Checked(m, fits).Err? || name !in m.networks
       || exists n, i :: n in m.nodes && 0 <= i < |m.nodes[n].nics| && m.nodes[n].nics[i].network == name then INVALID
    else Checked(m.(networks := m.networks - {name}), fits)
  }

  /** Both blocks can be read, and they do not meet. */
  predicate Clear(block: Subnet, cidr: string) {
    ParseSubnet(cidr).Some? && Apart(block, ParseSubnet(cidr).value)
  }

  function AddNetwork(m: Manifest, name: string, cidr: string, fits: Manifest -> bool): Reply {
    if !Identifier(name) || ParseSubnet(cidr).None? || Checked(m, fits).Err? || name in m.networks || |m.networks| >= 16
       || exists n :: n in m.networks && !Clear(ParseSubnet(cidr).value, m.networks[n].cidr) then INVALID
    else Checked(m.(networks := m.networks[name := Network(cidr, "none")]), fits)
  }

  method DoAddNetwork(m: Manifest, name: string, cidr: string, fits: Manifest -> bool) returns (r: Reply)
    ensures r == AddNetwork(m, name, cidr, fits)
  {
    var block := ParseSubnet(cidr);
    if !Identifier(name) || block.None? { return INVALID; }
    var given := Check(m, fits);
    if given.Err? || name in m.networks || |m.networks| >= 16 { return INVALID; }
    var names := m.networks.Keys;
    while names != {}
      invariant names <= m.networks.Keys
      invariant forall n :: n in m.networks && n !in names ==> Clear(block.value, m.networks[n].cidr)
      decreases |names|
    {
      var n :| n in names;
      if !Clear(block.value, m.networks[n].cidr) { return INVALID; }
      names := names - {n};
    }
    r := Check(m.(networks := m.networks[name := Network(cidr, "none")]), fits);
  }
}
