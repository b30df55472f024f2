/** The editor's bounded history of drafts. */
module History {
  import opened Basics
  import opened Draft
  import opened DraftLaws

  const DEPTH := 20

  datatype Timeline = Timeline(past: seq<Manifest>, present: Manifest, future: seq<Manifest>)

  /** The last `DEPTH` of a sequence. */
  function Recent(s: seq<Manifest>): seq<Manifest> {
    if |s| > DEPTH then s[|s| - DEPTH..] else s
  }

  function Edited(h: Timeline, next: Manifest): Timeline {
    if next == h.present then h else Timeline(Recent(h.past + [h.present]), next, [])
  }

  function Undone(h: Timeline): Timeline {
    if h.past == [] then h
    else Timeline(h.past[..|h.past| - 1], h.past[|h.past| - 1], [h.present] + h.future)
  }

  function Redone(h: Timeline): Timeline {
    if h.future == [] then h
    else Timeline(h.past + [h.present], h.future[0], h.future[1..])
  }

  class MacGraphHistory {
    var past: seq<Manifest>
    var present: Manifest
    var future: seq<Manifest>

    function View(): Timeline
      reads this
    {
      Timeline(past, present, future)
    }

    constructor (source: Manifest)
      ensures View() == Timeline([], source, [])
    {
      past, present, future := [], source, [];
    }

    /** Refuses a draft that cannot be encoded, and ignores one equal to the present. */
    method Edit(next: Manifest, fits: Manifest -> bool) returns (ok: bool)
      modifies this
      ensures ok <==> fits(next)
      ensures View() == if ok then Edited(old(View()), next) else old(View())
      // one that is refused, or changes nothing, keeps what can be undone and what can be redone
      ensures !fits(next) || next == old(present) ==> past == old(past) && present == old(present) && future == old(future)
      // any other is present, with all but the last twenty of the drafts before it forgotten, and nothing left to redo
      ensures fits(next) && next != old(present) ==>
        && present == next && future == [] && |past| == Min(|old(past)| + 1, DEPTH)
        && past == (old(past) + [old(present)])[|old(past)| + 1 - |past|..]
    {
      if !fits(next) { return false; }
      if next == present { return true; }
      past := past + [present];
      if |past| > DEPTH { past := past[|past| - DEPTH..]; }
      present, future := next, [];
      return true;
    }

    method Undo()
      modifies this
      ensures View() == Undone(old(View()))
    {
      if past != [] {
        var previous := past[|past| - 1];
        past, future := past[..|past| - 1], [present] + future;
        present := previous;
      }
    }

    method Redo()
      modifies this
      ensures View() == Redone(old(View()))
    {
      if future != [] {
        past := past + [present];
        present, future := future[0], future[1..];
      }
    }
  }

  // ---------------------------------------------------------------- sessions

  datatype Edit =
    | Connecting(node: string, nic: Option<string>, network: string)
    | Disconnecting(node: string, id: string)
    | AddingNode(name: string, asset: string)
    | RemovingNode(name: string)
    | Sizing(node: string, cpus: int, memory: int)
    | Depending(node: string, selected: seq<string>)
    | AddingNetwork(name: string, cidr: string)
    | RemovingNetwork(name: string)

  datatype Command = Apply(edit: Edit) | Undo | Redo

  ghost function Perform(m: Manifest, e: Edit, fits: Manifest -> bool): Reply {
    match e
    case Connecting(node, nic, network) => Connect(m, node, nic, network, fits)
    case Disconnecting(node, id) => Disconnect(m, node, id, fits)
    case AddingNode(name, asset) => AddNode(m, name, asset, fits)
    case RemovingNode(name) => RemoveNode(m, name, fits)
    case Sizing(node, cpus, memory) => Resources(m, node, cpus, memory, fits)
    case Depending(node, selected) => Dependencies(m, node, selected, fits)
    case AddingNetwork(name, cidr) => AddNetwork(m, name, cidr, fits)
    case RemovingNetwork(name) => RemoveNetwork(m, name, fits)
  }

  /** A refused edit leaves the history alone. */
  ghost function Obey(h: Timeline, c: Command, fits: Manifest -> bool): Timeline {
    match c
    case Undo => Undone(h)
    case Redo => Redone(h)
    case Apply(e) =>
      match Perform(h.present, e, fits)
      case Err(_) => h
      case Ok(next) => if fits(next) then Edited(h, next) else h
  }

  ghost function Session(h: Timeline, commands: seq<Command>, fits: Manifest -> bool): Timeline
    decreases |commands|
  {
    if commands == [] then h
    else Obey(Session(h, commands[..|commands| - 1], fits), commands[|commands| - 1], fits)
  }

  ghost predicate AllWellFormed(drafts: seq<Manifest>) {
    forall i :: 0 <= i < |drafts| ==> WellFormed(drafts[i])
  }

  ghost predicate Sound(h: Timeline) {
    |h.past| + |h.future| <= DEPTH && WellFormed(h.present) && AllWellFormed(h.past) && AllWellFormed(h.future)
  }

  lemma NodeEditKeepsWellFormed(m: Manifest, e: Edit, fits: Manifest -> bool)
    requires e.AddingNode? || e.RemovingNode? || e.Sizing? || e.Depending?
    requires WellFormed(m) && Perform(m, e, fits).Ok?
    ensures WellFormed(Perform(m, e, fits).value)
  {
    match e {
      case AddingNode(name, asset) => AddNodeKeepsWellFormed(m, name, asset, fits);
      case RemovingNode(name) => RemoveNodeKeepsWellFormed(m, name, fits);
      case Sizing(node, cpus, memory) => ResourcesKeepWellFormed(m, node, cpus, memory, fits);
      case Depending(node, selected) => DependenciesKeepWellFormed(m, node, selected, fits);
    }
  }

  lemma InterfaceEditKeepsWellFormed(m: Manifest, e: Edit, fits: Manifest -> bool)
    requires e.Connecting? || e.Disconnecting?
    requires WellFormed(m) && Perform(m, e, fits).Ok?
    ensures WellFormed(Perform(m, e, fits).value)
  {
    match e {
      case Connecting(node, nic, network) => ConnectKeepsWellFormed(m, node, nic, network, fits);
      case Disconnecting(node, id) => DisconnectKeepsWellFormed(m, node, id, fits);
    }
  }

  lemma EditKeepsWellFormed(m: Manifest, e: Edit, fits: Manifest -> bool)
    requires WellFormed(m) && Perform(m, e, fits).Ok?
    ensures WellFormed(Perform(m, e, fits).value)
  {
    if e.AddingNode? || e.RemovingNode? || e.Sizing? || e.Depending? {
      NodeEditKeepsWellFormed(m, e, fits);
    } else if e.Connecting? || e.Disconnecting? {
      InterfaceEditKeepsWellFormed(m, e, fits);
    } else if e.AddingNetwork? {
      AddNetworkKeepsWellFormed(m, e.name, e.cidr, fits);
    } else {
      RemoveNetworkKeepsWellFormed(m, e.name, fits);
      assert Perform(m, e, fits) == RemoveNetwork(m, e.name, fits);
    }
  }

  lemma EditedKeepsSound(h: Timeline, next: Manifest)
    requires Sound(h) && WellFormed(next)
    ensures Sound(Edited(h, next))
  {
    var past := h.past + [h.present];
    assert forall i :: 0 <= i < |past| ==> past[i] == (if i < |h.past| then h.past[i] else h.present);
    assert AllWellFormed(past);
    assert forall i :: 0 <= i < |Recent(past)| ==> Recent(past)[i] in past;
  }

  lemma UndoneKeepsSound(h: Timeline)
    requires Sound(h)
    ensures Sound(Undone(h))
  {
    var future := [h.present] + h.future;
    assert forall i :: 0 <= i < |future| ==> future[i] == (if i == 0 then h.present else h.future[i - 1]);
  }

  lemma RedoneKeepsSound(h: Timeline)
    requires Sound(h)
    ensures Sound(Redone(h))
  {
    var past := h.past + [h.present];
    assert forall i :: 0 <= i < |past| ==> past[i] == (if i < |h.past| then h.past[i] else h.present);
  }

  lemma ObeyKeepsSound(h: Timeline, c: Command, fits: Manifest -> bool)
    requires Sound(h)
    ensures Sound(Obey(h, c, fits))
  {
    if c.Apply? && Perform(h.present, c.edit, fits).Ok? {
      EditKeepsWellFormed(h.present, c.edit, fits);
      EditedKeepsSound(h, Perform(h.present, c.edit, fits).value);
    }
    UndoneKeepsSound(h);
    RedoneKeepsSound(h);
  }

  /** From a well-formed draft, every session of edits, undos and redos, in any order and of any length, leaves every draft
      of the history well formed, and never more than twenty of them besides the present one. */
  lemma {:induction false} SessionsStaySound(h: Timeline, commands: seq<Command>, fits: Manifest -> bool)
    requires Sound(h)
    ensures Sound(Session(h, commands, fits))
    decreases |commands|
  {
    if commands != [] {
      SessionsStaySound(h, commands[..|commands| - 1], fits);
      ObeyKeepsSound(Session(h, commands[..|commands| - 1], fits), commands[|commands| - 1], fits);
    }
  }

  // ---------------------------------------------------------------- undo and redo

  lemma RedoInvertsUndo(h: Timeline)
    ensures h.past != [] ==> Redone(Undone(h)) == h
    ensures h.future != [] ==> Undone(Redone(h)) == h
  {
    if h.past != [] {
      assert h.past[..|h.past| - 1] + [h.past[|h.past| - 1]] == h.past;
    }
  }

  function UndoTimes(h: Timeline, n: nat): Timeline
    decreases n
  {
    if n == 0 then h else UndoTimes(Undone(h), n - 1)
  }

  function RedoTimes(h: Timeline, n: nat): Timeline {
    if n == 0 then h else Redone(RedoTimes(h, n - 1))
  }

  /** Undoing n steps, n of which are remembered, and redoing them changes nothing. */
  lemma {:induction false} RedoTimesInvertsUndoTimes(h: Timeline, n: nat)
    requires n <= |h.past|
    ensures RedoTimes(UndoTimes(h, n), n) == h
    decreases n
  {
    if n > 0 {
      RedoTimesInvertsUndoTimes(Undone(h), n - 1);
      RedoInvertsUndo(h);
    }
  }

  ghost predicate Moved(m: Manifest, edits: seq<Manifest>, i: nat)
    requires i < |edits|
  {
    edits[i] != if i == 0 then m else edits[i - 1]
  }

  /** Each draft differs from the one before it. */
  ghost predicate Moves(m: Manifest, edits: seq<Manifest>) {
    forall i :: 0 <= i < |edits| ==> Moved(m, edits, i)
  }

  function EditAll(h: Timeline, edits: seq<Manifest>): Timeline
    decreases |edits|
  {
    if edits == [] then h else Edited(EditAll(h, edits[..|edits| - 1]), edits[|edits| - 1])
  }

  /** After any number of effective edits the past is the last twenty of everything shown before. */
  lemma {:induction false} PastIsRecent(h: Timeline, edits: seq<Manifest>)
    requires Moves(h.present, edits) && |h.past| <= DEPTH && edits != []
    ensures var t := EditAll(h, edits);
            t.present == edits[|edits| - 1] && t.future == []
            && t.past == Recent(h.past + [h.present] + edits[..|edits| - 1])
    decreases |edits|
  {
    var last := |edits| - 1;
    var front := edits[..last];
    if front == [] {
      assert EditAll(h, front) == h;
      assert h.past + [h.present] + edits[..0] == h.past + [h.present];
      assert Moved(h.present, edits, 0);
    } else {
      forall i | 0 <= i < |front| ensures Moved(h.present, front, i) {
        assert Moved(h.present, edits, i);
      }
      assert Moved(h.present, edits, last);
      PastIsRecent(h, front);
      var shown := h.past + [h.present] + front[..last - 1];
      assert front == front[..last - 1] + [front[last - 1]];
      assert h.past + [h.present] + front == shown + [front[last - 1]];
      RecentOfRecent(shown, front[last - 1]);
    }
  }

  lemma RecentOfRecent(s: seq<Manifest>, m: Manifest)
    ensures Recent(Recent(s) + [m]) == Recent(s + [m])
  {
  }

  lemma {:induction false} UndoReaches(h: Timeline, n: nat)
    requires n <= |h.past|
    ensures UndoTimes(h, n).present == (if n == 0 then h.present else h.past[|h.past| - n])
    decreases n
  {
    if n > 0 {
      UndoReaches(Undone(h), n - 1);
    }
  }

  /** Up to twenty effective edits are taken back exactly by as many undos. */
  lemma UndoTakesBackEdits(h: Timeline, edits: seq<Manifest>)
    requires Moves(h.present, edits) && |h.past| <= DEPTH && |edits| <= DEPTH
    ensures UndoTimes(EditAll(h, edits), |edits|).present == h.present
  {
    if edits != [] {
      PastIsRecent(h, edits);
      var shown := h.past + [h.present] + edits[..|edits| - 1];
      assert shown[|shown| - |edits|] == h.present;
      UndoReaches(EditAll(h, edits), |edits|);
    }
  }
}
