/**
 * Conservation and order on the bus: what a node sends leaves it in order and once, what is queued is taken out in
 * order and once, and a link is cut exactly from a Partition that separates its ends to the next Heal.
 */
module BusLaws {
  import opened RaftTypes
  import opened RaftSystem
  import opened SimulatorBus

  // ---------------------------------------------------------------- what the actions of a run did

  predicate Within(r: BusRun, k: nat) {
    k <= |r.actions| && k < |r.states|
  }

  predicate Holds(b: Bus, i: int) {
    0 <= i < |b.pending| && b.pending[i] != []
  }

  /** What node `i` sends by action `x`. */
  function SentBy(b: Bus, x: BusAction, i: int): seq<Message> {
    var a := Shadow(b, x);
    if !a.Network? && Actor(a) == i && 0 <= i < |b.nodes| then Effect(b.nodes[i], a).sent else []
  }

  /** What leaves node `i`: its next message is dropped at a cut link, or put into an inbox or lost at a full one. */
  function LeavesBy(b: Bus, x: BusAction, i: int): seq<Message> {
    if !Holds(b, i) then []
    else
      var m := b.pending[i][0];
      if (x == Test(i) && (m.sender, m.receiver) in b.cut) || (x.Push? && x.node == i) then [m] else []
  }

  /** What is put into the inbox of node `v`. */
  function QueuedBy(b: Bus, x: BusAction, v: int): seq<Message> {
    if x.Push? && x.queued && Holds(b, x.node) && b.pending[x.node][0].receiver == v then [b.pending[x.node][0]] else []
  }

  /** What node `v` takes out of its inbox, to handle it or to discard it. */
  function TakenBy(b: Bus, x: BusAction, v: int): seq<Message> {
    if (x == Receive(v) || x == Discard(v)) && 0 <= v < |b.inboxes| && b.inboxes[v] != [] then [b.inboxes[v][0]] else []
  }

  /** Everything node `i` has sent before state `k`, in order. */
  function Sent(r: BusRun, k: nat, i: int): seq<Message>
    requires Within(r, k)
  {
    if k == 0 then [] else Sent(r, k - 1, i) + SentBy(r.states[k - 1], r.actions[k - 1], i)
  }

  /** Everything that has left node `i` before state `k`, in order. */
  function Gone(r: BusRun, k: nat, i: int): seq<Message>
    requires Within(r, k)
  {
    if k == 0 then [] else Gone(r, k - 1, i) + LeavesBy(r.states[k - 1], r.actions[k - 1], i)
  }

  /** Everything put into the inbox of node `v` before state `k`, in order. */
  function Queued(r: BusRun, k: nat, v: int): seq<Message>
    requires Within(r, k)
  {
    if k == 0 then [] else Queued(r, k - 1, v) + QueuedBy(r.states[k - 1], r.actions[k - 1], v)
  }

  /** Everything node `v` has taken out of its inbox before state `k`, in order. */
  function Taken(r: BusRun, k: nat, v: int): seq<Message>
    requires Within(r, k)
  {
    if k == 0 then [] else Taken(r, k - 1, v) + TakenBy(r.states[k - 1], r.actions[k - 1], v)
  }

  // ---------------------------------------------------------------- the laws

  lemma StepOutbox(n: nat, b: Bus, net: set<Message>, x: BusAction, i: nat)
    requires BusWf(n, b, net) && BusEnabled(b, x) && i < n
    ensures |BusApply(b, x).pending| == n
    ensures b.pending[i] + SentBy(b, x, i) == LeavesBy(b, x, i) + BusApply(b, x).pending[i]
  {
    hide Effect;
  }

  lemma StepInbox(n: nat, b: Bus, net: set<Message>, x: BusAction, v: nat)
    requires BusWf(n, b, net) && BusEnabled(b, x) && v < n
    ensures |BusApply(b, x).inboxes| == n
    ensures b.inboxes[v] + QueuedBy(b, x, v) == TakenBy(b, x, v) + BusApply(b, x).inboxes[v]
  {
    hide Effect;
  }

  lemma SizesAt(n: nat, r: BusRun, k: nat)
    requires ValidBusRun(n, r) && k < |r.states|
    ensures Within(r, k) && |r.states[k].pending| == |r.states[k].inboxes| == n
    ensures k == 0 ==> forall i | 0 <= i < n :: r.states[k].pending[i] == r.states[k].inboxes[i] == []
  {
    BusRunWf(n, r, k);
  }

  lemma NextOutbox(n: nat, r: BusRun, k: nat, j: nat, i: nat)
    requires ValidBusRun(n, r) && j + 1 == k < |r.states| && i < n
    ensures |r.states[j].pending| == |r.states[k].pending| == n && j < |r.actions|
    ensures var b, x := r.states[j], r.actions[j];
      b.pending[i] + SentBy(b, x, i) == LeavesBy(b, x, i) + r.states[k].pending[i]
  {
    hide BusApply, BusEnabled, BusWf, EverSent, SentBy, LeavesBy;
    BusRunWf(n, r, j);
    SizesAt(n, r, j);
    assert BusStep(r, j);
    hide ValidBusRun;
    StepOutbox(n, r.states[j], EverSent(r, j), r.actions[j], i);
  }

  lemma NextInbox(n: nat, r: BusRun, k: nat, j: nat, v: nat)
    requires ValidBusRun(n, r) && j + 1 == k < |r.states| && v < n
    ensures |r.states[j].inboxes| == |r.states[k].inboxes| == n && j < |r.actions|
    ensures var b, x := r.states[j], r.actions[j];
      b.inboxes[v] + QueuedBy(b, x, v) == TakenBy(b, x, v) + r.states[k].inboxes[v]
  {
    hide BusApply, BusEnabled, BusWf, EverSent, QueuedBy, TakenBy;
    BusRunWf(n, r, j);
    SizesAt(n, r, j);
    assert BusStep(r, j);
    hide ValidBusRun;
    StepInbox(n, r.states[j], EverSent(r, j), r.actions[j], v);
  }

  /** A queue that had `ins` put in and `outs` taken out, and one step more. */
  lemma Regroup(ins: seq<Message>, outs: seq<Message>, held: seq<Message>,
                more: seq<Message>, less: seq<Message>, after: seq<Message>)
    requires ins == outs + held && held + more == less + after
    ensures ins + more == (outs + less) + after
  {
    assert ins + more == outs + (held + more);
  }

  /** What a node has sent is what has left it, in that order and once each, and then what it still holds. */
  lemma {:induction false} SentIsLeft(n: nat, r: BusRun, k: nat, i: nat)
    requires ValidBusRun(n, r) && k < |r.states| && i < n
    ensures |r.states[k].pending| == n && Within(r, k)
    ensures Sent(r, k, i) == Gone(r, k, i) + r.states[k].pending[i]
  {
    hide ValidBusRun, SentBy, LeavesBy;
    SizesAt(n, r, k);
    if k > 0 {
      SentIsLeft(n, r, k - 1, i);
      NextOutbox(n, r, k, k - 1, i);
      var b, x := r.states[k - 1], r.actions[k - 1];
      Regroup(Sent(r, k - 1, i), Gone(r, k - 1, i), b.pending[i], SentBy(b, x, i), LeavesBy(b, x, i), r.states[k].pending[i]);
    }
  }

  /** What has been queued for a node is what it has taken out, in that order and once each, and then what waits. */
  lemma {:induction false} QueuedIsTaken(n: nat, r: BusRun, k: nat, v: nat)
    requires ValidBusRun(n, r) && k < |r.states| && v < n
    ensures |r.states[k].inboxes| == n && Within(r, k)
    ensures Queued(r, k, v) == Taken(r, k, v) + r.states[k].inboxes[v]
  {
    hide ValidBusRun, QueuedBy, TakenBy;
    SizesAt(n, r, k);
    if k > 0 {
      QueuedIsTaken(n, r, k - 1, v);
      NextInbox(n, r, k, k - 1, v);
      var b, x := r.states[k - 1], r.actions[k - 1];
      Regroup(Queued(r, k - 1, v), Taken(r, k - 1, v), b.inboxes[v], QueuedBy(b, x, v), TakenBy(b, x, v), r.states[k].inboxes[v]);
    }
  }

  // ---------------------------------------------------------------- links

  /** Step `j` put `a` and `b` on different sides, and no link has been mended since. */
  predicate SeparatedAt(r: BusRun, j: nat, k: nat, a: int, b: int) {
    && j < k <= |r.actions| && r.actions[j].Partition?
    && ((a in r.actions[j].groupA && b in r.actions[j].groupB) || (a in r.actions[j].groupB && b in r.actions[j].groupA))
    && forall i | j < i < k :: !r.actions[i].Heal?
  }

  lemma StepCut(b: Bus, x: BusAction, p: int, q: int)
    requires BusEnabled(b, x)
    ensures (p, q) in BusApply(b, x).cut <==>
      || (x.Partition? && ((p in x.groupA && q in x.groupB) || (p in x.groupB && q in x.groupA)))
      || (!x.Heal? && (p, q) in b.cut)
  {
    hide Effect;
  }

  /** A link is cut, in either direction, exactly from a Partition that separates its ends to the next Heal. */
  lemma {:induction false} CutIff(n: nat, r: BusRun, k: nat, p: int, q: int)
    requires ValidBusRun(n, r) && k < |r.states|
    ensures (p, q) in r.states[k].cut <==> exists j: nat :: SeparatedAt(r, j, k, p, q)
  {
    if k > 0 {
      var before: nat := k - 1;
      CutIff(n, r, before, p, q);
      assert BusStep(r, before);
      StepCut(r.states[before], r.actions[before], p, q);
      hide ValidBusRun, BusApply, BusEnabled;
      if j: nat :| SeparatedAt(r, j, before, p, q) {
        if !r.actions[before].Heal? { assert SeparatedAt(r, j, k, p, q); }
      }
      if j: nat :| SeparatedAt(r, j, k, p, q) {
        if j < before { assert SeparatedAt(r, j, before, p, q); }
      }
      if (p, q) in r.states[k].cut && (p, q) !in r.states[before].cut { assert SeparatedAt(r, before, k, p, q); }
      if (p, q) in r.states[k].cut && r.actions[before].Partition? && (p, q) in r.states[before].cut {
        var j: nat :| SeparatedAt(r, j, before, p, q);
        assert SeparatedAt(r, j, k, p, q);
      }
    }
  }

  // ---------------------------------------------------------------- capacity

  /** An inbox never holds more than 128 messages besides one taken out, and none is lost before it holds 128. */
  lemma LostOnlyWhenFull(n: nat, r: BusRun, k: nat)
    requires ValidBusRun(n, r) && k < |r.states|
    ensures |r.states[k].inboxes| == n && forall v | 0 <= v < n :: |r.states[k].inboxes[v]| <= 129
    ensures k < |r.actions| && r.actions[k].Push? && !r.actions[k].queued ==>
      var b, i := r.states[k], r.actions[k].node;
      Holds(b, i) && 0 <= b.pending[i][0].receiver < n && |b.inboxes[b.pending[i][0].receiver]| >= 128
  {
    BusRunWf(n, r, k);
    if k < |r.actions| { assert BusStep(r, k); }
    hide ValidBusRun, EverSent, BusApply;
  }
}
