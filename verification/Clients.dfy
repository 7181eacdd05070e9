/**
 The bounded list of clients, src/pthread_dllist.c: appending waits while the list is full, deleting
 signals one waiter after the unlock.
 */
module Clients {
  import opened Sequences
  import opened DList

  // ----- interleavings

  /** Where a thread that wants to be on the list stands. */
  datatype Pc = Arriving | Asleep(signalled: bool) | Listed | Signalling | Left(served: bool)

  datatype State = State(maxNodes: int, list: seq<nat>, pcs: seq<Pc>)

  /** `admitted` is what the callback says, if there is one. */
  datatype Action =
    | Arrive
    | Enter(i: nat, admitted: bool)
    | Resume(i: nat, admitted: bool)
    | TimeOut(i: nat)
    | Delete(i: nat)
    | Signal(i: nat, sleeper: nat)
    | SignalNobody(i: nat)
    | Spurious(i: nat)

  predicate PcAt(s: State, i: nat, pc: Pc) { i < |s.pcs| && s.pcs[i] == pc }

  /** The test of the wait loop. */
  predicate Full(s: State) { s.maxNodes != 0 && |s.list| == s.maxNodes }

  ghost predicate Enabled(s: State, a: Action) {
    match a
    case Arrive => true
    case Enter(i, _) => PcAt(s, i, Arriving)
    case Resume(i, _) => PcAt(s, i, Asleep(true))
    case TimeOut(i) => PcAt(s, i, Asleep(false)) || PcAt(s, i, Asleep(true))
    case Delete(i) => PcAt(s, i, Listed)
    case Signal(i, j) => PcAt(s, i, Signalling) && PcAt(s, j, Asleep(false))
    case SignalNobody(i) => PcAt(s, i, Signalling) && !SomebodySleeps(s)
    case Spurious(i) => PcAt(s, i, Asleep(false))
  }

  ghost predicate SomebodySleeps(s: State) { exists j: nat :: PcAt(s, j, Asleep(false)) }

  function Set(s: State, i: nat, pc: Pc): State
    requires i < |s.pcs|
  {
    s.(pcs := s.pcs[i := pc])
  }

  /** A thread with the mutex goes to sleep, on the list, or away. */
  function Join(s: State, i: nat, admitted: bool): State
    requires i < |s.pcs|
  {
    if Full(s) then Set(s, i, Asleep(false))
    else if admitted then Set(s, i, Listed).(list := s.list + [i])
    else Set(s, i, Left(false))
  }

  ghost function Apply(s: State, a: Action): State
    requires Enabled(s, a) && (a.Delete? ==> a.i in s.list)
  {
    match a
    case Arrive => s.(pcs := s.pcs + [Arriving])
    case Enter(i, admitted) => Join(s, i, admitted)
    case Resume(i, admitted) => Join(s, i, admitted)
    case TimeOut(i) => Set(s, i, Left(false))
    case Delete(i) =>
      Set(s, i, if s.maxNodes != 0 then Signalling else Left(true)).(list := Without(s.list, i))
    case Signal(i, j) => Set(Set(s, i, Left(true)), j, Asleep(true))
    case SignalNobody(i) => Set(s, i, Left(true))
    case Spurious(i) => Set(s, i, Asleep(true))
  }

  // ----- the list

  ghost predicate Inv(s: State) {
    && NoDup(s.list)
    && (forall i: nat :: i in s.list <==> PcAt(s, i, Listed))
    && (s.maxNodes > 0 ==> |s.list| <= s.maxNodes)
  }

  lemma StepKeeps(s: State, a: Action)
    requires Inv(s) && Enabled(s, a)
    ensures a.Delete? ==> a.i in s.list
    ensures Inv(Apply(s, a))
  {
    if a.Delete? {
      WithoutFacts(s.list, a.i);
    } else if a.Enter? || a.Resume? {
      assert a.i !in s.list;
      AppendFacts(s.list, a.i);
    }
  }

  // ----- signals

  /** Threads that will signal, or that were woken and will test again. */
  function Coming(pc: Pc): int { if pc == Signalling || pc == Asleep(true) then 1 else 0 }

  /** A thread sleeps unsignalled and more places are free than threads are coming. */
  ghost predicate Short(s: State) {
    SomebodySleeps(s) && s.maxNodes - |s.list| > Total(Coming, s.pcs)
  }

  /** A woken thread leaves without taking a place: its time is over, or the callback says no. */
  predicate Forfeits(s: State, a: Action) {
    || (a.TimeOut? && PcAt(s, a.i, Asleep(true)))
    || (a.Resume? && !a.admitted && !Full(s))
  }

  /** It does so while every free place has just one thread coming for it and another thread sleeps. */
  ghost predicate WastesSignal(s: State, a: Action) {
    Forfeits(s, a) && s.maxNodes - |s.list| == Total(Coming, s.pcs) && SomebodySleeps(s)
  }

  lemma SignalComing(s: State, i: nat, j: nat)
    requires PcAt(s, i, Signalling) && PcAt(s, j, Asleep(false))
    ensures Total(Coming, Set(Set(s, i, Left(true)), j, Asleep(true)).pcs) == Total(Coming, s.pcs)
  {
    TotalUpdate(Coming, s.pcs, i, Left(true));
    TotalUpdate(Coming, s.pcs[i := Left(true)], j, Asleep(true));
  }

  lemma JoinComing(s: State, i: nat, admitted: bool)
    requires i < |s.pcs|
    ensures Total(Coming, Join(s, i, admitted).pcs) == Total(Coming, s.pcs) - Coming(s.pcs[i])
  {
    TotalUpdate(Coming, s.pcs, i, Join(s, i, admitted).pcs[i]);
  }

  lemma {:induction false} ComingChanges(s: State, a: Action)
    requires Enabled(s, a) && (a.Delete? ==> a.i in s.list)
    ensures var before, after := Total(Coming, s.pcs), Total(Coming, Apply(s, a).pcs);
      && (a.Enter? || a.Arrive? || a.Signal? ==> after == before)
      && (a.Resume? ==> after == before - 1)
      && (a.TimeOut? ==> after == before - if PcAt(s, a.i, Asleep(true)) then 1 else 0)
      && (a.Delete? ==> after == before + if s.maxNodes != 0 then 1 else 0)
      && (a.SignalNobody? ==> after == before - 1)
      && (a.Spurious? ==> after == before + 1)
      && after >= 0
  {
    TotalZero(Coming, Apply(s, a).pcs);
    hide Total, Join;
    match a
    case Arrive => TotalAppend(Coming, s.pcs, Arriving);
    case Enter(i, admitted) => JoinComing(s, i, admitted);
    case Resume(i, admitted) => JoinComing(s, i, admitted);
    case TimeOut(i) => TotalUpdate(Coming, s.pcs, i, Left(false));
    case Delete(i) => TotalUpdate(Coming, s.pcs, i, if s.maxNodes != 0 then Signalling else Left(true));
    case Signal(i, j) => SignalComing(s, i, j);
    case SignalNobody(i) => TotalUpdate(Coming, s.pcs, i, Left(true));
    case Spurious(i) => TotalUpdate(Coming, s.pcs, i, Asleep(true));
  }

  /** Who sleeps unsignalled after a step did before, or found the list full. */
  lemma SleepersBefore(s: State, a: Action)
    requires Inv(s) && Enabled(s, a) && SomebodySleeps(Apply(s, a))
    ensures SomebodySleeps(s) || ((a.Enter? || a.Resume?) && Full(s))
  {
    var i: nat :| PcAt(Apply(s, a), i, Asleep(false));
    if !((a.Enter? || a.Resume?) && Full(s)) {
      assert PcAt(s, i, Asleep(false));
    }
  }

  lemma ForfeitLeavesSleepers(s: State, a: Action)
    requires Enabled(s, a) && Forfeits(s, a) && SomebodySleeps(s)
    ensures SomebodySleeps(Apply(s, a))
  {
    var j: nat :| PcAt(s, j, Asleep(false));
    assert PcAt(Apply(s, a), j, Asleep(false));
  }

  /** Threads that are coming run short exactly by such a step. */
  lemma {:induction false} ShortExactly(s: State, a: Action)
    requires Inv(s) && !Short(s) && Enabled(s, a)
    ensures (a.Delete? ==> a.i in s.list) && (Short(Apply(s, a)) <==> WastesSignal(s, a))
  {
    StepKeeps(s, a);
    ComingChanges(s, a);
    var t := Apply(s, a);
    if SomebodySleeps(t) {
      SleepersBefore(s, a);
    }
    if Forfeits(s, a) && SomebodySleeps(s) {
      ForfeitLeavesSleepers(s, a);
    }
    hide Inv, SomebodySleeps;
  }

  // ----- runs

  ghost predicate IsRun(maxNodes: int, run: seq<Action>)
    decreases |run|, 0
  {
    run == [] || (
      && IsRun(maxNodes, run[..|run| - 1])
      && var s := Final(maxNodes, run[..|run| - 1]);
      && Enabled(s, run[|run| - 1])
      && (run[|run| - 1].Delete? ==> run[|run| - 1].i in s.list))
  }

  ghost function Final(maxNodes: int, run: seq<Action>): State
    requires IsRun(maxNodes, run)
    decreases |run|, 1
  {
    if run == [] then State(maxNodes, [], []) else Apply(Final(maxNodes, run[..|run| - 1]), run[|run| - 1])
  }

  lemma {:induction false} RunKeeps(maxNodes: int, run: seq<Action>)
    requires IsRun(maxNodes, run)
    ensures Inv(Final(maxNodes, run)) && Final(maxNodes, run).maxNodes == maxNodes
  {
    hide Inv;
    if run == [] {
      NobodyThere(maxNodes);
    } else {
      RunKeeps(maxNodes, run[..|run| - 1]);
      StepKeeps(Final(maxNodes, run[..|run| - 1]), run[|run| - 1]);
    }
  }

  lemma NobodyThere(maxNodes: int)
    ensures Inv(State(maxNodes, [], []))
  {
  }

  /** Although the loop tests for equality, the list is never longer than its bound. */
  lemma BoundHolds(maxNodes: int, run: seq<Action>)
    requires maxNodes > 0 && IsRun(maxNodes, run)
    ensures |Final(maxNodes, run).list| <= maxNodes
  {
    RunKeeps(maxNodes, run);
  }

  /** Somewhere in the run a signal was wasted. */
  ghost predicate Wasted(maxNodes: int, run: seq<Action>)
    requires IsRun(maxNodes, run)
  {
    run != [] && (
      || Wasted(maxNodes, run[..|run| - 1])
      || WastesSignal(Final(maxNodes, run[..|run| - 1]), run[|run| - 1]))
  }

  lemma {:induction false} NeverShort(maxNodes: int, run: seq<Action>)
    requires IsRun(maxNodes, run) && !Wasted(maxNodes, run)
    ensures !Short(Final(maxNodes, run))
  {
    if run != [] {
      hide Inv, Short, WastesSignal, Apply;
      NeverShort(maxNodes, run[..|run| - 1]);
      RunKeeps(maxNodes, run[..|run| - 1]);
      ShortExactly(Final(maxNodes, run[..|run| - 1]), run[|run| - 1]);
    }
  }

  /**
   While a thread sleeps unsignalled and there is room, a signal is due or a woken thread will test again, as long
   as no signal was wasted.
   */
  lemma NoLostSignal(maxNodes: int, run: seq<Action>, i: nat) returns (j: nat)
    requires IsRun(maxNodes, run) && PcAt(Final(maxNodes, run), i, Asleep(false))
    requires |Final(maxNodes, run).list| < maxNodes
    requires !Wasted(maxNodes, run)
    ensures PcAt(Final(maxNodes, run), j, Signalling) || PcAt(Final(maxNodes, run), j, Asleep(true))
  {
    RunKeeps(maxNodes, run);
    NeverShort(maxNodes, run);
    var s := Final(maxNodes, run);
    TotalZero(Coming, s.pcs);
    j :| 0 <= j < |s.pcs| && Coming(s.pcs[j]) != 0;
  }

  /** It takes two waiting threads to waste a signal; the proxy appends from a single one. */
  lemma WasteTakesTwo(s: State, a: Action) returns (j: nat)
    requires Enabled(s, a) && WastesSignal(s, a)
    ensures a.TimeOut? || a.Resume?
    ensures j != a.i && PcAt(s, a.i, Asleep(true)) && PcAt(s, j, Asleep(false))
  {
    j :| PcAt(s, j, Asleep(false));
  }

  lemma Then(run: seq<Action>, s: State, a: Action)
    requires IsRun(1, run) && Final(1, run) == s && Enabled(s, a) && (a.Delete? ==> a.i in s.list)
    ensures IsRun(1, run + [a]) && Final(1, run + [a]) == Apply(s, a)
  {
    assert (run + [a])[..|run|] == run;
  }

  /** Two threads wait for the only place. */
  lemma TwoWait() returns (run: seq<Action>)
    ensures IsRun(1, run) && Final(1, run) == State(1, [0], [Listed, Asleep(false), Asleep(false)])
  {
    hide IsRun, Final;
    run := [];
    EmptyRun();
    Then(run, State(1, [], []), Arrive);
    run := run + [Arrive];
    Then(run, State(1, [], [Arriving]), Enter(0, true));
    run := run + [Enter(0, true)];
    Then(run, State(1, [0], [Listed]), Arrive);
    run := run + [Arrive];
    Then(run, State(1, [0], [Listed, Arriving]), Enter(1, true));
    run := run + [Enter(1, true)];
    Then(run, State(1, [0], [Listed, Asleep(false)]), Arrive);
    run := run + [Arrive];
    Then(run, State(1, [0], [Listed, Asleep(false), Arriving]), Enter(2, true));
    run := run + [Enter(2, true)];
  }

  lemma EmptyRun()
    ensures IsRun(1, []) && Final(1, []) == State(1, [], [])
  {
  }

  /** The place becomes free. */
  lemma PlaceFree() returns (run: seq<Action>)
    ensures IsRun(1, run) && Final(1, run) == State(1, [], [Signalling, Asleep(false), Asleep(false)])
  {
    hide IsRun, Final;
    run := TwoWait();
    Then(run, State(1, [0], [Listed, Asleep(false), Asleep(false)]), Delete(0));
    run := run + [Delete(0)];
  }

  /** The thread that is signalled times out, and the other one sleeps on. */
  lemma SleepsOn() returns (run: seq<Action>)
    ensures IsRun(1, run) && Final(1, run) == State(1, [], [Left(true), Left(false), Asleep(false)])
  {
    hide IsRun, Final;
    run := PlaceFree();
    Then(run, State(1, [], [Signalling, Asleep(false), Asleep(false)]), Signal(0, 1));
    run := run + [Signal(0, 1)];
    Then(run, State(1, [], [Left(true), Asleep(true), Asleep(false)]), TimeOut(1));
    run := run + [TimeOut(1)];
  }

  // ----- the critical sections on the list itself

  /** What goes on the list, and the node that it is on. */
  class Client {
    var node: Node?<Client?>

    constructor ()
      ensures node == null
    {
      node := null;
    }
  }

  /** A node that still has its client is the node that this client knows. */
  ghost predicate Tied(n: Node<Client?>)
    reads n, n.data
  {
    n.data != null ==> n.data.node == n
  }

  class BoundedList {
    const maxNodes: int
    const list: DList<Client?>

    constructor (maxNodes: int)
      ensures this.maxNodes == maxNodes && list.Valid() && list.nodes == [] && fresh(list)
    {
      this.maxNodes := maxNodes;
      list := new DList<Client?>();
    }

    /**
     `pthread_dllistAppend` between lock and wait or unlock: sleeps while the list is full; then appends,
     unless the callback, if there is one, says no.
     */
    method Append(client: Client, admitted: bool) returns (sleeps: bool, ok: bool)
      requires list.Valid() && client.node == null
      modifies list, list.nodes, client`node
      ensures list.Valid()
      ensures sleeps <==> maxNodes != 0 && |old(list.nodes)| == maxNodes
      ensures ok <==> !sleeps && admitted
      ensures !ok ==> list.nodes == old(list.nodes) && client.node == null
      ensures ok ==> client.node != null && fresh(client.node) && client.node.data == client && Tied(client.node)
      ensures ok ==> list.nodes == old(list.nodes) + [client.node]
      ensures forall n :: n in old(list.nodes) ==> n.data == old(n.data)
    {
      sleeps, ok := maxNodes != 0 && list.count == maxNodes, false;
      if !sleeps && admitted {
        var node := new Node<Client?>(client);
        client.node := node;
        list.AppendNode(node);
        ok := true;
      }
    }

    /** `pthread_dllistDelete` before the lock: client and node forget each other, the node stays on the list. */
    method Forget(client: Client) returns (node: Node?<Client?>)
      requires list.Valid()
      modifies client`node, if client.node == null then {} else {client.node}
      ensures node == old(client.node) && client.node == null
      ensures node != null ==> node.data == null && node.prev == old(node.prev) && node.next == old(node.next)
      ensures list.Valid() && list.nodes == old(list.nodes)
    {
      node := client.node;
      if node != null {
        node.data := null;
        client.node := null;
      }
    }

    /** `pthread_dllistDelete` under the mutex: the node leaves the list, wherever it stands. */
    method Delete(node: Node<Client?>)
      requires list.Valid() && node in list.nodes
      modifies list, list.nodes
      ensures list.Valid() && list.nodes == Without(old(list.nodes), node)
    {
      ghost var was := list.nodes;
      ghost var k := list.DeleteNode(node);
      WithoutAt(was, k);
    }
  }
}
