/**
 Demultiplexing one UDP port among WebRTC tasks (packages/transport_webrtc/src/shared_port.rs): a
 remote address is tied to a task by the user-name fragment of its first STUN packet.

 Tasks and addresses are handles; a packet is represented by the fragment parsed from it, if any.
 */
module SharedPort {
  import opened Options
  import opened Sequences

  type Task = nat
  type Addr = nat

  datatype Port = Port(
    remotes: map<Addr, Task>,
    remotesOf: map<Task, seq<Addr>>,
    ufrags: map<string, Task>,
    ufragOf: map<Task, string>)

  const EMPTY := Port(map[], map[], map[], map[])

  function AddUfrag(p: Port, ufrag: string, task: Task): Port {
    p.(ufrags := p.ufrags[ufrag := task], ufragOf := p.ufragOf[task := ufrag])
  }

  function RemoveTask(p: Port, task: Task): Port {
    if task !in p.ufragOf then p
    else
      var p1 := p.(ufragOf := p.ufragOf - {task}, ufrags := p.ufrags - {p.ufragOf[task]});
      if p.ufragOf[task] !in p.ufrags || task !in p.remotesOf then p1
      else p1.(remotesOf := p.remotesOf - {task}, remotes := p.remotes - (set a | a in p.remotesOf[task]))
  }

  /** A known address goes to its task; an unknown one is tied to the task its user name belongs to. */
  function MapRemote(p: Port, remote: Addr, username: Option<string>): (Port, Option<Task>) {
    if remote in p.remotes then (p, Some(p.remotes[remote]))
    else if username.None? || username.value !in p.ufrags then (p, None)
    else
      var task := p.ufrags[username.value];
      (p.(remotes := p.remotes[remote := task],
          remotesOf := p.remotesOf[task := (if task in p.remotesOf then p.remotesOf[task] else []) + [remote]]),
       Some(task))
  }

  class SharedUdpPort {
    var remotes: map<Addr, Task>
    var remotesOf: map<Task, seq<Addr>>
    var ufrags: map<string, Task>
    var ufragOf: map<Task, string>

    ghost function View(): Port
      reads this
    {
      Port(remotes, remotesOf, ufrags, ufragOf)
    }

    constructor ()
      ensures View() == EMPTY
    {
      remotes, remotesOf, ufrags, ufragOf := map[], map[], map[], map[];
    }

    method Add(ufrag: string, task: Task)
      modifies this
      ensures View() == AddUfrag(old(View()), ufrag, task)
    {
      ufrags := ufrags[ufrag := task];
      ufragOf := ufragOf[task := ufrag];
    }

    method Remove(task: Task)
      modifies this
      ensures View() == RemoveTask(old(View()), task)
    {
      if task !in ufragOf {
        return;
      }
      var ufrag := ufragOf[task];
      ufragOf := ufragOf - {task};
      if ufrag !in ufrags {
        assert ufrags - {ufrag} == ufrags;
        return;
      }
      ufrags := ufrags - {ufrag};
      if task !in remotesOf {
        return;
      }
      var addrs := remotesOf[task];
      remotesOf := remotesOf - {task};
      for i := 0 to |addrs|
        invariant View() == RemoveTask(old(View()), task).(remotes := remotes)
        invariant remotes == old(remotes) - (set a | a in addrs[..i])
      {
        remotes := remotes - {addrs[i]};
        assert addrs[..i + 1] == addrs[..i] + [addrs[i]];
      }
      assert addrs[..|addrs|] == addrs;
    }

    method Map(remote: Addr, username: Option<string>) returns (r: Option<Task>)
      modifies this
      ensures (View(), r) == MapRemote(old(View()), remote, username)
    {
      if remote in remotes {
        return Some(remotes[remote]);
      }
      if username.None? || username.value !in ufrags {
        return None;
      }
      var task := ufrags[username.value];
      remotes := remotes[remote := task];
      remotesOf := remotesOf[task := (if task in remotesOf then remotesOf[task] else []) + [remote]];
      return Some(task);
    }
  }

  // ---------------------------------------------------------------- the maps are inverse

  ghost predicate UfragsInverse(p: Port) {
    && (forall u :: u in p.ufrags ==> p.ufrags[u] in p.ufragOf && p.ufragOf[p.ufrags[u]] == u)
    && (forall t :: t in p.ufragOf ==> p.ufragOf[t] in p.ufrags && p.ufrags[p.ufragOf[t]] == t)
  }

  /** The address lists are the inverse image of the address map, without repetition, and only of live tasks. */
  ghost predicate RemotesInverse(p: Port) {
    && (forall a :: a in p.remotes ==> p.remotes[a] in p.remotesOf && a in p.remotesOf[p.remotes[a]])
    && (forall t :: t in p.remotesOf ==> NoRepeat(p.remotesOf[t]) && t in p.ufragOf)
    && (forall t, a :: t in p.remotesOf && a in p.remotesOf[t] ==> a in p.remotes && p.remotes[a] == t)
  }

  ghost predicate Inverse(p: Port) {
    UfragsInverse(p) && RemotesInverse(p)
  }

  /** Adding keeps the maps inverse exactly when fragment and task are both new, or already belong together. */
  lemma AddKeepsIff(p: Port, ufrag: string, task: Task)
    requires Inverse(p)
    ensures Inverse(AddUfrag(p, ufrag, task))
       <==> (ufrag !in p.ufrags && task !in p.ufragOf) || (ufrag in p.ufrags && p.ufrags[ufrag] == task)
  {
    var p' := AddUfrag(p, ufrag, task);
    if ufrag in p.ufrags && p.ufrags[ufrag] != task {
      assert p'.ufragOf[p.ufrags[ufrag]] == ufrag;
    } else if task in p.ufragOf && p.ufragOf[task] != ufrag {
      assert p'.ufrags[p.ufragOf[task]] == task;
    }
  }

  lemma RemovedUfrags(p: Port, task: Task)
    requires UfragsInverse(p)
    ensures UfragsInverse(RemoveTask(p, task)) && RemoveTask(p, task).ufragOf == p.ufragOf - {task}
  {
  }

  /** Removing a task removes exactly its addresses. */
  lemma RemovedRemotes(p: Port, task: Task)
    requires Inverse(p)
    ensures var p' := RemoveTask(p, task);
      && p'.remotesOf == p.remotesOf - {task}
      && (forall a :: a in p'.remotes <==> a in p.remotes && p.remotes[a] != task)
      && (forall a :: a in p'.remotes ==> p'.remotes[a] == p.remotes[a])
  {
    if task in p.remotesOf {
      assert task in p.ufragOf && p.ufragOf[task] in p.ufrags;
      var gone := set a | a in p.remotesOf[task];
      assert forall a :: a in gone <==> a in p.remotesOf[task];
      assert RemoveTask(p, task).remotes == p.remotes - gone;
    }
  }

  lemma RemoveKeeps(p: Port, task: Task)
    requires Inverse(p)
    ensures Inverse(RemoveTask(p, task))
    ensures var p' := RemoveTask(p, task);
      && p'.ufragOf == p.ufragOf - {task}
      && (forall a :: a in p'.remotes <==> a in p.remotes && p.remotes[a] != task)
      && (forall a :: a in p'.remotes ==> p'.remotes[a] == p.remotes[a])
  {
    RemovedUfrags(p, task);
    RemovedRemotes(p, task);
  }

  lemma TiePreserves(p: Port, remote: Addr, task: Task, p': Port)
    requires RemotesInverse(p) && remote !in p.remotes && task in p.ufragOf
    requires p' == p.(remotes := p.remotes[remote := task],
                      remotesOf := p.remotesOf[task := (if task in p.remotesOf then p.remotesOf[task] else []) + [remote]])
    ensures RemotesInverse(p')
  {
    if task in p.remotesOf {
      NoRepeatAppend(p.remotesOf[task], remote);
    }
  }

  lemma MapKeeps(p: Port, remote: Addr, username: Option<string>)
    requires Inverse(p)
    ensures var (p', r) := MapRemote(p, remote, username);
      && Inverse(p')
      && (r.Some? ==> r.value in p.ufragOf && remote in p'.remotes && p'.remotes[remote] == r.value)
      && (forall a :: a in p.remotes ==> a in p'.remotes && p'.remotes[a] == p.remotes[a])
  {
    if remote !in p.remotes && username.Some? && username.value in p.ufrags {
      TiePreserves(p, remote, p.ufrags[username.value], MapRemote(p, remote, username).0);
    }
  }

  // ---------------------------------------------------------------- runs

  datatype Event = Added(ufrag: string, task: Task) | Removed(task: Task) | Received(remote: Addr, username: Option<string>)

  function Next(p: Port, e: Event): Port {
    match e
    case Added(ufrag, task) => AddUfrag(p, ufrag, task)
    case Removed(task) => RemoveTask(p, task)
    case Received(remote, username) => MapRemote(p, remote, username).0
  }

  function After(events: seq<Event>): Port {
    if events == [] then EMPTY else Next(After(events[..|events| - 1]), events[|events| - 1])
  }

  /** The tasks added and not removed since. */
  function Live(events: seq<Event>): set<Task> {
    if events == [] then {}
    else
      var before := Live(events[..|events| - 1]);
      match events[|events| - 1]
      case Added(_, task) => before + {task}
      case Removed(task) => before - {task}
      case Received(_, _) => before
  }

  /** Fragments in use are not given to another task, and a task is added once before it is removed. */
  ghost predicate FreshAdds(events: seq<Event>) {
    |events| > 0 ==>
      var init, e := events[..|events| - 1], events[|events| - 1];
      && FreshAdds(init)
      && (e.Added? ==> e.ufrag !in After(init).ufrags && e.task !in Live(init))
  }

  lemma {:induction false} RunInverse(events: seq<Event>)
    requires FreshAdds(events)
    ensures Inverse(After(events)) && After(events).ufragOf.Keys == Live(events)
  {
    if events != [] {
      var n := |events| - 1;
      RunInverse(events[..n]);
      var p := After(events[..n]);
      match events[n]
      case Added(ufrag, task) => AddKeepsIff(p, ufrag, task);
      case Removed(task) => RemoveKeeps(p, task);
      case Received(remote, username) => MapKeeps(p, remote, username);
    }
  }

  /** In every run a packet goes only to a task that was added and not removed since. */
  lemma OnlyLiveTasks(events: seq<Event>, remote: Addr, username: Option<string>)
    requires FreshAdds(events)
    ensures var r := MapRemote(After(events), remote, username).1; r.Some? ==> r.value in Live(events)
  {
    RunInverse(events);
    MapKeeps(After(events), remote, username);
  }

  /** In every run an address keeps its task until that task is removed, whatever its packets say. */
  lemma {:induction false} AddressSticks(before: seq<Event>, more: seq<Event>, remote: Addr, task: Task)
    requires FreshAdds(before + more)
    requires remote in After(before).remotes && After(before).remotes[remote] == task
    requires Removed(task) !in more
    ensures var p := After(before + more); remote in p.remotes && p.remotes[remote] == task
  {
    if more == [] {
      assert before + more == before;
    } else {
      var n := |more| - 1;
      var all := before + more;
      assert all[..|all| - 1] == before + more[..n] && all[|all| - 1] == more[n];
      AddressSticks(before, more[..n], remote, task);
      RunInverse(before + more[..n]);
      var p := After(before + more[..n]);
      match more[n]
      case Added(_, _) =>
      case Removed(other) => RemoveKeeps(p, other);
      case Received(a, u) => MapKeeps(p, a, u);
    }
  }

  // ---------------------------------------------------------------- where a packet goes, from the events alone

  /** Event `i` gave the fragment to the task, which was not removed since. */
  predicate GivenAt(events: seq<Event>, ufrag: string, task: Task, i: nat) {
    && i < |events| && events[i] == Added(ufrag, task)
    && forall k :: i < k < |events| ==> events[k] != Removed(task)
  }

  ghost predicate Holds(events: seq<Event>, ufrag: string, task: Task) {
    exists i: nat :: GivenAt(events, ufrag, task, i)
  }

  /** The task an address is tied to: by the first packet that names a live task's fragment, until that task is removed. */
  ghost predicate Tied(events: seq<Event>, remote: Addr, task: Task) {
    |events| > 0 &&
      var init, e := events[..|events| - 1], events[|events| - 1];
      || (Tied(init, remote, task) && e != Removed(task))
      || (&& e.Received? && e.remote == remote && (forall t :: !Tied(init, remote, t))
          && e.username.Some? && Holds(init, e.username.value, task))
  }

  lemma GivenEarlier(init: seq<Event>, e: Event, ufrag: string, task: Task, i: nat)
    requires i < |init|
    ensures GivenAt(init + [e], ufrag, task, i) <==> GivenAt(init, ufrag, task, i) && e != Removed(task)
  {
    var events := init + [e];
    assert events[|init|] == e;
    assert forall k :: 0 <= k < |init| ==> events[k] == init[k];
  }

  lemma HoldsStep(init: seq<Event>, e: Event, ufrag: string, task: Task)
    ensures Holds(init + [e], ufrag, task) <==> e == Added(ufrag, task) || (Holds(init, ufrag, task) && e != Removed(task))
  {
    forall i: nat | i < |init|
      ensures GivenAt(init + [e], ufrag, task, i) <==> GivenAt(init, ufrag, task, i) && e != Removed(task)
    {
      GivenEarlier(init, e, ufrag, task, i);
    }
    assert GivenAt(init + [e], ufrag, task, |init|) <==> e == Added(ufrag, task);
  }

  /** In every run the fragment table holds the live tasks' fragments. */
  lemma {:induction false} UfragsFollow(events: seq<Event>, ufrag: string, task: Task)
    requires FreshAdds(events)
    ensures Holds(events, ufrag, task) <==> ufrag in After(events).ufrags && After(events).ufrags[ufrag] == task
  {
    if events != [] {
      var init := events[..|events| - 1];
      UfragsFollow(init, ufrag, task);
      RunInverse(init);
      HoldsStep(init, events[|events| - 1], ufrag, task);
      assert init + [events[|events| - 1]] == events;
    }
  }

  /** One event, on the address table. */
  lemma TiesStep(p: Port, e: Event, remote: Addr, task: Task)
    requires Inverse(p)
    ensures var p' := Next(p, e);
      (remote in p'.remotes && p'.remotes[remote] == task)
      <==> || (remote in p.remotes && p.remotes[remote] == task && e != Removed(task))
           || (&& e.Received? && e.remote == remote && remote !in p.remotes
               && e.username.Some? && e.username.value in p.ufrags && p.ufrags[e.username.value] == task)
  {
    if e.Removed? { RemovedRemotes(p, e.task); }
  }

  /** In every run the address table ties addresses as the packets and removals say. */
  lemma {:induction false} RemotesFollow(events: seq<Event>, remote: Addr, task: Task)
    requires FreshAdds(events)
    ensures Tied(events, remote, task) <==> remote in After(events).remotes && After(events).remotes[remote] == task
  {
    if events != [] {
      var init, e := events[..|events| - 1], events[|events| - 1];
      var p := After(init);
      forall t
        ensures Tied(init, remote, t) <==> remote in p.remotes && p.remotes[remote] == t
      {
        RemotesFollow(init, remote, t);
      }
      if remote in p.remotes { assert Tied(init, remote, p.remotes[remote]); }
      RunInverse(init);
      TiesStep(p, e, remote, task);
      if e.Received? && e.username.Some? { UfragsFollow(init, e.username.value, task); }
    }
  }

  /**
   In every run a packet goes to a task exactly if its address is tied to it, or its address is tied
   to none and it names the fragment of that task, which is live.  The address is tied to it then.
   */
  lemma RoutedIff(events: seq<Event>, remote: Addr, username: Option<string>, task: Task)
    requires FreshAdds(events)
    ensures MapRemote(After(events), remote, username).1 == Some(task)
       <==> || Tied(events, remote, task)
            || ((forall t :: !Tied(events, remote, t)) && username.Some? && Holds(events, username.value, task))
    ensures MapRemote(After(events), remote, username).1 == Some(task)
       <==> Tied(events + [Received(remote, username)], remote, task)
  {
    var p := After(events);
    forall t
      ensures Tied(events, remote, t) <==> remote in p.remotes && p.remotes[remote] == t
    {
      RemotesFollow(events, remote, t);
    }
    if username.Some? { UfragsFollow(events, username.value, task); }
    if remote in p.remotes { assert Tied(events, remote, p.remotes[remote]); }
    var longer := events + [Received(remote, username)];
    assert longer[..|longer| - 1] == events;
  }
}
