/** Frames of the Lua and Ex-command pools as functions of the whole state. */
module LuaModel {
  import opened Wrappers
  import Providers

  // ----- what runs inside frames, and between them

  datatype Call =
    | Release(reference: nat)
    | SetDecorationProvider(namespace: nat, opts: Providers.Opts)
    | ExecLua(forks: bool, body: Calls, fails: bool)
    | ExecCommand(forks: bool, body: Calls, fails: bool)

  datatype Calls = Done | Then(call: Call, rest: Calls)

  datatype FrameError = NoHost | OperationFailed | ReleaseFailed

  // ----- the state

  /** The pools, how deep each is in use, and the decoration providers by namespace. */
  datatype Hosts = Hosts(
    luaPool: nat, luaDepth: nat, commandPool: nat, commandDepth: nat,
    namespaces: set<nat>, providers: map<nat, Providers.Def>)

  /** With the queue of releases, every release call made to a Lua host so far, in order,
      and the references whose release the host answers with an error. */
  datatype World = World(hosts: Hosts, queue: seq<nat>, freed: seq<nat>, refuses: set<nat>)

  /** A pool grows by a forked host when it has none for a depth; there is a prototype to fork
      from only once hosts have been installed. */
  function Grown(pool: nat, depth: nat, forks: bool): nat {
    if 0 < pool <= depth && forks then pool + 1 else pool
  }

  function GrowLua(h: Hosts, forks: bool): Hosts {
    h.(luaPool := Grown(h.luaPool, h.luaDepth, forks))
  }

  function GrowCommand(h: Hosts, forks: bool): Hosts {
    h.(commandPool := Grown(h.commandPool, h.commandDepth, forks))
  }

  function LeaveLua(h: Hosts): Hosts {
    if h.luaDepth == 0 then h else h.(luaDepth := h.luaDepth - 1)
  }

  function LeaveCommand(h: Hosts): Hosts {
    if h.commandDepth == 0 then h else h.(commandDepth := h.commandDepth - 1)
  }

  function Provider(h: Hosts, namespace: nat): Option<Providers.Def> {
    if namespace in h.providers then Some(h.providers[namespace]) else None
  }

  function Change(h: Hosts, namespace: nat, opts: Providers.Opts): Providers.Change {
    Providers.SetProvider(Provider(h, namespace), namespace in h.namespaces, opts)
  }

  function Install(h: Hosts, namespace: nat, provider: Option<Providers.Def>): Hosts {
    if provider.Some? then h.(providers := h.providers[namespace := provider.value]) else h
  }

  // ----- what the code does

  /** Inside a Lua frame, or without a host, releases wait; otherwise the primary host makes
      them at once, and its answer is ignored. */
  function ReleaseAll(w: World, references: seq<nat>): World {
    if w.hosts.luaDepth > 0 || w.hosts.luaPool == 0 then w.(queue := w.queue + references)
    else w.(freed := w.freed + references)
  }

  function SetProvider(w: World, namespace: nat, opts: Providers.Opts): World {
    var change := Change(w.hosts, namespace, opts);
    ReleaseAll(w.(hosts := Install(w.hosts, namespace, change.provider)), change.released)
  }

  predicate Refused(references: seq<nat>, refuses: set<nat>) {
    exists r :: r in references && r in refuses
  }

  function Drained(inside: World): World {
    inside.(hosts := LeaveLua(inside.hosts), queue := [], freed := inside.freed + inside.queue)
  }

  /** One Lua frame: the body, then every queued release, then the depth. */
  function RunLua(w: World, forks: bool, body: Calls, fails: bool): (World, Result<(), FrameError>)
    decreases body, 1
  {
    var h := GrowLua(w.hosts, forks);
    if h.luaDepth >= h.luaPool then (w.(hosts := h), Err(NoHost))
    else
      var inside := RunAll(w.(hosts := h.(luaDepth := h.luaDepth + 1)), body);
      (Drained(inside),
       if fails then Err(OperationFailed) else if Refused(inside.queue, w.refuses) then Err(ReleaseFailed) else Ok(()))
  }

  function RunCommand(w: World, forks: bool, body: Calls, fails: bool): (World, Result<(), FrameError>)
    decreases body, 1
  {
    var h := GrowCommand(w.hosts, forks);
    if h.commandDepth >= h.commandPool then (w.(hosts := h), Err(NoHost))
    else
      var inside := RunAll(w.(hosts := h.(commandDepth := h.commandDepth + 1)), body);
      (inside.(hosts := LeaveCommand(inside.hosts)), if fails then Err(OperationFailed) else Ok(()))
  }

  function RunOne(w: World, call: Call): World
    decreases call, 0
  {
    match call
    case Release(reference) => ReleaseAll(w, [reference])
    case SetDecorationProvider(namespace, opts) => SetProvider(w, namespace, opts)
    case ExecLua(forks, body, fails) => RunLua(w, forks, body, fails).0
    case ExecCommand(forks, body, fails) => RunCommand(w, forks, body, fails).0
  }

  function RunAll(w: World, calls: Calls): World
    decreases calls, 0
  {
    match calls
    case Done => w
    case Then(call, rest) => RunAll(RunOne(w, call), rest)
  }

  // ----- what a tree asks for, without the queue and without the order of releases

  /** The hosts after a call, and the releases it asks for. A body that finds no host is
      skipped, and asks for nothing. */
  function AskOne(h: Hosts, call: Call): (Hosts, seq<nat>)
    decreases call, 0
  {
    match call
    case Release(reference) => (h, [reference])
    case SetDecorationProvider(namespace, opts) =>
      var change := Change(h, namespace, opts); (Install(h, namespace, change.provider), change.released)
    case ExecLua(forks, body, _) =>
      var g := GrowLua(h, forks);
      if g.luaDepth >= g.luaPool then (g, [])
      else var (t, asked) := Ask(g.(luaDepth := g.luaDepth + 1), body); (LeaveLua(t), asked)
    case ExecCommand(forks, body, _) =>
      var g := GrowCommand(h, forks);
      if g.commandDepth >= g.commandPool then (g, [])
      else var (t, asked) := Ask(g.(commandDepth := g.commandDepth + 1), body); (LeaveCommand(t), asked)
  }

  function Ask(h: Hosts, calls: Calls): (Hosts, seq<nat>)
    decreases calls, 0
  {
    match calls
    case Done => (h, [])
    case Then(call, rest) =>
      var (t, asked) := AskOne(h, call);
      var (u, more) := Ask(t, rest);
      (u, asked + more)
  }

  // ----- the depths and the pools

  predicate SameDepths(h: Hosts, t: Hosts) {
    && t.luaDepth == h.luaDepth && t.commandDepth == h.commandDepth && t.namespaces == h.namespaces
    && t.luaPool >= h.luaPool && t.commandPool >= h.commandPool && (h.luaPool == 0 ==> t.luaPool == 0)
  }

  lemma {:induction false} AskOneKeepsDepths(h: Hosts, call: Call)
    ensures SameDepths(h, AskOne(h, call).0)
    decreases call, 0
  {
    match call
    case ExecLua(forks, body, _) =>
      var g := GrowLua(h, forks);
      AskKeepsDepths(g.(luaDepth := g.luaDepth + 1), body);
    case ExecCommand(forks, body, _) =>
      var g := GrowCommand(h, forks);
      AskKeepsDepths(g.(commandDepth := g.commandDepth + 1), body);
    case _ =>
  }

  /** Whatever frames fail or find no host, both depths come back. */
  lemma {:induction false} AskKeepsDepths(h: Hosts, calls: Calls)
    ensures SameDepths(h, Ask(h, calls).0)
    decreases calls, 0
  {
    match calls
    case Done =>
    case Then(call, rest) =>
      AskOneKeepsDepths(h, call);
      AskKeepsDepths(AskOne(h, call).0, rest);
  }

  // ----- conservation and order

  /** Every release made, then every release queued. */
  function Emitted(w: World): seq<nat> {
    w.freed + w.queue
  }

  /** What one state owes to an earlier one: the hosts as asked, and the releases asked for
      in between made or queued, once each; in order unless releases that waited for a host
      can be overtaken. */
  predicate Owes(w: World, t: World, asked: (Hosts, seq<nat>)) {
    && t.hosts == asked.0 && t.refuses == w.refuses && w.freed <= t.freed
    && multiset(Emitted(t)) == multiset(Emitted(w)) + multiset(asked.1)
    && (NoneWaits(w) ==> NoneWaits(t) && Emitted(t) == Emitted(w) + asked.1)
    && (w.queue == [] && w.hosts.luaDepth == 0 && w.hosts.luaPool > 0 ==> t.queue == [])
  }

  /** No release waits outside frames although there is a host. */
  predicate NoneWaits(w: World) {
    w.hosts.luaPool == 0 || w.hosts.luaDepth > 0 || w.queue == []
  }

  lemma OwesTrans(w: World, t: World, u: World, a: (Hosts, seq<nat>), b: (Hosts, seq<nat>))
    requires Owes(w, t, a) && Owes(t, u, b) && SameDepths(w.hosts, t.hosts)
    ensures Owes(w, u, (b.0, a.1 + b.1))
  {
    EmissionsChain(Emitted(w), Emitted(t), Emitted(u), a.1, b.1);
    hide Emitted;
  }

  lemma EmissionsChain(before: seq<nat>, between: seq<nat>, after: seq<nat>, a: seq<nat>, b: seq<nat>)
    ensures multiset(between) == multiset(before) + multiset(a) && multiset(after) == multiset(between) + multiset(b)
            ==> multiset(after) == multiset(before) + multiset(a + b)
    ensures between == before + a && after == between + b ==> after == before + (a + b)
  {
    assert multiset(a + b) == multiset(a) + multiset(b);
    assert before + a + b == before + (a + b);
  }

  lemma NothingOwed(w: World, h: Hosts)
    requires SameDepths(w.hosts, h)
    ensures Owes(w, w.(hosts := h), (h, []))
  {
    assert Emitted(w) + [] == Emitted(w) == Emitted(w.(hosts := h));
    assert multiset(Emitted(w)) + multiset([]) == multiset(Emitted(w));
  }

  lemma ReleaseAllOwes(w: World, h: Hosts, references: seq<nat>)
    requires h.luaDepth == w.hosts.luaDepth && h.luaPool == w.hosts.luaPool
    ensures Owes(w, ReleaseAll(w.(hosts := h), references), (h, references))
  {
    var t := ReleaseAll(w.(hosts := h), references);
    if h.luaDepth > 0 || h.luaPool == 0 {
      assert w.freed + (w.queue + references) == (w.freed + w.queue) + references;
    } else {
      assert multiset(w.freed + references + w.queue) == multiset(w.freed) + multiset(references) + multiset(w.queue);
      if w.queue == [] {
        assert w.freed + references + w.queue == w.freed + w.queue + references;
      }
    }
    assert multiset(w.freed + w.queue + references) == multiset(w.freed + w.queue) + multiset(references);
  }

  lemma LuaFrameOwes(w: World, h: Hosts, inside: World, asked: (Hosts, seq<nat>))
    requires SameDepths(w.hosts, h) && h.luaDepth < h.luaPool
    requires Owes(w.(hosts := h.(luaDepth := h.luaDepth + 1)), inside, asked)
    requires SameDepths(h.(luaDepth := h.luaDepth + 1), asked.0)
    ensures Owes(w, Drained(inside), (LeaveLua(asked.0), asked.1))
    ensures Drained(inside).freed == w.freed + w.queue + asked.1
  {
    var t := Drained(inside);
    assert Emitted(t) == Emitted(inside) + [] == Emitted(inside);
    assert Emitted(w.(hosts := h.(luaDepth := h.luaDepth + 1))) == Emitted(w);
  }

  lemma {:induction false} RunLuaOwes(w: World, forks: bool, body: Calls, fails: bool)
    ensures Owes(w, RunLua(w, forks, body, fails).0, AskOne(w.hosts, ExecLua(forks, body, fails)))
    ensures RunLua(w, forks, body, fails).1 != Err(NoHost) ==>
              RunLua(w, forks, body, fails).0.freed
              == w.freed + w.queue + AskOne(w.hosts, ExecLua(forks, body, fails)).1
    decreases body, 1
  {
    var h := GrowLua(w.hosts, forks);
    RunLuaIs(w, forks, body, fails);
    GrowSame(w.hosts, forks);
    hide *;
    if h.luaDepth >= h.luaPool {
      NothingOwed(w, h);
    } else {
      var before := w.(hosts := h.(luaDepth := h.luaDepth + 1));
      RunAllOwes(before, body);
      AskKeepsDepths(before.hosts, body);
      LuaFrameOwes(w, h, RunAll(before, body), Ask(before.hosts, body));
    }
  }

  lemma GrowSame(h: Hosts, forks: bool)
    ensures SameDepths(h, GrowLua(h, forks)) && SameDepths(h, GrowCommand(h, forks))
    ensures GrowCommand(h, forks).luaPool == h.luaPool
  {
  }

  lemma RunLuaIs(w: World, forks: bool, body: Calls, fails: bool)
    ensures var h := GrowLua(w.hosts, forks);
            var (t, r) := RunLua(w, forks, body, fails);
            var asked := AskOne(w.hosts, ExecLua(forks, body, fails));
            if h.luaDepth >= h.luaPool then t == w.(hosts := h) && r == Err(NoHost) && asked == (h, [])
            else
              var g := h.(luaDepth := h.luaDepth + 1);
              && t == Drained(RunAll(w.(hosts := g), body)) && r != Err(NoHost)
              && asked == (LeaveLua(Ask(g, body).0), Ask(g, body).1)
  {
    hide RunAll;
    hide Ask;
  }

  lemma CommandFrameOwes(w: World, h: Hosts, inside: World, asked: (Hosts, seq<nat>))
    requires SameDepths(w.hosts, h) && h.luaPool == w.hosts.luaPool
    requires Owes(w.(hosts := h.(commandDepth := h.commandDepth + 1)), inside, asked)
    requires SameDepths(h.(commandDepth := h.commandDepth + 1), asked.0)
    ensures Owes(w, inside.(hosts := LeaveCommand(inside.hosts)), (LeaveCommand(asked.0), asked.1))
  {
    assert Emitted(w.(hosts := h.(commandDepth := h.commandDepth + 1))) == Emitted(w);
  }

  lemma {:induction false} RunCommandOwes(w: World, forks: bool, body: Calls, fails: bool)
    ensures Owes(w, RunCommand(w, forks, body, fails).0, AskOne(w.hosts, ExecCommand(forks, body, fails)))
    decreases body, 1
  {
    var h := GrowCommand(w.hosts, forks);
    RunCommandIs(w, forks, body, fails);
    GrowSame(w.hosts, forks);
    hide *;
    if h.commandDepth >= h.commandPool {
      NothingOwed(w, h);
    } else {
      var before := w.(hosts := h.(commandDepth := h.commandDepth + 1));
      RunAllOwes(before, body);
      AskKeepsDepths(before.hosts, body);
      CommandFrameOwes(w, h, RunAll(before, body), Ask(before.hosts, body));
    }
  }

  lemma RunCommandIs(w: World, forks: bool, body: Calls, fails: bool)
    ensures var h := GrowCommand(w.hosts, forks);
            var (t, r) := RunCommand(w, forks, body, fails);
            var asked := AskOne(w.hosts, ExecCommand(forks, body, fails));
            if h.commandDepth >= h.commandPool then t == w.(hosts := h) && r == Err(NoHost) && asked == (h, [])
            else
              var g := h.(commandDepth := h.commandDepth + 1);
              var inside := RunAll(w.(hosts := g), body);
              && t == inside.(hosts := LeaveCommand(inside.hosts)) && r != Err(NoHost)
              && asked == (LeaveCommand(Ask(g, body).0), Ask(g, body).1)
  {
    hide RunAll;
    hide Ask;
  }

  /** Over every interleaving of frames of both pools, at any depth: each release that the
      tree asks for is made exactly once or is queued, and in the order asked for unless
      releases were waiting at depth zero for a host that is there now. */
  lemma {:induction false} RunAllOwes(w: World, calls: Calls)
    ensures Owes(w, RunAll(w, calls), Ask(w.hosts, calls))
    decreases calls, 0
  {
    match calls
    case Done => assert Emitted(w) + [] == Emitted(w);
    case Then(call, rest) =>
      var t := RunOne(w, call);
      RunOneOwes(w, call);
      AskOneKeepsDepths(w.hosts, call);
      RunAllOwes(t, rest);
      hide *;
      AskThen(w.hosts, call, rest);
      OwesTrans(w, t, RunAll(t, rest), AskOne(w.hosts, call), Ask(t.hosts, rest));
      RunThen(w, call, rest);
  }

  lemma AskThen(h: Hosts, call: Call, rest: Calls)
    ensures var (t, asked) := AskOne(h, call);
            Ask(h, Then(call, rest)) == (Ask(t, rest).0, asked + Ask(t, rest).1)
  {
  }

  lemma RunThen(w: World, call: Call, rest: Calls)
    ensures RunAll(w, Then(call, rest)) == RunAll(RunOne(w, call), rest)
  {
  }

  lemma {:induction false} RunOneOwes(w: World, call: Call)
    ensures Owes(w, RunOne(w, call), AskOne(w.hosts, call))
    decreases call, 0
  {
    match call
    case Release(reference) => ReleaseAllOwes(w, w.hosts, [reference]);
    case SetDecorationProvider(namespace, opts) =>
      var change := Change(w.hosts, namespace, opts);
      ReleaseAllOwes(w, Install(w.hosts, namespace, change.provider), change.released);
    case ExecLua(forks, body, fails) => RunLuaOwes(w, forks, body, fails);
    case ExecCommand(forks, body, fails) => RunCommandOwes(w, forks, body, fails);
  }

  /** Every tree's releases come out in the order asked for exactly if none waits outside
      frames although there is a host. */
  lemma InOrderIff(w: World)
    ensures (forall calls :: Emitted(RunAll(w, calls)) == Emitted(w) + Ask(w.hosts, calls).1) <==> NoneWaits(w)
  {
    if NoneWaits(w) {
      forall calls
        ensures Emitted(RunAll(w, calls)) == Emitted(w) + Ask(w.hosts, calls).1
      {
        RunAllOwes(w, calls);
      }
    } else {
      var r := w.queue[0] + 1;
      var calls := Then(Release(r), Done);
      assert RunAll(w, calls) == RunAll(RunOne(w, Release(r)), Done) == w.(freed := w.freed + [r]);
      AskThen(w.hosts, Release(r), Done);
      assert Ask(w.hosts, calls).1 == [r] + [] == [r];
      assert (w.freed + [r] + w.queue)[|w.freed|] == r && (w.freed + w.queue + [r])[|w.freed|] == w.queue[0];
    }
  }

  // ----- what a frame answers

  /** What waits at the end of a Lua frame's body, if `waiting` did before: every nested Lua
      frame that found a host takes all that waits with it. */
  function Waiting(h: Hosts, waiting: seq<nat>, calls: Calls): seq<nat>
    decreases calls, 0
  {
    match calls
    case Done => waiting
    case Then(call, rest) => Waiting(AskOne(h, call).0, WaitingOne(h, waiting, call), rest)
  }

  function WaitingOne(h: Hosts, waiting: seq<nat>, call: Call): seq<nat>
    decreases call, 0
  {
    match call
    case ExecLua(forks, body, _) =>
      var g := GrowLua(h, forks); if g.luaDepth >= g.luaPool then waiting else []
    case ExecCommand(forks, body, _) =>
      var g := GrowCommand(h, forks);
      if g.commandDepth >= g.commandPool then waiting
      else Waiting(g.(commandDepth := g.commandDepth + 1), waiting, body)
    case _ => waiting + AskOne(h, call).1
  }

  lemma {:induction false} RunOneWaits(w: World, call: Call)
    requires w.hosts.luaDepth > 0
    ensures RunOne(w, call).queue == WaitingOne(w.hosts, w.queue, call)
    decreases call, 0
  {
    match call
    case ExecCommand(forks, body, fails) =>
      var h := GrowCommand(w.hosts, forks);
      if h.commandDepth < h.commandPool {
        RunAllWaits(w.(hosts := h.(commandDepth := h.commandDepth + 1)), body);
      }
    case _ =>
  }

  lemma {:induction false} RunAllWaits(w: World, calls: Calls)
    requires w.hosts.luaDepth > 0
    ensures RunAll(w, calls).queue == Waiting(w.hosts, w.queue, calls)
    decreases calls, 0
  {
    match calls
    case Done =>
    case Then(call, rest) =>
      RunOneWaits(w, call);
      RunOneOwes(w, call);
      AskOneKeepsDepths(w.hosts, call);
      RunAllWaits(RunOne(w, call), rest);
  }

  /** What one Lua frame answers, and what it leaves. With no slot nothing runs. With one, the
      queue is empty afterwards and everything asked for has been made; the operation's own
      error comes first, and without one the frame fails exactly if a release that was still
      waiting when the body ended was refused. */
  lemma LuaFrame(w: World, forks: bool, body: Calls, fails: bool)
    ensures var (t, r) := RunLua(w, forks, body, fails);
            var (h, asked) := AskOne(w.hosts, ExecLua(forks, body, fails));
            var g := GrowLua(w.hosts, forks);
            && t.hosts == h && SameDepths(w.hosts, h)
            && (r == Err(NoHost) <==> g.luaDepth >= g.luaPool)
            && (r == Err(NoHost) ==> asked == [] && t.freed == w.freed && t.queue == w.queue)
            && (r != Err(NoHost) ==> t.queue == [] && t.freed == w.freed + w.queue + asked)
            && (r == Err(OperationFailed) <==> r != Err(NoHost) && fails)
            && (r == Err(ReleaseFailed) <==>
                  && r != Err(NoHost) && !fails
                  && Refused(Waiting(g.(luaDepth := g.luaDepth + 1), w.queue, body), w.refuses))
  {
    RunLuaOwes(w, forks, body, fails);
    AskOneKeepsDepths(w.hosts, ExecLua(forks, body, fails));
    var g := GrowLua(w.hosts, forks);
    RunAllWaits(w.(hosts := g.(luaDepth := g.luaDepth + 1)), body);
    RunLuaIs(w, forks, body, fails);
    hide RunAll;
    hide Ask;
    hide Waiting;
  }

  /** A pool has a host for a depth if it is as large as that, or can fork one more. */
  predicate HasHost(pool: nat, depth: nat, forks: bool) {
    depth < pool || (forks && pool > 0)
  }

  /** Which frames find a host, and what an Ex-command frame answers. */
  lemma FramesAnswer(w: World, forks: bool, body: Calls, fails: bool)
    requires w.hosts.luaDepth <= w.hosts.luaPool && w.hosts.commandDepth <= w.hosts.commandPool
    ensures RunLua(w, forks, body, fails).1 == Err(NoHost) <==> !HasHost(w.hosts.luaPool, w.hosts.luaDepth, forks)
    ensures RunCommand(w, forks, body, fails).1
         == if !HasHost(w.hosts.commandPool, w.hosts.commandDepth, forks) then Err(NoHost)
            else if fails then Err(OperationFailed)
            else Ok(())
    ensures !HasHost(w.hosts.luaPool, w.hosts.luaDepth, forks) ==> RunLua(w, forks, body, fails).0 == w
    ensures !HasHost(w.hosts.commandPool, w.hosts.commandDepth, forks) ==> RunCommand(w, forks, body, fails).0 == w
  {
    hide RunAll;
    hide Refused;
  }

  /** A provider call changes the provider of its namespace only, as `Providers.SetProviderExact`
      says, and what it releases is made or queued in order. */
  lemma ProviderCall(w: World, namespace: nat, opts: Providers.Opts)
    ensures var t := SetProvider(w, namespace, opts);
            var was := if namespace in w.hosts.providers then Some(w.hosts.providers[namespace]) else None;
            var change := Providers.SetProvider(was, namespace in w.hosts.namespaces, opts);
            && (forall n :: n != namespace ==> (n in t.hosts.providers <==> n in w.hosts.providers))
            && (forall n :: n != namespace && n in w.hosts.providers ==> t.hosts.providers[n] == w.hosts.providers[n])
            && (namespace in t.hosts.providers <==> change.provider.Some?)
            && (change.provider.Some? ==> t.hosts.providers[namespace] == change.provider.value)
            && (if w.hosts.luaDepth == 0 && w.hosts.luaPool > 0 then
                  t.freed == w.freed + change.released && t.queue == w.queue
                else t.freed == w.freed && t.queue == w.queue + change.released)
  {
    hide Providers.Parse;
    hide Providers.Ids;
    hide Providers.Incoming;
    hide Providers.References;
  }
}
