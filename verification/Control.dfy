/** The site's control machine, and the session loop that executes its actions. */
module ControlSpec {
  import opened Basics

  datatype State = Disconnected | RequestingExitNodes | Registering | Connected | Stopped

  /** Exit nodes and tunnel configurations are opaque. */
  datatype Event =
    | WsConnected
    | ExitNodes(nodes: seq<nat>)
    | WgConnect(config: nat)
    | Reconnect
    | Terminate
    | Tick(elapsed: nat)

  datatype Message = PingRequest | Register(results: seq<nat>)

  datatype Action = Send(m: Message) | BringUp(config: nat) | Teardown | Stop

  const PING_RESEND_MS: nat := 3000
  const REGISTER_RESEND_MS: nat := 2000

  datatype Machine = Machine(state: State, resendDueMs: nat)

  const NEW_MACHINE := Machine(Disconnected, 0)

  function Step(m: Machine, ev: Event): (r: (Machine, seq<Action>)) {
    match ev
    case WsConnected => (Machine(RequestingExitNodes, PING_RESEND_MS), [Send(PingRequest)])
    case ExitNodes(nodes) =>
      if m.state != RequestingExitNodes || nodes == [] then (m, [])
      else (Machine(Registering, REGISTER_RESEND_MS), [Send(Register([nodes[0]]))])
    case WgConnect(config) =>
      (Machine(Connected, 0), (if m.state == Connected then [Teardown] else []) + [BringUp(config)])
    case Reconnect =>
      (Machine(RequestingExitNodes, PING_RESEND_MS), (if m.state == Connected then [Teardown] else []) + [Send(PingRequest)])
    case Terminate => (m.(state := Stopped), [Teardown, Stop])
    case Tick(elapsed) =>
      if m.resendDueMs == 0 then (m, [])
      else if elapsed < m.resendDueMs then (m.(resendDueMs := m.resendDueMs - elapsed), [])
      else
        match m.state
        case RequestingExitNodes => (m.(resendDueMs := PING_RESEND_MS), [Send(PingRequest)])
        case Registering => (m.(resendDueMs := REGISTER_RESEND_MS), [Send(Register([]))])
        case _ => (m, [])
  }

  // Executing actions. Sending and bringing up can fail, which ends the session.

  datatype Session = Session(machine: Machine, plane: Option<nat>, alive: bool)

  /** Does the outside world let this action succeed? */
  datatype Fate = Fate(ok: bool)

  function Exec(s: Session, act: Action, fate: Fate): (s': Session) {
    match act
    case Send(_) => s.(alive := fate.ok)
    case BringUp(config) => if fate.ok then s.(plane := Some(config)) else s.(alive := false)
    case Teardown => s.(plane := None)
    case Stop => s.(alive := false)
  }

  function ExecAll(s: Session, acts: seq<Action>, fates: nat -> Fate): (s': Session)
    decreases |acts|
  {
    if acts == [] || !s.alive then s
    else ExecAll(Exec(s, acts[0], fates(|acts|)), acts[1..], fates)
  }

  /** A BringUp that would replace a plane that is still up. */
  predicate Clobbers(s: Session, acts: seq<Action>, fates: nat -> Fate)
    decreases |acts|
  {
    acts != [] && s.alive
    && ((acts[0].BringUp? && s.plane.Some?) || Clobbers(Exec(s, acts[0], fates(|acts|)), acts[1..], fates))
  }

  function Handle(s: Session, ev: Event, fates: nat -> Fate): (s': Session) {
    if !s.alive then s
    else
      var (m, acts) := Step(s.machine, ev);
      ExecAll(s.(machine := m), acts, fates)
  }

  function Start(fates: nat -> Fate): (s: Session) {
    Handle(Session(NEW_MACHINE, None, true), WsConnected, fates)
  }

  datatype Happening = Happening(ev: Event, fates: nat -> Fate)

  function Run(s: Session, hs: seq<Happening>): (s': Session)
    decreases |hs|
  {
    if hs == [] then s else Run(Handle(s, hs[0].ev, hs[0].fates), hs[1..])
  }

  function Period(st: State): (p: nat) {
    if st == RequestingExitNodes then PING_RESEND_MS else if st == Registering then REGISTER_RESEND_MS else 0
  }

  /** While the session lives: the data plane is up exactly in the connected state, and a resend is due
      within one period exactly in the two waiting states. */
  predicate Inv(s: Session) {
    s.alive ==>
      && s.machine.state != Disconnected && s.machine.state != Stopped
      && (s.plane.Some? <==> s.machine.state == Connected)
      && s.machine.resendDueMs <= Period(s.machine.state)
      && (s.machine.resendDueMs > 0 <==> s.machine.state == RequestingExitNodes || s.machine.state == Registering)
  }

  lemma TwoActions(s: Session, a: Action, b: Action, fates: nat -> Fate)
    requires s.alive
    ensures ExecAll(s, [a, b], fates) == var s1 := Exec(s, a, fates(2)); if s1.alive then Exec(s1, b, fates(1)) else s1
    ensures Clobbers(s, [a, b], fates) <==>
              (a.BringUp? && s.plane.Some?) || (Exec(s, a, fates(2)).alive && b.BringUp? && Exec(s, a, fates(2)).plane.Some?)
  {
    var s1 := Exec(s, a, fates(2));
    assert [a, b][1..] == [b] && [b][1..] == [];
    assert s1.alive ==> ExecAll(s1, [b], fates) == ExecAll(Exec(s1, b, fates(1)), [], fates);
    assert Clobbers(s1, [b], fates) <==>
             s1.alive && ((b.BringUp? && s1.plane.Some?) || Clobbers(Exec(s1, b, fates(1)), [], fates));
  }

  lemma OneAction(s: Session, a: Action, fates: nat -> Fate)
    requires s.alive
    ensures ExecAll(s, [a], fates) == Exec(s, a, fates(1))
    ensures Clobbers(s, [a], fates) <==> a.BringUp? && s.plane.Some?
  {
    assert [a][1..] == [];
  }

  /** Every event the session loop feeds to the machine keeps this, and no plane is ever replaced live. */
  lemma HandleKeepsInv(s: Session, ev: Event, fates: nat -> Fate)
    requires Inv(s) && !ev.WsConnected?
    ensures Inv(Handle(s, ev, fates))
    ensures s.alive ==> !Clobbers(s.(machine := Step(s.machine, ev).0), Step(s.machine, ev).1, fates)
  {
    if s.alive {
      hide ExecAll, Clobbers;
      var (m, acts) := Step(s.machine, ev);
      var s1 := s.(machine := m);
      NoActions(s1, fates);
      if |acts| == 1 {
        assert acts == [acts[0]];
        OneAction(s1, acts[0], fates);
      } else if |acts| == 2 {
        assert acts == [acts[0], acts[1]];
        TwoActions(s1, acts[0], acts[1], fates);
      }
    }
  }

  lemma NoActions(s: Session, fates: nat -> Fate)
    ensures ExecAll(s, [], fates) == s && !Clobbers(s, [], fates)
  {}

  lemma {:induction false} RunKeepsInv(s: Session, hs: seq<Happening>)
    requires Inv(s) && forall k :: 0 <= k < |hs| ==> !hs[k].ev.WsConnected?
    ensures Inv(Run(s, hs))
    decreases |hs|
  {
    if hs != [] {
      hide Inv, Handle;
      HandleKeepsInv(s, hs[0].ev, hs[0].fates);
      RunKeepsInv(Handle(s, hs[0].ev, hs[0].fates), hs[1..]);
    }
  }

  /** Over every run of a session, which starts with one WsConnected: the data plane exists exactly when
      the state is Connected, and whatever comes next does not replace a live plane. */
  lemma {:induction false} PlaneMatchesState(fates: nat -> Fate, hs: seq<Happening>, next: Happening)
    requires forall k :: 0 <= k < |hs| ==> !hs[k].ev.WsConnected?
    requires !next.ev.WsConnected?
    ensures var s := Run(Start(fates), hs);
            s.alive ==>
              && (s.plane.Some? <==> s.machine.state == Connected)
              && (s.machine.state in {RequestingExitNodes, Registering} ==> s.machine.resendDueMs > 0)
              && !Clobbers(s.(machine := Step(s.machine, next.ev).0), Step(s.machine, next.ev).1, next.fates)
  {
    OneAction(Session(Machine(RequestingExitNodes, PING_RESEND_MS), None, true), Send(PingRequest), fates);
    assert Inv(Start(fates));
    RunKeepsInv(Start(fates), hs);
    HandleKeepsInv(Run(Start(fates), hs), next.ev, next.fates);
  }

  // Resends within one phase.

  /** Events that leave a waiting phase as it is, apart from its clock. */
  predicate Waits(st: State, ev: Event) {
    ev.Tick? || (ev.ExitNodes? && (st == Registering || ev.nodes == []))
  }

  function Elapsed(evs: seq<Event>): (ms: nat)
    decreases |evs|
  {
    if evs == [] then 0 else (if evs[0].Tick? then evs[0].elapsed else 0) + Elapsed(evs[1..])
  }

  function Resends(m: Machine, evs: seq<Event>): (n: nat)
    decreases |evs|
  {
    if evs == [] then 0 else (if Step(m, evs[0]).1 != [] then 1 else 0) + Resends(Step(m, evs[0]).0, evs[1..])
  }

  lemma {:induction false} ResendsPaced(m: Machine, evs: seq<Event>)
    requires m.state == RequestingExitNodes || m.state == Registering
    requires 0 < m.resendDueMs <= Period(m.state)
    requires forall k :: 0 <= k < |evs| ==> Waits(m.state, evs[k])
    ensures Resends(m, evs) * Period(m.state) <= Elapsed(evs) + (Period(m.state) - m.resendDueMs)
    decreases |evs|
  {
    if evs != [] {
      var m' := Step(m, evs[0]).0;
      assert m'.state == m.state;
      ResendsPaced(m', evs[1..]);
    }
  }

  /** In a phase that has lasted t milliseconds of ticks, at most t / period messages are sent again. */
  lemma ResendsBounded(m: Machine, evs: seq<Event>)
    requires m.state == RequestingExitNodes || m.state == Registering
    requires m.resendDueMs == Period(m.state)
    requires forall k :: 0 <= k < |evs| ==> Waits(m.state, evs[k])
    ensures Resends(m, evs) <= Elapsed(evs) / Period(m.state)
  {
    ResendsPaced(m, evs);
  }

  /** The message a waiting phase repeats. */
  function Repeated(st: State): (m: Message) {
    if st == RequestingExitNodes then PingRequest else Register([])
  }

  /** A tick that completes the wait sends the phase's message, once, and starts a whole period. */
  lemma DueTickSends(m: Machine, elapsed: nat)
    requires m.state == RequestingExitNodes || m.state == Registering
    requires m.resendDueMs > 0
    ensures Step(m, Tick(elapsed)) ==
              if elapsed >= m.resendDueMs
              then (Machine(m.state, if m.state == Registering then 2000 else 3000), [Send(Repeated(m.state))])
              else (Machine(m.state, m.resendDueMs - elapsed), [])
  {}

  /** The wait is never much longer than the period: with ticks of at most d milliseconds a phase that has
      lasted t milliseconds has repeated its message more often than t / (period + d) - 1. */
  lemma {:induction false} ResendsKeepUp(m: Machine, evs: seq<Event>, d: nat)
    requires m.state == RequestingExitNodes || m.state == Registering
    requires 0 < m.resendDueMs <= Period(m.state)
    requires forall k :: 0 <= k < |evs| ==> Waits(m.state, evs[k]) && (evs[k].Tick? ==> evs[k].elapsed <= d)
    ensures Elapsed(evs) + (Period(m.state) - m.resendDueMs) < (Resends(m, evs) + 1) * (Period(m.state) + d)
    decreases |evs|
  {
    if evs != [] {
      var m' := Step(m, evs[0]).0;
      assert m'.state == m.state;
      ResendsKeepUp(m', evs[1..], d);
      var n, p := Resends(m', evs[1..]), Period(m.state) + d;
      assert (n + 1 + 1) * p == (n + 1) * p + p;
    }
  }

  function Ticks(n: nat): (evs: seq<Event>)
    ensures |evs| == n && forall k :: 0 <= k < n ==> evs[k] == Tick(1000)
  {
    seq(n, _ => Tick(1000))
  }

  /** With the loop's ticks of one second the message goes out again exactly once per period. */
  lemma {:induction false} ResendsEverySecond(m: Machine, n: nat)
    requires m.state == RequestingExitNodes || m.state == Registering
    requires 0 < m.resendDueMs <= Period(m.state) && m.resendDueMs % 1000 == 0
    ensures Resends(m, Ticks(n)) == (1000 * n + Period(m.state) - m.resendDueMs) / Period(m.state)
    decreases n
  {
    hide Step, Period;
    ThePeriods();
    var p := Period(m.state);
    if n == 0 {
      WithinPeriod(p - m.resendDueMs, p);
    } else {
      DueTickSends(m, 1000);
      var m' := Step(m, Tick(1000)).0;
      assert Ticks(n)[1..] == Ticks(n - 1);
      ResendsEverySecond(m', n - 1);
      OneMorePeriod(1000 * (n - 1), p);
    }
  }

  lemma ThePeriods()
    ensures Period(RequestingExitNodes) == 3000 && Period(Registering) == 2000
  {}

  lemma WithinPeriod(x: nat, p: nat)
    requires x < p
    ensures x / p == 0
  {}

  lemma OneMorePeriod(x: nat, p: nat)
    requires p == 3000 || p == 2000
    ensures x / p + 1 == (x + p) / p
  {
    if p == 3000 { assert x / 3000 + 1 == (x + 3000) / 3000; } else { assert x / 2000 + 1 == (x + 2000) / 2000; }
  }

  // What a session says over its life.

  function Said(acts: seq<Action>): (ms: seq<Message>)
    decreases |acts|
  {
    if acts == [] then [] else (if acts[0].Send? then [acts[0].m] else []) + Said(acts[1..])
  }

  function Messages(m: Machine, evs: seq<Event>): (ms: seq<Message>)
    decreases |evs|
  {
    if evs == [] then [] else Said(Step(m, evs[0]).1) + Messages(Step(m, evs[0]).0, evs[1..])
  }

  function After(m: Machine, evs: seq<Event>): (m': Machine)
    decreases |evs|
  {
    if evs == [] then m else After(Step(m, evs[0]).0, evs[1..])
  }

  function Times(n: nat, x: Message): (ms: seq<Message>)
    ensures |ms| == n && forall k :: 0 <= k < n ==> ms[k] == x
  {
    seq(n, _ => x)
  }

  lemma {:induction false} MessagesJoin(m: Machine, evs: seq<Event>, more: seq<Event>)
    ensures Messages(m, evs + more) == Messages(m, evs) + Messages(After(m, evs), more)
    ensures After(m, evs + more) == After(After(m, evs), more)
    decreases |evs|
  {
    if evs == [] {
      assert evs + more == more;
    } else {
      assert (evs + more)[1..] == evs[1..] + more;
      MessagesJoin(Step(m, evs[0]).0, evs[1..], more);
    }
  }

  lemma OneSaid(x: Message)
    ensures Said([Send(x)]) == [x] && Said([]) == []
  {
    assert [Send(x)][1..] == [];
  }

  /** While a phase waits it says its own message and nothing else. */
  lemma {:induction false} PhaseSays(m: Machine, evs: seq<Event>)
    requires m.state == RequestingExitNodes || m.state == Registering
    requires m.resendDueMs > 0 && forall k :: 0 <= k < |evs| ==> Waits(m.state, evs[k])
    ensures Messages(m, evs) == Times(Resends(m, evs), Repeated(m.state))
    ensures After(m, evs).state == m.state && After(m, evs).resendDueMs > 0
    decreases |evs|
  {
    if evs != [] {
      var (m', acts) := Step(m, evs[0]);
      OneSaid(Repeated(m.state));
      PhaseSays(m', evs[1..]);
    }
  }

  lemma FirstStep(m: Machine, ev: Event)
    ensures Messages(m, [ev]) == Said(Step(m, ev).1) && After(m, [ev]) == Step(m, ev).0
  {
    assert [ev][1..] == [];
  }

  /** From the connection to the tunnel, whatever waiting lies between: exit nodes are asked for until some
      are named, then the first of them is registered with until the server connects the tunnel. */
  lemma WayToConnected(before: seq<Event>, nodes: seq<nat>, between: seq<Event>, config: nat)
    requires nodes != []
    requires forall k :: 0 <= k < |before| ==> Waits(RequestingExitNodes, before[k])
    requires forall k :: 0 <= k < |between| ==> Waits(Registering, between[k])
    ensures var evs := [WsConnected] + before + [ExitNodes(nodes)] + between;
            var asking, registering := Machine(RequestingExitNodes, 3000), Machine(Registering, 2000);
            && Messages(NEW_MACHINE, evs) == [PingRequest] + Times(Resends(asking, before), PingRequest)
                                             + [Register([nodes[0]])] + Times(Resends(registering, between), Register([]))
            && Step(After(NEW_MACHINE, evs), WgConnect(config)) == (Machine(Connected, 0), [BringUp(config)])
  {
    hide Step, Messages, After, Said, Resends;
    var asking, registering := Machine(RequestingExitNodes, 3000), Machine(Registering, 2000);
    FirstStep(NEW_MACHINE, WsConnected);
    PhaseSays(asking, before);
    PhaseSays(registering, between);
    var m := After(asking, before);
    FirstStep(m, ExitNodes(nodes));
    Turns(m, nodes);
    OneSaid(PingRequest);
    OneSaid(Register([nodes[0]]));
    var one, two, three := [WsConnected] + before, [WsConnected] + before + [ExitNodes(nodes)], After(registering, between);
    MessagesJoin(NEW_MACHINE, [WsConnected], before);
    MessagesJoin(NEW_MACHINE, one, [ExitNodes(nodes)]);
    MessagesJoin(NEW_MACHINE, two, between);
    Brings(three, config);
  }

  lemma Turns(m: Machine, nodes: seq<nat>)
    requires m.state == RequestingExitNodes && nodes != []
    ensures Step(m, ExitNodes(nodes)) == (Machine(Registering, 2000), [Send(Register([nodes[0]]))])
    ensures Step(NEW_MACHINE, WsConnected) == (Machine(RequestingExitNodes, 3000), [Send(PingRequest)])
  {}

  lemma Brings(m: Machine, config: nat)
    requires m.state != Connected
    ensures Step(m, WgConnect(config)) == (Machine(Connected, 0), [BringUp(config)])
  {
    assert [] + [BringUp(config)] == [BringUp(config)];
  }

  /** A new configuration of a connected tunnel takes the old one down first, and so does a reconnection,
      which then starts over. */
  lemma ConnectedGivesWay(m: Machine, config: nat)
    requires m.state == Connected
    ensures Step(m, WgConnect(config)) == (Machine(Connected, 0), [Teardown, BringUp(config)])
    ensures Step(m, Reconnect) == (Machine(RequestingExitNodes, 3000), [Teardown, Send(PingRequest)])
  {
    assert [Teardown] + [BringUp(config)] == [Teardown, BringUp(config)];
    assert [Teardown] + [Send(PingRequest)] == [Teardown, Send(PingRequest)];
  }
}

module Control {
  import opened Basics
  import opened ControlSpec

  class Sm {
    var state: State
    var resendDueMs: nat

    ghost function M(): (m: Machine)
      reads this
    {
      Machine(state, resendDueMs)
    }

    constructor ()
      ensures M() == NEW_MACHINE
    {
      state, resendDueMs := Disconnected, 0;
    }

    method StepImpl(ev: Event) returns (out: seq<Action>)
      modifies this
      ensures (M(), out) == Step(old(M()), ev)
    {
      out := [];
      match ev {
        case WsConnected =>
          state := RequestingExitNodes;
          resendDueMs := PING_RESEND_MS;
          out := out + [Send(PingRequest)];
        case ExitNodes(nodes) =>
          if state != RequestingExitNodes { return; }
          if nodes == [] { return; }
          state := Registering;
          resendDueMs := REGISTER_RESEND_MS;
          out := out + [Send(Register([nodes[0]]))];
        case WgConnect(config) =>
          if state == Connected { out := out + [Teardown]; }
          state := Connected;
          resendDueMs := 0;
          out := out + [BringUp(config)];
        case Reconnect =>
          if state == Connected { out := out + [Teardown]; }
          state := RequestingExitNodes;
          resendDueMs := PING_RESEND_MS;
          out := out + [Send(PingRequest)];
        case Terminate =>
          out := out + [Teardown];
          out := out + [Stop];
          state := Stopped;
        case Tick(elapsed) =>
          if resendDueMs == 0 { return; }
          if elapsed >= resendDueMs {
            match state {
              case RequestingExitNodes =>
                resendDueMs := PING_RESEND_MS;
                out := out + [Send(PingRequest)];
              case Registering =>
                resendDueMs := REGISTER_RESEND_MS;
                out := out + [Send(Register([]))];
              case _ =>
            }
          } else {
            resendDueMs := resendDueMs - elapsed;
          }
      }
      assert out == Step(old(M()), ev).1;
    }
  }

  /** The session loop's part for one event: step the machine, then execute its actions in order and stop
      at the first that fails. */
  method HandleEvent(sm: Sm, plane: Option<nat>, ev: Event, fates: nat -> Fate) returns (plane': Option<nat>, alive: bool)
    modifies sm
    ensures Session(sm.M(), plane', alive) == Handle(old(Session(sm.M(), plane, true)), ev, fates)
  {
    var acts := sm.StepImpl(ev);
    plane', alive := plane, true;
    var i := 0;
    while i < |acts| && alive
      invariant 0 <= i <= |acts|
      invariant sm.M() == Step(old(sm.M()), ev).0
      invariant ExecAll(Session(sm.M(), plane', alive), acts[i..], fates) == ExecAll(Session(sm.M(), plane, true), acts, fates)
      decreases |acts| - i
    {
      assert acts[i..][1..] == acts[i + 1..];
      var ok := fates(|acts| - i).ok;
      match acts[i] {
        case Send(_) => alive := ok;
        case BringUp(config) => if ok { plane' := Some(config); } else { alive := false; }
        case Teardown => plane' := None;
        case Stop => alive := false;
      }
      i := i + 1;
    }
  }
}
