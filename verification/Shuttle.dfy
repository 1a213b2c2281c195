/**
  The byte bridge between one tunnel socket and its target: two bounded channels to a worker
  that owns the target connection, one leftover chunk, and a socket that takes and gives as
  much as it likes. Every operation on a channel is one step, so the steps of the packet loop
  and of the target's worker interleave in any order.
*/
module Bridges {
  import opened Basics

  type Bytes = seq<byte>

  const CHANNEL: nat := 16

  /**
    toTarget and fromTarget are the channels; permit is a place reserved in toTarget; alive says
    that the target's worker still runs, and holding is a chunk it has read and not yet queued.
    The last five fields are history: what arrived from the peer, what the worker wrote to the
    target, what was lost when it ended, what it read, and what the socket took.
  */
  datatype Bridge = Bridge(toTarget: seq<Bytes>, permit: bool, fromTarget: seq<Bytes>, alive: bool, holding: Bytes,
                           pending: Bytes, targetDone: bool, rx: Bytes, open: bool, fin: bool,
                           arrived: Bytes, written: Bytes, lost: Bytes, read: Bytes, handed: Bytes)

  function NewBridge(): (r: Bridge) {
    Bridge([], false, [], true, [], [], false, [], true, false, [], [], [], [], [])
  }

  datatype Step =
    // the packet loop
    | Reserve | Release | Hand(n: nat) | Pull | Flush(n: nat) | Close(stillOpen: bool)
    // the target's worker
    | Read(chunk: Bytes) | Queue | Write | WriteFails(n: nat) | End
    // the tunnel socket
    | Arrive(chunk: Bytes) | SocketCloses

  predicate LoopStep(st: Step) {
    st.Reserve? || st.Release? || st.Hand? || st.Pull? || st.Flush? || st.Close?
  }

  predicate Enabled(b: Bridge, st: Step) {
    match st
    case Reserve => !b.permit && b.alive && |b.toTarget| < CHANNEL
    case Release => b.permit
    case Hand(n) => b.permit && 0 < n <= |b.rx|
    case Pull => b.pending == []
    case Flush(n) => b.open && !b.fin && n <= |b.pending|
    case Close(_) => b.targetDone && b.pending == [] && b.open
    case Read(chunk) => b.alive && b.holding == [] && chunk != []
    case Queue => b.alive && b.holding != [] && |b.fromTarget| < CHANNEL
    case Write => b.alive && b.holding == [] && b.toTarget != []
    case WriteFails(n) => b.alive && b.holding == [] && b.toTarget != [] && n <= |b.toTarget[0]|
    case End => b.alive && b.holding == []
    case Arrive(_) => b.open
    case SocketCloses => b.open
  }

  function Do(b: Bridge, st: Step): (r: Bridge)
    requires Enabled(b, st)
  {
    match st
    case Reserve => b.(permit := true)
    case Release => b.(permit := false)
    case Hand(n) =>
      b.(permit := false, rx := b.rx[n..],
         toTarget := if b.alive then b.toTarget + [b.rx[..n]] else b.toTarget,
         lost := if b.alive then b.lost else b.lost + b.rx[..n])
    case Pull =>
      if b.fromTarget != [] then b.(pending := b.fromTarget[0], fromTarget := b.fromTarget[1..])
      else if !b.alive then b.(targetDone := true)
      else b
    case Flush(n) => b.(pending := b.pending[n..], handed := b.handed + b.pending[..n])
    case Close(stillOpen) => b.(fin := true, open := stillOpen)
    case Read(chunk) => b.(holding := chunk, read := b.read + chunk)
    case Queue => b.(fromTarget := b.fromTarget + [b.holding], holding := [])
    case Write => b.(toTarget := b.toTarget[1..], written := b.written + b.toTarget[0])
    case WriteFails(n) =>
      b.(toTarget := [], alive := false, written := b.written + b.toTarget[0][..n],
         lost := b.lost + b.toTarget[0][n..] + Flat(b.toTarget[1..]))
    case End => b.(toTarget := [], alive := false, lost := b.lost + Flat(b.toTarget))
    case Arrive(chunk) => b.(rx := b.rx + chunk, arrived := b.arrived + chunk)
    case SocketCloses => b.(open := false)
  }

  function Flat(chunks: seq<Bytes>): (bytes: Bytes) {
    if chunks == [] then [] else chunks[0] + Flat(chunks[1..])
  }

  lemma {:induction false} FlatPush(chunks: seq<Bytes>, c: Bytes)
    ensures Flat(chunks + [c]) == Flat(chunks) + c
  {
    if chunks == [] {
      assert [] + [c] == [c];
      assert [c][1..] == [];
    } else {
      FlatPush(chunks[1..], c);
      assert (chunks + [c])[1..] == chunks[1..] + [c];
    }
  }

  // Conservation.

  /** Towards the target: nothing is reordered or repeated, and nothing lost while its worker runs. */
  ghost predicate Upstream(b: Bridge) {
    && b.arrived == b.written + b.lost + Flat(b.toTarget) + b.rx
    && (if b.alive then b.lost == [] else b.toTarget == [])
    && |b.toTarget| + (if b.permit && b.alive then 1 else 0) <= CHANNEL
  }

  /** Towards the peer: every byte read is handed over, pending, queued or held, in that order. */
  ghost predicate Downstream(b: Bridge) {
    && b.read == b.handed + b.pending + Flat(b.fromTarget) + b.holding
    && |b.fromTarget| <= CHANNEL
    && [] !in b.fromTarget
    && (!b.alive ==> b.holding == [])
    && (b.targetDone ==> !b.alive && b.fromTarget == [] && b.pending == [])
    && (b.fin ==> b.targetDone)
  }

  ghost predicate Inv(b: Bridge) { Upstream(b) && Downstream(b) }

  lemma FlatPop(chunks: seq<Bytes>)
    ensures Flat([]) == []
    ensures chunks != [] ==> Flat(chunks) == chunks[0] + Flat(chunks[1..])
  {}

  // Moving the boundary between neighbouring parts of a stream.

  lemma Regroup(a: Bytes, b: Bytes, x: Bytes, c: Bytes)
    ensures a + b + (x + c) == a + (b + x) + c == (a + b) + x + c
  {}

  lemma Split(x: Bytes, n: nat)
    requires n <= |x|
    ensures x == x[..n] + x[n..]
  {}

  lemma NoneBetween(a: Bytes, c: Bytes)
    ensures a + [] + c == a + c && [] + c == c && a + [] == a
  {}

  lemma HandKeeps(b: Bridge, n: nat)
    requires Upstream(b) && Enabled(b, Hand(n))
    ensures Upstream(Do(b, Hand(n)))
  {
    hide Flat;
    var x := b.rx[..n];
    Split(b.rx, n);
    FlatPush(b.toTarget, x);
    FlatPop([]);
    Regroup(b.written + b.lost, Flat(b.toTarget), x, b.rx[n..]);
    Regroup(b.written, b.lost, x, b.rx[n..]);
    NoneBetween(b.written + b.lost, b.rx);
    NoneBetween(b.written + (b.lost + x), b.rx[n..]);
  }

  lemma WriteKeeps(b: Bridge)
    requires Upstream(b) && Enabled(b, Write)
    ensures Upstream(Do(b, Write))
  {
    hide Flat;
    FlatPop(b.toTarget);
    Regroup([], b.written, b.toTarget[0], Flat(b.toTarget[1..]));
    NoneBetween(b.written, []);
    NoneBetween(b.written + b.toTarget[0], []);
    NoneBetween([], b.written + b.toTarget[0]);
  }

  lemma EndKeeps(b: Bridge, st: Step)
    requires Upstream(b) && Enabled(b, st) && (st.WriteFails? || st.End?)
    ensures Upstream(Do(b, st))
  {
    hide Flat;
    FlatPop(b.toTarget);
    NoneBetween(b.written, Flat(b.toTarget));
    if st.WriteFails? {
      Apart(b.written, b.toTarget[0], st.n, Flat(b.toTarget[1..]), b.rx);
    } else {
      assert b.written + [] + Flat(b.toTarget) + b.rx == b.written + ([] + Flat(b.toTarget)) + [] + b.rx;
    }
  }

  lemma Apart(a: Bytes, x: Bytes, n: nat, c: Bytes, d: Bytes)
    requires n <= |x|
    ensures a + [] + (x + c) + d == a + x[..n] + ([] + x[n..] + c) + [] + d
  {}

  lemma UpstreamKept(b: Bridge, st: Step)
    requires Upstream(b) && Enabled(b, st)
    ensures Upstream(Do(b, st))
  {
    hide Flat;
    match st
    case Hand(n) => HandKeeps(b, n);
    case Write => WriteKeeps(b);
    case WriteFails(_) => EndKeeps(b, st);
    case End => EndKeeps(b, st);
    case Arrive(chunk) => Regroup([], b.written + b.lost + Flat(b.toTarget), b.rx, chunk);
    case _ =>
  }

  lemma PullKeeps(b: Bridge)
    requires Downstream(b) && Enabled(b, Pull)
    ensures Downstream(Do(b, Pull))
  {
    hide Flat;
    if b.fromTarget != [] {
      var first, rest := b.fromTarget[0], b.fromTarget[1..];
      FlatPop(b.fromTarget);
      assert b.fromTarget == [first] + rest;
      PullRegroups(b.handed, first, Flat(rest), b.holding);
    }
  }

  lemma PullRegroups(a: Bytes, x: Bytes, c: Bytes, d: Bytes)
    ensures a + [] + (x + c) + d == a + x + c + d
  {}

  lemma FlushKeeps(b: Bridge, n: nat)
    requires Downstream(b) && Enabled(b, Flush(n))
    ensures Downstream(Do(b, Flush(n)))
  {
    hide Flat;
    Split(b.pending, n);
    Regroup([], b.handed, b.pending[..n], b.pending[n..]);
  }

  lemma QueueKeeps(b: Bridge)
    requires Downstream(b) && Enabled(b, Queue)
    ensures Downstream(Do(b, Queue))
  {
    hide Flat;
    FlatPush(b.fromTarget, b.holding);
    Regroup([], b.handed + b.pending, Flat(b.fromTarget), b.holding);
    NoneBetween(b.handed + b.pending + Flat(b.fromTarget + [b.holding]), []);
  }

  lemma DownstreamKept(b: Bridge, st: Step)
    requires Downstream(b) && Enabled(b, st)
    ensures Downstream(Do(b, st))
  {
    hide Flat;
    match st
    case Pull => PullKeeps(b);
    case Flush(n) => FlushKeeps(b, n);
    case Read(chunk) => NoneBetween(b.handed + b.pending + Flat(b.fromTarget), chunk);
    case Queue => QueueKeeps(b);
    case _ =>
  }

  // Runs.

  ghost predicate Legal(b: Bridge, sts: seq<Step>)
    decreases |sts|
  {
    sts == [] || (Enabled(b, sts[0]) && Legal(Do(b, sts[0]), sts[1..]))
  }

  ghost function Run(b: Bridge, sts: seq<Step>): (r: Bridge)
    requires Legal(b, sts)
    decreases |sts|
  {
    if sts == [] then b else Run(Do(b, sts[0]), sts[1..])
  }

  lemma {:induction false} RunKeepsInv(b: Bridge, sts: seq<Step>)
    requires Inv(b) && Legal(b, sts)
    ensures Inv(Run(b, sts))
    decreases |sts|
  {
    if sts != [] {
      UpstreamKept(b, sts[0]);
      DownstreamKept(b, sts[0]);
      RunKeepsInv(Do(b, sts[0]), sts[1..]);
    }
  }

  /**
    After any interleaving from a new bridge: both directions deliver a prefix of what was put
    in, the backlog is exactly the difference, and a FIN means that everything was handed over.
  */
  lemma NothingLostOrReordered(sts: seq<Step>)
    requires Legal(NewBridge(), sts)
    ensures var b := Run(NewBridge(), sts);
            && b.handed <= b.read && b.written <= b.arrived
            && b.read == b.handed + b.pending + Flat(b.fromTarget) + b.holding
            && (b.alive ==> b.arrived == b.written + Flat(b.toTarget) + b.rx)
            && (b.fin ==> b.handed == b.read && !b.alive)
            && |b.toTarget| <= CHANNEL && |b.fromTarget| <= CHANNEL
  {
    assert Inv(NewBridge());
    hide Flat, Legal, Run;
    RunKeepsInv(NewBridge(), sts);
    var b := Run(NewBridge(), sts);
    FlatPop([]);
    StartsWith(b.handed, b.pending, Flat(b.fromTarget), b.holding);
    StartsWith(b.written, b.lost, Flat(b.toTarget), b.rx);
    NoneBetween(b.written, Flat(b.toTarget));
    NoneBetween(b.handed, []);
  }

  lemma StartsWith(a: Bytes, b: Bytes, c: Bytes, d: Bytes)
    ensures a <= a + b + c + d
  {}

  /** Once the loop has closed the socket, no further byte is handed to it, whatever happens. */
  lemma {:induction false} SilentAfterFin(b: Bridge, sts: seq<Step>)
    requires Inv(b) && b.fin && Legal(b, sts)
    ensures Run(b, sts).fin && Run(b, sts).handed == b.handed == Run(b, sts).read
    decreases |sts|
  {
    if sts != [] {
      UpstreamKept(b, sts[0]);
      DownstreamKept(b, sts[0]);
      SilentAfterFin(Do(b, sts[0]), sts[1..]);
    }
  }

  // One pass of the packet loop over the bridge.

  /** What the socket does during a pass: how much of a backlog one read gives, its room, and whether closing leaves it open. */
  datatype Socket = Socket(offers: Bytes -> nat, room: nat, stillOpen: bool)

  function Least(a: nat, b: nat): (n: nat) { if a < b then a else b }

  /** Hand received bytes on while a place can be reserved and the socket gives something. */
  function ReceiveSide(b: Bridge, offers: Bytes -> nat): (r: Bridge)
    requires !b.permit
    decreases |b.rx|
  {
    if !b.alive || |b.toTarget| >= CHANNEL || b.rx == [] then b
    else
      var n := Least(offers(b.rx), |b.rx|);
      if n == 0 then b else ReceiveSide(Do(Do(b, Reserve), Hand(n)), offers)
  }

  function SendSide(b: Bridge, room: nat, stillOpen: bool): (r: Bridge) {
    var b := if b.pending == [] then Do(b, Pull) else b;
    var b := if b.pending != [] && b.open && !b.fin then Do(b, Flush(Least(room, |b.pending|))) else b;
    if b.targetDone && b.pending == [] && b.open then Do(b, Close(stillOpen)) else b
  }

  function Serve(b: Bridge, s: Socket): (r: Bridge)
    requires !b.permit
  {
    SendSide(ReceiveSide(b, s.offers), s.room, s.stillOpen)
  }

  /** A run of steps of the packet loop alone. */
  ghost predicate LoopRun(b: Bridge, sts: seq<Step>, b': Bridge) {
    Legal(b, sts) && Run(b, sts) == b' && forall st :: st in sts ==> LoopStep(st)
  }

  lemma OneStep(b: Bridge, st: Step)
    requires Enabled(b, st) && LoopStep(st)
    ensures LoopRun(b, [st], Do(b, st))
  {
    assert [st][1..] == [];
  }

  lemma {:induction false} Join(b: Bridge, sts: seq<Step>, b1: Bridge, sts1: seq<Step>, b2: Bridge)
    requires LoopRun(b, sts, b1) && LoopRun(b1, sts1, b2)
    ensures LoopRun(b, sts + sts1, b2)
    decreases |sts|
  {
    if sts == [] {
      assert sts + sts1 == sts1;
    } else {
      var rest := (sts + sts1)[1..];
      assert rest == sts[1..] + sts1;
      Join(Do(b, sts[0]), sts[1..], b1, sts1, b2);
      assert Legal(b, sts + sts1) && Run(b, sts + sts1) == b2;
    }
  }

  /** The receiving half is a run of loop steps; it stops for one of four reasons only. */
  lemma {:induction false} ReceiveSideRuns(b: Bridge, offers: Bytes -> nat) returns (sts: seq<Step>)
    requires !b.permit
    ensures var b' := ReceiveSide(b, offers);
            && LoopRun(b, sts, b') && b' == b.(toTarget := b'.toTarget, rx := b'.rx)
            && (!b'.alive || |b'.toTarget| >= CHANNEL || b'.rx == [] || offers(b'.rx) == 0)
    decreases |b.rx|
  {
    hide LoopRun;
    sts := [];
    assert LoopRun(b, [], b) by { Stay(b); }
    if b.alive && |b.toTarget| < CHANNEL && b.rx != [] {
      var n := Least(offers(b.rx), |b.rx|);
      if n != 0 {
        var b1 := Do(b, Reserve);
        var b2 := Do(b1, Hand(n));
        OneStep(b, Reserve);
        OneStep(b1, Hand(n));
        Join(b, [Reserve], b1, [Hand(n)], b2);
        var more := ReceiveSideRuns(b2, offers);
        sts := [Reserve] + [Hand(n)] + more;
        Join(b, [Reserve] + [Hand(n)], b2, more, ReceiveSide(b2, offers));
      }
    }
  }

  lemma Stay(b: Bridge)
    ensures LoopRun(b, [], b)
  {}

  lemma SendSideRuns(b: Bridge, room: nat, stillOpen: bool) returns (sts: seq<Step>)
    ensures LoopRun(b, sts, SendSide(b, room, stillOpen))
  {
    hide LoopRun;
    sts := [];
    Stay(b);
    var b1 := if b.pending == [] then Do(b, Pull) else b;
    if b.pending == [] { OneStep(b, Pull); sts := [Pull]; }
    var b2 := b1;
    if b1.pending != [] && b1.open && !b1.fin {
      var st := Flush(Least(room, |b1.pending|));
      b2 := Do(b1, st);
      OneStep(b1, st);
      Join(b, sts, b1, [st], b2);
      sts := sts + [st];
    }
    if b2.targetDone && b2.pending == [] && b2.open {
      var st := Close(stillOpen);
      OneStep(b2, st);
      Join(b, sts, b2, [st], Do(b2, st));
      sts := sts + [st];
    }
  }

  /** A whole pass is a run of the step machine, so everything proved of its runs holds of passes. */
  lemma ServeRuns(b: Bridge, s: Socket) returns (sts: seq<Step>)
    requires !b.permit && Inv(b)
    ensures LoopRun(b, sts, Serve(b, s)) && Inv(Serve(b, s)) && !Serve(b, s).permit
  {
    hide Inv;
    var r := ReceiveSideRuns(b, s.offers);
    var b1 := ReceiveSide(b, s.offers);
    var t := SendSideRuns(b1, s.room, s.stillOpen);
    sts := r + t;
    Join(b, r, b1, t, Serve(b, s));
    RunKeepsInv(b, sts);
  }

  // Progress.

  /** What the next pass has to hand over: the leftover, or the oldest queued chunk. */
  function NextUp(b: Bridge): (chunk: Bytes) {
    if b.pending != [] then b.pending else if b.fromTarget != [] then b.fromTarget[0] else []
  }

  lemma ReceiveLeaves(b: Bridge, offers: Bytes -> nat)
    requires !b.permit
    ensures var b' := ReceiveSide(b, offers); b' == b.(toTarget := b'.toTarget, rx := b'.rx)
  {
    var _ := ReceiveSideRuns(b, offers);
  }

  /** What one pass does towards the peer, whether or not the target still runs: an open socket that is not
      finished gets the next bytes, as many as it has room for, and the rest waits; the end is passed on
      exactly when the target has ended and nothing is left. */
  lemma PassHands(b: Bridge, s: Socket)
    requires !b.permit && Downstream(b)
    ensures var b', chunk := Serve(b, s), NextUp(b);
            var n := if b.open && !b.fin then Least(s.room, |chunk|) else 0;
            && b'.handed == b.handed + chunk[..n] && b'.pending == chunk[n..]
            && b'.fromTarget == (if b.pending == [] && b.fromTarget != [] then b.fromTarget[1..] else b.fromTarget)
            && b'.read == b.read && b'.holding == b.holding && b'.alive == b.alive
            && (b'.fin <==> b.fin || (b.open && !b.alive && b.pending == [] && b.fromTarget == []))
            && b'.open == (if b.open && !b.alive && b.pending == [] && b.fromTarget == [] then s.stillOpen else b.open)
  {
    hide Flat, ReceiveSide;
    ReceiveLeaves(b, s.offers);
  }

  /** A pass makes progress exactly when there is something to hand over and a socket to take it. */
  lemma PassProgress(b: Bridge, s: Socket)
    requires !b.permit && Downstream(b)
    ensures |Serve(b, s).handed| > |b.handed| <==>
              b.open && s.room > 0 && (b.pending != [] || b.fromTarget != [])
  {
    hide Flat, Serve;
    PassHands(b, s);
  }

  /** Passes over a socket that stays open and has room for each chunk as a whole. */
  ghost function Passes(b: Bridge, offers: Bytes -> nat, k: nat): (r: Bridge)
    requires !b.permit && b.open && Downstream(b)
    decreases k
  {
    if k == 0 then b
    else
      PassKeeps(b, offers);
      Passes(Serve(b, Roomy(b, offers)), offers, k - 1)
  }

  ghost function Roomy(b: Bridge, offers: Bytes -> nat): (s: Socket) {
    Socket(offers, |b.pending| + |Flat(b.fromTarget)|, true)
  }

  lemma PassKeeps(b: Bridge, offers: Bytes -> nat)
    requires !b.permit && b.open && Downstream(b)
    ensures var b' := Serve(b, Roomy(b, offers));
            && !b'.permit && b'.open && Downstream(b') && b'.alive == b.alive && b'.read == b.read && b'.pending == []
            && b'.holding == b.holding
            && |b'.fromTarget| == (if b.pending == [] && b.fromTarget != [] then |b.fromTarget| - 1 else |b.fromTarget|)
            && (b.pending == [] && b.fromTarget == [] && !b.alive ==> b'.fin)
  {
    hide Flat, ReceiveSide;
    FlatPop(b.fromTarget);
    ReceiveLeaves(b, offers);
    var b0 := ReceiveSide(b, offers);
    var b1 := if b0.pending == [] then Do(b0, Pull) else b0;
    if b0.pending == [] { PullKeeps(b0); }
    if b1.pending != [] && !b1.fin { FlushKeeps(b1, |b1.pending|); }
  }

  /** Over a socket with room, one pass per queued chunk and one for a leftover hand over everything that
      was read and that the worker does not still hold, whether or not it still runs. */
  lemma {:induction false} HandsOverAll(b: Bridge, offers: Bytes -> nat)
    requires !b.permit && b.open && Downstream(b)
    ensures var b' := Passes(b, offers, |b.fromTarget| + if b.pending == [] then 0 else 1);
            b'.handed + b.holding == b.read == b'.read
    decreases |b.fromTarget|, |b.pending|
  {
    hide Flat, Serve;
    if b.pending == [] && b.fromTarget == [] {
      assert Passes(b, offers, 0) == b;
      FlatPop([]);
      NoneBetween(b.handed, b.holding);
      NoneBetween(b.handed, []);
    } else {
      PassKeeps(b, offers);
      HandsOverAll(Serve(b, Roomy(b, offers)), offers);
    }
  }

  /** A target that has ended is drained and its end passed on: one pass per chunk, and one more. */
  lemma {:induction false} FinWithin(b: Bridge, offers: Bytes -> nat)
    requires !b.permit && b.open && Downstream(b) && !b.alive
    ensures var b' := Passes(b, offers, |b.fromTarget| + if b.pending == [] then 1 else 2);
            b'.fin && b'.handed == b'.read == b.read
    decreases |b.fromTarget|, |b.pending|
  {
    hide Flat, Serve;
    PassKeeps(b, offers);
    var b' := Serve(b, Roomy(b, offers));
    if b.pending == [] && b.fromTarget == [] {
      assert Passes(b, offers, 1) == Passes(b', offers, 0);
      FlatPop([]);
      NoneBetween(b'.handed, []);
    } else {
      FinWithin(b', offers);
    }
  }

  /** A pass takes everything the socket has received, as long as it gives and a place is free. */
  lemma PassTakes(b: Bridge, s: Socket)
    requires !b.permit && b.alive && (forall rx :: rx != [] ==> s.offers(rx) > 0)
    ensures var b' := Serve(b, s);
            && Flat(b'.toTarget) + b'.rx == Flat(b.toTarget) + b.rx
            && (b'.rx == [] || |b'.toTarget| >= CHANNEL)
  {
    hide ReceiveSide, SendSide, Flat, LoopRun;
    var _ := ReceiveSideRuns(b, s.offers);
    TakesInOrder(b, s.offers);
    SendLeaves(ReceiveSide(b, s.offers), s.room, s.stillOpen);
  }

  lemma SendLeaves(b: Bridge, room: nat, stillOpen: bool)
    ensures var b' := SendSide(b, room, stillOpen); b'.toTarget == b.toTarget && b'.rx == b.rx
  {
    hide Flat;
    var b1 := if b.pending == [] then Do(b, Pull) else b;
    assert b1.toTarget == b.toTarget && b1.rx == b.rx;
  }

  lemma HandMoves(b: Bridge, n: nat)
    requires !b.permit && b.alive && |b.toTarget| < CHANNEL && 0 < n <= |b.rx|
    ensures var b' := Do(Do(b, Reserve), Hand(n));
            b'.alive && !b'.permit && |b'.rx| < |b.rx| && Flat(b'.toTarget) + b'.rx == Flat(b.toTarget) + b.rx
  {
    hide Flat;
    FlatPush(b.toTarget, b.rx[..n]);
    Split(b.rx, n);
    Regroup([], Flat(b.toTarget), b.rx[..n], b.rx[n..]);
    NoneBetween(Flat(b.toTarget), b.rx);
  }

  lemma {:induction false} TakesInOrder(b: Bridge, offers: Bytes -> nat)
    requires !b.permit && b.alive
    ensures var b' := ReceiveSide(b, offers); Flat(b'.toTarget) + b'.rx == Flat(b.toTarget) + b.rx
    decreases |b.rx|
  {
    hide Flat;
    if |b.toTarget| < CHANNEL && b.rx != [] {
      var n := Least(offers(b.rx), |b.rx|);
      if n != 0 {
        HandMoves(b, n);
        TakesInOrder(Do(Do(b, Reserve), Hand(n)), offers);
      }
    }
  }
}

module Shuttles {
  import opened Bridges
  import opened Pools

  /** The part of the tunnel's packet loop that owns the bridges and their sockets. */
  class Shuttle {
    var conns: map<Handle, Bridge>
    var sockets: set<Handle>

    /** Every bridge conserves its bytes and belongs to a socket; no reservation outlives a pass. */
    ghost predicate Valid()
      reads this
    {
      conns.Keys <= sockets && forall h :: h in conns ==> Inv(conns[h]) && !conns[h].permit
    }

    constructor ()
      ensures Valid() && conns == map[] && sockets == {}
    {
      conns, sockets := map[], {};
    }

    static method Receive(bridge: Bridge, offers: Bytes -> nat) returns (b: Bridge)
      requires !bridge.permit
      ensures b == ReceiveSide(bridge, offers)
    {
      b := bridge;
      while true
        invariant !b.permit && ReceiveSide(b, offers) == ReceiveSide(bridge, offers)
        decreases |b.rx|
      {
        if !b.alive || |b.toTarget| >= CHANNEL { break; }
        b := b.(permit := true);
        if b.rx == [] { b := b.(permit := false); break; }
        var n := Least(offers(b.rx), |b.rx|);
        if n == 0 { b := b.(permit := false); break; }
        var chunk := b.rx[..n];
        b := b.(rx := b.rx[n..], toTarget := b.toTarget + [chunk], permit := false);
      }
    }

    static method Send(bridge: Bridge, room: nat, stillOpen: bool) returns (b: Bridge)
      ensures b == SendSide(bridge, room, stillOpen)
    {
      b := bridge;
      if b.pending == [] {
        if b.fromTarget != [] {
          b := b.(pending := b.fromTarget[0], fromTarget := b.fromTarget[1..]);
        } else if !b.alive {
          b := b.(targetDone := true);
        }
      }
      if b.pending != [] && b.open && !b.fin {
        var sent := Least(room, |b.pending|);
        b := b.(handed := b.handed + b.pending[..sent], pending := b.pending[sent..]);
      }
      if b.targetDone && b.pending == [] && b.open {
        b := b.(fin := true, open := stillOpen);
      }
    }

    /** Serve one bridge; it goes, with its socket, exactly when its socket is no longer open. */
    method ServeOne(h: Handle, s: Socket)
      requires Valid() && h in conns
      modifies this
      ensures Valid()
      ensures var b := Serve(old(conns)[h], s);
              && conns == (if b.open then old(conns)[h := b] else old(conns) - {h})
              && sockets == (if b.open then old(sockets) else old(sockets) - {h})
    {
      hide Serve, Inv, LoopRun, ReceiveSide, SendSide;
      ghost var _ := ServeRuns(conns[h], s);
      ServeIs(conns[h], s);
      var b := Receive(conns[h], s.offers);
      b := Send(b, s.room, s.stillOpen);
      if b.open {
        conns := conns[h := b];
      } else {
        conns, sockets := conns - {h}, sockets - {h};
      }
    }

    /** One pass over all bridges. */
    method Pump(sock: Handle -> Socket)
      requires Valid()
      modifies this
      ensures Valid()
      ensures conns == Kept(old(conns), sock)
      ensures sockets == old(sockets) - (old(conns).Keys - conns.Keys)
    {
      hide Serve, Inv, PartWay, Kept;
      var todo := conns.Keys;
      PartWayStart(conns, sockets, sock);
      while todo != {}
        invariant Valid() && todo <= conns.Keys
        invariant PartWay(old(conns), old(sockets), sock, todo, conns, sockets)
        decreases |todo|
      {
        var h :| h in todo;
        PartWayStep(old(conns), old(sockets), sock, todo, conns, sockets, h);
        ServeOne(h, sock(h));
        todo := todo - {h};
      }
      PartWayEnd(old(conns), old(sockets), sock, conns, sockets);
    }
  }

  /** The bridges that remain after a pass. */
  ghost function Kept(was: map<Handle, Bridge>, sock: Handle -> Socket): (kept: map<Handle, Bridge>)
    requires forall h :: h in was ==> !was[h].permit
  {
    map h | h in was && Serve(was[h], sock(h)).open :: Serve(was[h], sock(h))
  }

  // A pass, when the bridges in todo are still to be served.

  ghost predicate PartWay(was: map<Handle, Bridge>, sockets0: set<Handle>, sock: Handle -> Socket,
                          todo: set<Handle>, conns: map<Handle, Bridge>, sockets: set<Handle>)
  {
    && todo <= conns.Keys <= was.Keys && sockets == sockets0 - (was.Keys - conns.Keys)
    && (forall h :: h in was ==> !was[h].permit)
    && (forall h :: h in todo ==> conns[h] == was[h])
    && (forall h :: h in was && h !in todo ==>
          var b := Serve(was[h], sock(h)); (h in conns <==> b.open) && (h in conns ==> conns[h] == b))
  }

  lemma PartWayStart(was: map<Handle, Bridge>, sockets: set<Handle>, sock: Handle -> Socket)
    requires forall h :: h in was ==> !was[h].permit
    ensures PartWay(was, sockets, sock, was.Keys, was, sockets)
  {}

  lemma PartWayStep(was: map<Handle, Bridge>, sockets0: set<Handle>, sock: Handle -> Socket,
                    todo: set<Handle>, conns: map<Handle, Bridge>, sockets: set<Handle>, h: Handle)
    requires PartWay(was, sockets0, sock, todo, conns, sockets) && h in todo
    ensures h in conns && !conns[h].permit
    ensures var b := Serve(conns[h], sock(h));
            && (b.open ==> PartWay(was, sockets0, sock, todo - {h}, conns[h := b], sockets))
            && (!b.open ==> PartWay(was, sockets0, sock, todo - {h}, conns - {h}, sockets - {h}))
  {
    hide Serve;
  }

  lemma PartWayEnd(was: map<Handle, Bridge>, sockets0: set<Handle>, sock: Handle -> Socket,
                   conns: map<Handle, Bridge>, sockets: set<Handle>)
    requires PartWay(was, sockets0, sock, {}, conns, sockets)
    ensures conns == Kept(was, sock) && sockets == sockets0 - (was.Keys - conns.Keys)
  {
    hide Serve;
  }

  lemma ServeIs(b: Bridge, s: Socket)
    requires !b.permit
    ensures Serve(b, s) == SendSide(ReceiveSide(b, s.offers), s.room, s.stillOpen)
  {}
}
