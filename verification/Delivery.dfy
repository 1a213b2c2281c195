/** Concurrent receivers of one session. Each receive takes the lock twice, once for the quick check
    and once for the mark, and decrypts in between; the three parts of different receives interleave
    freely. */
module Delivery {
  import opened ReplaySpec

  datatype Phase = Idle | Checked(counter: nat) | Decrypted(counter: nat)

  datatype Step =
    | QuickCheck(thread: nat, counter: nat)
    | Decrypt(thread: nat, tagOk: bool)
    | MarkReceived(thread: nat)

  /** `delivered` lists the counters whose packets were handed on, oldest first. */
  datatype State = State(window: Window, receiveCnt: nat, threads: map<nat, Phase>, delivered: seq<nat>)

  const INIT := State(EMPTY, 0, map[], [])

  function PhaseOf(s: State, t: nat): (p: Phase) {
    if t in s.threads then s.threads[t] else Idle
  }

  function Next(s: State, step: Step): (s': State) {
    match step
    case QuickCheck(t, c) =>
      if PhaseOf(s, t).Idle? && WillAccept(s.window, c) == Accepted
      then s.(threads := s.threads[t := Checked(c)])
      else s
    case Decrypt(t, tagOk) =>
      var p := PhaseOf(s, t);
      if p.Checked?
      then s.(threads := s.threads[t := if tagOk then Decrypted(p.counter) else Idle])
      else s
    case MarkReceived(t) =>
      var p := PhaseOf(s, t);
      if !p.Decrypted? then s
      else
        var done := s.(threads := s.threads[t := Idle]);
        if MarkVerdict(s.window, p.counter) == Accepted
        then done.(window := Mark(s.window, p.counter),
                   receiveCnt := s.receiveCnt + 1,
                   delivered := s.delivered + [p.counter])
        else done
  }

  function Run(s: State, steps: seq<Step>): (s': State)
    decreases |steps|
  {
    if steps == [] then s else Run(Next(s, steps[0]), steps[1..])
  }

  predicate NoRepeats(cs: seq<nat>) {
    forall i, j :: 0 <= i < j < |cs| ==> cs[i] != cs[j]
  }

  ghost predicate Inv(s: State) {
    && WellFormed(s.window)
    && NoRepeats(s.delivered)
    && (forall c :: c in s.delivered <==> c in s.window.accepted)
    && |s.delivered| == s.receiveCnt == |s.window.accepted|
  }

  lemma NextKeepsInv(s: State, step: Step)
    requires Inv(s)
    ensures Inv(Next(s, step))
  {
    if step.MarkReceived? {
      var p := PhaseOf(s, step.thread);
      if p.Decrypted? && Fresh(s.window, p.counter) {
        var s' := Next(s, step);
        MarkKeepsWellFormed(s.window, p.counter);
        forall c ensures c in s'.delivered <==> c in s'.window.accepted {
          assert c in s'.delivered <==> c in s.delivered || c == p.counter;
        }
        assert p.counter !in s.delivered;
      }
    }
  }

  lemma {:induction false} RunKeepsInv(s: State, steps: seq<Step>)
    requires Inv(s)
    ensures Inv(Run(s, steps))
    decreases |steps|
  {
    if steps != [] {
      NextKeepsInv(s, steps[0]);
      RunKeepsInv(Next(s, steps[0]), steps[1..]);
    }
  }

  /** In every interleaving no counter is delivered twice, the packet count is the number of distinct
      counters delivered, and it never passes the next expected counter. */
  lemma AtMostOnce(steps: seq<Step>)
    ensures var s := Run(INIT, steps);
            && NoRepeats(s.delivered)
            && (forall c :: c in s.delivered <==> c in s.window.accepted)
            && s.receiveCnt == |s.delivered| <= s.window.next
  {
    RunKeepsInv(INIT, steps);
    AcceptedCountBound(Run(INIT, steps).window);
  }

  /** A counter refused once is never delivered afterwards, whatever was already past its quick check
      and whatever arrives later. */
  lemma {:induction false} RefusedNeverDelivered(s: State, c: nat, steps: seq<Step>)
    requires Inv(s) && WillAccept(s.window, c) != Accepted
    ensures c in Run(s, steps).delivered <==> c in s.delivered
    ensures WillAccept(Run(s, steps).window, c) != Accepted
    decreases |steps|
  {
    if steps != [] {
      var s' := Next(s, steps[0]);
      NextKeepsInv(s, steps[0]);
      assert c in s'.window.accepted <==> c in s.window.accepted;
      RefusedNeverDelivered(s', c, steps[1..]);
    }
  }

  /** Undisturbed, a fresh counter with a good tag is delivered: the window loses nothing it can keep. */
  lemma FreshIsDelivered(s: State, t: nat, c: nat)
    requires PhaseOf(s, t).Idle? && Fresh(s.window, c)
    ensures Run(s, [QuickCheck(t, c), Decrypt(t, true), MarkReceived(t)]).delivered == s.delivered + [c]
  {
    var steps := [QuickCheck(t, c), Decrypt(t, true), MarkReceived(t)];
    assert steps[1..] == [Decrypt(t, true), MarkReceived(t)];
    assert steps[1..][1..] == [MarkReceived(t)];
    assert steps[1..][1..][1..] == [];
    var s1 := Next(s, steps[0]);
    var s2 := Next(s1, steps[1]);
    assert Run(s2, [MarkReceived(t)]) == Run(Next(s2, MarkReceived(t)), []);
  }
}
