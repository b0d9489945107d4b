/** Traffic-light mode of the fast LED tick: a 39-tick automaton driven by a wait
    counter that is raised once per tick before it is tested. */
module Traffic {
  import opened Outputs

  /** Number of fast ticks in one traffic-light cycle. */
  const CYCLE := 39

  /** Counter values (after the per-tick increment) at which the lights change. */
  predicate IsSwitchTick(c: int) {
    c == 2 || c == 14 || c == 22 || c == 34
  }

  /** The output writes of a traffic tick that has just raised the wait counter to `c`. */
  function TickWrites(c: int): (ws: seq<Write>)
    ensures ws != [] <==> IsSwitchTick(c)
    ensures forall i :: 0 <= i < |ws| ==> IsPin(ws[i].pin) && 0 <= ws[i].level <= 1
  {
    if c == 2 then [Write(YELLOW, 0), Write(RED, 1)]
    else if c == 14 then [Write(YELLOW, 1)]
    else if c == 22 then [Write(RED, 0), Write(YELLOW, 0), Write(GREEN, 1)]
    else if c == 34 then [Write(GREEN, 0), Write(YELLOW, 1)]
    else []
  }

  /** The two traffic counters: position in the cycle and completed cycles. */
  datatype Phase = Phase(wait: nat, loops: nat)

  /** One traffic tick's effect on the counters: the total number of ticks the two
      counters record together grows by exactly one. */
  function Step(p: Phase): (q: Phase)
    ensures q.loops * CYCLE + q.wait == p.loops * CYCLE + p.wait + 1
  {
    var w := p.wait + 1;
    if w == CYCLE then Phase(0, p.loops + 1) else Phase(w, p.loops)
  }

  /** A tick from an in-range counter stays in range: the counter moves one place round
      the cycle, and the loop counter grows by one exactly when the cycle wraps. */
  lemma StepInRange(p: Phase)
    requires p.wait < CYCLE
    ensures Step(p).wait < CYCLE
    ensures Step(p).wait == (p.wait + 1) % CYCLE
    ensures Step(p).loops == p.loops + (p.wait + 1) / CYCLE
    ensures Step(p).loops == p.loops + 1 <==> p.wait == CYCLE - 1
  {
  }

  /** The counters and the concatenated output writes after `n` traffic ticks from `p`. */
  datatype Outcome = Outcome(phase: Phase, writes: seq<Write>)

  function Run(p: Phase, n: nat): Outcome
    decreases n
  {
    if n == 0 then Outcome(p, [])
    else
      var rest := Run(Step(p), n - 1);
      Outcome(rest.phase, TickWrites(p.wait + 1) + rest.writes)
  }

  /** Concatenation of writes is associative. */
  lemma AppendAssoc(x: seq<Write>, y: seq<Write>, z: seq<Write>)
    ensures x + (y + z) == (x + y) + z
  {
  }

  /** Running `a` ticks and then `b` more is running `a + b` ticks. */
  lemma {:induction false} RunAppend(p: Phase, a: nat, b: nat)
    ensures Run(p, a + b).phase == Run(Run(p, a).phase, b).phase
    ensures Run(p, a + b).writes == Run(p, a).writes + Run(Run(p, a).phase, b).writes
    decreases a
  {
    if a > 0 {
      var q, w := Step(p), TickWrites(p.wait + 1);
      RunAppend(q, a - 1, b);
      assert a + b - 1 == (a - 1) + b;
      AppendAssoc(w, Run(q, a - 1).writes, Run(Run(q, a - 1).phase, b).writes);
    }
  }

  /** Ticks that reach no switch value and no cycle end only advance the wait counter. */
  lemma {:induction false} RunQuiet(p: Phase, n: nat)
    requires p.wait + n < CYCLE
    requires forall k :: p.wait < k <= p.wait + n ==> !IsSwitchTick(k)
    ensures Run(p, n) == Outcome(Phase(p.wait + n, p.loops), [])
    decreases n
  {
    if n > 0 {
      RunQuiet(Step(p), n - 1);
    }
  }

  /** From any in-range phase, the counters after `n` ticks are the position `n` ticks
      further round the cycle and the number of cycle ends passed. */
  lemma {:induction false} PhaseAfter(p: Phase, n: nat)
    requires p.wait < CYCLE
    ensures Run(p, n).phase == Phase((p.wait + n) % CYCLE, p.loops + (p.wait + n) / CYCLE)
    decreases n
  {
    if n > 0 {
      var q := Step(p);
      PhaseAfter(q, n - 1);
      if p.wait + 1 == CYCLE {
        assert q == Phase(0, p.loops + 1);
        assert p.wait + n == (n - 1) + CYCLE;
      } else {
        assert q == Phase(p.wait + 1, p.loops);
      }
    }
  }

  /** The writes of one full cycle, in order. */
  const CYCLE_WRITES: seq<Write> :=
    [Write(YELLOW, 0), Write(RED, 1),
     Write(YELLOW, 1),
     Write(RED, 0), Write(YELLOW, 0), Write(GREEN, 1),
     Write(GREEN, 0), Write(YELLOW, 1)]

  /** A single tick from an in-range phase: the counter advances and the writes are
      those of the value it reaches. */
  lemma OneTick(p: Phase)
    ensures Run(p, 1) == Outcome(Step(p), TickWrites(p.wait + 1))
  {
    assert Run(p, 1).writes == TickWrites(p.wait + 1) + [];
  }

  /** `n` quiet ticks followed by one tick that reaches a switch value. */
  lemma Segment(p: Phase, n: nat)
    requires p.wait + n + 1 < CYCLE
    requires forall k :: p.wait < k <= p.wait + n ==> !IsSwitchTick(k)
    ensures Run(p, n + 1) == Outcome(Phase(p.wait + n + 1, p.loops), TickWrites(p.wait + n + 1))
  {
    RunQuiet(p, n);
    RunAppend(p, n, 1);
    OneTick(Phase(p.wait + n, p.loops));
  }

  /** Two runs whose outcomes are known compose into one. */
  lemma Compose(p: Phase, a: nat, b: nat, first: Outcome, second: Outcome)
    requires Run(p, a) == first
    requires Run(first.phase, b) == second
    ensures Run(p, a + b) == Outcome(second.phase, first.writes + second.writes)
  {
    RunAppend(p, a, b);
  }

  /** Ticks 1..14 of a cycle: the red light comes on at 2 and the yellow joins it at 14. */
  lemma CycleTo14(loops: nat)
    ensures Run(Phase(0, loops), 14) == Outcome(Phase(14, loops), TickWrites(2) + TickWrites(14))
  {
    Segment(Phase(0, loops), 1);
    Segment(Phase(2, loops), 11);
    Compose(Phase(0, loops), 2, 12, Outcome(Phase(2, loops), TickWrites(2)),
            Outcome(Phase(14, loops), TickWrites(14)));
  }

  /** Ticks 1..22: green comes on at 22. */
  lemma CycleTo22(loops: nat)
    ensures Run(Phase(0, loops), 22) ==
            Outcome(Phase(22, loops), TickWrites(2) + TickWrites(14) + TickWrites(22))
  {
    CycleTo14(loops);
    Segment(Phase(14, loops), 7);
    Compose(Phase(0, loops), 14, 8, Outcome(Phase(14, loops), TickWrites(2) + TickWrites(14)),
            Outcome(Phase(22, loops), TickWrites(22)));
  }

  /** Ticks 1..34: yellow replaces green at 34. */
  lemma CycleTo34(loops: nat)
    ensures Run(Phase(0, loops), 34) ==
            Outcome(Phase(34, loops), TickWrites(2) + TickWrites(14) + TickWrites(22) + TickWrites(34))
  {
    CycleTo22(loops);
    Segment(Phase(22, loops), 11);
    Compose(Phase(0, loops), 22, 12,
            Outcome(Phase(22, loops), TickWrites(2) + TickWrites(14) + TickWrites(22)),
            Outcome(Phase(34, loops), TickWrites(34)));
  }

  /** Ticks 35..39 write nothing; the 39th resets the counter and counts the cycle. */
  lemma CycleTail(loops: nat)
    ensures Run(Phase(34, loops), 5) == Outcome(Phase(0, loops + 1), [])
  {
    RunQuiet(Phase(34, loops), 4);
    OneTick(Phase(38, loops));
    Compose(Phase(34, loops), 4, 1, Outcome(Phase(38, loops), []), Outcome(Phase(0, loops + 1), []));
  }

  /** Starting from wait counter 0, 39 ticks return the counter to 0, complete exactly
      one more cycle, and write exactly the four light changes of the cycle in order. */
  lemma Cycle(loops: nat)
    ensures Run(Phase(0, loops), CYCLE) == Outcome(Phase(0, loops + 1), CYCLE_WRITES)
  {
    var head := TickWrites(2) + TickWrites(14) + TickWrites(22) + TickWrites(34);
    assert head + [] == CYCLE_WRITES by {
      assert head == CYCLE_WRITES;
    }
    CycleTo34(loops);
    CycleTail(loops);
    Compose(Phase(0, loops), 34, 5, Outcome(Phase(34, loops), head), Outcome(Phase(0, loops + 1), []));
  }

  /** Starting from wait counter 0, the k-th tick of a cycle writes exactly
      `TickWrites(k)`, which is empty unless k is 2, 14, 22 or 34. */
  lemma KthTick(loops: nat, k: nat)
    requires 1 <= k <= CYCLE
    ensures Run(Phase(0, loops), k - 1).phase == Phase(k - 1, loops)
    ensures Run(Phase(0, loops), k).writes ==
            Run(Phase(0, loops), k - 1).writes + TickWrites(k)
    ensures TickWrites(k) != [] <==> IsSwitchTick(k)
  {
    var p0 := Phase(0, loops);
    PhaseAfter(p0, k - 1);
    assert (k - 1) % CYCLE == k - 1 && (k - 1) / CYCLE == 0;
    RunAppend(p0, k - 1, 1);
    OneTick(Phase(k - 1, loops));
  }
}
