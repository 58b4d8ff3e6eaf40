/** The staged reveal of the portfolio's terminal panel and the contact
    handshake: the state the portfolio view updates on events. */
module Terminal {
  import opened Optional
  import opened Typewriter
  import PortfolioText

  // ---------------------------------------------------------------------
  // The stage: completion callbacks merge their target into it with max.
  // ---------------------------------------------------------------------

  /** `setTerminalStep(prev => Math.max(prev, target))`. */
  function Merge(stage: nat, target: nat): (r: nat)
    ensures r >= stage && r >= target
    ensures r == stage || r == target
  {
    if stage >= target then stage else target
  }

  /** The stage after completion signals delivered in the given order. */
  function MergeAll(stage: nat, targets: seq<nat>): (r: nat)
    ensures r >= stage
    ensures forall i :: 0 <= i < |targets| ==> r >= targets[i]
    ensures r == stage || r in targets
    decreases targets
  {
    if targets == [] then stage
    else
      var r := MergeAll(Merge(stage, targets[0]), targets[1..]);
      assert forall i :: 1 <= i < |targets| ==> targets[i] == targets[1..][i - 1];
      assert r in targets[1..] ==> r in targets;
      r
  }

  /** A duplicate signal changes nothing. */
  lemma MergeIdempotent(stage: nat, target: nat)
    ensures Merge(Merge(stage, target), target) == Merge(stage, target)
  {
  }

  /** The final stage does not depend on the order in which the signals
      arrive, only on which signals arrive. */
  lemma MergeAllOrderIndependent(stage: nat, ts: seq<nat>, us: seq<nat>)
    requires multiset(ts) == multiset(us)
    ensures MergeAll(stage, ts) == MergeAll(stage, us)
  {
    var a, b := MergeAll(stage, ts), MergeAll(stage, us);
    if a != stage {
      assert a in multiset(ts);
      assert a in us;
      var j :| 0 <= j < |us| && us[j] == a;
    }
    if b != stage {
      assert b in multiset(us);
      assert b in ts;
      var j :| 0 <= j < |ts| && ts[j] == b;
    }
  }

  lemma {:induction false} MergeAllAppend(stage: nat, a: seq<nat>, b: seq<nat>)
    ensures MergeAll(stage, a + b) == MergeAll(MergeAll(stage, a), b)
    decreases a
  {
    if a == [] {
      assert a + b == b;
    } else {
      assert (a + b)[0] == a[0] && (a + b)[1..] == a[1..] + b;
      MergeAllAppend(Merge(stage, a[0]), a[1..], b);
    }
  }

  /** Sampled at any two moments, the later stage is at least the earlier. */
  lemma StageNeverDecreases(stage: nat, ts: seq<nat>, i: nat, j: nat)
    requires i <= j <= |ts|
    ensures MergeAll(stage, ts[..i]) <= MergeAll(stage, ts[..j])
  {
    assert ts[..j] == ts[..i] + ts[i..j];
    MergeAllAppend(stage, ts[..i], ts[i..j]);
  }

  /** With only the targets 1, 2 and 3 in use, the stage never passes 3. */
  lemma StageAtMostThree(ts: seq<nat>)
    requires forall i :: 0 <= i < |ts| ==> 1 <= ts[i] <= 3
    ensures MergeAll(0, ts) <= 3
  {
  }

  /** A block that requires stage `k` is rendered iff the stage is at least `k`. */
  predicate Shown(stage: nat, k: nat)
    ensures k == 0 ==> Shown(stage, k)
    ensures stage < k ==> !Shown(stage, k)
  {
    stage >= k
  }

  /** Once rendered, a block stays rendered whatever signals follow. */
  lemma ShownStaysShown(stage: nat, ts: seq<nat>, k: nat)
    requires Shown(stage, k)
    ensures Shown(MergeAll(stage, ts), k)
  {
  }

  // ---------------------------------------------------------------------
  // The panel: five typewriters, each mounted when its block is rendered.
  // ---------------------------------------------------------------------

  /** The panel's typewriters, top to bottom. */
  const Writers: nat := 5

  /** The stage at which each typewriter's block is rendered. */
  function Gate(i: nat): (g: nat)
    requires i < Writers
    ensures g <= 3
    ensures g == 0 <==> i == 0
  {
    [0, 1, 1, 2, 3][i]
  }

  /** The stage each typewriter's `onComplete` merges in; the role line and
      the summary have no `onComplete`. */
  function Target(i: nat): (t: Option<nat>)
    requires i < Writers
    ensures t.Some? ==> t.value == Gate(i) + 1 && 1 <= t.value <= 3
    ensures t.None? <==> i == 1 || i == 4
  {
    [Some(1), None, Some(2), Some(3), None][i]
  }

  /** The text each typewriter types: four fixed lines, then the summary
      with its `**` markers removed. */
  function WriterText(i: nat, summary: string): (text: string)
    requires i < Writers
    ensures i < 4 ==> text != ""
    ensures i == 4 ==> PortfolioText.NoDoubleStar(text)
  {
    ["whoami --verbose", "Cloud & DevOps Engineer", "AI/LLM Integration",
     "cat summary.txt | grep \"Highlights\"", PortfolioText.CleanText(summary)][i]
  }

  datatype Console = Console(stage: nat, writers: seq<Snapshot>)

  /** A timer event of one typewriter. */
  datatype ConsoleEvent = Fire(writer: nat, event: Event)

  /** Reachable panels: a typewriter whose block is not rendered yet is still
      as mounted, and stage k >= 1 is reached exactly when the typewriter
      targeting k has completed. */
  predicate ConsoleInv(c: Console)
  {
    && |c.writers| == Writers
    && (forall i :: 0 <= i < Writers ==> Inv(c.writers[i]))
    && (forall i :: 0 <= i < Writers && c.stage < Gate(i) ==>
          c.writers[i] == Mounted(c.writers[i].text))
    && c.stage <= 3
    && (c.stage >= 1 <==> c.writers[0].isComplete)
    && (c.stage >= 2 <==> c.writers[2].isComplete)
    && (c.stage >= 3 <==> c.writers[3].isComplete)
  }

  function Initial(summary: string): (c: Console)
    ensures ConsoleInv(c) && c.stage == 0
    ensures forall i :: 0 <= i < Writers ==> c.writers[i].text == WriterText(i, summary)
    ensures forall i :: 0 <= i < Writers ==> c.writers[i] == Mounted(WriterText(i, summary))
  {
    Console(0, seq(Writers, i requires 0 <= i < Writers => Mounted(WriterText(i, summary))))
  }

  /** A typewriter event. Events of a typewriter whose block is not rendered
      are impossible and change nothing; a completion merges the
      typewriter's target into the stage. */
  function ConsoleStep(c: Console, ev: ConsoleEvent): (r: Console)
    requires ConsoleInv(c)
    ensures r.stage >= c.stage && |r.writers| == |c.writers|
    ensures forall k :: 0 <= k < |c.writers| && k != ev.writer ==> r.writers[k] == c.writers[k]
    ensures ev.writer >= Writers || c.stage < Gate(ev.writer) ==> r == c
  {
    var i := ev.writer;
    if i >= Writers || c.stage < Gate(i) then c
    else
      var w := c.writers[i];
      var w' := Step(w, ev.event);
      var stage' := if w'.completions > w.completions && Target(i).Some?
                    then Merge(c.stage, Target(i).value) else c.stage;
      Console(stage', c.writers[i := w'])
  }

  lemma ConsoleStepInv(c: Console, ev: ConsoleEvent)
    requires ConsoleInv(c)
    ensures ConsoleInv(ConsoleStep(c, ev))
    ensures ConsoleStep(c, ev).stage >= c.stage
  {
    var i := ev.writer;
    if i < Writers && c.stage >= Gate(i) {
      StepInv(c.writers[i], ev.event);
      var c' := ConsoleStep(c, ev);
      forall k | 0 <= k < Writers && c'.stage < Gate(k)
        ensures c'.writers[k] == Mounted(c'.writers[k].text)
      {
        assert k != i;
      }
    }
  }

  /** The stage moves only to the target of the typewriter that has just
      completed. */
  lemma ConsoleStepRaisesToTarget(c: Console, ev: ConsoleEvent)
    requires ConsoleInv(c)
    ensures var r := ConsoleStep(c, ev);
      r.stage != c.stage ==>
        ev.writer < Writers && Target(ev.writer) == Some(r.stage) && r.writers[ev.writer].isComplete
  {
  }

  function ConsoleRun(c: Console, evs: seq<ConsoleEvent>): (r: Console)
    requires ConsoleInv(c)
    ensures ConsoleInv(r)
    ensures r.stage >= c.stage
    decreases evs
  {
    if evs == [] then c
    else
      ConsoleStepInv(c, evs[0]);
      ConsoleRun(ConsoleStep(c, evs[0]), evs[1..])
  }

  /** The targets merged so far: those of the completed typewriters. */
  function CompletedTargets(c: Console): seq<nat>
    requires |c.writers| == Writers
  {
    (if c.writers[0].isComplete then [1] else [])
    + (if c.writers[2].isComplete then [2] else [])
    + (if c.writers[3].isComplete then [3] else [])
  }

  /** In a reachable panel the stage is the maximum target among the
      completed typewriters. */
  lemma StageIsMaxOfCompleted(c: Console)
    requires ConsoleInv(c)
    ensures c.stage == MergeAll(0, CompletedTargets(c))
  {
    var ts := CompletedTargets(c);
    if c.stage == 0 {
      assert ts == [];
    } else if c.stage == 1 {
      assert ts == [1];
      assert MergeAll(0, ts) == MergeAll(1, []);
    } else if c.stage == 2 {
      assert ts == [1, 2];
      assert MergeAll(0, ts) == MergeAll(1, [2]) == MergeAll(2, []);
    } else {
      assert ts == [1, 2, 3];
      assert MergeAll(0, ts) == MergeAll(1, [2, 3]) == MergeAll(2, [3]) == MergeAll(3, []);
    }
  }

  /** Whatever the timing of the five typewriters: the stage is the maximum
      target among the completed ones, it never passes 3, it never
      decreases, and no typewriter has started before its block is rendered. */
  lemma ReachablePanel(summary: string, evs: seq<ConsoleEvent>, n: nat)
    requires n <= |evs|
    ensures var r := ConsoleRun(Initial(summary), evs);
      && r.stage == MergeAll(0, CompletedTargets(r))
      && r.stage <= 3
      && ConsoleRun(Initial(summary), evs[..n]).stage <= r.stage
      && forall i :: 0 <= i < Writers && !Shown(r.stage, Gate(i)) ==>
           !r.writers[i].isStarted && r.writers[i].displayText == []
  {
    var r := ConsoleRun(Initial(summary), evs);
    StageIsMaxOfCompleted(r);
    assert evs == evs[..n] + evs[n..];
    ConsoleRunAppend(Initial(summary), evs[..n], evs[n..]);
  }

  lemma {:induction false} ConsoleRunAppend(c: Console, a: seq<ConsoleEvent>, b: seq<ConsoleEvent>)
    requires ConsoleInv(c)
    ensures ConsoleRun(c, a + b) == ConsoleRun(ConsoleRun(c, a), b)
    decreases a
  {
    if a == [] {
      assert a + b == b;
    } else {
      ConsoleStepInv(c, a[0]);
      assert (a + b)[0] == a[0] && (a + b)[1..] == a[1..] + b;
      ConsoleRunAppend(ConsoleStep(c, a[0]), a[1..], b);
    }
  }

  /** The events of one typewriter. */
  function Fires(i: nat, es: seq<Event>): (evs: seq<ConsoleEvent>)
    ensures |evs| == |es| && forall k :: 0 <= k < |es| ==> evs[k] == Fire(i, es[k])
  {
    seq(|es|, k requires 0 <= k < |es| => Fire(i, es[k]))
  }

  /** Running the events of one rendered typewriter runs that typewriter
      alone, and merges its target once if it completes. */
  lemma FiresOne(c: Console, i: nat, es: seq<Event>)
    requires ConsoleInv(c) && i < Writers && c.stage >= Gate(i)
    ensures var r := ConsoleRun(c, Fires(i, es));
      var w := Run(c.writers[i], es);
      && r.writers == c.writers[i := w]
      && r.stage == (if w.completions > c.writers[i].completions && Target(i).Some?
                     then Merge(c.stage, Target(i).value) else c.stage)
  {
    FiresOneWriters(c, i, es);
    FiresOneStage(c, i, es);
  }

  /** One step of a rendered typewriter, unrolled from the run. */
  lemma FiresFirst(c: Console, i: nat, es: seq<Event>)
    requires ConsoleInv(c) && i < Writers && c.stage >= Gate(i) && es != []
    ensures ConsoleInv(ConsoleStep(c, Fire(i, es[0])))
    ensures ConsoleRun(c, Fires(i, es)) == ConsoleRun(ConsoleStep(c, Fire(i, es[0])), Fires(i, es[1..]))
    ensures ConsoleStep(c, Fire(i, es[0])).writers == c.writers[i := Step(c.writers[i], es[0])]
    ensures Run(c.writers[i], es) == Run(Step(c.writers[i], es[0]), es[1..])
  {
    ConsoleStepInv(c, Fire(i, es[0]));
    assert Fires(i, es)[0] == Fire(i, es[0]) && Fires(i, es)[1..] == Fires(i, es[1..]);
  }

  lemma {:induction false} FiresOneWriters(c: Console, i: nat, es: seq<Event>)
    requires ConsoleInv(c) && i < Writers && c.stage >= Gate(i)
    ensures ConsoleRun(c, Fires(i, es)).writers == c.writers[i := Run(c.writers[i], es)]
    decreases es
  {
    if es != [] {
      FiresFirst(c, i, es);
      var c1 := ConsoleStep(c, Fire(i, es[0]));
      var w := Run(c.writers[i], es);
      FiresOneWriters(c1, i, es[1..]);
      assert c1.writers[i] == Step(c.writers[i], es[0]);
      assert c1.writers[i := w] == c.writers[i := w];
    }
  }

  lemma {:induction false} FiresOneStage(c: Console, i: nat, es: seq<Event>)
    requires ConsoleInv(c) && i < Writers && c.stage >= Gate(i)
    ensures var w := Run(c.writers[i], es);
      ConsoleRun(c, Fires(i, es)).stage ==
        (if w.completions > c.writers[i].completions && Target(i).Some?
         then Merge(c.stage, Target(i).value) else c.stage)
    decreases es
  {
    if es != [] {
      FiresFirst(c, i, es);
      var w0 := c.writers[i];
      var w1 := Step(w0, es[0]);
      var c1 := ConsoleStep(c, Fire(i, es[0]));
      FiresOneStage(c1, i, es[1..]);
      StepInv(w0, es[0]);
      if w1.completions > w0.completions {
        assert Run(w1, es[1..]).completions == w1.completions;
      } else {
        assert c1.stage == c.stage;
      }
    }
  }

  /** Each typewriter's start event followed by one tick per character and one
      more: the schedule the timers produce when nothing is torn down. */
  function FullReveal(text: string): seq<Event>
  {
    [StartTimerFires] + Ticks(|text| + 1)
  }

  lemma FullRevealCompletes(s: Snapshot)
    requires Inv(s) && s == Mounted(s.text) && |s.text| > 0
    ensures var r := Run(s, FullReveal(s.text));
      r.isComplete && r.completions == 1 && r.displayText == s.text
  {
    CompletesOnTickAfterFullText(s.text);
  }

  /** The sequence can run to its end: typing the first command, then the
      specialization, then the second command, reaches stage 3 with all
      three shown in full. */
  lemma SequenceReachesStageThree(summary: string)
    ensures var evs := Fires(0, FullReveal(WriterText(0, summary)))
                     + Fires(2, FullReveal(WriterText(2, summary)))
                     + Fires(3, FullReveal(WriterText(3, summary)));
      var r := ConsoleRun(Initial(summary), evs);
      && r.stage == 3
      && r.writers[0].displayText == "whoami --verbose"
      && r.writers[2].displayText == "AI/LLM Integration"
      && r.writers[3].displayText == "cat summary.txt | grep \"Highlights\""
  {
    var c0 := Initial(summary);
    var a := Fires(0, FullReveal(WriterText(0, summary)));
    var b := Fires(2, FullReveal(WriterText(2, summary)));
    var d := Fires(3, FullReveal(WriterText(3, summary)));
    FiresOne(c0, 0, FullReveal(WriterText(0, summary)));
    FullRevealCompletes(c0.writers[0]);
    var c1 := ConsoleRun(c0, a);
    assert c1.stage == 1;
    FiresOne(c1, 2, FullReveal(WriterText(2, summary)));
    FullRevealCompletes(c1.writers[2]);
    var c2 := ConsoleRun(c1, b);
    assert c2.stage == 2;
    FiresOne(c2, 3, FullReveal(WriterText(3, summary)));
    FullRevealCompletes(c2.writers[3]);
    var c3 := ConsoleRun(c2, d);
    assert c3.stage == 3;
    ConsoleRunAppend(c0, a, b);
    ConsoleRunAppend(c0, a + b, d);
  }

  // ---------------------------------------------------------------------
  // The contact handshake: idle, then connecting, then connected.
  // ---------------------------------------------------------------------

  datatype Handshake = Idle | Connecting | Connected

  function Rank(h: Handshake): nat
  {
    match h
    case Idle => 0
    case Connecting => 1
    case Connected => 2
  }

  /** A click on "Initialize Handshake", or the timeout it armed firing. */
  datatype HandshakeEvent = Click | TimerFires

  datatype HandshakeState = HandshakeState(status: Handshake, timerPending: bool)

  /** The button is rendered only while idle; a click sets `connecting` and
      arms the timeout, which sets `connected` when it fires. */
  function HandshakeStep(u: HandshakeState, e: HandshakeEvent): (r: HandshakeState)
    ensures Rank(r.status) >= Rank(u.status)
    ensures r.status == Connected ==> e == TimerFires || u.status == Connected
    ensures r.status == Connecting ==> u.status != Connected
  {
    match e
    case Click => if u.status == Idle then HandshakeState(Connecting, true) else u
    case TimerFires => if u.timerPending then HandshakeState(Connected, false) else u
  }

  /** The timeout is pending exactly while connecting. */
  predicate HandshakeInv(u: HandshakeState)
  {
    u.timerPending <==> u.status == Connecting
  }

  /** One event moves the status at most one step forward, never back. */
  lemma HandshakeForwardOnly(u: HandshakeState, e: HandshakeEvent)
    requires HandshakeInv(u)
    ensures var u' := HandshakeStep(u, e);
      && HandshakeInv(u')
      && (u'.status == u.status || Rank(u'.status) == Rank(u.status) + 1)
  {
  }

  function HandshakeRun(u: HandshakeState, es: seq<HandshakeEvent>): (r: HandshakeState)
    requires HandshakeInv(u)
    ensures HandshakeInv(r)
    ensures Rank(r.status) >= Rank(u.status)
    decreases es
  {
    if es == [] then u else HandshakeRun(HandshakeStep(u, es[0]), es[1..])
  }

  /** From idle, `connected` is reached only by a click and a later timeout. */
  lemma {:induction false} ConnectedNeedsClickThenTimer(u: HandshakeState, es: seq<HandshakeEvent>)
    requires HandshakeInv(u) && u.status != Connected
    requires HandshakeRun(u, es).status == Connected
    ensures exists j :: 0 <= j < |es| && es[j] == TimerFires
    ensures u.status == Idle ==>
      exists i, j :: 0 <= i < j < |es| && es[i] == Click && es[j] == TimerFires
    decreases es
  {
    assert es != [];
    var u1 := HandshakeStep(u, es[0]);
    if u1.status == Connected {
      assert es[0] == TimerFires && u.status == Connecting;
    } else {
      ConnectedNeedsClickThenTimer(u1, es[1..]);
      var j :| 0 <= j < |es[1..]| && es[1..][j] == TimerFires;
      assert es[j + 1] == TimerFires;
      if u.status == Idle {
        if u1.status == Connecting {
          assert es[0] == Click;
        } else {
          var i', j' :| 0 <= i' < j' < |es[1..]| && es[1..][i'] == Click && es[1..][j'] == TimerFires;
          assert es[i' + 1] == Click && es[j' + 1] == TimerFires;
        }
      }
    }
  }

  // ---------------------------------------------------------------------
  // The portfolio view's own state.
  // ---------------------------------------------------------------------

  class Portfolio {
    var terminalStep: nat
    var handshakeStatus: Handshake
    var handshakeTimerPending: bool

    function CurrentHandshake(): HandshakeState
      reads this
    {
      HandshakeState(handshakeStatus, handshakeTimerPending)
    }

    constructor ()
      ensures terminalStep == 0 && CurrentHandshake() == HandshakeState(Idle, false)
    {
      terminalStep := 0;
      handshakeStatus := Idle;
      handshakeTimerPending := false;
    }

    /** Whether the block requiring stage `k` is rendered. */
    predicate Shows(k: nat)
      reads this
    {
      Shown(terminalStep, k)
    }

    /** An `onComplete` callback that targets stage `target`. */
    method OnStageReached(target: nat)
      modifies this
      ensures terminalStep == Merge(old(terminalStep), target)
      ensures CurrentHandshake() == old(CurrentHandshake())
      ensures forall k :: old(Shows(k)) ==> Shows(k)
    {
      terminalStep := Merge(terminalStep, target);
    }

    method OnHandshakeClick()
      requires HandshakeInv(CurrentHandshake())
      modifies this
      ensures HandshakeInv(CurrentHandshake())
      ensures CurrentHandshake() == HandshakeStep(old(CurrentHandshake()), Click)
      ensures terminalStep == old(terminalStep)
    {
      if handshakeStatus == Idle {
        handshakeStatus := Connecting;
        handshakeTimerPending := true;
      }
    }

    method OnHandshakeTimer()
      requires HandshakeInv(CurrentHandshake())
      modifies this
      ensures HandshakeInv(CurrentHandshake())
      ensures CurrentHandshake() == HandshakeStep(old(CurrentHandshake()), TimerFires)
      ensures terminalStep == old(terminalStep)
    {
      if handshakeTimerPending {
        handshakeStatus := Connected;
        handshakeTimerPending := false;
      }
    }
  }
}
