/** The typing effect of the portfolio's terminal panel. Once the start delay
    has elapsed, each interval tick shows one more character of `text`. On the
    first tick after the whole text is shown, the interval is cleared and
    `onComplete` fires. The timers are events here, with no durations. */
module Typewriter {

  /** One mounted typewriter. It holds the three React state cells
      (`displayText`, `isStarted`, `isComplete`) and the interval closure's
      `currentIndex`. It also records which of its two timers is still live
      and how many times it has invoked `onComplete`. */
  datatype Snapshot = Snapshot(
    text: string,
    displayText: string,
    isStarted: bool,
    isComplete: bool,
    currentIndex: nat,
    startTimerPending: bool,
    intervalActive: bool,
    completions: nat)

  /** The start-delay timeout fires, the interval fires, or the component is
      torn down (its effects' cleanups run). */
  datatype Event = StartTimerFires | IntervalTick | Teardown

  /** The state right after mounting: nothing shown, the start timeout armed. */
  function Mounted(text: string): (s: Snapshot)
    ensures Inv(s) && s.displayText == [] && s.completions == 0
  {
    Snapshot(text, "", false, false, 0, true, false, 0)
  }

  /** What every reachable state satisfies. */
  predicate Inv(s: Snapshot)
    ensures Inv(s) ==> s.displayText <= s.text && s.completions <= 1
    ensures Inv(s) && s.completions == 1 ==> s.displayText == s.text
  {
    && s.currentIndex <= |s.text|
    && s.displayText == s.text[..s.currentIndex]
    && s.completions == (if s.isComplete then 1 else 0)
    && (s.startTimerPending ==> !s.isStarted)
    && (!s.isStarted ==> s.currentIndex == 0 && !s.intervalActive && !s.isComplete)
    && (s.intervalActive ==> !s.isComplete && |s.text| > 0)
    && (s.isComplete ==> s.currentIndex == |s.text| && !s.intervalActive)
  }

  /** One event. The start timeout sets `isStarted`, and the reveal effect then
      runs. Empty text completes at once and arms no interval; other text arms
      the interval. A tick either shows the next character or, once
      `currentIndex` has reached the end, clears the interval and completes.
      Teardown clears both timers. A timer that is not live does nothing. */
  function Step(s: Snapshot, e: Event): (r: Snapshot)
    requires s.currentIndex <= |s.text|
    ensures r.text == s.text && r.currentIndex <= |r.text|
    ensures r.completions == s.completions || r.completions == s.completions + 1
    ensures r.completions == s.completions + 1 ==>
      r.isComplete && r.currentIndex == |r.text| && r.displayText == s.displayText
    ensures e == Teardown ==> !r.startTimerPending && !r.intervalActive
    ensures !s.startTimerPending && !s.intervalActive ==> r == s.(startTimerPending := false)
  {
    match e
    case StartTimerFires =>
      if !s.startTimerPending then s
      else if |s.text| == 0 then
        s.(startTimerPending := false, isStarted := true, currentIndex := 0,
           isComplete := true, completions := s.completions + 1)
      else
        s.(startTimerPending := false, isStarted := true, currentIndex := 0,
           intervalActive := true)
    case IntervalTick =>
      if !s.intervalActive then s
      else if s.currentIndex >= |s.text| then
        s.(intervalActive := false, isComplete := true, completions := s.completions + 1)
      else
        s.(displayText := s.text[..s.currentIndex + 1], currentIndex := s.currentIndex + 1)
    case Teardown =>
      s.(startTimerPending := false, intervalActive := false)
  }

  lemma StepInv(s: Snapshot, e: Event)
    requires Inv(s)
    ensures Inv(Step(s, e))
  {
  }

  /** The state after a sequence of events. */
  function Run(s: Snapshot, es: seq<Event>): (r: Snapshot)
    requires Inv(s)
    ensures Inv(r)
    ensures r.text == s.text
    ensures r.completions >= s.completions
    decreases es
  {
    if es == [] then s
    else
      StepInv(s, es[0]);
      Run(Step(s, es[0]), es[1..])
  }

  lemma {:induction false} RunAppend(s: Snapshot, a: seq<Event>, b: seq<Event>)
    requires Inv(s)
    ensures Run(s, a + b) == Run(Run(s, a), b)
    decreases a
  {
    if a == [] {
      assert a + b == b;
    } else {
      StepInv(s, a[0]);
      assert (a + b)[0] == a[0];
      assert (a + b)[1..] == a[1..] + b;
      RunAppend(Step(s, a[0]), a[1..], b);
    }
  }

  function Ticks(n: nat): (es: seq<Event>)
    ensures |es| == n && forall i :: 0 <= i < n ==> es[i] == IntervalTick
  {
    seq(n, _ => IntervalTick)
  }

  /** Whatever happens, the text shown is a prefix of `text`, `onComplete` has
      fired at most once, and it has fired only with the whole text shown. */
  lemma RevealInvariants(text: string, es: seq<Event>)
    ensures var r := Run(Mounted(text), es);
      && r.displayText <= text
      && r.completions <= 1
      && (r.completions == 1 ==> r.isComplete && r.displayText == text)
  {
  }

  /** Each tick before completion lengthens the shown text by exactly the next
      character of `text`, and does not complete. */
  lemma TickRevealsOneMore(s: Snapshot)
    requires Inv(s) && s.intervalActive && s.currentIndex < |s.text|
    ensures var r := Step(s, IntervalTick);
      && r.displayText == s.displayText + [s.text[s.currentIndex]]
      && r.completions == s.completions && r.intervalActive
  {
  }

  /** `n` ticks of a running interval reveal `n` more characters. */
  lemma {:induction false} TicksReveal(s: Snapshot, n: nat)
    requires Inv(s) && s.intervalActive && s.currentIndex + n <= |s.text|
    ensures Run(s, Ticks(n)) ==
      s.(displayText := s.text[..s.currentIndex + n], currentIndex := s.currentIndex + n)
    decreases n
  {
    if n > 0 {
      var s' := Step(s, IntervalTick);
      assert Ticks(n)[1..] == Ticks(n - 1);
      TicksReveal(s', n - 1);
    }
  }

  /** For non-empty text, after the start event `len(text)` ticks show the whole
      text without completing, and tick `len(text) + 1` completes, once. */
  lemma CompletesOnTickAfterFullText(text: string)
    requires |text| > 0
    ensures var shown := Run(Mounted(text), [StartTimerFires] + Ticks(|text|));
      shown.displayText == text && !shown.isComplete && shown.completions == 0
    ensures var done := Run(Mounted(text), [StartTimerFires] + Ticks(|text| + 1));
      done.displayText == text && done.isComplete && done.completions == 1
      && !done.intervalActive
  {
    var started := Step(Mounted(text), StartTimerFires);
    RunAppend(Mounted(text), [StartTimerFires], Ticks(|text|));
    TicksReveal(started, |text|);
    assert Ticks(|text| + 1) == Ticks(|text|) + [IntervalTick];
    assert [StartTimerFires] + Ticks(|text| + 1) == ([StartTimerFires] + Ticks(|text|)) + [IntervalTick];
    RunAppend(Mounted(text), [StartTimerFires] + Ticks(|text|), [IntervalTick]);
  }

  /** Empty text completes on the start event itself and arms no interval. */
  lemma EmptyTextCompletesAtStart()
    ensures var r := Step(Mounted(""), StartTimerFires);
      r.isComplete && r.completions == 1 && !r.intervalActive && r.displayText == ""
  {
  }

  /** A state with no live timer ignores every event. */
  lemma {:induction false} QuiescentIgnoresEvents(s: Snapshot, es: seq<Event>)
    requires Inv(s) && !s.startTimerPending && !s.intervalActive
    ensures Run(s, es) == s
    decreases es
  {
    if es != [] {
      assert Step(s, es[0]) == s;
      QuiescentIgnoresEvents(s, es[1..]);
    }
  }

  /** After teardown nothing more is revealed and `onComplete` never fires. */
  lemma NoCompletionAfterTeardown(s: Snapshot, es: seq<Event>)
    requires Inv(s)
    ensures var r := Run(Step(s, Teardown), es);
      r.completions == s.completions && r.displayText == s.displayText
  {
    QuiescentIgnoresEvents(Step(s, Teardown), es);
  }

  /** Until the start timeout fires nothing is shown and nothing completes. */
  lemma {:induction false} NothingBeforeStart(s: Snapshot, es: seq<Event>)
    requires Inv(s) && !s.isStarted && s.displayText == []
    requires forall i :: 0 <= i < |es| ==> es[i] != StartTimerFires
    ensures var r := Run(s, es); !r.isStarted && r.displayText == [] && r.completions == 0
    decreases es
  {
    if es != [] {
      NothingBeforeStart(Step(s, es[0]), es[1..]);
    }
  }

  /** The component itself: its fields change step by step as the timers fire. */
  class Typewriter {
    const text: string
    var displayText: string
    var isStarted: bool
    var isComplete: bool
    var currentIndex: nat
    var startTimerPending: bool
    var intervalActive: bool
    /** How many times `onComplete` has been invoked. */
    ghost var completions: nat

    ghost function Snap(): Snapshot
      reads this
    {
      Snapshot(text, displayText, isStarted, isComplete, currentIndex,
               startTimerPending, intervalActive, completions)
    }

    ghost predicate Valid()
      reads this
    {
      Inv(Snap())
    }

    /** Mounting: the start-delay timeout is armed. */
    constructor (text: string)
      ensures Valid() && Snap() == Mounted(text)
    {
      this.text := text;
      displayText, isStarted, isComplete, currentIndex := "", false, false, 0;
      startTimerPending, intervalActive := true, false;
      completions := 0;
    }

    /** The start-delay timeout fires; `completed` says `onComplete` was invoked. */
    method OnStartTimer() returns (completed: bool)
      requires Valid()
      modifies this
      ensures Valid() && Snap() == Step(old(Snap()), StartTimerFires)
      ensures completed <==> completions == old(completions) + 1
    {
      completed := false;
      if startTimerPending {
        startTimerPending := false;
        isStarted := true;
        currentIndex := 0;
        if |text| == 0 {
          isComplete := true;
          completions := completions + 1;
          completed := true;
        } else {
          intervalActive := true;
        }
      }
    }

    /** The interval fires; `completed` says `onComplete` was invoked. */
    method OnTick() returns (completed: bool)
      requires Valid()
      modifies this
      ensures Valid() && Snap() == Step(old(Snap()), IntervalTick)
      ensures completed <==> completions == old(completions) + 1
    {
      completed := false;
      if intervalActive {
        if currentIndex >= |text| {
          intervalActive := false;
          isComplete := true;
          completions := completions + 1;
          completed := true;
        } else {
          displayText := text[..currentIndex + 1];
          currentIndex := currentIndex + 1;
        }
      }
    }

    /** Unmounting: both effects' cleanups clear their timers. */
    method TearDown()
      requires Valid()
      modifies this
      ensures Valid() && Snap() == Step(old(Snap()), Teardown)
    {
      startTimerPending := false;
      intervalActive := false;
    }
  }
}
