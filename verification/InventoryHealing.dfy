/**
 The observer never gives up: while its subscription is gone a recovery is at work, and as long as it is neither
 closed nor aborted it can always come to rest on the broker's set again.
 */
module InventoryHealing {
  import opened InventoryModel

  // ---------- A recovery is at work ----------

  /** An open observer without a subscription has a recovery at work. */
  predicate RecoveryAtWork(s: State) {
    s.started && !s.o.closed && !s.o.aborted && !s.o.subscriptionReady ==> s.o.recovery != NoRecovery
  }

  lemma SubscriptionStepAtWork(s: State, e: Event)
    requires RecoveryAtWork(s) && Sound(s) && OfSubscription(e)
    ensures RecoveryAtWork(Step(s, e))
  {
  }

  lemma StepAtWork(s: State, e: Event)
    requires RecoveryAtWork(s) && Sound(s)
    ensures RecoveryAtWork(Step(s, e))
  {
    if OfSubscription(e) {
      SubscriptionStepAtWork(s, e);
    }
  }

  lemma {:induction false} RunAtWork(truth: Inventory, events: seq<Event>)
    ensures RecoveryAtWork(Run(truth, events))
  {
    if events != [] {
      RunAtWork(truth, events[..|events| - 1]);
      RunInvariant(truth, events[..|events| - 1]);
      StepAtWork(Run(truth, events[..|events| - 1]), events[|events| - 1]);
    }
  }

  // ---------- Healing ----------

  function RunFrom(s: State, events: seq<Event>): State {
    if events == [] then s else Step(RunFrom(s, events[..|events| - 1]), events[|events| - 1])
  }

  /** At rest, ready, and showing what the broker holds. */
  predicate Healed(s: State) {
    Settled(s) && s.o.ready && s.o.view == s.b.truth
  }

  /** Some continuation heals, while the broker's set stays as it is. */
  ghost predicate Heals(s: State) {
    exists events: seq<Event> :: (forall k :: 0 <= k < |events| ==> !events[k].Change?) && Healed(RunFrom(s, events))
  }

  lemma HealsNow(s: State)
    requires Healed(s)
    ensures Heals(s)
  {
    assert RunFrom(s, []) == s;
  }

  lemma {:induction false} RunAfterStep(s: State, e: Event, events: seq<Event>)
    ensures RunFrom(s, [e] + events) == RunFrom(Step(s, e), events)
    decreases |events|
  {
    var all := [e] + events;
    if events == [] {
      assert all[..0] == [];
    } else {
      RunAfterStep(s, e, events[..|events| - 1]);
      assert all[..|all| - 1] == [e] + events[..|events| - 1];
    }
  }

  lemma HealsAfter(s: State, e: Event)
    requires !e.Change? && Heals(Step(s, e))
    ensures Heals(s)
  {
    var events: seq<Event> :| (forall k :: 0 <= k < |events| ==> !events[k].Change?) && Healed(RunFrom(Step(s, e), events));
    RunAfterStep(s, e, events);
    assert forall k :: 0 <= k < |events| + 1 ==> !([e] + events)[k].Change?;
  }

  /** What the steps below keep. */
  ghost predicate Open(s: State) {
    Sound(s) && Listed(s) && RecoveryAtWork(s) && !s.o.closed && !s.o.aborted
  }

  /** What the observer waits for next. */
  function Next(s: State): Event {
    if !s.started then if s.b.subscribed then Bootstrapped else BrokerSubscribes
    else if !s.online then if Enabled(s, Reconnected) then Reconnected else Restored
    else if s.b.undelivered != [] then Notify
    else match s.o.pass
      case Listing(_, _, snapshot) => if snapshot.NoSnapshot? then TakeSnapshot else ListReturned
      case Backoff => BackoffOver
      case Finishing => FinishPass
      case Idle =>
        if s.o.subscriptionReady then Periodic
        else match s.o.recovery
          case Resubscribing => if s.b.subscribed then Resubscribed else BrokerSubscribes
          case AwaitingPass => RecoveryPassOver
          case _ => RecoveryWakes
  }

  // ---------- It comes nearer with each step ----------

  function Unbegun(s: State): nat {
    if s.started then 0 else if s.b.subscribed then 1 else 2
  }

  function Offline(s: State): nat {
    if s.online then 0 else if Enabled(s, Reconnected) then 1 else 2
  }

  function Unsubscribed(s: State): nat {
    if s.o.subscriptionReady then 0 else 1
  }

  /** How far the pass under way is from its end; one bound to be repeated is farther. */
  function PassLeft(o: Observer): nat {
    match o.pass
    case Idle => 0
    case Finishing => if o.requested && o.subscriptionReady then 4 else 1
    case Backoff => 4
    case Listing(generation, _, snapshot) =>
      (if o.subscriptionReady && (o.requested || generation != o.generation) then 5 else 2)
      + (if snapshot.NoSnapshot? then 1 else 0)
  }

  function RecoveryLeft(s: State): nat {
    match s.o.recovery
    case NoRecovery => 0
    case Resubscribing => if s.b.subscribed then 1 else 2
    case RecoverySleep => 3
    case AwaitingPass => 4
  }

  predicate Nearer(n: State, s: State) {
    || Unbegun(n) < Unbegun(s)
    || (Unbegun(n) == Unbegun(s) && (
        || Offline(n) < Offline(s)
        || (Offline(n) == Offline(s) && (
            || |n.b.undelivered| < |s.b.undelivered|
            || (n.b.undelivered == s.b.undelivered && (
                || Unsubscribed(n) < Unsubscribed(s)
                || (Unsubscribed(n) == Unsubscribed(s) && (
                    || PassLeft(n.o) < PassLeft(s.o)
                    || (PassLeft(n.o) == PassLeft(s.o) && RecoveryLeft(n) < RecoveryLeft(s))))))))))
  }

  predicate Quiet(s: State) {
    s.started && s.online && s.b.undelivered == [] && s.o.pass == Idle && s.o.subscriptionReady
  }

  lemma BeginningNears(s: State)
    requires Open(s) && (!s.started || !s.online)
    ensures Nearer(Step(s, Next(s)), s)
  {
  }

  lemma PassNears(s: State)
    requires Open(s) && s.started && s.online && (s.b.undelivered != [] || s.o.pass != Idle)
    ensures Nearer(Step(s, Next(s)), s)
  {
  }

  lemma RecoveryNears(s: State)
    requires Open(s) && s.started && s.online && s.b.undelivered == [] && s.o.pass == Idle && !s.o.subscriptionReady
    ensures Nearer(Step(s, Next(s)), s)
  {
  }

  /** Only an abort and a close end the observer. */
  lemma OnlyTheseEnd(s: State, e: Event)
    ensures Step(s, e).o.closed <==> s.o.closed || e.Close?
    ensures Step(s, e).o.aborted <==> s.o.aborted || e.Abort?
  {
  }

  lemma StaysOpen(s: State)
    requires Open(s)
    ensures Open(Step(s, Next(s))) && !Next(s).Change?
  {
    OnlyTheseEnd(s, Next(s));
    StepInvariant(s, Next(s));
    StepAtWork(s, Next(s));
  }

  /** A pass that is free to begin, begun and left alone. */
  lemma QuietHeals(s: State)
    requires Open(s) && Quiet(s)
    ensures Heals(s)
  {
    var n := Step(s, Periodic);
    assert n.o == s.o.(requested := false, pass := Listing(s.o.generation, s.t.clock + 1, NoSnapshot));
    UndisturbedPassInstalls(n);
    HealsNow(UndisturbedPass(n));
    HealsAfter(Step(Step(n, TakeSnapshot), ListReturned), FinishPass);
    HealsAfter(Step(n, TakeSnapshot), ListReturned);
    HealsAfter(n, TakeSnapshot);
    HealsAfter(s, Periodic);
  }

  lemma {:induction false} OpenHeals(s: State)
    requires Open(s)
    ensures Heals(s)
    decreases Unbegun(s), Offline(s), |s.b.undelivered|, Unsubscribed(s), PassLeft(s.o), RecoveryLeft(s)
  {
    if Quiet(s) {
      QuietHeals(s);
    } else {
      if !s.started || !s.online {
        BeginningNears(s);
      } else if s.b.undelivered != [] || s.o.pass != Idle {
        PassNears(s);
      } else {
        RecoveryNears(s);
      }
      StaysOpen(s);
      OpenHeals(Step(s, Next(s)));
      HealsAfter(s, Next(s));
    }
  }

  lemma {:induction false} EndedStays(s: State, events: seq<Event>)
    requires s.o.closed || s.o.aborted
    ensures RunFrom(s, events).o.closed || RunFrom(s, events).o.aborted
  {
    if events != [] {
      EndedStays(s, events[..|events| - 1]);
      OnlyTheseEnd(RunFrom(s, events[..|events| - 1]), events[|events| - 1]);
    }
  }

  /** A closed observer shows what it showed, for good. */
  lemma {:induction false} ClosedShowsTheSame(s: State, events: seq<Event>)
    requires s.o.closed
    ensures RunFrom(s, events).o.closed && RunFrom(s, events).o.view == s.o.view
  {
    if events != [] {
      var n := RunFrom(s, events[..|events| - 1]);
      ClosedShowsTheSame(s, events[..|events| - 1]);
      OnlyTheseEnd(n, events[|events| - 1]);
      OnlyInstallsPublish(n, events[|events| - 1]);
    }
  }

  /**
   In every run, whatever failed, raced or went missing before, some continuation brings the observer to rest on what
   the broker holds now if and only if it is neither closed nor aborted.
   */
  lemma {:induction false} CanHealIff(truth: Inventory, events: seq<Event>)
    ensures Heals(Run(truth, events)) <==> !Run(truth, events).o.closed && !Run(truth, events).o.aborted
  {
    var s := Run(truth, events);
    if s.o.closed || s.o.aborted {
      forall more: seq<Event> ensures !Healed(RunFrom(s, more)) {
        EndedStays(s, more);
      }
    } else {
      RunInvariant(truth, events);
      RunAtWork(truth, events);
      OpenHeals(s);
    }
  }

  // ---------- Requests are taken up ----------

  /** No request is left lying while no pass is under way and one could begin. */
  predicate NoneLeftLying(o: Observer) {
    o.pass == Idle && o.requested ==> !o.subscriptionReady || o.closed || o.aborted
  }

  lemma SubscriptionStepTakesUp(s: State, e: Event)
    requires NoneLeftLying(s.o) && OfSubscription(e)
    ensures NoneLeftLying(Step(s, e).o)
  {
  }

  lemma StepTakesUp(s: State, e: Event)
    requires NoneLeftLying(s.o)
    ensures NoneLeftLying(Step(s, e).o)
  {
    if OfSubscription(e) {
      SubscriptionStepTakesUp(s, e);
    }
  }

  /** In every run, a pass that was asked for is under way, or will be begun by the one under way, unless none can begin. */
  lemma {:induction false} RequestsAreTakenUp(truth: Inventory, events: seq<Event>)
    ensures NoneLeftLying(Run(truth, events).o)
  {
    if events != [] {
      RequestsAreTakenUp(truth, events[..|events| - 1]);
      StepTakesUp(Run(truth, events[..|events| - 1]), events[|events| - 1]);
    }
  }

  /** What becomes of a LIST: installed when nothing disturbed it, repeated after a backoff when a change raced it, and else discarded. */
  lemma ListOutcome(s: State)
    requires Enabled(s, ListReturned)
    ensures var o, n := s.o, Step(s, ListReturned).o;
            var current := !o.closed && o.subscriptionReady && o.pass.generation == o.generation;
            && (current && !o.requested ==> n.view == o.pass.snapshot.items && n.ready && n.pass == Finishing && !n.requested)
            && (current && o.requested ==> n == o.(pass := Backoff))
            && (!current ==> n.view == o.view && n.ready == o.ready && n.pass == Finishing && (o.closed || n.requested))
  {
  }

  /** A reconnect whose pass failed leaves the view out of date, and a recovery at work. */
  lemma FailedReconnectRecovers(s: State)
    requires Enabled(s, ReconnectPassFailed) && s.o.recovery == NoRecovery && !s.o.aborted
    ensures var n := Step(s, ReconnectPassFailed).o; !n.ready && n.recovery != NoRecovery && n.view == s.o.view
  {
  }

  lemma SubscriptionStepBegins(s: State, e: Event)
    requires OfSubscription(e) && !s.o.pass.Listing? && Step(s, e).o.pass.Listing?
    ensures var n := Step(s, e);
            && !Unwatched(n.(online := true)) && !n.o.requested
            && n.o.pass == Listing(n.o.generation, n.t.clock, NoSnapshot)
  {
  }

  /** A pass begins only on an observer that is subscribed, open and not aborted; it takes up the request. */
  lemma PassBegins(s: State, e: Event)
    requires !s.o.pass.Listing? && Step(s, e).o.pass.Listing?
    ensures var n := Step(s, e);
            && !Unwatched(n.(online := true)) && !n.o.requested
            && n.o.pass == Listing(n.o.generation, n.t.clock, NoSnapshot)
  {
    if OfSubscription(e) {
      SubscriptionStepBegins(s, e);
    }
  }

  /** A recovery that has a subscription, new or still standing, asks for a pass across a gap and waits for it. */
  lemma RecoveryRelists(s: State, e: Event)
    requires Enabled(s, e) && (e.Resubscribed? || (e.RecoveryWakes? && s.o.subscriptionReady)) && !s.o.closed && !s.o.aborted
    ensures var n := Step(s, e).o;
            && n.subscriptionReady && !n.ready && n.recovery == AwaitingPass
            && n.generation == s.o.generation + (if e.Resubscribed? then 1 else 0)
            && (if s.o.pass == Idle then n.pass.Listing? else n.requested && n.pass == s.o.pass)
  {
  }

  /** A recovery at work is not begun again. */
  lemma OneRecovery(s: State, e: Event)
    requires s.o.recovery != NoRecovery && (e.SubscriptionFailed? || e.ReconnectPassFailed?)
    ensures Step(s, e).o.recovery == s.o.recovery
  {
  }
}
