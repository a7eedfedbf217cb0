/**
 The lease inventory observer and the broker it watches, as a state machine. The broker is a versioned
 set that sends one notification per change while the subscription stands; a LIST is a snapshot taken
 when its first page is served. Each step is what runs between two awaits, so every interleaving of
 notifications, LIST passes, failures, reconnects, recovery, abort and close is a sequence of events.
 */
module InventoryModel {

  type Inventory = map<nat, nat>

  datatype Snapshot = NoSnapshot | Taken(version: nat, items: Inventory)

  /** The reconcile loop: absent, inside a LIST, backing off, or returned but not yet cleared. */
  datatype Pass = Idle | Listing(generation: nat, started: nat, snapshot: Snapshot) | Backoff | Finishing

  datatype Recovery = NoRecovery | Resubscribing | AwaitingPass | RecoverySleep

  datatype Observer = Observer(
    view: Inventory, ready: bool, subscriptionReady: bool, generation: nat, requested: bool,
    pass: Pass, recovery: Recovery, closed: bool, aborted: bool)

  /** `subscribed`: the wire subscription stands; `undelivered`: the versions of notifications under way. */
  datatype Broker = Broker(truth: Inventory, version: nat, subscribed: bool, undelivered: seq<nat>)

  /**
   History kept for the statements: the version the view was listed at, whether a pass failed since,
   the broker's version at the latest failure and whether another pass was asked for by then, and the
   number of steps so far.
   */
  datatype Trail = Trail(viewVersion: nat, failed: bool, failedUpTo: nat, askedAgain: bool, clock: nat)

  datatype State = State(o: Observer, b: Broker, online: bool, started: bool, t: Trail)

  datatype Event =
    | Change(truth: Inventory)
    | BrokerSubscribes
    | BrokerUnsubscribes
    | Bootstrapped
    | Notify
    | DropNotification
    | TakeSnapshot
    | ListReturned
    | ListThrew
    | BackoffOver
    | FinishPass
    | Periodic
    | SubscriptionFailed
    | Resubscribed
    | ResubscribeFailed
    | RecoveryPassOver
    | RecoveryWakes
    | Disconnect
    | Restored
    | Reconnected
    | ReconnectPassFailed
    | Abort
    | Close

  // ---------- The observer's own code ----------

  /** Only close and abort end the observer. */
  predicate SameEnd(o: Observer, n: Observer) {
    n.closed == o.closed && n.aborted == o.aborted
  }

  /** The head of the reconcile loop. */
  function LoopHead(o: Observer, now: nat): (n: Observer)
    ensures SameEnd(o, n)
  {
    if o.requested && !o.closed && o.subscriptionReady && !o.aborted
    then o.(requested := false, pass := Listing(o.generation, now, NoSnapshot))
    else o.(pass := Finishing)
  }

  function RequestReconcile(o: Observer, suspectGap: bool, now: nat): (n: Observer)
    ensures SameEnd(o, n)
  {
    var o1 := o.(requested := true, ready := o.ready && !suspectGap);
    if o.aborted then o1.(ready := false)
    else if !o.subscriptionReady || o.closed || o.pass != Idle then o1
    else LoopHead(o1, now)
  }

  /** What follows a LIST that returned: discard across a gap, retry after a race, or install. */
  function AfterList(o: Observer, candidate: Inventory): (n: Observer)
    requires o.pass.Listing?
    ensures SameEnd(o, n)
  {
    if o.closed then o.(pass := Finishing)
    else if !o.subscriptionReady || o.generation != o.pass.generation then o.(requested := true, pass := Finishing)
    else if o.requested then o.(pass := Backoff)
    else o.(view := candidate, ready := true, pass := Finishing)
  }

  predicate Installs(o: Observer) {
    o.pass.Listing? && !o.closed && o.subscriptionReady && o.generation == o.pass.generation && !o.requested
  }

  /** The pass is cleared; whatever was requested meanwhile starts the next one. */
  function Finish(o: Observer, now: nat): (n: Observer)
    ensures SameEnd(o, n)
  {
    var o1 := o.(pass := Idle);
    if o.requested && o.subscriptionReady && !o.closed then RequestReconcile(o1, false, now) else o1
  }

  function RecoveryHead(o: Observer, now: nat): (n: Observer)
    ensures SameEnd(o, n)
  {
    if o.closed || o.aborted then o.(recovery := NoRecovery)
    else if !o.subscriptionReady then o.(recovery := Resubscribing)
    else RequestReconcile(o, true, now).(recovery := AwaitingPass)
  }

  function Recover(o: Observer, replaceSubscription: bool, now: nat): (n: Observer)
    ensures SameEnd(o, n)
  {
    if o.closed || o.recovery != NoRecovery then o
    else RecoveryHead(o.(ready := false, subscriptionReady := o.subscriptionReady && !replaceSubscription), now)
  }

  function FailSubscription(o: Observer, now: nat): (n: Observer)
    ensures SameEnd(o, n)
  {
    if o.closed then o
    else Recover(o.(ready := false, subscriptionReady := false, generation := o.generation + 1, requested := true),
                 true, now)
  }

  function NewSubscription(o: Observer, now: nat): (n: Observer)
    ensures SameEnd(o, n)
  {
    if o.closed || o.aborted then o.(recovery := NoRecovery)
    else RecoveryHead(o.(subscriptionReady := true, generation := o.generation + 1), now)
  }

  // ---------- The whole system ----------

  function Init(truth: Inventory): State {
    State(Observer(map[], false, false, 0, true, Idle, NoRecovery, false, false),
          Broker(truth, 1, false, []), true, false, Trail(0, false, 0, false, 0))
  }

  /** When an event can happen; a notification without handler is lost, an unsubscribe follows a local end. */
  predicate Enabled(s: State, e: Event) {
    match e
    case BrokerSubscribes => s.online && (!s.started || s.o.recovery == Resubscribing)
    case BrokerUnsubscribes => s.started && (!s.o.subscriptionReady || s.o.aborted || s.o.closed)
    case Bootstrapped => !s.started && s.online && s.b.subscribed
    case Notify => s.b.undelivered != []
    case DropNotification => s.b.undelivered != [] && (!s.o.subscriptionReady || s.o.aborted || s.o.closed)
    case TakeSnapshot => s.o.pass.Listing? && s.o.pass.snapshot.NoSnapshot?
    case ListReturned => s.o.pass.Listing? && s.o.pass.snapshot.Taken?
    case ListThrew => s.o.pass.Listing?
    case BackoffOver => s.o.pass == Backoff
    case FinishPass => s.o.pass == Finishing
    case Periodic => s.started && !s.o.closed && !s.o.aborted
    case SubscriptionFailed => s.started
    case Resubscribed => s.o.recovery == Resubscribing && (s.b.subscribed || !s.online)
    case ResubscribeFailed => s.o.recovery == Resubscribing
    case RecoveryPassOver => s.o.recovery == AwaitingPass
    case RecoveryWakes => s.o.recovery == RecoverySleep
    case Disconnect => s.online && s.started
    case Restored => !s.online
    case Reconnected => !s.online && (s.b.subscribed || !s.o.subscriptionReady || s.o.aborted || s.o.closed)
    case ReconnectPassFailed => s.started && !s.o.closed
    case _ => true
  }

  /** What the observer's code does in one event. */
  function React(o: Observer, b: Broker, e: Event, now: nat): (n: Observer)
    ensures n.closed == (o.closed || e.Close?) && n.aborted == (o.aborted || e.Abort?)
  {
    match e
    case Bootstrapped => RequestReconcile(o.(subscriptionReady := true, generation := o.generation + 1), true, now)
    case Notify => RequestReconcile(o, false, now)
    case TakeSnapshot =>
      if o.pass.Listing? then o.(pass := o.pass.(snapshot := Taken(b.version, b.truth))) else o
    case ListReturned => if o.pass.Listing? && o.pass.snapshot.Taken? then AfterList(o, o.pass.snapshot.items) else o
    case ListThrew => o.(pass := Finishing)
    case BackoffOver => LoopHead(o, now)
    case FinishPass => Finish(o, now)
    case Periodic => RequestReconcile(o, false, now)
    case SubscriptionFailed => FailSubscription(o, now)
    case Resubscribed => NewSubscription(o, now)
    case ResubscribeFailed => o.(recovery := RecoverySleep)
    case RecoveryPassOver =>
      o.(recovery := if o.subscriptionReady && o.ready then NoRecovery else RecoverySleep)
    case RecoveryWakes => RecoveryHead(o, now)
    case Reconnected => if o.closed then o else RequestReconcile(o, true, now)
    case ReconnectPassFailed => Recover(o, false, now)
    case Abort => o.(aborted := true, ready := false)
    case Close => o.(closed := true)
    case _ => o
  }

  function BrokerStep(b: Broker, e: Event): Broker {
    match e
    case Change(truth) =>
      Broker(truth, b.version + 1, b.subscribed, if b.subscribed then b.undelivered + [b.version + 1] else b.undelivered)
    case BrokerSubscribes => b.(subscribed := true)
    case BrokerUnsubscribes => b.(subscribed := false)
    case Notify => if b.undelivered == [] then b else b.(undelivered := b.undelivered[1..])
    case DropNotification => if b.undelivered == [] then b else b.(undelivered := b.undelivered[1..])
    case Disconnect => b.(subscribed := false, undelivered := [])
    case Restored => b.(subscribed := true)
    case _ => b
  }

  function TrailStep(s: State, e: Event): Trail {
    var t := s.t.(clock := s.t.clock + 1);
    if e.ListReturned? && Installs(s.o) && s.o.pass.snapshot.Taken?
    then t.(viewVersion := s.o.pass.snapshot.version, failed := false)
    else if e.ListThrew? then t.(failed := true, failedUpTo := s.b.version, askedAgain := s.o.requested)
    else t
  }

  function Step(s: State, e: Event): State {
    if !Enabled(s, e) then s.(t := s.t.(clock := s.t.clock + 1))
    else State(
      React(s.o, s.b, e, s.t.clock + 1),
      BrokerStep(s.b, e),
      if e.Disconnect? then false else if e.Reconnected? then true else s.online,
      s.started || e.Bootstrapped?,
      TrailStep(s, e))
  }

  function Run(truth: Inventory, events: seq<Event>): State {
    if events == [] then Init(truth)
    else Step(Run(truth, events[..|events| - 1]), events[|events| - 1])
  }

  // ---------- Agreement ----------

  /** A period nothing is claimed for. */
  predicate Unwatched(s: State) {
    !s.online || !s.o.subscriptionReady || s.o.aborted || s.o.closed
  }

  /** A period nothing is claimed for, or one in which the code knows that the view is out of date. */
  predicate Gap(s: State) {
    Unwatched(s) || s.o.requested
  }

  /** Change number w will still reach the view: its notification is under way, or a pass will see it. */
  predicate StillComing(s: State, w: nat) {
    || w in s.b.undelivered
    || (s.o.pass.Listing? && (s.o.pass.snapshot.NoSnapshot? || w <= s.o.pass.snapshot.version))
  }

  /** The pass that was to show change number w failed. */
  predicate LostToFailure(s: State, w: nat) {
    s.t.failed && w <= s.t.failedUpTo
  }

  ghost predicate Covered(s: State) {
    Gap(s) || forall w: nat :: s.t.viewVersion < w <= s.b.version ==> StillComing(s, w) || LostToFailure(s, w)
  }

  /** What was listed at the broker's current version is what the broker holds now. */
  ghost predicate Listed(s: State) {
    && s.t.viewVersion <= s.b.version
    && (s.t.viewVersion == s.b.version ==> s.o.view == s.b.truth)
    && s.t.failedUpTo <= s.b.version
    && (s.o.pass.Listing? && s.o.pass.snapshot.Taken? ==>
          && s.t.viewVersion <= s.o.pass.snapshot.version <= s.b.version
          && s.t.failedUpTo <= s.o.pass.snapshot.version
          && (s.o.pass.snapshot.version == s.b.version ==> s.o.pass.snapshot.items == s.b.truth))
  }

  /** What the observer's own fields keep. */
  ghost predicate Consistent(o: Observer) {
    && (o.pass == Backoff ==> o.requested)
    && (o.pass.Listing? ==> o.pass.generation <= o.generation)
    && (o.recovery == Resubscribing ==> !o.subscriptionReady)
  }

  ghost predicate Sound(s: State) {
    && Consistent(s.o)
    && (s.b.subscribed || Unwatched(s))
    && (s.o.ready || Gap(s) || s.t.failed || s.o.pass.Listing?)
    && (!s.started ==> s.online && !s.o.subscriptionReady && s.o.pass == Idle && s.o.recovery == NoRecovery)
  }

  /** Events of the subscription and its recovery. */
  predicate OfSubscription(e: Event) {
    e.SubscriptionFailed? || e.Resubscribed? || e.RecoveryWakes? || e.ReconnectPassFailed? || e.Reconnected? || e.Bootstrapped?
  }

  predicate OfBroker(e: Event) {
    e.Change? || e.BrokerSubscribes? || e.BrokerUnsubscribes? || e.DropNotification? || e.Disconnect? || e.Restored?
  }

  lemma NewSessionStepSound(s: State, e: Event)
    requires Sound(s) && (e.Bootstrapped? || e.Reconnected?)
    ensures Sound(Step(s, e))
  {
  }

  lemma NewSessionStepListed(s: State, e: Event)
    requires Listed(s) && (e.Bootstrapped? || e.Reconnected?)
    ensures Listed(Step(s, e))
  {
  }

  lemma FailureStepSound(s: State, e: Event)
    requires Sound(s) && (e.SubscriptionFailed? || e.ReconnectPassFailed?)
    ensures Sound(Step(s, e))
  {
  }

  lemma FailureStepListed(s: State, e: Event)
    requires Listed(s) && (e.SubscriptionFailed? || e.ReconnectPassFailed?)
    ensures Listed(Step(s, e))
  {
  }

  lemma RecoveryStepSound(s: State, e: Event)
    requires Sound(s) && (e.Resubscribed? || e.RecoveryWakes?)
    ensures Sound(Step(s, e))
  {
  }

  lemma RecoveryStepListed(s: State, e: Event)
    requires Listed(s) && (e.Resubscribed? || e.RecoveryWakes?)
    ensures Listed(Step(s, e))
  {
  }

  lemma BrokerStepInvariant(s: State, e: Event)
    requires Sound(s) && Listed(s) && OfBroker(e)
    ensures Sound(Step(s, e)) && Listed(Step(s, e))
  {
  }

  /** The state after an event that touches the observer's fields only. */
  function Ticked(s: State, o: Observer): State {
    State(o, s.b, s.online, s.started, s.t.(clock := s.t.clock + 1))
  }

  lemma RequestStepSound(s: State, e: Event)
    requires Sound(s) && (e.Notify? || e.Periodic?)
    ensures Sound(Step(s, e))
  {
  }

  lemma RequestStepListed(s: State, e: Event)
    requires Listed(s) && (e.Notify? || e.Periodic?)
    ensures Listed(Step(s, e))
  {
  }

  lemma LoopStepSound(s: State, e: Event)
    requires Sound(s) && (e.BackoffOver? || e.FinishPass?)
    ensures Sound(Step(s, e))
  {
  }

  lemma LoopStepListed(s: State, e: Event)
    requires Listed(s) && (e.BackoffOver? || e.FinishPass?)
    ensures Listed(Step(s, e))
  {
  }

  lemma ListStepSound(s: State, e: Event)
    requires Sound(s) && (e.TakeSnapshot? || e.ListReturned? || e.ListThrew?)
    ensures Sound(Step(s, e))
  {
  }

  lemma ListStepListed(s: State, e: Event)
    requires Listed(s) && (e.TakeSnapshot? || e.ListReturned? || e.ListThrew?)
    ensures Listed(Step(s, e))
  {
  }

  /** Of the observer only the recovery changes, or it is aborted or closed. */
  predicate Winds(o: Observer, n: Observer) {
    && n.(recovery := o.recovery, aborted := o.aborted, closed := o.closed, ready := o.ready) == o
    && (o.aborted ==> n.aborted) && (o.closed ==> n.closed) && (n.ready ==> o.ready) && (o.ready ==> n.ready || n.aborted)
    && (n.recovery == o.recovery || (o.recovery != NoRecovery && n.recovery != Resubscribing))
  }

  lemma WindingInvariant(s: State, o: Observer)
    requires Sound(s) && Listed(s) && Winds(s.o, o)
    ensures Sound(Ticked(s, o)) && Listed(Ticked(s, o))
  {
  }

  lemma RestWinds(s: State, e: Event)
    requires e.ResubscribeFailed? || e.RecoveryPassOver? || e.Abort? || e.Close?
    ensures Step(s, e) == Ticked(s, Step(s, e).o) && Winds(s.o, Step(s, e).o)
  {
    if !Enabled(s, e) {
      assert Step(s, e) == Ticked(s, s.o);
    } else if e.Abort? {
      assert Step(s, e) == Ticked(s, s.o.(aborted := true, ready := false));
    } else if e.Close? {
      assert Step(s, e) == Ticked(s, s.o.(closed := true));
    } else {
      var r := if e.ResubscribeFailed? || !s.o.subscriptionReady || !s.o.ready then RecoverySleep else NoRecovery;
      assert Step(s, e) == Ticked(s, s.o.(recovery := r));
    }
  }

  lemma RestInvariant(s: State, e: Event)
    requires Sound(s) && Listed(s) && (e.ResubscribeFailed? || e.RecoveryPassOver? || e.Abort? || e.Close?)
    ensures Sound(Step(s, e)) && Listed(Step(s, e))
  {
    RestWinds(s, e);
    WindingInvariant(s, Step(s, e).o);
  }

  lemma StepInvariant(s: State, e: Event)
    requires Sound(s) && Listed(s)
    ensures Sound(Step(s, e)) && Listed(Step(s, e))
  {
    if e.Bootstrapped? || e.Reconnected? {
      NewSessionStepSound(s, e);
      NewSessionStepListed(s, e);
    } else if e.SubscriptionFailed? || e.ReconnectPassFailed? {
      FailureStepSound(s, e);
      FailureStepListed(s, e);
    } else if e.Resubscribed? || e.RecoveryWakes? {
      RecoveryStepSound(s, e);
      RecoveryStepListed(s, e);
    } else if OfBroker(e) {
      BrokerStepInvariant(s, e);
    } else if e.Notify? || e.Periodic? {
      RequestStepSound(s, e);
      RequestStepListed(s, e);
    } else if e.BackoffOver? || e.FinishPass? {
      LoopStepSound(s, e);
      LoopStepListed(s, e);
    } else if e.ResubscribeFailed? || e.RecoveryPassOver? || e.Abort? || e.Close? {
      RestInvariant(s, e);
    } else {
      ListStepSound(s, e);
      ListStepListed(s, e);
    }
  }

  /** After an event of the subscription a pass is requested, or begins anew, or nothing is claimed. */
  lemma SubscriptionChangeCovered(s: State, e: Event, w: nat)
    requires OfSubscription(e) && Covered(s)
    requires !Gap(Step(s, e)) && Step(s, e).t.viewVersion < w <= Step(s, e).b.version
    ensures StillComing(Step(s, e), w) || LostToFailure(Step(s, e), w)
  {
    assert !Gap(s) ==> StillComing(s, w) || LostToFailure(s, w);
  }

  lemma ChangeStepCovered(s: State, e: Event, w: nat)
    requires Sound(s) && Listed(s) && Covered(s)
    requires !Gap(Step(s, e)) && Step(s, e).t.viewVersion < w <= Step(s, e).b.version
    ensures StillComing(Step(s, e), w) || LostToFailure(Step(s, e), w)
  {
    if OfSubscription(e) {
      SubscriptionChangeCovered(s, e, w);
    } else if !Gap(s) && s.t.viewVersion < w <= s.b.version {
      assert StillComing(s, w) || LostToFailure(s, w);
      if w in s.b.undelivered {
        var i :| 0 <= i < |s.b.undelivered| && s.b.undelivered[i] == w;
        assert i > 0 ==> s.b.undelivered[1..][i - 1] == w;
      }
    }
  }

  lemma StepCovered(s: State, e: Event)
    requires Sound(s) && Listed(s) && Covered(s)
    ensures Covered(Step(s, e))
  {
    if !Gap(Step(s, e)) {
      forall w: nat | Step(s, e).t.viewVersion < w <= Step(s, e).b.version
        ensures StillComing(Step(s, e), w) || LostToFailure(Step(s, e), w)
      {
        ChangeStepCovered(s, e, w);
      }
    }
  }

  ghost predicate Invariant(s: State) {
    Sound(s) && Listed(s) && Covered(s)
  }

  /** What an enabled event does, part by part, and that it keeps the invariant. */
  lemma StepKept(s: State, e: Event)
    requires Invariant(s) && Enabled(s, e)
    ensures Invariant(Step(s, e))
    ensures Step(s, e).o == React(s.o, s.b, e, s.t.clock + 1) && Step(s, e).t.clock == s.t.clock + 1
  {
    StepInvariant(s, e);
    StepCovered(s, e);
  }

  lemma {:induction false} RunInvariant(truth: Inventory, events: seq<Event>)
    ensures Sound(Run(truth, events)) && Listed(Run(truth, events)) && Covered(Run(truth, events))
  {
    if events != [] {
      var s, e := Run(truth, events[..|events| - 1]), events[|events| - 1];
      RunInvariant(truth, events[..|events| - 1]);
      StepInvariant(s, e);
      StepCovered(s, e);
    }
  }

  /** Connected, subscribed, nothing under way, no reconcile requested or active. */
  predicate Settled(s: State) {
    && !Gap(s)
    && s.b.undelivered == [] && s.o.pass == Idle
  }

  lemma RestingView(s: State)
    requires Sound(s) && Listed(s) && Covered(s) && Settled(s)
    ensures s.t.viewVersion == s.b.version <==> !(s.t.failed && s.t.viewVersion < s.t.failedUpTo)
    ensures !s.t.failed ==> s.o.ready && s.o.view == s.b.truth
  {
    assert s.t.viewVersion < s.b.version ==> LostToFailure(s, s.b.version);
  }

  /**
   The exact condition: at rest the view shows the broker's present version if and only if no pass failed
   since the install at a version later than the one shown.
   */
  lemma {:induction false} ViewIsCurrentIff(truth: Inventory, events: seq<Event>)
    requires Settled(Run(truth, events))
    ensures var s := Run(truth, events);
            s.t.viewVersion == s.b.version <==> !(s.t.failed && s.t.viewVersion < s.t.failedUpTo)
  {
    RunInvariant(truth, events);
    RestingView(Run(truth, events));
  }

  /** Observer agreement: at rest and with no pass failed since the install, the observer shows the broker's set. */
  lemma {:induction false} Agreement(truth: Inventory, events: seq<Event>)
    requires Settled(Run(truth, events)) && !Run(truth, events).t.failed
    ensures Run(truth, events).o.ready && Run(truth, events).o.view == Run(truth, events).b.truth
  {
    RunInvariant(truth, events);
    RestingView(Run(truth, events));
  }

  // ---------- Where a stale view comes from ----------

  /** A failed pass after which another was asked for is still to be made up for. */
  ghost predicate MadeUpFor(s: State) {
    s.t.failed && s.t.askedAgain ==> Gap(s) || s.o.pass.Listing?
  }

  lemma SubscriptionStepMadeUp(s: State, e: Event)
    requires MadeUpFor(s) && Sound(s) && OfSubscription(e)
    ensures MadeUpFor(Step(s, e))
  {
  }

  lemma StepMadeUp(s: State, e: Event)
    requires MadeUpFor(s) && Sound(s)
    ensures MadeUpFor(Step(s, e))
  {
    if OfSubscription(e) {
      SubscriptionStepMadeUp(s, e);
    }
  }

  lemma {:induction false} RunMadeUp(truth: Inventory, events: seq<Event>)
    ensures MadeUpFor(Run(truth, events))
  {
    if events != [] {
      RunMadeUp(truth, events[..|events| - 1]);
      RunInvariant(truth, events[..|events| - 1]);
      StepMadeUp(Run(truth, events[..|events| - 1]), events[|events| - 1]);
    }
  }

  /** Event k is the failure of a pass, at the given version of the broker and with the view listed at `shown`. */
  ghost predicate ThrewAt(truth: Inventory, events: seq<Event>, k: nat, version: nat, shown: nat, requested: bool) {
    && k < |events| && events[k].ListThrew?
    && var s := Run(truth, events[..k]);
      && Enabled(s, ListThrew) && s.b.version == version && s.t.viewVersion == shown && s.o.requested == requested
  }

  lemma {:induction false} LatestFailure(truth: Inventory, events: seq<Event>)
    requires Run(truth, events).t.failed
    ensures var t := Run(truth, events).t;
            exists k: nat :: ThrewAt(truth, events, k, t.failedUpTo, t.viewVersion, t.askedAgain)
  {
    var n := |events| - 1;
    var s, t := Run(truth, events[..n]), Run(truth, events).t;
    if Enabled(s, events[n]) && events[n].ListThrew? {
      assert ThrewAt(truth, events, n, t.failedUpTo, t.viewVersion, t.askedAgain);
    } else {
      assert t == s.t.(clock := t.clock);
      LatestFailure(truth, events[..n]);
      var k: nat :| ThrewAt(truth, events[..n], k, t.failedUpTo, t.viewVersion, t.askedAgain);
      assert events[..n][..k] == events[..k];
      assert ThrewAt(truth, events, k, t.failedUpTo, t.viewVersion, t.askedAgain);
    }
  }

  /**
   A view that is out of date at rest was left so by one step: a pass that threw, with no other asked for,
   when the broker was at its present version and the view already what it is now.
   */
  lemma {:induction false} StaleByUnrequestedFailure(truth: Inventory, events: seq<Event>)
    requires Settled(Run(truth, events)) && Run(truth, events).t.viewVersion < Run(truth, events).b.version
    ensures var s := Run(truth, events);
            exists k: nat :: ThrewAt(truth, events, k, s.b.version, s.t.viewVersion, false)
  {
    RunInvariant(truth, events);
    RunMadeUp(truth, events);
    var s := Run(truth, events);
    assert LostToFailure(s, s.b.version);
    LatestFailure(truth, events);
  }

  /** The observer is asked for a pass: by a notification, the timer, a subscription or a reconnect. */
  predicate Asks(s: State, e: Event) {
    && Enabled(s, e) && !s.o.closed
    && (e.Notify? || e.Periodic? || e.Bootstrapped? || e.SubscriptionFailed? || e.Reconnected?)
  }

  /** Unless closed, the observer knows of no failure, or a pass is asked for or under way. */
  predicate Answering(s: State) {
    !s.t.failed || s.o.requested || s.o.pass.Listing? || s.o.closed
  }

  lemma AskedIsAnswering(s: State, e: Event)
    requires Asks(s, e)
    ensures Answering(Step(s, e))
  {
  }

  lemma SubscriptionStepAnswering(s: State, e: Event)
    requires Answering(s) && OfSubscription(e)
    ensures Answering(Step(s, e))
  {
  }

  lemma RequestStepAnswering(s: State, e: Event)
    requires Answering(s) && (e.Notify? || e.Periodic? || e.BackoffOver? || e.FinishPass?)
    ensures Answering(Step(s, e))
  {
  }

  lemma StepAnswering(s: State, e: Event)
    requires Answering(s) && !e.ListThrew?
    ensures Answering(Step(s, e))
  {
    if OfSubscription(e) {
      SubscriptionStepAnswering(s, e);
    } else if e.Notify? || e.Periodic? || e.BackoffOver? || e.FinishPass? {
      RequestStepAnswering(s, e);
    }
  }

  lemma {:induction false} RunAnswering(truth: Inventory, events: seq<Event>, k: nat)
    requires k < |events| && Asks(Run(truth, events[..k]), events[k])
    requires forall j :: k < j < |events| ==> !events[j].ListThrew?
    ensures Answering(Run(truth, events))
  {
    var n := |events| - 1;
    if k == n {
      AskedIsAnswering(Run(truth, events[..n]), events[n]);
    } else {
      assert events[..n][..k] == events[..k];
      RunAnswering(truth, events[..n], k);
      StepAnswering(Run(truth, events[..n]), events[n]);
    }
  }

  /**
   Every request for a pass heals: whatever else happens in between, once the observer is at rest again
   and no pass has failed since the request, it is ready and shows the broker's set.
   */
  lemma {:induction false} RequestHeals(truth: Inventory, events: seq<Event>, k: nat)
    requires k < |events| && Asks(Run(truth, events[..k]), events[k])
    requires forall j :: k < j < |events| ==> !events[j].ListThrew?
    requires Settled(Run(truth, events))
    ensures Run(truth, events).o.ready && Run(truth, events).o.view == Run(truth, events).b.truth
  {
    RunAnswering(truth, events, k);
    Agreement(truth, events);
  }

  // ---------- A failing run, and repair ----------

  lemma {:induction false} RunOn(truth: Inventory, events: seq<Event>, e: Event, n: State)
    requires Step(Run(truth, events), e) == n
    ensures Run(truth, events + [e]) == n
  {
    assert (events + [e])[..|events|] == events;
  }

  /** Subscribing to an empty set and listing it once. */
  const SUBSCRIBED: seq<Event> := [BrokerSubscribes] + [Bootstrapped]
  const QUIET_START: seq<Event> := SUBSCRIBED + [TakeSnapshot] + [ListReturned] + [FinishPass]
  const QUIET: State := State(Observer(map[], true, true, 1, false, Idle, NoRecovery, false, false),
                              Broker(map[], 1, true, []), true, true, Trail(1, false, 0, false, 5))

  lemma SubscribedLists()
    ensures Run(map[], SUBSCRIBED) ==
            State(Observer(map[], false, true, 1, false, Listing(1, 2, NoSnapshot), NoRecovery, false, false),
                  Broker(map[], 1, true, []), true, true, Trail(0, false, 0, false, 2))
  {
    var start := Init(map[]).(b := Broker(map[], 1, true, []), t := Trail(0, false, 0, false, 1));
    assert Run(map[], []) == Init(map[]) && [] + [BrokerSubscribes] == [BrokerSubscribes];
    RunOn(map[], [], BrokerSubscribes, start);
    RunOn(map[], [BrokerSubscribes], Bootstrapped,
          State(Observer(map[], false, true, 1, false, Listing(1, 2, NoSnapshot), NoRecovery, false, false),
                start.b, true, true, Trail(0, false, 0, false, 2)));
  }

  lemma QuietStartIsReady()
    ensures Run(map[], QUIET_START) == QUIET
  {
    SubscribedLists();
    var listed := QUIET.(o := QUIET.o.(ready := false, pass := Listing(1, 2, Taken(1, map[]))), t := Trail(0, false, 0, false, 3));
    RunOn(map[], SUBSCRIBED, TakeSnapshot, listed);
    var installed := QUIET.(o := QUIET.o.(pass := Finishing), t := Trail(1, false, 0, false, 4));
    RunOn(map[], SUBSCRIBED + [TakeSnapshot], ListReturned, installed);
    RunOn(map[], SUBSCRIBED + [TakeSnapshot] + [ListReturned], FinishPass, QUIET);
  }

  /** The set then changes, and the notification starts a pass. */
  const NOTIFIED: seq<Event> := QUIET_START + [Change(map[1 := 1])] + [Notify]

  lemma ChangeNotified()
    ensures Run(map[], NOTIFIED) ==
            State(QUIET.o.(pass := Listing(1, 7, NoSnapshot)), Broker(map[1 := 1], 2, true, []), true, true,
                  Trail(1, false, 0, false, 7))
  {
    QuietStartIsReady();
    var changed := QUIET.(b := Broker(map[1 := 1], 2, true, [2]), t := Trail(1, false, 0, false, 6));
    RunOn(map[], QUIET_START, Change(map[1 := 1]), changed);
    RunOn(map[], QUIET_START + [Change(map[1 := 1])], Notify,
          State(QUIET.o.(pass := Listing(1, 7, NoSnapshot)), Broker(map[1 := 1], 2, true, []), true, true,
                Trail(1, false, 0, false, 7)));
  }

  /** A pass that fails unrequested is given up: the observer is as before, and nothing asks for another. */
  lemma FailedPassGivesUp(s: State)
    requires s.o.pass.Listing? && !s.o.requested
    ensures var n := Step(Step(s, ListThrew), FinishPass); n.o == s.o.(pass := Idle) && n.b == s.b && n.online == s.online
  {
  }

  /**
   Why a failed pass must be excluded: it has already cleared the request a notification made. The
   observer ends settled and ready with a view that misses the change.
   */
  lemma FailedPassLeavesStaleView()
    ensures var s := Run(map[], NOTIFIED + [ListThrew] + [FinishPass]); Settled(s) && s.o.ready && s.o.view != s.b.truth
  {
    ChangeNotified();
    var s := Run(map[], NOTIFIED);
    FailedPassGivesUp(s);
    RunOn(map[], NOTIFIED, ListThrew, Step(s, ListThrew));
    RunOn(map[], NOTIFIED + [ListThrew], FinishPass, Step(Step(s, ListThrew), FinishPass));
    assert 1 !in s.o.view && 1 in s.b.truth;
  }

  /** A LIST served, returned and cleared with nothing in between. */
  function UndisturbedPass(s: State): State {
    Step(Step(Step(s, TakeSnapshot), ListReturned), FinishPass)
  }

  /** A pass that nothing disturbs installs what the broker holds. */
  lemma UndisturbedPassInstalls(s: State)
    requires !Gap(s) && s.b.undelivered == []
    requires s.o.pass.Listing? && s.o.pass.generation == s.o.generation && s.o.pass.snapshot.NoSnapshot?
    ensures var n := UndisturbedPass(s);
            && n.o == s.o.(view := s.b.truth, ready := true, pass := Idle)
            && n.b == s.b && n.online && !n.t.failed && n.started == s.started
  {
  }

  /** The periodic pass repairs it: from any settled state one undisturbed periodic pass ends in agreement. */
  lemma PeriodicPassRepairs(s: State)
    requires s.started && Settled(s)
    ensures var n := UndisturbedPass(Step(s, Periodic));
            Settled(n) && n.o.ready && !n.t.failed && n.o.view == n.b.truth
  {
    UndisturbedPassInstalls(Step(s, Periodic));
  }

  /** The failure of the subscription, its replacement and the pass that follows, up to the LIST. */
  function Replaced(s: State): State {
    Step(Step(Step(s, SubscriptionFailed), BrokerSubscribes), Resubscribed)
  }

  lemma ResubscribingLists(s: State)
    requires s.started && Settled(s) && s.o.recovery == NoRecovery
    ensures Replaced(s).o ==
            s.o.(ready := false, subscriptionReady := true, generation := s.o.generation + 2, requested := false,
                 pass := Listing(s.o.generation + 2, s.t.clock + 3, NoSnapshot), recovery := AwaitingPass)
    ensures Replaced(s).b == s.b.(subscribed := true) && Replaced(s).online && Replaced(s).started
  {
    var s1 := Step(s, SubscriptionFailed);
    assert s1.o == s.o.(ready := false, subscriptionReady := false, generation := s.o.generation + 1, requested := true,
                        recovery := Resubscribing);
  }

  lemma RecoveryEnds(s: State)
    requires s.o.recovery == AwaitingPass && s.o.subscriptionReady && s.o.ready
    ensures Step(s, RecoveryPassOver) == Ticked(s, s.o.(recovery := NoRecovery))
  {
  }

  /** Recovery repairs a failed subscription: undisturbed, it ends with a new one, in agreement, and over. */
  lemma RecoveryRepairs(s: State)
    requires s.started && Settled(s) && s.o.recovery == NoRecovery
    ensures var n := Step(UndisturbedPass(Replaced(s)), RecoveryPassOver);
            Settled(n) && n.o.ready && !n.t.failed && n.o.view == n.b.truth && n.o.recovery == NoRecovery
  {
    ResubscribingLists(s);
    UndisturbedPassInstalls(Replaced(s));
    RecoveryEnds(UndisturbedPass(Replaced(s)));
  }

  // ---------- Installs are isolated ----------

  /** Something that must keep the pass under way from being installed. */
  predicate Disturbs(s: State, e: Event) {
    Enabled(s, e) && !s.o.closed &&
    (e.Notify? || e.Periodic? || e.SubscriptionFailed? || e.Resubscribed? || e.Reconnected? || e.Close?)
  }

  predicate InstallStep(s: State, e: Event) {
    Enabled(s, e) && e.ListReturned? && Installs(s.o)
  }

  /** Since the pass under way began nothing disturbed it, unless it is already bound to be discarded. */
  ghost predicate Isolated(truth: Inventory, events: seq<Event>) {
    var s := Run(truth, events);
    s.o.pass.Listing? ==>
      && s.o.pass.started <= |events|
      && forall k :: s.o.pass.started <= k < |events| && Disturbs(Run(truth, events[..k]), events[k]) ==> !Installs(s.o)
  }

  lemma {:induction false} ClockCounts(truth: Inventory, events: seq<Event>)
    ensures Run(truth, events).t.clock == |events|
  {
    if events != [] {
      ClockCounts(truth, events[..|events| - 1]);
    }
  }

  /** A pass that goes on keeps its beginning, and one bound to be discarded stays so. */
  ghost predicate GoesOn(s: State, e: Event) {
    var n := Step(s, e);
    n.o.pass.Listing? ==>
      || n.o.pass.started == s.t.clock + 1
      || (s.o.pass.Listing? && n.o.pass.started == s.o.pass.started && (!Installs(s.o) || Disturbs(s, e) ==> !Installs(n.o)))
  }

  lemma SubscriptionStepGoesOn(s: State, e: Event)
    requires Sound(s) && OfSubscription(e)
    ensures GoesOn(s, e)
  {
  }

  lemma RequestStepGoesOn(s: State, e: Event)
    requires Sound(s) && (e.Notify? || e.Periodic? || e.BackoffOver? || e.FinishPass?)
    ensures GoesOn(s, e)
  {
  }

  lemma BrokerStepGoesOn(s: State, e: Event)
    requires Sound(s) && OfBroker(e)
    ensures GoesOn(s, e)
  {
  }

  lemma PassGoesOn(s: State, e: Event)
    requires Sound(s)
    ensures GoesOn(s, e)
  {
    if OfSubscription(e) {
      SubscriptionStepGoesOn(s, e);
    } else if OfBroker(e) {
      BrokerStepGoesOn(s, e);
    } else if e.Notify? || e.Periodic? || e.BackoffOver? || e.FinishPass? {
      RequestStepGoesOn(s, e);
    }
  }

  lemma StillIsolated(truth: Inventory, events: seq<Event>, e: Event, k: nat)
    requires Isolated(truth, events) && Run(truth, events).t.clock == |events| && GoesOn(Run(truth, events), e)
    requires k <= |events| && Disturbs(Run(truth, events[..k]), if k < |events| then events[k] else e)
    ensures var n := Step(Run(truth, events), e);
            n.o.pass.Listing? && n.o.pass.started <= k ==> !Installs(n.o)
  {
    assert events[..|events|] == events;
  }

  lemma {:induction false} RunIsolated(truth: Inventory, events: seq<Event>)
    ensures Isolated(truth, events)
  {
    if events != [] {
      var n := |events| - 1;
      var before, e := events[..n], events[n];
      RunIsolated(truth, before);
      RunInvariant(truth, before);
      ClockCounts(truth, before);
      PassGoesOn(Run(truth, before), e);
      assert Run(truth, events) == Step(Run(truth, before), e);
      forall k: nat | k < |events| && Disturbs(Run(truth, events[..k]), events[k])
        ensures var t := Run(truth, events); t.o.pass.Listing? && t.o.pass.started <= k ==> !Installs(t.o)
      {
        assert before[..k] == events[..k];
        StillIsolated(truth, before, e, k);
      }
    }
  }

  /**
   Install isolation: when a view is installed, no invalidation, subscription failure, resubscription,
   reconnect or close happened since that pass began.
   */
  lemma {:induction false} InstallsAreIsolated(truth: Inventory, events: seq<Event>, e: Event)
    requires InstallStep(Run(truth, events), e)
    ensures Run(truth, events).o.pass.started <= |events|
    ensures forall k :: Run(truth, events).o.pass.started <= k < |events| ==> !Disturbs(Run(truth, events[..k]), events[k])
  {
    RunIsolated(truth, events);
  }

  lemma RecoveryPublishesNothing(o: Observer, replaceSubscription: bool, now: nat)
    ensures Recover(o, replaceSubscription, now).view == o.view && RecoveryHead(o, now).view == o.view
    ensures Recover(o, replaceSubscription, now).ready || RecoveryHead(o, now).ready ==> o.ready
  {
  }

  lemma ReactPublishesOnInstall(o: Observer, b: Broker, e: Event, now: nat)
    requires e.ListReturned? ==> !Installs(o) || o.pass.snapshot.NoSnapshot?
    ensures React(o, b, e, now).view == o.view && (React(o, b, e, now).ready ==> o.ready)
  {
    match e
    case SubscriptionFailed =>
      RecoveryPublishesNothing(
        o.(ready := false, subscriptionReady := false, generation := o.generation + 1, requested := true), true, now);
    case ReconnectPassFailed => RecoveryPublishesNothing(o, false, now);
    case RecoveryWakes => RecoveryPublishesNothing(o, false, now);
    case Resubscribed =>
      RecoveryPublishesNothing(o.(subscriptionReady := true, generation := o.generation + 1), false, now);
    case _ =>
  }

  /** The view changes, and `ready` becomes true, only at an install. */
  lemma OnlyInstallsPublish(s: State, e: Event)
    ensures Step(s, e).o.view != s.o.view || (!s.o.ready && Step(s, e).o.ready) ==> InstallStep(s, e)
  {
    if Enabled(s, e) && !InstallStep(s, e) {
      ReactPublishesOnInstall(s.o, s.b, e, s.t.clock + 1);
    }
  }

  /** A genuine gap: bootstrap, a failed subscription, a reconnect or an abort. */
  predicate OpensGap(s: State, e: Event) {
    Enabled(s, e) && (e.Abort? || (!s.o.closed && (e.Bootstrapped? || e.SubscriptionFailed? || e.Reconnected?)))
  }

  lemma GapIsNotReady(s: State, e: Event)
    requires OpensGap(s, e)
    ensures !Step(s, e).o.ready
  {
  }

  /** After a genuine gap the observer is ready only once a view was installed again. */
  lemma {:induction false} ReadyAgainOnlyByInstall(truth: Inventory, events: seq<Event>, k: nat)
    requires k < |events| && OpensGap(Run(truth, events[..k]), events[k]) && Run(truth, events).o.ready
    ensures exists j :: k < j < |events| && InstallStep(Run(truth, events[..j]), events[j])
  {
    var n := |events| - 1;
    var s := Run(truth, events[..n]);
    assert Run(truth, events) == Step(s, events[n]);
    if k == n {
      GapIsNotReady(s, events[n]);
    } else {
      OnlyInstallsPublish(s, events[n]);
      if !InstallStep(s, events[n]) {
        assert events[..n][..k] == events[..k];
        ReadyAgainOnlyByInstall(truth, events[..n], k);
        var j :| k < j < n && InstallStep(Run(truth, events[..n][..j]), events[..n][j]);
        assert events[..n][..j] == events[..j];
      }
    }
  }
}
