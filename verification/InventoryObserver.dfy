/**
 The observer's closure as an object: its fields are the variables the source keeps, and each method is
 the code between two awaits. Beside them stand, as ghosts, the broker and the history the statements of
 InventoryModel speak of. Every event takes the step of that state machine and keeps its invariant, so a
 reader of the object gets what is proved there about every run.
 */
module InventoryObservers {
  import opened InventoryModel

  class InventoryObserver {
    var view: Inventory
    var ready: bool
    var subscriptionReady: bool
    var subscriptionGeneration: nat
    var reconcileRequested: bool
    var activeReconcile: Pass
    var activeRecovery: Recovery
    var closed: bool
    var aborted: bool
    ghost var broker: Broker
    ghost var online: bool
    ghost var started: bool
    ghost var trail: Trail

    constructor (ghost truth: Inventory)
      ensures Valid() && Model() == Init(truth)
    {
      view, ready, subscriptionReady, subscriptionGeneration := map[], false, false, 0;
      reconcileRequested, activeReconcile, activeRecovery := true, Idle, NoRecovery;
      closed, aborted := false, false;
      broker, online, started, trail := Init(truth).b, true, false, Init(truth).t;
    }

    ghost function State(): Observer
      reads this
    {
      Observer(view, ready, subscriptionReady, subscriptionGeneration, reconcileRequested,
               activeReconcile, activeRecovery, closed, aborted)
    }

    ghost function Model(): InventoryModel.State
      reads this
    {
      InventoryModel.State(State(), broker, online, started, trail)
    }

    /** Every change the view lacks is under way, or asked for, or was lost to a pass that failed. */
    ghost predicate Valid()
      reads this
    {
      Invariant(Model())
    }

    /** The broker's and the connection's part of an event, and that the whole step keeps the invariant. */
    ghost method Witness(e: Event)
      requires Valid() && Enabled(Model(), e)
      modifies `broker, `online, `started, `trail
      ensures trail.clock == old(trail.clock) + 1
      ensures Model().(o := React(State(), old(broker), e, trail.clock)) == Step(old(Model()), e)
      ensures Invariant(Step(old(Model()), e))
    {
      StepKept(Model(), e);
      var n := Step(Model(), e);
      broker, online, started, trail := n.b, n.online, n.started, n.t;
    }

    // ---------- The pieces the events are made of ----------

    /** From the head of the reconcile loop to its first await, or to its end. */
    method NextAttempt(now: nat)
      modifies `reconcileRequested, `activeReconcile
      ensures State() == LoopHead(old(State()), now)
    {
      activeReconcile := Finishing;
      if reconcileRequested && !closed {
        if !subscriptionReady || aborted {
          return;
        }
        reconcileRequested := false;
        activeReconcile := Listing(subscriptionGeneration, now, NoSnapshot);
      }
    }

    method Reconcile(suspectGap: bool, now: nat)
      modifies `reconcileRequested, `ready, `activeReconcile
      ensures State() == RequestReconcile(old(State()), suspectGap, now)
    {
      reconcileRequested := true;
      if suspectGap {
        ready := false;
      }
      if aborted {
        ready := false;
        return;
      }
      if !subscriptionReady || closed {
        return;
      }
      if activeReconcile != Idle {
        return;
      }
      NextAttempt(now);
    }

    method NextRecoveryAttempt(now: nat)
      modifies `reconcileRequested, `ready, `activeReconcile, `activeRecovery
      ensures State() == RecoveryHead(old(State()), now)
    {
      activeRecovery := NoRecovery;
      if closed || aborted {
        return;
      }
      if !subscriptionReady {
        activeRecovery := Resubscribing;
      } else {
        Reconcile(true, now);
        activeRecovery := AwaitingPass;
      }
    }

    method RecoverSubscription(replaceSubscription: bool, now: nat)
      modifies `subscriptionReady, `reconcileRequested, `ready, `activeReconcile, `activeRecovery
      ensures State() == Recover(old(State()), replaceSubscription, now)
    {
      if closed {
        return;
      }
      if activeRecovery != NoRecovery {
        return;
      }
      ready := false;
      if replaceSubscription {
        subscriptionReady := false;
      }
      NextRecoveryAttempt(now);
    }

    method DeclareGap(now: nat)
      modifies `subscriptionReady, `subscriptionGeneration, `reconcileRequested, `ready, `activeReconcile, `activeRecovery
      ensures State() == FailSubscription(old(State()), now)
    {
      if closed {
        return;
      }
      ready := false;
      subscriptionReady := false;
      subscriptionGeneration := subscriptionGeneration + 1;
      reconcileRequested := true;
      RecoverSubscription(true, now);
    }

    method AdoptSubscription(now: nat) returns (keep: bool)
      modifies `subscriptionReady, `subscriptionGeneration, `reconcileRequested, `ready, `activeReconcile, `activeRecovery
      ensures State() == NewSubscription(old(State()), now)
      ensures keep == (!closed && !aborted)
    {
      keep := !closed && !aborted;
      if !keep {
        activeRecovery := NoRecovery;
        return;
      }
      subscriptionReady := true;
      subscriptionGeneration := subscriptionGeneration + 1;
      NextRecoveryAttempt(now);
    }

    // ---------- The events ----------

    /** What the caller reads: at rest, and with no pass failed since the install, it is the broker's set. */
    method Snapshot() returns (items: Inventory, isReady: bool)
      requires Valid()
      ensures Settled(Model()) && !trail.failed ==> isReady && items == broker.truth
      ensures Settled(Model()) && items != broker.truth ==> trail.failed && trail.viewVersion < trail.failedUpTo
    {
      if Settled(Model()) {
        RestingView(Model());
      }
      items, isReady := view, ready;
    }

    method Bootstrapped(now: nat)
      requires Valid() && Enabled(Model(), InventoryModel.Bootstrapped) && now == trail.clock + 1
      modifies this
      ensures Valid() && Model() == Step(old(Model()), InventoryModel.Bootstrapped)
    {
      Witness(InventoryModel.Bootstrapped);
      subscriptionReady := true;
      subscriptionGeneration := subscriptionGeneration + 1;
      Reconcile(true, now);
    }

    /** A notification asks for a pass without declaring a gap. */
    method Invalidated(now: nat)
      requires Valid() && Enabled(Model(), Notify) && now == trail.clock + 1
      modifies this
      ensures Valid() && Model() == Step(old(Model()), Notify)
    {
      Witness(Notify);
      Reconcile(false, now);
    }

    method PeriodicReconcile(now: nat)
      requires Valid() && Enabled(Model(), Periodic) && now == trail.clock + 1
      modifies this
      ensures Valid() && Model() == Step(old(Model()), Periodic)
    {
      Witness(Periodic);
      Reconcile(false, now);
    }

    /** The broker serves the first page of a LIST: the snapshot all its pages show. */
    method FirstPageServed(version: nat, items: Inventory)
      requires Valid() && Enabled(Model(), TakeSnapshot) && version == broker.version && items == broker.truth
      modifies this
      ensures Valid() && Model() == Step(old(Model()), TakeSnapshot)
    {
      Witness(TakeSnapshot);
      activeReconcile := activeReconcile.(snapshot := Taken(version, items));
    }

    method ListReturned()
      requires Valid() && Enabled(Model(), InventoryModel.ListReturned)
      modifies this
      ensures Valid() && Model() == Step(old(Model()), InventoryModel.ListReturned)
    {
      Witness(InventoryModel.ListReturned);
      var passSubscriptionGeneration, candidate := activeReconcile.generation, activeReconcile.snapshot.items;
      activeReconcile := Finishing;
      if closed {
        return;
      }
      if !subscriptionReady || subscriptionGeneration != passSubscriptionGeneration {
        reconcileRequested := true;
        return;
      }
      if reconcileRequested {
        activeReconcile := Backoff;
        return;
      }
      view := candidate;
      ready := true;
    }

    method ListThrew()
      requires Valid() && Enabled(Model(), InventoryModel.ListThrew)
      modifies this
      ensures Valid() && Model() == Step(old(Model()), InventoryModel.ListThrew)
    {
      Witness(InventoryModel.ListThrew);
      activeReconcile := Finishing;
    }

    method BackoffElapsed(now: nat)
      requires Valid() && Enabled(Model(), BackoffOver) && now == trail.clock + 1
      modifies this
      ensures Valid() && Model() == Step(old(Model()), BackoffOver)
    {
      Witness(BackoffOver);
      NextAttempt(now);
    }

    method ReconcileSettled(now: nat)
      requires Valid() && Enabled(Model(), FinishPass) && now == trail.clock + 1
      modifies this
      ensures Valid() && Model() == Step(old(Model()), FinishPass)
    {
      Witness(FinishPass);
      activeReconcile := Idle;
      if reconcileRequested && subscriptionReady && !closed {
        Reconcile(false, now);
      }
    }

    method SubscriptionFailed(now: nat)
      requires Valid() && Enabled(Model(), InventoryModel.SubscriptionFailed) && now == trail.clock + 1
      modifies this
      ensures Valid() && Model() == Step(old(Model()), InventoryModel.SubscriptionFailed)
    {
      Witness(InventoryModel.SubscriptionFailed);
      DeclareGap(now);
    }

    /** The recovery's subscribe call returned; after a close or abort the new subscription is dropped again. */
    method Resubscribed(now: nat) returns (keep: bool)
      requires Valid() && Enabled(Model(), InventoryModel.Resubscribed) && now == trail.clock + 1
      modifies this
      ensures Valid() && Model() == Step(old(Model()), InventoryModel.Resubscribed)
      ensures keep == (!closed && !aborted)
    {
      Witness(InventoryModel.Resubscribed);
      keep := AdoptSubscription(now);
    }

    method ResubscribeFailed()
      requires Valid() && Enabled(Model(), InventoryModel.ResubscribeFailed)
      modifies this
      ensures Valid() && Model() == Step(old(Model()), InventoryModel.ResubscribeFailed)
    {
      Witness(InventoryModel.ResubscribeFailed);
      activeRecovery := RecoverySleep;
    }

    method RecoveryPassOver()
      requires Valid() && Enabled(Model(), InventoryModel.RecoveryPassOver)
      modifies this
      ensures Valid() && Model() == Step(old(Model()), InventoryModel.RecoveryPassOver)
    {
      Witness(InventoryModel.RecoveryPassOver);
      activeRecovery := if subscriptionReady && ready then NoRecovery else RecoverySleep;
    }

    method RecoveryWakes(now: nat)
      requires Valid() && Enabled(Model(), InventoryModel.RecoveryWakes) && now == trail.clock + 1
      modifies this
      ensures Valid() && Model() == Step(old(Model()), InventoryModel.RecoveryWakes)
    {
      Witness(InventoryModel.RecoveryWakes);
      NextRecoveryAttempt(now);
    }

    method Reconnected(now: nat)
      requires Valid() && Enabled(Model(), InventoryModel.Reconnected) && now == trail.clock + 1
      modifies this
      ensures Valid() && Model() == Step(old(Model()), InventoryModel.Reconnected)
    {
      Witness(InventoryModel.Reconnected);
      if closed {
        return;
      }
      Reconcile(true, now);
    }

    method ReconnectPassFailed(now: nat)
      requires Valid() && Enabled(Model(), InventoryModel.ReconnectPassFailed) && now == trail.clock + 1
      modifies this
      ensures Valid() && Model() == Step(old(Model()), InventoryModel.ReconnectPassFailed)
    {
      Witness(InventoryModel.ReconnectPassFailed);
      RecoverSubscription(false, now);
    }

    method Abort()
      requires Valid()
      modifies this
      ensures Valid() && Model() == Step(old(Model()), InventoryModel.Abort)
    {
      Witness(InventoryModel.Abort);
      aborted := true;
      ready := false;
    }

    method Close()
      requires Valid()
      modifies this
      ensures Valid() && Model() == Step(old(Model()), InventoryModel.Close)
    {
      Witness(InventoryModel.Close);
      closed := true;
    }

    /** What the broker and the connection do on their own leaves the observer's fields as they are. */
    ghost method Elsewhere(e: Event)
      requires Valid() && Enabled(Model(), e) && OfBroker(e)
      modifies `broker, `online, `started, `trail
      ensures Valid() && Model() == Step(old(Model()), e)
    {
      Witness(e);
    }
  }
}
