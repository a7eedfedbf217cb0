/**
 The subscription part of the lease client as an object: its maps are reassigned by the methods as the
 source changes its maps in place. Every call and every answer takes its step of SubscriptionModel and
 keeps the bookkeeping of every run.
 */
module LeaseSubscriptions {
  import opened SubscriptionModel

  class Subscriptions {
    var subscriptionsByRoute: map<Route, Entry>
    var patternsBySubId: map<nat, Route>
    var inFlight: map<Route, nat>
    var controllers: map<nat, Handle>
    var nextHandlerId: nat
    var nextGeneration: nat
    ghost var acked: map<Route, nat>

    constructor ()
      ensures Valid() && Model() == EMPTY
    {
      subscriptionsByRoute, patternsBySubId, inFlight, controllers := map[], map[], map[], map[];
      nextHandlerId, nextGeneration, acked := 0, 1, map[];
    }

    ghost function Model(): State
      reads this
    {
      State(subscriptionsByRoute, patternsBySubId, inFlight, controllers, nextHandlerId, nextGeneration, acked)
    }

    /** The maps are inverse to each other, active handles are registered, and entries are what was acknowledged. */
    ghost predicate Valid()
      reads this
    {
      Sound(Model()) && FlightsShared(Model())
    }

    method AddLocalSubscription(route: Route, subId: nat)
      modifies `subscriptionsByRoute, `patternsBySubId, `controllers, `nextHandlerId, `nextGeneration
      ensures Model() == AddLocal(old(Model()), route, subId)
    {
      var handlerId := nextHandlerId;
      nextHandlerId := nextHandlerId + 1;
      controllers := controllers[handlerId := Handle(route, true, false)];
      if route !in subscriptionsByRoute {
        subscriptionsByRoute := subscriptionsByRoute[route := Entry(subId, nextGeneration, {handlerId}, Quiet)];
        nextGeneration := nextGeneration + 1;
        patternsBySubId := patternsBySubId[subId := route];
      } else {
        var subscription := subscriptionsByRoute[route];
        subscriptionsByRoute :=
          subscriptionsByRoute[route := subscription.(handlers := subscription.handlers + {handlerId})];
      }
    }

    /** The calls that waited for one answer register one after another. */
    method ResumeSubscribers(route: Route, subId: nat, callers: nat)
      modifies `subscriptionsByRoute, `patternsBySubId, `controllers, `nextHandlerId, `nextGeneration
      ensures Model() == AddAll(old(Model()), route, subId, callers)
    {
      for i := 0 to callers
        invariant Model() == AddAll(old(Model()), route, subId, i)
      {
        AddLocalSubscription(route, subId);
      }
    }

    method Subscribe(route: Route)
      requires Valid()
      modifies this
      ensures Valid() && Model() == Step(old(Model()), SubscriptionModel.Subscribe(route))
    {
      StepSound(Model(), SubscriptionModel.Subscribe(route));
      StepShared(Model(), SubscriptionModel.Subscribe(route));
      if route in subscriptionsByRoute {
        var existing := subscriptionsByRoute[route];
        if existing.wire.Unsubscribing? {
          var held := existing.wire.(waiting := existing.wire.waiting + 1);
          subscriptionsByRoute := subscriptionsByRoute[route := existing.(wire := held)];
          return;
        }
        AddLocalSubscription(route, existing.subId);
        return;
      }
      if route in inFlight {
        inFlight := inFlight[route := inFlight[route] + 1];
      } else {
        inFlight := inFlight[route := 1];
      }
    }

    method SubscribeAcknowledged(route: Route, subId: nat)
      requires Valid() && Enabled(Model(), SubscribeAcked(route, subId))
      modifies this
      ensures Valid() && Model() == Step(old(Model()), SubscribeAcked(route, subId))
    {
      StepSound(Model(), SubscribeAcked(route, subId));
      StepShared(Model(), SubscribeAcked(route, subId));
      var callers := inFlight[route];
      inFlight := inFlight - {route};
      acked := acked[route := subId];
      ResumeSubscribers(route, subId, callers);
    }

    method SubscribeRefused(route: Route)
      requires Valid() && Enabled(Model(), SubscribeFailed(route))
      modifies this
      ensures Valid() && Model() == Step(old(Model()), SubscribeFailed(route))
    {
      StepSound(Model(), SubscribeFailed(route));
      StepShared(Model(), SubscribeFailed(route));
      inFlight := inFlight - {route};
    }

    /** A call of unsubscribe, or the failure of a handle whose notifications overflowed. */
    method End(handlerId: nat, terminalFailure: bool)
      requires Valid()
      modifies this
      ensures Valid()
      ensures Model() == Step(old(Model()),
                              if terminalFailure then DeliveryFailed(handlerId) else SubscriptionModel.Unsubscribe(handlerId))
      ensures old(Active(Model(), handlerId)) ==>
                && controllers == old(controllers)[handlerId := Handle(old(controllers)[handlerId].route, false, terminalFailure)]
                && (old(Sole(Model(), handlerId)) ==> Leaving(Model(), controllers[handlerId].route, handlerId))
                && (!old(Sole(Model(), handlerId)) ==> !Entered(Model(), handlerId))
    {
      ghost var e := if terminalFailure then DeliveryFailed(handlerId) else SubscriptionModel.Unsubscribe(handlerId);
      StepSound(Model(), e);
      StepShared(Model(), e);
      if handlerId !in controllers || !controllers[handlerId].active {
        return;
      }
      var route := controllers[handlerId].route;
      controllers := controllers[handlerId := Handle(route, false, terminalFailure)];
      Unsubscribe(route, handlerId);
    }

    method Unsubscribe(route: Route, handlerId: nat)
      modifies `subscriptionsByRoute
      ensures Model() == Release(old(Model()), route, handlerId)
    {
      if route !in subscriptionsByRoute || handlerId !in subscriptionsByRoute[route].handlers {
        return;
      }
      var subscription := subscriptionsByRoute[route];
      if subscription.handlers != {handlerId} {
        subscriptionsByRoute := subscriptionsByRoute[route := subscription.(handlers := subscription.handlers - {handlerId})];
        return;
      }
      subscriptionsByRoute := subscriptionsByRoute[route := subscription.(wire := Unsubscribing(handlerId, 0))];
    }

    method UnsubscribeConfirmed(route: Route)
      requires Valid() && Enabled(Model(), UnsubscribeAcked(route))
      modifies this
      ensures Valid() && Model() == Step(old(Model()), UnsubscribeAcked(route))
    {
      StepSound(Model(), UnsubscribeAcked(route));
      StepShared(Model(), UnsubscribeAcked(route));
      var subscription := subscriptionsByRoute[route];
      var handlerId, waiting := subscription.wire.last, subscription.wire.waiting;
      var handlers := subscription.handlers - {handlerId};
      acked := acked - {route};
      if handlers == {} {
        subscriptionsByRoute := subscriptionsByRoute - {route};
        patternsBySubId := patternsBySubId - {subscription.subId};
        if waiting > 0 {
          inFlight := inFlight[route := waiting];
        }
      } else {
        subscriptionsByRoute := subscriptionsByRoute[route := subscription.(handlers := handlers, wire := Quiet)];
        ResumeSubscribers(route, subscription.subId, waiting);
      }
    }

    method UnsubscribeRefused(route: Route)
      requires Valid() && Enabled(Model(), UnsubscribeFailed(route))
      modifies this
      ensures Valid() && Model() == Step(old(Model()), UnsubscribeFailed(route))
    {
      StepSound(Model(), UnsubscribeFailed(route));
      StepShared(Model(), UnsubscribeFailed(route));
      var subscription := subscriptionsByRoute[route];
      var handlerId, waiting := subscription.wire.last, subscription.wire.waiting;
      subscriptionsByRoute := subscriptionsByRoute[route := subscription.(wire := Quiet)];
      var controller := controllers[handlerId];
      controllers := controllers[handlerId := controller.(active := !controller.failed)];
      ResumeSubscribers(route, subscription.subId, waiting);
    }

    /** The handlers a notification is dispatched to: with the id of a live route, all its active ones and no others. */
    method Recipients(subId: nat) returns (handlers: set<nat>)
      requires Valid()
      ensures handlers == Delivered(Model(), subId)
      ensures subId in patternsBySubId ==>
                forall h :: h in controllers && controllers[h].active ==>
                  (h in handlers <==> controllers[h].route == patternsBySubId[subId])
    {
      handlers := {};
      if subId in patternsBySubId {
        var pattern := patternsBySubId[subId];
        if pattern in subscriptionsByRoute {
          assert EntryOk(Model(), pattern);
          handlers := subscriptionsByRoute[pattern].handlers;
        }
      }
    }
  }
}
