/**
 Lease subscriptions within one session: the table of live entries by route, the index from the broker's
 subscription ids back to routes, shared SUBSCRIBE requests, UNSUBSCRIBE requests under way, and the
 handles given to callers. A step is one call, or one answer of the broker together with everything that
 waited for it.
 */
module SubscriptionModel {

  type Route = string

  /** No wire operation, or the UNSUBSCRIBE sent for the last handler with `waiting` calls of subscribe held back. */
  datatype Wire = Quiet | Unsubscribing(last: nat, waiting: nat)

  datatype Entry = Entry(subId: nat, generation: nat, handlers: set<nat>, wire: Wire)

  /** `failed`: notification delivery overflowed, so the handle ends for good. */
  datatype Handle = Handle(route: Route, active: bool, failed: bool)

  /**
   `flights` counts the calls that share a SUBSCRIBE under way; `acked` is what the broker last
   acknowledged as subscribed.
   */
  datatype State = State(
    byRoute: map<Route, Entry>, bySub: map<nat, Route>, flights: map<Route, nat>, handles: map<nat, Handle>,
    nextHandler: nat, nextGeneration: nat, acked: map<Route, nat>)

  datatype Event =
    | Subscribe(route: Route)
    | SubscribeAcked(route: Route, subId: nat)
    | SubscribeFailed(route: Route)
    | Unsubscribe(handler: nat)
    | DeliveryFailed(handler: nat)
    | UnsubscribeAcked(route: Route)
    | UnsubscribeFailed(route: Route)

  const EMPTY := State(map[], map[], map[], map[], 0, 1, map[])

  // ---------- The code ----------

  function SetEntry(s: State, route: Route, entry: Entry): State {
    s.(byRoute := s.byRoute[route := entry])
  }

  /** Registers one more handler, under the entry that is there or a new one. */
  function AddLocal(s: State, route: Route, subId: nat): State {
    var h := s.nextHandler;
    var s1 := s.(nextHandler := h + 1, handles := s.handles[h := Handle(route, true, false)]);
    if route in s.byRoute
    then SetEntry(s1, route, s.byRoute[route].(handlers := s.byRoute[route].handlers + {h}))
    else SetEntry(s1, route, Entry(subId, s.nextGeneration, {h}, Quiet))
           .(bySub := s.bySub[subId := route], nextGeneration := s.nextGeneration + 1)
  }

  function AddAll(s: State, route: Route, subId: nat, n: nat): State {
    if n == 0 then s else AddLocal(AddAll(s, route, subId, n - 1), route, subId)
  }

  /** A call of subscribe waits for an UNSUBSCRIBE, reuses the entry, or shares or sends a SUBSCRIBE. */
  function CallSubscribe(s: State, route: Route): State {
    if route in s.byRoute then
      var entry := s.byRoute[route];
      if entry.wire.Unsubscribing? then SetEntry(s, route, entry.(wire := entry.wire.(waiting := entry.wire.waiting + 1)))
      else AddLocal(s, route, entry.subId)
    else s.(flights := s.flights[route := if route in s.flights then s.flights[route] + 1 else 1])
  }

  /** Takes a handler away: at once unless it is the last one, which stays until the broker confirms. */
  function Release(s: State, route: Route, h: nat): State {
    if route !in s.byRoute || h !in s.byRoute[route].handlers then s
    else
      var entry := s.byRoute[route];
      if entry.handlers != {h} then SetEntry(s, route, entry.(handlers := entry.handlers - {h}))
      else SetEntry(s, route, entry.(wire := Unsubscribing(h, 0)))
  }

  function EndHandle(s: State, h: nat, failed: bool): State {
    if h !in s.handles || !s.handles[h].active then s
    else Release(s.(handles := s.handles[h := s.handles[h].(active := false, failed := failed)]), s.handles[h].route, h)
  }

  /** The broker confirmed: the handler goes, the entry with it if empty, and the calls held back decide again. */
  function Confirm(s: State, route: Route, h: nat, waiting: nat): State
    requires route in s.byRoute
  {
    var left := s.byRoute[route].handlers - {h};
    var entry := s.byRoute[route];
    if left == {} then
      s.(byRoute := s.byRoute - {route}, bySub := s.bySub - {entry.subId}, acked := s.acked - {route},
         flights := if waiting == 0 then s.flights else s.flights[route := waiting])
    else AddAll(SetEntry(s, route, entry.(handlers := left, wire := Quiet)).(acked := s.acked - {route}),
                route, entry.subId, waiting)
  }

  /** The broker refused: the handler stays, its handle may try again unless it failed, and the calls held back join. */
  function Refuse(s: State, route: Route, h: nat, waiting: nat): State
    requires route in s.byRoute && h in s.handles
  {
    var handle := s.handles[h];
    var entry := s.byRoute[route];
    AddAll(SetEntry(s.(handles := s.handles[h := handle.(active := !handle.failed)]), route, entry.(wire := Quiet)),
           route, entry.subId, waiting)
  }

  predicate Withdrawing(s: State, route: Route) {
    route in s.byRoute && s.byRoute[route].wire.Unsubscribing?
  }

  predicate Leaving(s: State, route: Route, h: nat) {
    Withdrawing(s, route) && s.byRoute[route].wire.last == h
  }

  /** The broker answers only what was asked, and gives out subscription ids that are not in use. */
  predicate Enabled(s: State, e: Event) {
    match e
    case SubscribeAcked(route, subId) => route in s.flights && subId !in s.bySub
    case SubscribeFailed(route) => route in s.flights
    case UnsubscribeAcked(route) => Withdrawing(s, route)
    case UnsubscribeFailed(route) => Withdrawing(s, route) && s.byRoute[route].wire.last in s.handles
    case _ => true
  }

  function Step(s: State, e: Event): State {
    if !Enabled(s, e) then s
    else match e
      case Subscribe(route) => CallSubscribe(s, route)
      case SubscribeAcked(route, subId) =>
        AddAll(s.(flights := s.flights - {route}, acked := s.acked[route := subId]), route, subId, s.flights[route])
      case SubscribeFailed(route) => s.(flights := s.flights - {route})
      case Unsubscribe(h) => EndHandle(s, h, false)
      case DeliveryFailed(h) => EndHandle(s, h, true)
      case UnsubscribeAcked(route) => Confirm(s, route, s.byRoute[route].wire.last, s.byRoute[route].wire.waiting)
      case UnsubscribeFailed(route) => Refuse(s, route, s.byRoute[route].wire.last, s.byRoute[route].wire.waiting)
  }

  function Run(events: seq<Event>): State {
    if events == [] then EMPTY else Step(Run(events[..|events| - 1]), events[|events| - 1])
  }

  // ---------- What every run keeps ----------

  /** The two maps are inverse to each other. */
  ghost predicate Inverse(s: State) {
    && (forall r :: r in s.byRoute ==> s.byRoute[r].subId in s.bySub && s.bySub[s.byRoute[r].subId] == r)
    && (forall i :: i in s.bySub ==> s.bySub[i] in s.byRoute && s.byRoute[s.bySub[i]].subId == i)
  }

  /** A handle that is still active has its handler in the live entry of its route. */
  ghost predicate Served(s: State) {
    forall h :: h in s.handles && s.handles[h].active ==>
      s.handles[h].route in s.byRoute && h in s.byRoute[s.handles[h].route].handlers
  }

  predicate EntryOk(s: State, r: Route)
    requires r in s.byRoute
  {
    var entry := s.byRoute[r];
    && r !in s.flights
    && entry.handlers != {}
    && entry.generation < s.nextGeneration
    && (forall h :: h in entry.handlers ==> h in s.handles && s.handles[h].route == r)
    && (forall h :: h in entry.handlers ==> s.handles[h].active || s.handles[h].failed || entry.wire.Unsubscribing?)
    && (entry.wire.Unsubscribing? ==> entry.handlers == {entry.wire.last} && !s.handles[entry.wire.last].active)
  }

  ghost predicate EntriesOk(s: State) {
    forall r {:trigger EntryOk(s, r)} :: r in s.byRoute ==> EntryOk(s, r)
  }

  predicate HandlesNumbered(s: State) {
    forall h :: h in s.handles ==> h < s.nextHandler
  }

  /** The live entries are exactly what the broker acknowledged. */
  ghost predicate Acknowledged(s: State) {
    && (forall r :: r in s.byRoute <==> r in s.acked)
    && (forall r :: r in s.byRoute ==> s.acked[r] == s.byRoute[r].subId)
  }

  ghost predicate Sound(s: State) {
    Inverse(s) && Served(s) && EntriesOk(s) && HandlesNumbered(s) && Acknowledged(s)
  }

  /** Sound but for the entry of this route, which the broker has acknowledged and no call has registered yet. */
  ghost predicate SoundBut(s: State, route: Route, subId: nat) {
    && Inverse(s) && Served(s) && EntriesOk(s) && HandlesNumbered(s)
    && route !in s.flights
    && (route in s.byRoute ==> s.byRoute[route].subId == subId && s.byRoute[route].wire.Quiet?)
    && (route !in s.byRoute ==> subId !in s.bySub)
    && route in s.acked && s.acked[route] == subId
    && (forall r :: r != route ==> (r in s.byRoute <==> r in s.acked))
    && (forall r :: r != route && r in s.byRoute ==> s.acked[r] == s.byRoute[r].subId)
  }

  lemma JoinEntriesOk(s: State, route: Route, subId: nat)
    requires SoundBut(s, route, subId) && route in s.byRoute
    ensures EntriesOk(AddLocal(s, route, subId))
  {
    var n := AddLocal(s, route, subId);
    forall r | r in n.byRoute ensures EntryOk(n, r) {
      assert EntryOk(s, r);
    }
  }

  lemma JoinSound(s: State, route: Route, subId: nat)
    requires SoundBut(s, route, subId) && route in s.byRoute
    ensures SoundBut(AddLocal(s, route, subId), route, subId)
  {
    JoinEntriesOk(s, route, subId);
  }

  lemma CreateEntriesOk(s: State, route: Route, subId: nat)
    requires SoundBut(s, route, subId) && route !in s.byRoute
    ensures EntriesOk(AddLocal(s, route, subId))
  {
    var n := AddLocal(s, route, subId);
    forall r | r in n.byRoute ensures EntryOk(n, r) {
      assert r != route ==> EntryOk(s, r);
    }
  }

  lemma CreateInverse(s: State, route: Route, subId: nat)
    requires SoundBut(s, route, subId) && route !in s.byRoute
    ensures Inverse(AddLocal(s, route, subId)) && Served(AddLocal(s, route, subId))
  {
  }

  lemma CreateSound(s: State, route: Route, subId: nat)
    requires SoundBut(s, route, subId) && route !in s.byRoute
    ensures SoundBut(AddLocal(s, route, subId), route, subId)
  {
    CreateInverse(s, route, subId);
    CreateEntriesOk(s, route, subId);
  }

  lemma AddLocalSound(s: State, route: Route, subId: nat)
    requires SoundBut(s, route, subId)
    ensures SoundBut(AddLocal(s, route, subId), route, subId) && Sound(AddLocal(s, route, subId))
  {
    if route in s.byRoute {
      JoinSound(s, route, subId);
    } else {
      CreateSound(s, route, subId);
    }
  }

  lemma {:induction false} AddAllSound(s: State, route: Route, subId: nat, n: nat)
    requires SoundBut(s, route, subId)
    ensures SoundBut(AddAll(s, route, subId, n), route, subId)
    ensures n > 0 ==> Sound(AddAll(s, route, subId, n))
  {
    if n > 0 {
      AddAllSound(s, route, subId, n - 1);
      AddLocalSound(AddAll(s, route, subId, n - 1), route, subId);
    }
  }

  ghost predicate FlightsShared(s: State) {
    forall r :: r in s.flights ==> s.flights[r] > 0
  }

  lemma CallSubscribeSound(s: State, route: Route)
    requires Sound(s)
    ensures Sound(CallSubscribe(s, route))
  {
    if route in s.byRoute && s.byRoute[route].wire.Quiet? {
      assert EntryOk(s, route);
      AddLocalSound(s, route, s.byRoute[route].subId);
    } else {
      forall r | r in s.byRoute ensures EntryOk(CallSubscribe(s, route), r) {
        assert EntryOk(s, r);
      }
    }
  }

  lemma OtherEntryOk(s: State, h: nat, failed: bool, r: Route)
    requires Sound(s) && r in s.byRoute && r in EndHandle(s, h, failed).byRoute
    requires h !in s.handles || s.handles[h].route != r
    ensures EntryOk(EndHandle(s, h, failed), r)
  {
    assert EntryOk(s, r);
  }

  lemma EndHandleEntryOk(s: State, h: nat, failed: bool, r: Route)
    requires Sound(s) && r in s.byRoute && r in EndHandle(s, h, failed).byRoute
    ensures EntryOk(EndHandle(s, h, failed), r)
  {
    if h !in s.handles || s.handles[h].route != r {
      OtherEntryOk(s, h, failed, r);
    } else {
      assert EntryOk(s, r);
    }
  }

  lemma EndHandleEntriesOk(s: State, h: nat, failed: bool)
    requires Sound(s)
    ensures EntriesOk(EndHandle(s, h, failed))
  {
    forall r | r in EndHandle(s, h, failed).byRoute ensures EntryOk(EndHandle(s, h, failed), r) {
      EndHandleEntryOk(s, h, failed, r);
    }
  }

  lemma EndHandleSound(s: State, h: nat, failed: bool)
    requires Sound(s)
    ensures Sound(EndHandle(s, h, failed))
  {
    EndHandleEntriesOk(s, h, failed);
  }

  /** The re-check before an entry is deleted never finds it repopulated: nothing joins while UNSUBSCRIBE is under way. */
  lemma ConfirmedEntryIsEmpty(s: State, route: Route)
    requires Sound(s) && Withdrawing(s, route)
    ensures s.byRoute[route].handlers - {s.byRoute[route].wire.last} == {}
  {
    assert EntryOk(s, route);
  }

  lemma ConfirmSound(s: State, route: Route)
    requires Sound(s) && Withdrawing(s, route)
    ensures Sound(Step(s, UnsubscribeAcked(route)))
  {
    ConfirmedEntryIsEmpty(s, route);
    var n := Step(s, UnsubscribeAcked(route));
    assert EntryOk(s, route);
    forall r | r in n.byRoute ensures EntryOk(n, r) {
      assert EntryOk(s, r);
    }
  }

  /** The entry as the refusal leaves it, before the calls held back join. */
  function Kept(s: State, route: Route): State
    requires Withdrawing(s, route) && s.byRoute[route].wire.last in s.handles
  {
    var h := s.byRoute[route].wire.last;
    SetEntry(s.(handles := s.handles[h := s.handles[h].(active := !s.handles[h].failed)]), route,
             s.byRoute[route].(wire := Quiet))
  }

  lemma KeptEntryOk(s: State, route: Route, r: Route)
    requires Sound(s) && Withdrawing(s, route) && s.byRoute[route].wire.last in s.handles && r in s.byRoute
    ensures EntryOk(Kept(s, route), r)
  {
    assert EntryOk(s, r) && EntryOk(s, route);
  }

  lemma KeptEntriesOk(s: State, route: Route)
    requires Sound(s) && Withdrawing(s, route) && s.byRoute[route].wire.last in s.handles
    ensures EntriesOk(Kept(s, route))
  {
    forall r | r in Kept(s, route).byRoute ensures EntryOk(Kept(s, route), r) {
      KeptEntryOk(s, route, r);
    }
  }

  lemma KeptSound(s: State, route: Route)
    requires Sound(s) && Withdrawing(s, route) && s.byRoute[route].wire.last in s.handles
    ensures Sound(Kept(s, route))
  {
    assert EntryOk(s, route);
    KeptEntriesOk(s, route);
  }

  lemma RefuseSound(s: State, route: Route)
    requires Sound(s) && Withdrawing(s, route)
    ensures Sound(Step(s, UnsubscribeFailed(route)))
  {
    assert EntryOk(s, route);
    KeptSound(s, route);
    assert EntryOk(Kept(s, route), route);
    AddAllSound(Kept(s, route), route, s.byRoute[route].subId, s.byRoute[route].wire.waiting);
  }

  lemma SubscribeAckedSound(s: State, route: Route, subId: nat)
    requires Sound(s) && FlightsShared(s) && route in s.flights && subId !in s.bySub
    ensures Sound(Step(s, SubscribeAcked(route, subId)))
  {
    assert route in s.byRoute ==> EntryOk(s, route);
    var answered := s.(flights := s.flights - {route}, acked := s.acked[route := subId]);
    forall r | r in s.byRoute ensures EntryOk(answered, r) {
      assert EntryOk(s, r);
    }
    AddAllSound(answered, route, subId, s.flights[route]);
  }

  lemma {:induction false} AddAllKeepsFlights(s: State, route: Route, subId: nat, n: nat)
    ensures AddAll(s, route, subId, n).flights == s.flights
  {
    if n > 0 {
      AddAllKeepsFlights(s, route, subId, n - 1);
    }
  }

  lemma StepShared(s: State, e: Event)
    requires FlightsShared(s)
    ensures FlightsShared(Step(s, e))
  {
    if Enabled(s, e) {
      match e
      case SubscribeAcked(route, subId) =>
        AddAllKeepsFlights(s.(flights := s.flights - {route}, acked := s.acked[route := subId]), route, subId, s.flights[route]);
      case UnsubscribeAcked(route) =>
        var entry, wire := s.byRoute[route], s.byRoute[route].wire;
        AddAllKeepsFlights(SetEntry(s, route, entry.(handlers := entry.handlers - {wire.last}, wire := Quiet))
                             .(acked := s.acked - {route}), route, entry.subId, wire.waiting);
      case UnsubscribeFailed(route) =>
        AddAllKeepsFlights(Kept(s, route), route, s.byRoute[route].subId, s.byRoute[route].wire.waiting);
      case _ =>
    }
  }

  lemma StepSound(s: State, e: Event)
    requires Sound(s) && FlightsShared(s)
    ensures Sound(Step(s, e))
  {
    if Enabled(s, e) {
      match e
      case Subscribe(route) => CallSubscribeSound(s, route);
      case SubscribeAcked(route, subId) => SubscribeAckedSound(s, route, subId);
      case SubscribeFailed(route) => assert forall r :: r in s.byRoute ==> EntryOk(s, r);
      case Unsubscribe(h) => EndHandleSound(s, h, false);
      case DeliveryFailed(h) => EndHandleSound(s, h, true);
      case UnsubscribeAcked(route) => ConfirmSound(s, route);
      case UnsubscribeFailed(route) => RefuseSound(s, route);
    }
  }

  /** Bookkeeping: every interleaving of calls and answers keeps all of it. */
  lemma {:induction false} RunSound(events: seq<Event>)
    ensures Sound(Run(events)) && FlightsShared(Run(events))
  {
    if events != [] {
      RunSound(events[..|events| - 1]);
      StepSound(Run(events[..|events| - 1]), events[|events| - 1]);
      StepShared(Run(events[..|events| - 1]), events[|events| - 1]);
    }
  }

  // ---------- No call is lost ----------

  /** The calls of subscribe for a route that wait for an answer of the broker. */
  function Awaiting(s: State, route: Route): nat {
    (if route in s.flights then s.flights[route] else 0)
    + (if Withdrawing(s, route) then s.byRoute[route].wire.waiting else 0)
  }

  lemma AddLocalAdds(s: State, route: Route, subId: nat)
    requires route in s.byRoute ==> s.byRoute[route].wire.Quiet?
    ensures var m := AddLocal(s, route, subId);
            && m.nextHandler == s.nextHandler + 1 && m.flights == s.flights
            && route in m.byRoute && m.byRoute[route].wire.Quiet?
            && m.handles == s.handles[s.nextHandler := Handle(route, true, false)]
            && m.byRoute[route].handlers == (if route in s.byRoute then s.byRoute[route].handlers else {}) + {s.nextHandler}
  {
  }

  /** From one state to the other, n calls for the route were given handlers and active handles. */
  ghost predicate Added(s: State, m: State, route: Route, n: nat) {
    && m.nextHandler == s.nextHandler + n && m.flights == s.flights
    && (n > 0 || route in s.byRoute ==> route in m.byRoute && m.byRoute[route].wire.Quiet?)
    && forall h :: s.nextHandler <= h < s.nextHandler + n ==>
         h in m.handles && m.handles[h] == Handle(route, true, false) && h in m.byRoute[route].handlers
  }

  lemma OneMoreAdded(s: State, m: State, route: Route, subId: nat, n: nat)
    requires (route in s.byRoute ==> s.byRoute[route].wire.Quiet?) && Added(s, m, route, n)
    requires n == 0 ==> m == s
    ensures Added(s, AddLocal(m, route, subId), route, n + 1)
  {
    AddLocalAdds(m, route, subId);
  }

  /** Each of the calls answered gets a handler and an active handle of its own. */
  lemma {:induction false} AddAllAdds(s: State, route: Route, subId: nat, n: nat)
    requires route in s.byRoute ==> s.byRoute[route].wire.Quiet?
    ensures Added(s, AddAll(s, route, subId, n), route, n)
  {
    if n > 0 {
      AddAllAdds(s, route, subId, n - 1);
      OneMoreAdded(s, AddAll(s, route, subId, n - 1), route, subId, n - 1);
    }
  }

  /** A call of subscribe joins what waits for its route, or gets its handler at once. */
  lemma CallIsCounted(s: State, route: Route)
    requires Sound(s)
    ensures var n := Step(s, Subscribe(route));
            Awaiting(n, route) + n.nextHandler == Awaiting(s, route) + s.nextHandler + 1
  {
    assert route in s.byRoute ==> EntryOk(s, route);
  }

  /** An answer loses none of them: each has a handler, or waits for the next answer. */
  lemma AnswerLosesNoCall(s: State, route: Route, subId: nat)
    requires Sound(s)
    ensures var n := Step(s, SubscribeAcked(route, subId));
            Awaiting(n, route) + n.nextHandler == Awaiting(s, route) + s.nextHandler
  {
    assert route in s.byRoute ==> EntryOk(s, route);
    if Enabled(s, SubscribeAcked(route, subId)) {
      AddAllAdds(s.(flights := s.flights - {route}, acked := s.acked[route := subId]), route, subId, s.flights[route]);
    }
  }

  lemma WithdrawalLosesNoCall(s: State, route: Route)
    requires Sound(s)
    ensures var n := Step(s, UnsubscribeAcked(route));
            Awaiting(n, route) + n.nextHandler == Awaiting(s, route) + s.nextHandler
    ensures var n := Step(s, UnsubscribeFailed(route));
            Awaiting(n, route) + n.nextHandler == Awaiting(s, route) + s.nextHandler
  {
    assert route in s.byRoute ==> EntryOk(s, route);
    if Withdrawing(s, route) {
      ConfirmedEntryIsEmpty(s, route);
      AddAllAdds(Kept(s, route), route, s.byRoute[route].subId, s.byRoute[route].wire.waiting);
    }
  }

  // ---------- Who is notified ----------

  /** The handlers a notification with this subscription id reaches. */
  function Delivered(s: State, subId: nat): set<nat> {
    if subId in s.bySub && s.bySub[subId] in s.byRoute then s.byRoute[s.bySub[subId]].handlers else {}
  }

  /**
   A notification the broker sends for a subscription it acknowledged reaches every active handle of that
   route and no handle of another route; of the inactive ones it reaches only one whose UNSUBSCRIBE is
   under way and those that failed.
   */
  lemma {:induction false} NotificationReachesActiveHandles(events: seq<Event>, route: Route, h: nat)
    requires route in Run(events).acked
    ensures var s := Run(events);
            && (h in Delivered(s, s.acked[route]) ==>
                  && h in s.handles && s.handles[h].route == route
                  && (s.handles[h].active || s.handles[h].failed || Leaving(s, route, h)))
            && (h in s.handles && s.handles[h].active && s.handles[h].route == route ==> h in Delivered(s, s.acked[route]))
  {
    RunSound(events);
    assert EntryOk(Run(events), route);
  }

  /** A route without a subscription at the broker has no active handle. */
  lemma {:induction false} NoActiveHandleIsForgotten(events: seq<Event>, h: nat)
    requires h in Run(events).handles && Run(events).handles[h].active
    ensures Run(events).handles[h].route in Run(events).acked
  {
    RunSound(events);
  }

  // ---------- Unsubscribing ----------

  predicate Active(s: State, h: nat) {
    h in s.handles && s.handles[h].active
  }

  /** A call of unsubscribe on this handle, or the failure of its delivery. */
  predicate Ends(e: Event, h: nat) {
    e == Unsubscribe(h) || e == DeliveryFailed(h)
  }

  /** Its handler is in the live entry of its route. */
  predicate Entered(s: State, h: nat) {
    h in s.handles && s.handles[h].route in s.byRoute && h in s.byRoute[s.handles[h].route].handlers
  }

  predicate Sole(s: State, h: nat) {
    Entered(s, h) && s.byRoute[s.handles[h].route].handlers == {h}
  }

  /** The broker refuses the UNSUBSCRIBE of this handle, which had not failed. */
  predicate Revives(s: State, e: Event, h: nat) {
    h in s.handles && !s.handles[h].failed && e == UnsubscribeFailed(s.handles[h].route) && Leaving(s, s.handles[h].route, h)
  }

  /** A handler goes when its handle ends beside others, or when the broker confirms. */
  predicate Leaves(s: State, e: Event, h: nat) {
    h in s.handles && ((Ends(e, h) && s.handles[h].active && !Sole(s, h))
                         || (e == UnsubscribeAcked(s.handles[h].route) && Leaving(s, s.handles[h].route, h)))
  }

  /** What one event does to a handle, and to its handler. */
  ghost predicate HandleFollows(s: State, e: Event, n: State, h: nat) {
    && h in s.handles && h in n.handles && n.handles[h].route == s.handles[h].route
    && (n.handles[h].active <==> (s.handles[h].active && !Ends(e, h)) || Revives(s, e, h))
    && (n.handles[h].failed <==> s.handles[h].failed || (s.handles[h].active && e == DeliveryFailed(h)))
    && (Entered(n, h) <==> Entered(s, h) && !Leaves(s, e, h))
    && (Leaving(n, s.handles[h].route, h) <==>
          (Ends(e, h) && s.handles[h].active && Sole(s, h))
          || (Leaving(s, s.handles[h].route, h)
              && e != UnsubscribeAcked(s.handles[h].route) && e != UnsubscribeFailed(s.handles[h].route)))
  }

  /** The calls answered leave every handle there was as it is. */
  ghost predicate Untouched(s: State, n: State, h: nat) {
    && h in s.handles && h in n.handles && n.handles[h] == s.handles[h] && (Entered(n, h) <==> Entered(s, h))
    && (Leaving(n, s.handles[h].route, h) <==> Leaving(s, s.handles[h].route, h))
  }

  lemma {:induction false} AddAllTouchesNone(s: State, route: Route, subId: nat, n: nat, h: nat)
    requires h in s.handles && HandlesNumbered(s) && (route in s.byRoute ==> s.byRoute[route].wire.Quiet?)
    ensures var m := AddAll(s, route, subId, n);
            Untouched(s, m, h) && HandlesNumbered(m) && (route in m.byRoute ==> m.byRoute[route].wire.Quiet?)
  {
    if n > 0 {
      AddAllTouchesNone(s, route, subId, n - 1, h);
      AddLocalTouchesNone(AddAll(s, route, subId, n - 1), route, subId, h);
    }
  }

  lemma AddLocalTouchesNone(s: State, route: Route, subId: nat, h: nat)
    requires h in s.handles && HandlesNumbered(s) && (route in s.byRoute ==> s.byRoute[route].wire.Quiet?)
    ensures var m := AddLocal(s, route, subId);
            Untouched(s, m, h) && HandlesNumbered(m) && (route in m.byRoute ==> m.byRoute[route].wire.Quiet?)
  {
  }

  /** A handle that is active has not failed. */
  ghost predicate NoneActiveFailed(s: State) {
    forall h :: h in s.handles ==> !(s.handles[h].active && s.handles[h].failed)
  }

  lemma OwnEndFollows(s: State, h: nat, e: Event)
    requires Sound(s) && NoneActiveFailed(s) && h in s.handles && Ends(e, h)
    ensures HandleFollows(s, e, Step(s, e), h)
  {
    assert s.handles[h].route in s.byRoute ==> EntryOk(s, s.handles[h].route);
  }

  lemma OtherEndFollows(s: State, h: nat, e: Event, other: nat)
    requires Sound(s) && h in s.handles && Ends(e, other) && other != h
    ensures HandleFollows(s, e, Step(s, e), h)
  {
    if Active(s, other) {
      assert EntryOk(s, s.handles[other].route);
    }
  }

  lemma EndFollows(s: State, h: nat, e: Event, other: nat)
    requires Sound(s) && NoneActiveFailed(s) && h in s.handles && Ends(e, other)
    ensures HandleFollows(s, e, Step(s, e), h)
  {
    if other == h {
      OwnEndFollows(s, h, e);
    } else {
      OtherEndFollows(s, h, e, other);
    }
  }

  lemma SubscribeFollows(s: State, h: nat, route: Route)
    requires Sound(s) && h in s.handles
    ensures HandleFollows(s, Subscribe(route), Step(s, Subscribe(route)), h)
  {
    if route in s.byRoute && s.byRoute[route].wire.Quiet? {
      AddLocalTouchesNone(s, route, s.byRoute[route].subId, h);
    }
  }

  lemma AnswerFollows(s: State, h: nat, route: Route, subId: nat)
    requires Sound(s) && h in s.handles
    ensures HandleFollows(s, SubscribeAcked(route, subId), Step(s, SubscribeAcked(route, subId)), h)
  {
    assert route in s.byRoute ==> EntryOk(s, route);
    if Enabled(s, SubscribeAcked(route, subId)) {
      var answered := s.(flights := s.flights - {route}, acked := s.acked[route := subId]);
      AddAllTouchesNone(answered, route, subId, s.flights[route], h);
    }
  }

  lemma ConfirmationFollows(s: State, h: nat, route: Route)
    requires Sound(s) && h in s.handles
    ensures HandleFollows(s, UnsubscribeAcked(route), Step(s, UnsubscribeAcked(route)), h)
  {
    if Withdrawing(s, route) {
      assert EntryOk(s, route);
      ConfirmedEntryIsEmpty(s, route);
    }
  }

  lemma KeptFollows(s: State, h: nat, route: Route)
    requires Sound(s) && h in s.handles && Withdrawing(s, route)
    ensures s.byRoute[route].wire.last in s.handles && HandleFollows(s, UnsubscribeFailed(route), Kept(s, route), h)
  {
    assert EntryOk(s, route);
  }

  lemma FollowsUntouched(s: State, e: Event, m: State, n: State, h: nat)
    requires HandleFollows(s, e, m, h) && Untouched(m, n, h)
    ensures HandleFollows(s, e, n, h)
  {
  }

  lemma RefusalFollows(s: State, h: nat, route: Route)
    requires Sound(s) && h in s.handles
    ensures HandleFollows(s, UnsubscribeFailed(route), Step(s, UnsubscribeFailed(route)), h)
  {
    if Withdrawing(s, route) {
      var entry := s.byRoute[route];
      KeptFollows(s, h, route);
      KeptSound(s, route);
      AddAllTouchesNone(Kept(s, route), route, entry.subId, entry.wire.waiting, h);
      FollowsUntouched(s, UnsubscribeFailed(route), Kept(s, route), AddAll(Kept(s, route), route, entry.subId, entry.wire.waiting), h);
    }
  }

  lemma StepHandle(s: State, e: Event, h: nat)
    requires Sound(s) && NoneActiveFailed(s) && h in s.handles
    ensures HandleFollows(s, e, Step(s, e), h)
  {
    match e
    case Subscribe(route) => SubscribeFollows(s, h, route);
    case SubscribeAcked(route, subId) => AnswerFollows(s, h, route, subId);
    case SubscribeFailed(_) =>
    case Unsubscribe(other) => EndFollows(s, h, e, other);
    case DeliveryFailed(other) => EndFollows(s, h, e, other);
    case UnsubscribeAcked(route) => ConfirmationFollows(s, h, route);
    case UnsubscribeFailed(route) => RefusalFollows(s, h, route);
  }

  lemma {:induction false} AddAllMakes(s: State, route: Route, subId: nat, n: nat, h: nat)
    requires h in AddAll(s, route, subId, n).handles && h !in s.handles
    ensures AddAll(s, route, subId, n).handles[h] == Handle(route, true, false)
  {
    if n > 0 && h in AddAll(s, route, subId, n - 1).handles && h != AddAll(s, route, subId, n - 1).nextHandler {
      AddAllMakes(s, route, subId, n - 1, h);
    }
  }

  /** A handle comes active. */
  lemma NewHandleIsActive(s: State, e: Event, h: nat)
    requires h in Step(s, e).handles && h !in s.handles
    ensures Step(s, e).handles[h].active && !Step(s, e).handles[h].failed
  {
    if Enabled(s, e) {
      match e
      case SubscribeAcked(route, subId) =>
        AddAllMakes(s.(flights := s.flights - {route}, acked := s.acked[route := subId]), route, subId, s.flights[route], h);
      case UnsubscribeAcked(route) =>
        var entry, wire := s.byRoute[route], s.byRoute[route].wire;
        if entry.handlers - {wire.last} != {} {
          AddAllMakes(SetEntry(s, route, entry.(handlers := entry.handlers - {wire.last}, wire := Quiet))
                        .(acked := s.acked - {route}), route, entry.subId, wire.waiting, h);
        }
      case UnsubscribeFailed(route) =>
        AddAllMakes(Kept(s, route), route, s.byRoute[route].subId, s.byRoute[route].wire.waiting, h);
      case _ =>
    }
  }

  lemma {:induction false} RunNoneActiveFailed(events: seq<Event>)
    ensures NoneActiveFailed(Run(events))
  {
    if events != [] {
      var s, e := Run(events[..|events| - 1]), events[|events| - 1];
      RunNoneActiveFailed(events[..|events| - 1]);
      RunSound(events[..|events| - 1]);
      forall h | h in Step(s, e).handles ensures !(Step(s, e).handles[h].active && Step(s, e).handles[h].failed) {
        if h in s.handles {
          StepHandle(s, e, h);
        } else {
          NewHandleIsActive(s, e, h);
        }
      }
    }
  }

  /** What event k does to the handle, in a run. */
  lemma {:induction false} RunHandle(events: seq<Event>, k: nat, h: nat)
    requires k < |events| && h in Run(events[..k]).handles
    ensures HandleFollows(Run(events[..k]), events[k], Run(events[..k + 1]), h)
  {
    RunSound(events[..k]);
    RunNoneActiveFailed(events[..k]);
    StepHandle(Run(events[..k]), events[k], h);
    assert events[..k + 1] == events[..k] + [events[k]];
    RunMore(events[..k], events[k]);
  }

  /** A handler is delivered to under the id of the entry it is in, and under no other. */
  lemma DeliveredIffEntered(s: State, h: nat, subId: nat)
    requires Sound(s) && h in s.handles
    ensures h in Delivered(s, subId) <==> Entered(s, h) && s.byRoute[s.handles[h].route].subId == subId
  {
    if subId in s.bySub {
      assert EntryOk(s, s.bySub[subId]);
    }
  }

  /**
   In every run, ending an active handle makes it inactive. Beside other handlers its own is delivered to no more;
   as the last one it has its UNSUBSCRIBE under way.
   */
  lemma {:induction false} EndingTakesEffect(events: seq<Event>, h: nat, e: Event)
    requires Active(Run(events), h) && Ends(e, h)
    ensures var s, n := Run(events), Run(events + [e]);
            && h in n.handles && !n.handles[h].active && (n.handles[h].failed <==> e.DeliveryFailed?)
            && (Sole(s, h) ==> Leaving(n, s.handles[h].route, h))
            && (!Sole(s, h) ==> forall subId :: h !in Delivered(n, subId))
  {
    var all := events + [e];
    assert all[..|events|] == events && all[..|all|] == all;
    RunNoneActiveFailed(events);
    RunHandle(all, |events|, h);
    RunSound(all);
    forall subId ensures h in Delivered(Run(all), subId) ==> Entered(Run(all), h) {
      DeliveredIffEntered(Run(all), h, subId);
    }
  }

  /** In every run, once the broker confirmed, the last handler is delivered to no more. */
  lemma {:induction false} ConfirmationTakesEffect(events: seq<Event>, route: Route)
    requires Withdrawing(Run(events), route)
    ensures var h, n := Run(events).byRoute[route].wire.last, Run(events + [UnsubscribeAcked(route)]);
            !Active(n, h) && forall subId :: h !in Delivered(n, subId)
  {
    var all := events + [UnsubscribeAcked(route)];
    var h := Run(events).byRoute[route].wire.last;
    assert all[..|events|] == events && all[..|all|] == all;
    RunSound(events);
    assert EntryOk(Run(events), route);
    RunHandle(all, |events|, h);
    RunSound(all);
    forall subId ensures h !in Delivered(Run(all), subId) {
      DeliveredIffEntered(Run(all), h, subId);
    }
  }

  predicate EndedAt(events: seq<Event>, k: nat, h: nat) {
    k < |events| && Active(Run(events[..k]), h) && Ends(events[k], h)
  }

  predicate RevivedAt(events: seq<Event>, k: nat, h: nat) {
    k < |events| && Revives(Run(events[..k]), events[k], h)
  }

  predicate LeftAt(events: seq<Event>, k: nat, h: nat) {
    k < |events| && Leaves(Run(events[..k]), events[k], h)
  }

  /** Event k ended the handle, and up to event n no refusal revived it. */
  ghost predicate EndedSince(events: seq<Event>, k: nat, n: nat, h: nat) {
    k < n && EndedAt(events, k, h) && forall j :: k < j < n ==> !RevivedAt(events, j, h)
  }

  lemma {:induction false} InactiveSince(events: seq<Event>, n: nat, h: nat) returns (k: nat)
    requires n <= |events| && h in Run(events[..n]).handles && !Run(events[..n]).handles[h].active
    ensures EndedSince(events, k, n, h)
  {
    assert events[..0] == [] && n > 0;
    assert events[..n] == events[..n - 1] + [events[n - 1]];
    RunMore(events[..n - 1], events[n - 1]);
    if h !in Run(events[..n - 1]).handles {
      NewHandleIsActive(Run(events[..n - 1]), events[n - 1], h);
    }
    RunHandle(events, n - 1, h);
    if EndedAt(events, n - 1, h) {
      k := n - 1;
    } else {
      k := InactiveSince(events, n - 1, h);
    }
  }

  lemma {:induction false} StaysInactive(events: seq<Event>, k: nat, n: nat, h: nat)
    requires n <= |events| && EndedSince(events, k, n, h)
    ensures h in Run(events[..n]).handles && !Run(events[..n]).handles[h].active
  {
    if k < n - 1 {
      StaysInactive(events, k, n - 1, h);
      assert !RevivedAt(events, n - 1, h);
    } else {
      RunNoneActiveFailed(events[..k]);
    }
    RunHandle(events, n - 1, h);
  }

  /**
   In every run, a handle is inactive if and only if it was ended while active and no refusal of its UNSUBSCRIBE
   revived it since; a handle that failed is never revived.
   */
  lemma {:induction false} InactiveIff(events: seq<Event>, h: nat)
    requires h in Run(events).handles
    ensures !Active(Run(events), h) <==> exists k: nat :: EndedSince(events, k, |events|, h)
  {
    assert events[..|events|] == events;
    if !Active(Run(events), h) {
      var k := InactiveSince(events, |events|, h);
    }
    forall k: nat | EndedSince(events, k, |events|, h) ensures !Active(Run(events), h) {
      StaysInactive(events, k, |events|, h);
    }
  }

  lemma {:induction false} LeftBefore(events: seq<Event>, n: nat, h: nat) returns (k: nat)
    requires n <= |events| && h in Run(events[..n]).handles && !Entered(Run(events[..n]), h)
    ensures k < n && LeftAt(events, k, h)
  {
    assert events[..0] == [] && n > 0;
    assert events[..n] == events[..n - 1] + [events[n - 1]];
    RunMore(events[..n - 1], events[n - 1]);
    if h !in Run(events[..n - 1]).handles {
      NewHandleIsActive(Run(events[..n - 1]), events[n - 1], h);
      RunSound(events[..n]);
    }
    RunHandle(events, n - 1, h);
    if LeftAt(events, n - 1, h) {
      k := n - 1;
    } else {
      k := LeftBefore(events, n - 1, h);
    }
  }

  lemma {:induction false} StaysOut(events: seq<Event>, k: nat, n: nat, h: nat)
    requires k < n <= |events| && LeftAt(events, k, h)
    ensures h in Run(events[..n]).handles && !Entered(Run(events[..n]), h)
  {
    if k < n - 1 {
      StaysOut(events, k, n - 1, h);
    }
    RunHandle(events, n - 1, h);
  }

  /**
   In every run, the handler of a handle is delivered to unless at some time it left: its handle ended beside others,
   or the broker confirmed its UNSUBSCRIBE. It never comes back.
   */
  lemma {:induction false} DeliveredUnlessLeft(events: seq<Event>, h: nat)
    requires h in Run(events).handles
    ensures (exists subId :: h in Delivered(Run(events), subId)) <==> forall k: nat :: !LeftAt(events, k, h)
  {
    assert events[..|events|] == events;
    RunSound(events);
    forall k: nat | LeftAt(events, k, h) ensures !Entered(Run(events), h) {
      StaysOut(events, k, |events|, h);
    }
    forall subId ensures h in Delivered(Run(events), subId) ==> Entered(Run(events), h) {
      DeliveredIffEntered(Run(events), h, subId);
    }
    if Entered(Run(events), h) {
      DeliveredIffEntered(Run(events), h, Run(events).byRoute[Run(events).handles[h].route].subId);
    } else {
      var k := LeftBefore(events, |events|, h);
    }
  }

  /** A refused SUBSCRIBE lets go of all calls that shared it, and of nothing else. */
  lemma RefusedCallsGo(s: State, route: Route)
    requires Sound(s) && Enabled(s, SubscribeFailed(route))
    ensures var n := Step(s, SubscribeFailed(route));
            Awaiting(n, route) == 0 && n == s.(flights := n.flights) && forall r :: r != route ==> Awaiting(n, r) == Awaiting(s, r)
  {
    assert route in s.byRoute ==> EntryOk(s, route);
  }

  // ---------- A handle that failed ----------

  /** The handler of a failed handle whose UNSUBSCRIBE was refused. */
  predicate Stuck(s: State, h: nat, route: Route) {
    && h in s.handles && s.handles[h] == Handle(route, false, true)
    && route in s.byRoute && h in s.byRoute[route].handlers && s.byRoute[route].wire.Quiet?
  }

  lemma {:induction false} AddAllKeepsStuck(s: State, route: Route, subId: nat, n: nat, h: nat, at: Route)
    requires Stuck(s, h, at) && HandlesNumbered(s)
    ensures Stuck(AddAll(s, route, subId, n), h, at) && HandlesNumbered(AddAll(s, route, subId, n))
  {
    if n > 0 {
      AddAllKeepsStuck(s, route, subId, n - 1, h, at);
    }
  }

  lemma {:induction false} AddAllKeepsHandle(s: State, route: Route, subId: nat, n: nat, h: nat)
    requires h in s.handles && HandlesNumbered(s)
    ensures var m := AddAll(s, route, subId, n); HandlesNumbered(m) && h in m.handles && m.handles[h] == s.handles[h]
  {
    if n > 0 {
      AddAllKeepsHandle(s, route, subId, n - 1, h);
    }
  }

  /** The exact condition: the refusal of an UNSUBSCRIBE strands its handler if and only if the handle had failed. */
  lemma RefusalStrandsIff(s: State, route: Route)
    requires Sound(s) && Enabled(s, UnsubscribeFailed(route))
    ensures var last := s.byRoute[route].wire.last;
            Stuck(Step(s, UnsubscribeFailed(route)), last, route) <==> s.handles[last].failed
  {
    assert EntryOk(s, route);
    var last, waiting := s.byRoute[route].wire.last, s.byRoute[route].wire.waiting;
    KeptSound(s, route);
    if s.handles[last].failed {
      AddAllKeepsStuck(Kept(s, route), route, s.byRoute[route].subId, waiting, last, route);
    } else {
      AddAllKeepsHandle(Kept(s, route), route, s.byRoute[route].subId, waiting, last);
    }
  }

  lemma {:induction false} RunMore(events: seq<Event>, e: Event)
    ensures Run(events + [e]) == Step(Run(events), e)
  {
    assert (events + [e])[..|events|] == events;
  }

  /** A handle of route "r" whose notifications overflow: its UNSUBSCRIBE is sent. */
  function Overflowed(): seq<Event> {
    [Subscribe("r")] + [SubscribeAcked("r", 1)] + [DeliveryFailed(0)]
  }

  lemma OverflowWithdraws()
    ensures Run(Overflowed()) == State(map["r" := Entry(1, 1, {0}, Unsubscribing(0, 0))], map[1 := "r"], map[],
                                       map[0 := Handle("r", false, true)], 1, 2, map["r" := 1])
  {
    var waiting := EMPTY.(flights := map["r" := 1]);
    var answered := EMPTY.(acked := map["r" := 1]);
    var subscribed := State(map["r" := Entry(1, 1, {0}, Quiet)], map[1 := "r"], map[],
                            map[0 := Handle("r", true, false)], 1, 2, map["r" := 1]);
    assert Run([Subscribe("r")]) == waiting;
    assert waiting.(flights := waiting.flights - {"r"}, acked := waiting.acked["r" := 1]) == answered;
    assert AddAll(answered, "r", 1, 1) == AddLocal(AddAll(answered, "r", 1, 0), "r", 1) == subscribed;
    RunMore([Subscribe("r")], SubscribeAcked("r", 1));
    RunMore([Subscribe("r")] + [SubscribeAcked("r", 1)], DeliveryFailed(0));
  }

  /** A run that reaches it: notifications overflow, and the broker refuses the UNSUBSCRIBE that follows. */
  lemma OverflowThenRefusal()
    ensures Stuck(Run(Overflowed() + [UnsubscribeFailed("r")]), 0, "r")
  {
    OverflowWithdraws();
    RunMore(Overflowed(), UnsubscribeFailed("r"));
    RunSound(Overflowed());
    RefusalStrandsIff(Run(Overflowed()), "r");
  }

  lemma EndHandleKeepsStuck(s: State, other: nat, failed: bool, h: nat, at: Route)
    requires Sound(s) && Stuck(s, h, at)
    ensures Stuck(EndHandle(s, other, failed), h, at)
  {
    assert EntryOk(s, at);
  }

  lemma StepKeepsStuck(s: State, e: Event, h: nat, at: Route)
    requires Sound(s) && Stuck(s, h, at)
    ensures Stuck(Step(s, e), h, at)
  {
    if Enabled(s, e) {
      match e
      case SubscribeAcked(route, subId) =>
        AddAllKeepsStuck(s.(flights := s.flights - {route}, acked := s.acked[route := subId]), route, subId, s.flights[route], h, at);
      case UnsubscribeAcked(route) => ConfirmedEntryIsEmpty(s, route);
      case UnsubscribeFailed(route) =>
        assert EntryOk(s, route);
        AddAllKeepsStuck(Kept(s, route), route, s.byRoute[route].subId, s.byRoute[route].wire.waiting, h, at);
      case Unsubscribe(other) => EndHandleKeepsStuck(s, other, false, h, at);
      case DeliveryFailed(other) => EndHandleKeepsStuck(s, other, true, h, at);
      case _ =>
    }
  }

  lemma {:induction false} StuckAfterOneMore(events: seq<Event>, e: Event, h: nat, route: Route)
    requires Stuck(Run(events), h, route)
    ensures Stuck(Run(events + [e]), h, route)
  {
    assert (events + [e])[..|events|] == events;
    RunSound(events);
    StepKeepsStuck(Run(events), e, h, route);
  }

  /** Nothing ever retries it: the handler stays registered, and the broker subscribed, for the rest of the session. */
  lemma {:induction false} StuckForGood(events: seq<Event>, more: seq<Event>, h: nat, route: Route)
    requires Stuck(Run(events), h, route)
    ensures Stuck(Run(events + more), h, route) && route in Run(events + more).acked
    decreases |more|
  {
    RunSound(events + more);
    if more == [] {
      assert events + more == events;
    } else {
      var last := |more| - 1;
      StuckForGood(events, more[..last], h, route);
      assert events + more == (events + more[..last]) + [more[last]];
      StuckAfterOneMore(events + more[..last], more[last], h, route);
    }
  }

  lemma AddLocalStrandsNone(s: State, route: Route, subId: nat, h: nat, at: Route)
    requires Stuck(AddLocal(s, route, subId), h, at) && (route in s.byRoute ==> s.byRoute[route].wire.Quiet?)
    ensures Stuck(s, h, at)
  {
  }

  lemma {:induction false} AddAllStrandsNone(s: State, route: Route, subId: nat, n: nat, h: nat, at: Route)
    requires Stuck(AddAll(s, route, subId, n), h, at)
    requires route in s.byRoute ==> s.byRoute[route].wire.Quiet?
    ensures Stuck(s, h, at)
  {
    if n > 0 {
      AddAllAdds(s, route, subId, n - 1);
      AddLocalStrandsNone(AddAll(s, route, subId, n - 1), route, subId, h, at);
      AddAllStrandsNone(s, route, subId, n - 1, h, at);
    }
  }

  /** The UNSUBSCRIBE of this handler, whose handle failed, is refused. */
  predicate Strands(s: State, e: Event, h: nat, route: Route) {
    e == UnsubscribeFailed(route) && Leaving(s, route, h) && h in s.handles && s.handles[h].failed
  }

  lemma RefusalStrandsItsHandle(s: State, other: Route, h: nat, route: Route)
    requires Sound(s) && Enabled(s, UnsubscribeFailed(other))
    requires !Stuck(s, h, route) && Stuck(Step(s, UnsubscribeFailed(other)), h, route)
    ensures Strands(s, UnsubscribeFailed(other), h, route)
  {
    assert EntryOk(s, other);
    AddAllStrandsNone(Kept(s, other), other, s.byRoute[other].subId, s.byRoute[other].wire.waiting, h, route);
  }

  lemma AnswerStrandsNone(s: State, other: Route, subId: nat, h: nat, route: Route)
    requires Sound(s) && Enabled(s, SubscribeAcked(other, subId)) && Stuck(Step(s, SubscribeAcked(other, subId)), h, route)
    ensures Stuck(s, h, route)
  {
    assert other in s.byRoute ==> EntryOk(s, other);
    AddAllStrandsNone(s.(flights := s.flights - {other}, acked := s.acked[other := subId]), other, subId, s.flights[other], h, route);
  }

  lemma EndStrandsNone(s: State, other: nat, failed: bool, h: nat, route: Route)
    requires Sound(s) && Stuck(EndHandle(s, other, failed), h, route)
    ensures Stuck(s, h, route)
  {
    assert route in s.byRoute ==> EntryOk(s, route);
  }

  lemma OnlyRefusalStrands(s: State, e: Event, h: nat, route: Route)
    requires Sound(s) && !Stuck(s, h, route) && Stuck(Step(s, e), h, route)
    ensures Strands(s, e, h, route)
  {
    match e
    case SubscribeAcked(other, subId) => AnswerStrandsNone(s, other, subId, h, route);
    case UnsubscribeAcked(other) => ConfirmedEntryIsEmpty(s, other);
    case UnsubscribeFailed(other) => RefusalStrandsItsHandle(s, other, h, route);
    case Unsubscribe(other) => EndStrandsNone(s, other, false, h, route);
    case DeliveryFailed(other) => EndStrandsNone(s, other, true, h, route);
    case _ =>
  }

  ghost predicate StrandedAt(events: seq<Event>, k: nat, h: nat, route: Route) {
    k < |events| && Strands(Run(events[..k]), events[k], h, route)
  }

  lemma {:induction false} StuckSinceRefusal(events: seq<Event>, h: nat, route: Route)
    requires Stuck(Run(events), h, route)
    ensures exists k: nat :: StrandedAt(events, k, h, route)
  {
    assert events != [];
    var n := |events| - 1;
    if Stuck(Run(events[..n]), h, route) {
      StuckSinceRefusal(events[..n], h, route);
      var k: nat :| StrandedAt(events[..n], k, h, route);
      assert events[..n][..k] == events[..k];
      assert StrandedAt(events, k, h, route);
    } else {
      RunSound(events[..n]);
      OnlyRefusalStrands(Run(events[..n]), events[n], h, route);
      assert StrandedAt(events, n, h, route);
    }
  }

  /**
   Over every run: a handler is stranded if and only if some earlier answer refused its UNSUBSCRIBE after its
   handle had failed.
   */
  lemma {:induction false} StrandedIff(events: seq<Event>, h: nat, route: Route)
    ensures Stuck(Run(events), h, route) <==> exists k: nat :: StrandedAt(events, k, h, route)
  {
    if Stuck(Run(events), h, route) {
      StuckSinceRefusal(events, h, route);
    } else if exists k: nat :: StrandedAt(events, k, h, route) {
      var k: nat :| StrandedAt(events, k, h, route);
      RunSound(events[..k]);
      RefusalStrandsIff(Run(events[..k]), route);
      RunMore(events[..k], events[k]);
      assert events[..k] + [events[k]] + events[k + 1..] == events;
      StuckForGood(events[..k] + [events[k]], events[k + 1..], h, route);
    }
  }
}
