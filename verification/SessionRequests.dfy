/**
 The requests of the multiplexer over the life of the connection: which runs of the connection keep every
 connect of the multiplexer from finding a request that still waits.
 */
module SessionRequests {
  import opened ConnectionModel
  import opened AttemptOverlap
  import Mux = MuxModel

  /** The step calls setConnected. */
  predicate Connects(c: Conn, e: Event) {
    e.Negotiated? && Enabled(c, e) && !c.closeRequested && !(e.who.ByConnect? && c.authRejected)
  }

  /** The receive loop returns with a loss. */
  predicate ReceivingFails(c: Conn) {
    c.reception.receiveLoop == Receiving && !c.reception.abort && !c.closeRequested
  }

  /** The step calls setDisconnected. */
  predicate Disconnects(c: Conn, e: Event) {
    match e
    case Close => !c.closePromise.Called? && !ReturnsEarly(c)
    case TransportClosed(_) => Enabled(c, e) && c.status != Closed && !c.closeRequested
    case Lost(failed) => failed.NoTransport? || c.transport == failed
    case ReceiveEnds => ReceivingFails(c)
    case HelloArrived => ReceivingFails(c) && c.reception.version != 0
    case _ => false
  }

  /** A request passes the readiness check: the connection is authenticated, or it restores and the request is part of that. */
  predicate Ready(c: Conn) {
    && !c.closeRequested
    && (c.status == Authenticated
        || (c.restoreActive && c.status == Authenticating && !c.authRejected && c.transport.Transport?))
  }

  /** The multiplexer is connected exactly when an attempt that has its answer goes on. */
  lemma ConnectsIff(cfg: Config, c: Conn, e: Event)
    ensures Connects(c, e) <==>
            && e.Negotiated? && At(c, e.who, AwaitingHello(true))
            && if e.who.ByConnect? then Step(cfg, c, e).status == Authenticated && Step(cfg, c, e).connecting == NoAttempt
               else At(Step(cfg, c, e), ByReconnect, Restoring)
  {
  }

  /** While a reconnect restores, requests pass before the session is authenticated. */
  lemma RestoreMayRequest(cfg: Config, c: Conn)
    requires At(c, ByReconnect, AwaitingHello(true)) && c.status == Authenticating && c.transport.Transport?
    requires !c.closeRequested && !c.authRejected
    ensures var n := Step(cfg, c, Negotiated(ByReconnect)); Ready(n) && n.status == Authenticating
  {
  }

  datatype Item = OfConnection(event: Event) | OfRequests(request: Mux.Event)

  function Operation(c: Conn, e: Event): seq<Mux.Event> {
    if Connects(c, e) then [Mux.Connect] else if Disconnects(c, e) then [Mux.Disconnect] else []
  }

  /** Anything may happen to a request at any time, but it is issued only while the connection is ready. */
  predicate Allowed(c: Conn, request: Mux.Event) {
    !request.Connect? && !request.Disconnect? && (request.Issue? ==> Ready(c))
  }

  /** What an item is for the multiplexer, beside a connection in this state. */
  function OfMux(c: Conn, item: Item): seq<Mux.Event> {
    match item
    case OfConnection(e) => Operation(c, e)
    case OfRequests(request) => if Allowed(c, request) then [request] else []
  }

  function OfConn(item: Item): seq<Event> {
    if item.OfConnection? then [item.event] else []
  }

  function EventsOf(items: seq<Item>): seq<Event> {
    if items == [] then [] else EventsOf(items[..|items| - 1]) + OfConn(items[|items| - 1])
  }

  /** What the multiplexer goes through in a run of both. */
  function CallsOf(cfg: Config, items: seq<Item>): seq<Mux.Event> {
    if items == [] then []
    else
      var n := |items| - 1;
      CallsOf(cfg, items[..n]) + OfMux(RunFrom(cfg, INITIAL, EventsOf(items[..n])), items[n])
  }

  /** Since the last disconnect of the multiplexer the connection was ready, so a request may be waiting. */
  predicate MayWait(cfg: Config, events: seq<Event>) {
    || Ready(RunFrom(cfg, INITIAL, events))
    || (events != [] &&
        var n := |events| - 1;
        MayWait(cfg, events[..n]) && !Disconnects(RunFrom(cfg, INITIAL, events[..n]), events[n]))
  }

  /** Step k connects the multiplexer while a request may be waiting. */
  predicate ConnectsOverWaiting(cfg: Config, events: seq<Event>, k: nat) {
    k < |events| && Connects(RunFrom(cfg, INITIAL, events[..k]), events[k]) && MayWait(cfg, events[..k])
  }

  ghost predicate NeverConnectsOverWaiting(cfg: Config, events: seq<Event>) {
    forall k: nat :: !ConnectsOverWaiting(cfg, events, k)
  }

  /** Whatever requests are made beside these events, no connect of the multiplexer finds one waiting. */
  ghost predicate AlwaysOrderly(cfg: Config, events: seq<Event>) {
    forall items :: EventsOf(items) == events ==> Mux.Orderly(CallsOf(cfg, items))
  }

  function VersionAfter(c: Conn, e: Event): nat {
    if Disconnects(c, e) then 0
    else if e.HelloArrived? && c.reception.receiveLoop == Receiving && c.reception.version == 0 then WIRE_VERSION
    else c.reception.version
  }

  lemma HelloVersion(cfg: Config, c: Conn)
    requires c.reception.receiveLoop == Receiving
    ensures HearHello(cfg, c).reception.version == VersionAfter(c, HelloArrived)
  {
  }

  /** The version a HELLO negotiated follows the disconnects of the multiplexer: each forgets it, and nothing else does. */
  lemma VersionFollows(cfg: Config, c: Conn, e: Event)
    ensures Step(cfg, c, e).reception.version == VersionAfter(c, e)
  {
    if e.HelloArrived? && c.reception.receiveLoop == Receiving {
      HelloVersion(cfg, c);
    }
  }

  // ---------- Runs of both ----------

  lemma {:induction false} ItemsSnoc(cfg: Config, items: seq<Item>, item: Item)
    ensures CallsOf(cfg, items + [item]) == CallsOf(cfg, items) + OfMux(RunFrom(cfg, INITIAL, EventsOf(items)), item)
    ensures EventsOf(items + [item]) == EventsOf(items) + OfConn(item)
  {
    assert (items + [item])[..|items|] == items;
  }

  lemma {:induction false} MuxSnoc(calls: seq<Mux.Event>, m: Mux.Event)
    ensures Mux.Run(calls + [m]) == Mux.Step(Mux.Run(calls), m)
  {
    assert (calls + [m])[..|calls|] == calls;
  }

  lemma {:induction false} OrderlySnoc(calls: seq<Mux.Event>, m: Mux.Event)
    requires Mux.Orderly(calls) && (m.Connect? ==> Mux.NoneLive(Mux.Run(calls)))
    ensures Mux.Orderly(calls + [m])
  {
    var all := calls + [m];
    forall k | 0 <= k < |all| && all[k].Connect? ensures Mux.NoneLive(Mux.Run(all[..k])) {
      if k < |calls| {
        assert all[..k] == calls[..k] && calls[k].Connect?;
      } else {
        assert all[..k] == calls;
      }
    }
  }

  lemma {:induction false} OrderlyStart(calls: seq<Mux.Event>, rest: seq<Mux.Event>)
    requires Mux.Orderly(calls + rest)
    ensures Mux.Orderly(calls)
  {
    Mux.OrderlyPrefix(calls + rest, |calls|);
    assert (calls + rest)[..|calls|] == calls;
  }

  ghost predicate SomeLive(calls: seq<Mux.Event>) {
    !Mux.NoneLive(Mux.Run(calls))
  }

  // ---------- Without such a step every run is orderly ----------

  /** The calls are orderly, and one waits only if one may. */
  ghost predicate Accounted(calls: seq<Mux.Event>, may: bool) {
    Mux.Orderly(calls) && (SomeLive(calls) ==> may)
  }

  lemma RequestAccounted(calls: seq<Mux.Event>, may: bool, m: Mux.Event)
    requires Accounted(calls, may) && !m.Connect? && (m.Issue? ==> may)
    ensures Accounted(calls + [m], may)
  {
    var s := Mux.Run(calls);
    OrderlySnoc(calls, m);
    MuxSnoc(calls, m);
    Mux.RunWellFormed(calls);
    Mux.StepGrows(s, m);
    if !m.Issue? && Mux.NoneLive(s) {
      forall c ensures !Mux.Live(Mux.Step(s, m), c) {
        assert !Mux.Live(s, c);
      }
    }
  }

  lemma ConnectAccounted(calls: seq<Mux.Event>)
    requires Accounted(calls, false)
    ensures Accounted(calls + [Mux.Connect], false)
  {
    RequestFree(Mux.Run(calls));
    OrderlySnoc(calls, Mux.Connect);
    MuxSnoc(calls, Mux.Connect);
  }

  lemma RequestFree(s: Mux.State)
    requires Mux.NoneLive(s)
    ensures Mux.NoneLive(Mux.Step(s, Mux.Connect))
  {
    forall c ensures !Mux.Live(Mux.Step(s, Mux.Connect), c) {
      assert !Mux.Live(s, c);
    }
  }

  lemma DisconnectAccounted(calls: seq<Mux.Event>, may: bool)
    requires Accounted(calls, may)
    ensures Accounted(calls + [Mux.Disconnect], false)
  {
    OrderlySnoc(calls, Mux.Disconnect);
    MuxSnoc(calls, Mux.Disconnect);
    Mux.RunCovered(calls);
    Mux.DisconnectSettlesAll(Mux.Run(calls));
  }

  lemma OperationAccounted(calls: seq<Mux.Event>, may: bool, c: Conn, e: Event)
    requires Accounted(calls, may) && (Connects(c, e) ==> !may)
    ensures Accounted(calls + Operation(c, e), may && !Disconnects(c, e))
  {
    if Connects(c, e) {
      ConnectAccounted(calls);
    } else if Disconnects(c, e) {
      DisconnectAccounted(calls, may);
    } else {
      assert calls + Operation(c, e) == calls;
    }
  }

  lemma ItemAccounted(calls: seq<Mux.Event>, may: bool, c: Conn, item: Item)
    requires Accounted(calls, may) && (Ready(c) ==> may)
    requires item.OfConnection? && Connects(c, item.event) ==> !may
    ensures Accounted(calls + OfMux(c, item), may && !(item.OfConnection? && Disconnects(c, item.event)))
  {
    match item
    case OfConnection(e) => OperationAccounted(calls, may, c, e);
    case OfRequests(request) =>
      if Allowed(c, request) {
        RequestAccounted(calls, may, request);
      } else {
        assert calls + OfMux(c, item) == calls;
      }
  }

  lemma MayWaitGoesOn(cfg: Config, events: seq<Event>, item: Item)
    requires MayWait(cfg, events)
    requires !(item.OfConnection? && Disconnects(RunFrom(cfg, INITIAL, events), item.event))
    ensures MayWait(cfg, events + OfConn(item))
  {
    if item.OfConnection? {
      assert (events + [item.event])[..|events|] == events;
    } else {
      assert events + OfConn(item) == events;
    }
  }

  lemma {:induction false} PrefixFree(cfg: Config, events: seq<Event>, item: Item)
    requires NeverConnectsOverWaiting(cfg, events + OfConn(item))
    ensures NeverConnectsOverWaiting(cfg, events)
    ensures item.OfConnection? && Connects(RunFrom(cfg, INITIAL, events), item.event) ==> !MayWait(cfg, events)
  {
    var all := events + OfConn(item);
    forall k: nat ensures !ConnectsOverWaiting(cfg, events, k) {
      if k < |events| {
        assert all[..k] == events[..k] && all[k] == events[k];
        assert !ConnectsOverWaiting(cfg, all, k);
      }
    }
    if item.OfConnection? {
      assert all[..|events|] == events && !ConnectsOverWaiting(cfg, all, |events|);
    }
  }

  lemma {:induction false} RunAccounted(cfg: Config, items: seq<Item>)
    requires NeverConnectsOverWaiting(cfg, EventsOf(items))
    ensures Accounted(CallsOf(cfg, items), MayWait(cfg, EventsOf(items)))
  {
    if items == [] {
      assert Mux.Run([]) == Mux.Init();
    } else {
      var prefix, item := items[..|items| - 1], items[|items| - 1];
      var events := EventsOf(prefix);
      assert EventsOf(items) == events + OfConn(item);
      PrefixFree(cfg, events, item);
      RunAccounted(cfg, prefix);
      ItemAccounted(CallsOf(cfg, prefix), MayWait(cfg, events), RunFrom(cfg, INITIAL, events), item);
      if MayWait(cfg, events) && !(item.OfConnection? && Disconnects(RunFrom(cfg, INITIAL, events), item.event)) {
        MayWaitGoesOn(cfg, events, item);
      }
    }
  }

  // ---------- With such a step some run is not ----------

  /** The events alone, with no request beside them. */
  function Alone(events: seq<Event>): (items: seq<Item>)
    ensures |items| == |events|
  {
    if events == [] then [] else Alone(events[..|events| - 1]) + [OfConnection(events[|events| - 1])]
  }

  lemma AppendedIsFresh(calls: seq<Mux.Event>, m: Mux.Event)
    requires Mux.Run(calls).nextId == 1 && (m.Connect? || m.Disconnect?)
    ensures Mux.Run(calls + [m]).nextId == 1
  {
    MuxSnoc(calls, m);
  }

  lemma OperationIsFresh(calls: seq<Mux.Event>, c: Conn, e: Event)
    requires Mux.Run(calls).nextId == 1
    ensures Mux.Run(calls + Operation(c, e)).nextId == 1
  {
    if Operation(c, e) == [] {
      assert calls + Operation(c, e) == calls;
    } else {
      AppendedIsFresh(calls, Operation(c, e)[0]);
    }
  }

  ghost predicate Fresh(cfg: Config, events: seq<Event>, items: seq<Item>) {
    EventsOf(items) == events && Mux.Run(CallsOf(cfg, items)).nextId == 1
  }

  lemma {:induction false} FreshSnoc(cfg: Config, events: seq<Event>, items: seq<Item>, e: Event)
    requires Fresh(cfg, events, items)
    ensures Fresh(cfg, events + [e], items + [OfConnection(e)])
  {
    OperationIsFresh(CallsOf(cfg, items), RunFrom(cfg, INITIAL, events), e);
    ItemsSnoc(cfg, items, OfConnection(e));
  }

  lemma {:induction false} AloneIsFresh(cfg: Config, events: seq<Event>)
    ensures Fresh(cfg, events, Alone(events))
  {
    if events == [] {
      assert Mux.Run([]) == Mux.Init();
    } else {
      var n := |events| - 1;
      AloneIsFresh(cfg, events[..n]);
      FreshSnoc(cfg, events[..n], Alone(events[..n]), events[n]);
      assert events[..n] + [events[n]] == events;
    }
  }

  lemma IssueLives(calls: seq<Mux.Event>)
    requires Mux.Run(calls).nextId == 1
    ensures SomeLive(calls + [Mux.Issue(0)])
  {
    MuxSnoc(calls, Mux.Issue(0));
    assert Mux.Live(Mux.Step(Mux.Run(calls), Mux.Issue(0)), |Mux.Run(calls).calls|);
  }

  lemma ConnectKeepsLive(calls: seq<Mux.Event>)
    requires SomeLive(calls)
    ensures SomeLive(calls + [Mux.Connect])
  {
    var i :| Mux.Live(Mux.Run(calls), i);
    MuxSnoc(calls, Mux.Connect);
    assert Mux.Live(Mux.Step(Mux.Run(calls), Mux.Connect), i);
  }

  lemma OperationKeepsLive(calls: seq<Mux.Event>, c: Conn, e: Event)
    requires SomeLive(calls) && !Disconnects(c, e)
    ensures SomeLive(calls + Operation(c, e))
  {
    if Connects(c, e) {
      ConnectKeepsLive(calls);
    } else {
      assert calls + Operation(c, e) == calls;
    }
  }

  ghost predicate LeavesWaiting(cfg: Config, events: seq<Event>, items: seq<Item>) {
    EventsOf(items) == events && SomeLive(CallsOf(cfg, items))
  }

  lemma ReadyLeavesWaiting(cfg: Config, events: seq<Event>)
    requires Ready(RunFrom(cfg, INITIAL, events))
    ensures LeavesWaiting(cfg, events, Alone(events) + [OfRequests(Mux.Issue(0))])
  {
    AloneIsFresh(cfg, events);
    IssueLives(CallsOf(cfg, Alone(events)));
    ItemsSnoc(cfg, Alone(events), OfRequests(Mux.Issue(0)));
  }

  lemma {:induction false} StillWaiting(cfg: Config, events: seq<Event>, items: seq<Item>, e: Event)
    requires LeavesWaiting(cfg, events, items) && !Disconnects(RunFrom(cfg, INITIAL, events), e)
    ensures LeavesWaiting(cfg, events + [e], items + [OfConnection(e)])
  {
    OperationKeepsLive(CallsOf(cfg, items), RunFrom(cfg, INITIAL, events), e);
    ItemsSnoc(cfg, items, OfConnection(e));
  }

  /** When a request may wait, one does in some run. */
  lemma {:induction false} SomeWaits(cfg: Config, events: seq<Event>) returns (items: seq<Item>)
    requires MayWait(cfg, events)
    ensures LeavesWaiting(cfg, events, items)
    decreases |events|
  {
    if Ready(RunFrom(cfg, INITIAL, events)) {
      ReadyLeavesWaiting(cfg, events);
      items := Alone(events) + [OfRequests(Mux.Issue(0))];
    } else {
      var n := |events| - 1;
      items := SomeWaits(cfg, events[..n]);
      StillWaiting(cfg, events[..n], items, events[n]);
      items := items + [OfConnection(events[n])];
      assert events[..n] + [events[n]] == events;
    }
  }

  lemma ConnectOverLive(calls: seq<Mux.Event>)
    requires SomeLive(calls)
    ensures !Mux.Orderly(calls + [Mux.Connect])
  {
    var all := calls + [Mux.Connect];
    assert all[..|calls|] == calls && all[|calls|].Connect?;
  }

  ghost predicate Disordered(cfg: Config, events: seq<Event>, items: seq<Item>) {
    EventsOf(items) == events && !Mux.Orderly(CallsOf(cfg, items))
  }

  lemma {:induction false} ConnectDisorders(cfg: Config, events: seq<Event>, items: seq<Item>, e: Event)
    requires LeavesWaiting(cfg, events, items) && Connects(RunFrom(cfg, INITIAL, events), e)
    ensures Disordered(cfg, events + [e], items + [OfConnection(e)])
  {
    ConnectOverLive(CallsOf(cfg, items));
    ItemsSnoc(cfg, items, OfConnection(e));
  }

  lemma {:induction false} DisorderStays(cfg: Config, events: seq<Event>, items: seq<Item>, e: Event)
    requires Disordered(cfg, events, items)
    ensures Disordered(cfg, events + [e], items + [OfConnection(e)])
  {
    ItemsSnoc(cfg, items, OfConnection(e));
    var added := Operation(RunFrom(cfg, INITIAL, events), e);
    if Mux.Orderly(CallsOf(cfg, items) + added) {
      OrderlyStart(CallsOf(cfg, items), added);
    }
  }

  lemma {:induction false} OverlapAt(cfg: Config, events: seq<Event>, e: Event, k: nat)
    requires ConnectsOverWaiting(cfg, events + [e], k)
    ensures k <= |events|
    ensures k == |events| ==> Connects(RunFrom(cfg, INITIAL, events), e) && MayWait(cfg, events)
    ensures k < |events| ==> ConnectsOverWaiting(cfg, events, k)
  {
    assert (events + [e])[..k] == events[..k];
    assert events[..|events|] == events;
  }

  lemma {:induction false} Disorder(cfg: Config, events: seq<Event>, k: nat) returns (items: seq<Item>)
    requires ConnectsOverWaiting(cfg, events, k)
    ensures Disordered(cfg, events, items)
    decreases |events|
  {
    var prefix, e := events[..|events| - 1], events[|events| - 1];
    assert prefix + [e] == events;
    OverlapAt(cfg, prefix, e, k);
    if k == |prefix| {
      items := SomeWaits(cfg, prefix);
      ConnectDisorders(cfg, prefix, items, e);
    } else {
      items := Disorder(cfg, prefix, k);
      DisorderStays(cfg, prefix, items, e);
    }
    items := items + [OfConnection(e)];
  }

  /**
   For every run of the connection: no connect of the multiplexer ever finds a request waiting, whatever
   requests are made, if and only if none follows a ready moment without a disconnect in between.
   */
  lemma {:induction false} AlwaysOrderlyIff(cfg: Config, events: seq<Event>)
    ensures AlwaysOrderly(cfg, events) <==> NeverConnectsOverWaiting(cfg, events)
  {
    if k: nat :| ConnectsOverWaiting(cfg, events, k) {
      var items := Disorder(cfg, events, k);
    } else {
      forall items | EventsOf(items) == events ensures Mux.Orderly(CallsOf(cfg, items)) {
        RunAccounted(cfg, items);
      }
    }
  }

  /** In such a run every waiting request is reached through the table, and a disconnect settles all of them. */
  lemma {:induction false} RequestsStayReachable(cfg: Config, items: seq<Item>, calls: seq<Mux.Event>)
    requires calls == CallsOf(cfg, items) && NeverConnectsOverWaiting(cfg, EventsOf(items))
    ensures Mux.Entered(Mux.Run(calls).calls, Mux.Run(calls).table)
    ensures Mux.NoneLive(Mux.Step(Mux.Run(calls), Mux.Disconnect))
  {
    RunAccounted(cfg, items);
    Mux.RunCovered(calls);
    Mux.DisconnectSettlesAll(Mux.Run(calls));
  }

  predicate Resolved(calls: seq<Mux.Event>, c: nat) {
    c < |Mux.Run(calls).calls| && Mux.Run(calls).calls[c].outcome.Resolved?
  }

  /** Call k is a final frame with the identifier of c, of the session c belongs to. */
  ghost predicate AnsweredInSession(calls: seq<Mux.Event>, k: nat, c: nat) {
    && k < |calls| && Mux.Live(Mux.Run(calls[..k]), c) && calls[k].Frame? && calls[k].final
    && calls[k].id == Mux.Run(calls[..k]).calls[c].id
    && Mux.Run(calls[..k]).epoch == Mux.Run(calls[..k]).calls[c].epoch
  }

  /** In such a run a request is resolved by a frame of its own session alone. */
  lemma {:induction false} ResolvedInItsSession(cfg: Config, items: seq<Item>, calls: seq<Mux.Event>, c: nat)
    requires calls == CallsOf(cfg, items) && NeverConnectsOverWaiting(cfg, EventsOf(items))
    requires Resolved(calls, c)
    ensures exists k: nat :: AnsweredInSession(calls, k, c)
  {
    RunAccounted(cfg, items);
    Mux.ResolvedByItsOwnFrame(calls, c);
    var k :| Mux.Answers(calls, k, c, Mux.Run(calls).calls[c].outcome.payload);
    assert AnsweredInSession(calls, k, c);
  }

  /** A run that does it: the stale success connects, requests are made, and the newer attempt connects over them. */
  lemma StaleSuccessConnectsTwice(cfg: Config)
    requires cfg.reconnectEnabled && !cfg.bounded
    ensures ConnectsOverWaiting(cfg, ANSWERED_REDIALED + [Negotiated(ByConnect)] + [Negotiated(ByReconnect)],
                                |ANSWERED_REDIALED| + 1)
  {
    var first := ANSWERED_REDIALED + [Negotiated(ByConnect)];
    var both := first + [Negotiated(ByReconnect)];
    StaleSuccessIsUnconfirmed(cfg);
    assert both[..|first|] == first && both[|first|] == Negotiated(ByReconnect);
  }
}
