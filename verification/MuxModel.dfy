/**
 The correlated path of the multiplexer as a state machine: every call ever issued, the table from
 correlation to call, and one step per event. A table entry whose call is no longer waiting is a
 tombstone. Any interleaving of callers, timer, signals, transport and broker is a sequence of events.
 */
module MuxModel {
  import opened Requests

  const MAX_CORRELATION: nat := 0xffff_ffff_ffff_ffff

  /** `epoch` numbers the sessions: it is the number of times the client had connected at issue. */
  datatype Call = Call(epoch: nat, id: nat, due: int, outcome: Outcome)

  /** `nextId == 0` means the identifiers of this session are used up. */
  datatype State = State(calls: seq<Call>, table: map<nat, nat>, epoch: nat, nextId: nat, online: bool)

  datatype Event =
    | Issue(due: int)
    | Allocate
    | Frame(id: nat, payload: Bytes, final: bool)
    | Timeouts(now: int)
    | Abort(call: nat)
    | SendThrew(call: nat)
    | SendResolved(call: nat)
    | SendRejected(call: nat)
    | Connect
    | Disconnect

  function Init(): State {
    State([], map[], 0, 1, false)
  }

  function NextId(id: nat): nat {
    if id == 0 || id == MAX_CORRELATION then 0 else id + 1
  }

  predicate Live(s: State, c: int) {
    0 <= c < |s.calls| && s.calls[c].outcome == Waiting
  }

  function Settle(s: State, c: nat, outcome: Outcome): State {
    if Live(s, c) then s.(calls := s.calls[c := s.calls[c].(outcome := outcome)]) else s
  }

  /** What becomes of one call when those in `hit` fail for the reason `why`. */
  function FailIf(call: Call, hit: bool, why: Failure): Call {
    if call.outcome == Waiting && hit then call.(outcome := Failed(why)) else call
  }

  /** The calls after every waiting one in `hit` failed for the reason `why`. */
  function FailThose(calls: seq<Call>, hit: set<nat>, why: Failure): (r: seq<Call>)
    ensures |r| == |calls|
    ensures forall i :: 0 <= i < |calls| ==> r[i] == FailIf(calls[i], i in hit, why)
  {
    if calls == [] then []
    else
      var n := |calls| - 1;
      FailThose(calls[..n], hit, why) + [FailIf(calls[n], n in hit, why)]
  }

  function Overdue(calls: seq<Call>, now: int): set<nat> {
    set i: nat | i < |calls| && calls[i].due <= now
  }

  function Step(s: State, e: Event): State {
    match e
    case Issue(due) =>
      if s.nextId == 0 then s
      else s.(calls := s.calls + [Call(s.epoch, s.nextId, due, Waiting)],
              table := s.table[s.nextId := |s.calls|],
              nextId := NextId(s.nextId))
    case Allocate => s.(nextId := NextId(s.nextId))
    case Frame(id, payload, final) =>
      if id !in s.table || !final then s
      else Settle(s, s.table[id], Resolved(payload)).(table := s.table - {id})
    case Timeouts(now) =>
      s.(calls := FailThose(s.calls, Overdue(s.calls, now), TimedOut))
    case Abort(c) => Settle(s, c, Failed(Aborted))
    case SendThrew(c) => Settle(s, c, Failed(SendFailed))
    case SendResolved(c) => if s.online then s else Settle(s, c, Failed(ConnectionReset))
    case SendRejected(c) =>
      if Live(s, c) then Settle(s, c, Failed(SendFailed)).(table := s.table - {s.calls[c].id}) else s
    case Connect => s.(online := true, nextId := 1, epoch := s.epoch + 1)
    case Disconnect =>
      s.(calls := FailThose(s.calls, s.table.Values, ConnectionReset), table := map[], online := false)
  }

  function RunFrom(s: State, more: seq<Event>): State {
    if more == [] then s else Step(RunFrom(s, more[..|more| - 1]), more[|more| - 1])
  }

  function Run(events: seq<Event>): State {
    RunFrom(Init(), events)
  }

  /** Table entries point at calls with that identifier. */
  ghost predicate TableSound(s: State) {
    forall id :: id in s.table ==> s.table[id] < |s.calls| && s.calls[s.table[id]].id == id
  }

  ghost predicate IdsInRange(s: State) {
    && s.nextId <= MAX_CORRELATION
    && forall i :: 0 <= i < |s.calls| ==>
         && s.calls[i].epoch <= s.epoch
         && 1 <= s.calls[i].id <= MAX_CORRELATION
         && (s.calls[i].epoch == s.epoch && s.nextId != 0 ==> s.calls[i].id < s.nextId)
  }

  /** Holds in every reachable state. */
  ghost predicate WellFormed(s: State) {
    TableSound(s) && IdsInRange(s) && UniqueIds(s)
  }

  /** Within one session identifiers strictly increase in issue order, so they never repeat. */
  ghost predicate UniqueIds(s: State) {
    forall i, j :: 0 <= i < j < |s.calls| && s.calls[i].epoch == s.calls[j].epoch ==> s.calls[i].id < s.calls[j].id
  }

  /** Call c belongs to this session and its table entry points back at it. */
  ghost predicate Owns(s: State, c: int)
    requires 0 <= c < |s.calls|
  {
    s.calls[c].epoch == s.epoch && s.calls[c].id in s.table && s.table[s.calls[c].id] == c
  }

  /** Every call still waiting owns its table entry. */
  ghost predicate Covered(s: State) {
    forall c :: Live(s, c) ==> Owns(s, c)
  }

  /** Every waiting call is reached through the table. */
  ghost predicate Entered(calls: seq<Call>, table: map<nat, nat>) {
    forall c :: 0 <= c < |calls| && calls[c].outcome == Waiting ==> calls[c].id in table && table[calls[c].id] == c
  }

  ghost predicate NoneLive(s: State) {
    forall c :: !Live(s, c)
  }

  /** Every Connect of the run finds no call waiting. */
  ghost predicate Orderly(events: seq<Event>) {
    forall k :: 0 <= k < |events| && events[k].Connect? ==> NoneLive(Run(events[..k]))
  }

  /** Each step keeps every call but for its outcome, and an outcome once decided. */
  lemma StepGrows(s: State, e: Event)
    requires TableSound(s)
    ensures |s.calls| <= |Step(s, e).calls| <= |s.calls| + 1
    ensures |Step(s, e).calls| > |s.calls| ==> e.Issue? && s.nextId != 0
    ensures forall c :: 0 <= c < |s.calls| ==>
      && Step(s, e).calls[c].(outcome := Waiting) == s.calls[c].(outcome := Waiting)
      && (s.calls[c].outcome == Waiting || Step(s, e).calls[c] == s.calls[c])
  {
  }

  lemma StepTableSound(s: State, e: Event)
    requires TableSound(s)
    ensures TableSound(Step(s, e))
  {
    StepGrows(s, e);
  }

  lemma StepIdsInRange(s: State, e: Event)
    requires TableSound(s) && IdsInRange(s)
    ensures IdsInRange(Step(s, e))
  {
    StepGrows(s, e);
    var t := Step(s, e);
    forall i | 0 <= i < |t.calls|
      ensures t.calls[i].epoch <= t.epoch && 1 <= t.calls[i].id <= MAX_CORRELATION
      ensures t.calls[i].epoch == t.epoch && t.nextId != 0 ==> t.calls[i].id < t.nextId
    {
      if i < |s.calls| {
        assert t.calls[i].(outcome := Waiting) == s.calls[i].(outcome := Waiting);
      }
    }
  }

  lemma StepUniqueIds(s: State, e: Event)
    requires TableSound(s) && IdsInRange(s) && UniqueIds(s)
    ensures UniqueIds(Step(s, e))
  {
    StepGrows(s, e);
    var t := Step(s, e);
    forall i, j | 0 <= i < j < |t.calls| && t.calls[i].epoch == t.calls[j].epoch
      ensures t.calls[i].id < t.calls[j].id
    {
      assert t.calls[i].(outcome := Waiting) == s.calls[i].(outcome := Waiting);
      if j < |s.calls| {
        assert t.calls[j].(outcome := Waiting) == s.calls[j].(outcome := Waiting);
      }
    }
  }

  lemma StepCovered(s: State, e: Event)
    requires WellFormed(s) && Covered(s) && (e.Connect? ==> NoneLive(s))
    ensures Covered(Step(s, e))
  {
    StepGrows(s, e);
    var t := Step(s, e);
    forall c | Live(t, c) ensures Owns(t, c) {
      if c < |s.calls| {
        assert t.calls[c].(outcome := Waiting) == s.calls[c].(outcome := Waiting);
        assert Live(s, c) && Owns(s, c);
        if e.SendRejected? && Live(s, e.call) && e.call != c {
          assert Owns(s, e.call);
        }
      }
    }
  }

  lemma {:induction false} RunWellFormed(events: seq<Event>)
    ensures WellFormed(Run(events))
  {
    if events != [] {
      RunWellFormed(events[..|events| - 1]);
      var s, e := Run(events[..|events| - 1]), events[|events| - 1];
      StepTableSound(s, e);
      StepIdsInRange(s, e);
      StepUniqueIds(s, e);
    }
  }

  lemma {:induction false} PrefixOfPrefix(events: seq<Event>, i: nat, j: nat)
    requires i <= j <= |events|
    ensures events[..j][..i] == events[..i]
  {
  }

  lemma {:induction false} OrderlyPrefix(events: seq<Event>, j: nat)
    requires Orderly(events) && j <= |events|
    ensures Orderly(events[..j])
  {
    forall k | 0 <= k < j && events[..j][k].Connect? ensures NoneLive(Run(events[..j][..k])) {
      PrefixOfPrefix(events, k, j);
      assert events[k].Connect?;
    }
  }

  /** In an orderly run every waiting call owns its table entry. */
  lemma {:induction false} RunCovered(events: seq<Event>)
    requires Orderly(events)
    ensures Covered(Run(events)) && Entered(Run(events).calls, Run(events).table)
  {
    if events != [] {
      var n := |events| - 1;
      OrderlyPrefix(events, n);
      RunCovered(events[..n]);
      RunWellFormed(events[..n]);
      StepCovered(Run(events[..n]), events[n]);
    }
    CoveredIsEntered(Run(events));
  }

  lemma CoveredIsEntered(s: State)
    requires Covered(s)
    ensures Entered(s.calls, s.table)
  {
    forall c | 0 <= c < |s.calls| && s.calls[c].outcome == Waiting ensures Owns(s, c) {
      assert Live(s, c);
    }
  }

  /** No call settles twice: in every run, what a call has settled to never changes afterwards. */
  lemma {:induction false} SettlesAtMostOnce(events: seq<Event>, i: nat, c: nat)
    requires i <= |events| && c < |Run(events[..i]).calls|
    ensures c < |Run(events).calls|
    ensures Run(events).calls[c].(outcome := Waiting) == Run(events[..i]).calls[c].(outcome := Waiting)
    ensures Run(events[..i]).calls[c].outcome != Waiting ==> Run(events).calls[c] == Run(events[..i]).calls[c]
  {
    if i == |events| {
      assert events[..i] == events;
    } else {
      var n := |events| - 1;
      PrefixOfPrefix(events, i, n);
      SettlesAtMostOnce(events[..n], i, c);
      RunWellFormed(events[..n]);
      StepGrows(Run(events[..n]), events[n]);
    }
  }

  /** Identifiers never repeat within a session, in every run. */
  lemma {:induction false} IdsNeverRepeat(events: seq<Event>, i: nat, j: nat)
    requires i < |Run(events).calls| && j < |Run(events).calls| && i != j
    requires Run(events).calls[i].epoch == Run(events).calls[j].epoch
    ensures Run(events).calls[i].id != Run(events).calls[j].id
  {
    RunWellFormed(events);
  }

  /** Event k of the run is a final frame that bears the identifier of c and finds c waiting. */
  ghost predicate Answers(events: seq<Event>, k: nat, c: nat, payload: Bytes) {
    && k < |events| && Live(Run(events[..k]), c)
    && events[k] == Frame(Run(events[..k]).calls[c].id, payload, true)
    && (Orderly(events) ==> Run(events[..k]).epoch == Run(events[..k]).calls[c].epoch)
  }

  lemma {:induction false} AnswersExtends(events: seq<Event>, n: nat, k: nat, c: nat, payload: Bytes)
    requires n <= |events| && Answers(events[..n], k, c, payload)
    ensures Answers(events, k, c, payload)
  {
    PrefixOfPrefix(events, k, n);
    if Orderly(events) {
      OrderlyPrefix(events, n);
    }
  }

  /** The only step that resolves a call is a final frame bearing its identifier while it waits. */
  lemma ResolvingStep(s: State, e: Event, c: nat)
    requires TableSound(s)
    requires c < |Step(s, e).calls| && Step(s, e).calls[c].outcome.Resolved?
    ensures (c < |s.calls| && Step(s, e).calls[c] == s.calls[c])
         || (Live(s, c) && e == Frame(s.calls[c].id, Step(s, e).calls[c].outcome.payload, true))
  {
    StepGrows(s, e);
    match e
    case Frame(id, payload, final) => assert id in s.table && final ==> s.calls[s.table[id]].id == id;
    case _ =>
  }

  /** A resolved call got the payload of a final frame bearing its own identifier, in its own session. */
  lemma {:induction false} ResolvedByItsOwnFrame(events: seq<Event>, c: nat)
    requires c < |Run(events).calls| && Run(events).calls[c].outcome.Resolved?
    ensures exists k :: Answers(events, k, c, Run(events).calls[c].outcome.payload)
  {
    var n := |events| - 1;
    var s, e := Run(events[..n]), events[n];
    var payload := Run(events).calls[c].outcome.payload;
    RunWellFormed(events[..n]);
    ResolvingStep(s, e, c);
    if c < |s.calls| && s.calls[c].outcome.Resolved? {
      ResolvedByItsOwnFrame(events[..n], c);
      var k :| Answers(events[..n], k, c, payload);
      AnswersExtends(events, n, k, c, payload);
    } else {
      if Orderly(events) {
        OrderlyPrefix(events, n);
        RunCovered(events[..n]);
      }
      assert Answers(events, n, c, payload);
    }
  }

  /** A frame for a dead call is swallowed by its tombstone: no call changes, and a final one removes it. */
  lemma TombstoneSwallows(s: State, c: nat, payload: Bytes, final: bool)
    requires c < |s.calls| && !Live(s, c)
    requires s.calls[c].id in s.table && s.table[s.calls[c].id] == c
    ensures Step(s, Frame(s.calls[c].id, payload, final)) ==
            s.(table := if final then s.table - {s.calls[c].id} else s.table)
  {
  }

  /**
   A call that timed out, was aborted, failed to send synchronously or was sent over a dead connection
   stays in the table as a tombstone, and exactly those failures leave one.
   */
  lemma FailureLeavesTombstone(s: State, e: Event, c: nat)
    requires WellFormed(s) && Covered(s) && !e.Connect?
    requires Live(s, c) && !Live(Step(s, e), c)
    ensures Step(s, e).calls[c].id in Step(s, e).table <==>
            e.Timeouts? || e.Abort? || e.SendThrew? || e.SendResolved?
    ensures Step(s, e).calls[c].id in Step(s, e).table ==>
            Step(s, e).calls[c].outcome.Failed? && Step(s, e).table[Step(s, e).calls[c].id] == c
  {
    assert Owns(s, c);
    StepGrows(s, e);
  }

  /** In an orderly run a disconnect leaves no call waiting and no tombstone. */
  lemma DisconnectSettlesAll(s: State)
    requires Covered(s)
    ensures NoneLive(Step(s, Disconnect)) && Step(s, Disconnect).table == map[]
  {
    forall c ensures !Live(Step(s, Disconnect), c) {
      if Live(s, c) {
        assert Owns(s, c);
        assert c in s.table.Values;
      }
    }
  }

  // ---------- What settles a call ----------

  /** The table leads a frame with its identifier to call c. */
  predicate Reached(calls: seq<Call>, table: map<nat, nat>, c: nat) {
    c < |calls| && calls[c].id in table && table[calls[c].id] == c
  }

  /** What the event decides for call c, should it still wait; `Waiting` if nothing. */
  function Verdict(s: State, c: nat, e: Event): Outcome
    requires c < |s.calls|
  {
    match e
    case Frame(id, payload, final) =>
      if final && id == s.calls[c].id && Reached(s.calls, s.table, c) then Resolved(payload) else Waiting
    case Timeouts(now) => if s.calls[c].due <= now then Failed(TimedOut) else Waiting
    case Abort(call) => if call == c then Failed(Aborted) else Waiting
    case SendThrew(call) => if call == c then Failed(SendFailed) else Waiting
    case SendRejected(call) => if call == c then Failed(SendFailed) else Waiting
    case SendResolved(call) => if call == c && !s.online then Failed(ConnectionReset) else Waiting
    case Disconnect => if Reached(s.calls, s.table, c) then Failed(ConnectionReset) else Waiting
    case _ => Waiting
  }

  /** Every waiting call has the verdict of the event, and every other one what it had. */
  ghost predicate Judged(s: State, e: Event, calls: seq<Call>) {
    && |s.calls| <= |calls|
    && forall c :: 0 <= c < |s.calls| ==>
         calls[c] == if s.calls[c].outcome == Waiting then s.calls[c].(outcome := Verdict(s, c, e)) else s.calls[c]
  }

  lemma StepJudges(s: State, e: Event)
    requires TableSound(s)
    ensures Judged(s, e, Step(s, e).calls)
  {
    match e
    case Frame(id, payload, final) => assert id in s.table ==> s.calls[s.table[id]].id == id;
    case Disconnect =>
      forall c | 0 <= c < |s.calls| ensures c in s.table.Values <==> Reached(s.calls, s.table, c) {
        if c in s.table.Values {
          var id :| id in s.table && s.table[id] == c;
          assert s.calls[s.table[id]].id == id;
        }
      }
    case _ =>
  }

  /** Event k of the run is the first to decide something for call c, namely o. */
  ghost predicate DecidedAt(events: seq<Event>, k: nat, c: nat, o: Outcome) {
    && k < |events| && c < |Run(events[..k]).calls| && Verdict(Run(events[..k]), c, events[k]) == o != Waiting
    && Run(events[..k]).calls[c].outcome == Waiting
  }

  lemma {:induction false} RunSnoc(events: seq<Event>, n: nat)
    requires n < |events|
    ensures Run(events[..n + 1]) == Step(Run(events[..n]), events[n])
  {
    assert events[..n + 1][..n] == events[..n];
  }

  lemma {:induction false} DecisionStays(events: seq<Event>, k: nat, c: nat, o: Outcome)
    requires DecidedAt(events, k, c, o)
    ensures c < |Run(events).calls| && Run(events).calls[c].outcome == o
  {
    RunWellFormed(events[..k]);
    StepJudges(Run(events[..k]), events[k]);
    RunSnoc(events, k);
    SettlesAtMostOnce(events, k + 1, c);
  }

  lemma {:induction false} DecisionFound(events: seq<Event>, c: nat) returns (k: nat)
    requires c < |Run(events).calls| && Run(events).calls[c].outcome != Waiting
    ensures DecidedAt(events, k, c, Run(events).calls[c].outcome)
  {
    var n := |events| - 1;
    var s := Run(events[..n]);
    RunWellFormed(events[..n]);
    StepJudges(s, events[n]);
    StepGrows(s, events[n]);
    if c < |s.calls| && s.calls[c].outcome == Waiting {
      k := n;
    } else {
      k := DecisionFound(events[..n], c);
      PrefixOfPrefix(events, k, n);
    }
  }

  /**
   In every run, what became of a call is what the first event that decided anything for it decided: the payload
   of a final frame that the table leads to it, or the failure that goes with its timeout, abort, send or disconnect.
   */
  lemma {:induction false} OutcomeIff(events: seq<Event>, c: nat, o: Outcome)
    requires c < |Run(events).calls| && o != Waiting
    ensures Run(events).calls[c].outcome == o <==> exists k: nat :: DecidedAt(events, k, c, o)
  {
    if Run(events).calls[c].outcome == o {
      var k := DecisionFound(events, c);
    }
    forall k: nat | DecidedAt(events, k, c, o) ensures Run(events).calls[c].outcome == o {
      DecisionStays(events, k, c, o);
    }
  }

  /**
   In every run, a final frame with the identifier of a waiting call that the table leads to resolves that call with
   its payload, removes the entry and touches no other call; a frame that is not final changes nothing.
   */
  lemma {:induction false} FinalFrameResolves(events: seq<Event>, c: nat, payload: Bytes, final: bool)
    requires Live(Run(events), c) && Reached(Run(events).calls, Run(events).table, c)
    ensures var s := Run(events);
            var n := Run(events + [Frame(s.calls[c].id, payload, final)]);
            && n.calls == (if final then s.calls[c := s.calls[c].(outcome := Resolved(payload))] else s.calls)
            && n.table == (if final then s.table - {s.calls[c].id} else s.table)
  {
    var all := events + [Frame(Run(events).calls[c].id, payload, final)];
    assert all[..|events|] == events && all[..|all|] == all;
    RunSnoc(all, |events|);
  }

  // ---------- What the history says of the table ----------

  /** Event k issues call c under this identifier. */
  ghost predicate IssuedAt(events: seq<Event>, k: nat, id: nat, c: nat) {
    && k < |events| && events[k].Issue? && Run(events[..k]).nextId == id && id != 0 && |Run(events[..k]).calls| == c
  }

  /** The event takes the entry of an identifier away, or gives it to a new call. */
  predicate TakesEntry(s: State, e: Event, id: nat) {
    match e
    case Issue(_) => s.nextId == id
    case Frame(other, _, final) => final && other == id
    case SendRejected(c) => Live(s, c) && s.calls[c].id == id
    case Disconnect => true
    case _ => false
  }

  predicate TakenAt(events: seq<Event>, j: nat, id: nat) {
    j < |events| && TakesEntry(Run(events[..j]), events[j], id)
  }

  /** Event k issued the call, and up to event n nothing took its entry. */
  ghost predicate EntryFrom(events: seq<Event>, k: nat, n: nat, id: nat, c: nat) {
    && IssuedAt(events, k, id, c)
    && forall j :: k < j < n ==> !TakenAt(events, j, id)
  }

  predicate Entry(s: State, id: nat, c: nat) {
    id in s.table && s.table[id] == c
  }

  lemma StepEntry(s: State, e: Event, id: nat, c: nat)
    requires id != 0
    ensures Entry(Step(s, e), id, c) <==>
            (e.Issue? && s.nextId == id && |s.calls| == c) || (Entry(s, id, c) && !TakesEntry(s, e, id))
  {
  }

  lemma {:induction false} EntryAfter(events: seq<Event>, n: nat, id: nat, c: nat)
    requires id != 0 && n < |events|
    ensures Entry(Run(events[..n + 1]), id, c) <==>
            IssuedAt(events, n, id, c) || (Entry(Run(events[..n]), id, c) && !TakenAt(events, n, id))
  {
    StepEntry(Run(events[..n]), events[n], id, c);
    RunSnoc(events, n);
  }

  lemma {:induction false} EntryKept(events: seq<Event>, k: nat, n: nat, id: nat, c: nat)
    requires k < n <= |events| && EntryFrom(events, k, n, id, c)
    ensures Entry(Run(events[..n]), id, c)
  {
    EntryAfter(events, n - 1, id, c);
    if k < n - 1 {
      EntryKept(events, k, n - 1, id, c);
      assert !TakenAt(events, n - 1, id);
    }
  }

  lemma {:induction false} EntryOrigin(events: seq<Event>, n: nat, id: nat, c: nat) returns (k: nat)
    requires id != 0 && n <= |events| && Entry(Run(events[..n]), id, c)
    ensures k < n && EntryFrom(events, k, n, id, c)
  {
    assert n > 0;
    EntryAfter(events, n - 1, id, c);
    if IssuedAt(events, n - 1, id, c) {
      k := n - 1;
    } else {
      k := EntryOrigin(events, n - 1, id, c);
    }
  }

  /**
   In every run, the table leads an identifier to a call exactly when that call was issued under it and since then
   no call was issued under it, no final frame bore it, no rejected send withdrew it, and there was no disconnect.
   */
  lemma {:induction false} EntryIff(events: seq<Event>, id: nat, c: nat)
    requires id != 0
    ensures Entry(Run(events), id, c) <==> exists k: nat :: EntryFrom(events, k, |events|, id, c)
  {
    assert events[..|events|] == events;
    if Entry(Run(events), id, c) {
      var k := EntryOrigin(events, |events|, id, c);
    }
    forall k: nat | EntryFrom(events, k, |events|, id, c) ensures Entry(Run(events), id, c) {
      EntryKept(events, k, |events|, id, c);
    }
  }

  /** The identifiers handed out since the last connect. */
  function Taken(events: seq<Event>): nat {
    if events == [] then 0
    else
      var before := Taken(events[..|events| - 1]);
      match events[|events| - 1]
      case Connect => 0
      case Issue(_) => before + 1
      case Allocate => before + 1
      case _ => before
  }

  /** In every run, the next identifier is one more than were handed out since the last connect, and none once they are used up. */
  lemma {:induction false} NextIdCounts(events: seq<Event>)
    ensures Run(events).nextId == if Taken(events) < MAX_CORRELATION then Taken(events) + 1 else 0
  {
    if events != [] {
      NextIdCounts(events[..|events| - 1]);
    }
  }

  /** The last connect or disconnect was a connect. */
  predicate ConnectedLast(events: seq<Event>) {
    events != [] && (events[|events| - 1].Connect?
                     || (!events[|events| - 1].Disconnect? && ConnectedLast(events[..|events| - 1])))
  }

  lemma {:induction false} OnlineIff(events: seq<Event>)
    ensures Run(events).online <==> ConnectedLast(events)
  {
    if events != [] {
      OnlineIff(events[..|events| - 1]);
    }
  }

  /** A request is issued whenever an identifier is left: it waits under it, and the table leads to it. */
  lemma {:induction false} IssueRegisters(events: seq<Event>, due: int)
    ensures var s := Run(events);
            var n := Run(events + [Issue(due)]);
            if Taken(events) < MAX_CORRELATION
            then && n.calls == s.calls + [Call(s.epoch, Taken(events) + 1, due, Waiting)]
                 && Reached(n.calls, n.table, |s.calls|)
            else n == s
  {
    var all := events + [Issue(due)];
    assert all[..|events|] == events && all[..|all|] == all;
    RunSnoc(all, |events|);
    NextIdCounts(events);
  }

  // ---------- Connecting over waiting calls ----------

  predicate NoConnect(more: seq<Event>) {
    forall k :: 0 <= k < |more| ==> !more[k].Connect?
  }

  /** However the session goes on, every waiting call is reached through the table. */
  ghost predicate StaysEntered(s: State) {
    forall more :: NoConnect(more) ==> Entered(RunFrom(s, more).calls, RunFrom(s, more).table)
  }

  /** However the session goes on, a disconnect settles every call. */
  ghost predicate DisconnectWillSettle(s: State) {
    forall more :: NoConnect(more) ==> NoneLive(Step(RunFrom(s, more), Disconnect))
  }

  lemma StepWellFormed(s: State, e: Event)
    requires WellFormed(s)
    ensures WellFormed(Step(s, e))
  {
    StepTableSound(s, e);
    StepIdsInRange(s, e);
    StepUniqueIds(s, e);
  }

  lemma {:induction false} SessionStaysCovered(s: State, more: seq<Event>)
    requires WellFormed(s) && Covered(s) && NoConnect(more)
    ensures WellFormed(RunFrom(s, more)) && Covered(RunFrom(s, more))
  {
    if more != [] {
      var n := |more| - 1;
      SessionStaysCovered(s, more[..n]);
      StepWellFormed(RunFrom(s, more[..n]), more[n]);
      StepCovered(RunFrom(s, more[..n]), more[n]);
    }
  }

  /** So many requests at the beginning of a session. */
  function Issues(n: nat): (r: seq<Event>)
    ensures |r| == n && NoConnect(r)
  {
    if n == 0 then [] else Issues(n - 1) + [Issue(0)]
  }

  lemma IssuesSnoc(s: State, n: nat)
    requires n > 0
    ensures RunFrom(s, Issues(n)) == Step(RunFrom(s, Issues(n - 1)), Issue(0))
  {
    assert Issues(n)[..n - 1] == Issues(n - 1);
  }

  /** The requests were numbered from one, and no earlier call has changed. */
  ghost predicate Numbered(s: State, r: State, n: nat) {
    && r.nextId == n + 1 && |r.calls| == |s.calls| + n
    && (forall c :: 0 <= c < |s.calls| ==> r.calls[c] == s.calls[c])
    && (n > 0 ==> n in r.table && r.table[n] == |s.calls| + n - 1)
  }

  lemma NextNumbered(s: State, r: State, n: nat)
    requires Numbered(s, r, n) && n + 1 < MAX_CORRELATION
    ensures Numbered(s, Step(r, Issue(0)), n + 1)
  {
  }

  lemma {:induction false} IssuesNumbered(s: State, n: nat)
    requires s.nextId == 1 && n < MAX_CORRELATION
    ensures Numbered(s, RunFrom(s, Issues(n)), n)
  {
    if n == 0 {
      assert RunFrom(s, []) == s;
    } else {
      IssuesNumbered(s, n - 1);
      NextNumbered(s, RunFrom(s, Issues(n - 1)), n - 1);
      IssuesSnoc(s, n);
    }
  }

  lemma LastTakes(s: State, r: State, c: nat)
    requires WellFormed(s) && Live(s, c) && Numbered(s, r, s.calls[c].id - 1)
    ensures var n := Step(r, Issue(0));
            Live(n, c) && n.calls[c] == s.calls[c] && s.calls[c].id in n.table && n.table[s.calls[c].id] != c
  {
  }

  /** After as many requests as its identifier says, the entry of a call that waited is that of a new one. */
  lemma EntryTaken(s: State, c: nat)
    requires WellFormed(s) && s.nextId == 1 && Live(s, c)
    ensures var r := RunFrom(s, Issues(s.calls[c].id));
            && Live(r, c) && r.calls[c] == s.calls[c]
            && s.calls[c].id in r.table && r.table[s.calls[c].id] != c
  {
    var id := s.calls[c].id;
    IssuesNumbered(s, id - 1);
    IssuesSnoc(s, id);
    LastTakes(s, RunFrom(s, Issues(id - 1)), c);
  }

  lemma {:induction false} RunFromWellFormed(s: State, more: seq<Event>)
    requires WellFormed(s)
    ensures WellFormed(RunFrom(s, more))
  {
    if more != [] {
      RunFromWellFormed(s, more[..|more| - 1]);
      StepWellFormed(RunFrom(s, more[..|more| - 1]), more[|more| - 1]);
    }
  }

  /** A call that waits while connecting can lose its entry, and is then forgotten by a disconnect. */
  lemma WaitingCallCanBeLost(s: State, c: nat)
    requires WellFormed(s) && Live(s, c)
    ensures !StaysEntered(Step(s, Connect)) && !DisconnectWillSettle(Step(s, Connect))
  {
    var t := Step(s, Connect);
    var id := s.calls[c].id;
    assert Live(t, c) && t.calls[c] == s.calls[c];
    StepWellFormed(s, Connect);
    EntryTaken(t, c);
    RunFromWellFormed(t, Issues(id));
    var r := RunFrom(t, Issues(id));
    assert !Entered(r.calls, r.table);
    assert c !in r.table.Values;
    assert Live(Step(r, Disconnect), c);
  }

  lemma ConnectOverNoneIsSafe(s: State)
    requires WellFormed(s) && NoneLive(s)
    ensures StaysEntered(Step(s, Connect)) && DisconnectWillSettle(Step(s, Connect))
  {
    var t := Step(s, Connect);
    StepWellFormed(s, Connect);
    assert Covered(t) by {
      assert forall c :: Live(t, c) ==> Live(s, c);
    }
    forall more | NoConnect(more)
      ensures Entered(RunFrom(t, more).calls, RunFrom(t, more).table) && NoneLive(Step(RunFrom(t, more), Disconnect))
    {
      SessionStaysCovered(t, more);
      CoveredIsEntered(RunFrom(t, more));
      DisconnectSettlesAll(RunFrom(t, more));
    }
  }

  /**
   When connecting is safe: every waiting call stays reachable through the table however the session goes on,
   and a disconnect will always settle all of them, if and only if no call waits at that moment.
   */
  lemma ConnectSafeIffNoneLive(s: State)
    requires WellFormed(s)
    ensures StaysEntered(Step(s, Connect)) <==> NoneLive(s)
    ensures DisconnectWillSettle(Step(s, Connect)) <==> NoneLive(s)
  {
    if c :| Live(s, c) {
      WaitingCallCanBeLost(s, c);
    } else {
      ConnectOverNoneIsSafe(s);
    }
  }

  /**
   What goes wrong otherwise: connecting over a waiting call hands its identifier out again, so its
   table entry is overwritten and the next disconnect does not reject it.
   */
  lemma ConnectOverWaitingCallLosesIt()
    ensures Run([]) == Init() && Live(Step(Step(Step(Step(Init(), Issue(5)), Connect), Issue(9)), Disconnect), 0)
  {
    var a := State([Call(0, 1, 5, Waiting)], map[1 := 0], 0, 2, false);
    assert Step(Init(), Issue(5)) == a;
    var b := a.(epoch := 1, nextId := 1, online := true);
    assert Step(a, Connect) == b;
    var d := State([Call(0, 1, 5, Waiting), Call(1, 1, 9, Waiting)], map[1 := 1], 1, 2, true);
    assert Step(b, Issue(9)) == d;
    assert d.table[1] in d.table.Values;
    assert 0 !in d.table.Values;
  }
}
