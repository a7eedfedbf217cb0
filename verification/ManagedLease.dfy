/**
 The lease handle and the managed execution as objects, the execution working through the handle it owns.
 Every event takes its step of LeaseModel and keeps the invariant of every run, so the frames obey the
 handle's discipline and the outcome is what the history says; the history is kept for the statements only.
 */
module ManagedLeases {
  import opened LeaseModel

  class Lease {
    var currentToken: nat
    var closed: bool
    var operations: seq<Op>
    ghost var asked: seq<Op>
    ghost var outcomes: seq<Outcome>
    ghost var history: History

    constructor (token: nat)
      ensures Valid() && Model() == Fresh(token)
    {
      currentToken, closed, operations := token, false, [];
      asked, outcomes, history := [], [], Acquired(token);
    }

    ghost function Model(): Handle
      reads this
    {
      Handle(currentToken, closed, operations, asked, outcomes, history)
    }

    /** Frames obeyed the latest token, and operations settle in the order they were called. */
    ghost predicate Valid()
      reads this
    {
      Sound(Model())
    }

    /** Runs the queued operations up to the first that has a frame to send. */
    method RunNext()
      modifies this
      ensures Model() == Begin(old(Model()))
    {
      while operations != [] && closed
        invariant Begin(Model()) == Begin(old(Model()))
        decreases |operations|
      {
        operations := operations[1..];
        outcomes := outcomes + [Invalid];
      }
      if operations != [] {
        if operations[0] == Extend {
          history := Then(history, SentRenew(currentToken));
        } else {
          closed := true;
          history := Then(history, SentRelease(currentToken));
        }
      }
    }

    /** A call of extend or release, serialized behind the ones before it. */
    method Serialize(op: Op)
      requires Valid()
      modifies this
      ensures Valid() && Model() == HandleStep(old(Model()), Calls(op))
    {
      HandleStepSound(Model(), Calls(op));
      var idle := operations == [];
      operations := operations + [op];
      asked := asked + [op];
      if idle {
        RunNext();
      }
    }

    method Replied(reply: Reply)
      requires Valid() && operations != []
      modifies this
      ensures Valid() && Model() == HandleStep(old(Model()), Answers(reply))
    {
      HandleStepSound(Model(), Answers(reply));
      if operations[0] == Extend {
        if reply.Accept? {
          currentToken := reply.token;
          history := Then(history, Granted(reply.token));
        } else {
          closed := true;
          history := Then(history, RenewRefused);
        }
      } else {
        history := Then(history, if reply.Accept? then ReleaseConfirmed else ReleaseRefused);
      }
      operations := operations[1..];
      outcomes := outcomes + [if reply.Accept? then Done else Refused];
      RunNext();
    }

    method ConnectionLost()
      requires Valid()
      modifies this
      ensures Valid() && Model() == HandleStep(old(Model()), Drops)
    {
      closed := true;
      history := Then(history, Disconnected);
    }

    /** What the execution adds to the history. */
    ghost method Observe(note: Note)
      requires Valid() && (note == CallbackSettled || note == CallerAborted)
      modifies `history
      ensures Valid() && Model() == Record(old(Model()), note)
    {
      history := Then(history, note);
    }
  }

  class Execution {
    const lease: Lease
    var renewal: Renewal
    var callback: Callback
    var leaseLost: bool
    var aborted: bool
    var stage: Stage

    constructor (token: nat)
      ensures Valid() && fresh(lease) && Model() == Start(token)
    {
      lease := new Lease(token);
      renewal, callback, leaseLost, aborted, stage := Sleeping, Running, false, false, Executing;
    }

    ghost function Model(): Managed
      reads this, lease
    {
      Managed(lease.Model(), renewal, callback, leaseLost, aborted, stage)
    }

    /** The loss, the abort and the stage reached are what the history of frames and answers shows. */
    ghost predicate Valid()
      reads this, lease
    {
      Accounted(Model())
    }

    method Finish(releaseFailed: bool)
      modifies `stage
      ensures Model() == Conclude(old(Model()), releaseFailed)
    {
      var wasRealAbort := leaseLost || aborted;
      var failures := 0;
      if leaseLost {
        failures := failures + 1;
      }
      if callback.Threw? && callback.thrown != Undefined && !(wasRealAbort && callback.thrown == AbortLike) {
        failures := failures + 1;
      }
      if releaseFailed {
        failures := failures + 1;
      }
      if failures > 0 || aborted {
        stage := Rejected(failures);
      } else {
        stage := Resolved;
      }
    }

    /** Callback and renewal have ended: the lease is released unless it was lost. */
    method ReleaseUnlessLost()
      requires lease.Valid()
      modifies `stage, lease
      ensures Model() == WindDown(old(Model()))
    {
      if leaseLost {
        Finish(false);
        return;
      }
      lease.Serialize(Release);
      if lease.operations == [] {
        Finish(true);
      } else {
        stage := Releasing;
      }
    }

    method RenewalEnded()
      requires lease.Valid()
      modifies this, lease
      ensures Model() == RenewalOver(old(Model()))
    {
      if callback == Running && !leaseLost {
        renewal := Sleeping;
        return;
      }
      renewal := Stopped;
      if callback != Running {
        ReleaseUnlessLost();
      }
    }

    method RenewalDue()
      requires Valid() && Enabled(Model(), LeaseModel.RenewalDue)
      modifies this, lease
      ensures Valid() && Model() == Step(old(Model()), LeaseModel.RenewalDue)
    {
      StepAccounted(Model(), LeaseModel.RenewalDue);
      ExtendLease();
    }

    method ExtendLease()
      requires lease.Valid()
      modifies this, lease
      ensures Model() == Renew(old(Model()))
    {
      lease.Serialize(Extend);
      if lease.operations == [] {
        leaseLost := true;
        RenewalEnded();
      } else {
        renewal := Extending;
      }
    }

    method Replied(reply: Reply)
      requires Valid() && Enabled(Model(), LeaseModel.Replied(reply))
      modifies this, lease
      ensures Valid() && Model() == Step(old(Model()), LeaseModel.Replied(reply))
    {
      StepAccounted(Model(), LeaseModel.Replied(reply));
      lease.Replied(reply);
      if stage == Releasing {
        Finish(reply.Refuse?);
        return;
      }
      if reply.Refuse? {
        leaseLost := true;
      }
      RenewalEnded();
    }

    method ConnectionLost()
      requires Valid() && Enabled(Model(), LeaseModel.ConnectionLost)
      modifies this, lease
      ensures Valid() && Model() == Step(old(Model()), LeaseModel.ConnectionLost)
    {
      StepAccounted(Model(), LeaseModel.ConnectionLost);
      lease.ConnectionLost();
      if callback != Running || leaseLost {
        return;
      }
      leaseLost := true;
    }

    method CallerAborts()
      requires Valid() && Enabled(Model(), LeaseModel.CallerAborts)
      modifies this, lease
      ensures Valid() && Model() == Step(old(Model()), LeaseModel.CallerAborts)
    {
      StepAccounted(Model(), LeaseModel.CallerAborts);
      aborted := true;
      lease.Observe(CallerAborted);
    }

    method CallbackEnded(outcome: Callback)
      requires Valid() && Enabled(Model(), CallbackEnds(outcome))
      modifies this, lease
      ensures Valid() && Model() == Step(old(Model()), CallbackEnds(outcome))
    {
      StepAccounted(Model(), CallbackEnds(outcome));
      SettleCallback(outcome);
    }

    method SettleCallback(outcome: Callback)
      requires lease.Valid()
      modifies this, lease
      ensures Model() == EndCallback(old(Model()), outcome)
    {
      callback := outcome;
      lease.Observe(CallbackSettled);
      if renewal != Extending {
        renewal := Stopped;
        ReleaseUnlessLost();
      }
    }
  }
}
