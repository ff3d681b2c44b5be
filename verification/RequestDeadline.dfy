/**
 The owner of one request's response channel. Code between two awaits is one operation; each is given
 as a function of the owner's fields and as the method that changes them.
 */
module RequestDeadline {
  import opened Options

  const DISCONNECTED := "Request disconnected."
  const RESPONSE_DEADLINE := "Application response deadline exceeded."
  const INTERRUPTED := "Request interrupted."
  const CHUNK_TIMEOUT := "Request chunk timeout exceeded."
  const FIRST_BODY_TIMEOUT := "Request first body timeout exceeded."

  /** Messages handed to the server: those of the application, and those of the 408 response. */
  datatype Message = AppStart | AppBody(more: bool) | TimeoutStart | TimeoutBody

  /** The owner's fields, with those of the request activity and everything handed to the server. */
  datatype Owner = Owner(
    started: bool,
    closed: bool,
    disconnected: bool,
    bodyStarted: bool,
    bodyComplete: bool,
    timeoutDetail: Option<string>,
    interrupted: bool,
    completed: bool,
    abandoned: Option<string>,
    ownsMutation: bool,
    wire: seq<Message>)

  const FRESH := Owner(false, false, false, false, false, None, false, false, None, false, [])

  // ---------- request activity

  /** The first reason stays. */
  function Abandoned(a: Option<string>, reason: string): Option<string> {
    if a.Some? then a else Some(reason)
  }

  /** The activity after `assert_active`, and the detail of the error it raises. */
  function Asserted(a: Option<string>, expiresAt: real, now: real): (Option<string>, Option<string>) {
    if a.Some? then (a, a) else if now >= expiresAt then (Some(RESPONSE_DEADLINE), Some(RESPONSE_DEADLINE)) else (None, None)
  }

  class RequestActivity {
    const expiresAt: real
    var abandoned: Option<string>
    var ownsMutation: bool

    constructor (expiresAt: real)
      ensures this.expiresAt == expiresAt && abandoned == None && !ownsMutation
    {
      this.expiresAt := expiresAt;
      abandoned, ownsMutation := None, false;
    }

    method Abandon(reason: string)
      modifies this`abandoned
      ensures abandoned == Abandoned(old(abandoned), reason)
      ensures abandoned == if old(abandoned) == None then Some(reason) else old(abandoned)
    {
      if abandoned == None {
        abandoned := Some(reason);
      }
    }

    method AssertActive(now: real) returns (error: Option<string>)
      modifies this`abandoned
      ensures (abandoned, error) == Asserted(old(abandoned), expiresAt, now)
      ensures error == None <==> old(abandoned) == None && now < expiresAt
      ensures error.Some? ==>
        && error == abandoned
        && abandoned == if old(abandoned).Some? then old(abandoned) else Some("Application response deadline exceeded.")
      ensures error == None ==> abandoned == None
    {
      if abandoned.Some? {
        return abandoned;
      }
      if now >= expiresAt {
        Abandon(RESPONSE_DEADLINE);
        return abandoned;
      }
      return None;
    }

    /** A mutation takes over the request, unless it has been abandoned. */
    method TakeOver(now: real) returns (error: Option<string>)
      modifies this
      ensures (abandoned, error) == Asserted(old(abandoned), expiresAt, now)
      ensures ownsMutation == (old(ownsMutation) || error == None)
    {
      error := AssertActive(now);
      if error == None {
        ownsMutation := true;
      }
    }
  }

  // ---------- operations on values

  function Disconnect(o: Owner): Owner {
    o.(disconnected := true, abandoned := Abandoned(o.abandoned, DISCONNECTED), interrupted := true)
  }

  /** The server says that the client has gone; after a complete response this means nothing. */
  function HeardDisconnect(o: Owner): Owner {
    if o.completed then o else Disconnect(o)
  }

  datatype BodyWait = Gone | UntilInterrupted | ForBody

  function AskBody(o: Owner): BodyWait {
    if o.closed || o.disconnected then Gone else if o.bodyComplete then UntilInterrupted else ForBody
  }

  /** How a call of `receive_body` that waited for a message ends; a timeout raises CancelledError in its caller. */
  datatype BodyOutcome = Delivered(more: bool) | RaisedCancelled

  /** The wait for a body message is over: it arrived, or its budget ran out. */
  function Received(o: Owner, arrived: Option<bool>): (Owner, BodyOutcome) {
    var detail := if o.bodyStarted then CHUNK_TIMEOUT else FIRST_BODY_TIMEOUT;
    if arrived.Some? then (o.(bodyStarted := true, bodyComplete := !arrived.value), Delivered(arrived.value))
    else (o.(timeoutDetail := Some(detail), abandoned := Abandoned(o.abandoned, detail), interrupted := true), RaisedCancelled)
  }

  predicate Sends(o: Owner) {
    !o.closed && !o.disconnected && !o.completed
  }

  /** A message of the application goes out, or is dropped. */
  function Sent(o: Owner, m: Message): Owner {
    o.(started := o.started || (Sends(o) && m == AppStart), wire := if Sends(o) then o.wire + [m] else o.wire)
  }

  function SendDone(o: Owner, m: Message): Owner {
    o.(completed := o.completed || m == AppBody(false))
  }

  datatype Verdict = AwaitWork | RaiseReader | Abort | AbortStarted | SendTimeout

  /**
   What the owner does once its wait ends; `done` says whether anything it waited for is done, and
   `broken` that the reader is done with an exception. The last result says whether it cancels the work.
   */
  function Decided(o: Owner, done: bool, broken: bool): (Owner, Verdict, bool) {
    if o.completed then (o, AwaitWork, false)
    else if o.disconnected then (o.(closed := true), Abort, !o.ownsMutation)
    else if o.timeoutDetail.Some? || !done then
      var detail := if o.timeoutDetail.Some? then o.timeoutDetail.value else RESPONSE_DEADLINE;
      (o.(closed := true, abandoned := Abandoned(o.abandoned, detail)),
       if o.started then AbortStarted else SendTimeout, !o.ownsMutation)
    else (o, if broken then RaiseReader else AwaitWork, false)
  }

  function TimeoutSent(o: Owner, m: Message): Owner {
    o.(wire := o.wire + [m])
  }

  /** The final clean-up; the second result says whether it cancels the work. */
  function Finished(o: Owner, workDone: bool, cancelling: bool): (Owner, bool) {
    (o.(closed := true, abandoned := if workDone then o.abandoned else Abandoned(o.abandoned, INTERRUPTED)),
     !workDone && !cancelling && !o.ownsMutation)
  }

  // ---------- the owner in place

  class RequestOwner {
    const activity: RequestActivity
    var started: bool
    var closed: bool
    var disconnected: bool
    var bodyStarted: bool
    var bodyComplete: bool
    var timeoutDetail: Option<string>
    var interrupted: bool
    var completed: bool
    ghost var wire: seq<Message>

    ghost function View(): Owner
      reads this, activity
    {
      Owner(started, closed, disconnected, bodyStarted, bodyComplete, timeoutDetail, interrupted, completed,
        activity.abandoned, activity.ownsMutation, wire)
    }

    /** The request expires at `deadline`, or earlier if its activity does. */
    constructor (activity: RequestActivity)
      ensures this.activity == activity
      ensures activity.abandoned == None && !activity.ownsMutation ==> View() == FRESH
    {
      this.activity := activity;
      started, closed, disconnected, bodyStarted, bodyComplete := false, false, false, false, false;
      timeoutDetail, interrupted, completed, wire := None, false, false, [];
    }

    method MarkDisconnected()
      modifies this, activity
      ensures View() == Disconnect(old(View()))
      ensures disconnected && interrupted && completed == old(completed) && closed == old(closed) && started == old(started)
      ensures activity.abandoned == if old(activity.abandoned) == None then Some("Request disconnected.") else old(activity.abandoned)
    {
      disconnected := true;
      activity.Abandon(DISCONNECTED);
      interrupted := true;
    }

    method OnDisconnect()
      modifies this, activity
      ensures View() == HeardDisconnect(old(View()))
      ensures old(completed) ==> View() == old(View())
      ensures !old(completed) ==> disconnected && interrupted && activity.abandoned.Some?
    {
      if !completed {
        MarkDisconnected();
      }
    }

    /** `receive_body` up to its wait. */
    method AskForBody() returns (w: BodyWait)
      ensures w == AskBody(View())
      ensures w == Gone <==> closed || disconnected
      ensures w == UntilInterrupted <==> !closed && !disconnected && bodyComplete
    {
      if closed || disconnected {
        return Gone;
      }
      return if bodyComplete then UntilInterrupted else ForBody;
    }

    /** `receive_body` after its wait. */
    method ReceiveBody(arrived: Option<bool>) returns (outcome: BodyOutcome)
      modifies this, activity
      ensures (View(), outcome) == Received(old(View()), arrived)
      ensures arrived.Some? ==>
        && outcome == Delivered(arrived.value) && bodyStarted && bodyComplete == !arrived.value
        && activity.abandoned == old(activity.abandoned) && timeoutDetail == old(timeoutDetail)
      ensures arrived == None ==>
        && outcome == RaisedCancelled && interrupted
        && timeoutDetail == Some(if old(bodyStarted) then "Request chunk timeout exceeded." else "Request first body timeout exceeded.")
        && activity.abandoned == if old(activity.abandoned) == None then timeoutDetail else old(activity.abandoned)
    {
      if arrived == None {
        var detail := if bodyStarted then CHUNK_TIMEOUT else FIRST_BODY_TIMEOUT;
        timeoutDetail := Some(detail);
        activity.Abandon(detail);
        interrupted := true;
        return RaisedCancelled;
      }
      bodyStarted := true;
      bodyComplete := !arrived.value;
      return Delivered(arrived.value);
    }

    method SendResponse(m: Message) returns (sent: bool)
      modifies this
      ensures View() == Sent(old(View()), m)
      ensures sent <==> !old(closed) && !old(disconnected) && !old(completed)
      ensures wire == if sent then old(wire) + [m] else old(wire)
      ensures started <==> old(started) || (sent && m == AppStart)
    {
      if closed || disconnected || completed {
        return false;
      }
      if m == AppStart {
        started := true;
      }
      wire := wire + [m];
      return true;
    }

    method OnSent(m: Message)
      modifies this
      ensures View() == SendDone(old(View()), m)
      ensures completed <==> old(completed) || m == AppBody(false)
    {
      if m == AppBody(false) {
        completed := true;
      }
    }

    method Decide(done: bool, broken: bool) returns (v: Verdict, cancel: bool)
      modifies this, activity
      ensures (View(), v, cancel) == Decided(old(View()), done, broken)
      ensures var late := timeoutDetail.Some? || !done;
        && (v == AwaitWork <==> completed || (!disconnected && !late && !broken))
        && (v == RaiseReader <==> !completed && !disconnected && !late && broken)
        && (v == Abort <==> !completed && disconnected)
        && (v == AbortStarted <==> !completed && !disconnected && late && started)
        && (v == SendTimeout <==> !completed && !disconnected && late && !started)
      ensures var over := v in {Abort, AbortStarted, SendTimeout};
        && closed == (old(closed) || over) && cancel == (over && !activity.ownsMutation)
      ensures activity.abandoned ==
        if old(activity.abandoned) == None && v in {AbortStarted, SendTimeout}
        then (if timeoutDetail.Some? then timeoutDetail else Some("Application response deadline exceeded."))
        else old(activity.abandoned)
      ensures wire == old(wire) && started == old(started)
    {
      if completed {
        return AwaitWork, false;
      }
      if disconnected {
        closed := true;
        return Abort, !activity.ownsMutation;
      }
      if timeoutDetail.Some? || !done {
        closed := true;
        activity.Abandon(if timeoutDetail.Some? then timeoutDetail.value else RESPONSE_DEADLINE);
        return if started then AbortStarted else SendTimeout, !activity.ownsMutation;
      }
      return if broken then RaiseReader else AwaitWork, false;
    }

    method Finish(workDone: bool, cancelling: bool) returns (cancel: bool)
      modifies this, activity
      ensures (View(), cancel) == Finished(old(View()), workDone, cancelling)
      ensures closed && (cancel <==> !workDone && !cancelling && !activity.ownsMutation)
      ensures activity.abandoned == if old(activity.abandoned) == None && !workDone then Some("Request interrupted.") else old(activity.abandoned)
    {
      closed := true;
      if !workDone {
        activity.Abandon(INTERRUPTED);
      }
      cancel := !workDone && !cancelling && !activity.ownsMutation;
    }
  }
}
