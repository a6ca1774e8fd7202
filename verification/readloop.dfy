/**
  The session seen from outside: `run` starts the read loop, then input lines
  and task completions arrive in any order. The worker thread's `cmdloop`
  consumes lines; the event loop runs each finished task's done-callback.
 */
module ReadLoop {
  import opened Shell

  /** Something that happens to a running session: a line is read, or a pending task finishes. */
  datatype Event = Line(input: Input) | Done(index: nat, outcome: Outcome)

  /** The session together with whether `cmdloop` has returned. */
  datatype Loop = Loop(session: Session, exited: bool)

  /** `run`: the flag is set, then the read loop starts. */
  function Boot(s: Session): (l: Loop)
    ensures l.session.cont && !l.exited
    ensures l.session.output == s.output && l.session.queue == s.queue
  {
    Loop(Start(s), false)
  }

  /**
    One event. A line is handed to its handler until a handler has returned a
    stop flag, after which no more lines are read. A completion refers to a
    pending task by its position in the queue; a position with no task is ignored.
   */
  function Step(l: Loop, e: Event): (r: Loop)
    ensures r.session.cont ==> l.session.cont
    ensures l.exited ==> r.exited
    ensures e.Done? ==> r.exited == l.exited
    ensures e.Line? && !l.exited ==> (r.exited <==> e.input.Eof? || !l.session.cont)
    ensures e.Line? ==> r.session.cont == l.session.cont && r.session.output == l.session.output
    ensures l.session.output <= r.session.output
    ensures !l.session.cont ==> multiset(r.session.queue) <= multiset(l.session.queue)
  {
    match e
    case Line(input) =>
      if l.exited then l
      else
        var reply := Dispatch(l.session, input);
        Loop(reply.session, reply.stop)
    case Done(i, o) =>
      if i < |l.session.queue| then l.(session := Complete(l.session, i, o)) else l
  }

  /** The events applied one after the other. */
  function Run(l: Loop, es: seq<Event>): Loop
    decreases |es|
  {
    if |es| == 0 then l else Run(Step(l, es[0]), es[1..])
  }

  /** The work one event asks for: a command line's, or nothing. */
  function Asked(e: Event): (ws: seq<Work>)
  {
    if e.Line? && e.input.Command? then [Work(e.input.name, e.input.line)] else []
  }

  /** The work each command line asks for, in input order. */
  function Requested(es: seq<Event>): (ws: seq<Work>)
    ensures forall w :: w in ws <==> exists k :: 0 <= k < |es| && w in Asked(es[k])
  {
    if |es| == 0 then []
    else
      var rest := es[1..];
      assert forall k :: 0 <= k < |rest| ==> rest[k] == es[k + 1];
      Asked(es[0]) + Requested(rest)
  }

  /** `cont` is monotone after `run`: no event sets it back to true. */
  lemma {:induction false} RunKeepsStopping(l: Loop, es: seq<Event>)
    ensures Run(l, es).session.cont ==> l.session.cont
    decreases |es|
  {
    if |es| > 0 {
      RunKeepsStopping(Step(l, es[0]), es[1..]);
    }
  }

  /** The output only grows: every write stays where it was. */
  lemma {:induction false} RunOutputGrows(l: Loop, es: seq<Event>)
    ensures l.session.output <= Run(l, es).session.output
    decreases |es|
  {
    if |es| > 0 {
      RunOutputGrows(Step(l, es[0]), es[1..]);
    }
  }

  /** A read loop that has returned stays returned. */
  lemma {:induction false} RunStaysExited(l: Loop, es: seq<Event>)
    requires l.exited
    ensures Run(l, es).exited
    decreases |es|
  {
    if |es| > 0 {
      RunStaysExited(Step(l, es[0]), es[1..]);
    }
  }

  /** A stopping session never schedules more work: its queue only loses tasks. */
  lemma {:induction false} StoppedNeverSchedules(l: Loop, es: seq<Event>)
    requires !l.session.cont
    ensures !Run(l, es).session.cont
    ensures multiset(Run(l, es).session.queue) <= multiset(l.session.queue)
    ensures |Run(l, es).session.queue| <= |l.session.queue|
    decreases |es|
  {
    if |es| > 0 {
      StoppedNeverSchedules(Step(l, es[0]), es[1..]);
    }
  }

  /** Only a fatal completion clears `cont`: without one it keeps its value. */
  lemma {:induction false} NoFatalKeepsCont(l: Loop, es: seq<Event>)
    requires forall k :: 0 <= k < |es| && es[k].Done? ==> !IsFatal(es[k].outcome)
    ensures Run(l, es).session.cont == l.session.cont
    decreases |es|
  {
    if |es| > 0 {
      assert forall k :: 0 <= k < |es[1..]| ==> es[1..][k] == es[k + 1];
      NoFatalKeepsCont(Step(l, es[0]), es[1..]);
    }
  }

  /** A session that stopped accepting saw a task end with an exception other than `ShellError`. */
  lemma LostContHadFatal(l: Loop, es: seq<Event>)
    requires l.session.cont && !Run(l, es).session.cont
    ensures exists k :: 0 <= k < |es| && es[k].Done? && IsFatal(es[k].outcome)
  {
    if forall k :: 0 <= k < |es| && es[k].Done? ==> !IsFatal(es[k].outcome) {
      NoFatalKeepsCont(l, es);
    }
  }

  /**
    Completions never end the read loop, fatal ones included: the loop only
    returns after it has read a line.
   */
  lemma {:induction false} ExitNeedsLine(l: Loop, es: seq<Event>)
    requires !l.exited && Run(l, es).exited
    ensures exists k :: 0 <= k < |es| && es[k].Line?
    decreases |es|
  {
    if es[0].Done? {
      ExitNeedsLine(Step(l, es[0]), es[1..]);
      var k :| 0 <= k < |es[1..]| && es[1..][k].Line?;
      assert es[k + 1].Line?;
    }
  }

  /** Once the session is stopping, the next EOF, command or unmatched line stops the loop. */
  lemma StoppingLineStops(l: Loop, input: Input)
    requires !l.exited && !l.session.cont
    ensures Step(l, Line(input)).exited
    ensures Step(l, Line(input)).session == l.session
  {
  }

  /**
    The shutdown sequence: a fatal completion clears `cont` and writes two
    lines but leaves the loop running; the next EOF, command or unmatched
    line ends it.
   */
  lemma FatalThenAnyLine(l: Loop, i: nat, o: Outcome, input: Input)
    requires !l.exited && l.session.cont && i < |l.session.queue|
    requires IsFatal(o)
    ensures !Step(l, Done(i, o)).exited
    ensures !Step(l, Done(i, o)).session.cont
    ensures Run(l, [Done(i, o), Line(input)]).exited
    ensures Run(l, [Done(i, o), Line(input)]).session.output
         == l.session.output + [FatalPrefix + Text(o.error) + "\n", QuitHint]
  {
    var m := Step(l, Done(i, o));
    assert Run(l, [Done(i, o), Line(input)]) == Run(m, [Line(input)]);
    assert Run(m, [Line(input)]) == Step(m, Line(input));
  }

  /** In an accepting session a command line only enqueues its work. */
  lemma CommandLineEnqueues(l: Loop, e: Event)
    requires l.session.cont && !l.exited
    requires e.Line? && e.input.Command?
    ensures Step(l, e) == Loop(l.session.(queue := l.session.queue + Asked(e)), false)
  {
  }

  /**
    While the session accepts, every command line is scheduled, in the
    order the lines were read, and nothing is written.
   */
  lemma {:induction false} CommandsScheduledInOrder(l: Loop, es: seq<Event>)
    requires l.session.cont && !l.exited
    requires forall k :: 0 <= k < |es| ==> es[k].Line? && es[k].input.Command?
    ensures Run(l, es).session.queue == l.session.queue + Requested(es)
    ensures |Requested(es)| == |es|
    ensures Run(l, es).session.output == l.session.output
    ensures Run(l, es).session.cont && !Run(l, es).exited
    decreases |es|
  {
    if |es| > 0 {
      var rest := es[1..];
      assert forall k :: 0 <= k < |rest| ==> rest[k] == es[k + 1];
      CommandLineEnqueues(l, es[0]);
      var m := Step(l, es[0]);
      CommandsScheduledInOrder(m, rest);
      assert Requested(es) == Asked(es[0]) + Requested(rest);
      assert l.session.queue + Requested(es) == m.session.queue + Requested(rest);
    }
  }

  /** One step enqueues at most the work its event asked for. */
  lemma StepHoldsOnlyAsked(l: Loop, e: Event)
    ensures multiset(Step(l, e).session.queue) <= multiset(l.session.queue) + multiset(Asked(e))
  {
    var r := Step(l, e);
    if e.Line? && !l.exited && e.input.Command? && l.session.cont {
      assert r.session.queue == l.session.queue + Asked(e);
    }
  }

  /**
    Every pending task was either pending already or asked for by a command
    line of the trace: completions only remove, and nothing else enqueues.
   */
  lemma {:induction false} QueueHoldsOnlyRequested(l: Loop, es: seq<Event>)
    ensures multiset(Run(l, es).session.queue) <= multiset(l.session.queue) + multiset(Requested(es))
    decreases |es|
  {
    if |es| > 0 {
      var m := Step(l, es[0]);
      QueueHoldsOnlyRequested(m, es[1..]);
      StepHoldsOnlyAsked(l, es[0]);
      assert multiset(Requested(es)) == multiset(Asked(es[0])) + multiset(Requested(es[1..]));
    }
  }
}
