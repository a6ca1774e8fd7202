/**
  The accept/stop state of a `Shell` session and the handlers that read or
  change it: scheduling a command (`create_task`), finalizing a completed task
  (`__finalize_task`), the `default` and `do_EOF` handlers of the read loop,
  and the start of `run`.
 */
module Shell {
  import opened Wrappers

  /** A coroutine handed to the scheduler: the command it belongs to and the line it received. */
  datatype Work = Work(command: string, line: string)

  /**
    The session: `cont` is the `__continue` flag, `output` the finalizer's
    writes to the output stream, `queue` the tasks scheduled and not yet finished.
   */
  datatype Session = Session(cont: bool, output: seq<string>, queue: seq<Work>)

  /** What a read-loop handler hands back to `cmd.Cmd`: the new session and the stop flag. */
  datatype Reply = Reply(session: Session, stop: bool)

  /**
    An exception a task can end with. `ShellError` is the recoverable kind and
    carries its optional message; `OtherError` is any other `Exception`;
    `BaseError` is a `BaseException` that is not an `Exception`
    (`KeyboardInterrupt`, `SystemExit`). Each carries the text `str()` gives it.
   */
  datatype Error = ShellError(message: Option<string>) | OtherError(text: string) | BaseError(text: string)

  /** How a task ended: normally, by raising, or by being cancelled. */
  datatype Outcome = Returned | Raised(error: Error) | Cancelled

  /** What the finalizer makes of an outcome. */
  datatype Verdict = Quiet | Recoverable(message: string) | Fatal(message: string) | Escapes

  /** A line read from the input, as `cmd.Cmd` routes it. */
  datatype Input =
    | Eof                                  // end of input, or the literal line `EOF`
    | Command(name: string, line: string)  // a method decorated with `command`
    | Unknown(line: string)                // no `do_` method matches: `default`

  const FatalPrefix: string := "An unrecoverable error has occured : "
  const QuitHint: string := "Press ENTER to quit.\n"

  /** Python's `str()` of an exception: a message-less `ShellError` prints as `None`. */
  function Text(e: Error): string
  {
    match e
    case ShellError(m) => if m.Some? then m.value else "None"
    case OtherError(t) => t
    case BaseError(t) => t
  }

  predicate IsFatal(o: Outcome)
  {
    o.Raised? && o.error.OtherError?
  }

  predicate IsRecoverable(o: Outcome)
  {
    o.Raised? && o.error.ShellError?
  }

  /**
    The `try`/`except` ladder of the finalizer. A `ShellError` is caught first;
    any other `Exception` is fatal; a cancellation or a bare `BaseException`
    is caught by neither clause and escapes the callback.
   */
  function Classify(o: Outcome): (v: Verdict)
    ensures v.Quiet? <==> o.Returned?
    ensures v.Recoverable? <==> IsRecoverable(o)
    ensures v.Fatal? <==> IsFatal(o)
    ensures v.Recoverable? || v.Fatal? ==> v.message == Text(o.error)
  {
    match o
    case Returned => Quiet
    case Cancelled => Escapes
    case Raised(e) =>
      match e
      case ShellError(_) => Recoverable(Text(e))
      case OtherError(_) => Fatal(Text(e))
      case BaseError(_) => Escapes
  }

  /** `run`: the flag is set before the read loop starts. */
  function Start(s: Session): (r: Session)
    ensures r.cont
    ensures r.output == s.output && r.queue == s.queue
  {
    s.(cont := true)
  }

  /**
    `create_task`: a stopping session schedules nothing and reports stop;
    an accepting one enqueues the work and reports keep going.
   */
  function Schedule(s: Session, w: Work): (r: Reply)
    ensures r.stop <==> !s.cont
    ensures !s.cont ==> r.session == s
    ensures s.cont ==> r.session.queue == s.queue + [w]
    ensures r.session.cont == s.cont && r.session.output == s.output
  {
    if !s.cont then Reply(s, true)
    else Reply(s.(queue := s.queue + [w]), false)
  }

  /** `__finalize_task`: reacts to the outcome of a task that has finished. */
  function Finalize(s: Session, o: Outcome): (r: Session)
    ensures r.queue == s.queue
    ensures o.Returned? || o.Cancelled? || (o.Raised? && o.error.BaseError?) ==> r == s
    ensures IsRecoverable(o) ==> r.cont == s.cont && r.output == s.output + [Text(o.error) + "\n"]
    ensures IsFatal(o) ==> !r.cont && r.output == s.output + [FatalPrefix + Text(o.error) + "\n", QuitHint]
    ensures r.cont ==> s.cont
  {
    match Classify(o)
    case Quiet => s
    case Escapes => s
    case Recoverable(m) => s.(output := s.output + [m + "\n"])
    case Fatal(m) => s.(cont := false, output := s.output + [FatalPrefix + m + "\n", QuitHint])
  }

  /** The queue without its `i`-th task. */
  function RemoveAt(q: seq<Work>, i: nat): (r: seq<Work>)
    requires i < |q|
    ensures |r| == |q| - 1
    ensures multiset(r) + multiset{q[i]} == multiset(q)
  {
    assert q == q[..i] + [q[i]] + q[i+1..];
    q[..i] + q[i+1..]
  }

  /** The `i`-th pending task finishes with outcome `o`; its done-callback runs. */
  function Complete(s: Session, i: nat, o: Outcome): (r: Session)
    requires i < |s.queue|
    ensures multiset(r.queue) + multiset{s.queue[i]} == multiset(s.queue)
    ensures r.cont ==> s.cont
    ensures !IsFatal(o) ==> r.cont == s.cont
    ensures IsRecoverable(o) ==> r.output == s.output + [Text(o.error) + "\n"]
    ensures IsFatal(o) ==> !r.cont && r.output == s.output + [FatalPrefix + Text(o.error) + "\n", QuitHint]
    ensures !IsRecoverable(o) && !IsFatal(o) ==> r.output == s.output
  {
    Finalize(s.(queue := RemoveAt(s.queue, i)), o)
  }

  /** `default`: any unmatched line stops the loop exactly when the session is stopping. */
  function Default(s: Session, line: string): (r: Reply)
    ensures r.stop <==> !s.cont
    ensures r.session == s
  {
    Reply(s, !s.cont)
  }

  /** `do_EOF`: end of input always stops the loop, without touching the session. */
  function EndOfFile(s: Session): (r: Reply)
    ensures r.stop
    ensures r.session == s
  {
    Reply(s, true)
  }

  /**
    `cmd.Cmd.onecmd` for the three handlers of this shell; a `command`-decorated
    method forwards `create_task`'s return value as its stop flag.
   */
  function Dispatch(s: Session, input: Input): (r: Reply)
    ensures !s.cont ==> r.stop && r.session == s
    ensures r.session.cont == s.cont && r.session.output == s.output
    ensures input.Eof? ==> r.stop
    ensures !input.Eof? ==> r.stop == !s.cont
    ensures input.Command? && s.cont ==> r.session.queue == s.queue + [Work(input.name, input.line)]
    ensures !input.Command? ==> r.session == s
  {
    match input
    case Eof => EndOfFile(s)
    case Command(name, line) => Schedule(s, Work(name, line))
    case Unknown(line) => Default(s, line)
  }
}
