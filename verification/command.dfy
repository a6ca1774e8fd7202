/**
  The `argument` decorator's wrapper: when its coroutine runs it first parses
  the line, then calls the command body with the parsed arguments. The parser
  itself is a parameter; only its success or failure matters here.
 */
module Command {
  import opened Wrappers
  import opened Shell

  /** What running a command coroutine does: the command's own state afterwards and how it ended. */
  datatype Effect<S> = Effect(app: S, outcome: Outcome)

  /** `_Parser.parse`: a failed parse (argparse's `SystemExit`) becomes a message-less `ShellError`. */
  function Parse<A>(parsed: Result<A, ()>): (r: Result<A, Error>)
    ensures parsed.Success? <==> r.Success?
    ensures r.Success? ==> r.value == parsed.value
    ensures r.Failure? ==> r.error == ShellError(None)
  {
    match parsed
    case Success(a) => Success(a)
    case Failure(_) => Failure(ShellError(None))
  }

  /**
    `_Wrapper.__call__`: parse, then run the body on the parsed arguments.
    The body is never entered when parsing fails.
   */
  function Invoke<A, S>(parsed: Result<A, ()>, body: (S, A) -> Effect<S>, app: S): (r: Effect<S>)
    ensures parsed.Success? ==> r == body(app, parsed.value)
    ensures parsed.Failure? ==> r.app == app && r.outcome == Raised(ShellError(None))
  {
    match Parse(parsed)
    case Success(a) => body(app, a)
    case Failure(e) => Effect(app, Raised(e))
  }

  /**
    A parse failure is always recoverable: the command's state is untouched,
    the session keeps accepting, and the finalizer writes the `str()` of a
    message-less `ShellError`, which is `None`, on a line of its own.
   */
  lemma ParseFailureIsRecoverable<A, S>(s: Session, i: nat, parsed: Result<A, ()>, body: (S, A) -> Effect<S>, app: S)
    requires parsed.Failure?
    requires i < |s.queue|
    ensures Invoke(parsed, body, app).app == app
    ensures IsRecoverable(Invoke(parsed, body, app).outcome)
    ensures !IsFatal(Invoke(parsed, body, app).outcome)
    ensures Complete(s, i, Invoke(parsed, body, app).outcome).cont == s.cont
    ensures Complete(s, i, Invoke(parsed, body, app).outcome).output == s.output + ["None\n"]
  {
    var o := Invoke(parsed, body, app).outcome;
    assert Text(o.error) + "\n" == "None\n";
  }
}
