# Shell session accept/stop model

A Dafny model of the session state machine of the `Shell` class in `shell.py`
(an asynchronous `cmd.Cmd` shell). A session is an immutable value
`Session(cont, output, queue)`:

- `cont` is the `__continue` flag, set by `run` and cleared by a fatal task.
- `output` is the sequence of the finalizer's writes to the output stream.
  The prompt, help text and command bodies write to the same stream; those
  writes are not recorded.
- `queue` holds the scheduled tasks that have not finished yet.

The handlers are pure functions over it:

- `Schedule` models `create_task`.
- `Finalize` and `Complete` model `__finalize_task` and the task's done-callback.
- `Default` and `EndOfFile` model the `default` and `do_EOF` handlers.
- `Dispatch` models how a `command`-decorated method forwards `create_task`'s
  return value as the loop's stop flag.
- `Start` models the flag set at the start of `run`.

The `argument` wrapper is modelled in module `Command`. It parses the line, and
a failed parse becomes a message-less `ShellError`. Module `ReadLoop` folds
these steps over a sequence of events. Each event is an input line or the
completion of a pending task, in any order, standing for the worker thread
and the event loop. The lemmas in that module state the shutdown rules:

- A fatal completion clears `cont` but does not end the loop.
- The next EOF, command or unmatched line ends it.
- A stopping session never schedules work again.
- `cont` never returns to true.
- Only a fatal completion clears `cont`.
- Command lines are scheduled in the order they were read.

Modules: `Wrappers` (`wrappers.dfy`), `Shell` (`shell.dfy`), `Command`
(`command.dfy`), `ReadLoop` (`readloop.dfy`).

## Behaviour worth noting

- End of input (`do_EOF`) stops the read loop but does not clear `cont`.
- A parse failure does not log a usage line through the shell. argparse
  prints its usage and error to standard error. The shell then writes
  `str(ShellError())` followed by a newline, and that `str` is the text
  `None`. So `ParseFailureIsRecoverable` states an output of `"None\n"`.
- A cancelled task, and a task ending with a `BaseException` that is not an
  `Exception` (`KeyboardInterrupt`, `SystemExit`), match neither `except`
  clause of the finalizer, so the finalizer leaves the session unchanged.
  A cancellation escapes the callback to the event loop's exception handler.
  A `KeyboardInterrupt` or `SystemExit` is re-raised by asyncio out of the
  event loop itself, which ends `run`. This assumes Python 3.8 or later, where
  `CancelledError` is a `BaseException`; `asyncio.to_thread` needs 3.9 anyway.
- The line's arguments are parsed inside the task, not when the line is read.
  So a line with bad arguments is still scheduled, and the recoverable error
  appears when that task finishes.

## Model

| member | source | states |
|---|---|---|
| Shell.Start | shell.py:52-53 | `run` makes the session accepting; output and pending tasks are untouched |
| Shell.Schedule | shell.py:56-64 | when stopping, reports stop and changes nothing; when accepting, reports keep going and appends exactly the given work to the queue; `cont` and output never change |
| Shell.Classify | shell.py:79-88 | a normal return is quiet; exactly the `ShellError` outcomes are recoverable and exactly the other `Exception` outcomes are fatal, each carrying the exception's `str` |
| Shell.Finalize | shell.py:74-88 | a normal return, a cancellation or a bare `BaseException` changes nothing; a `ShellError` appends its `str` plus newline and keeps `cont`; any other exception clears `cont` and appends the fatal line then the ENTER hint, in that order; `cont` never becomes true |
| Shell.Complete | shell.py:66-88 | a finished task leaves the queue exactly once (multiset); `cont` changes only on a fatal outcome; the output grows by the finalizer's lines only |
| Shell.Default | shell.py:34-39 | an unmatched line stops the loop iff the session is stopping, and changes nothing |
| Shell.EndOfFile | shell.py:41-46 | end of input always stops the loop and changes nothing |
| Shell.Dispatch | shell.py:104-109 | a stopping session stops on every input and is unchanged; a command line's stop flag is `create_task`'s and enqueues its work when accepting; EOF always stops; no handler changes `cont` or output |
| Command.Parse | shell.py:153-161 | a successful parse passes its arguments through; a failed one becomes a message-less `ShellError` |
| Command.Invoke | shell.py:136-140 | with parsed arguments the body runs; on a parse failure the body never runs, the command state is unchanged and the task raises a message-less `ShellError` |
| Command.ParseFailureIsRecoverable | shell.py:153-161 | a parse failure leaves the command state unchanged, is recoverable and never fatal, keeps `cont` and writes exactly `None` plus newline |
| ReadLoop.Boot | shell.py:48-54 | the read loop starts running with `cont` set |
| ReadLoop.Step | shell.py:34-88 | `cont` never rises; a returned loop stays returned; a completion never changes whether the loop returned; a line ends the loop iff it is EOF or the session is stopping; output only grows; a stopping session's queue only shrinks |
| ReadLoop.RunKeepsStopping | shell.py:53-88 | over any trace `cont` never returns to true; only `run` sets it |
| ReadLoop.RunOutputGrows | shell.py:74-88 | over any trace the earlier writes stay a prefix of the output |
| ReadLoop.RunStaysExited | shell.py:34-46 | once the read loop has returned, no later event restarts it |
| ReadLoop.StoppedNeverSchedules | shell.py:61-62 | once stopping, no trace re-enables the session or adds a task to the queue |
| ReadLoop.NoFatalKeepsCont | shell.py:83-88 | a trace without a fatal completion leaves `cont` as it was |
| ReadLoop.LostContHadFatal | shell.py:85-86 | if an accepting session stops accepting, some completion in the trace was fatal |
| ReadLoop.ExitNeedsLine | shell.py:34-46 | the loop only returns after reading a line; completions, fatal ones included, never end it |
| ReadLoop.StoppingLineStops | shell.py:34-64 | in a stopping session the next EOF, command or unmatched line ends the loop, and changes nothing |
| ReadLoop.FatalThenAnyLine | shell.py:34-88 | a fatal completion leaves the loop running with `cont` cleared; the next EOF, command or unmatched line ends it; the output gained exactly the fatal line and the ENTER hint |
| ReadLoop.CommandsScheduledInOrder | shell.py:56-64 | while accepting, N command lines enqueue exactly N works in input order, write nothing and keep the loop running |
| ReadLoop.QueueHoldsOnlyRequested | shell.py:56-72 | every pending task was pending already or was requested by a command line of the trace |

## Left out

- asyncio machinery is left out: the event loop, `to_thread`, `call_soon_threadsafe`, task creation and `add_done_callback`. Scheduled work is a queue, and completions are events in any order.
- The gap between `create_task`'s check and the task's creation on the event loop is left out. Nothing re-checks `cont` there, so it does not change the session state.
- The coroutine created and never awaited when a stopping session refuses a command is left out.
- `cmd.Cmd` internals are left out: reading lines, prompts, readline, `emptyline` repetition, `help`, completion and prefix dispatch. So is mapping raw text to a handler. A line is given already routed, as `Input`.
- `use_rawinput` and the constructor's stream handling (shell.py:14-32) are left out. They are I/O plumbing.
- argparse is left out: `line.split()`, type conversion, the usage text it prints to standard error, and how `argument` accumulates specifications. Parsing is an opaque `Result<A, ()>`.
- What happens after an error escapes the done-callback is left out. A cancellation goes to the event loop's exception handler. A `KeyboardInterrupt` or `SystemExit` is re-raised out of the event loop and ends `run`, which the model does not follow.
- Calling `create_task` before `run` (the flag does not exist yet) is left out.
- Banners, progress bars, keyboard capture, the `log` helper, cancel-on-exit and the "Exiting the shell..." message are left out. They do not exist in `shell.py`; only the tests use them.
- A completion naming a position with no pending task is ignored by `ReadLoop.Step`. Such a completion cannot occur, since only a scheduled task can finish.
- ReadLoop.FatalThenAnyLine: only EOF, command and unmatched lines are modelled. A `help` or `?` line reaches the built-in `do_help`, which returns `None`, so it does not stop a stopping session. An empty line (the ENTER the fatal message asks for) re-runs the previous line through `emptyline`, so after such a `help` line it does not stop the session either.
