/**
 * The command executor: a shell command line with its limits, the outcome of
 * running it, and the reduction of that outcome to the one string a tool
 * handler receives.
 */
module Executor {
  import opened Wrappers
  import opened Text

  /** The program every command line starts with. */
  const Program: string := "ailang"

  /** Wall-clock limit, in milliseconds, for commands run through `runAilang`. */
  const TimeoutMs: nat := 30000

  /** Wall-clock limit, in milliseconds, for the eval pipeline. */
  const EvalTimeoutMs: nat := 10000

  /** Cap, in bytes, on each captured output stream of `runAilang` (1 MiB). */
  const MaxBufferBytes: nat := 1024 * 1024

  /**
   * A shell command line to execute; `maxBuffer` is `None` where the caller
   * leaves the runtime's default in place.
   */
  datatype Request = Request(command: string, timeoutMs: nat, maxBuffer: Option<nat>)

  /**
   * What executing a request produced. `Completed` is a clean exit with the
   * captured streams; `Failed` is a rejected execution (non-zero exit,
   * killed on timeout, output over the cap, spawn failure) with the streams
   * captured so far and the error's message.
   */
  datatype Outcome =
    | Completed(stdout: string, stderr: string)
    | Failed(stdout: string, stderr: string, message: string)

  /** The request `runAilang(args)` makes: `ailang <args>` under the 30 s and 1 MiB limits. */
  function AilangRequest(args: string): (q: Request)
    ensures |q.command| == 7 + |args| && q.command[..7] == "ailang " && q.command[7..] == args
    ensures q.timeoutMs == 30000 && q.maxBuffer == Some(1048576)
  {
    Request(Program + " " + args, TimeoutMs, Some(MaxBufferBytes))
  }

  /**
   * The reduction `runAilang` applies: after a clean exit, stdout if it is
   * non-empty and stderr otherwise; after a failure, the error's stderr if it
   * is non-empty and the error's message otherwise. A failed run's stdout is
   * never shown. It is total: no outcome escapes as an exception.
   */
  function Reduce(o: Outcome): (r: string)
    ensures o.Completed? && o.stdout != "" ==> r == o.stdout
    ensures o.Completed? && o.stdout == "" ==> r == o.stderr
    ensures o.Failed? && o.stderr != "" ==> r == o.stderr
    ensures o.Failed? && o.stderr == "" ==> r == o.message
  {
    match o
    case Completed(out, err) => FirstNonEmpty([out, err])
    case Failed(_, err, msg) => FirstNonEmpty([err, msg])
  }

  /** The reduction is empty only when both streams it consults are empty. */
  lemma ReduceEmpty(o: Outcome)
    ensures Reduce(o) == "" <==>
      (if o.Completed? then o.stdout == "" && o.stderr == "" else o.stderr == "" && o.message == "")
  {
  }

  /** A clean exit that wrote only to stderr yields that stderr text. */
  lemma ReduceStderrOnly(err: string)
    ensures Reduce(Completed("", err)) == err
  {
  }

  /** Whatever a failed run wrote to stdout does not affect the reduction. */
  lemma ReduceIgnoresFailedStdout(out1: string, out2: string, err: string, msg: string)
    ensures Reduce(Failed(out1, err, msg)) == Reduce(Failed(out2, err, msg))
  {
  }
}
