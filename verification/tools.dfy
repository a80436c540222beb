/**
 * The tool catalog of the AILANG MCP server: five named tools, the defaults
 * their optional parameters take, the one request each handler makes, the
 * single text entry each handler returns, and dispatch by tool name.
 */
module Tools {
  import opened Wrappers
  import opened Text
  import opened Executor
  import opened Commands

  /** The five tools the server registers. */
  datatype Tool = Prompt | Check | Run | Builtins | Eval

  /** The name a tool is registered under. */
  function Name(t: Tool): (r: string)
    ensures r in Catalog && Catalog[r] == t
  {
    match t
    case Prompt => "ailang_prompt"
    case Check => "ailang_check"
    case Run => "ailang_run"
    case Builtins => "ailang_builtins"
    case Eval => "ailang_eval"
  }

  /** The registry: built once at start-up and never changed. */
  const Catalog: map<string, Tool> := map[
    "ailang_prompt" := Prompt,
    "ailang_check" := Check,
    "ailang_run" := Run,
    "ailang_builtins" := Builtins,
    "ailang_eval" := Eval
  ]

  /** The tool registered under `name`, or `None` when no tool has that name. */
  function Lookup(name: string): (r: Option<Tool>)
    ensures r.Some? ==> Name(r.value) == name
    ensures r.None? ==> forall t: Tool :: Name(t) != name
  {
    if name in Catalog then Some(Catalog[name]) else None
  }

  /** Every tool is found under its own name. */
  lemma LookupName(t: Tool)
    ensures Lookup(Name(t)) == Some(t)
  {
  }

  /** The five names are pairwise distinct, so the catalog holds five entries. */
  lemma NamesDistinct(t1: Tool, t2: Tool)
    ensures Name(t1) == Name(t2) <==> t1 == t2
    ensures |Catalog| == 5
  {
  }

  // ---------------------------------------------------------------- defaults

  /** `ailang_run` arguments as supplied: only `file` is required. */
  datatype RunParams = RunParams(file: string, caps: Option<string>, entry: Option<string>, aiStub: Option<bool>)

  /** `ailang_builtins` arguments as supplied: all optional. */
  datatype BuiltinsParams = BuiltinsParams(search: Option<string>, byModule: Option<bool>, verbose: Option<bool>)

  /** A supplied value, or the declared default when the value is absent. */
  function OrDefault<T>(o: Option<T>, d: T): (r: T)
    ensures o.None? ==> r == d
    ensures o.Some? ==> r == o.value
  {
    match o
    case Some(v) => v
    case None => d
  }

  /** The defaults of `ailang_run`: capabilities `IO`, entry `main`, no AI stub. */
  function WithRunDefaults(p: RunParams): (a: RunArgs)
    ensures a.file == p.file
    ensures a.caps == OrDefault(p.caps, "IO") && a.entry == OrDefault(p.entry, "main")
    ensures a.aiStub == OrDefault(p.aiStub, false)
  {
    RunArgs(p.file, OrDefault(p.caps, "IO"), OrDefault(p.entry, "main"), OrDefault(p.aiStub, false))
  }

  /** The defaults of `ailang_builtins`: both flags on; `search` stays absent. */
  function WithBuiltinsDefaults(p: BuiltinsParams): (a: BuiltinsArgs)
    ensures a.search == p.search
    ensures a.byModule == OrDefault(p.byModule, true) && a.verbose == OrDefault(p.verbose, true)
  {
    BuiltinsArgs(p.search, OrDefault(p.byModule, true), OrDefault(p.verbose, true))
  }

  /** Calling `ailang_run` with only `file` gives the command of the explicit defaults. */
  lemma RunDefaultsExplicit(file: string)
    ensures WithRunDefaults(RunParams(file, None, None, None))
         == WithRunDefaults(RunParams(file, Some("IO"), Some("main"), Some(false)))
    ensures RunArgsString(WithRunDefaults(RunParams(file, None, None, None)))
         == RunArgsString(RunArgs(file, "IO", "main", false))
  {
  }

  /** With the defaults, the builtins command carries both flags, `--verbose` first. */
  lemma BuiltinsDefaultsBothFlags(search: Option<string>)
    ensures var cmd := BuiltinsArgsString(WithBuiltinsDefaults(BuiltinsParams(search, None, None)));
      |cmd| >= 35 && cmd[..35] == "builtins list --verbose --by-module"
  {
  }

  // ---------------------------------------------------------------- calls and results

  /** A call with its validated, defaulted arguments. */
  datatype Call =
    | PromptCall
    | CheckCall(file: string)
    | RunCall(run: RunArgs)
    | BuiltinsCall(builtins: BuiltinsArgs)
    | EvalCall(expression: string)

  /** The tool whose schema a call's arguments belong to. */
  function ToolOf(c: Call): Tool {
    match c
    case PromptCall => Prompt
    case CheckCall(_) => Check
    case RunCall(_) => Run
    case BuiltinsCall(_) => Builtins
    case EvalCall(_) => Eval
  }

  /** One entry of a tool result: its `type` and its `text`. */
  datatype Content = Content(kind: string, text: string)

  /** What a handler returns: the ordered content entries. */
  datatype ToolResult = ToolResult(content: seq<Content>)

  /** The result shape every handler uses: a single entry of type `text`. */
  function TextResult(text: string): (r: ToolResult)
    ensures |r.content| == 1 && r.content[0].kind == "text" && r.content[0].text == text
  {
    ToolResult([Content("text", text)])
  }

  /**
   * The one subprocess request a call makes. Every tool but eval goes
   * through `runAilang` (`ailang <args>`, 30 s, 1 MiB); eval runs its shell
   * pipeline directly with a 10 s limit and the runtime's buffer default.
   */
  function RequestOf(c: Call): (q: Request)
    ensures !c.EvalCall? ==> q.timeoutMs == TimeoutMs && q.maxBuffer == Some(MaxBufferBytes)
    ensures !c.EvalCall? ==> |q.command| > 7 && q.command[..7] == "ailang "
    ensures c.PromptCall? ==> q.command == "ailang prompt"
    ensures c.CheckCall? ==> q.command == "ailang check \"" + c.file + "\""
    ensures c.RunCall? ==> q.command == "ailang " + RunArgsString(c.run)
    ensures c.BuiltinsCall? ==> q.command == "ailang " + BuiltinsArgsString(c.builtins)
    ensures c.EvalCall? ==> q == Request(EvalCommand(c.expression), EvalTimeoutMs, None)
  {
    match c
    case PromptCall => AilangRequest(PromptArgs)
    case CheckCall(file) => AilangRequest(CheckArgs(file))
    case RunCall(a) => AilangRequest(RunArgsString(a))
    case BuiltinsCall(a) => AilangRequest(BuiltinsArgsString(a))
    case EvalCall(e) => Request(EvalCommand(e), EvalTimeoutMs, None)
  }

  /**
   * The text of the builtins result: the reduction when it is non-empty,
   * `No matches found` otherwise; never empty.
   */
  function BuiltinsText(o: Outcome): (r: string)
    ensures r != ""
    ensures Reduce(o) != "" ==> r == Reduce(o)
    ensures Reduce(o) == "" ==> r == "No matches found"
  {
    FirstNonEmpty([Reduce(o), "No matches found"])
  }

  /**
   * The text of the eval result: after a clean exit, stdout, else stderr,
   * else `No output`; after a failure, `Error: ` and the error's message.
   */
  function EvalText(o: Outcome): (r: string)
    ensures r != ""
    ensures o.Completed? && o.stdout != "" ==> r == o.stdout
    ensures o.Completed? && o.stdout == "" && o.stderr != "" ==> r == o.stderr
    ensures o.Completed? && o.stdout == "" && o.stderr == "" ==> r == "No output"
    ensures o.Failed? ==> r == "Error: " + o.message
  {
    match o
    case Completed(out, err) =>
      var cands := [out, err, "No output"];
      assert cands[1] == err && cands[2] != "";
      FirstNonEmpty(cands)
    case Failed(_, _, msg) => "Error: " + msg
  }

  /** The result a handler returns once its request has produced outcome `o`. */
  function Respond(c: Call, o: Outcome): (r: ToolResult)
    ensures |r.content| == 1 && r.content[0].kind == "text"
    ensures (c.PromptCall? || c.CheckCall? || c.RunCall?) ==> r.content[0].text == Reduce(o)
    ensures c.BuiltinsCall? ==> r.content[0].text == BuiltinsText(o) != ""
    ensures c.EvalCall? ==> r.content[0].text == EvalText(o) != ""
  {
    match c
    case BuiltinsCall(_) => TextResult(BuiltinsText(o))
    case EvalCall(_) => TextResult(EvalText(o))
    case _ => TextResult(Reduce(o))
  }

  /** Why a call never reached a handler. */
  datatype DispatchError = UnknownTool(name: string) | InvalidArguments(name: string)

  /** A handled call: the request it made and the result it returned. */
  datatype Reply = Reply(request: Request, result: ToolResult)

  /**
   * Routes a call by name: an unknown name, or arguments that belong to
   * another tool's schema, fail before any request is made; otherwise the
   * named tool's handler makes its one request and wraps outcome `o`.
   */
  function Dispatch(name: string, c: Call, o: Outcome): (r: Result<Reply, DispatchError>)
    ensures r == Failure(UnknownTool(name)) <==> Lookup(name).None?
    ensures r.Success? <==> name == Name(ToolOf(c))
    ensures r.Success? ==> r.value.request == RequestOf(c) && r.value.result == Respond(c, o)
    ensures r.Success? ==> |r.value.result.content| == 1 && r.value.result.content[0].kind == "text"
  {
    match Lookup(name)
    case None => Failure(UnknownTool(name))
    case Some(t) =>
      if t != ToolOf(c) then Failure(InvalidArguments(name))
      else Success(Reply(RequestOf(c), Respond(c, o)))
  }
}
