# AILANG MCP server: command strings and result reduction

This project models the string logic of the AILANG MCP server
(`mcp-server/server.js`). The server exposes five tools over the Model
Context Protocol: `ailang_prompt`, `ailang_check`, `ailang_run`,
`ailang_builtins` and `ailang_eval`. Each tool handler builds one shell
command line for the `ailang` program and runs it. It then reduces what the
subprocess produced to one string and returns that string as a single
`text` content entry.

The subprocess is not modelled as a process. It is an `Outcome` value:
`Completed(stdout, stderr)` for a clean exit, or
`Failed(stdout, stderr, message)` for a rejected execution. A rejection
covers a non-zero exit, a timeout kill, output over the buffer cap and a
spawn failure. With the outcome as an input, every handler is a total,
deterministic function.

Modules:

- `Wrappers` (`wrappers.dfy`): `Option` and `Result`.
- `Text` (`text.dfy`): the JavaScript `||` chain over strings
  (`FirstNonEmpty`), substring occurrence (`Contains`), and strings joined
  from tokens (`Join`), with the lemmas that relate them.
- `Executor` (`executor.dfy`): the request `runAilang` makes, its limits,
  and the `stdout || stderr` / `error.stderr || error.message` reduction.
- `Commands` (`commands.dfy`): the argument strings of the `check`, `run`
  and `builtins` handlers, and the quote escaping and shell pipeline of
  `eval`. The builtins string is specified by a function. A method builds the
  same string step by step in a local variable, as the handler does.
- `Tools` (`tools.dfy`): the immutable catalog that maps names to tools,
  lookup, the zod defaults of the optional parameters, the request and
  result of every handler, and dispatch by name.

After a failure `runAilang` returns `error.stderr`, or else
`error.message`; the stdout of a failed run is never shown
(`Executor.Reduce`, `Executor.ReduceIgnoresFailedStdout`). `file` and
`search` are put between double quotes without escaping, and `caps` and
`entry` go in unquoted. `Commands.RunCapsEntryAmbiguous` shows two different
`run` argument records that give the same command line.

## Model

| member | source | states |
|---|---|---|
| `Text.FirstNonEmpty` | mcp-server/server.js:28-30 | The value of a JavaScript `\|\|` chain over strings. It is one of the operands. It is empty iff every operand is empty. Otherwise it is the first non-empty operand. |
| `Executor.AilangRequest` | mcp-server/server.js:22-27 | The command is `ailang `, then the argument string unchanged. The timeout is 30000 ms and the buffer cap is 1048576 bytes. |
| `Executor.Reduce` | mcp-server/server.js:22-32 | After a clean exit: stdout if non-empty, else stderr. After a failure: the error's stderr if non-empty, else the error's message. It is total, so no outcome escapes as an exception. |
| `Executor.ReduceEmpty` | mcp-server/server.js:28-30 | The reduction is empty iff both strings it consults are empty. |
| `Executor.ReduceStderrOnly` | mcp-server/server.js:28 | A clean exit that wrote only to stderr yields that stderr text. |
| `Executor.ReduceIgnoresFailedStdout` | mcp-server/server.js:29-31 | The stdout of a failed run never changes the reduction. |
| `Commands.CheckArgs` | mcp-server/server.js:55 | The check argument string is `check "`, then the file, then a closing `"`. |
| `Commands.CheckArgsInjective` | mcp-server/server.js:55 | Different files give different check commands. |
| `Commands.RunArgsString` | mcp-server/server.js:73-74 | The run argument string starts with `run --caps ` and ends with the double-quoted file. |
| `Commands.StubFlag` | mcp-server/server.js:73 | The flag is non-empty iff `ai_stub` is true, and then it is `--ai-stub`. |
| `Commands.RunStubFlagPresent` | mcp-server/server.js:73-74 | Whatever the other arguments, a true `ai_stub` puts `--ai-stub` in the run command. |
| `Commands.RunStubFlagIff` | mcp-server/server.js:73-74 | `--ai-stub` occurs in the run command iff `ai_stub` is true, given that caps, entry and file do not contain it themselves. |
| `Commands.RunCapsEntryAmbiguous` | mcp-server/server.js:74 | Unquoted caps and entry let two different argument records produce the same command. |
| `Commands.HasSearch` | mcp-server/server.js:94 | The JavaScript truthiness test on `search`: true iff the term is neither absent nor the empty string. |
| `Commands.BuiltinsArgsString` | mcp-server/server.js:91-94 | The command always starts with `builtins list`. With both flags it starts with `builtins list --verbose --by-module`. Without a non-empty search it contains no `\|`. |
| `Commands.BuildBuiltinsArgs` | mcp-server/server.js:90-94 | Building the string step by step (`builtins list`, then up to three conditional appends) gives exactly the builtins command. |
| `Commands.BuiltinsSearchSuffix` | mcp-server/server.js:94 | An empty search gives the same command as no search. A non-empty search gives the flags part followed exactly by ` \| grep -A 15 -i "<search>"`. |
| `Commands.BuiltinsFlagsIff` | mcp-server/server.js:92-93 | `--verbose` occurs iff `verbose`, and `--by-module` occurs iff `by_module`, given that the search term does not contain them. |
| `Commands.EscapeQuotes` | mcp-server/server.js:111 | The output length is the input length plus the number of quotes. Every `'` in the output directly follows a `\`. |
| `Commands.UnescapeEscape` | mcp-server/server.js:111 | Dropping each `\` that comes directly before a `'` restores the input. So every quote became `\'` and every other character was kept in order. |
| `Commands.EscapeWithoutQuotes` | mcp-server/server.js:111 | An expression without quotes is unchanged. |
| `Commands.EscapeAppend` | mcp-server/server.js:111 | The replacement distributes over concatenation, because it works one character at a time. |
| `Commands.EvalCommand` | mcp-server/server.js:111 | The eval command is `echo '`, then the escaped expression, then `' \| ailang repl --non-interactive`; its length is that of the expression plus its quotes plus the frame. |
| `Commands.EvalCommandRecovers` | mcp-server/server.js:111 | The text between `echo '` and the pipe reads back as the expression under `UnescapeQuotes`. This says nothing about how a shell reads it. |
| `Tools.Name` | mcp-server/server.js:36-104 | Each tool's registered name is a key of the immutable catalog, and the catalog maps that name back to the tool. |
| `Tools.Lookup` | mcp-server/server.js:35-123 | A found tool has the name that was looked up. `None` means no tool has that name. |
| `Tools.LookupName` | mcp-server/server.js:35-123 | Each of the five tools is found under its own name. |
| `Tools.NamesDistinct` | mcp-server/server.js:36-104 | The five registered names are pairwise distinct, and the catalog has five entries. |
| `Tools.OrDefault` | mcp-server/server.js:68-70 | A supplied value wins. An absent value takes the declared default. |
| `Tools.WithRunDefaults` | mcp-server/server.js:66-71 | `caps` defaults to `IO`, `entry` to `main` and `ai_stub` to false. `file` is passed through. |
| `Tools.WithBuiltinsDefaults` | mcp-server/server.js:85-89 | `by_module` and `verbose` default to true. `search` stays absent. |
| `Tools.RunDefaultsExplicit` | mcp-server/server.js:68-74 | Calling run with only `file` gives the same arguments and the same command as passing `IO`, `main` and false explicitly. |
| `Tools.BuiltinsDefaultsBothFlags` | mcp-server/server.js:87-93 | With the defaults, the builtins command has `--verbose` and then `--by-module`. |
| `Tools.TextResult` | mcp-server/server.js:41-43 | A result has exactly one entry, of type `text`, carrying the given text. |
| `Tools.RequestOf` | mcp-server/server.js:40-113 | Prompt sends `ailang prompt`; check sends `ailang check "<file>"`; run and builtins send `ailang ` and their builder's string; all four with 30 s and 1 MiB limits. Eval sends its echo pipeline with a 10 s limit and the runtime's default buffer. |
| `Tools.BuiltinsText` | mcp-server/server.js:95-98 | The builtins text is never empty. A non-empty reduction passes through unchanged. An empty one becomes `No matches found`. |
| `Tools.EvalText` | mcp-server/server.js:109-121 | On success the text is stdout, else stderr, else `No output`. On failure it is `Error: ` plus the message. It is never empty. |
| `Tools.Respond` | mcp-server/server.js:39-122 | Every handler returns exactly one `text` entry. For prompt, check and run the text is the reduction. Builtins and eval use their own fallbacks. |
| `Tools.Dispatch` | mcp-server/server.js:35-123 | An unknown name fails with `UnknownTool` and makes no request. Success happens iff the name is the one of the call's tool. A success makes exactly that tool's request and returns its single-entry result. |

## Left out

- Running the subprocess (`exec` through `promisify`) is left out. The model takes its outcome as an input. The 30000 ms and 10000 ms timeouts and the 1 MiB cap are kept as constants on the request. Killing a process on timeout and truncating output at the cap are not modelled.
- Shell semantics are left out: pipes, `grep`, `echo` and how the shell reads quotes. The eval escaping is modelled only as the literal replacement. Nothing here claims that any command is safe against shell injection.
- zod schema validation and type coercion are left out. Calls arrive as validated, typed argument records. The `.optional().default(...)` rules are kept as `Tools.WithRunDefaults` and `Tools.WithBuiltinsDefaults`. `InvalidArguments` in `Tools.Dispatch` is a model artifact: a typed call record of a different tool than the name. Schema validation by the SDK, such as rejecting a missing `file` or `expression` or a non-boolean `ai_stub`, is not modelled.
- Registration through the MCP SDK is left out, including the tools' description strings and the server's name and version metadata.
- The stdio transport, `main` and the `console.error` logging are left out, because they are I/O and lifecycle code.
- Async execution and concurrent in-flight calls are left out. Each handler is a sequential function of its outcome.
- Commands.BuiltinsFlagsIff: states the occurrence of the flag words `--verbose` and `--by-module` rather than of ` --verbose` and ` --by-module` with their leading space. It holds only when the search term does not contain these words.
- Commands.RunStubFlagIff: holds only when `caps`, `entry` and `file` do not contain `--ai-stub` themselves. Otherwise the word occurs whatever `ai_stub` is. The direction from a true `ai_stub` to the word holds unconditionally (`Commands.RunStubFlagPresent`).
