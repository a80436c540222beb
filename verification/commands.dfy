/**
 * The argument strings each tool handler of the AILANG MCP server hands to
 * the `ailang` program, built from arguments that have already been
 * validated and given their defaults.
 */
module Commands {
  import opened Wrappers
  import opened Text

  /** Validated arguments of the `ailang_run` tool. */
  datatype RunArgs = RunArgs(file: string, caps: string, entry: string, aiStub: bool)

  /** Validated arguments of the `ailang_builtins` tool; `search` has no default. */
  datatype BuiltinsArgs = BuiltinsArgs(search: Option<string>, byModule: bool, verbose: bool)

  /** The argument string of `ailang_prompt`. */
  const PromptArgs: string := "prompt"

  /** `s` between double quotes, as the templates write `"${s}"`. */
  function Quoted(s: string): (r: string)
    ensures |r| == |s| + 2 && r[0] == '"' && r[|r| - 1] == '"' && r[1..|r| - 1] == s
  {
    "\"" + s + "\""
  }

  /** The quoted string seen as tokens separated by the quote character. */
  lemma QuotedTokens(s: string)
    ensures Quoted(s) == Join(["", s, ""], '"')
  {
    JoinCons(s, [""], '"');
    JoinCons("", [s, ""], '"');
    assert ["", s, ""] == [""] + [s, ""] && [s, ""] == [s] + [""];
  }

  /** A needle free of `"` occurs in `Quoted(s)` exactly when it occurs in `s`. */
  lemma QuotedContains(s: string, n: string)
    requires n != [] && '"' !in n
    ensures Contains(Quoted(s), n) <==> Contains(s, n)
  {
    QuotedTokens(s);
    var ts := ["", s, ""];
    JoinContains(ts, '"', n);
    assert !Contains("", n) by { assert !OccursAt("", n, 0); }
    if Contains(s, n) {
      JoinHas(ts, '"', n, 1);
    }
  }

  // ---------------------------------------------------------------- check

  /** The argument string of `ailang_check`: `check "<file>"`. */
  function CheckArgs(file: string): (r: string)
    ensures |r| == |file| + 8
    ensures r[..7] == "check \"" && r[7..|r| - 1] == file && r[|r| - 1] == '"'
  {
    "check " + Quoted(file)
  }

  /** Distinct files give distinct `check` commands. */
  lemma CheckArgsInjective(f: string, g: string)
    requires CheckArgs(f) == CheckArgs(g)
    ensures f == g
  {
    var r := CheckArgs(f);
    assert f == r[7..|r| - 1];
  }

  // ---------------------------------------------------------------- run

  /** The flag the `ai_stub` argument contributes: the flag or the empty string. */
  function StubFlag(aiStub: bool): (r: string)
    ensures r != "" <==> aiStub
    ensures r != "" ==> r == "--ai-stub"
  {
    if aiStub then "--ai-stub" else ""
  }

  /**
   * The argument string of `ailang_run`:
   * `run --caps <caps> --entry <entry> <flag> "<file>"`; `caps` and
   * `entry` are interpolated without quotes, and with `ai_stub` false the
   * empty flag leaves two spaces before the file.
   */
  function RunArgsString(a: RunArgs): (r: string)
    ensures |r| >= 11 && r[..11] == "run --caps "
    ensures |r| >= |a.file| + 2 && r[|r| - |a.file| - 2..] == Quoted(a.file)
  {
    "run --caps " + a.caps + " --entry " + a.entry + " " + StubFlag(a.aiStub) + " " + Quoted(a.file)
  }

  /** The run command as space-separated tokens. */
  function RunTokens(a: RunArgs): seq<string> {
    ["run", "--caps", a.caps, "--entry", a.entry, StubFlag(a.aiStub), Quoted(a.file)]
  }

  /** The last four run tokens joined: `<entry> <flag> "<file>"` after `--entry`. */
  lemma RunTailJoin(entry: string, f: string, q: string)
    ensures Join(["--entry", entry, f, q], ' ') == "--entry " + entry + " " + f + " " + q
  {
    JoinCons(f, [q], ' ');
    assert [f] + [q] == [f, q];
    JoinCons(entry, [f, q], ' ');
    assert [entry] + [f, q] == [entry, f, q];
    JoinCons("--entry", [entry, f, q], ' ');
    assert ["--entry"] + [entry, f, q] == ["--entry", entry, f, q];
  }

  /** The seven run tokens joined with spaces give the run template. */
  lemma RunJoin(caps: string, entry: string, f: string, q: string)
    ensures Join(["run", "--caps", caps, "--entry", entry, f, q], ' ')
         == "run --caps " + caps + " --entry " + entry + " " + f + " " + q
  {
    var tail := ["--entry", entry, f, q];
    var rest := "--entry " + entry + " " + f + " " + q;
    RunTailJoin(entry, f, q);
    JoinCons(caps, tail, ' ');
    JoinCons("--caps", [caps] + tail, ' ');
    JoinCons("run", ["--caps"] + ([caps] + tail), ' ');
    assert ["run", "--caps", caps, "--entry", entry, f, q] == ["run"] + (["--caps"] + ([caps] + tail));
    assert "run" + [' '] + ("--caps" + [' '] + (caps + [' '] + rest)) == "run --caps " + caps + " " + rest;
  }

  /** The run command is the join of its tokens. */
  lemma RunTokensJoin(a: RunArgs)
    ensures RunArgsString(a) == Join(RunTokens(a), ' ')
  {
    RunJoin(a.caps, a.entry, StubFlag(a.aiStub), Quoted(a.file));
  }

  /**
   * `--ai-stub` occurs in the run command exactly when `ai_stub` is true,
   * provided the caller's own strings do not already spell it.
   */
  lemma {:induction false} RunStubFlagIff(a: RunArgs)
    requires !Contains(a.caps, "--ai-stub") && !Contains(a.entry, "--ai-stub") && !Contains(a.file, "--ai-stub")
    ensures Contains(RunArgsString(a), "--ai-stub") <==> a.aiStub
  {
    var n := "--ai-stub";
    var t := RunTokens(a);
    RunTokensJoin(a);
    QuotedContains(a.file, n);
    if a.aiStub {
      ContainsSelf(n);
      JoinHas(t, ' ', n, 5);
    } else {
      assert !Contains("", n) by { assert !OccursAt("", n, 0); }
      forall k | 0 <= k < |t| ensures !Contains(t[k], n) {
        if k == 0 || k == 1 || k == 3 {
          assert |t[k]| < |n|;
        }
      }
      JoinLacks(t, ' ', n);
    }
  }

  /**
   * Because `caps` and `entry` are not quoted, two different argument records
   * can produce the same command line.
   */
  lemma RunCapsEntryAmbiguous()
    ensures RunArgsString(RunArgs("f.ail", "IO --entry x", "y", false))
         == RunArgsString(RunArgs("f.ail", "IO", "x --entry y", false))
  {
  }

  // ---------------------------------------------------------------- builtins

  /** A search term the handler uses: present and, as JavaScript tests it, truthy. */
  predicate HasSearch(search: Option<string>): (b: bool)
    ensures b <==> search != None && search != Some("")
  {
    search.Some? && search.value != ""
  }

  /** `builtins list` followed by the flags the two booleans switch on, `--verbose` first. */
  function BuiltinsFlagsString(verbose: bool, byModule: bool): string {
    "builtins list" + (if verbose then " --verbose" else "") + (if byModule then " --by-module" else "")
  }

  /**
   * The argument string of `ailang_builtins`: the flags part, then, for a
   * non-empty search term, a pipe into a case-insensitive `grep` that keeps
   * 15 lines after each match.
   */
  function BuiltinsArgsString(a: BuiltinsArgs): (r: string)
    ensures |r| >= 13 && r[..13] == "builtins list"
    ensures a.verbose && a.byModule ==> |r| >= 35 && r[..35] == "builtins list --verbose --by-module"
    ensures !HasSearch(a.search) ==> '|' !in r
  {
    var flags, suffix := BuiltinsFlagsString(a.verbose, a.byModule), GrepSuffix(a.search);
    FlagsShape(a.verbose, a.byModule);
    PrefixOfAppend(flags, suffix, 13);
    PrefixOfAppend(flags, suffix, 35);
    assert !HasSearch(a.search) ==> flags + suffix == flags;
    flags + suffix
  }

  /** The pipe into `grep` a non-empty search term adds; empty otherwise. */
  function GrepSuffix(search: Option<string>): string {
    if HasSearch(search) then " | grep -A 15 -i " + Quoted(search.value) else ""
  }

  /**
   * The builtins command built as the handler builds it: a local string
   * that starts as `builtins list` and receives up to three appends.
   */
  method BuildBuiltinsArgs(a: BuiltinsArgs) returns (cmd: string)
    ensures cmd == BuiltinsArgsString(a)
  {
    cmd := "builtins list";
    if a.verbose {
      cmd := cmd + " --verbose";
    }
    if a.byModule {
      cmd := cmd + " --by-module";
    }
    assert cmd == BuiltinsFlagsString(a.verbose, a.byModule);
    if HasSearch(a.search) {
      cmd := cmd + " | grep -A 15 -i " + Quoted(a.search.value);
    }
  }

  /** With a non-empty search the command is the flags part followed exactly by the grep suffix. */
  lemma BuiltinsSearchSuffix(search: string, byModule: bool, verbose: bool)
    ensures search == "" ==>
      (BuiltinsArgsString(BuiltinsArgs(Some(search), byModule, verbose))
       == BuiltinsArgsString(BuiltinsArgs(None, byModule, verbose)))
    ensures search != "" ==>
      (BuiltinsArgsString(BuiltinsArgs(Some(search), byModule, verbose))
       == BuiltinsArgsString(BuiltinsArgs(None, byModule, verbose)) + " | grep -A 15 -i \"" + search + "\"")
  {
  }

  /** The four possible flag parts. */
  lemma FlagsShape(verbose: bool, byModule: bool)
    ensures |BuiltinsFlagsString(verbose, byModule)| >= 13
    ensures BuiltinsFlagsString(verbose, byModule)[..13] == "builtins list"
    ensures verbose && byModule ==> BuiltinsFlagsString(verbose, byModule) == "builtins list --verbose --by-module"
    ensures '|' !in BuiltinsFlagsString(verbose, byModule)
  {
    var f := BuiltinsFlagsString(verbose, byModule);
    if verbose && byModule {
      assert f == "builtins list --verbose --by-module";
    } else if verbose {
      assert f == "builtins list --verbose";
    } else if byModule {
      assert f == "builtins list --by-module";
    } else {
      assert f == "builtins list";
    }
  }

  /** A prefix no longer than `x` is unchanged by appending to `x`. */
  lemma PrefixOfAppend(x: string, y: string, k: nat)
    ensures k <= |x| ==> (x + y)[..k] == x[..k]
  {
  }

  /** The flags part as space-separated tokens. */
  function FlagTokens(verbose: bool, byModule: bool): seq<string> {
    ["builtins", "list"] + (if verbose then ["--verbose"] else []) + (if byModule then ["--by-module"] else [])
  }

  /** The grep suffix as space-separated tokens. */
  function GrepTokens(search: string): seq<string> {
    GrepTokens'(Quoted(search))
  }

  /** The grep tokens around an already quoted search term. */
  function GrepTokens'(q: string): seq<string> {
    ["|", "grep", "-A", "15", "-i", q]
  }

  /** The builtins command as space-separated tokens. */
  function BuiltinsTokens(a: BuiltinsArgs): seq<string> {
    FlagTokens(a.verbose, a.byModule) + (if HasSearch(a.search) then GrepTokens(a.search.value) else [])
  }

  /** The flag tokens joined with spaces give the flags part. */
  lemma FlagTokensJoin(verbose: bool, byModule: bool)
    ensures Join(FlagTokens(verbose, byModule), ' ') == BuiltinsFlagsString(verbose, byModule)
  {
    JoinCons("builtins", ["list"], ' ');
    var base := ["builtins", "list"];
    assert Join(base, ' ') == "builtins list";
    var withV := base + (if verbose then ["--verbose"] else []);
    if verbose {
      JoinAppend(base, ["--verbose"], ' ');
    }
    assert Join(withV, ' ') == "builtins list" + (if verbose then " --verbose" else "");
    if byModule {
      JoinAppend(withV, ["--by-module"], ' ');
      assert FlagTokens(verbose, byModule) == withV + ["--by-module"];
    } else {
      assert FlagTokens(verbose, byModule) == withV;
    }
  }

  /** The grep tokens joined with spaces give the pipe text without its leading space. */
  lemma GrepTokensJoin(q: string)
    ensures Join(GrepTokens'(q), ' ') == "| grep -A 15 -i " + q
  {
    JoinCons("-i", [q], ' ');
    JoinCons("15", ["-i", q], ' ');
    JoinCons("-A", ["15", "-i", q], ' ');
    JoinCons("grep", ["-A", "15", "-i", q], ' ');
    JoinCons("|", ["grep", "-A", "15", "-i", q], ' ');
  }

  /** Appending the grep tokens appends ` | grep -A 15 -i ` and the quoted term. */
  lemma GrepAppendJoin(xs: seq<string>, q: string)
    requires |xs| > 0
    ensures Join(xs + GrepTokens'(q), ' ') == Join(xs, ' ') + " | grep -A 15 -i " + q
  {
    var j, g := Join(xs, ' '), GrepTokens'(q);
    GrepTokensJoin(q);
    JoinAppend(xs, g, ' ');
    GrepSuffixAssoc(j, q);
  }

  /** Regrouping a separator space and the pipe text into one literal. */
  lemma GrepSuffixAssoc(j: string, q: string)
    ensures j + [' '] + ("| grep -A 15 -i " + q) == j + " | grep -A 15 -i " + q
  {
    var l := "| grep -A 15 -i ";
    assert " | grep -A 15 -i " == [' '] + l;
    assert j + [' '] + (l + q) == (j + [' '] + l) + q;
    assert j + [' '] + l == j + ([' '] + l);
  }

  /** The builtins command is the join of its tokens. */
  lemma BuiltinsTokensJoin(a: BuiltinsArgs)
    ensures BuiltinsArgsString(a) == Join(BuiltinsTokens(a), ' ')
  {
    var f := FlagTokens(a.verbose, a.byModule);
    FlagTokensJoin(a.verbose, a.byModule);
    if HasSearch(a.search) {
      var q := Quoted(a.search.value);
      GrepAppendJoin(f, q);
      assert BuiltinsTokens(a) == f + GrepTokens'(q);
      assert BuiltinsArgsString(a) == BuiltinsFlagsString(a.verbose, a.byModule) + " | grep -A 15 -i " + q;
    } else {
      assert BuiltinsTokens(a) == f;
    }
  }

  /** The word `--verbose` does not occur inside `--by-module`. */
  lemma ByModuleLacksVerbose()
    ensures !Contains("--by-module", "--verbose")
  {
    var s := "--by-module";
    forall j | 2 <= j && j - 2 + 9 <= |s| ensures s[j] != 'v' {
      if j == 2 { } else if j == 3 { } else { }
    }
    NotContainsByChar(s, "--verbose", 2);
  }

  /** A needle with no space and no quote, longer than four characters, is in no grep token unless in the search. */
  lemma GrepTokensLack(search: string, n: string)
    requires |n| > 4 && ' ' !in n && '"' !in n && !Contains(search, n)
    ensures NoneContain(GrepTokens(search), n)
  {
    QuotedContains(search, n);
    var g := GrepTokens(search);
    forall k | 0 <= k < |g| ensures !Contains(g[k], n) {
      if k < 5 {
        assert |g[k]| <= 4;
      }
    }
  }

  /**
   * `--verbose` occurs in the builtins command exactly when `verbose` is
   * set, and `--by-module` exactly when `by_module` is set, provided the
   * search term does not itself spell the flag.
   */
  lemma BuiltinsFlagsIff(a: BuiltinsArgs)
    requires a.search.None? || (!Contains(a.search.value, "--verbose") && !Contains(a.search.value, "--by-module"))
    ensures Contains(BuiltinsArgsString(a), "--verbose") <==> a.verbose
    ensures Contains(BuiltinsArgsString(a), "--by-module") <==> a.byModule
  {
    BuiltinsTokensJoin(a);
    BuiltinsTokensFlagsIff(a);
  }

  /** The flag iff stated on the token view of the builtins command. */
  lemma {:induction false} BuiltinsTokensFlagsIff(a: BuiltinsArgs)
    requires a.search.None? || (!Contains(a.search.value, "--verbose") && !Contains(a.search.value, "--by-module"))
    ensures Contains(Join(BuiltinsTokens(a), ' '), "--verbose") <==> a.verbose
    ensures Contains(Join(BuiltinsTokens(a), ' '), "--by-module") <==> a.byModule
  {
    var t := BuiltinsTokens(a);
    var f := FlagTokens(a.verbose, a.byModule);
    var g := if HasSearch(a.search) then GrepTokens(a.search.value) else [];
    assert t == f + g;
    var v, m := "--verbose", "--by-module";
    ContainsSelf(v);
    ContainsSelf(m);
    ByModuleLacksVerbose();
    if HasSearch(a.search) {
      GrepTokensLack(a.search.value, v);
      GrepTokensLack(a.search.value, m);
    }
    if a.verbose {
      assert t[2] == v;
      JoinHas(t, ' ', v, 2);
    } else {
      forall k | 0 <= k < |t| ensures !Contains(t[k], v) {
        if k < |f| {
          assert t[k] == f[k];
          assert t[k] == "builtins" || t[k] == "list" || t[k] == m;
        } else {
          assert t[k] == g[k - |f|];
        }
      }
      JoinLacks(t, ' ', v);
    }
    if a.byModule {
      assert t[|f| - 1] == m;
      JoinHas(t, ' ', m, |f| - 1);
    } else {
      forall k | 0 <= k < |t| ensures !Contains(t[k], m) {
        if k < |f| {
          assert t[k] == f[k];
          assert |t[k]| < |m|;
        } else {
          assert t[k] == g[k - |f|];
        }
      }
      JoinLacks(t, ' ', m);
    }
  }

  // ---------------------------------------------------------------- eval

  /** The number of single quotes in `s`. */
  function QuoteCount(s: string): nat {
    if s == [] then 0 else (if s[0] == '\'' then 1 else 0) + QuoteCount(s[1..])
  }

  /**
   * The global replacement the eval handler applies to its expression: every
   * single quote becomes a backslash followed by the quote; every other
   * character is copied.
   */
  function EscapeQuotes(s: string): (r: string)
    ensures |r| == |s| + QuoteCount(s)
    ensures forall i :: 0 <= i < |r| && r[i] == '\'' ==> 0 < i && r[i - 1] == '\\'
  {
    if s == [] then []
    else (if s[0] == '\'' then "\\'" else [s[0]]) + EscapeQuotes(s[1..])
  }

  /** Reads an escaped string back: a backslash directly before a quote is dropped. */
  function UnescapeQuotes(t: string): string {
    if t == [] then []
    else if |t| >= 2 && t[0] == '\\' && t[1] == '\'' then "'" + UnescapeQuotes(t[2..])
    else [t[0]] + UnescapeQuotes(t[1..])
  }

  /** The replacement loses nothing: the original expression can be read back. */
  lemma {:induction false} UnescapeEscape(s: string)
    ensures UnescapeQuotes(EscapeQuotes(s)) == s
  {
    if s != [] {
      var rest := EscapeQuotes(s[1..]);
      UnescapeEscape(s[1..]);
      if s[0] == '\'' {
        assert EscapeQuotes(s) == "\\'" + rest;
        assert EscapeQuotes(s)[2..] == rest;
      } else {
        assert EscapeQuotes(s) == [s[0]] + rest;
        assert EscapeQuotes(s)[1..] == rest;
        assert |rest| > 0 ==> rest[0] != '\'';
      }
    }
  }

  /** A string without quotes is left as it is. */
  lemma {:induction false} EscapeWithoutQuotes(s: string)
    requires '\'' !in s
    ensures EscapeQuotes(s) == s
  {
    if s != [] {
      assert s[0] != '\'' && '\'' !in s[1..];
      EscapeWithoutQuotes(s[1..]);
    }
  }

  /** The replacement works character by character, so it distributes over concatenation. */
  lemma {:induction false} EscapeAppend(s: string, t: string)
    ensures EscapeQuotes(s + t) == EscapeQuotes(s) + EscapeQuotes(t)
  {
    if s != [] {
      assert (s + t)[0] == s[0] && (s + t)[1..] == s[1..] + t;
      EscapeAppend(s[1..], t);
    } else {
      assert s + t == t;
    }
  }

  /** The text after the escaped expression in the eval shell command. */
  const EvalTail: string := "' | ailang repl --non-interactive"

  /**
   * The shell command of `ailang_eval`: the escaped expression between single
   * quotes, echoed into the non-interactive REPL.
   */
  function EvalCommand(expression: string): (r: string)
    ensures |r| == 6 + |expression| + QuoteCount(expression) + |EvalTail|
    ensures r[..6] == "echo '" && r[|r| - |EvalTail|..] == EvalTail
    ensures r[6..|r| - |EvalTail|] == EscapeQuotes(expression)
  {
    "echo '" + EscapeQuotes(expression) + EvalTail
  }

  /**
   * The text between `echo '` and the REPL pipe reads back as the expression
   * under `UnescapeQuotes`. This is a statement about the replacement only,
   * not about how a shell reads the quotes.
   */
  lemma EvalCommandRecovers(expression: string)
    ensures var c := EvalCommand(expression);
      UnescapeQuotes(c[6..|c| - |EvalTail|]) == expression
  {
    UnescapeEscape(expression);
  }

  /**
   * Whatever the other arguments, setting `ai_stub` puts `--ai-stub` in the
   * run command.
   */
  lemma RunStubFlagPresent(a: RunArgs)
    ensures a.aiStub ==> Contains(RunArgsString(a), "--ai-stub")
  {
    if a.aiStub {
      RunTokensJoin(a);
      ContainsSelf("--ai-stub");
      JoinHas(RunTokens(a), ' ', "--ai-stub", 5);
    }
  }
}
