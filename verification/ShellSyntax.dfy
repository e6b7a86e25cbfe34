/**
 waf-tools/shellcmd.py, the nodes of a pipeline and `Pipeline.parse`: a state machine over the
 tokens of a command line. Splitting a string into tokens is not part of this model.
 */
module ShellSyntax {
  import opened Sequences

  datatype Stdout = Inherited | ToPipe | ToFile(file: string)

  datatype Stderr = ErrInherited | ErrToStdout | ErrToFile(file: string)

  /** The environment is a dictionary in insertion order; the empty one stands for no dictionary at all. */
  type Env = seq<(string, string)>

  datatype Command = Command(
    name: string,
    argv: seq<string>,
    stdin: Option<string>,
    stdout: Stdout,
    stderr: Stderr,
    env: Env)

  datatype Node = Cmd(command: Command) | Chdir(dir: Option<string>) | Pipe | And | Or

  datatype Mode = Begin | InCommand | InChdir | NeedStderr | NeedStdout | NeedStdin | Failed

  datatype Parser = Parser(mode: Mode, env: Env, current: Option<Node>, pipeline: seq<Node>)

  datatype ParseResult = Parsed(nodes: seq<Node>) | AssertionError

  // ---------------------------------------------------------------- environment words

  predicate IsNameChar(c: char) {
    'a' <= c <= 'z' || 'A' <= c <= 'Z' || '0' <= c <= '9' || c == '_'
  }

  /** White space in a text string, beyond ASCII too. */
  predicate IsSpace(c: char) {
    || '\t' <= c <= '\r' || '\U{1c}' <= c <= ' ' || c == '\U{85}' || c == '\U{a0}' || c == '\U{1680}'
    || '\U{2000}' <= c <= '\U{200a}' || c == '\U{2028}' || c == '\U{2029}' || c == '\U{202f}'
    || c == '\U{205f}' || c == '\U{3000}'
  }

  predicate IsEnvName(s: string) {
    s != [] && forall i :: 0 <= i < |s| ==> IsNameChar(s[i])
  }

  predicate IsEnvValue(s: string) {
    s != [] && forall i :: 0 <= i < |s| ==> !IsSpace(s[i])
  }

  function FirstEquals(s: string): (i: nat)
    ensures i <= |s| && (i < |s| ==> s[i] == '=')
    ensures forall j :: 0 <= j < i ==> s[j] != '='
  {
    if s == [] || s[0] == '=' then 0
    else
      var i := FirstEquals(s[1..]);
      assert forall j :: 1 <= j < i + 1 ==> s[j] == s[1..][j - 1];
      i + 1
  }

  /** The pattern NAME=VALUE; its end anchor also matches before one final newline. */
  function MatchEnv(token: string): Option<(string, string)> {
    var body := if token != [] && token[|token| - 1] == '\n' then token[..|token| - 1] else token;
    var i := FirstEquals(body);
    if i < |body| && IsEnvName(body[..i]) && IsEnvValue(body[i + 1..]) then Some((body[..i], body[i + 1..])) else None
  }

  function EnvWord(name: string, value: string): string {
    name + "=" + value
  }

  predicate HasKey(env: Env, name: string) {
    env != [] && (env[|env| - 1].0 == name || HasKey(env[..|env| - 1], name))
  }

  /** Assigning to a dictionary: a known key keeps its place, a new one goes to the end. */
  function SetEnv(env: Env, name: string, value: string): Env {
    if !HasKey(env, name) then env + [(name, value)]
    else
      var front, last := env[..|env| - 1], env[|env| - 1];
      if last.0 == name then front + [(name, value)] else SetEnv(front, name, value) + [last]
  }

  /** Names and values match the pattern, and no name occurs twice. */
  ghost predicate EnvOk(env: Env) {
    env != [] ==>
      var front, last := env[..|env| - 1], env[|env| - 1];
      EnvOk(front) && IsEnvName(last.0) && IsEnvValue(last.1) && !HasKey(front, last.0)
  }

  // ---------------------------------------------------------------- the state machine

  /** The tokens that mean something other than a word while a command is being read. */
  datatype Kind = ToOut | ToErr | ErrToOut | FromIn | Bar | AndAnd | OrOr | Word

  function KindOf(token: string): Kind {
    if token == ">" then ToOut
    else if token == "2>" then ToErr
    else if token == "2>&1" then ErrToOut
    else if token == "<" then FromIn
    else if token == "|" then Bar
    else if token == "&&" then AndAnd
    else if token == "||" then OrOr
    else Word
  }

  function NewCommand(name: string, env: Env): Node {
    Cmd(Command(name, [name], None, Inherited, ErrInherited, env))
  }

  function Commit(p: Parser, op: Node): Parser
    requires p.current.Some?
  {
    p.(mode := Begin, current := None, pipeline := p.pipeline + [p.current.value, op])
  }

  function WithCommand(p: Parser, mode: Mode, c: Command): Parser {
    p.(mode := mode, current := Some(Cmd(c)))
  }

  /** The mode and the current node agree. */
  predicate ModeOk(p: Parser) {
    match p.mode
    case Begin => p.current.None?
    case InChdir => p.current.Some? && p.current.value.Chdir?
    case Failed => true
    case _ => p.current.Some? && p.current.value.Cmd?
  }

  function FeedCommand(p: Parser, token: string, kind: Kind): Parser
    requires ModeOk(p) && p.mode.InCommand?
  {
    var c := p.current.value.command;
    match kind
    case ToOut => p.(mode := NeedStdout)
    case ToErr => p.(mode := NeedStderr)
    case ErrToOut =>
      if c.stderr.ErrInherited? then WithCommand(p, InCommand, c.(stderr := ErrToStdout)) else p.(mode := Failed)
    case FromIn => p.(mode := NeedStdin)
    case Bar =>
      if c.stdout.Inherited? then Commit(WithCommand(p, InCommand, c.(stdout := ToPipe)), Pipe) else p.(mode := Failed)
    case AndAnd => Commit(p, And)
    case OrOr => Commit(p, Or)
    case Word => WithCommand(p, InCommand, c.(argv := c.argv + [token]))
  }

  /** One turn of the token loop; a failed assertion leaves the machine in `Failed` for good. */
  function Feed(p: Parser, token: string): (q: Parser)
    requires ModeOk(p)
    ensures ModeOk(q)
  {
    match p.mode
    case Begin =>
      var m := MatchEnv(token);
      if m.Some? then p.(env := SetEnv(p.env, m.value.0, m.value.1))
      else if token == "cd" then
        p.(mode := if p.env == [] then InChdir else Failed, current := Some(Chdir(None)))
      else p.(mode := InCommand, env := [], current := Some(NewCommand(token, p.env)))
    case InCommand => FeedCommand(p, token, KindOf(token))
    case InChdir =>
      if KindOf(token).AndAnd? then Commit(p, And)
      else if p.current.value.dir.None? then p.(current := Some(Chdir(Some(token))))
      else p.(mode := Failed)
    case NeedStdout =>
      var c := p.current.value.command;
      if c.stdout.Inherited? then WithCommand(p, InCommand, c.(stdout := ToFile(token))) else p.(mode := Failed)
    case NeedStderr =>
      var c := p.current.value.command;
      if c.stderr.ErrInherited? then WithCommand(p, InCommand, c.(stderr := ErrToFile(token))) else p.(mode := Failed)
    case NeedStdin =>
      var c := p.current.value.command;
      if c.stdin.None? then WithCommand(p, InCommand, c.(stdin := Some(token))) else p.(mode := Failed)
    case Failed => p
  }

  function FeedAll(p: Parser, tokens: seq<string>): (q: Parser)
    requires ModeOk(p)
    ensures ModeOk(q)
    decreases |tokens|
  {
    if tokens == [] then p else FeedAll(Feed(p, tokens[0]), tokens[1..])
  }

  const START := Parser(Begin, [], None, [])

  /** The last commit needs a current command. */
  function Finish(p: Parser): ParseResult {
    if p.mode.Failed? || p.current.None? then AssertionError else Parsed(p.pipeline + [p.current.value])
  }

  function Parse(tokens: seq<string>): ParseResult {
    Finish(FeedAll(START, tokens))
  }

  lemma {:induction false} FailedStays(p: Parser, tokens: seq<string>)
    requires p.mode.Failed?
    ensures FeedAll(p, tokens) == p
  {
    if tokens != [] {
      FailedStays(p, tokens[1..]);
    }
  }

  lemma {:induction false} FeedConcat(p: Parser, a: seq<string>, b: seq<string>)
    requires ModeOk(p)
    ensures FeedAll(p, a + b) == FeedAll(FeedAll(p, a), b)
    decreases |a|
  {
    if a == [] {
      assert a + b == b;
    } else {
      assert (a + b)[0] == a[0] && (a + b)[1..] == a[1..] + b;
      FeedConcat(Feed(p, a[0]), a[1..], b);
    }
  }

  // ---------------------------------------------------------------- well-formed pipelines

  predicate WordOk(w: string) {
    KindOf(w).Word?
  }

  ghost predicate CommandOk(c: Command) {
    && c.argv != [] && c.argv[0] == c.name
    && MatchEnv(c.name).None? && c.name != "cd"
    && (forall i :: 1 <= i < |c.argv| ==> WordOk(c.argv[i]))
    && EnvOk(c.env)
  }

  predicate IsOperator(n: Node) {
    n.Pipe? || n.And? || n.Or?
  }

  /** A `cd` is followed by && only; a command's output is a pipe exactly when a pipe follows. */
  ghost predicate OperandOk(n: Node, next: Option<Node>) {
    match n
    case Chdir(dir) => (dir.Some? ==> !KindOf(dir.value).AndAnd?) && (next.Some? ==> next.value.And?)
    case Cmd(c) => CommandOk(c) && (c.stdout.ToPipe? <==> next == Some(Pipe))
    case _ => false
  }

  /** Operands and operators in turn: what has been committed when the next command begins. */
  ghost predicate Open(nodes: seq<Node>) {
    nodes == [] ||
    (var n := |nodes| - 2;
     && n >= 0
     && Open(nodes[..n])
     && OperandOk(nodes[n], Some(nodes[n + 1]))
     && IsOperator(nodes[n + 1]))
  }

  ghost predicate WellFormed(nodes: seq<Node>) {
    nodes != [] && Open(nodes[..|nodes| - 1]) && OperandOk(nodes[|nodes| - 1], None)
  }

  // ---------------------------------------------------------------- printing

  function OpWord(n: Node): string
    requires IsOperator(n)
  {
    match n
    case Pipe => "|"
    case And => "&&"
    case Or => "||"
  }

  function PrintEnv(env: Env): seq<string> {
    if env == [] then [] else PrintEnv(env[..|env| - 1]) + [EnvWord(env[|env| - 1].0, env[|env| - 1].1)]
  }

  function PrintStdin(f: Option<string>): seq<string> {
    if f.Some? then ["<", f.value] else []
  }

  /** A pipe is printed by the operator that follows. */
  function PrintStdout(o: Stdout): seq<string> {
    if o.ToFile? then [">", o.file] else []
  }

  function PrintStderr(e: Stderr): seq<string> {
    match e
    case ErrInherited => []
    case ErrToStdout => ["2>&1"]
    case ErrToFile(f) => ["2>", f]
  }

  function PrintCommand(c: Command): seq<string> {
    PrintEnv(c.env) + c.argv + PrintStdin(c.stdin) + PrintStdout(c.stdout) + PrintStderr(c.stderr)
  }

  function PrintOperand(n: Node): seq<string>
    requires !IsOperator(n)
  {
    match n
    case Chdir(dir) => if dir.Some? then ["cd", dir.value] else ["cd"]
    case Cmd(c) => PrintCommand(c)
  }

  function PrintOpen(nodes: seq<Node>): seq<string>
    requires Open(nodes)
  {
    if nodes == [] then []
    else
      var n := |nodes| - 2;
      PrintOpen(nodes[..n]) + PrintOperand(nodes[n]) + [OpWord(nodes[n + 1])]
  }

  function Print(nodes: seq<Node>): seq<string>
    requires WellFormed(nodes)
  {
    PrintOpen(nodes[..|nodes| - 1]) + PrintOperand(nodes[|nodes| - 1])
  }

  // ---------------------------------------------------------------- parsing what was printed

  lemma EnvWordMatches(name: string, value: string)
    requires IsEnvName(name) && IsEnvValue(value)
    ensures MatchEnv(EnvWord(name, value)) == Some((name, value))
  {
    var token := EnvWord(name, value);
    assert token[|token| - 1] == value[|value| - 1];
    assert token[|name|] == '=';
    assert forall j :: 0 <= j < |name| ==> token[j] == name[j] && IsNameChar(token[j]);
    assert FirstEquals(token) == |name|;
    assert token[..|name|] == name && token[|name| + 1..] == value;
  }

  lemma WordOfMatch(token: string)
    requires MatchEnv(token).Some?
    ensures var m := MatchEnv(token).value;
            && IsEnvName(m.0) && IsEnvValue(m.1)
            && (token == EnvWord(m.0, m.1) || token == EnvWord(m.0, m.1) + "\n")
  {
    var body := if token[|token| - 1] == '\n' then token[..|token| - 1] else token;
    var i := FirstEquals(body);
    assert body == body[..i] + "=" + body[i + 1..];
    assert token == body || token == body + "\n";
  }

  lemma MatchWithNewline(name: string, value: string)
    requires IsEnvName(name) && IsEnvValue(value)
    ensures MatchEnv(EnvWord(name, value) + "\n") == Some((name, value))
  {
    var word := EnvWord(name, value);
    EnvWordMatches(name, value);
    assert word[|word| - 1] == value[|value| - 1] != '\n';
    assert (word + "\n")[..|word|] == word;
  }

  /** Exactly NAME=VALUE, with or without a final newline, sets a variable. */
  lemma MatchEnvIff(token: string, name: string, value: string)
    ensures MatchEnv(token) == Some((name, value))
       <==> IsEnvName(name) && IsEnvValue(value) && (token == EnvWord(name, value) || token == EnvWord(name, value) + "\n")
  {
    if MatchEnv(token).Some? {
      WordOfMatch(token);
    }
    if IsEnvName(name) && IsEnvValue(value) {
      EnvWordMatches(name, value);
      MatchWithNewline(name, value);
    }
  }

  lemma EnvAppend(env: Env, e: (string, string))
    ensures HasKey(env + [e], e.0)
    ensures EnvOk(env + [e]) <==> EnvOk(env) && IsEnvName(e.0) && IsEnvValue(e.1) && !HasKey(env, e.0)
    ensures forall k :: HasKey(env + [e], k) <==> k == e.0 || HasKey(env, k)
  {
    assert (env + [e])[..|env|] == env;
  }

  lemma {:induction false} SetEnvKeepsOk(env: Env, name: string, value: string)
    requires EnvOk(env) && IsEnvName(name) && IsEnvValue(value)
    ensures EnvOk(SetEnv(env, name, value))
    ensures forall k :: HasKey(SetEnv(env, name, value), k) <==> k == name || HasKey(env, k)
  {
    if !HasKey(env, name) {
      EnvAppend(env, (name, value));
    } else {
      var front, last := env[..|env| - 1], env[|env| - 1];
      if last.0 == name {
        EnvAppend(front, (name, value));
      } else {
        SetEnvKeepsOk(front, name, value);
        EnvAppend(SetEnv(front, name, value), last);
      }
    }
  }

  /** The set name has the new value in its old place, or comes last; every other name keeps place and value. */
  lemma {:induction false} SetEnvSets(env: Env, name: string, value: string)
    requires EnvOk(env)
    ensures |SetEnv(env, name, value)| == |env| + if HasKey(env, name) then 0 else 1
    ensures forall i :: 0 <= i < |env| ==> SetEnv(env, name, value)[i] == if env[i].0 == name then (name, value) else env[i]
    ensures !HasKey(env, name) ==> SetEnv(env, name, value)[|env|] == (name, value)
    decreases |env|
  {
    if env != [] {
      var front, last := env[..|env| - 1], env[|env| - 1];
      assert forall i :: 0 <= i < |env| - 1 ==> front[i] == env[i];
      SetEnvSets(front, name, value);
      KeyIff(front, name);
      KeyIff(front, last.0);
    }
  }

  lemma {:induction false} KeyIff(env: Env, name: string)
    ensures HasKey(env, name) <==> exists i :: 0 <= i < |env| && env[i].0 == name
    decreases |env|
  {
    if env != [] {
      var front := env[..|env| - 1];
      KeyIff(front, name);
      assert forall i :: 0 <= i < |env| - 1 ==> front[i] == env[i];
      if i :| 0 <= i < |env| && env[i].0 == name {
        assert i == |env| - 1 || front[i].0 == name;
      }
    }
  }

  lemma {:induction false} FeedEnv(p: Parser, env: Env)
    requires p.mode.Begin? && p.current.None? && p.env == [] && EnvOk(env)
    ensures FeedAll(p, PrintEnv(env)) == p.(env := env)
  {
    if env != [] {
      var front, last := env[..|env| - 1], env[|env| - 1];
      FeedEnv(p, front);
      FeedConcat(p, PrintEnv(front), [EnvWord(last.0, last.1)]);
      FeedEnvWord(p.(env := front), last.0, last.1);
      LastBack(env);
    }
  }

  lemma LastBack(env: Env)
    requires env != []
    ensures env[..|env| - 1] + [(env[|env| - 1].0, env[|env| - 1].1)] == env
  {
  }

  lemma FeedEnvWord(p: Parser, name: string, value: string)
    requires p.mode.Begin? && p.current.None? && IsEnvName(name) && IsEnvValue(value)
    ensures FeedAll(p, [EnvWord(name, value)]) == p.(env := SetEnv(p.env, name, value))
  {
    EnvWordMatches(name, value);
    FeedOne(p, EnvWord(name, value));
  }

  lemma FeedOne(p: Parser, token: string)
    requires ModeOk(p)
    ensures FeedAll(p, [token]) == Feed(p, token)
  {
  }

  lemma FeedTwo(p: Parser, a: string, b: string)
    requires ModeOk(p)
    ensures FeedAll(p, [a, b]) == Feed(Feed(p, a), b)
  {
    FeedConcat(p, [a], [b]);
    assert [a, b] == [a] + [b];
    FeedOne(p, a);
    FeedOne(Feed(p, a), b);
  }

  lemma {:induction false} FeedWords(p: Parser, words: seq<string>)
    requires ModeOk(p) && p.mode.InCommand?
    requires forall i :: 0 <= i < |words| ==> WordOk(words[i])
    ensures var c := p.current.value.command;
            FeedAll(p, words) == WithCommand(p, InCommand, c.(argv := c.argv + words))
  {
    var c := p.current.value.command;
    if words == [] {
      assert c.argv + words == c.argv;
    } else {
      var front, last := words[..|words| - 1], words[|words| - 1];
      FeedWords(p, front);
      FeedConcat(p, front, [last]);
      assert words == front + [last];
      var q := WithCommand(p, InCommand, c.(argv := c.argv + front));
      FeedOne(q, last);
      assert c.argv + front + [last] == c.argv + words;
    }
  }

  lemma FeedStdin(p: Parser, stdin: Option<string>)
    requires ModeOk(p) && p.mode.InCommand? && p.current.value.command.stdin.None?
    ensures FeedAll(p, PrintStdin(stdin)) == WithCommand(p, InCommand, p.current.value.command.(stdin := stdin))
  {
    if stdin.Some? {
      FeedTwo(p, "<", stdin.value);
    }
  }

  function Unpiped(o: Stdout): Stdout {
    if o.ToPipe? then Inherited else o
  }

  lemma FeedStdout(p: Parser, stdout: Stdout)
    requires ModeOk(p) && p.mode.InCommand? && p.current.value.command.stdout.Inherited?
    ensures FeedAll(p, PrintStdout(stdout)) == WithCommand(p, InCommand, p.current.value.command.(stdout := Unpiped(stdout)))
  {
    if stdout.ToFile? {
      FeedTwo(p, ">", stdout.file);
    }
  }

  lemma FeedStderr(p: Parser, stderr: Stderr)
    requires ModeOk(p) && p.mode.InCommand? && p.current.value.command.stderr.ErrInherited?
    ensures FeedAll(p, PrintStderr(stderr)) == WithCommand(p, InCommand, p.current.value.command.(stderr := stderr))
  {
    match stderr {
      case ErrInherited =>
      case ErrToStdout => FeedOne(p, "2>&1");
      case ErrToFile(f) => FeedTwo(p, "2>", f);
    }
  }

  lemma FeedRedirects(p: Parser, stdin: Option<string>, stdout: Stdout, stderr: Stderr)
    requires ModeOk(p) && p.mode.InCommand?
    requires p.current.value.command.stdin.None? && p.current.value.command.stdout.Inherited?
    requires p.current.value.command.stderr.ErrInherited?
    ensures var c := p.current.value.command;
            FeedAll(p, PrintStdin(stdin) + PrintStdout(stdout) + PrintStderr(stderr))
            == WithCommand(p, InCommand, c.(stdin := stdin, stdout := Unpiped(stdout), stderr := stderr))
  {
    FeedStdin(p, stdin);
    var a := FeedAll(p, PrintStdin(stdin));
    FeedStdout(a, stdout);
    FeedStderr(FeedAll(a, PrintStdout(stdout)), stderr);
    FeedConcat(p, PrintStdin(stdin), PrintStdout(stdout));
    FeedConcat(p, PrintStdin(stdin) + PrintStdout(stdout), PrintStderr(stderr));
  }

  /** The command word opens a command with the environment gathered before it; the rest are arguments. */
  lemma FeedArgv(p: Parser, c: Command)
    requires p.mode.Begin? && p.current.None? && p.env == c.env && CommandOk(c)
    ensures FeedAll(p, c.argv)
         == p.(mode := InCommand, env := [],
               current := Some(Cmd(Command(c.name, c.argv, None, Inherited, ErrInherited, c.env))))
  {
    assert [c.name] + c.argv[1..] == c.argv;
    FeedConcat(p, [c.name], c.argv[1..]);
    FeedOne(p, c.name);
    FeedWords(Feed(p, c.name), c.argv[1..]);
  }

  /** Feeding a printed command rebuilds it, except for a pipe that is still to come. */
  lemma FeedPrintedCommand(p: Parser, c: Command)
    requires p.mode.Begin? && p.current.None? && p.env == [] && CommandOk(c)
    ensures FeedAll(p, PrintCommand(c)) == WithCommand(p, InCommand, c.(stdout := Unpiped(c.stdout)))
  {
    var redirects := PrintStdin(c.stdin) + PrintStdout(c.stdout) + PrintStderr(c.stderr);
    FeedEnv(p, c.env);
    FeedConcat(p, PrintEnv(c.env), c.argv);
    FeedArgv(p.(env := c.env), c);
    FeedRedirects(FeedAll(p, PrintEnv(c.env) + c.argv), c.stdin, c.stdout, c.stderr);
    FeedConcat(p, PrintEnv(c.env) + c.argv, redirects);
    PrintedParts(c);
  }

  lemma PrintedParts(c: Command)
    ensures PrintCommand(c)
         == (PrintEnv(c.env) + c.argv) + (PrintStdin(c.stdin) + PrintStdout(c.stdout) + PrintStderr(c.stderr))
  {
  }

  /** After a printed operand the machine is ready to commit it. */
  ghost predicate HoldsOperand(p: Parser, q: Parser, n: Node)
    requires !IsOperator(n)
  {
    match n
    case Chdir(_) => q == p.(mode := InChdir, current := Some(n))
    case Cmd(c) => q == WithCommand(p, InCommand, c.(stdout := Unpiped(c.stdout)))
  }

  lemma FeedPrintedOperand(p: Parser, n: Node, next: Option<Node>)
    requires p.mode.Begin? && p.current.None? && p.env == [] && OperandOk(n, next)
    ensures HoldsOperand(p, FeedAll(p, PrintOperand(n)), n)
  {
    match n
    case Chdir(dir) =>
      if dir.Some? {
        FeedTwo(p, "cd", dir.value);
      } else {
        FeedOne(p, "cd");
      }
    case Cmd(c) => FeedPrintedCommand(p, c);
  }

  lemma LastTwo(nodes: seq<Node>)
    requires |nodes| >= 2
    ensures nodes[..|nodes| - 2] + [nodes[|nodes| - 2], nodes[|nodes| - 1]] == nodes
  {
  }

  lemma {:induction false} FeedPrintedOpen(nodes: seq<Node>)
    requires Open(nodes)
    ensures FeedAll(START, PrintOpen(nodes)) == START.(pipeline := nodes)
  {
    if nodes != [] {
      LastTwo(nodes);
      var n := |nodes| - 2;
      FeedPrintedOpen(nodes[..n]);
      FeedPrintedPair(PrintOpen(nodes[..n]), START.(pipeline := nodes[..n]), nodes[n], nodes[n + 1]);
    }
  }

  lemma FeedPrintedPair(tokens: seq<string>, p: Parser, n: Node, op: Node)
    requires p.mode.Begin? && p.current.None? && p.env == [] && FeedAll(START, tokens) == p
    requires OperandOk(n, Some(op)) && IsOperator(op)
    ensures FeedAll(START, tokens + PrintOperand(n) + [OpWord(op)]) == p.(pipeline := p.pipeline + [n, op])
  {
    FeedPrintedOperand(p, n, Some(op));
    FeedConcat(START, tokens, PrintOperand(n));
    FeedConcat(START, tokens + PrintOperand(n), [OpWord(op)]);
    CommitPrinted(p, FeedAll(p, PrintOperand(n)), n, op);
  }

  lemma CommitPrinted(p: Parser, q: Parser, n: Node, op: Node)
    requires p.mode.Begin? && p.current.None? && p.env == [] && ModeOk(q)
    requires OperandOk(n, Some(op)) && IsOperator(op) && HoldsOperand(p, q, n)
    ensures FeedAll(q, [OpWord(op)]) == p.(pipeline := p.pipeline + [n, op])
  {
    FeedOne(q, OpWord(op));
  }

  lemma FinishPrinted(tokens: seq<string>, p: Parser, n: Node)
    requires p.mode.Begin? && p.current.None? && p.env == [] && FeedAll(START, tokens) == p
    requires OperandOk(n, None)
    ensures Parse(tokens + PrintOperand(n)) == Parsed(p.pipeline + [n])
  {
    FeedPrintedOperand(p, n, None);
    FeedConcat(START, tokens, PrintOperand(n));
  }

  lemma ParsePrintedParts(front: seq<Node>, last: Node)
    requires Open(front) && OperandOk(last, None)
    ensures Parse(PrintOpen(front) + PrintOperand(last)) == Parsed(front + [last])
  {
    FeedPrintedOpen(front);
    FinishPrinted(PrintOpen(front), START.(pipeline := front), last);
  }

  /** Parsing inverts printing on every well-formed pipeline. */
  lemma ParseInvertsPrint(nodes: seq<Node>)
    requires WellFormed(nodes)
    ensures Parse(Print(nodes)) == Parsed(nodes)
  {
    ParsePrintedParts(nodes[..|nodes| - 1], nodes[|nodes| - 1]);
    LastOf(nodes);
  }

  // ---------------------------------------------------------------- examples

  lemma SetTwice(name: string, a: string, b: string)
    ensures SetEnv([(name, a)], name, b) == [(name, b)] && SetEnv([], name, a) == [(name, a)]
  {
  }

  lemma FeedTwoValues(name: string, a: string, b: string)
    requires IsEnvName(name) && IsEnvValue(a) && IsEnvValue(b)
    ensures FeedAll(START, [EnvWord(name, a)] + [EnvWord(name, b)]) == START.(env := [(name, b)])
  {
    SetTwice(name, a, b);
    FeedEnvWord(START, name, a);
    FeedEnvWord(START.(env := [(name, a)]), name, b);
    FeedConcat(START, [EnvWord(name, a)], [EnvWord(name, b)]);
  }

  lemma ParseThen(tokens: seq<string>, p: Parser, token: string)
    requires ModeOk(p) && FeedAll(START, tokens) == p
    ensures Parse(tokens + [token]) == Finish(Feed(p, token))
  {
    FeedConcat(START, tokens, [token]);
    FeedOne(p, token);
  }

  /** Of two values given to one name before a command, the later one counts. */
  lemma LaterValueCounts(name: string, a: string, b: string, command: string)
    requires IsEnvName(name) && IsEnvValue(a) && IsEnvValue(b) && MatchEnv(command).None? && command != "cd"
    ensures Parse([EnvWord(name, a)] + [EnvWord(name, b)] + [command])
         == Parsed([Cmd(Command(command, [command], None, Inherited, ErrInherited, [(name, b)]))])
  {
    FeedTwoValues(name, a, b);
    ParseThen([EnvWord(name, a)] + [EnvWord(name, b)], START.(env := [(name, b)]), command);
  }

  /** The words that are not arguments, and what each does to the command. */
  lemma RedirectionWords(p: Parser, file: string)
    requires ModeOk(p) && p.mode.InCommand?
    requires p.current.value.command.stdin.None? && p.current.value.command.stdout.Inherited?
    requires p.current.value.command.stderr.ErrInherited?
    ensures var c := p.current.value.command;
            && FeedAll(p, ["<", file]) == p.(current := Some(Cmd(c.(stdin := Some(file)))))
            && FeedAll(p, [">", file]) == p.(current := Some(Cmd(c.(stdout := ToFile(file)))))
            && FeedAll(p, ["2>", file]) == p.(current := Some(Cmd(c.(stderr := ErrToFile(file)))))
            && FeedAll(p, ["2>&1"]) == p.(current := Some(Cmd(c.(stderr := ErrToStdout))))
  {
    FeedTwo(p, "<", file);
    FeedTwo(p, ">", file);
    FeedTwo(p, "2>", file);
    FeedOne(p, "2>&1");
  }

  /** The words that end a command, and the operator each puts after it. */
  lemma OperatorWords(p: Parser)
    requires ModeOk(p) && p.mode.InCommand? && p.current.value.command.stdout.Inherited?
    ensures var c, done := p.current.value.command, p.(mode := Begin, current := None);
            && FeedAll(p, ["|"]) == done.(pipeline := p.pipeline + [Cmd(c.(stdout := ToPipe)), Pipe])
            && FeedAll(p, ["&&"]) == done.(pipeline := p.pipeline + [Cmd(c), And])
            && FeedAll(p, ["||"]) == done.(pipeline := p.pipeline + [Cmd(c), Or])
  {
    FeedOne(p, "|");
    FeedOne(p, "&&");
    FeedOne(p, "||");
  }

  /** `cd` opens a node of its own, takes one directory, and is ended by && only. */
  lemma CdWords(p: Parser, dir: string)
    requires p.mode.Begin? && p.current.None? && p.env == [] && !KindOf(dir).AndAnd?
    ensures FeedAll(p, ["cd"]) == p.(mode := InChdir, current := Some(Chdir(None)))
    ensures FeedAll(p, ["cd", dir]) == p.(mode := InChdir, current := Some(Chdir(Some(dir))))
    ensures Feed(FeedAll(p, ["cd", dir]), "&&") == p.(pipeline := p.pipeline + [Chdir(Some(dir)), And])
    ensures forall word :: !KindOf(word).AndAnd? ==> Feed(FeedAll(p, ["cd", dir]), word).mode.Failed?
  {
    CdIsNoEnv();
    FeedOne(p, "cd");
    FeedTwo(p, "cd", dir);
  }

  lemma CdIsNoEnv()
    ensures MatchEnv("cd").None?
  {
    assert "cd"[0] == 'c' && "cd"[1] == 'd';
    assert FirstEquals("cd") == 2;
  }

  /** Variables before a `cd` fail. */
  lemma CdWithVariablesFails(p: Parser)
    requires p.mode.Begin? && p.current.None? && p.env != []
    ensures FeedAll(p, ["cd"]).mode.Failed?
  {
    CdIsNoEnv();
    FeedOne(p, "cd");
  }

  /** Nothing is redirected twice, and the output of a command is not both a file and a pipe. */
  lemma SecondRedirectionFails(p: Parser, file: string)
    requires ModeOk(p) && p.mode.InCommand?
    ensures var c := p.current.value.command;
            && (c.stdin.Some? ==> FeedAll(p, ["<", file]).mode.Failed?)
            && (!c.stdout.Inherited? ==> FeedAll(p, [">", file]).mode.Failed? && FeedAll(p, ["|"]).mode.Failed?)
            && (!c.stderr.ErrInherited? ==> FeedAll(p, ["2>", file]).mode.Failed? && FeedAll(p, ["2>&1"]).mode.Failed?)
  {
    FeedTwo(p, "<", file);
    FeedTwo(p, ">", file);
    FeedTwo(p, "2>", file);
    FeedOne(p, "2>&1");
    FeedOne(p, "|");
  }

  // ---------------------------------------------------------------- what parsing can return

  /** What the machine has gathered so far is the beginning of a well-formed pipeline. */
  ghost predicate ParserInv(p: Parser)
    requires ModeOk(p)
  {
    match p.mode
    case Failed => true
    case Begin => Open(p.pipeline) && EnvOk(p.env)
    case InChdir => Open(p.pipeline) && p.env == [] && OperandOk(p.current.value, None)
    case _ => Open(p.pipeline) && p.env == [] && CommandOk(p.current.value.command) && !p.current.value.command.stdout.ToPipe?
  }

  lemma OpenGrows(nodes: seq<Node>, operand: Node, op: Node)
    requires Open(nodes) && OperandOk(operand, Some(op)) && IsOperator(op)
    ensures Open(nodes + [operand, op])
  {
    assert (nodes + [operand, op])[..|nodes|] == nodes;
  }

  lemma MatchedEnvOk(token: string)
    requires MatchEnv(token).Some?
    ensures IsEnvName(MatchEnv(token).value.0) && IsEnvValue(MatchEnv(token).value.1)
  {
  }

  lemma BarKeepsInv(p: Parser, token: string)
    requires ModeOk(p) && p.mode.InCommand? && ParserInv(p)
    ensures ParserInv(FeedCommand(p, token, Bar))
  {
    OpenGrows(p.pipeline, Cmd(p.current.value.command.(stdout := ToPipe)), Pipe);
  }

  lemma WordKeepsInv(p: Parser, token: string)
    requires ModeOk(p) && p.mode.InCommand? && ParserInv(p) && WordOk(token)
    ensures ParserInv(FeedCommand(p, token, Word))
  {
  }

  lemma FeedCommandKeepsInv(p: Parser, token: string, kind: Kind)
    requires ModeOk(p) && p.mode.InCommand? && ParserInv(p) && (kind.Word? ==> WordOk(token))
    ensures ParserInv(FeedCommand(p, token, kind))
  {
    match kind
    case Bar => BarKeepsInv(p, token);
    case AndAnd => OpenGrows(p.pipeline, p.current.value, And);
    case OrOr => OpenGrows(p.pipeline, p.current.value, Or);
    case Word => WordKeepsInv(p, token);
    case _ =>
  }

  lemma FeedKeepsInv(p: Parser, token: string)
    requires ModeOk(p) && ParserInv(p)
    ensures ParserInv(Feed(p, token))
  {
    match p.mode
    case Begin =>
      if MatchEnv(token).Some? {
        MatchedEnvOk(token);
        SetEnvKeepsOk(p.env, MatchEnv(token).value.0, MatchEnv(token).value.1);
      }
    case InCommand => FeedCommandKeepsInv(p, token, KindOf(token));
    case InChdir =>
      if KindOf(token).AndAnd? {
        OpenGrows(p.pipeline, p.current.value, And);
      }
    case _ =>
  }

  lemma {:induction false} FeedAllKeepsInv(p: Parser, tokens: seq<string>)
    requires ModeOk(p) && ParserInv(p)
    ensures ParserInv(FeedAll(p, tokens))
    decreases |tokens|
  {
    if tokens != [] {
      FeedKeepsInv(p, tokens[0]);
      FeedAllKeepsInv(Feed(p, tokens[0]), tokens[1..]);
    }
  }

  /** Whatever `parse` accepts is a well-formed pipeline. */
  lemma ParsedIsWellFormed(tokens: seq<string>)
    requires Parse(tokens).Parsed?
    ensures WellFormed(Parse(tokens).nodes)
  {
    var p := FeedAll(START, tokens);
    FeedAllKeepsInv(START, tokens);
    assert (p.pipeline + [p.current.value])[..|p.pipeline|] == p.pipeline;
  }

  /** The pipelines `parse` returns are exactly the well-formed ones. */
  lemma ParseRange(nodes: seq<Node>)
    ensures (exists tokens :: Parse(tokens) == Parsed(nodes)) <==> WellFormed(nodes)
  {
    if tokens :| Parse(tokens) == Parsed(nodes) {
      ParsedIsWellFormed(tokens);
    }
    if WellFormed(nodes) {
      ParseInvertsPrint(nodes);
    }
  }
}
