/**
 waf-tools/shellcmd.py: what `Pipeline.run` means. `Eval` reads a pipeline from the left and nests
 && and || to the right; trees of && and || compare that reading with the left-associative one of
 POSIX.1-2017, Shell Command Language, sections 2.9.2 and 2.9.3.
 */
module ShellEval {
  import opened Sequences
  import opened ShellSyntax

  datatype Source = FromParent | FromFile(file: string) | FromPipe

  /** The arguments of one process start. */
  datatype Launch = Launch(
    argv: seq<string>,
    stdin: Source,
    stdout: Stdout,
    stderr: Stderr,
    env: Env,
    cwd: Option<string>)

  datatype Outcome = Status(code: int) | NoStatus | IndexError | AssertionFailed | TypeError

  /** What was started, how the run ended, and whether a chain was left that nobody waits for. */
  datatype Execution = Execution(started: seq<Launch>, outcome: Outcome, unfinished: bool)

  /** Joining a directory onto a path, as the operating system's path module does it. */
  function JoinPath(base: string, dir: string): string {
    if dir != "" && dir[0] == '/' then dir
    else if base == "" || base[|base| - 1] == '/' then base + dir
    else base + "/" + dir
  }

  function LaunchOf(c: Command, cwd: string, piped: bool): Launch {
    Launch(c.argv,
           if piped then FromPipe else if c.stdin.Some? then FromFile(c.stdin.value) else FromParent,
           c.stdout, c.stderr, c.env, if cwd == "." then None else Some(cwd))
  }

  /** The codes the processes return, in the order they are started; processes beyond the list return 0. */
  function Code(codes: seq<int>): int {
    if codes == [] then 0 else codes[0]
  }

  function Later(codes: seq<int>): seq<int> {
    if codes == [] then [] else codes[1..]
  }

  function After(launch: Launch, e: Execution): Execution {
    e.(started := [launch] + e.started)
  }

  /** What a run starts and returns: each connective decides about everything to its right. */
  function Eval(nodes: seq<Node>, cwd: string, piped: bool, codes: seq<int>): Execution
    decreases |nodes|
  {
    if nodes == [] then Execution([], NoStatus, piped)
    else
      match nodes[0]
      case Chdir(dir) =>
        if |nodes| == 1 then Execution([], IndexError, piped)
        else if !nodes[1].And? then Execution([], AssertionFailed, piped)
        else if dir.None? then Execution([], TypeError, piped)
        else Eval(nodes[2..], JoinPath(cwd, dir.value), piped, codes)
      case Cmd(c) =>
        var launch, code := LaunchOf(c, cwd, piped), Code(codes);
        if |nodes| == 1 then Execution([launch], Status(code), false)
        else (
          match nodes[1]
          case Pipe => After(launch, Eval(nodes[2..], cwd, true, Later(codes)))
          case Or =>
            if code == 0 then Execution([launch], Status(code), false)
            else After(launch, Eval(nodes[2..], cwd, false, Later(codes)))
          case And =>
            if code != 0 then Execution([launch], Status(code), false)
            else After(launch, Eval(nodes[2..], cwd, false, Later(codes)))
          case _ => After(launch, Eval(nodes[2..], cwd, piped, Later(codes)))
        )
      case _ => Execution([], AssertionFailed, piped)
  }

  // ---------------------------------------------------------------- joining directories

  /** An absolute directory starts afresh; any other one is entered from where one is. */
  lemma JoinGoesOn(base: string, dir: string)
    ensures var path := JoinPath(base, dir);
            && |path| >= |dir| && path[|path| - |dir|..] == dir
            && (dir != "" && dir[0] == '/' ==> path == dir)
            && ((dir == "" || dir[0] != '/') && base != "" ==> base <= path && path[..|path| - |dir|][|path| - |dir| - 1] == '/')
            && (base == "" ==> path == dir)
  {
  }

  function Slashed(base: string): string {
    if base == "" || base[|base| - 1] == '/' then base else base + "/"
  }

  lemma JoinIsSlashed(base: string, dir: string)
    requires dir == "" || dir[0] != '/'
    ensures JoinPath(base, dir) == Slashed(base) + dir
  {
    assert base + "/" + dir == base + ("/" + dir);
  }

  lemma SlashedLast(a: string, b: string)
    ensures b != "" ==> Slashed(a + b) == a + Slashed(b)
    ensures Slashed(Slashed(a)) == Slashed(a)
  {
    if b != "" {
      assert (a + b)[|a + b| - 1] == b[|b| - 1];
      assert a + b + "/" == a + (b + "/");
    }
  }

  /** Entering one directory after the other is entering the joined one. */
  lemma JoinAssociates(a: string, b: string, c: string)
    ensures JoinPath(JoinPath(a, b), c) == JoinPath(a, JoinPath(b, c))
  {
    if c == "" || c[0] != '/' {
      JoinIsSlashed(JoinPath(a, b), c);
      JoinIsSlashed(b, c);
      if b == "" {
        JoinIsSlashed(a, b);
        JoinIsSlashed(a, c);
        SlashedLast(a, b);
        assert Slashed(a) + "" == Slashed(a) && "" + c == c;
      } else if b[0] != '/' {
        JoinRelative(a, b, c);
      } else {
        assert JoinPath(b, c)[0] == '/';
      }
    }
  }

  lemma JoinRelative(a: string, b: string, c: string)
    requires b != "" && b[0] != '/' && (c == "" || c[0] != '/')
    ensures JoinPath(JoinPath(a, b), c) == JoinPath(a, JoinPath(b, c))
  {
    JoinIsSlashed(a, b);
    JoinIsSlashed(JoinPath(a, b), c);
    JoinIsSlashed(b, c);
    SlashedLast(Slashed(a), b);
    assert JoinPath(b, c)[0] == b[0];
    JoinIsSlashed(a, JoinPath(b, c));
    Regroup(Slashed(a), Slashed(b), c);
  }

  // ---------------------------------------------------------------- what is started, node by node

  /** Operands stand at even places. The directory one is in before the k-th: every `cd` before it, joined. */
  function DirBefore(nodes: seq<Node>, k: nat): string
    requires k <= |nodes| && k % 2 == 0
  {
    if k == 0 then "."
    else if nodes[k - 2].Chdir? && nodes[k - 2].dir.Some? then JoinPath(DirBefore(nodes, k - 2), nodes[k - 2].dir.value)
    else DirBefore(nodes, k - 2)
  }

  /** The last command before the k-th operand has a pipe after it. */
  predicate PipeBefore(nodes: seq<Node>, k: nat)
    requires k <= |nodes| && k % 2 == 0
  {
    && k > 0
    && if nodes[k - 2].Cmd? && IsOperator(nodes[k - 1]) then nodes[k - 1].Pipe? else PipeBefore(nodes, k - 2)
  }

  /** The process is the command at this place, with all its words, variables and redirections. */
  predicate StandsFor(nodes: seq<Node>, k: nat, launch: Launch) {
    && k < |nodes| && k % 2 == 0 && nodes[k].Cmd?
    && var c, dir := nodes[k].command, DirBefore(nodes, k);
    && launch.argv == c.argv && launch.env == c.env && launch.stdout == c.stdout && launch.stderr == c.stderr
    && (PipeBefore(nodes, k) ==> launch.stdin == FromPipe)
    && (!PipeBefore(nodes, k) && c.stdin.Some? ==> launch.stdin == FromFile(c.stdin.value))
    && (!PipeBefore(nodes, k) && c.stdin.None? ==> launch.stdin == FromParent)
    && (dir == "." ==> launch.cwd == None)
    && (dir != "." ==> launch.cwd == Some(dir))
  }

  ghost predicate PlacedAt(nodes: seq<Node>, launches: seq<Launch>, places: seq<nat>) {
    && |places| == |launches|
    && (forall i :: 0 <= i < |launches| ==> StandsFor(nodes, places[i], launches[i]))
    && (forall i, j :: 0 <= i < j < |places| ==> places[i] < places[j])
  }

  /** The processes stand for commands of the pipeline, in order, no command twice. */
  ghost predicate StartsInOrder(nodes: seq<Node>, launches: seq<Launch>) {
    exists places :: PlacedAt(nodes, launches, places)
  }

  lemma LaunchStandsFor(nodes: seq<Node>, k: nat)
    requires k < |nodes| && k % 2 == 0 && nodes[k].Cmd?
    ensures StandsFor(nodes, k, LaunchOf(nodes[k].command, DirBefore(nodes, k), PipeBefore(nodes, k)))
  {
  }

  lemma PlaceFirst(nodes: seq<Node>, k: nat, launch: Launch, launches: seq<Launch>, places: seq<nat>)
    requires StandsFor(nodes, k, launch) && PlacedAt(nodes, launches, places)
    requires forall i :: 0 <= i < |places| ==> k < places[i]
    ensures PlacedAt(nodes, [launch] + launches, [k] + places)
  {
  }

  /** From the k-th operand on. */
  lemma {:induction false} EvalPlaces(nodes: seq<Node>, k: nat, codes: seq<int>) returns (places: seq<nat>)
    requires k <= |nodes| && k % 2 == 0
    ensures PlacedAt(nodes, Eval(nodes[k..], DirBefore(nodes, k), PipeBefore(nodes, k), codes).started, places)
    ensures forall i :: 0 <= i < |places| ==> k <= places[i]
    decreases |nodes| - k
  {
    var rest := nodes[k..];
    places := [];
    if |rest| == 1 && rest[0].Cmd? {
      LaunchStandsFor(nodes, k);
      places := [k];
    } else if |rest| > 1 {
      assert rest[2..] == nodes[k + 2..];
      if rest[0].Cmd? {
        LaunchStandsFor(nodes, k);
        var launch := LaunchOf(rest[0].command, DirBefore(nodes, k), PipeBefore(nodes, k));
        var more := EvalPlaces(nodes, k + 2, Later(codes));
        PlaceFirst(nodes, k, launch, Eval(nodes[k + 2..], DirBefore(nodes, k + 2), PipeBefore(nodes, k + 2), Later(codes)).started, more);
        places := if (rest[1].Or? && Code(codes) == 0) || (rest[1].And? && Code(codes) != 0) then [k] else [k] + more;
      } else if rest[0].Chdir? && rest[1].And? && rest[0].dir.Some? {
        places := EvalPlaces(nodes, k + 2, codes);
      }
    }
  }

  /** Whatever a run starts stands for commands of the pipeline, in order. */
  lemma EvalStartsInOrder(nodes: seq<Node>, codes: seq<int>)
    ensures StartsInOrder(nodes, Eval(nodes, ".", false, codes).started)
  {
    var places := EvalPlaces(nodes, 0, codes);
    assert nodes[0..] == nodes;
  }

  // ---------------------------------------------------------------- well-formed pipelines from the left

  /** `WellFormed`, read from the left. */
  ghost predicate Shaped(nodes: seq<Node>) {
    && nodes != []
    && OperandOk(nodes[0], if |nodes| > 1 then Some(nodes[1]) else None)
    && (|nodes| > 1 ==> IsOperator(nodes[1]) && Shaped(nodes[2..]))
  }

  lemma SplitLastPair(a: seq<Node>, b: seq<Node>)
    requires |a| >= 2
    ensures a[..|a| - 2] + ([a[|a| - 2], a[|a| - 1]] + b) == a + b
  {
  }

  lemma {:induction false} OpenThenShaped(a: seq<Node>, b: seq<Node>)
    requires Open(a) && Shaped(b)
    ensures Shaped(a + b)
    decreases |a|
  {
    if a == [] {
      assert a + b == b;
    } else {
      var n := |a| - 2;
      assert OperandOk(a[n], Some(a[n + 1])) && IsOperator(a[n + 1]);
      OpenThenShaped(a[..n], [a[n], a[n + 1]] + b);
      SplitLastPair(a, b);
    }
  }

  lemma WellFormedIsShaped(nodes: seq<Node>)
    requires WellFormed(nodes)
    ensures Shaped(nodes)
  {
    OpenThenShaped(nodes[..|nodes| - 1], [nodes[|nodes| - 1]]);
    LastOf(nodes);
  }

  // ---------------------------------------------------------------- when a run comes to a status

  /** Each `cd` names a directory and is not the last node. */
  predicate CdsReady(nodes: seq<Node>) {
    nodes != [] ==>
      && (nodes[0].Chdir? ==> nodes[0].dir.Some? && |nodes| > 1)
      && (|nodes| > 1 ==> CdsReady(nodes[2..]))
  }

  lemma {:induction false} ReadyRunsReturn(nodes: seq<Node>, cwd: string, piped: bool, codes: seq<int>)
    requires Shaped(nodes) && CdsReady(nodes)
    ensures Eval(nodes, cwd, piped, codes).outcome.Status?
    decreases |nodes|
  {
    if |nodes| > 1 {
      match nodes[0]
      case Chdir(dir) => ReadyRunsReturn(nodes[2..], JoinPath(cwd, dir.value), piped, codes);
      case Cmd(c) =>
        ReadyRunsReturn(nodes[2..], cwd, true, Later(codes));
        ReadyRunsReturn(nodes[2..], cwd, false, Later(codes));
      case _ =>
    }
  }

  /** Codes that let every connective proceed, so that the run gets to the first bad `cd`. */
  lemma {:induction false} UnreadyRunFails(nodes: seq<Node>, cwd: string, piped: bool) returns (codes: seq<int>)
    requires Shaped(nodes) && !CdsReady(nodes)
    ensures !Eval(nodes, cwd, piped, codes).outcome.Status?
    decreases |nodes|
  {
    match nodes[0]
    case Chdir(dir) =>
      if dir.None? || |nodes| == 1 {
        codes := [];
      } else {
        codes := UnreadyRunFails(nodes[2..], JoinPath(cwd, dir.value), piped);
      }
    case Cmd(c) =>
      var rest := UnreadyRunFails(nodes[2..], cwd, nodes[1].Pipe?);
      codes := [if nodes[1].Or? then 1 else 0] + rest;
      assert Later(codes) == rest;
  }

  /** A pipeline from `parse` comes to a status whatever its commands return, exactly when its `cd`s are ready. */
  lemma AlwaysReturnsIff(nodes: seq<Node>)
    requires WellFormed(nodes)
    ensures (forall codes :: Eval(nodes, ".", false, codes).outcome.Status?) <==> CdsReady(nodes)
  {
    WellFormedIsShaped(nodes);
    if CdsReady(nodes) {
      forall codes
        ensures Eval(nodes, ".", false, codes).outcome.Status?
      {
        ReadyRunsReturn(nodes, ".", false, codes);
      }
    } else {
      var codes := UnreadyRunFails(nodes, ".", false);
    }
  }

  /** Some `cd` other than the last node has no directory. */
  ghost predicate HasBareCd(nodes: seq<Node>) {
    exists k :: 0 <= k < |nodes| - 1 && nodes[k] == Chdir(None)
  }

  /** A `cd` that ends the pipeline, or one without a directory. */
  ghost predicate Explains(nodes: seq<Node>, outcome: Outcome)
    requires nodes != []
  {
    match outcome
    case Status(_) => true
    case IndexError => nodes[|nodes| - 1].Chdir?
    case TypeError => HasBareCd(nodes)
    case _ => false
  }

  lemma ExplainsLater(nodes: seq<Node>, outcome: Outcome)
    requires |nodes| > 2 && Explains(nodes[2..], outcome)
    ensures Explains(nodes, outcome)
  {
    if outcome.TypeError? {
      var k :| 0 <= k < |nodes[2..]| - 1 && nodes[2..][k] == Chdir(None);
      assert nodes[k + 2] == Chdir(None);
    }
  }

  /** A run that does not come to a status stops at a `cd`. */
  lemma {:induction false} WhyItFails(nodes: seq<Node>, cwd: string, piped: bool, codes: seq<int>)
    requires Shaped(nodes)
    ensures Explains(nodes, Eval(nodes, cwd, piped, codes).outcome)
    decreases |nodes|
  {
    if |nodes| > 1 && nodes[0].Cmd? {
      var e := Eval(nodes[2..], cwd, nodes[1].Pipe?, Later(codes));
      WhyItFails(nodes[2..], cwd, nodes[1].Pipe?, Later(codes));
      ExplainsLater(nodes, e.outcome);
    } else if |nodes| > 1 && nodes[0].dir.Some? {
      var dir := JoinPath(cwd, nodes[0].dir.value);
      WhyItFails(nodes[2..], dir, piped, codes);
      ExplainsLater(nodes, Eval(nodes[2..], dir, piped, codes).outcome);
    } else if |nodes| > 1 {
      assert nodes[0] == Chdir(None);
    }
  }

  /** The first `cd` that is not ready, if there is one, stands in a chain: the run breaks off there. */
  predicate BreaksChain(nodes: seq<Node>, piped: bool) {
    && nodes != []
    && if nodes[0].Chdir? && (nodes[0].dir.None? || |nodes| == 1) then piped
       else |nodes| > 1 && BreaksChain(nodes[2..], nodes[1].Pipe? || (piped && nodes[0].Chdir?))
  }

  lemma {:induction false} UnbrokenFinishes(nodes: seq<Node>, cwd: string, piped: bool, codes: seq<int>)
    requires Shaped(nodes) && !BreaksChain(nodes, piped)
    ensures !Eval(nodes, cwd, piped, codes).unfinished
    decreases |nodes|
  {
    if |nodes| > 1 {
      match nodes[0]
      case Chdir(dir) =>
        if dir.Some? {
          UnbrokenFinishes(nodes[2..], JoinPath(cwd, dir.value), piped, codes);
        }
      case Cmd(_) => UnbrokenFinishes(nodes[2..], cwd, nodes[1].Pipe?, Later(codes));
    }
  }

  lemma {:induction false} BrokenLeavesChain(nodes: seq<Node>, cwd: string, piped: bool) returns (codes: seq<int>)
    requires Shaped(nodes) && BreaksChain(nodes, piped)
    ensures Eval(nodes, cwd, piped, codes).unfinished
    decreases |nodes|
  {
    match nodes[0]
    case Chdir(dir) =>
      if dir.None? || |nodes| == 1 {
        codes := [];
      } else {
        codes := BrokenLeavesChain(nodes[2..], JoinPath(cwd, dir.value), piped);
      }
    case Cmd(_) =>
      var rest := BrokenLeavesChain(nodes[2..], cwd, nodes[1].Pipe?);
      codes := [if nodes[1].Or? then 1 else 0] + rest;
      assert Later(codes) == rest;
  }

  /** A run that comes to a status leaves no chain behind. */
  lemma {:induction false} StatusFinishes(nodes: seq<Node>, cwd: string, piped: bool, codes: seq<int>)
    requires Eval(nodes, cwd, piped, codes).outcome.Status?
    ensures !Eval(nodes, cwd, piped, codes).unfinished
    decreases |nodes|
  {
    if |nodes| > 1 {
      match nodes[0]
      case Chdir(dir) => StatusFinishes(nodes[2..], JoinPath(cwd, dir.value), piped, codes);
      case Cmd(_) =>
        if !((nodes[1].Or? && Code(codes) == 0) || (nodes[1].And? && Code(codes) != 0)) {
          StatusFinishes(nodes[2..], cwd, if IsOperator(nodes[1]) then nodes[1].Pipe? else piped, Later(codes));
        }
      case _ =>
    }
  }

  /** A pipeline from `parse` leaves no chain behind, whatever its commands return, exactly when none is broken off. */
  lemma AlwaysFinishesIff(nodes: seq<Node>)
    requires WellFormed(nodes)
    ensures (forall codes :: !Eval(nodes, ".", false, codes).unfinished) <==> !BreaksChain(nodes, false)
  {
    WellFormedIsShaped(nodes);
    if BreaksChain(nodes, false) {
      var codes := BrokenLeavesChain(nodes, ".", false);
    } else {
      forall codes
        ensures !Eval(nodes, ".", false, codes).unfinished
      {
        UnbrokenFinishes(nodes, ".", false, codes);
      }
    }
  }

  // ---------------------------------------------------------------- lists of && and ||

  datatype Connective = AndThen | OrElse

  /** A place in a chain: a command, or a `cd` after a pipe. */
  datatype Link = Run(command: Command) | Go(dir: string)

  datatype Leaf = Cd(dir: string) | Chain(links: seq<Link>)

  /** A list of `cd`s and chains, as written from left to right. */
  datatype List = One(leaf: Leaf) | More(leaf: Leaf, conn: Connective, rest: List)

  datatype Tree = Tip(leaf: Leaf) | Both(conn: Connective, left: Tree, right: Tree)

  /**
   Two ways to take a `cd` after a pipe. As executed, the next command goes on with the chain, in the
   new directory. In POSIX the chain ends there, and its commands, a `cd` too, have environments of
   their own. Either way a `cd` succeeds.
   */
  datatype Reading = Executed | Posix

  function AddFirst(link: Link, list: List): List {
    var leaf := Chain([link] + if list.leaf.Chain? then list.leaf.links else []);
    match list
    case One(_) => One(leaf)
    case More(_, conn, rest) => More(leaf, conn, rest)
  }

  function DirOf(n: Node): string
    requires n.Chdir?
  {
    if n.dir.Some? then n.dir.value else ""
  }

  /** The list a pipeline stands for, as read from one of its operands on. */
  function GroupFrom(reading: Reading, nodes: seq<Node>, piped: bool): List
    decreases |nodes|
  {
    var rest := if |nodes| > 1 then nodes[2..] else [];
    if nodes == [] then One(Chain([]))
    else
      match nodes[0]
      case Chdir(_) =>
        var dir := DirOf(nodes[0]);
        if !piped then More(Cd(dir), AndThen, GroupFrom(reading, rest, false))
        else if reading.Executed? then AddFirst(Go(dir), GroupFrom(reading, rest, true))
        else More(Chain([Go(dir)]), AndThen, GroupFrom(reading, rest, false))
      case Cmd(c) =>
        if |nodes| == 1 then One(Chain([Run(c)]))
        else if nodes[1].Pipe? then AddFirst(Run(c), GroupFrom(reading, rest, true))
        else More(Chain([Run(c)]), if nodes[1].Or? then OrElse else AndThen, GroupFrom(reading, rest, false))
      case _ => One(Chain([]))
  }

  function Group(nodes: seq<Node>): List {
    GroupFrom(Executed, nodes, false)
  }

  /** a op (b op (c ...)) */
  function RightNest(list: List): Tree {
    match list
    case One(leaf) => Tip(leaf)
    case More(leaf, conn, rest) => Both(conn, Tip(leaf), RightNest(rest))
  }

  function LeftNestFrom(tree: Tree, conn: Connective, list: List): Tree
    decreases list
  {
    match list
    case One(leaf) => Both(conn, tree, Tip(leaf))
    case More(leaf, next, rest) => LeftNestFrom(Both(conn, tree, Tip(leaf)), next, rest)
  }

  /** ((a op b) op c) ... : && and || have equal precedence and associate to the left. */
  function LeftNest(list: List): Tree {
    match list
    case One(leaf) => Tip(leaf)
    case More(leaf, conn, rest) => LeftNestFrom(Tip(leaf), conn, rest)
  }

  /** A point in a run: what was started, the last status, the directory and the codes still to come. */
  datatype Point = Point(started: seq<Launch>, status: int, cwd: string, codes: seq<int>)

  function Proceeds(conn: Connective, status: int): bool {
    match conn
    case AndThen => status == 0
    case OrElse => status != 0
  }

  function Start(c: Command, at: Point, piped: bool): Point {
    Point(at.started + [LaunchOf(c, at.cwd, piped)], Code(at.codes), at.cwd, Later(at.codes))
  }

  function Pass(reading: Reading, link: Link, at: Point, piped: bool): Point {
    match link
    case Run(c) => Start(c, at, piped)
    case Go(dir) => if reading.Executed? then at.(cwd := JoinPath(at.cwd, dir)) else at.(status := 0)
  }

  /** A chain starts all its commands; its status is that of the last one. */
  function RunChain(reading: Reading, links: seq<Link>, at: Point, piped: bool): Point
    decreases |links|
  {
    if links == [] then at
    else RunChain(reading, links[1..], Pass(reading, links[0], at, piped), piped || links[0].Run?)
  }

  function RunLeaf(reading: Reading, leaf: Leaf, at: Point, piped: bool): Point {
    match leaf
    case Cd(dir) => at.(status := 0, cwd := JoinPath(at.cwd, dir))
    case Chain(links) => RunChain(reading, links, at, piped)
  }

  /** The right operand runs when the left one's status lets the connective proceed. */
  function RunTree(reading: Reading, tree: Tree, at: Point): Point {
    match tree
    case Tip(leaf) => RunLeaf(reading, leaf, at, false)
    case Both(conn, left, right) =>
      var mid := RunTree(reading, left, at);
      if Proceeds(conn, mid.status) then RunTree(reading, right, mid) else mid
  }

  function Result(p: Point): Execution {
    Execution(p.started, Status(p.status), false)
  }

  /** The left-associative rule of POSIX. */
  function PosixEval(nodes: seq<Node>, cwd: string, codes: seq<int>): Execution {
    Result(RunTree(Posix, LeftNest(GroupFrom(Posix, nodes, false)), Point([], 0, cwd, codes)))
  }

  // ---------------------------------------------------------------- grouping loses nothing

  function LinkNode(link: Link): Node {
    match link
    case Run(c) => Cmd(c)
    case Go(dir) => Chdir(Some(dir))
  }

  function ChainNodes(links: seq<Link>): seq<Node> {
    if links == [] then []
    else if |links| == 1 then [LinkNode(links[0])]
    else [LinkNode(links[0]), if links[0].Run? then Pipe else And] + ChainNodes(links[1..])
  }

  function LeafNodes(leaf: Leaf): seq<Node> {
    match leaf
    case Cd(dir) => [Chdir(Some(dir))]
    case Chain(links) => ChainNodes(links)
  }

  function ConnNode(conn: Connective): Node {
    match conn
    case AndThen => And
    case OrElse => Or
  }

  function ListNodes(list: List): seq<Node> {
    match list
    case One(leaf) => LeafNodes(leaf)
    case More(leaf, conn, rest) => LeafNodes(leaf) + [ConnNode(conn)] + ListNodes(rest)
  }

  lemma AddFirstNodes(link: Link, list: List)
    requires list.leaf.Chain? && list.leaf.links != []
    ensures ListNodes(AddFirst(link, list)) == [LinkNode(link), if link.Run? then Pipe else And] + ListNodes(list)
  {
    var links := list.leaf.links;
    assert ([link] + links)[1..] == links;
    assert ChainNodes([link] + links) == [LinkNode(link), if link.Run? then Pipe else And] + ChainNodes(links);
  }

  /** Chains end in a command, and a `cd` is only ever followed by &&. */
  predicate ListOk(list: List) {
    && (list.leaf.Chain? ==> list.leaf.links != [] && list.leaf.links[|list.leaf.links| - 1].Run?)
    && (list.leaf.Cd? ==> list.More? && list.conn.AndThen?)
    && (list.More? ==> ListOk(list.rest))
  }

  /** Whether the list goes on in the same chain after the first operand. */
  predicate GoesOn(reading: Reading, nodes: seq<Node>, piped: bool)
    requires |nodes| > 1
  {
    nodes[1].Pipe? || (piped && nodes[0].Chdir? && reading.Executed?)
  }

  function LinkOf(n: Node): Link
    requires n.Cmd? || n.Chdir?
  {
    if n.Cmd? then Run(n.command) else Go(DirOf(n))
  }

  lemma GroupInChain(reading: Reading, nodes: seq<Node>, piped: bool)
    requires Shaped(nodes) && |nodes| > 1 && GoesOn(reading, nodes, piped)
    ensures GroupFrom(reading, nodes, piped) == AddFirst(LinkOf(nodes[0]), GroupFrom(reading, nodes[2..], true))
  {
  }

  lemma GroupAfterChain(reading: Reading, nodes: seq<Node>, piped: bool)
    requires Shaped(nodes) && |nodes| > 1 && !GoesOn(reading, nodes, piped)
    ensures GroupFrom(reading, nodes, piped)
         == More(if nodes[0].Chdir? && !piped then Cd(DirOf(nodes[0])) else Chain([LinkOf(nodes[0])]),
                 if nodes[1].Or? then OrElse else AndThen, GroupFrom(reading, nodes[2..], false))
  {
  }

  lemma ShortLeafNodes(leaf: Leaf, n: Node, conn: Connective, rest: List)
    requires LeafNodes(leaf) == [n]
    ensures ListNodes(More(leaf, conn, rest)) == [n, ConnNode(conn)] + ListNodes(rest)
  {
    assert [n] + [ConnNode(conn)] == [n, ConnNode(conn)];
  }

  /** What is known of the first operand and the operator after it. */
  lemma FirstPair(nodes: seq<Node>)
    requires Shaped(nodes) && CdsReady(nodes) && |nodes| > 1
    ensures Shaped(nodes[2..]) && CdsReady(nodes[2..])
    ensures LinkNode(LinkOf(nodes[0])) == nodes[0]
    ensures nodes[1].Pipe? ==> nodes[0].Cmd?
    ensures nodes[0].Chdir? ==> nodes[1] == And
    ensures !nodes[1].Pipe? ==> nodes[1] == if nodes[1].Or? then Or else And
  {
  }

  lemma UngroupFirst(reading: Reading, nodes: seq<Node>, piped: bool)
    requires Shaped(nodes) && CdsReady(nodes) && |nodes| > 1
    ensures ListNodes(GroupFrom(reading, nodes, piped))
         == [nodes[0], nodes[1]] + ListNodes(GroupFrom(reading, nodes[2..], GoesOn(reading, nodes, piped)))
  {
    FirstPair(nodes);
    if GoesOn(reading, nodes, piped) {
      GroupInChain(reading, nodes, piped);
      GroupedLeaf(reading, nodes[2..], true);
      AddFirstNodes(LinkOf(nodes[0]), GroupFrom(reading, nodes[2..], true));
    } else {
      GroupAfterChain(reading, nodes, piped);
      ShortLeafNodes(if nodes[0].Chdir? && !piped then Cd(DirOf(nodes[0])) else Chain([LinkOf(nodes[0])]), nodes[0],
                     if nodes[1].Or? then OrElse else AndThen, GroupFrom(reading, nodes[2..], false));
    }
  }

  /** Either way, a pipeline is the node list of exactly the list it is grouped into. */
  lemma {:induction false} GroupUngroups(reading: Reading, nodes: seq<Node>, piped: bool)
    requires Shaped(nodes) && CdsReady(nodes)
    ensures ListNodes(GroupFrom(reading, nodes, piped)) == nodes
    decreases |nodes|
  {
    if |nodes| > 1 {
      UngroupFirst(reading, nodes, piped);
      GroupUngroups(reading, nodes[2..], GoesOn(reading, nodes, piped));
    }
  }

  lemma AddFirstIsOk(link: Link, list: List)
    requires ListOk(list) && list.leaf.Chain?
    ensures ListOk(AddFirst(link, list))
  {
    var links := list.leaf.links;
    assert ([link] + links)[|links|] == links[|links| - 1];
  }

  lemma {:induction false} GroupIsOk(nodes: seq<Node>, piped: bool)
    requires Shaped(nodes) && CdsReady(nodes)
    ensures ListOk(GroupFrom(Executed, nodes, piped))
    decreases |nodes|
  {
    if |nodes| > 1 {
      FirstPair(nodes);
      GroupIsOk(nodes[2..], GoesOn(Executed, nodes, piped));
      if GoesOn(Executed, nodes, piped) {
        GroupInChain(Executed, nodes, piped);
        GroupedLeaf(Executed, nodes[2..], true);
        AddFirstIsOk(LinkOf(nodes[0]), GroupFrom(Executed, nodes[2..], true));
      } else {
        GroupAfterChain(Executed, nodes, piped);
      }
    }
  }

  lemma GroupedLeaf(reading: Reading, nodes: seq<Node>, piped: bool)
    requires Shaped(nodes)
    ensures var leaf := GroupFrom(reading, nodes, piped).leaf;
            (leaf.Chain? <==> piped || nodes[0].Cmd?) && (leaf.Chain? ==> leaf.links != [])
  {
  }

  // ---------------------------------------------------------------- the evaluator nests to the right

  function Resume(at: Point, e: Execution): Execution {
    e.(started := at.started + e.started)
  }

  lemma OneLink(reading: Reading, link: Link, links: seq<Link>, at: Point, piped: bool)
    ensures RunChain(reading, [link] + links, at, piped)
         == RunChain(reading, links, Pass(reading, link, at, piped), piped || link.Run?)
  {
    assert ([link] + links)[1..] == links;
  }

  lemma SoleLink(reading: Reading, link: Link, at: Point, piped: bool)
    ensures RunChain(reading, [link], at, piped) == Pass(reading, link, at, piped)
  {
  }

  lemma StartThenRest(c: Command, at: Point, piped: bool, e: Execution)
    ensures Resume(at, After(LaunchOf(c, at.cwd, piped), e)) == Resume(Start(c, at, piped), e)
  {
  }

  /** The next node in a chain, and then the rest of it. */
  lemma EvalLink(link: Link, rest: seq<Node>, at: Point, piped: bool)
    requires rest != []
    ensures var next := Pass(Executed, link, at, piped);
            Resume(at, Eval([LinkNode(link), if link.Run? then Pipe else And] + rest, at.cwd, piped, at.codes))
            == Resume(next, Eval(rest, next.cwd, piped || link.Run?, next.codes))
  {
    var next := Pass(Executed, link, at, piped);
    assert ([LinkNode(link), if link.Run? then Pipe else And] + rest)[2..] == rest;
  }

  lemma {:induction false} ChainThenConn(links: seq<Link>, conn: Connective, rest: seq<Node>, at: Point, piped: bool)
    requires links != [] && links[|links| - 1].Run?
    ensures var mid := RunChain(Executed, links, at, piped);
            Resume(at, Eval(ChainNodes(links) + ([ConnNode(conn)] + rest), at.cwd, piped, at.codes))
            == if Proceeds(conn, mid.status) then Resume(mid, Eval(rest, mid.cwd, false, mid.codes)) else Result(mid)
    decreases |links|
  {
    var tail := [ConnNode(conn)] + rest;
    if |links| == 1 {
      SoleLink(Executed, links[0], at, piped);
      assert (ChainNodes(links) + tail)[2..] == rest;
      StartThenRest(links[0].command, at, piped, Eval(rest, at.cwd, false, Later(at.codes)));
    } else {
      var next := Pass(Executed, links[0], at, piped);
      var first := [LinkNode(links[0]), if links[0].Run? then Pipe else And];
      ChainThenConn(links[1..], conn, rest, next, piped || links[0].Run?);
      Regroup(first, ChainNodes(links[1..]), tail);
      EvalLink(links[0], ChainNodes(links[1..]) + tail, at, piped);
    }
  }

  lemma {:induction false} ChainAlone(links: seq<Link>, at: Point, piped: bool)
    requires links != [] && links[|links| - 1].Run?
    ensures Resume(at, Eval(ChainNodes(links), at.cwd, piped, at.codes)) == Result(RunChain(Executed, links, at, piped))
    decreases |links|
  {
    if |links| == 1 {
      SoleLink(Executed, links[0], at, piped);
    } else {
      ChainAlone(links[1..], Pass(Executed, links[0], at, piped), piped || links[0].Run?);
      EvalLink(links[0], ChainNodes(links[1..]), at, piped);
    }
  }

  /** A run starts the commands and returns the status of the right-nested tree. */
  lemma {:induction false} EvalIsRightNested(list: List, at: Point)
    requires ListOk(list)
    ensures Resume(at, Eval(ListNodes(list), at.cwd, false, at.codes)) == Result(RunTree(Executed, RightNest(list), at))
    decreases list
  {
    match list
    case One(leaf) => ChainAlone(leaf.links, at, false);
    case More(leaf, conn, rest) =>
      EvalIsRightNested(rest, RunLeaf(Executed, leaf, at, false));
      Regroup(LeafNodes(leaf), [ConnNode(conn)], ListNodes(rest));
      if leaf.Chain? {
        ChainThenConn(leaf.links, conn, ListNodes(rest), at, false);
      } else {
        assert ListNodes(list)[2..] == ListNodes(rest);
      }
  }

  /** What `run` starts and returns is the right-nested reading of the pipeline. */
  lemma RunIsRightNested(nodes: seq<Node>, cwd: string, codes: seq<int>)
    requires WellFormed(nodes) && CdsReady(nodes)
    ensures Eval(nodes, cwd, false, codes) == Result(RunTree(Executed, RightNest(Group(nodes)), Point([], 0, cwd, codes)))
  {
    WellFormedIsShaped(nodes);
    GroupUngroups(Executed, nodes, false);
    GroupIsOk(nodes, false);
    EvalIsRightNested(Group(nodes), Point([], 0, cwd, codes));
    NothingBefore(Eval(nodes, cwd, false, codes));
  }

  lemma NothingBefore(e: Execution)
    ensures e.(started := [] + e.started) == e
  {
  }

  // ---------------------------------------------------------------- right against left

  predicate OnlyConn(conn: Connective, list: List) {
    list.More? ==> list.conn == conn && OnlyConn(conn, list.rest)
  }

  /** After the first chain, whose status can be anything, the connectives do not change any more. */
  predicate Aligned(list: List) {
    list.More? ==> (list.leaf.Chain? ==> OnlyConn(list.conn, list.rest)) && Aligned(list.rest)
  }

  /** No `cd` stands right after a pipe. */
  predicate NoPipedCd(nodes: seq<Node>) {
    |nodes| > 1 ==> (nodes[1].Pipe? && |nodes| > 2 ==> !nodes[2].Chdir?) && NoPipedCd(nodes[2..])
  }

  /** The left-nested reading, one leaf at a time; a leaf is skipped when its connective does not proceed. */
  function Follow(list: List, at: Point, piped: bool, skipped: bool): Point
    decreases list
  {
    var next := if skipped then at else RunLeaf(Posix, list.leaf, at, piped);
    match list
    case One(_) => next
    case More(_, conn, rest) => Follow(rest, next, false, !Proceeds(conn, next.status))
  }

  lemma {:induction false} LeftNestFollows(tree: Tree, conn: Connective, list: List, at: Point)
    ensures var mid := RunTree(Posix, tree, at);
            RunTree(Posix, LeftNestFrom(tree, conn, list), at) == Follow(list, mid, false, !Proceeds(conn, mid.status))
    decreases list
  {
    if list.More? {
      LeftNestFollows(Both(conn, tree, Tip(list.leaf)), list.conn, list.rest, at);
    }
  }

  lemma LeftNestIsFollow(list: List, at: Point)
    ensures RunTree(Posix, LeftNest(list), at) == Follow(list, at, false, false)
  {
    if list.More? {
      LeftNestFollows(Tip(list.leaf), list.conn, list.rest, at);
    }
  }

  /** The first link of a chain, and then the list without it. */
  lemma FollowLink(link: Link, list: List, at: Point, piped: bool, skipped: bool)
    requires list.leaf.Chain?
    ensures Follow(AddFirst(link, list), at, piped, skipped)
         == Follow(list, if skipped then at else Pass(Posix, link, at, piped), piped || link.Run?, skipped)
  {
    OneLink(Posix, link, list.leaf.links, at, piped);
  }

  /** The operator after a status lets the next operand be skipped. */
  function Skips(op: Node, status: int): bool {
    (op.And? && status != 0) || (op.Or? && status == 0)
  }

  /** One operand of the left-nested reading, then the others. */
  lemma FollowOperand(nodes: seq<Node>, at: Point, piped: bool, skipped: bool)
    requires Shaped(nodes) && CdsReady(nodes)
    ensures var next := if skipped then at else Operand(nodes[0], at, piped);
            Follow(GroupFrom(Posix, nodes, piped), at, piped, skipped)
            == if |nodes| == 1 then next
               else if nodes[1].Pipe? then Follow(GroupFrom(Posix, nodes[2..], true), next, true, skipped)
               else Follow(GroupFrom(Posix, nodes[2..], false), next, false, Skips(nodes[1], next.status))
  {
    match nodes[0]
    case Chdir(dir) =>
      SoleLink(Posix, Go(dir.value), at, piped);
    case Cmd(c) =>
      SoleLink(Posix, Run(c), at, piped);
      if |nodes| > 1 && nodes[1].Pipe? {
        GroupedLeaf(Posix, nodes[2..], true);
        FollowLink(Run(c), GroupFrom(Posix, nodes[2..], true), at, piped, skipped);
      }
  }

  /** In POSIX a `cd` in a chain of several commands leaves the directory alone. */
  function Operand(n: Node, at: Point, piped: bool): Point {
    match n
    case Chdir(_) => if piped then at.(status := 0) else at.(status := 0, cwd := JoinPath(at.cwd, DirOf(n)))
    case Cmd(c) => Start(c, at, piped)
    case _ => at
  }

  /** Neither a `cd` after a pipe nor a change of connective after a chain. */
  predicate Plain(nodes: seq<Node>, piped: bool) {
    && (piped && nodes != [] ==> !nodes[0].Chdir?)
    && NoPipedCd(nodes)
    && Aligned(GroupFrom(Posix, nodes, piped))
  }

  function ConnOf(op: Node): Connective {
    if op.Or? then OrElse else AndThen
  }

  lemma AlignedOperand(nodes: seq<Node>, piped: bool)
    requires Shaped(nodes) && |nodes| > 1 && (piped ==> !nodes[0].Chdir?)
    ensures Aligned(GroupFrom(Posix, nodes, piped))
       <==> Aligned(GroupFrom(Posix, nodes[2..], nodes[1].Pipe?))
            && (nodes[0].Cmd? && !nodes[1].Pipe? ==> OnlyConn(ConnOf(nodes[1]), GroupFrom(Posix, nodes[2..], false)))
  {
    if nodes[1].Pipe? {
      GroupedLeaf(Posix, nodes[2..], true);
    }
  }

  lemma {:induction false} PlainGroupsAgree(nodes: seq<Node>, piped: bool)
    requires Shaped(nodes) && NoPipedCd(nodes) && (piped ==> !nodes[0].Chdir?)
    ensures GroupFrom(Executed, nodes, piped) == GroupFrom(Posix, nodes, piped)
    decreases |nodes|
  {
    if |nodes| > 1 {
      PlainGroupsAgree(nodes[2..], nodes[1].Pipe?);
    }
  }

  lemma {:induction false} BlockedStays(conn: Connective, list: List, at: Point, piped: bool)
    requires !Proceeds(conn, at.status) && OnlyConn(conn, list)
    ensures Follow(list, at, piped, true) == at
    decreases list
  {
    if list.More? {
      BlockedStays(conn, list.rest, at, false);
    }
  }

  lemma {:induction false} PlainAgrees(nodes: seq<Node>, at: Point, piped: bool)
    requires Shaped(nodes) && CdsReady(nodes) && Plain(nodes, piped)
    ensures Resume(at, Eval(nodes, at.cwd, piped, at.codes))
         == Result(Follow(GroupFrom(Posix, nodes, piped), at, piped, false))
    decreases |nodes|
  {
    FollowOperand(nodes, at, piped, false);
    if |nodes| > 1 {
      var next, list := Operand(nodes[0], at, piped), GroupFrom(Posix, nodes[2..], nodes[1].Pipe?);
      AlignedOperand(nodes, piped);
      PlainAgrees(nodes[2..], next, nodes[1].Pipe?);
      if nodes[0].Cmd? {
        StartThenRest(nodes[0].command, at, piped, Eval(nodes[2..], at.cwd, nodes[1].Pipe?, next.codes));
        if Skips(nodes[1], next.status) {
          BlockedStays(ConnOf(nodes[1]), list, next, false);
        }
      }
    }
  }

  // Otherwise some codes tell the two readings apart.

  lemma {:induction false} ChainExtends(links: seq<Link>, at: Point, piped: bool)
    ensures at.started <= RunChain(Posix, links, at, piped).started
    decreases |links|
  {
    if links != [] {
      ChainExtends(links[1..], Pass(Posix, links[0], at, piped), piped || links[0].Run?);
    }
  }

  lemma {:induction false} FollowExtends(list: List, at: Point, piped: bool, skipped: bool)
    ensures at.started <= Follow(list, at, piped, skipped).started
    decreases list
  {
    if list.leaf.Chain? {
      ChainExtends(list.leaf.links, at, piped);
    }
    if list.More? {
      var next := if skipped then at else RunLeaf(Posix, list.leaf, at, piped);
      FollowExtends(list.rest, next, false, !Proceeds(list.conn, next.status));
    }
  }

  /** What is started next, and that it reads from the pipe if there is one. */
  predicate StartsNext(before: seq<Launch>, after: seq<Launch>, fromPipe: bool) {
    |before| < |after| && after[|before|].stdin.FromPipe? == fromPipe
  }

  /** In POSIX a `cd` ends its chain, so that the command after it does not read from the pipe. */
  lemma {:induction false} PosixStartsNext(nodes: seq<Node>, at: Point, piped: bool, end: Point)
    requires Shaped(nodes) && CdsReady(nodes) && end == Follow(GroupFrom(Posix, nodes, piped), at, piped, false)
    ensures StartsNext(at.started, end.started, piped && nodes[0].Cmd?)
    decreases |nodes|
  {
    FollowOperand(nodes, at, piped, false);
    var next := Operand(nodes[0], at, piped);
    if nodes[0].Chdir? {
      PosixStartsNext(nodes[2..], next, false, end);
    } else if |nodes| > 1 {
      FollowExtends(GroupFrom(Posix, nodes[2..], nodes[1].Pipe?), next, nodes[1].Pipe?,
                    !nodes[1].Pipe? && Skips(nodes[1], next.status));
    }
  }

  lemma {:induction false} EvalStartsNext(nodes: seq<Node>, cwd: string, piped: bool, codes: seq<int>)
    requires Shaped(nodes) && CdsReady(nodes)
    ensures StartsNext([], Eval(nodes, cwd, piped, codes).started, piped)
    decreases |nodes|
  {
    if nodes[0].Chdir? {
      EvalStartsNext(nodes[2..], JoinPath(cwd, nodes[0].dir.value), piped, codes);
    }
  }

  /** A blocked connective followed by the other one lets a later command run. */
  lemma {:induction false} OtherConnStarts(conn: Connective, nodes: seq<Node>, at: Point, piped: bool)
    requires Shaped(nodes) && CdsReady(nodes)
    requires !Proceeds(conn, at.status) && !OnlyConn(conn, GroupFrom(Posix, nodes, piped))
    ensures |Follow(GroupFrom(Posix, nodes, piped), at, piped, true).started| > |at.started|
    decreases |nodes|
  {
    FollowOperand(nodes, at, piped, true);
    if |nodes| > 1 {
      if nodes[1].Pipe? || ConnOf(nodes[1]) == conn {
        OtherConnStarts(conn, nodes[2..], at, nodes[1].Pipe?);
      } else {
        PosixStartsNext(nodes[2..], at, false, Follow(GroupFrom(Posix, nodes[2..], false), at, false, false));
      }
    }
  }

  /** The two readings start different processes. */
  predicate TellsApart(nodes: seq<Node>, at: Point, piped: bool, codes: seq<int>) {
    at.started + Eval(nodes, at.cwd, piped, codes).started
    != Follow(GroupFrom(Posix, nodes, piped), at.(codes := codes), piped, false).started
  }

  lemma PipedCdTellsApart(nodes: seq<Node>, at: Point)
    requires Shaped(nodes) && CdsReady(nodes) && nodes[0].Chdir?
    ensures TellsApart(nodes, at, true, [])
  {
    EvalStartsNext(nodes, at.cwd, true, []);
    PosixStartsNext(nodes, at.(codes := []), true, Follow(GroupFrom(Posix, nodes, true), at.(codes := []), true, false));
  }

  /** What the operand leaves to tell apart, some codes tell apart. */
  lemma TellsApartLater(nodes: seq<Node>, at: Point, piped: bool, code: int, later: seq<int>)
    requires Shaped(nodes) && CdsReady(nodes) && nodes[0].Cmd? && |nodes| > 1 && !Skips(nodes[1], code)
    requires TellsApart(nodes[2..], Start(nodes[0].command, at.(codes := [code]), piped), nodes[1].Pipe?, later)
    ensures TellsApart(nodes, at, piped, [code] + later)
  {
    var c, codes := nodes[0].command, [code] + later;
    var here := at.(codes := codes);
    assert Later(codes) == later;
    FollowOperand(nodes, here, piped, false);
    assert Start(c, here, piped) == Start(c, at.(codes := [code]), piped).(codes := later);
    StartThenRest(c, here, piped, Eval(nodes[2..], at.cwd, nodes[1].Pipe?, later));
  }

  lemma BlockedTellsApart(nodes: seq<Node>, at: Point, piped: bool, code: int)
    requires Shaped(nodes) && CdsReady(nodes) && nodes[0].Cmd? && |nodes| > 1 && Skips(nodes[1], code)
    requires !OnlyConn(ConnOf(nodes[1]), GroupFrom(Posix, nodes[2..], false))
    ensures TellsApart(nodes, at, piped, [code])
  {
    var here := at.(codes := [code]);
    FollowOperand(nodes, here, piped, false);
    OtherConnStarts(ConnOf(nodes[1]), nodes[2..], Start(nodes[0].command, here, piped), false);
  }

  lemma {:induction false} CodesTellApart(nodes: seq<Node>, at: Point, piped: bool) returns (codes: seq<int>)
    requires Shaped(nodes) && CdsReady(nodes) && !Plain(nodes, piped)
    ensures TellsApart(nodes, at, piped, codes)
    decreases |nodes|
  {
    if piped && nodes[0].Chdir? {
      PipedCdTellsApart(nodes, at);
      codes := [];
    } else if nodes[0].Chdir? {
      AlignedOperand(nodes, piped);
      codes := CodesTellApart(nodes[2..], at.(status := 0, cwd := JoinPath(at.cwd, nodes[0].dir.value)), false);
      FollowOperand(nodes, at.(codes := codes), false, false);
    } else {
      AlignedOperand(nodes, piped);
      var code := if nodes[1].Or? then 1 else 0;
      if Plain(nodes[2..], nodes[1].Pipe?) {
        codes := [1 - code];
        BlockedTellsApart(nodes, at, piped, 1 - code);
      } else {
        var later := CodesTellApart(nodes[2..], Start(nodes[0].command, at.(codes := [code]), piped), nodes[1].Pipe?);
        codes := [code] + later;
        TellsApartLater(nodes, at, piped, code, later);
      }
    }
  }

  /**
   A parsed pipeline whose `cd`s are ready runs by the left-associative rule, whatever its commands
   return, exactly when no `cd` follows a pipe and no connective changes after the first chain.
   */
  lemma AgreesWithPosixIff(nodes: seq<Node>, cwd: string)
    requires WellFormed(nodes) && CdsReady(nodes)
    ensures (forall codes :: Eval(nodes, cwd, false, codes) == PosixEval(nodes, cwd, codes))
       <==> NoPipedCd(nodes) && Aligned(Group(nodes))
  {
    WellFormedIsShaped(nodes);
    if NoPipedCd(nodes) {
      PlainGroupsAgree(nodes, false);
    }
    var list := GroupFrom(Posix, nodes, false);
    if Plain(nodes, false) {
      forall codes
        ensures Eval(nodes, cwd, false, codes) == PosixEval(nodes, cwd, codes)
      {
        var at := Point([], 0, cwd, codes);
        LeftNestIsFollow(list, at);
        PlainAgrees(nodes, at, false);
        NothingBefore(Eval(nodes, cwd, false, codes));
      }
    } else {
      var codes := CodesTellApart(nodes, Point([], 0, cwd, []), false);
      var at := Point([], 0, cwd, codes);
      LeftNestIsFollow(list, at);
      NothingBefore(Eval(nodes, cwd, false, codes));
      assert Eval(nodes, cwd, false, codes) != PosixEval(nodes, cwd, codes);
    }
  }

  function PipedCd(a: Command, b: Command, dir: string): seq<Node> {
    [Cmd(a), Pipe, Chdir(Some(dir)), And, Cmd(b)]
  }

  lemma PipedCdParts(a: Command, b: Command, dir: string)
    ensures PipedCd(a, b, dir)[2..] == [Chdir(Some(dir)), And, Cmd(b)] && PipedCd(a, b, dir)[2..][2..] == [Cmd(b)]
  {
  }

  lemma PipedCdRuns(a: Command, b: Command, dir: string)
    ensures Eval(PipedCd(a, b, dir), ".", false, []).started == [LaunchOf(a, ".", false), LaunchOf(b, JoinPath(".", dir), true)]
  {
    PipedCdParts(a, b, dir);
    assert Eval([Cmd(b)], JoinPath(".", dir), true, []).started == [LaunchOf(b, JoinPath(".", dir), true)];
    assert Eval([Chdir(Some(dir)), And, Cmd(b)], ".", true, []) == Eval([Cmd(b)], JoinPath(".", dir), true, []);
  }

  lemma PipedCdGroups(a: Command, b: Command, dir: string)
    ensures Group(PipedCd(a, b, dir)) == One(Chain([Run(a), Go(dir), Run(b)]))
    ensures GroupFrom(Posix, PipedCd(a, b, dir), false) == More(Chain([Run(a), Go(dir)]), AndThen, One(Chain([Run(b)])))
  {
    var tail := [Chdir(Some(dir)), And, Cmd(b)];
    PipedCdParts(a, b, dir);
    assert GroupFrom(Executed, [Cmd(b)], true) == One(Chain([Run(b)]));
    assert GroupFrom(Posix, [Cmd(b)], false) == One(Chain([Run(b)]));
    assert GroupFrom(Executed, tail, true) == AddFirst(Go(dir), One(Chain([Run(b)])));
    assert GroupFrom(Posix, tail, true) == More(Chain([Go(dir)]), AndThen, One(Chain([Run(b)])));
    assert [Go(dir)] + [Run(b)] == [Go(dir), Run(b)] && [Run(a)] + [Go(dir), Run(b)] == [Run(a), Go(dir), Run(b)];
    assert [Run(a)] + [Go(dir)] == [Run(a), Go(dir)];
  }

  /** The smallest pipeline with a `cd` after a pipe: && alone, and yet the second command reads from the first. */
  lemma PipedCdDeparts(a: Command, b: Command, dir: string)
    ensures Eval(PipedCd(a, b, dir), ".", false, []).started == [LaunchOf(a, ".", false), LaunchOf(b, JoinPath(".", dir), true)]
    ensures PosixEval(PipedCd(a, b, dir), ".", []).started == [LaunchOf(a, ".", false), LaunchOf(b, ".", false)]
    ensures Aligned(Group(PipedCd(a, b, dir)))
  {
    var at := Point([], 0, ".", []);
    PipedCdRuns(a, b, dir);
    PipedCdGroups(a, b, dir);
    assert [Run(a)] + [Go(dir)] == [Run(a), Go(dir)];
    OneLink(Posix, Run(a), [Go(dir)], at, false);
    SoleLink(Posix, Go(dir), Start(a, at, false), true);
    var mid := Start(a, at, false).(status := 0);
    assert RunChain(Posix, [Run(a), Go(dir)], at, false) == mid;
    SoleLink(Posix, Run(b), mid, false);
    LeftNestIsFollow(GroupFrom(Posix, PipedCd(a, b, dir), false), at);
    assert Follow(One(Chain([Run(b)])), mid, false, false) == Start(b, mid, false);
  }

  /** Lists with a single kind of connective are aligned. */
  lemma {:induction false} UniformIsAligned(conn: Connective, list: List)
    requires OnlyConn(conn, list)
    ensures Aligned(list)
    decreases list
  {
    if list.More? {
      UniformIsAligned(conn, list.rest);
    }
  }
}
