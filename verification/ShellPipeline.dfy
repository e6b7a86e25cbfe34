/**
 waf-tools/shellcmd.py: the `Pipeline` object, whose `parse` fills the list of nodes and whose `run`
 works through it. `run` is proved against `Eval` and against a ledger of processes and files.
 Processes and files are events in a log; what each process returns is given beforehand.
 */
module ShellPipeline {
  import opened Sequences
  import opened ShellSyntax
  import opened ShellEval

  datatype File = DevNull | Handle(id: nat)

  datatype Process = Process(pid: nat, code: int)

  datatype Event =
    | Opened(id: nat, name: string)
    | Started(pid: nat, launch: Launch)
    | Waited(pid: nat)
    | Closed(id: nat)

  // ---------------------------------------------------------------- what a log says

  function StartedOf(log: seq<Event>): seq<Launch> {
    if log == [] then []
    else
      var e := log[|log| - 1];
      StartedOf(log[..|log| - 1]) + if e.Started? then [e.launch] else []
  }

  function OpenedOf(log: seq<Event>): seq<string> {
    if log == [] then []
    else
      var e := log[|log| - 1];
      OpenedOf(log[..|log| - 1]) + if e.Opened? then [e.name] else []
  }

  datatype Mark = ToStart(pid: nat) | ToWait(pid: nat) | ToOpen(id: nat) | ToClose(id: nat)

  predicate Marks(m: Mark, e: Event) {
    match m
    case ToStart(pid) => e.Started? && e.pid == pid
    case ToWait(pid) => e.Waited? && e.pid == pid
    case ToOpen(id) => e.Opened? && e.id == id
    case ToClose(id) => e.Closed? && e.id == id
  }

  function CountOf(log: seq<Event>, m: Mark): nat {
    if log == [] then 0 else CountOf(log[..|log| - 1], m) + if Marks(m, log[|log| - 1]) then 1 else 0
  }

  /** The processes not waited for, whether the last one's output is a pipe, and the files not closed. */
  datatype Ledger =
    | Ledger(live: seq<nat>, dangling: bool, pids: nat, open: seq<nat>, handles: nat)
    | Violation

  /**
   A command reads from a pipe exactly when the command before it writes into one; the processes of a
   chain are waited for once the chain is complete, and its files are closed after that.
   */
  function Account(l: Ledger, e: Event): Ledger {
    if l.Violation? then Violation
    else
      match e
      case Opened(id, _) =>
        if id == l.handles then l.(open := l.open + [id], handles := id + 1) else Violation
      case Started(pid, launch) =>
        if pid == l.pids && launch.stdin.FromPipe? == l.dangling && (l.dangling <==> l.live != [])
        then l.(live := l.live + [pid], dangling := launch.stdout.ToPipe?, pids := pid + 1) else Violation
      case Waited(pid) =>
        if l.live != [] && l.live[0] == pid && !l.dangling then l.(live := l.live[1..]) else Violation
      case Closed(id) =>
        if l.live == [] && l.open != [] && l.open[0] == id then l.(open := l.open[1..]) else Violation
  }

  const CLEAR := Ledger([], false, 0, [], 0)

  function Replay(log: seq<Event>): Ledger {
    if log == [] then CLEAR else Account(Replay(log[..|log| - 1]), log[|log| - 1])
  }

  lemma Append(log: seq<Event>, e: Event)
    ensures StartedOf(log + [e]) == StartedOf(log) + if e.Started? then [e.launch] else []
    ensures OpenedOf(log + [e]) == OpenedOf(log) + if e.Opened? then [e.name] else []
    ensures Replay(log + [e]) == Account(Replay(log), e)
  {
    assert (log + [e])[..|log|] == log;
  }

  /** Nothing is left over: no process unwaited, no file open. */
  predicate Settled(log: seq<Event>) {
    var l := Replay(log);
    l.Ledger? && l.live == [] && l.open == []
  }

  predicate IsNumbered(s: seq<nat>, from: nat, to: nat) {
    from <= to && |s| == to - from && forall i :: 0 <= i < |s| ==> s[i] == from + i
  }

  /** What the ledger holds is always the latest processes and files. */
  lemma {:induction false} HoldsTheLatest(log: seq<Event>)
    requires Replay(log).Ledger?
    ensures var l := Replay(log);
            && |l.live| <= l.pids && IsNumbered(l.live, l.pids - |l.live|, l.pids)
            && |l.open| <= l.handles && IsNumbered(l.open, l.handles - |l.open|, l.handles)
  {
    if log != [] {
      HoldsTheLatest(log[..|log| - 1]);
    }
  }

  /** Each process and file is counted: begun once at most, ended once it has left the ledger. */
  lemma {:induction false} LedgerCounts(log: seq<Event>, n: nat)
    requires Replay(log).Ledger?
    ensures var l := Replay(log);
            && CountOf(log, ToStart(n)) == (if n < l.pids then 1 else 0)
            && CountOf(log, ToWait(n)) == (if n < l.pids - |l.live| then 1 else 0)
  {
    if log != [] {
      HoldsTheLatest(log[..|log| - 1]);
      LedgerCounts(log[..|log| - 1], n);
    }
  }

  lemma {:induction false} LedgerCountsFiles(log: seq<Event>, n: nat)
    requires Replay(log).Ledger?
    ensures var l := Replay(log);
            && CountOf(log, ToOpen(n)) == (if n < l.handles then 1 else 0)
            && CountOf(log, ToClose(n)) == (if n < l.handles - |l.open| then 1 else 0)
  {
    if log != [] {
      HoldsTheLatest(log[..|log| - 1]);
      LedgerCountsFiles(log[..|log| - 1], n);
    }
  }

  /** In a settled log each started process is waited for exactly once, each opened file closed exactly once. */
  lemma SettledMeansOnce(log: seq<Event>, n: nat)
    requires Settled(log)
    ensures CountOf(log, ToStart(n)) == CountOf(log, ToWait(n)) <= 1
    ensures CountOf(log, ToOpen(n)) == CountOf(log, ToClose(n)) <= 1
  {
    LedgerCounts(log, n);
    LedgerCountsFiles(log, n);
  }

  // ---------------------------------------------------------------- the files a command needs

  predicate IsNullDevice(name: string) {
    name == "NUL:" || name == "/dev/null"
  }

  function OutFile(name: string): seq<string> {
    if IsNullDevice(name) then [] else [name]
  }

  /** The files opened for one process; the null device is already open. */
  function FilesOf(launch: Launch): seq<string> {
    InputFile(launch) + OutputFile(launch) + ErrorFile(launch)
  }

  function InputFile(launch: Launch): seq<string> {
    if launch.stdin.FromFile? then [launch.stdin.file] else []
  }

  function OutputFile(launch: Launch): seq<string> {
    if launch.stdout.ToFile? then OutFile(launch.stdout.file) else []
  }

  function ErrorFile(launch: Launch): seq<string> {
    if launch.stderr.ErrToFile? then OutFile(launch.stderr.file) else []
  }

  function AllFilesOf(launches: seq<Launch>): seq<string> {
    if launches == [] then [] else AllFilesOf(launches[..|launches| - 1]) + FilesOf(launches[|launches| - 1])
  }

  function ReadsFrom(name: string): Launch -> bool {
    (l: Launch) => l.stdin == FromFile(name)
  }

  function WritesTo(name: string): Launch -> bool {
    (l: Launch) => l.stdout == ToFile(name)
  }

  function ErrsTo(name: string): Launch -> bool {
    (l: Launch) => l.stderr == ErrToFile(name)
  }

  predicate NullDevice(name: string) {
    name in {"NUL:", "/dev/null"}
  }

  /** How many processes read from the file, write to it or send their errors there; the null device is not opened to write. */
  function UsesOf(launches: seq<Launch>, name: string): nat {
    |Positions(launches, ReadsFrom(name))|
    + if NullDevice(name) then 0 else |Positions(launches, WritesTo(name))| + |Positions(launches, ErrsTo(name))|
  }

  /** A file is opened once for each use. */
  ghost predicate OpenedFor(names: seq<string>, launches: seq<Launch>) {
    forall name :: multiset(names)[name] == UsesOf(launches, name)
  }

  function UsesOfOne(launch: Launch, name: string): nat {
    (if launch.stdin == FromFile(name) then 1 else 0)
    + if NullDevice(name) then 0
      else (if launch.stdout == ToFile(name) then 1 else 0) + (if launch.stderr == ErrToFile(name) then 1 else 0)
  }

  lemma InputCount(launch: Launch, name: string)
    ensures multiset(InputFile(launch))[name] == if launch.stdin == FromFile(name) then 1 else 0
  {
  }

  lemma OutputCount(launch: Launch, name: string)
    ensures multiset(OutputFile(launch))[name] == if launch.stdout == ToFile(name) && !NullDevice(name) then 1 else 0
  {
    if launch.stdout.ToFile? {
      OutFileCount(launch.stdout.file, name);
    }
  }

  lemma ErrorCount(launch: Launch, name: string)
    ensures multiset(ErrorFile(launch))[name] == if launch.stderr == ErrToFile(name) && !NullDevice(name) then 1 else 0
  {
    if launch.stderr.ErrToFile? {
      OutFileCount(launch.stderr.file, name);
    }
  }

  lemma FilesOfOne(launch: Launch, name: string)
    ensures multiset(FilesOf(launch))[name] == UsesOfOne(launch, name)
  {
    MultisetConcat(InputFile(launch), OutputFile(launch), name);
    MultisetConcat(InputFile(launch) + OutputFile(launch), ErrorFile(launch), name);
    InputCount(launch, name);
    OutputCount(launch, name);
    ErrorCount(launch, name);
  }

  lemma OutFileCount(file: string, name: string)
    ensures multiset(OutFile(file))[name] == if file == name && !NullDevice(name) then 1 else 0
  {
  }

  lemma UsesAppend(launches: seq<Launch>, launch: Launch, name: string)
    ensures UsesOf(launches + [launch], name) == UsesOf(launches, name) + UsesOfOne(launch, name)
  {
    PositionsAppend(launches, launch, ReadsFrom(name));
    PositionsAppend(launches, launch, WritesTo(name));
    PositionsAppend(launches, launch, ErrsTo(name));
  }

  lemma NoUses(name: string)
    ensures UsesOf([], name) == 0
  {
    assert Positions<Launch>([], ReadsFrom(name)) == {} && Positions<Launch>([], WritesTo(name)) == {};
    assert Positions<Launch>([], ErrsTo(name)) == {};
  }

  lemma FilesAppend(launches: seq<Launch>, launch: Launch, name: string)
    ensures multiset(AllFilesOf(launches + [launch]))[name] == multiset(AllFilesOf(launches))[name] + UsesOfOne(launch, name)
  {
    assert (launches + [launch])[..|launches|] == launches;
    MultisetConcat(AllFilesOf(launches), FilesOf(launch), name);
    FilesOfOne(launch, name);
  }

  lemma {:induction false} FilesAreUsed(launches: seq<Launch>, name: string)
    ensures multiset(AllFilesOf(launches))[name] == UsesOf(launches, name)
    decreases |launches|
  {
    if launches == [] {
      NoUses(name);
    } else {
      var front, last := launches[..|launches| - 1], launches[|launches| - 1];
      FilesAreUsed(front, name);
      FilesAppend(front, last, name);
      UsesAppend(front, last, name);
      LastOf(launches);
    }
  }

  lemma FilesAreOpenedFor(launches: seq<Launch>)
    ensures OpenedFor(AllFilesOf(launches), launches)
  {
    forall name
      ensures multiset(AllFilesOf(launches))[name] == UsesOf(launches, name)
    {
      FilesAreUsed(launches, name);
    }
  }

  function Handles(files: seq<File>): seq<nat> {
    if files == [] then []
    else Handles(files[..|files| - 1]) + if files[|files| - 1].Handle? then [files[|files| - 1].id] else []
  }

  function Pids(procs: seq<Process>): seq<nat> {
    if procs == [] then [] else Pids(procs[..|procs| - 1]) + [procs[|procs| - 1].pid]
  }

  lemma HandlesAppend(files: seq<File>, f: File)
    ensures Handles(files + [f]) == Handles(files) + if f.Handle? then [f.id] else []
  {
    assert (files + [f])[..|files|] == files;
  }

  lemma PidsAppend(procs: seq<Process>, p: Process)
    ensures Pids(procs + [p]) == Pids(procs) + [p.pid]
  {
    assert (procs + [p])[..|procs|] == procs;
  }

  lemma {:induction false} HandlesCons(f: File, files: seq<File>)
    ensures Handles([f] + files) == (if f.Handle? then [f.id] else []) + Handles(files)
    decreases |files|
  {
    if files != [] {
      var front := files[..|files| - 1];
      HandlesCons(f, front);
      assert ([f] + files)[..|files|] == [f] + front;
    } else {
      assert [f] + files == [] + [f];
      HandlesAppend([], f);
    }
  }

  lemma {:induction false} PidsCons(p: Process, procs: seq<Process>)
    ensures Pids([p] + procs) == [p.pid] + Pids(procs)
    decreases |procs|
  {
    if procs != [] {
      var front := procs[..|procs| - 1];
      PidsCons(p, front);
      assert ([p] + procs)[..|procs|] == [p] + front;
    } else {
      assert [p] + procs == [] + [p];
      PidsAppend([], p);
    }
  }

  // ---------------------------------------------------------------- the steps of a run

  /** Same starts and openings; the ledger alone moves on. */
  predicate OnlyEnds(log: seq<Event>, more: seq<Event>) {
    StartedOf(more) == StartedOf(log) && OpenedOf(more) == OpenedOf(log)
  }

  /** With the files open before on the ledger, the files open now are. */
  predicate FilesBooked(log: seq<Event>, files: seq<File>, handles: nat, log': seq<Event>, files': seq<File>, handles': nat) {
    var l := Replay(log);
    l.Ledger? && l.open == Handles(files) && l.handles == handles
    ==> Replay(log') == l.(open := Handles(files'), handles := handles')
  }

  method OpenFile(name: string, files: seq<File>, handles: nat, log: seq<Event>)
    returns (files': seq<File>, handles': nat, log': seq<Event>)
    ensures StartedOf(log') == StartedOf(log)
    ensures OpenedOf(log') == OpenedOf(log) + [name]
    ensures FilesBooked(log, files, handles, log', files', handles')
  {
    Append(log, Opened(handles, name));
    HandlesAppend(files, Handle(handles));
    return files + [Handle(handles)], handles + 1, log + [Opened(handles, name)];
  }

  method OpenOutFile(name: string, files: seq<File>, handles: nat, log: seq<Event>)
    returns (files': seq<File>, handles': nat, log': seq<Event>)
    ensures StartedOf(log') == StartedOf(log)
    ensures OpenedOf(log') == OpenedOf(log) + OutFile(name)
    ensures FilesBooked(log, files, handles, log', files', handles')
  {
    if IsNullDevice(name) {
      HandlesAppend(files, DevNull);
      return files + [DevNull], handles, log;
    }
    files', handles', log' := OpenFile(name, files, handles, log);
  }

  /** With the chain on the ledger before, the processes still waiting are on it now. */
  predicate StillLive(l: Ledger, chain: seq<Process>, log: seq<Event>, waiting: seq<Process>) {
    l.Ledger? && !l.dangling && l.live == Pids(chain) ==> Replay(log) == l.(live := Pids(waiting))
  }

  lemma WaitFirst(l: Ledger, chain: seq<Process>, log: seq<Event>, first: Process, others: seq<Process>)
    requires StillLive(l, chain, log, [first] + others)
    ensures OnlyEnds(log, log + [Waited(first.pid)]) && StillLive(l, chain, log + [Waited(first.pid)], others)
  {
    PidsCons(first, others);
    Append(log, Waited(first.pid));
  }

  /** The first loop: what the processes return, in order. */
  method WaitForAll(commands: seq<Process>, log: seq<Event>) returns (retvals: seq<int>, log': seq<Event>)
    ensures |retvals| == |commands| && forall j :: 0 <= j < |commands| ==> retvals[j] == commands[j].code
    ensures OnlyEnds(log, log')
    ensures var l := Replay(log);
            l.Ledger? && !l.dangling && l.live == Pids(commands) ==> Replay(log') == l.(live := [])
  {
    retvals, log' := [], log;
    ghost var l := Replay(log);
    ghost var waiting := commands;
    for i := 0 to |commands|
      invariant |retvals| == i && forall j :: 0 <= j < i ==> retvals[j] == commands[j].code
      invariant waiting == commands[i..] && OnlyEnds(log, log')
      invariant StillLive(l, commands, log', waiting)
    {
      FirstOf(commands, i);
      WaitFirst(l, commands, log', commands[i], commands[i + 1..]);
      log', waiting := log' + [Waited(commands[i].pid)], commands[i + 1..];
      retvals := retvals + [commands[i].code];
    }
  }

  /** The second loop: the last status if any of them is a failure. */
  method LastIfAnyFailed(retvals: seq<int>) returns (retval: int)
    requires retvals != []
    ensures retval == retvals[|retvals| - 1]
  {
    retval := 0;
    for i := 0 to |retvals|
      invariant retval == 0
      invariant forall j :: 0 <= j < i ==> retvals[j] == 0
    {
      if retvals[i] != 0 {
        retval := retvals[|retvals| - 1];
        break;
      }
    }
  }

  /** Waits for every process; the status is that of the last one if any of them failed. */
  method ExecPipedCommands(commands: seq<Process>, log: seq<Event>) returns (retval: int, log': seq<Event>)
    requires commands != []
    ensures retval == commands[|commands| - 1].code
    ensures OnlyEnds(log, log')
    ensures var l := Replay(log);
            l.Ledger? && !l.dangling && l.live == Pids(commands) ==> Replay(log') == l.(live := [])
  {
    var retvals;
    retvals, log' := WaitForAll(commands, log);
    retval := LastIfAnyFailed(retvals);
  }

  method CloseFiles(files: seq<File>, log: seq<Event>) returns (log': seq<Event>)
    ensures OnlyEnds(log, log')
    ensures var l := Replay(log);
            l.Ledger? && l.live == [] && l.open == Handles(files) ==> Replay(log') == l.(open := [])
  {
    log' := log;
    ghost var l := Replay(log);
    for i := 0 to |files|
      invariant OnlyEnds(log, log')
      invariant l.Ledger? && l.live == [] && l.open == Handles(files) ==> Replay(log') == l.(open := Handles(files[i..]))
    {
      assert files[i..] == [files[i]] + files[i + 1..];
      HandlesCons(files[i], files[i + 1..]);
      if files[i].Handle? {
        Append(log', Closed(files[i].id));
        log' := log' + [Closed(files[i].id)];
      }
    }
  }

  /** The ledger agrees with the variables of a run. */
  predicate Agrees(l: Ledger, procs: seq<Process>, inPipe: bool, pids: nat, files: seq<File>, handles: nat) {
    l == Ledger(Pids(procs), inPipe, pids, Handles(files), handles)
  }

  /** A process that reads from the one before it opens no input file. */
  method OpenInput(c: Command, inPipe: bool, files: seq<File>, handles: nat, log: seq<Event>)
    returns (stdin: Source, files': seq<File>, handles': nat, log': seq<Event>)
    ensures stdin == if inPipe then FromPipe else if c.stdin.Some? then FromFile(c.stdin.value) else FromParent
    ensures StartedOf(log') == StartedOf(log)
    ensures OpenedOf(log') == OpenedOf(log) + if stdin.FromFile? then [stdin.file] else []
    ensures FilesBooked(log, files, handles, log', files', handles')
  {
    stdin, files', handles', log' := FromParent, files, handles, log;
    if inPipe {
      stdin := FromPipe;
    } else if c.stdin.Some? {
      stdin := FromFile(c.stdin.value);
      files', handles', log' := OpenFile(c.stdin.value, files, handles, log);
    }
  }

  method OpenOutputs(c: Command, files: seq<File>, handles: nat, log: seq<Event>)
    returns (files': seq<File>, handles': nat, log': seq<Event>)
    ensures StartedOf(log') == StartedOf(log)
    ensures OpenedOf(log')
         == OpenedOf(log) + (if c.stdout.ToFile? then OutFile(c.stdout.file) else [])
                          + (if c.stderr.ErrToFile? then OutFile(c.stderr.file) else [])
    ensures FilesBooked(log, files, handles, log', files', handles')
  {
    files', handles', log' := files, handles, log;
    if c.stdout.ToFile? {
      files', handles', log' := OpenOutFile(c.stdout.file, files', handles', log');
    }
    if c.stderr.ErrToFile? {
      files', handles', log' := OpenOutFile(c.stderr.file, files', handles', log');
    }
  }

  method OpenFiles(c: Command, inPipe: bool, files: seq<File>, handles: nat, log: seq<Event>, ghost cwd: string)
    returns (stdin: Source, files': seq<File>, handles': nat, log': seq<Event>)
    ensures stdin == LaunchOf(c, cwd, inPipe).stdin
    ensures StartedOf(log') == StartedOf(log)
    ensures OpenedOf(log') == OpenedOf(log) + FilesOf(LaunchOf(c, cwd, inPipe))
    ensures FilesBooked(log, files, handles, log', files', handles')
  {
    stdin, files', handles', log' := OpenInput(c, inPipe, files, handles, log);
    files', handles', log' := OpenOutputs(c, files', handles', log');
    FilesInParts(OpenedOf(log), LaunchOf(c, cwd, inPipe));
  }

  lemma FilesInParts(names: seq<string>, launch: Launch)
    ensures names + (if launch.stdin.FromFile? then [launch.stdin.file] else [])
            + (if launch.stdout.ToFile? then OutFile(launch.stdout.file) else [])
            + (if launch.stderr.ErrToFile? then OutFile(launch.stderr.file) else [])
            == names + FilesOf(launch)
  {
  }

  lemma StartAgrees(log: seq<Event>, launch: Launch, procs: seq<Process>, p: Process, inPipe: bool, files: seq<File>, handles: nat)
    requires Agrees(Replay(log), procs, inPipe, p.pid, files, handles)
    requires (inPipe <==> procs != []) && launch.stdin.FromPipe? == inPipe
    ensures Agrees(Replay(log + [Started(p.pid, launch)]), procs + [p], launch.stdout.ToPipe?, p.pid + 1, files, handles)
  {
    Append(log, Started(p.pid, launch));
    PidsAppend(procs, p);
  }

  /** The process gets the command's words, variables and redirections, the pipe if there is one, and the directory. */
  predicate Carries(launch: Launch, c: Command, cwd: string, inPipe: bool) {
    && launch.argv == c.argv && launch.env == c.env && launch.stdout == c.stdout && launch.stderr == c.stderr
    && (inPipe ==> launch.stdin == FromPipe)
    && (!inPipe && c.stdin.Some? ==> launch.stdin == FromFile(c.stdin.value))
    && (!inPipe && c.stdin.None? ==> launch.stdin == FromParent)
    && (cwd == "." ==> launch.cwd == None)
    && (cwd != "." ==> launch.cwd == Some(cwd))
  }

  lemma LaunchCarries(c: Command, cwd: string, inPipe: bool)
    ensures Carries(LaunchOf(c, cwd, inPipe), c, cwd, inPipe)
  {
  }

  /** Opens the files of a command, starts it and adds it to the chain. */
  method StartCommand(c: Command, cwd: string, inPipe: bool, p: Process,
                      ghost procs: seq<Process>, files: seq<File>, handles: nat, log: seq<Event>)
    returns (files': seq<File>, handles': nat, log': seq<Event>)
    ensures StartedOf(log') == StartedOf(log) + [LaunchOf(c, cwd, inPipe)]
    ensures Carries(StartedOf(log')[|StartedOf(log)|], c, cwd, inPipe)
    ensures OpenedOf(log') == OpenedOf(log) + FilesOf(LaunchOf(c, cwd, inPipe))
    ensures Agrees(Replay(log), procs, inPipe, p.pid, files, handles) && (inPipe <==> procs != [])
        ==> Agrees(Replay(log'), procs + [p], c.stdout.ToPipe?, p.pid + 1, files', handles')
  {
    LaunchCarries(c, cwd, inPipe);
    var stdin;
    stdin, files', handles', log' := OpenFiles(c, inPipe, files, handles, log, cwd);
    var launch := Launch(c.argv, stdin, c.stdout, c.stderr, c.env, if cwd == "." then None else Some(cwd));
    Append(log', Started(p.pid, launch));
    if Agrees(Replay(log), procs, inPipe, p.pid, files, handles) && (inPipe <==> procs != []) {
      StartAgrees(log', launch, procs, p, inPipe, files', handles');
    }
    log' := log' + [Started(p.pid, launch)];
  }

  /** A chain is waited for, then its files are closed. */
  method FinishChain(procs: seq<Process>, files: seq<File>, log: seq<Event>) returns (retval: int, log': seq<Event>)
    requires procs != []
    ensures retval == procs[|procs| - 1].code
    ensures OnlyEnds(log, log')
    ensures var l := Replay(log);
            l.Ledger? && Agrees(l, procs, false, l.pids, files, l.handles)
            ==> Agrees(Replay(log'), [], false, l.pids, [], l.handles)
  {
    retval, log' := ExecPipedCommands(procs, log);
    log' := CloseFiles(files, log');
  }

  /** What follows a command that was started: the operator decides on its status. */
  function EvalTail(tail: seq<Node>, cwd: string, piped: bool, code: int, codes: seq<int>): Execution {
    if tail == [] || (tail[0].Or? && code == 0) || (tail[0].And? && code != 0) then Execution([], Status(code), false)
    else Eval(tail[1..], cwd, if IsOperator(tail[0]) then tail[0].Pipe? else piped, codes)
  }

  lemma EvalCommand(c: Command, tail: seq<Node>, cwd: string, piped: bool, codes: seq<int>)
    ensures Eval([Cmd(c)] + tail, cwd, piped, codes)
         == After(LaunchOf(c, cwd, piped), EvalTail(tail, cwd, piped, Code(codes), Later(codes)))
  {
    assert tail != [] ==> ([Cmd(c)] + tail)[2..] == tail[1..];
  }

  /** What was started so far, and then the rest. */
  function Continued(log: seq<Event>, e: Execution): Execution {
    e.(started := StartedOf(log) + e.started)
  }

  lemma StartThen(before: seq<Event>, log: seq<Event>, launch: Launch, e: Execution)
    requires StartedOf(log) == StartedOf(before) + [launch]
    ensures Continued(before, After(launch, e)) == Continued(log, e)
  {
  }

  /** The operator after a command: a pipe prolongs the chain, && and || finish it and may end the run. */
  method Connect(next: Node, inPipe: bool, procs: seq<Process>, files: seq<File>, log: seq<Event>)
    returns (done: bool, retval: int, inPipe': bool, procs': seq<Process>, files': seq<File>, log': seq<Event>)
    requires procs != []
    ensures OnlyEnds(log, log')
    ensures var code := procs[|procs| - 1].code;
            && (done <==> (next.Or? && code == 0) || (next.And? && code != 0))
            && (done ==> retval == code)
    ensures inPipe' == if IsOperator(next) then next.Pipe? else inPipe
    ensures next.Pipe? ==> procs' == procs
    ensures next.And? || next.Or? ==> procs' == [] && files' == []
    ensures var l := Replay(log);
            l.Ledger? && IsOperator(next) && Agrees(l, procs, next.Pipe?, l.pids, files, l.handles)
            ==> Agrees(Replay(log'), procs', inPipe', l.pids, files', l.handles)
  {
    done, retval, inPipe', procs', files', log' := false, 0, inPipe, procs, files, log;
    if next.Pipe? {
      inPipe' := true;
    } else if next.Or? {
      retval, log' := FinishChain(procs, files, log);
      done, inPipe', procs', files' := retval == 0, false, [], [];
    } else if next.And? {
      retval, log' := FinishChain(procs, files, log);
      done, inPipe', procs', files' := retval != 0, false, [], [];
    }
  }

  /** The local variables of a run. */
  datatype Bench = Bench(
    cwd: string,
    inPipe: bool,
    codes: seq<int>,
    procs: seq<Process>,
    pids: nat,
    files: seq<File>,
    handles: nat,
    log: seq<Event>)

  /** The log and the nodes to come add up to the whole run. */
  predicate OnCourse(total: Execution, nodes: seq<Node>, b: Bench) {
    total == Continued(b.log, Eval(nodes, b.cwd, b.inPipe, b.codes)) && NamesKept(b.log)
  }

  /** The same after a command was started, with its operator still to come. */
  predicate OnCourseTail(total: Execution, tail: seq<Node>, code: int, b: Bench) {
    total == Continued(b.log, EvalTail(tail, b.cwd, b.inPipe, code, b.codes)) && NamesKept(b.log)
  }

  /** The files opened are those of the commands started. */
  predicate NamesKept(log: seq<Event>) {
    OpenedOf(log) == AllFilesOf(StartedOf(log))
  }

  predicate Booked(b: Bench, toPipe: bool) {
    Agrees(Replay(b.log), b.procs, toPipe, b.pids, b.files, b.handles)
  }

  ghost predicate Balanced(nodes: seq<Node>, b: Bench) {
    Shaped(nodes) && (b.inPipe <==> b.procs != []) && (b.files != [] ==> b.inPipe) && Booked(b, b.inPipe)
  }

  ghost predicate BalancedTail(tail: seq<Node>, b: Bench) {
    && (tail != [] ==> IsOperator(tail[0]) && Shaped(tail[1..]))
    && Booked(b, tail != [] && tail[0].Pipe?)
  }

  /** Between the steps nothing is left over exactly when no chain goes on. */
  lemma BalancedSettles(nodes: seq<Node>, b: Bench)
    requires Balanced(nodes, b)
    ensures Settled(b.log) <==> !b.inPipe
  {
  }

  lemma ShapedCommand(c: Command, tail: seq<Node>)
    requires Shaped([Cmd(c)] + tail)
    ensures c.stdout.ToPipe? <==> tail != [] && tail[0].Pipe?
    ensures tail != [] ==> IsOperator(tail[0]) && Shaped(tail[1..])
  {
    assert tail != [] ==> ([Cmd(c)] + tail)[2..] == tail[1..];
  }

  lemma CommandOnCourse(c: Command, tail: seq<Node>, total: Execution, b: Bench, b': Bench)
    requires OnCourse(total, [Cmd(c)] + tail, b)
    requires b'.cwd == b.cwd && b'.inPipe == b.inPipe && b'.codes == Later(b.codes)
    requires StartedOf(b'.log) == StartedOf(b.log) + [LaunchOf(c, b.cwd, b.inPipe)]
    requires OpenedOf(b'.log) == OpenedOf(b.log) + FilesOf(LaunchOf(c, b.cwd, b.inPipe))
    ensures OnCourseTail(total, tail, Code(b.codes), b')
  {
    var launch := LaunchOf(c, b.cwd, b.inPipe);
    EvalCommand(c, tail, b.cwd, b.inPipe, b.codes);
    StartThen(b.log, b'.log, launch, EvalTail(tail, b.cwd, b.inPipe, Code(b.codes), b'.codes));
  }

  lemma CommandBalanced(c: Command, tail: seq<Node>, b: Bench, b': Bench)
    requires Balanced([Cmd(c)] + tail, b) && Booked(b', c.stdout.ToPipe?)
    ensures BalancedTail(tail, b')
  {
    ShapedCommand(c, tail);
  }

  method RunCommand(c: Command, b: Bench, ghost total: Execution, ghost tail: seq<Node>) returns (b': Bench)
    ensures b'.procs == b.procs + [Process(b.pids, Code(b.codes))]
    ensures OnCourse(total, [Cmd(c)] + tail, b) ==> OnCourseTail(total, tail, Code(b.codes), b')
    ensures Balanced([Cmd(c)] + tail, b) ==> BalancedTail(tail, b')
  {
    var p := Process(b.pids, Code(b.codes));
    var files, handles, log := StartCommand(c, b.cwd, b.inPipe, p, b.procs, b.files, b.handles, b.log);
    b' := Bench(b.cwd, b.inPipe, Later(b.codes), b.procs + [p], b.pids + 1, files, handles, log);
    if OnCourse(total, [Cmd(c)] + tail, b) {
      CommandOnCourse(c, tail, total, b, b');
    }
    if Balanced([Cmd(c)] + tail, b) {
      CommandBalanced(c, tail, b, b');
    }
  }

  /** What the run comes to when it ends with this log. */
  predicate EndsWith(total: Execution, log: seq<Event>, outcome: Outcome) {
    total.started == StartedOf(log) && total.outcome == outcome && NamesKept(log)
  }

  lemma TailOnCourse(total: Execution, tail: seq<Node>, code: int, b: Bench, b': Bench)
    requires OnCourseTail(total, tail, code, b) && OnlyEnds(b.log, b'.log)
    requires b'.cwd == b.cwd && b'.codes == b.codes
    requires tail != [] ==> b'.inPipe == if IsOperator(tail[0]) then tail[0].Pipe? else b.inPipe
    ensures if tail == [] || (tail[0].Or? && code == 0) || (tail[0].And? && code != 0)
            then EndsWith(total, b'.log, Status(code)) else OnCourse(total, tail[1..], b')
  {
    assert StartedOf(b.log) + [] == StartedOf(b.log);
  }

  method RunTail(tail: seq<Node>, b: Bench, ghost total: Execution)
    returns (status: Option<int>, rest: seq<Node>, b': Bench)
    requires b.procs != []
    ensures |rest| <= |tail|
    ensures OnCourseTail(total, tail, b.procs[|b.procs| - 1].code, b) ==>
      if status.Some? then EndsWith(total, b'.log, Status(status.value)) else OnCourse(total, rest, b')
    ensures BalancedTail(tail, b) ==> if status.Some? then Settled(b'.log) else Balanced(rest, b')
  {
    ghost var code := b.procs[|b.procs| - 1].code;
    if tail == [] {
      var retval, log := FinishChain(b.procs, b.files, b.log);
      status, rest, b' := Some(retval), [], b.(log := log);
    } else {
      var done, retval, inPipe, procs, files, log := Connect(tail[0], b.inPipe, b.procs, b.files, b.log);
      b' := b.(inPipe := inPipe, procs := procs, files := files, log := log);
      status := if done then Some(retval) else None;
      rest := tail[1..];
    }
    if OnCourseTail(total, tail, code, b) {
      TailOnCourse(total, tail, code, b, b');
    }
  }

  lemma WellFormedRuns(nodes: seq<Node>, codes: seq<int>)
    requires WellFormed(nodes)
    ensures Shaped(nodes)
    ensures CdsReady(nodes) ==> Eval(nodes, ".", false, codes).outcome.Status?
    ensures Eval(nodes, ".", false, codes).outcome.Status? || !BreaksChain(nodes, false)
        ==> !Eval(nodes, ".", false, codes).unfinished
  {
    WellFormedIsShaped(nodes);
    if Eval(nodes, ".", false, codes).outcome.Status? {
      StatusFinishes(nodes, ".", false, codes);
    }
    if CdsReady(nodes) {
      ReadyRunsReturn(nodes, ".", false, codes);
    }
    if !BreaksChain(nodes, false) {
      UnbrokenFinishes(nodes, ".", false, codes);
    }
  }

  class Pipeline {
    var currentCommand: Option<Node>
    var pipeline: seq<Node>

    constructor ()
      ensures currentCommand == None && pipeline == []
    {
      currentCommand, pipeline := None, [];
    }

    /** Fails, changing nothing, when there is no current command. */
    method CommitCommand() returns (ok: bool)
      modifies this
      ensures ok == old(currentCommand).Some?
      ensures currentCommand == None
      ensures pipeline == if ok then old(pipeline) + [old(currentCommand).value] else old(pipeline)
    {
      if currentCommand.None? {
        return false;
      }
      pipeline := pipeline + [currentCommand.value];
      currentCommand := None;
      return true;
    }

    /** A token while a command is being read; `Failed` for a failed assertion. */
    method ReadArgument(token: string) returns (state: Mode)
      requires currentCommand.Some? && currentCommand.value.Cmd?
      modifies this
      ensures Parser(state, [], currentCommand, pipeline)
           == FeedCommand(Parser(InCommand, [], old(currentCommand), old(pipeline)), token, KindOf(token))
    {
      var c := currentCommand.value.command;
      state := InCommand;
      match KindOf(token)
      case ToOut => state := NeedStdout;
      case ToErr => state := NeedStderr;
      case ErrToOut =>
        if !c.stderr.ErrInherited? {
          return Failed;
        }
        currentCommand := Some(Cmd(c.(stderr := ErrToStdout)));
      case FromIn => state := NeedStdin;
      case Bar =>
        if !c.stdout.Inherited? {
          return Failed;
        }
        currentCommand := Some(Cmd(c.(stdout := ToPipe)));
        var _ := CommitCommand();
        pipeline := pipeline + [Pipe];
        state := Begin;
      case AndAnd =>
        var _ := CommitCommand();
        pipeline := pipeline + [And];
        state := Begin;
      case OrOr =>
        var _ := CommitCommand();
        pipeline := pipeline + [Or];
        state := Begin;
      case Word =>
        currentCommand := Some(Cmd(c.(argv := c.argv + [token])));
    }

    /** The fields hold what the state machine makes of the tokens; a node list only if every assertion holds. */
    method Parse(tokens: seq<string>) returns (r: ParseResult)
      modifies this
      ensures r == ShellSyntax.Parse(tokens)
      ensures r.Parsed? ==> pipeline == r.nodes && currentCommand == None
      ensures r.AssertionError? ==>
        var p := FeedAll(START, tokens); pipeline == p.pipeline && currentCommand == p.current
    {
      currentCommand, pipeline := None, [];
      var state, envVars: Env, rest := Begin, [], tokens;
      while rest != []
        invariant ModeOk(Parser(state, envVars, currentCommand, pipeline)) && !state.Failed?
        invariant !state.Begin? ==> envVars == []
        invariant FeedAll(START, tokens) == FeedAll(Parser(state, envVars, currentCommand, pipeline), rest)
      {
        var token := rest[0];
        rest := rest[1..];
        state, envVars := ReadToken(state, envVars, token);
        if state.Failed? {
          FailedStays(Parser(state, envVars, currentCommand, pipeline), rest);
          return AssertionError;
        }
      }
      var ok := CommitCommand();
      r := if ok then Parsed(pipeline) else AssertionError;
    }

    method ReadToken(state: Mode, envVars: Env, token: string) returns (state': Mode, envVars': Env)
      requires ModeOk(Parser(state, envVars, currentCommand, pipeline)) && !state.Failed?
      requires !state.Begin? ==> envVars == []
      modifies this
      ensures Parser(state', envVars', currentCommand, pipeline)
           == Feed(Parser(state, envVars, old(currentCommand), old(pipeline)), token)
      ensures !state'.Begin? && !state'.Failed? ==> envVars' == []
    {
      state', envVars' := state, envVars;
      match state
      case Begin =>
        var m := MatchEnv(token);
        if m.Some? {
          envVars' := SetEnv(envVars, m.value.0, m.value.1);
        } else if token == "cd" {
          currentCommand := Some(Chdir(None));
          state' := if envVars == [] then InChdir else Failed;
        } else {
          currentCommand := Some(NewCommand(token, envVars));
          state', envVars' := InCommand, [];
        }
      case InCommand =>
        state' := ReadArgument(token);
      case InChdir =>
        if KindOf(token).AndAnd? {
          var _ := CommitCommand();
          pipeline := pipeline + [And];
          state' := Begin;
        } else if currentCommand.value.dir.None? {
          currentCommand := Some(Chdir(Some(token)));
        } else {
          state' := Failed;
        }
      case NeedStdout =>
        var c := currentCommand.value.command;
        if c.stdout.Inherited? {
          currentCommand, state' := Some(Cmd(c.(stdout := ToFile(token)))), InCommand;
        } else {
          state' := Failed;
        }
      case NeedStderr =>
        var c := currentCommand.value.command;
        if c.stderr.ErrInherited? {
          currentCommand, state' := Some(Cmd(c.(stderr := ErrToFile(token)))), InCommand;
        } else {
          state' := Failed;
        }
      case NeedStdin =>
        var c := currentCommand.value.command;
        if c.stdin.None? {
          currentCommand, state' := Some(Cmd(c.(stdin := Some(token)))), InCommand;
        } else {
          state' := Failed;
        }
    }

    /** Works through the nodes. */
    method RunNodes(codes: seq<int>) returns (outcome: Outcome, log: seq<Event>)
      ensures EndsWith(Eval(pipeline, ".", false, codes), log, outcome)
      ensures WellFormed(pipeline) ==> (Settled(log) <==> !Eval(pipeline, ".", false, codes).unfinished)
    {
      ghost var total := Eval(pipeline, ".", false, codes);
      ghost var wf := WellFormed(pipeline);
      if wf {
        WellFormedRuns(pipeline, codes);
      }
      var rest, b := pipeline, Bench(".", false, codes, [], 0, [], 0, []);
      while rest != []
        invariant OnCourse(total, rest, b)
        invariant wf ==> Balanced(rest, b)
        decreases |rest|
      {
        var node := rest[0];
        if wf {
          BalancedSettles(rest, b);
        }
        if node.Chdir? {
          if |rest| == 1 {
            return IndexError, b.log;
          }
          if !rest[1].And? {
            return AssertionFailed, b.log;
          }
          if node.dir.None? {
            return TypeError, b.log;
          }
          rest, b := rest[2..], b.(cwd := JoinPath(b.cwd, node.dir.value));
          continue;
        }
        if !node.Cmd? {
          return AssertionFailed, b.log;
        }
        ghost var nodes := rest;
        rest := rest[1..];
        assert nodes == [Cmd(node.command)] + rest;
        b := RunCommand(node.command, b, total, rest);
        var status;
        status, rest, b := RunTail(rest, b, total);
        if status.Some? {
          return Status(status.value), b.log;
        }
      }
      return NoStatus, b.log;
    }

    /**
     Starts what `Eval` says and returns what `Eval` says; on a pipeline from `parse` that comes to a
     status, every process is waited for and every file is closed. Each process stands for a command of
     the pipeline, and each file is opened for a use some process has for it.
     */
    method Run(codes: seq<int>) returns (outcome: Outcome, log: seq<Event>)
      ensures outcome == Eval(pipeline, ".", false, codes).outcome
      ensures StartedOf(log) == Eval(pipeline, ".", false, codes).started
      ensures StartsInOrder(pipeline, StartedOf(log))
      ensures OpenedOf(log) == AllFilesOf(StartedOf(log)) && OpenedFor(OpenedOf(log), StartedOf(log))
      ensures WellFormed(pipeline) ==> (Settled(log) <==> !Eval(pipeline, ".", false, codes).unfinished)
      ensures WellFormed(pipeline) && outcome.Status? ==> Settled(log)
      ensures WellFormed(pipeline) && !BreaksChain(pipeline, false) ==> Settled(log)
      ensures WellFormed(pipeline) && CdsReady(pipeline) ==> outcome.Status?
    {
      outcome, log := RunNodes(codes);
      EvalStartsInOrder(pipeline, codes);
      FilesAreOpenedFor(StartedOf(log));
      if WellFormed(pipeline) {
        WellFormedRuns(pipeline, codes);
      }
    }
  }
}
