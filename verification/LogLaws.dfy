// Safety over whole runs of the file logger: ownership of descriptors, release,
// idempotence and framing.
module LogLaws {
  import opened LogTable
  import opened LogRuns

  // ---------- runs ----------

  ghost predicate RunAllowed(norm: string -> string, w: World, ops: seq<Op>)
    requires Valid(w) && KeepsNames(norm)
    decreases |ops|
  {
    ops == [] || (Allowed(w, ops[0]) && RunAllowed(norm, Step(norm, w, ops[0]), ops[1..]))
  }

  // Every state a run passes through is valid: the open descriptors are those of the
  // table, no path is open twice, and logging is on exactly while registered.
  ghost function Run(norm: string -> string, w: World, ops: seq<Op>): (w': World)
    requires Valid(w) && KeepsNames(norm) && RunAllowed(norm, w, ops)
    ensures Valid(w')
    ensures Others(w'.dependents, w.me) == Others(w.dependents, w.me)
    ensures w'.me == w.me && w'.hasSource == w.hasSource
    decreases |ops|
  {
    if ops == [] then w else Run(norm, Step(norm, w, ops[0]), ops[1..])
  }

  // A logger fresh from its constructor.
  ghost predicate Started(w: World)
  {
    && w.def == NO_FILE && w.logs == map[] && w.files == map[]
    && !w.on && w.hasSource && w.me !in w.dependents
  }

  lemma StartedIsValid(w: World)
    requires Started(w)
    ensures Valid(w)
  {
    assert multiset(w.dependents)[w.me] == 0;
  }

  // ---------- release ----------

  // Closing all logs releases everything exactly when logging is on or the default log
  // has no descriptor.
  lemma CloseAllReleases(w: World)
    requires Valid(w)
    ensures CloseAllLogs(w).logs == map[]
    ensures CloseAllLogs(w).files == map[] <==> w.on || w.def.fd == -1
    ensures Destroy(w).files == CloseAllLogs(w).files && !Destroy(w).on
    ensures multiset(Destroy(w).dependents)[w.me] == 0
  {
    CloseAllKeepsValid(w);
    RemoveFirstRemoves(CloseAllLogs(w).dependents, w.me);
    if w.on {
      assert CloseAllLogs(w).files.Keys == {};
    } else if w.def.fd != -1 {
      assert w.def.fd in CloseAllLogs(w).files;
    } else {
      assert w.files.Keys == {};
    }
  }

  // The descriptor of the default log can outlive the logger: an operation that drops its
  // name keeps the descriptor, and the next close of any other id, finding no log left,
  // turns logging off. Destruction right after that leaves the descriptor open.
  lemma LostDescriptor(norm: string -> string, w: World, op: Op, other: string)
    requires Valid(w) && KeepsNames(norm) && Allowed(w, op) && DropsName(op)
    requires w.logs == map[] && w.def.name != "" && other != DEFAULT_FILE_ID
    ensures var ops := [op, CloseLogOp(other)];
            && RunAllowed(norm, w, ops)
            && Destroy(Run(norm, w, ops)).files.Keys == {w.def.fd}
  {
    var ops := [op, CloseLogOp(other)];
    AppendRefused(w, norm, op.name, op.id, op.env);
    var w1 := Step(norm, w, op);
    assert ops[1..] == [ops[1]] && ops[1..][1..] == [];
    var w2 := Step(norm, w1, ops[1]);
    assert w1 == NameDropped(w) && w1.on;
    assert !w2.on && w2.files == w.files;
    assert RunAllowed(norm, w2, []);
    assert RunAllowed(norm, w1, [ops[1]]);
    assert Run(norm, w1, [ops[1]]) == w2;
  }

  ghost predicate NameIffOpen(w: World)
  {
    w.def.name != "" <==> w.def.fd != -1
  }

  // The name and the descriptor part exactly when there is a name to drop.
  lemma StepKeepsNameIffOpen(norm: string -> string, w: World, op: Op)
    requires Valid(w) && Allowed(w, op) && KeepsNames(norm) && NameIffOpen(w)
    ensures NameIffOpen(Step(norm, w, op)) <==> !(DropsName(op) && w.def.name != "")
  {
    match op
    case LogAppendOp(name, id, env) => AppendKeepsNameIffOpen(norm, w, name, id, env);
    case _ =>
  }

  lemma AppendKeepsNameIffOpen(norm: string -> string, w: World, name: string, id: string, env: OpenOutcome)
    requires Sound(w) && Possible(w, env) && KeepsNames(norm) && NameIffOpen(w)
    ensures NameIffOpen(LogAppend(w, norm, name, id, env).0) <==>
            !(DropsName(LogAppendOp(name, id, env)) && w.def.name != "")
  {
    if Succeeds(w, name, env) {
      AppendSucceeds(w, norm, name, id, env);
    } else {
      AppendRefused(w, norm, name, id, env);
    }
  }

  // Before the call, whatever open, stat and chmod will answer: the name and the descriptor
  // stay together exactly when there is no name to drop, or the call is for another log
  // and has a name.
  lemma {:induction false} NameStaysWithFdExactly(norm: string -> string, w: World, name: string, id: string)
    requires Sound(w) && KeepsNames(norm) && NameIffOpen(w)
    ensures (forall env | Possible(w, env) :: NameIffOpen(LogAppend(w, norm, name, id, env).0)) <==>
            w.def.name == "" || (name != "" && id != DEFAULT_FILE_ID)
  {
    assert Possible(w, OpenFailed);
    AppendKeepsNameIffOpen(norm, w, name, id, OpenFailed);
    forall env | Possible(w, env)
      ensures NameIffOpen(LogAppend(w, norm, name, id, env).0) <==>
              !(DropsName(LogAppendOp(name, id, env)) && w.def.name != "")
    {
      AppendKeepsNameIffOpen(norm, w, name, id, env);
    }
  }

  // Along the run, no operation that drops the default log's name finds one to drop.
  ghost predicate DropsNothing(norm: string -> string, w: World, ops: seq<Op>)
    requires Valid(w) && KeepsNames(norm) && RunAllowed(norm, w, ops)
    decreases |ops|
  {
    ops == [] ||
    (!(DropsName(ops[0]) && w.def.name != "") && DropsNothing(norm, Step(norm, w, ops[0]), ops[1..]))
  }

  // In every state the run passes through, the default log has a name exactly while its
  // descriptor is open.
  ghost predicate AlwaysNameIffOpen(norm: string -> string, w: World, ops: seq<Op>)
    requires Valid(w) && KeepsNames(norm) && RunAllowed(norm, w, ops)
    decreases |ops|
  {
    NameIffOpen(w) && (ops == [] || AlwaysNameIffOpen(norm, Step(norm, w, ops[0]), ops[1..]))
  }

  lemma {:induction false} NameIffOpenExactly(norm: string -> string, w: World, ops: seq<Op>)
    requires Valid(w) && KeepsNames(norm) && RunAllowed(norm, w, ops) && NameIffOpen(w)
    ensures AlwaysNameIffOpen(norm, w, ops) <==> DropsNothing(norm, w, ops)
    decreases |ops|
  {
    if ops != [] {
      StepKeepsNameIffOpen(norm, w, ops[0]);
      if NameIffOpen(Step(norm, w, ops[0])) {
        NameIffOpenExactly(norm, Step(norm, w, ops[0]), ops[1..]);
      } else {
        assert !AlwaysNameIffOpen(norm, Step(norm, w, ops[0]), ops[1..]);
      }
    }
  }

  // In such a run, whatever else it does, destruction leaks nothing.
  lemma {:induction false} CleanRunReleases(norm: string -> string, w: World, ops: seq<Op>)
    requires Valid(w) && KeepsNames(norm) && RunAllowed(norm, w, ops) && NameIffOpen(w)
    requires DropsNothing(norm, w, ops)
    ensures NameIffOpen(Run(norm, w, ops))
    ensures Destroy(Run(norm, w, ops)).files == map[]
    decreases |ops|
  {
    if ops == [] {
      CloseAllReleases(w);
    } else {
      StepKeepsNameIffOpen(norm, w, ops[0]);
      CleanRunReleases(norm, Step(norm, w, ops[0]), ops[1..]);
    }
  }

  // ---------- logAppend ----------

  // The answer to a successful open, by what is open under the same path: nothing, this
  // id (the table is left alone), or another id (refused, and left alone).
  lemma AppendAnswers(w: World, norm: string -> string, name: string, id: string, env: OpenOutcome)
    requires Valid(w) && KeepsNames(norm) && Possible(w, env) && Succeeds(w, name, env)
    ensures var full := norm(name);
            var (w', res) := LogAppend(w, norm, name, id, env);
            && (NameOf(w, id) == full ==> w' == w && res == NO_PROBLEM)
            && (res == LOG_ALREADY_OPEN(full) <==> exists k :: k != id && NameOf(w, k) == full)
            && (res == LOG_ALREADY_OPEN(full) ==> w' == w)
            && (res == NO_PROBLEM <==> NameOf(w', id) == full)
  {
    AppendSucceeds(w, norm, name, id, env);
    AppendReturns(w, norm, name, id, env);
    UsedMeansOpen(w, norm(name));
  }

  lemma UsedMeansOpen(w: World, full: string)
    requires Valid(w) && full != ""
    ensures !Unused(w, full) <==> exists k :: NameOf(w, k) == full
    ensures forall j, k | NameOf(w, j) == full && NameOf(w, k) == full :: j == k
    ensures !Unused(w, full) ==> w.on
  {
    if NameInUse(w.logs, full) {
      var k :| k in w.logs && w.logs[k].name == full;
      assert NameOf(w, k) == full;
    }
    if w.def.name == full {
      assert NameOf(w, DEFAULT_FILE_ID) == full;
    }
  }

  // What the table and the files say about an id.
  ghost predicate SameLog(w: World, w': World, id: string)
  {
    if id == DEFAULT_FILE_ID then
      w'.def == w.def && SameFile(w, w', w.def.fd)
    else
      && (id in w'.logs <==> id in w.logs)
      && (id in w.logs ==> w'.logs[id] == w.logs[id] && w.logs[id].fd in w.files && SameFile(w, w', w.logs[id].fd))
  }

  // A file that was open still is: the same file, with the same written to it.
  ghost predicate SameFile(w: World, w': World, fd: int)
  {
    fd in w.files ==> fd in w'.files && w'.files[fd] == w.files[fd]
  }

  lemma OwnedFd(w: World, id: string)
    requires Sound(w) && id in w.logs
    ensures w.logs[id].fd in w.files
  {
    assert w.logs[id].fd in Fds(w.logs);
  }

  lemma InstallFrames(w: World, id: string, lf: LogFile, f: File, other: string)
    requires Sound(w) && Fresh(w, lf) && other != id
    ensures SameLog(w, Install(w, id, lf, f), other)
  {
    if other in w.logs {
      OwnedFd(w, other);
    }
  }

  lemma AppendFrames(w: World, norm: string -> string, name: string, id: string, env: OpenOutcome, other: string)
    requires Sound(w) && Possible(w, env) && name != "" && other != id
    ensures SameLog(w, LogAppend(w, norm, name, id, env).0, other)
  {
    if other in w.logs {
      OwnedFd(w, other);
    }
    if Succeeds(w, name, env) {
      AppendSucceeds(w, norm, name, id, env);
      InstallFrames(TurnOn(w), id, NewFile(norm, name, env), ForAppending(name), other);
    } else {
      AppendRefused(w, norm, name, id, env);
    }
  }

  // With an empty name the default log loses its name, whatever id was asked for: an
  // append for another id leaves the default log alone exactly when its name is not
  // empty or there was no name to lose.
  lemma AppendLeavesDefaultAlone(w: World, norm: string -> string, name: string, id: string, env: OpenOutcome)
    requires Sound(w) && Possible(w, env) && id != DEFAULT_FILE_ID
    ensures SameLog(w, LogAppend(w, norm, name, id, env).0, DEFAULT_FILE_ID) <==> name != "" || w.def.name == ""
  {
    if name != "" {
      AppendFrames(w, norm, name, id, env, DEFAULT_FILE_ID);
    }
  }

  // ---------- closeLog ----------

  lemma CloseFrames(w: World, id: string, other: string)
    requires Sound(w) && other != id
    ensures SameLog(w, CloseLog(w, id), other)
    ensures w.on ==> NameOf(CloseLog(w, id), id) == ""
  {
    if other in w.logs {
      OwnedFd(w, other);
    }
  }

  // Logging goes off with the last log, and not before.
  lemma CloseTurnsOffWithTheLast(w: World, id: string)
    requires Valid(w)
    ensures var w' := CloseLog(w, id);
            w'.on <==> w.on && (w'.logs != map[] || w'.def.name != "")
    ensures CloseLog(w, id).dependents ==
            if w.on && !CloseLog(w, id).on then RemoveFirst(w.dependents, w.me) else w.dependents
  {
    assert w.on ==> w.hasSource;
  }

  // ---------- a reachable state in which the exceptions show ----------

  // Opening the default log of a fresh logger.
  lemma DefaultOpened(norm: string -> string, w: World, name: string, fd: nat)
    requires Started(w) && KeepsNames(norm) && name != ""
    ensures Valid(w)
    ensures var ops := [LogAppendOp(name, DEFAULT_FILE_ID, Opened(fd, true, true))];
            && RunAllowed(norm, w, ops)
            && var w' := Run(norm, w, ops);
               && w'.def == LogFile(norm(name), fd, true) && w'.logs == map[]
               && w'.files == map[fd := File(name, true, [])]
               && w'.hasSource && w'.on
  {
    StartedIsValid(w);
    var op := LogAppendOp(name, DEFAULT_FILE_ID, Opened(fd, true, true));
    AppendSucceeds(w, norm, name, DEFAULT_FILE_ID, op.env);
    assert [op][1..] == [];
    assert RunAllowed(norm, Step(norm, w, op), []);
    assert Run(norm, Step(norm, w, op), []) == Step(norm, w, op);
  }

  // From there an append for any other id, with an empty name, is not without effect on
  // the default log.
  lemma EmptyNameReachesTheDefault(norm: string -> string, w: World, name: string, fd: nat, id: string)
    requires Started(w) && KeepsNames(norm) && name != "" && id != DEFAULT_FILE_ID
    ensures Valid(w)
    ensures var ops := [LogAppendOp(name, DEFAULT_FILE_ID, Opened(fd, true, true))];
            && RunAllowed(norm, w, ops)
            && var w' := Run(norm, w, ops);
               !SameLog(w', LogAppend(w', norm, "", id, OpenFailed).0, DEFAULT_FILE_ID)
  {
    DefaultOpened(norm, w, name, fd);
    var w' := Run(norm, w, [LogAppendOp(name, DEFAULT_FILE_ID, Opened(fd, true, true))]);
    AppendLeavesDefaultAlone(w', norm, "", id, OpenFailed);
  }
}
