// The whole life of a file logger: any operations in any order, logOverwrite and the loss
// of the source among them. The table may get out of order, but no descriptor is closed
// twice, none is in two places, and exactly the ones given here are lost.
module LogLifecycle {
  import opened LogTable
  import opened LogRuns
  import opened LogOverwrites

  datatype AnyOp =
    | Regular(op: Op)
    | LogOverwriteOp(fileName: string, id: string, env: OpenOutcome)
    | DetachOp

  ghost predicate AnyAllowed(w: World, op: AnyOp)
    requires Sound(w)
  {
    match op
    case Regular(op) => Allowed(w, op)
    case LogOverwriteOp(fileName, _, env) => OverwritePossible(w, fileName, env)
    case DetachOp => true
  }

  // Each operation is defined, so closes only what is open, and loses exactly Lost.
  ghost function AnyStep(norm: string -> string, w: World, op: AnyOp): (w': World)
    requires Sound(w) && AnyAllowed(w, op)
    ensures Sound(w')
    ensures Leaked(w') == Leaked(w) + Lost(w, op)
    ensures forall fd | fd in Leaked(w) :: w'.files[fd] == w.files[fd]
  {
    match op
    case Regular(LogAppendOp(name, id, env)) =>
      AppendAccounts(norm, w, name, id, env);
      LogAppend(w, norm, name, id, env).0
    case Regular(CloseLogOp(id)) => CloseAccounts(w, id); CloseLog(w, id)
    case Regular(CloseAllLogsOp) => CloseAllAccounts(w); CloseAllLogs(w)
    case Regular(UpdateOp(fromSource, h, text)) =>
      UpdateAccounts(w, fromSource, h, text);
      UpdateFrom(w, fromSource, h, text)
    case LogOverwriteOp(fileName, id, env) =>
      OverwriteAccounts(norm, w, fileName, id, env);
      LogOverwrite(w, norm, fileName, id, env).0
    case DetachOp => Detach(w)
  }

  // What an operation loses: the descriptor of the log that an overwrite replaces, and
  // those of the map that are forgotten with logging off.
  ghost function Lost(w: World, op: AnyOp): set<int>
  {
    match op
    case Regular(CloseAllLogsOp) => if w.on then {} else Fds(w.logs)
    case LogOverwriteOp(fileName, id, env) =>
      if Succeeds(w, Trim(fileName), env) && id != DEFAULT_FILE_ID then FdOf(w.logs, id) else {}
    case _ => {}
  }

  ghost predicate Accounted(w: World, w': World, lost: set<int>)
  {
    && Sound(w') && Leaked(w') == Leaked(w) + lost
    && forall fd | fd in Leaked(w) :: w'.files[fd] == w.files[fd]
  }

  lemma AppendAccounts(norm: string -> string, w: World, name: string, id: string, env: OpenOutcome)
    requires Sound(w) && Possible(w, env)
    ensures Accounted(w, LogAppend(w, norm, name, id, env).0, {})
  {
    if Succeeds(w, name, env) {
      AppendSucceeds(w, norm, name, id, env);
      InstallAccounts(TurnOn(w), id, NewFile(norm, name, env), ForAppending(name));
    } else {
      AppendRefused(w, norm, name, id, env);
    }
  }

  lemma CloseAccounts(w: World, id: string)
    requires Sound(w)
    ensures Accounted(w, CloseLog(w, id), {})
  {
    CloseEntryAccounts(w, id);
  }

  lemma CloseAllAccounts(w: World)
    requires Sound(w)
    ensures Accounted(w, CloseAllLogs(w), if w.on then {} else Fds(w.logs))
  {
    assert w.def.fd !in Fds(w.logs);
  }

  lemma UpdateAccounts(w: World, fromSource: bool, h: bool, text: string)
    requires Sound(w)
    ensures Accounted(w, UpdateFrom(w, fromSource, h, text), {})
  {
    var t := StripEtx(text);
    forall fd | fd in Leaked(w) ensures More(w.files[fd], Written(w, fd, h, t)) == w.files[fd] {
      NothingWritten(w, fd, h, t);
    }
  }

  lemma NothingWritten(w: World, fd: int, h: bool, text: string)
    requires fd in Leaked(w)
    ensures Written(w, fd, h, text) == []
  {
    assert forall k :: IsLogOf(w, k, fd) ==> fd in Fds(w.logs);
  }

  lemma OverwriteAccounts(norm: string -> string, w: World, fileName: string, id: string, env: OpenOutcome)
    requires Sound(w) && OverwritePossible(w, fileName, env)
    ensures Accounted(w, LogOverwrite(w, norm, fileName, id, env).0, Lost(w, LogOverwriteOp(fileName, id, env)))
  {
    GiveUpKeepsLeaked(w);
    if Succeeds(w, Trim(fileName), env) {
      PutLoses(GiveUpDefault(w), id, NewFile(norm, Trim(fileName), env), ForWriting(Trim(fileName)));
    } else {
      OverwriteRefused(w, norm, fileName, id, env);
    }
  }

  lemma GiveUpKeepsLeaked(w: World)
    requires Sound(w)
    ensures Accounted(w, GiveUpDefault(w), {})
  {
    GiveUpAccounts(w);
  }

  lemma PutLoses(w: World, id: string, lf: LogFile, f: File)
    requires Sound(w) && w.hasSource && Fresh(w, lf) && w.def.fd == -1
    ensures Accounted(w, Put(TurnOn(w), id, lf, f), if id != DEFAULT_FILE_ID then FdOf(w.logs, id) else {})
  {
    PutAccounts(TurnOn(w), id, lf, f);
  }

  lemma AppendIsSound(norm: string -> string, w: World, name: string, id: string, env: OpenOutcome)
    requires Sound(w) && Possible(w, env)
    ensures Sound(LogAppend(w, norm, name, id, env).0)
  {
    AppendAccounts(norm, w, name, id, env);
  }

  lemma OverwriteIsSound(norm: string -> string, w: World, fileName: string, id: string, env: OpenOutcome)
    requires Sound(w) && OverwritePossible(w, fileName, env)
    ensures Sound(LogOverwrite(w, norm, fileName, id, env).0)
  {
    OverwriteAccounts(norm, w, fileName, id, env);
  }

  // ---------- runs ----------

  ghost predicate LifeAllowed(norm: string -> string, w: World, ops: seq<AnyOp>)
    requires Sound(w)
    decreases |ops|
  {
    ops == [] || (AnyAllowed(w, ops[0]) && LifeAllowed(norm, AnyStep(norm, w, ops[0]), ops[1..]))
  }

  // What is lost stays open for good and is never written to again.
  ghost function Life(norm: string -> string, w: World, ops: seq<AnyOp>): (w': World)
    requires Sound(w) && LifeAllowed(norm, w, ops)
    ensures Sound(w')
    ensures Leaked(w) <= Leaked(w')
    ensures forall fd | fd in Leaked(w) :: w'.files[fd] == w.files[fd]
    decreases |ops|
  {
    if ops == [] then w else Life(norm, AnyStep(norm, w, ops[0]), ops[1..])
  }

  // Everything the operations of a run lose.
  ghost function LostBy(norm: string -> string, w: World, ops: seq<AnyOp>): set<int>
    requires Sound(w) && LifeAllowed(norm, w, ops)
    decreases |ops|
  {
    if ops == [] then {} else Lost(w, ops[0]) + LostBy(norm, AnyStep(norm, w, ops[0]), ops[1..])
  }

  // What is still open when the logger is destroyed after any run at all: what was lost
  // on the way and, if logging is off by then, everything the table still holds.
  lemma {:induction false} DestructionLeaks(norm: string -> string, w: World, ops: seq<AnyOp>)
    requires Sound(w) && LifeAllowed(norm, w, ops)
    ensures var w' := Life(norm, w, ops);
            Destroy(w').files.Keys ==
            Leaked(w) + LostBy(norm, w, ops) + if w'.on then {} else Owned(w')
    decreases |ops|
  {
    if ops != [] {
      DestructionLeaks(norm, AnyStep(norm, w, ops[0]), ops[1..]);
    }
  }

  // ---------- the source goes first ----------

  ghost predicate SourceGone(w: World)
  {
    !w.on && !w.hasSource
  }

  // An overwrite gives up the default log's descriptor before it asks for the source.
  predicate GivesUpDefault(op: AnyOp)
  {
    op.LogOverwriteOp? && Trim(op.fileName) != ""
  }

  // What one operation, and what a run, closes without a source: at most the default log's
  // descriptor.
  function GivenUp(defFd: int, op: AnyOp): set<int>
  {
    if GivesUpDefault(op) then DefaultFd(defFd) else {}
  }

  ghost function ClosedBy(defFd: int, ops: seq<AnyOp>): set<int>
  {
    if exists op :: op in ops && GivesUpDefault(op) then DefaultFd(defFd) else {}
  }

  lemma ClosedByFirst(defFd: int, ops: seq<AnyOp>)
    requires ops != []
    ensures ClosedBy(defFd, ops) ==
            GivenUp(defFd, ops[0]) + ClosedBy(if GivesUpDefault(ops[0]) then -1 else defFd, ops[1..])
  {
    assert ops[0] in ops;
    assert forall op :: op in ops <==> op == ops[0] || op in ops[1..];
  }

  lemma StepWithoutSource(norm: string -> string, w: World, op: AnyOp)
    requires Sound(w) && SourceGone(w) && AnyAllowed(w, op)
    ensures var w' := AnyStep(norm, w, op);
            && SourceGone(w')
            && w'.def.fd == (if GivesUpDefault(op) then -1 else w.def.fd)
            && w'.files == w.files - GivenUp(w.def.fd, op)
  {
    match op
    case Regular(LogAppendOp(name, id, env)) => AppendRefused(w, norm, name, id, env);
    case LogOverwriteOp(fileName, id, env) => OverwriteRefused(w, norm, fileName, id, env);
    case _ =>
  }

  lemma {:induction false} LifeWithoutSource(norm: string -> string, w: World, ops: seq<AnyOp>)
    requires Sound(w) && SourceGone(w) && LifeAllowed(norm, w, ops)
    ensures SourceGone(Life(norm, w, ops))
    ensures Life(norm, w, ops).files == w.files - ClosedBy(w.def.fd, ops)
    decreases |ops|
  {
    if ops != [] {
      var w1 := AnyStep(norm, w, ops[0]);
      StepWithoutSource(norm, w, ops[0]);
      ClosedByFirst(w.def.fd, ops);
      LifeWithoutSource(norm, w1, ops[1..]);
      RemovedInTurn(w.files, GivenUp(w.def.fd, ops[0]), ClosedBy(w1.def.fd, ops[1..]));
    }
  }

  lemma RemovedInTurn<T>(files: map<int, T>, a: set<int>, b: set<int>)
    ensures files - a - b == files - (a + b)
  {
  }

  // Once the source is gone no run opens a file for good, and none closes one, destruction
  // included, except that an overwrite still closes the default log's.
  lemma {:induction false} OnlyOverwriteClosesWithoutSource(norm: string -> string, w: World, ops: seq<AnyOp>)
    requires Sound(w) && SourceGone(w) && LifeAllowed(norm, w, ops)
    ensures var w' := Life(norm, w, ops);
            SourceGone(w') && Destroy(w').files == w'.files == w.files - ClosedBy(w.def.fd, ops)
  {
    LifeWithoutSource(norm, w, ops);
  }

  // A logger whose source goes while it logs leaks every descriptor it owns, whatever is
  // called afterwards, but for the default log's if there is an overwrite among the calls.
  lemma DetachLeaks(norm: string -> string, w: World, ops: seq<AnyOp>)
    requires Valid(w) && w.on && LifeAllowed(norm, w, [DetachOp] + ops)
    ensures Destroy(Life(norm, w, [DetachOp] + ops)).files == w.files - ClosedBy(w.def.fd, ops)
    ensures w.files.Keys == Owned(w)
  {
    assert ([DetachOp] + ops)[1..] == ops;
    OnlyOverwriteClosesWithoutSource(norm, AnyStep(norm, w, DetachOp), ops);
  }

  // There is such a call in every state with the default log open.
  lemma OverwriteClosesAfterDetach(norm: string -> string, w: World)
    requires Valid(w) && w.on && w.def.fd != -1
    ensures var run := [DetachOp, LogOverwriteOp("x", "2", OpenFailed)];
            && LifeAllowed(norm, w, run)
            && w.def.fd in w.files && w.def.fd !in Destroy(Life(norm, w, run)).files
  {
    var over := LogOverwriteOp("x", "2", OpenFailed);
    var run := [DetachOp, over];
    assert run == [DetachOp] + [over] && run[1..] == [over] && [over][1..] == [];
    var gone := AnyStep(norm, w, DetachOp);
    assert LifeAllowed(norm, AnyStep(norm, gone, over), []);
    assert LifeAllowed(norm, gone, [over]);
    assert Trim("x") == "x";
    assert over in [over] && GivesUpDefault(over);
    DetachLeaks(norm, w, [over]);
  }

  // ---------- a source that is destroyed ----------

  // The source knows the logger, once, exactly while logging is on.
  ghost predicate KnownToSource(w: World)
  {
    && (w.on ==> w.hasSource)
    && (w.hasSource ==> multiset(w.dependents)[w.me] == if w.on then 1 else 0)
  }

  lemma TurnOnIsKnown(w: World)
    requires w.hasSource && KnownToSource(w)
    ensures KnownToSource(TurnOn(w))
  {
  }

  lemma TurnOffIsKnown(w: World)
    requires KnownToSource(w)
    ensures KnownToSource(TurnOff(w))
  {
    RemoveFirstRemoves(w.dependents, w.me);
  }

  lemma AppendIsKnown(norm: string -> string, w: World, name: string, id: string, env: OpenOutcome)
    requires Sound(w) && Possible(w, env) && KnownToSource(w)
    ensures KnownToSource(LogAppend(w, norm, name, id, env).0)
  {
    if Succeeds(w, name, env) {
      TurnOnIsKnown(w);
      AppendSucceeds(w, norm, name, id, env);
    } else {
      AppendRefused(w, norm, name, id, env);
    }
  }

  lemma OverwriteIsKnown(norm: string -> string, w: World, fileName: string, id: string, env: OpenOutcome)
    requires Sound(w) && OverwritePossible(w, fileName, env) && KnownToSource(w)
    ensures KnownToSource(LogOverwrite(w, norm, fileName, id, env).0)
  {
    if Succeeds(w, Trim(fileName), env) {
      TurnOnIsKnown(GiveUpDefault(w));
    } else {
      OverwriteRefused(w, norm, fileName, id, env);
    }
  }

  lemma StepIsKnown(norm: string -> string, w: World, op: AnyOp)
    requires Sound(w) && AnyAllowed(w, op) && KnownToSource(w)
    ensures KnownToSource(AnyStep(norm, w, op))
  {
    match op
    case Regular(LogAppendOp(name, id, env)) => AppendIsKnown(norm, w, name, id, env);
    case Regular(CloseLogOp(id)) => TurnOffIsKnown(CloseEntry(w, id));
    case LogOverwriteOp(fileName, id, env) => OverwriteIsKnown(norm, w, fileName, id, env);
    case _ =>
  }

  // So it is after every run: the source that is destroyed tells the logger exactly when
  // logging is on.
  lemma {:induction false} LifeIsKnown(norm: string -> string, w: World, ops: seq<AnyOp>)
    requires Sound(w) && LifeAllowed(norm, w, ops) && KnownToSource(w)
    ensures KnownToSource(Life(norm, w, ops))
    decreases |ops|
  {
    if ops != [] {
      StepIsKnown(norm, w, ops[0]);
      LifeIsKnown(norm, AnyStep(norm, w, ops[0]), ops[1..]);
    }
  }

  // The name and the answers with which logAppend and logOverwrite get as far as turnOn.
  predicate ReachesTurnOn(op: AnyOp)
  {
    match op
    case Regular(LogAppendOp(name, _, env)) => name != "" && env.Opened? && (env.existed || env.chmodOk)
    case LogOverwriteOp(fileName, _, env) => Trim(fileName) != "" && env.Opened? && (env.existed || env.chmodOk)
    case _ => false
  }

  // The operation calls the source: to register, to unregister, or for the text of an update.
  ghost predicate UsesSource(w: World, op: AnyOp)
    requires Sound(w)
  {
    w.hasSource &&
    match op
    case Regular(LogAppendOp(_, _, _)) => !w.on && ReachesTurnOn(op)
    case LogOverwriteOp(_, _, _) => !w.on && ReachesTurnOn(op)
    case Regular(CloseLogOp(id)) => w.on && CloseEntry(w, id).logs == map[] && CloseEntry(w, id).def.name == ""
    case Regular(UpdateOp(fromSource, _, _)) => w.on && fromSource
    case _ => false
  }

  ghost predicate LeavesSourceAlone(norm: string -> string, w: World, ops: seq<AnyOp>)
    requires Sound(w) && LifeAllowed(norm, w, ops)
    decreases |ops|
  {
    if ops == [] then !(w.on && w.hasSource)
    else !UsesSource(w, ops[0]) && LeavesSourceAlone(norm, AnyStep(norm, w, ops[0]), ops[1..])
  }

  // The logger hears of the destruction of its source only while it is registered. After
  // it, the run and the logger's own destruction leave the source alone exactly when the
  // logger had heard, or no later call gets as far as turnOn.
  lemma {:induction false} DestroyedSourceIsLeftAlone(norm: string -> string, w: World, ops: seq<AnyOp>)
    requires Sound(w) && LifeAllowed(norm, Detach(w), ops)
    ensures LeavesSourceAlone(norm, Detach(w), ops) <==>
            w.on || !w.hasSource || forall op | op in ops :: !ReachesTurnOn(op)
  {
    if w.on || !w.hasSource {
      GoneIsLeftAlone(norm, Detach(w), ops);
    } else {
      DanglingIsLeftAlone(norm, w, ops);
    }
  }

  lemma {:induction false} GoneIsLeftAlone(norm: string -> string, w: World, ops: seq<AnyOp>)
    requires Sound(w) && SourceGone(w) && LifeAllowed(norm, w, ops)
    ensures LeavesSourceAlone(norm, w, ops)
    decreases |ops|
  {
    if ops != [] {
      StepWithoutSource(norm, w, ops[0]);
      GoneIsLeftAlone(norm, AnyStep(norm, w, ops[0]), ops[1..]);
    }
  }

  lemma {:induction false} DanglingIsLeftAlone(norm: string -> string, w: World, ops: seq<AnyOp>)
    requires Sound(w) && !w.on && w.hasSource && LifeAllowed(norm, w, ops)
    ensures LeavesSourceAlone(norm, w, ops) <==> forall op | op in ops :: !ReachesTurnOn(op)
    decreases |ops|
  {
    if ops != [] {
      assert forall op :: op in ops <==> op == ops[0] || op in ops[1..];
      if !ReachesTurnOn(ops[0]) {
        StepStaysOff(norm, w, ops[0]);
        DanglingIsLeftAlone(norm, AnyStep(norm, w, ops[0]), ops[1..]);
      }
    }
  }

  lemma StepStaysOff(norm: string -> string, w: World, op: AnyOp)
    requires Sound(w) && !w.on && w.hasSource && AnyAllowed(w, op) && !ReachesTurnOn(op)
    ensures !AnyStep(norm, w, op).on && AnyStep(norm, w, op).hasSource
  {
    match op
    case Regular(LogAppendOp(name, id, env)) => AppendRefused(w, norm, name, id, env);
    case LogOverwriteOp(fileName, id, env) => OverwriteRefused(w, norm, fileName, id, env);
    case _ =>
  }
}
