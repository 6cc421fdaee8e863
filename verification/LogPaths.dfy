// Every open log is named after the path its file was opened under, over every run.
module LogPaths {
  import opened LogTable
  import opened LogRuns
  import opened LogLaws
  import opened LogOverwrites
  import opened LogLifecycle

  ghost predicate NamedAfter(norm: string -> string, w: World, lf: LogFile)
  {
    lf.fd in w.files && norm(w.files[lf.fd].path) == lf.name
  }

  // The table says where the texts go. A default log that is left without a descriptor
  // goes nowhere.
  ghost predicate NamedAfterPaths(norm: string -> string, w: World)
  {
    && (w.def.name != "" && w.def.fd != -1 ==> NamedAfter(norm, w, w.def))
    && forall k | k in w.logs :: NamedAfter(norm, w, w.logs[k])
  }

  lemma AppendKeepsPaths(norm: string -> string, w: World, name: string, id: string, env: OpenOutcome)
    requires Sound(w) && Possible(w, env) && NamedAfterPaths(norm, w)
    ensures NamedAfterPaths(norm, LogAppend(w, norm, name, id, env).0)
  {
    if Succeeds(w, name, env) {
      AppendSucceeds(w, norm, name, id, env);
      TurnedOnKeepsPaths(norm, w);
      InstallKeepsPaths(norm, TurnOn(w), id, NewFile(norm, name, env), ForAppending(name));
    } else {
      AppendRefused(w, norm, name, id, env);
      assert forall k | k in w.logs && NamedAfter(norm, w, w.logs[k]) :: NamedAfter(norm, NameDropped(w), w.logs[k]);
    }
  }

  lemma TurnedOnKeepsPaths(norm: string -> string, w: World)
    requires w.hasSource && NamedAfterPaths(norm, w)
    ensures NamedAfterPaths(norm, TurnOn(w))
  {
    assert forall k | k in w.logs && NamedAfter(norm, w, w.logs[k]) :: NamedAfter(norm, TurnOn(w), w.logs[k]);
  }

  lemma InstallKeepsPaths(norm: string -> string, w: World, id: string, lf: LogFile, f: File)
    requires Sound(w) && Fresh(w, lf) && NamedAfterPaths(norm, w) && norm(f.path) == lf.name
    ensures NamedAfterPaths(norm, Install(w, id, lf, f))
  {
    var w' := Install(w, id, lf, f);
    InstallAccounts(w, id, lf, f);
    if id != DEFAULT_FILE_ID {
      InstallFrames(w, id, lf, f, DEFAULT_FILE_ID);
    }
    forall k | k in w'.logs ensures NamedAfter(norm, w', w'.logs[k]) {
      OwnedFd(w', k);
      if k == id && id != DEFAULT_FILE_ID {
        assert w'.logs[k] == lf;
      } else {
        EntryFileKept(w, id, lf, f, k);
        assert NamedAfter(norm, w, w.logs[k]);
      }
    }
  }

  lemma EntryFileKept(w: World, id: string, lf: LogFile, f: File, k: string)
    requires Sound(w) && Fresh(w, lf) && k in Install(w, id, lf, f).logs && (k != id || id == DEFAULT_FILE_ID)
    ensures k in w.logs && Install(w, id, lf, f).logs[k] == w.logs[k]
    ensures w.logs[k].fd in w.files && SameFile(w, Install(w, id, lf, f), w.logs[k].fd)
  {
    OwnedFd(w, k);
  }

  lemma CloseKeepsPaths(norm: string -> string, w: World, id: string)
    requires Sound(w) && NamedAfterPaths(norm, w)
    ensures NamedAfterPaths(norm, CloseLog(w, id))
  {
    var w' := CloseLog(w, id);
    if id != DEFAULT_FILE_ID {
      CloseFrames(w, id, DEFAULT_FILE_ID);
    }
    forall k | k in w'.logs ensures NamedAfter(norm, w', w'.logs[k]) {
      CloseEntryAccounts(w, id);
      OwnedFd(w', k);
      assert k in w.logs && NamedAfter(norm, w, w.logs[k]);
    }
  }

  lemma UpdateKeepsPaths(norm: string -> string, w: World, fromSource: bool, h: bool, text: string)
    requires Sound(w) && NamedAfterPaths(norm, w)
    ensures NamedAfterPaths(norm, UpdateFrom(w, fromSource, h, text))
  {
    var w' := UpdateFrom(w, fromSource, h, text);
    forall k | k in w'.logs ensures NamedAfter(norm, w', w'.logs[k]) {
      assert NamedAfter(norm, w, w.logs[k]);
    }
  }

  lemma OverwriteKeepsPaths(norm: string -> string, w: World, fileName: string, id: string, env: OpenOutcome)
    requires Sound(w) && OverwritePossible(w, fileName, env) && NamedAfterPaths(norm, w)
    ensures NamedAfterPaths(norm, LogOverwrite(w, norm, fileName, id, env).0)
  {
    GiveUpKeepsPaths(norm, w);
    if Succeeds(w, Trim(fileName), env) {
      TurnedOnKeepsPaths(norm, GiveUpDefault(w));
      var lf := NewFile(norm, Trim(fileName), env);
      PutKeepsPaths(norm, TurnOn(GiveUpDefault(w)), id, lf, ForWriting(Trim(fileName)));
    } else {
      OverwriteRefused(w, norm, fileName, id, env);
      DroppedKeepsPaths(norm, w);
      DroppedKeepsPaths(norm, GiveUpDefault(w));
    }
  }

  lemma DroppedKeepsPaths(norm: string -> string, w: World)
    requires NamedAfterPaths(norm, w)
    ensures NamedAfterPaths(norm, NameDropped(w))
  {
    assert forall k | k in w.logs && NamedAfter(norm, w, w.logs[k]) :: NamedAfter(norm, NameDropped(w), w.logs[k]);
  }

  lemma GiveUpKeepsPaths(norm: string -> string, w: World)
    requires Sound(w) && NamedAfterPaths(norm, w)
    ensures NamedAfterPaths(norm, GiveUpDefault(w))
  {
    forall k | k in w.logs ensures NamedAfter(norm, GiveUpDefault(w), w.logs[k]) {
      assert NamedAfter(norm, w, w.logs[k]) && w.logs[k].fd != w.def.fd;
    }
  }

  lemma PutKeepsPaths(norm: string -> string, w: World, id: string, lf: LogFile, f: File)
    requires Fresh(w, lf) && NamedAfterPaths(norm, w) && norm(f.path) == lf.name
    ensures NamedAfterPaths(norm, Put(w, id, lf, f))
  {
    var w' := Put(w, id, lf, f);
    forall k | k in w'.logs ensures NamedAfter(norm, w', w'.logs[k]) {
      if k in w.logs {
        assert NamedAfter(norm, w, w.logs[k]);
      }
    }
  }

  lemma StepKeepsPaths(norm: string -> string, w: World, op: AnyOp)
    requires Sound(w) && AnyAllowed(w, op) && NamedAfterPaths(norm, w)
    ensures NamedAfterPaths(norm, AnyStep(norm, w, op))
  {
    match op
    case Regular(LogAppendOp(name, id, env)) => AppendKeepsPaths(norm, w, name, id, env);
    case Regular(CloseLogOp(id)) => CloseKeepsPaths(norm, w, id);
    case Regular(CloseAllLogsOp) =>
    case Regular(UpdateOp(fromSource, h, text)) => UpdateKeepsPaths(norm, w, fromSource, h, text);
    case LogOverwriteOp(fileName, id, env) => OverwriteKeepsPaths(norm, w, fileName, id, env);
    case DetachOp =>
      assert forall k | k in w.logs && NamedAfter(norm, w, w.logs[k]) :: NamedAfter(norm, Detach(w), w.logs[k]);
  }

  // Over any run of any operations.
  lemma {:induction false} LifeKeepsPaths(norm: string -> string, w: World, ops: seq<AnyOp>)
    requires Sound(w) && LifeAllowed(norm, w, ops) && NamedAfterPaths(norm, w)
    ensures NamedAfterPaths(norm, Life(norm, w, ops))
    decreases |ops|
  {
    if ops != [] {
      StepKeepsPaths(norm, w, ops[0]);
      LifeKeepsPaths(norm, AnyStep(norm, w, ops[0]), ops[1..]);
    }
  }

  // ---------- the runs without logOverwrite and detachFrom ----------

  function Regulars(ops: seq<Op>): seq<AnyOp>
  {
    seq(|ops|, i requires 0 <= i < |ops| => Regular(ops[i]))
  }

  // They are among the runs of any operations.
  lemma {:induction false} RunIsLife(norm: string -> string, w: World, ops: seq<Op>)
    requires Valid(w) && KeepsNames(norm) && RunAllowed(norm, w, ops)
    ensures LifeAllowed(norm, w, Regulars(ops)) && Life(norm, w, Regulars(ops)) == Run(norm, w, ops)
    decreases |ops|
  {
    if ops != [] {
      assert Regulars(ops)[0] == Regular(ops[0]) && Regulars(ops)[1..] == Regulars(ops[1..]);
      StepIsAnyStep(norm, w, ops[0]);
      RunIsLife(norm, Step(norm, w, ops[0]), ops[1..]);
    }
  }

  lemma StepIsAnyStep(norm: string -> string, w: World, op: Op)
    requires Valid(w) && KeepsNames(norm) && Allowed(w, op)
    ensures AnyAllowed(w, Regular(op)) && AnyStep(norm, w, Regular(op)) == Step(norm, w, op)
  {
    match op
    case LogAppendOp(_, _, _) =>
    case CloseLogOp(_) =>
    case CloseAllLogsOp =>
    case UpdateOp(_, _, _) =>
  }

  ghost predicate AllAppending(w: World)
  {
    forall fd | fd in w.files :: w.files[fd].appending
  }

  lemma {:induction false} RunAppends(norm: string -> string, w: World, ops: seq<Op>)
    requires Valid(w) && KeepsNames(norm) && RunAllowed(norm, w, ops) && AllAppending(w)
    ensures AllAppending(Run(norm, w, ops))
    decreases |ops|
  {
    if ops != [] {
      StepAppends(norm, w, ops[0]);
      RunAppends(norm, Step(norm, w, ops[0]), ops[1..]);
    }
  }

  lemma StepAppends(norm: string -> string, w: World, op: Op)
    requires Valid(w) && KeepsNames(norm) && Allowed(w, op) && AllAppending(w)
    ensures AllAppending(Step(norm, w, op))
  {
    match op
    case LogAppendOp(name, id, env) => AppendAppends(norm, w, name, id, env);
    case CloseLogOp(id) => CloseAppends(w, id);
    case CloseAllLogsOp =>
    case UpdateOp(_, _, _) =>
  }

  lemma AppendAppends(norm: string -> string, w: World, name: string, id: string, env: OpenOutcome)
    requires Sound(w) && Possible(w, env) && AllAppending(w)
    ensures AllAppending(LogAppend(w, norm, name, id, env).0)
  {
    if Succeeds(w, name, env) {
      AppendSucceeds(w, norm, name, id, env);
      InstallAppends(TurnOn(w), id, NewFile(norm, name, env), ForAppending(name));
    } else {
      AppendRefused(w, norm, name, id, env);
    }
  }

  lemma InstallAppends(w: World, id: string, lf: LogFile, f: File)
    requires Sound(w) && Fresh(w, lf) && AllAppending(w) && f.appending
    ensures AllAppending(Install(w, id, lf, f))
  {
  }

  lemma CloseAppends(w: World, id: string)
    requires Sound(w) && AllAppending(w)
    ensures AllAppending(CloseLog(w, id))
  {
  }

  // From the constructor on, the file of an open log is one whose path normalises to the
  // name of the log, opened for appending.
  lemma {:induction false} RunKeepsPaths(norm: string -> string, w: World, ops: seq<Op>)
    requires Started(w) && KeepsNames(norm) && Valid(w) && RunAllowed(norm, w, ops)
    ensures NamedAfterPaths(norm, Run(norm, w, ops)) && AllAppending(Run(norm, w, ops))
  {
    RunIsLife(norm, w, ops);
    LifeKeepsPaths(norm, w, Regulars(ops));
    RunAppends(norm, w, ops);
  }
}
