// What holds over every run of the file logger, whatever the operating system answers.
module LogRuns {
  import opened LogTable

  datatype Op =
    | LogAppendOp(name: string, id: string, env: OpenOutcome)
    | CloseLogOp(id: string)
    | CloseAllLogsOp
    | UpdateOp(fromSource: bool, h: bool, text: string)

  ghost predicate Allowed(w: World, op: Op)
  {
    op.LogAppendOp? ==> Possible(w, op.env)
  }

  // Each operation is defined (so never closes a descriptor that is not open) and keeps
  // the invariant, the registration of others, and the logger's identity.
  ghost function Step(norm: string -> string, w: World, op: Op): (w': World)
    requires Valid(w) && Allowed(w, op) && KeepsNames(norm)
    ensures Valid(w')
    ensures Others(w'.dependents, w.me) == Others(w.dependents, w.me)
    ensures w'.me == w.me && w'.hasSource == w.hasSource
  {
    match op
    case LogAppendOp(name, id, env) =>
      LogAppendKeepsValid(w, norm, name, id, env);
      LogAppend(w, norm, name, id, env).0
    case CloseLogOp(id) => CloseLogKeepsValid(w, id); CloseLog(w, id)
    case CloseAllLogsOp => CloseAllKeepsValid(w); CloseAllLogs(w)
    case UpdateOp(fromSource, h, text) => UpdateKeepsValid(w, fromSource, h, text); UpdateFrom(w, fromSource, h, text)
  }

  // ---------- logAppend, its two outcomes ----------

  // The open succeeded and the logger has its source.
  predicate Succeeds(w: World, name: string, env: OpenOutcome)
  {
    name != "" && w.hasSource && env.Opened? && (env.existed || env.chmodOk)
  }

  // The operations that drop the default log's name without closing its descriptor.
  predicate DropsName(op: Op)
  {
    op.LogAppendOp? && (op.name == "" || (op.id == DEFAULT_FILE_ID && op.env.OpenFailed?))
  }

  lemma OpenThenClose(w: World, fd: int, f: File)
    requires fd !in w.files
    ensures OpenedAndClosed(w, fd, f) == w
  {
  }

  // Nothing is opened; at most the default log loses its name.
  lemma AppendRefused(w: World, norm: string -> string, name: string, id: string, env: OpenOutcome)
    requires Sound(w) && Possible(w, env) && !Succeeds(w, name, env)
    ensures LogAppend(w, norm, name, id, env).0 ==
            if DropsName(LogAppendOp(name, id, env)) then NameDropped(w) else w
    ensures LogAppend(w, norm, name, id, env).1 ==
            if name == "" then INVALID_LOG_FILE
            else if env.Opened? && (env.existed || env.chmodOk) then INTERNAL_ERR
            else FILE_LOGGING_ERR
  {
    if env.Opened? {
      OpenThenClose(w, env.fd, ForAppending(name));
    }
  }

  // Nothing in the table goes by the name.
  ghost predicate Unused(w: World, name: string)
  {
    !NameInUse(w.logs, name) && w.def.name != name
  }

  // A newly opened file.
  predicate Fresh(w: World, lf: LogFile)
  {
    0 <= lf.fd && lf.fd !in w.files
  }

  function NewFile(norm: string -> string, name: string, env: OpenOutcome): LogFile
    requires env.Opened?
  {
    LogFile(norm(name), env.fd, true)
  }

  // The file is installed, or its descriptor is closed again.
  lemma AppendSucceeds(w: World, norm: string -> string, name: string, id: string, env: OpenOutcome)
    requires Sound(w) && Possible(w, env) && Succeeds(w, name, env)
    ensures var on, lf := TurnOn(w), NewFile(norm, name, env);
            && Sound(on) && Fresh(on, lf)
            && LogAppend(w, norm, name, id, env).0 ==
               if Unused(on, lf.name) then Install(on, id, lf, ForAppending(name)) else on
  {
    OpenThenClose(TurnOn(w), env.fd, ForAppending(name));
  }

  // The return code, when names are distinct.
  lemma AppendReturns(w: World, norm: string -> string, name: string, id: string, env: OpenOutcome)
    requires Sound(w) && NamesDistinct(w) && KeepsNames(norm) && Possible(w, env) && Succeeds(w, name, env)
    ensures var full := norm(name);
            LogAppend(w, norm, name, id, env).1 ==
            if Unused(w, full) || NameOf(w, id) == full then NO_PROBLEM else LOG_ALREADY_OPEN(full)
  {
  }

  // What the search for the name may end with, in whatever order the map is iterated: when
  // names are not distinct, both the id itself and another one may have it.
  ghost predicate MayAnswer(w: World, id: string, full: string, res: ReturnCode)
  {
    if NameInUse(w.logs, full) then
      || (res == NO_PROBLEM && id in w.logs && w.logs[id].name == full)
      || (res == LOG_ALREADY_OPEN(full) && exists k :: k in w.logs && k != id && w.logs[k].name == full)
    else
      res == if w.def.name == full && id != DEFAULT_FILE_ID then LOG_ALREADY_OPEN(full) else NO_PROBLEM
  }

  // The name under which `id` is open, "" when it is not.
  function NameOf(w: World, id: string): string
  {
    if id == DEFAULT_FILE_ID then w.def.name
    else if id in w.logs then w.logs[id].name
    else ""
  }

  // ---------- descriptors ----------

  function FdOf(logs: map<string, LogFile>, id: string): set<int>
  {
    if id in logs then {logs[id].fd} else {}
  }

  lemma FdsOfUpdate(logs: map<string, LogFile>, id: string, lf: LogFile)
    requires FdsDistinct(logs)
    ensures FdOf(logs, id) <= Fds(logs)
    ensures Fds(logs[id := lf]) == Fds(logs) - FdOf(logs, id) + {lf.fd}
  {
    var logs' := logs[id := lf];
    assert logs'[id].fd == lf.fd;
    forall fd | fd in Fds(logs) && fd !in FdOf(logs, id) ensures fd in Fds(logs') {
      var k :| k in logs && logs[k].fd == fd;
      assert logs'[k].fd == fd;
    }
  }

  lemma FdsOfRemove(logs: map<string, LogFile>, id: string)
    requires FdsDistinct(logs) && id in logs
    ensures Fds(logs - {id}) == Fds(logs) - {logs[id].fd}
  {
    var logs' := logs - {id};
    forall fd | fd in Fds(logs) && fd != logs[id].fd ensures fd in Fds(logs') {
      var k :| k in logs && logs[k].fd == fd;
      assert logs'[k].fd == fd;
    }
  }

  lemma FdsStayApart(defFd: int, logs: map<string, LogFile>, id: string, lf: LogFile)
    requires FdsApart(defFd, logs) && 0 <= lf.fd != defFd && lf.fd !in Fds(logs)
    ensures FdsApart(defFd, logs[id := lf])
  {
    forall k | k in logs ensures logs[k].fd in Fds(logs) {}
  }

  // Installing a file closes what the id stood for, so nothing is lost.
  lemma InstallAccounts(w: World, id: string, lf: LogFile, f: File)
    requires Sound(w) && Fresh(w, lf)
    ensures Sound(Install(w, id, lf, f)) && Leaked(Install(w, id, lf, f)) == Leaked(w)
  {
    if id == DEFAULT_FILE_ID {
      InstallDefaultAccounts(w, lf, f);
    } else {
      InstallOtherAccounts(w, id, lf, f);
    }
  }

  lemma InstallDefaultAccounts(w: World, lf: LogFile, f: File)
    requires Sound(w) && Fresh(w, lf)
    ensures var w' := Install(w, DEFAULT_FILE_ID, lf, f);
            Sound(w') && Leaked(w') == Leaked(w)
  {
    var w' := Install(w, DEFAULT_FILE_ID, lf, f);
    assert w.def.fd !in Fds(w.logs);
    assert w'.files.Keys == w.files.Keys + {lf.fd} - DefaultFd(w.def.fd);
  }

  lemma InstallOtherAccounts(w: World, id: string, lf: LogFile, f: File)
    requires Sound(w) && Fresh(w, lf) && id != DEFAULT_FILE_ID
    ensures var w' := Install(w, id, lf, f);
            Sound(w') && Leaked(w') == Leaked(w)
  {
    FdsOfUpdate(w.logs, id, lf);
    FdsStayApart(w.def.fd, w.logs, id, lf);
    assert w.def.fd !in Fds(w.logs);
    InstalledFds(w, id, lf, f);
    OneForAnother(w.files.Keys, DefaultFd(w.def.fd), Fds(w.logs), FdOf(w.logs, id), lf.fd);
  }

  lemma InstalledFds(w: World, id: string, lf: LogFile, f: File)
    requires Sound(w) && Fresh(w, lf) && id != DEFAULT_FILE_ID
    ensures var w' := Install(w, id, lf, f);
            && w'.files.Keys == w.files.Keys + {lf.fd} - FdOf(w.logs, id)
            && w'.def == w.def && w'.logs == w.logs[id := lf]
  {
  }

  // One owned descriptor gives way to a new one.
  lemma OneForAnother(open: set<int>, a: set<int>, b: set<int>, gone: set<int>, fd: int)
    requires a + b <= open && gone <= b && a !! b && fd !in open
    ensures a + (b - gone + {fd}) <= open + {fd} - gone
    ensures open + {fd} - gone - (a + (b - gone + {fd})) == open - (a + b)
  {
  }

  lemma CloseEntryAccounts(w: World, id: string)
    requires Sound(w)
    ensures var w' := CloseEntry(w, id);
            Sound(w') && Leaked(w') == Leaked(w)
  {
    assert w.def.fd !in Fds(w.logs);
    if id != DEFAULT_FILE_ID && id in w.logs {
      FdsOfRemove(w.logs, id);
    }
  }

  // ---------- each operation keeps the invariant ----------

  lemma LogAppendKeepsValid(w: World, norm: string -> string, name: string, id: string, env: OpenOutcome)
    requires Valid(w) && Possible(w, env) && KeepsNames(norm)
    ensures var w' := LogAppend(w, norm, name, id, env).0;
            && Valid(w') && w'.me == w.me && w'.hasSource == w.hasSource
            && Others(w'.dependents, w.me) == Others(w.dependents, w.me)
  {
    if Succeeds(w, name, env) {
      AppendSucceeds(w, norm, name, id, env);
      TurnOnKeepsValid(w);
      InstallKeepsValid(TurnOn(w), id, NewFile(norm, name, env), ForAppending(name));
    } else {
      AppendRefused(w, norm, name, id, env);
      NameDroppedKeepsValid(w);
    }
  }

  lemma NameDroppedKeepsValid(w: World)
    requires Valid(w)
    ensures Valid(NameDropped(w))
  {
  }

  lemma InstallKeepsValid(w: World, id: string, lf: LogFile, f: File)
    requires Valid(w) && w.on && Fresh(w, lf) && lf.name != "" && lf.isFirstTime
    ensures var w' := Install(w, id, lf, f);
            && w'.me == w.me && w'.hasSource == w.hasSource && w'.dependents == w.dependents
            && (Unused(w, lf.name) ==> Valid(w'))
  {
    InstallAccounts(w, id, lf, f);
    if Unused(w, lf.name) {
      InstallNames(w, id, lf, f);
    }
  }

  lemma InstallNames(w: World, id: string, lf: LogFile, f: File)
    requires Sound(w) && NamesDistinct(w) && Fresh(w, lf)
    requires lf.name != "" && lf.isFirstTime && Unused(w, lf.name)
    ensures NamesDistinct(Install(w, id, lf, f))
  {
    if id != DEFAULT_FILE_ID {
      NamesOfUpdate(w.def, w.logs, id, lf);
    }
  }

  lemma NamesOfUpdate(def: LogFile, logs: map<string, LogFile>, id: string, lf: LogFile)
    requires NamesApart(def, logs) && id != DEFAULT_FILE_ID
    requires lf.name != "" && lf.isFirstTime && lf.name != def.name && !NameInUse(logs, lf.name)
    ensures NamesApart(def, logs[id := lf])
  {
  }

  lemma CloseLogKeepsValid(w: World, id: string)
    requires Valid(w)
    ensures var w' := CloseLog(w, id);
            && Valid(w') && w'.me == w.me && w'.hasSource == w.hasSource
            && Others(w'.dependents, w.me) == Others(w.dependents, w.me)
  {
    if w.on {
      CloseEntryAccounts(w, id);
      var closed := CloseEntry(w, id);
      assert NamesDistinct(closed);
      if closed.logs == map[] && closed.def.name == "" {
        TurnOffKeepsValid(closed);
      }
    }
  }

  lemma CloseAllKeepsValid(w: World)
    requires Valid(w)
    ensures Valid(CloseAllLogs(w))
  {
  }

  lemma UpdateKeepsValid(w: World, fromSource: bool, h: bool, text: string)
    requires Valid(w)
    ensures Valid(UpdateFrom(w, fromSource, h, text))
  {
    assert Owned(UpdateFrom(w, fromSource, h, text)) == Owned(w);
  }
}
