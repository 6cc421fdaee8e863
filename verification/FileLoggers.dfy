// CHA_FileLogger and the part of CHA_Logger it relies on, as objects that change in
// place. Every method is tied to the operation of the state machine it carries out.
module FileLoggers {
  import opened LogTable
  import opened LogRuns
  import opened LogEffects
  import opened LogLaws
  import opened LogLifecycle
  import opened LogOverwrites

  // What the operating system is asked about a path.
  datatype Call = StatCall(path: string) | OpenCall(path: string) | ChmodCall(path: string)

  // The operating system: stat, open and chmod answer as they please, except that a
  // descriptor handed out is not open already; close insists on an open descriptor.
  class OperatingSystem {
    var files: map<int, File>
    ghost var calls: seq<Call>

    constructor ()
      ensures files == map[] && calls == []
    {
      files, calls := map[], [];
    }

    method Stat(path: string) returns (exists_: bool)
      modifies this`calls
      ensures calls == old(calls) + [StatCall(path)]
    {
      exists_ := *;
      calls := calls + [StatCall(path)];
    }

    method Open(path: string, appending: bool) returns (fd: int)
      modifies this
      ensures fd == -1 || (fd >= 0 && fd !in old(files))
      ensures files == if fd == -1 then old(files) else old(files)[fd := File(path, appending, [])]
      ensures calls == old(calls) + [OpenCall(path)]
    {
      fd := *;
      if fd < 0 || fd in files {
        fd := -1;
      } else {
        files := files[fd := File(path, appending, [])];
      }
      calls := calls + [OpenCall(path)];
    }

    method Chmod(path: string) returns (ok: bool)
      modifies this`calls
      ensures calls == old(calls) + [ChmodCall(path)]
    {
      ok := *;
      calls := calls + [ChmodCall(path)];
    }

    method Close(fd: int)
      requires fd in files
      modifies this`files
      ensures files == old(files) - {fd}
    {
      files := files - {fd};
    }

    // A write through a descriptor that is not open fails.
    method Write(fd: int, chunks: seq<Chunk>)
      modifies this`files
      ensures files ==
              if fd != -1 && fd in old(files) then old(files)[fd := More(old(files)[fd], chunks)] else old(files)
    {
      if fd != -1 && fd in files {
        files := files[fd := More(files[fd], chunks)];
      }
    }
  }

  // The list of dependents of a log source.
  class LogSource {
    var dependents: seq<int>

    constructor ()
      ensures dependents == []
    {
      dependents := [];
    }

    method AddDependent(client: int)
      modifies this
      ensures dependents == old(dependents) + [client]
    {
      dependents := dependents + [client];
    }

    method RemoveDependent(client: int)
      modifies this
      ensures dependents == RemoveFirst(old(dependents), client)
    {
      dependents := RemoveFirst(dependents, client);
    }
  }

  class FileLogger {
    const os: OperatingSystem
    const me: int
    const norm: string -> string
    var source: LogSource?
    var loggingOn: bool
    var defaultFile: LogFile
    var logFiles: map<string, LogFile>

    ghost function State(): World
      reads this, os, source
    {
      World(defaultFile, logFiles, loggingOn, source != null, me, if source == null then [] else source.dependents,
            os.files)
    }

    constructor (os: OperatingSystem, source: LogSource, me: int, norm: string -> string)
      requires os.files == map[] && me !in source.dependents
      ensures this.os == os && this.source == source && this.me == me && this.norm == norm
      ensures Started(State())
    {
      this.os, this.source, this.me, this.norm := os, source, me, norm;
      loggingOn := false;
      defaultFile, logFiles := NO_FILE, map[];
    }

    // ---------- CHA_Logger ----------

    method TurnLoggingOn() returns (res: ReturnCode)
      modifies this`loggingOn, source
      ensures old(source) == null ==> res == INTERNAL_ERR && State() == old(State())
      ensures old(source) != null ==> res == NO_PROBLEM && State() == TurnOn(old(State()))
    {
      if source == null {
        return INTERNAL_ERR;
      }
      if !loggingOn {
        loggingOn := true;
        source.AddDependent(me);
      }
      res := NO_PROBLEM;
    }

    method TurnLoggingOff()
      modifies this`loggingOn, source
      ensures State() == TurnOff(old(State()))
    {
      if loggingOn && source != null {
        source.RemoveDependent(me);
        loggingOn := false;
      }
    }

    // The source is going away: logging is off from here on, but nothing is closed.
    method DetachFrom(model: LogSource?)
      modifies this
      ensures State() == if model == old(source) then Detach(old(State())) else old(State())
      ensures source == old(source) || source == null
    {
      if model != source {
        return;
      }
      if loggingOn {
        loggingOn := false;
        source := null;
      }
    }

    method Update(model: LogSource?, headersOn: bool, newText: string)
      requires Sound(State())
      modifies this, os`files
      ensures State() == UpdateFrom(old(State()), model == source, headersOn, newText)
      ensures Sound(State()) && source == old(source)
    {
      UpdateAccounts(State(), model == source, headersOn, newText);
      if loggingOn {
        if model != source {
          return;
        }
        if newText != "" {
          AppendToLogs(headersOn, newText);
        }
      }
    }

    // ---------- CHA_FileLogger ----------

    method GetLog(fileId: string) returns (name: string)
      ensures name == if loggingOn then NameOf(State(), fileId) else ""
      ensures Registered(State()) ==> name == NameOf(State(), fileId)
    {
      if loggingOn {
        if fileId == DEFAULT_FILE_ID {
          name := defaultFile.name;
        } else if fileId in logFiles {
          name := logFiles[fileId].name;
        } else {
          name := "";
        }
      } else {
        name := "";
      }
    }

    // The ghost result is what the operating system answered. For an empty name the
    // source has no return statement; INVALID_LOG_FILE is what it assigns.
    method Append(fileName: string, fileId: string) returns (res: ReturnCode, ghost env: OpenOutcome)
      requires Sound(State())
      modifies this, os, source
      ensures Possible(old(State()), env)
      ensures State() == LogAppend(old(State()), norm, fileName, fileId, env).0
      ensures NamesDistinct(old(State())) ==> res == LogAppend(old(State()), norm, fileName, fileId, env).1
      ensures Answers(old(State()), fileName, fileId, env, res)
      ensures os.calls == old(os.calls) + Asked(fileName, env)
      ensures Sound(State()) && source == old(source)
    {
      ghost var w := State();
      if fileName == "" {
        defaultFile := defaultFile.(name := "");
        res, env := INVALID_LOG_FILE, OpenFailed;
      } else {
        var existed := os.Stat(fileName);
        res, env := OpenAndAdd(fileName, fileId, existed);
      }
      AppendIsSound(norm, w, fileName, fileId, env);
    }

    // The return code, also when names are not distinct.
    ghost predicate Answers(w: World, fileName: string, fileId: string, env: OpenOutcome, res: ReturnCode)
      requires Sound(w) && Possible(w, env)
    {
      if Succeeds(w, fileName, env) then MayAnswer(w, fileId, norm(fileName), res)
      else res == LogAppend(w, norm, fileName, fileId, env).1
    }

    // What is asked of the operating system: about the path that was given, and no other.
    static function Asked(path: string, env: OpenOutcome): seq<Call>
    {
      if path == "" then []
      else if env.Opened? && !env.existed then [StatCall(path), OpenCall(path), ChmodCall(path)]
      else [StatCall(path), OpenCall(path)]
    }

    // The rest of logAppend, once it is known whether the file exists.
    method OpenAndAdd(fileName: string, fileId: string, existed: bool) returns (res: ReturnCode, ghost env: OpenOutcome)
      requires Sound(State()) && fileName != ""
      modifies this, os, source
      ensures Possible(old(State()), env) && (env.Opened? ==> env.existed == existed) && source == old(source)
      ensures State() == LogAppend(old(State()), norm, fileName, fileId, env).0
      ensures NamesDistinct(old(State())) ==> res == LogAppend(old(State()), norm, fileName, fileId, env).1
      ensures Answers(old(State()), fileName, fileId, env, res)
      ensures os.calls ==
              old(os.calls) + [OpenCall(fileName)] + if env.Opened? && !existed then [ChmodCall(fileName)] else []
    {
      ghost var w := State();
      var fd := os.Open(fileName, true);
      if fd == -1 {
        if fileId == DEFAULT_FILE_ID {
          defaultFile := defaultFile.(name := "");
        }
        return FILE_LOGGING_ERR, OpenFailed;
      }
      res, env := AppendOpened(fileName, fileId, fd, existed, w);
    }

    // ... and once it is open.
    method AppendOpened(fileName: string, fileId: string, fd: nat, existed: bool, ghost w: World)
      returns (res: ReturnCode, ghost env: OpenOutcome)
      requires Sound(w) && fileName != ""
      requires fd !in w.files && State() == Open(w, fd, ForAppending(fileName))
      modifies this, os, source
      ensures env.Opened? && env.fd == fd && env.existed == existed && source == old(source)
      ensures State() == LogAppend(w, norm, fileName, fileId, env).0
      ensures NamesDistinct(w) ==> res == LogAppend(w, norm, fileName, fileId, env).1
      ensures Answers(w, fileName, fileId, env, res)
      ensures os.calls == old(os.calls) + if existed then [] else [ChmodCall(fileName)]
    {
      OpenThenClose(w, fd, ForAppending(fileName));
      var chmodOk := true;
      if !existed {
        chmodOk := os.Chmod(fileName);
      }
      env := Opened(fd, existed, chmodOk);
      if !existed && !chmodOk {
        os.Close(fd);
        return FILE_LOGGING_ERR, env;
      }
      res := TurnLoggingOn();
      if res != NO_PROBLEM {
        os.Close(fd);
        return;
      }
      res := InstallUnlessOpen(LogFile(norm(fileName), fd, true), fileId, TurnOn(w), ForAppending(fileName));
    }

    // The file is open and logging is on: look for the same name in the table, in
    // whatever order the map is iterated, and install the file if it is not there.
    method InstallUnlessOpen(newLf: LogFile, fileId: string, ghost w: World, ghost f: File) returns (res: ReturnCode)
      requires Sound(w) && Fresh(w, newLf) && State() == Open(w, newLf.fd, f)
      modifies this, os`files
      ensures State() == AddFile(w, fileId, newLf, f).0 && source == old(source)
      ensures NamesDistinct(w) ==> res == AddFile(w, fileId, newLf, f).1
      ensures MayAnswer(w, fileId, newLf.name, res)
    {
      OpenThenClose(w, newLf.fd, f);
      res := NO_PROBLEM;
      var todo := logFiles.Keys;
      while todo != {}
        invariant todo <= logFiles.Keys && State() == Open(w, newLf.fd, f) && source == old(source)
        invariant res == NO_PROBLEM
        invariant forall k | k in logFiles && k !in todo :: logFiles[k].name != newLf.name
        decreases todo
      {
        var id :| id in todo;
        var lf := logFiles[id];
        if newLf.name == lf.name && fileId != id {
          OneName(w, fileId, id);
          os.Close(newLf.fd);
          return LOG_ALREADY_OPEN(lf.name);
        } else if newLf.name == lf.name && fileId == id {
          os.Close(newLf.fd);
          return;
        }
        todo := todo - {id};
      }
      if defaultFile.name == newLf.name && fileId != DEFAULT_FILE_ID {
        os.Close(newLf.fd);
        return LOG_ALREADY_OPEN(newLf.name);
      } else if defaultFile.name == newLf.name && fileId == DEFAULT_FILE_ID {
        os.Close(newLf.fd);
        return;
      }
      PutInPlace(newLf, fileId, w, f);
    }

    // What the id stood for is closed.
    method PutInPlace(newLf: LogFile, fileId: string, ghost w: World, ghost f: File)
      requires Sound(w) && Fresh(w, newLf) && State() == Open(w, newLf.fd, f)
      modifies this, os`files
      ensures State() == Install(w, fileId, newLf, f) && source == old(source)
    {
      if fileId == DEFAULT_FILE_ID {
        if defaultFile.fd != -1 {
          os.Close(defaultFile.fd);
        }
        defaultFile := newLf;
      } else {
        if fileId in logFiles {
          OwnedFd(w, fileId);
          os.Close(logFiles[fileId].fd);
        }
        logFiles := logFiles[fileId := newLf];
      }
    }

    // The early return of the loop has one outcome when the name belongs to one id only.
    static lemma OneName(w: World, fileId: string, id: string)
      requires id in w.logs && fileId != id
      ensures NamesDistinct(w) ==> NameOf(w, fileId) != w.logs[id].name
      ensures NameInUse(w.logs, w.logs[id].name)
    {
    }

    // Takes the white space off both ends.
    method TrimName(line: string) returns (r: string)
      ensures r == Trim(line)
    {
      var i, j := 0, |line| - 1;
      while i < |line| && IsSpace(line[i])
        invariant i <= |line| && Blank(line[..i])
      {
        i := i + 1;
      }
      while j > i && IsSpace(line[j])
        invariant -1 <= j < |line| && Blank(line[j + 1..])
        invariant i < |line| ==> i <= j
      {
        j := j - 1;
      }
      if i > j {
        r := "";
        assert line == line[..i] + "" + "";
        TrimOf(line[..i], "", "");
      } else {
        r := line[i..j + 1];
        assert line == line[..i] + r + line[j + 1..];
        TrimOf(line[..i], r, line[j + 1..]);
      }
    }

    // As it is written: the default log's descriptor goes first, names are not compared,
    // and what the id stood for is not closed.
    method Overwrite(fileName: string, fileId: string) returns (res: ReturnCode, ghost env: OpenOutcome)
      requires Sound(State())
      modifies this, os, source
      ensures OverwritePossible(old(State()), fileName, env)
      ensures (State(), res) == LogOverwrite(old(State()), norm, fileName, fileId, env)
      ensures os.calls == old(os.calls) + Asked(Trim(fileName), env)
      ensures Sound(State()) && source == old(source)
    {
      ghost var w := State();
      var name := TrimName(fileName);
      if name == "" {
        defaultFile := defaultFile.(name := "");
        res, env := INVALID_LOG_FILE, OpenFailed;
      } else {
        var existed := os.Stat(name);
        CloseDefault();
        res, env := OpenAndPutFile(name, fileId, existed);
      }
      OverwriteIsSound(norm, w, fileName, fileId, env);
    }

    method CloseDefault()
      requires Sound(State())
      modifies this`defaultFile, os`files
      ensures State() == GiveUpDefault(old(State()))
    {
      if defaultFile.fd != -1 {
        os.Close(defaultFile.fd);
        defaultFile := defaultFile.(fd := -1);
      }
    }

    // The rest of logOverwrite, once the default descriptor is given up.
    method OpenAndPutFile(name: string, fileId: string, existed: bool) returns (res: ReturnCode, ghost env: OpenOutcome)
      modifies this, os, source
      ensures Possible(old(State()), env) && source == old(source)
      ensures (State(), res) == OpenAndPut(old(State()), norm, name, fileId, env)
      ensures env.Opened? ==> env.existed == existed
      ensures os.calls ==
              old(os.calls) + [OpenCall(name)] + if env.Opened? && !existed then [ChmodCall(name)] else []
    {
      ghost var w := State();
      var fd := os.Open(name, false);
      if fd == -1 {
        if fileId == DEFAULT_FILE_ID {
          defaultFile := defaultFile.(name := "");
        }
        return FILE_LOGGING_ERR, OpenFailed;
      }
      OpenThenClose(w, fd, ForWriting(name));
      var chmodOk := true;
      if !existed {
        chmodOk := os.Chmod(name);
      }
      env := Opened(fd, existed, chmodOk);
      if !existed && !chmodOk {
        os.Close(fd);
        return FILE_LOGGING_ERR, env;
      }
      res := TurnLoggingOn();
      if res == NO_PROBLEM {
        if fileId == DEFAULT_FILE_ID {
          defaultFile := LogFile(norm(name), fd, true);
        } else {
          logFiles := logFiles[fileId := LogFile(norm(name), fd, true)];
        }
      } else {
        os.Close(fd);
      }
    }

    method CloseOne(fileId: string)
      requires Sound(State())
      modifies this, os`files, source
      ensures State() == CloseLog(old(State()), fileId)
      ensures Sound(State()) && source == old(source)
    {
      CloseAccounts(State(), fileId);
      if loggingOn {
        if fileId == DEFAULT_FILE_ID {
          if defaultFile.fd != -1 {
            os.Close(defaultFile.fd);
            defaultFile := defaultFile.(fd := -1);
          }
          defaultFile := defaultFile.(name := "", isFirstTime := true);
        } else if fileId in logFiles {
          OwnedFd(State(), fileId);
          os.Close(logFiles[fileId].fd);
          logFiles := logFiles - {fileId};
        }
        if logFiles == map[] && defaultFile.name == "" {
          TurnLoggingOff();
        }
      }
    }

    // Closes the descriptor of every entry, in whatever order the map is iterated.
    method CloseEntries()
      requires FdsDistinct(logFiles) && Fds(logFiles) <= os.files.Keys
      requires forall k | k in logFiles :: logFiles[k].fd != -1
      modifies os`files
      ensures os.files == old(os.files) - Fds(logFiles)
    {
      assert forall k | k in logFiles :: logFiles[k].fd in Fds(logFiles);
      ghost var closed: set<int> := {};
      var todo := logFiles.Keys;
      while todo != {}
        invariant todo <= logFiles.Keys && os.files == old(os.files) - closed
        invariant closed == set k | k in logFiles && k !in todo :: logFiles[k].fd
        decreases todo
      {
        var id :| id in todo;
        var lf := logFiles[id];
        if lf.fd != -1 {
          os.Close(lf.fd);
        }
        todo, closed := todo - {id}, closed + {lf.fd};
      }
      assert closed == Fds(logFiles);
    }

    method CloseAll()
      requires Sound(State())
      modifies this, os`files
      ensures State() == CloseAllLogs(old(State()))
      ensures Sound(State()) && source == old(source)
    {
      ghost var w := State();
      CloseAllAccounts(w);
      if loggingOn {
        InTwoSteps(w);
        if defaultFile.fd != -1 {
          os.Close(defaultFile.fd);
          defaultFile := NO_FILE;
        }
        assert os.files == w.files - DefaultFd(w.def.fd);
        CloseEntries();
      }
      logFiles := map[];
    }

    // The default descriptor first, then the entries: together, all that is owned.
    static lemma InTwoSteps(w: World)
      requires Sound(w)
      ensures Fds(w.logs) <= (w.files - DefaultFd(w.def.fd)).Keys
      ensures w.files - DefaultFd(w.def.fd) - Fds(w.logs) == w.files - Owned(w)
    {
      assert w.def.fd !in Fds(w.logs);
    }

    // The destructors of both classes.
    method Destruct()
      requires Sound(State())
      modifies this, os`files, source
      ensures State() == Destroy(old(State()))
    {
      CloseAll();
      if loggingOn {
        TurnLoggingOff();
      }
    }

    // ---------- writing ----------

    // What is remembered about the first time comes back to the caller, who may keep it
    // or, for the logs of the map, drop it with the copy.
    method AppendLine(lf: LogFile, h: bool, text: string) returns (after: LogFile)
      modifies os`files
      ensures os.files == Extend(old(os.files), lf.fd, Line(lf.isFirstTime, h, text))
      ensures after == lf.(isFirstTime := lf.isFirstTime && !h)
    {
      if h && lf.isFirstTime {
        after := lf.(isFirstTime := false);
        os.Write(lf.fd, [Header, Text(text)]);
      } else {
        after := lf;
        os.Write(lf.fd, [Text(text)]);
      }
    }

    static ghost function Extend(files: map<int, File>, fd: int, chunks: seq<Chunk>): map<int, File>
    {
      if fd != -1 && fd in files then files[fd := More(files[fd], chunks)] else files
    }

    method IndexOfEtx(t: string) returns (i: nat)
      ensures i <= |t| && ETX !in t[..i] && (i < |t| ==> t[i] == ETX)
    {
      i := 0;
      while i < |t| && t[i] != ETX
        invariant i <= |t| && ETX !in t[..i]
      {
        i := i + 1;
      }
    }

    // The entries `done` have been given their line, everything else is as it was.
    static ghost predicate Given(logs: map<string, LogFile>, done: set<string>, before: map<int, File>,
                                 files: map<int, File>, h: bool, text: string)
      requires Fds(logs) <= before.Keys
    {
      && files.Keys == before.Keys
      && (forall fd | fd in before && fd !in Fds(logs) :: files[fd] == before[fd])
      && (forall k | k in logs :: EntryGiven(logs[k], k in done, before, files, h, text))
    }

    static ghost predicate EntryGiven(lf: LogFile, done: bool, before: map<int, File>,
                                      files: map<int, File>, h: bool, text: string)
    {
      && lf.fd in before && lf.fd in files
      && files[lf.fd] == if done then More(before[lf.fd], Line(lf.isFirstTime, h, text)) else before[lf.fd]
    }

    static lemma GivenNext(logs: map<string, LogFile>, done: set<string>, before: map<int, File>,
                           files: map<int, File>, h: bool, text: string, id: string)
      requires FdsDistinct(logs) && Fds(logs) <= before.Keys && id in logs && id !in done
      requires Given(logs, done, before, files, h, text)
      ensures var fd := logs[id].fd;
              && fd in files
              && Given(logs, done + {id}, before,
                       files[fd := More(files[fd], Line(logs[id].isFirstTime, h, text))], h, text)
    {
      assert EntryGiven(logs[id], false, before, files, h, text);
      assert logs[id].fd in Fds(logs);
      forall k | k in logs && k != id ensures logs[k].fd != logs[id].fd {}
    }

    // One line to every entry of the map, in whatever order it is iterated. What
    // appendLine remembers about the first time is dropped with the copy.
    method AppendToEntries(h: bool, text: string)
      requires FdsDistinct(logFiles) && Fds(logFiles) <= os.files.Keys
      requires forall k | k in logFiles :: logFiles[k].fd != -1
      modifies os`files
      ensures Given(logFiles, logFiles.Keys, old(os.files), os.files, h, text)
    {
      ghost var before := os.files;
      ghost var done: set<string> := {};
      assert forall k | k in logFiles :: logFiles[k].fd in Fds(logFiles);
      var todo := logFiles.Keys;
      while todo != {}
        invariant todo <= logFiles.Keys && done == logFiles.Keys - todo
        invariant Given(logFiles, done, before, os.files, h, text)
        decreases todo
      {
        var id :| id in todo;
        var lf := logFiles[id];
        GivenNext(logFiles, done, before, os.files, h, text, id);
        var _ := AppendLine(lf, h, text);
        todo, done := todo - {id}, done + {id};
      }
    }

    method AppendToDefault(h: bool, text: string)
      modifies this`defaultFile, os`files
      ensures defaultFile == old(defaultFile).(isFirstTime := old(defaultFile).isFirstTime &&
                                                              !(h && old(defaultFile).name != ""))
      ensures DefaultGiven(old(State()), os.files, h, text)
      ensures State() == old(State()).(def := defaultFile, files := os.files) && source == old(source)
    {
      if defaultFile.name != "" {
        defaultFile := AppendLine(defaultFile, h, text);
      }
    }

    method AppendToLogs(h: bool, newText: string)
      requires Sound(State())
      modifies this`defaultFile, os`files
      ensures State() == AppendLog(old(State()), h, newText) && source == old(source)
    {
      ghost var w := State();
      var at := IndexOfEtx(newText);
      var text := if at < |newText| then newText[..at] + newText[at + 1..] else newText;
      StripEtxAt(newText, at);
      AppendToDefault(h, text);
      ghost var between := os.files;
      AppendToEntries(h, text);
      AppendedEverywhere(w, h, newText, between, os.files);
    }

    // The default log first, then the entries: together, what AppendLog says.
    static lemma AppendedEverywhere(w: World, h: bool, newText: string, between: map<int, File>,
                                    files: map<int, File>)
      requires Sound(w) && DefaultGiven(w, between, h, StripEtx(newText))
      requires Fds(w.logs) <= between.Keys
      requires Given(w.logs, w.logs.Keys, between, files, h, StripEtx(newText))
      ensures files == AppendLog(w, h, newText).files
    {
      forall fd | fd in w.files ensures files[fd] == More(w.files[fd], Written(w, fd, h, StripEtx(newText))) {
        AppendedAt(w, h, StripEtx(newText), between, files, fd);
      }
    }

    static ghost predicate DefaultGiven(w: World, between: map<int, File>, h: bool, text: string)
    {
      if w.def.name == "" then between == w.files
      else between == Extend(w.files, w.def.fd, Line(w.def.isFirstTime, h, text))
    }

    static lemma AppendedAt(w: World, h: bool, text: string, between: map<int, File>,
                            files: map<int, File>, fd: int)
      requires Sound(w) && DefaultGiven(w, between, h, text) && fd in w.files
      requires Fds(w.logs) <= between.Keys
      requires Given(w.logs, w.logs.Keys, between, files, h, text)
      ensures fd in files && files[fd] == More(w.files[fd], Written(w, fd, h, text))
    {
      assert w.def.fd !in Fds(w.logs);
      if fd in Fds(w.logs) {
        var k :| k in w.logs && w.logs[k].fd == fd;
        assert EntryGiven(w.logs[k], true, between, files, h, text);
        assert IsLogOf(w, k, fd);
      } else {
        assert forall k :: !IsLogOf(w, k, fd);
      }
    }
  }
}
