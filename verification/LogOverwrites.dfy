// logOverwrite does not keep the table in order; this is exactly when it does.
module LogOverwrites {
  import opened LogTable
  import opened LogRuns
  import opened LogLaws

  // ---------- trim ----------

  predicate IsSpace(c: char)
  {
    c in {' ', '\t', '\n', '\U{000B}', '\U{000C}', '\r'}
  }

  lemma SpacesAre(c: char)
    ensures IsSpace(c) <==> c as int == 32 || 9 <= c as int <= 13
  {
  }

  function TrimLeft(s: string): string
  {
    if s != "" && IsSpace(s[0]) then TrimLeft(s[1..]) else s
  }

  function TrimRight(s: string): string
  {
    if s != "" && IsSpace(s[|s| - 1]) then TrimRight(s[..|s| - 1]) else s
  }

  function Trim(s: string): string
  {
    TrimRight(TrimLeft(s))
  }

  predicate Blank(s: string)
  {
    forall c | c in s :: IsSpace(c)
  }

  // What is left when blanks are taken off both ends of a string.
  lemma {:induction false} TrimLeftOf(before: string, s: string)
    requires Blank(before) && (s == "" || !IsSpace(s[0]))
    ensures TrimLeft(before + s) == s
  {
    if before == "" {
      assert before + s == s;
    } else {
      assert before[0] in before && (before + s)[1..] == before[1..] + s;
      TrimLeftOf(before[1..], s);
    }
  }

  lemma {:induction false} TrimRightOf(s: string, after: string)
    requires Blank(after) && (s == "" || !IsSpace(s[|s| - 1]))
    ensures TrimRight(s + after) == s
  {
    if after == "" {
      assert s + after == s;
    } else {
      assert after[|after| - 1] in after && (s + after)[..|s + after| - 1] == s + after[..|after| - 1];
      TrimRightOf(s, after[..|after| - 1]);
    }
  }

  // Trimming takes the blanks off both ends, and nothing else.
  lemma {:induction false} TrimOf(before: string, s: string, after: string)
    requires Blank(before) && Blank(after)
    requires s == "" || (!IsSpace(s[0]) && !IsSpace(s[|s| - 1]))
    ensures Trim(before + s + after) == s
  {
    if s == "" {
      assert before + s + after == before + after + "";
      TrimLeftOf(before + after, "");
    } else {
      assert before + s + after == before + (s + after);
      TrimLeftOf(before, s + after);
      TrimRightOf(s, after);
    }
  }

  // ---------- the operation ----------

  // The default log's descriptor is given up first, whatever id is being opened.
  function GiveUpDefault(w: World): World
    requires Sound(w)
  {
    CloseIfOpen(w, w.def.fd).(def := w.def.(fd := -1))
  }

  predicate OverwritePossible(w: World, fileName: string, env: OpenOutcome)
    requires Sound(w)
  {
    Trim(fileName) != "" ==> Possible(GiveUpDefault(w), env)
  }

  // The new file takes the place of what the id stood for, which is not closed.
  function Put(w: World, id: string, lf: LogFile, f: File): World
  {
    var ready := Open(w, lf.fd, f);
    if id == DEFAULT_FILE_ID then ready.(def := lf) else ready.(logs := w.logs[id := lf])
  }

  // Opened for writing, but not for appending.
  function ForWriting(path: string): File
  {
    File(path, false, [])
  }

  // What follows once the default descriptor is closed and the file may be opened.
  function OpenAndPut(w: World, norm: string -> string, name: string, id: string, env: OpenOutcome)
    : (World, ReturnCode)
    requires Possible(w, env)
  {
    if env.OpenFailed? then (if id == DEFAULT_FILE_ID then NameDropped(w) else w, FILE_LOGGING_ERR)
    else if !env.existed && !env.chmodOk then (OpenedAndClosed(w, env.fd, ForWriting(name)), FILE_LOGGING_ERR)
    else if !w.hasSource then (OpenedAndClosed(w, env.fd, ForWriting(name)), INTERNAL_ERR)
    else (Put(TurnOn(w), id, NewFile(norm, name, env), ForWriting(name)), NO_PROBLEM)
  }

  // The answer of open comes after the close.
  function LogOverwrite(w: World, norm: string -> string, fileName: string, id: string, env: OpenOutcome)
    : (World, ReturnCode)
    requires Sound(w) && OverwritePossible(w, fileName, env)
  {
    var name := Trim(fileName);
    if name == "" then (NameDropped(w), INVALID_LOG_FILE)
    else OpenAndPut(GiveUpDefault(w), norm, name, id, env)
  }

  // ---------- when it keeps the table in order ----------

  // The table stays in order when: a new default log is not open under another id;
  // otherwise the default log, which loses its descriptor, was not open, and a new log
  // replaces nothing.
  ghost predicate OverwriteIsSafe(w: World, norm: string -> string, name: string, id: string, env: OpenOutcome)
  {
    if name == "" then true
    else if Succeeds(w, name, env) then
      && !NameInUse(w.logs, norm(name))
      && (id == DEFAULT_FILE_ID || (w.def.name == "" && id !in w.logs))
    else w.def.name == "" || (id == DEFAULT_FILE_ID && env.OpenFailed?)
  }

  // Giving up the default descriptor loses none of the others.
  lemma GiveUpAccounts(w: World)
    requires Sound(w)
    ensures var closed := GiveUpDefault(w);
            Sound(closed) && Leaked(closed) == Leaked(w) && Owned(closed) == Fds(w.logs)
  {
    assert w.def.fd !in Fds(w.logs);
  }

  // Nothing is installed: the default log has lost its descriptor and keeps its name,
  // unless the call was for the default log and open failed.
  lemma OverwriteRefused(w: World, norm: string -> string, fileName: string, id: string, env: OpenOutcome)
    requires Sound(w) && OverwritePossible(w, fileName, env) && !Succeeds(w, Trim(fileName), env)
    ensures LogOverwrite(w, norm, fileName, id, env).0 ==
            if Trim(fileName) == "" then NameDropped(w)
            else if id == DEFAULT_FILE_ID && env.OpenFailed? then NameDropped(GiveUpDefault(w))
            else GiveUpDefault(w)
  {
    if Trim(fileName) != "" && env.Opened? {
      OpenThenClose(GiveUpDefault(w), env.fd, ForWriting(Trim(fileName)));
    }
  }

  lemma GivenUpIsValid(w: World)
    requires Valid(w)
    ensures Valid(NameDropped(GiveUpDefault(w)))
    ensures Valid(GiveUpDefault(w)) <==> w.def.name == ""
  {
    GiveUpAccounts(w);
  }

  lemma {:induction false} OverwriteKeepsValidExactly(w: World, norm: string -> string, fileName: string,
      id: string, env: OpenOutcome)
    requires Valid(w) && KeepsNames(norm) && OverwritePossible(w, fileName, env)
    ensures Valid(LogOverwrite(w, norm, fileName, id, env).0) <==> OverwriteIsSafe(w, norm, Trim(fileName), id, env)
  {
    if Succeeds(w, Trim(fileName), env) {
      PutKeepsValidExactly(w, id, NewFile(norm, Trim(fileName), env), ForWriting(Trim(fileName)));
    } else {
      OverwriteRefused(w, norm, fileName, id, env);
      GivenUpIsValid(w);
      NameDroppedKeepsValid(w);
    }
  }

  lemma PutKeepsValidExactly(w: World, id: string, lf: LogFile, f: File)
    requires Valid(w) && w.hasSource && lf.name != "" && lf.isFirstTime && Fresh(GiveUpDefault(w), lf)
    ensures Valid(Put(TurnOn(GiveUpDefault(w)), id, lf, f)) <==>
            && !NameInUse(w.logs, lf.name)
            && (id == DEFAULT_FILE_ID || (w.def.name == "" && id !in w.logs))
  {
    GiveUpAccounts(w);
    var on := TurnOn(GiveUpDefault(w));
    assert Sound(on) && Leaked(on) == {} && on.def.fd == -1;
    PutAccounts(on, id, lf, f);
    PutNamesExactly(on.def, w.logs, id, lf);
    assert Registered(Put(on, id, lf, f));
  }

  // A log that is replaced without being closed is lost.
  lemma PutAccounts(w: World, id: string, lf: LogFile, f: File)
    requires Sound(w) && Fresh(w, lf) && w.def.fd == -1
    ensures var w' := Put(w, id, lf, f);
            && Sound(w')
            && Leaked(w') == Leaked(w) + if id == DEFAULT_FILE_ID then {} else FdOf(w.logs, id)
  {
    if id != DEFAULT_FILE_ID {
      FdsOfUpdate(w.logs, id, lf);
      FdsStayApart(w.def.fd, w.logs, id, lf);
    }
    assert Put(w, id, lf, f).files.Keys == w.files.Keys + {lf.fd};
  }

  lemma PutNamesExactly(def: LogFile, logs: map<string, LogFile>, id: string, lf: LogFile)
    requires NamesApart(def.(name := ""), logs) && (forall k | k in logs :: logs[k].name != def.name) && def.fd == -1
    requires lf.name != "" && lf.isFirstTime && 0 <= lf.fd
    ensures id == DEFAULT_FILE_ID ==> (NamesApart(lf, logs) <==> !NameInUse(logs, lf.name))
    ensures id != DEFAULT_FILE_ID && id !in logs ==>
              (NamesApart(def, logs[id := lf]) <==> def.name == "" && !NameInUse(logs, lf.name))
    ensures id != DEFAULT_FILE_ID && def.name != "" ==> !NamesApart(def, logs[id := lf])
  {
    if NameInUse(logs, lf.name) && id != DEFAULT_FILE_ID && id !in logs {
      var k :| k in logs && logs[k].name == lf.name;
      assert logs[id := lf][k].name == logs[id := lf][id].name;
    }
  }

  // ---------- what can be known before the call ----------

  // A descriptor the operating system could hand out.
  lemma {:induction false} SomeFreshFd(open: set<int>) returns (fd: nat)
    ensures forall other | other in open :: other < fd
  {
    fd := 0;
    if x :| x in open {
      var below := SomeFreshFd(open - {x});
      fd := if x < below then below else x + 1;
      assert forall other | other in open :: other == x || other in open - {x};
    }
  }

  ghost predicate SafeForEveryAnswer(w: World, norm: string -> string, fileName: string, id: string)
    requires Sound(w)
  {
    forall env | OverwritePossible(w, fileName, env) :: Valid(LogOverwrite(w, norm, fileName, id, env).0)
  }

  // The condition a caller can check: whatever open, stat and chmod then answer, the
  // table stays in order exactly under it.
  lemma {:induction false} SafeOverwriteExactly(w: World, norm: string -> string, fileName: string, id: string)
    requires Valid(w) && KeepsNames(norm)
    ensures SafeForEveryAnswer(w, norm, fileName, id) <==>
            || Trim(fileName) == ""
            || (&& w.def.name == ""
                && (w.hasSource ==>
                      !NameInUse(w.logs, norm(Trim(fileName))) && (id == DEFAULT_FILE_ID || id !in w.logs)))
  {
    var fd := SomeFreshFd(w.files.Keys);
    assert fd !in w.files && fd !in GiveUpDefault(w).files;
    var worst, best := Opened(fd, false, false), Opened(fd, true, true);
    assert OverwritePossible(w, fileName, worst) && OverwritePossible(w, fileName, best);
    OverwriteKeepsValidExactly(w, norm, fileName, id, worst);
    OverwriteKeepsValidExactly(w, norm, fileName, id, best);
    forall env | OverwritePossible(w, fileName, env)
      ensures Valid(LogOverwrite(w, norm, fileName, id, env).0) <==>
              OverwriteIsSafe(w, norm, Trim(fileName), id, env)
    {
      OverwriteKeepsValidExactly(w, norm, fileName, id, env);
    }
  }

  // It does go wrong: with the default log of a fresh logger open, any overwrite for
  // another id takes its descriptor away and leaves its name.
  lemma OverwriteBreaksTheTable(norm: string -> string, w: World, name: string, fd: nat, fileName: string, id: string)
    requires Started(w) && KeepsNames(norm) && name != "" && Trim(fileName) != "" && id != DEFAULT_FILE_ID
    ensures Valid(w)
    ensures var ops := [LogAppendOp(name, DEFAULT_FILE_ID, Opened(fd, true, true))];
            && RunAllowed(norm, w, ops)
            && var w' := Run(norm, w, ops);
               && !Valid(LogOverwrite(w', norm, fileName, id, OpenFailed).0)
               && LogOverwrite(w', norm, fileName, id, OpenFailed).0.files == map[]
  {
    DefaultOpened(norm, w, name, fd);
    var w' := Run(norm, w, [LogAppendOp(name, DEFAULT_FILE_ID, Opened(fd, true, true))]);
    OverwriteKeepsValidExactly(w', norm, fileName, id, OpenFailed);
    OverwriteRefused(w', norm, fileName, id, OpenFailed);
  }
}
