// What each operation does to the logger and to its files, in full.
module LogEffects {
  import opened LogTable
  import opened LogRuns
  import opened LogLaws
  import opened LogOverwrites

  // ---------- what stands for an id ----------

  // The default log is the one with the id "1".
  predicate IsOpen(w: World, id: string)
  {
    if id == "1" then w.def.name != "" && w.def.fd != -1 else id in w.logs
  }

  function EntryOf(w: World, id: string): LogFile
    requires id != "1" ==> id in w.logs
  {
    if id == "1" then w.def else w.logs[id]
  }

  lemma OpenIsInFiles(w: World, id: string)
    requires Sound(w) && IsOpen(w, id)
    ensures EntryOf(w, id).fd in w.files
  {
    if id != "1" {
      OwnedFd(w, id);
    }
  }

  // The descriptors that stand for an id.
  function FdsFor(w: World, id: string): set<int>
  {
    if id == "1" then (if w.def.fd == -1 then {} else {w.def.fd})
    else if id in w.logs then {w.logs[id].fd}
    else {}
  }

  // ---------- logAppend ----------

  // A file that is installed was opened for appending, under the path the caller gave; it
  // stands for the id under the normalised path, and what stood for the id is closed.
  lemma AppendInstalls(w: World, norm: string -> string, name: string, id: string, env: OpenOutcome)
    requires Sound(w) && Possible(w, env) && Succeeds(w, name, env) && Unused(w, norm(name))
    ensures var w' := LogAppend(w, norm, name, id, env).0;
            && (id != "1" ==> id in w'.logs)
            && EntryOf(w', id) == LogFile(norm(name), env.fd, true)
            && env.fd in w'.files && w'.files[env.fd] == File(name, true, [])
            && w'.files.Keys == w.files.Keys - FdsFor(w, id) + {env.fd}
            && w'.on && w'.hasSource
  {
    AppendSucceeds(w, norm, name, id, env);
    if id in w.logs {
      OwnedFd(w, id);
    }
  }

  // ---------- closeLog, closeAllLogs ----------

  lemma CloseEffect(w: World, id: string)
    requires Sound(w)
    ensures !w.on ==> CloseLog(w, id) == w
    ensures w.on ==>
              var w' := CloseLog(w, id);
              && w'.def == (if id == "1" then LogFile("", -1, true) else w.def)
              && w'.logs == (if id == "1" then w.logs else w.logs - {id})
              && w'.files == w.files - FdsFor(w, id)
              && w'.hasSource == w.hasSource
  {
  }

  lemma CloseAllEffect(w: World)
    requires Sound(w)
    ensures var w' := CloseAllLogs(w);
            && w'.logs == map[]
            && w'.def == (if w.on && w.def.fd != -1 then LogFile("", -1, true) else w.def)
            && w'.files == (if w.on then w.files - Owned(w) else w.files)
            && w'.on == w.on && w'.hasSource == w.hasSource && w'.dependents == w.dependents
  {
  }

  // ---------- registration ----------

  // A client is registered behind the others.
  lemma TurnOnEffect(w: World)
    requires w.hasSource
    ensures TurnOn(w) == w.(on := true, dependents := if w.on then w.dependents else w.dependents + [w.me])
  {
  }

  // Its first registration goes.
  lemma {:induction false} TurnOffEffect(w: World, i: nat)
    requires w.on && w.hasSource
    requires i < |w.dependents| && w.dependents[i] == w.me && w.me !in w.dependents[..i]
    ensures TurnOff(w) == w.(on := false, dependents := w.dependents[..i] + w.dependents[i + 1..])
  {
    RemoveFirstAt(w.dependents, w.me, i);
  }

  lemma {:induction false} RemoveFirstAt(s: seq<int>, x: int, i: nat)
    requires i < |s| && s[i] == x && x !in s[..i]
    ensures RemoveFirst(s, x) == s[..i] + s[i + 1..]
  {
    if i > 0 {
      assert s[0] == s[..i][0] && s[1..][..i - 1] == s[..i][1..];
      RemoveFirstAt(s[1..], x, i - 1);
      assert s[1..][i..] == s[i + 1..];
    }
  }

  // Losing the source changes nothing in the table or in the files.
  lemma DetachEffect(w: World)
    ensures var w' := Detach(w);
            && w'.def == w.def && w'.logs == w.logs && w'.files == w.files
            && (w.on ==> !w'.on && !w'.hasSource)
            && (!w.on ==> w' == w)
  {
  }

  // ---------- texts ----------

  // The first character 3 is taken out of a text.
  lemma {:induction false} StripEtxAt(t: string, i: nat)
    requires i <= |t| && '\U{0003}' !in t[..i] && (i < |t| ==> t[i] == '\U{0003}')
    ensures StripEtx(t) == if i < |t| then t[..i] + t[i + 1..] else t
  {
    if t != "" && i > 0 {
      assert t[0] == t[..i][0];
      assert t[1..][..i - 1] == t[..i][1..];
      StripEtxAt(t[1..], i - 1);
      if i < |t| {
        assert t[1..][i..] == t[i + 1..];
      }
    }
  }

  // A text from the log's own source goes to every open log, behind the header if one is
  // asked for and the log has not had one; for the default log that is then remembered.
  lemma UpdateEffect(w: World, h: bool, text: string, id: string)
    requires Sound(w) && w.on && text != "" && IsOpen(w, id)
    ensures var w' := UpdateFrom(w, true, h, text);
            && w'.logs == w.logs
            && w'.def == w.def.(isFirstTime := if h && w.def.name != "" then false else w.def.isFirstTime)
            && var fd := EntryOf(w, id).fd;
               && fd in w.files && fd in w'.files
               && w'.files[fd].path == w.files[fd].path
               && w'.files[fd].chunks ==
                  if h && EntryOf(w, id).isFirstTime then w.files[fd].chunks + [Header, Text(StripEtx(text))]
                  else w.files[fd].chunks + [Text(StripEtx(text))]
  {
    OpenIsInFiles(w, id);
    if id != "1" {
      WrittenToEntry(w, id, h, StripEtx(text));
    }
  }

  lemma WrittenToEntry(w: World, k: string, h: bool, text: string)
    requires Sound(w) && k in w.logs
    ensures Written(w, w.logs[k].fd, h, text) == Line(w.logs[k].isFirstTime, h, text)
  {
    assert IsLogOf(w, k, w.logs[k].fd);
  }

  // No other file is written to: not one that nothing refers to, nor that of a default log
  // that has lost its name.
  lemma UpdateWritesNowhereElse(w: World, fromSource: bool, h: bool, text: string, fd: int)
    requires fd in w.files && fd !in Fds(w.logs) && (fd == w.def.fd ==> w.def.name == "")
    ensures var w' := UpdateFrom(w, fromSource, h, text);
            fd in w'.files && w'.files[fd] == w.files[fd]
    ensures UpdateFrom(w, fromSource, h, text).files.Keys == w.files.Keys
  {
    assert forall k :: IsLogOf(w, k, fd) ==> fd in Fds(w.logs);
    assert Written(w, fd, h, StripEtx(text)) == [];
    assert w.files[fd].chunks + [] == w.files[fd].chunks;
  }

  // Anything else changes nothing.
  lemma UpdateIgnored(w: World, fromSource: bool, h: bool, text: string)
    requires !w.on || !fromSource || text == ""
    ensures UpdateFrom(w, fromSource, h, text) == w
  {
  }

  // ---------- logOverwrite ----------

  lemma OverwriteAnswers(w: World, norm: string -> string, fileName: string, id: string, env: OpenOutcome)
    requires Sound(w) && OverwritePossible(w, fileName, env)
    ensures var (w', res) := LogOverwrite(w, norm, fileName, id, env);
            && (res == INVALID_LOG_FILE <==> Trim(fileName) == "")
            && (res == NO_PROBLEM <==> Succeeds(w, Trim(fileName), env))
            && (res == INTERNAL_ERR <==>
                  Trim(fileName) != "" && env.Opened? && (env.existed || env.chmodOk) && !w.hasSource)
            && (res == FILE_LOGGING_ERR <==>
                  Trim(fileName) != "" && (env.OpenFailed? || (!env.existed && !env.chmodOk)))
            && (res == NO_PROBLEM ==> w'.on && NameOf(w', id) == norm(Trim(fileName)))
  {
  }

  // A file that is installed was opened, not for appending, under the trimmed name. The
  // default log's descriptor is closed first, whatever the id.
  lemma OverwriteInstalls(w: World, norm: string -> string, fileName: string, id: string, env: OpenOutcome)
    requires Sound(w) && OverwritePossible(w, fileName, env) && Succeeds(w, Trim(fileName), env)
    ensures var w' := LogOverwrite(w, norm, fileName, id, env).0;
            && (id != "1" ==> id in w'.logs && w'.def == w.def.(fd := -1))
            && EntryOf(w', id) == LogFile(norm(Trim(fileName)), env.fd, true)
            && env.fd in w'.files && w'.files[env.fd] == File(Trim(fileName), false, [])
            && w'.files.Keys == w.files.Keys - FdsFor(w, "1") + {env.fd}
  {
  }

  // The other logs of the map are left alone.
  lemma OverwriteFrames(w: World, norm: string -> string, fileName: string, id: string, env: OpenOutcome, other: string)
    requires Sound(w) && OverwritePossible(w, fileName, env) && other != id && other != "1"
    ensures SameLog(w, LogOverwrite(w, norm, fileName, id, env).0, other)
  {
    GiveUpAccounts(w);
    GiveUpFrames(w, other);
    if Succeeds(w, Trim(fileName), env) {
      PutFrames(TurnOn(GiveUpDefault(w)), id, NewFile(norm, Trim(fileName), env), ForWriting(Trim(fileName)), other);
    } else {
      OverwriteRefused(w, norm, fileName, id, env);
    }
  }

  lemma GiveUpFrames(w: World, other: string)
    requires Sound(w) && other != "1"
    ensures SameLog(w, GiveUpDefault(w), other)
  {
    if other in w.logs {
      OwnedFd(w, other);
    }
  }

  lemma PutFrames(w: World, id: string, lf: LogFile, f: File, other: string)
    requires Sound(w) && Fresh(w, lf) && other != id && other != "1"
    ensures SameLog(w, Put(w, id, lf, f), other)
  {
    if other in w.logs {
      OwnedFd(w, other);
    }
  }

  // Otherwise nothing is opened for good, and what is closed is the default descriptor,
  // unless the name was blank.
  lemma OverwriteRefusedEffect(w: World, norm: string -> string, fileName: string, id: string, env: OpenOutcome)
    requires Sound(w) && OverwritePossible(w, fileName, env) && !Succeeds(w, Trim(fileName), env)
    ensures var w' := LogOverwrite(w, norm, fileName, id, env).0;
            && w'.logs == w.logs && w'.on == w.on && w'.dependents == w.dependents
            && w'.def == LogFile(
                           if Trim(fileName) == "" || (id == "1" && env.OpenFailed?) then "" else w.def.name,
                           if Trim(fileName) == "" then w.def.fd else -1,
                           w.def.isFirstTime)
            && w'.files == if Trim(fileName) == "" then w.files else w.files - FdsFor(w, "1")
  {
    OverwriteRefused(w, norm, fileName, id, env);
  }
}
