// The file logger as a state machine: its table of open logs, the descriptors the
// operating system has handed out, and its registration with the log source. Every
// outcome of open, stat and chmod is part of the operation, so a run covers them all.
module LogTable {

  const DEFAULT_FILE_ID: string := "1"

  datatype LogFile = LogFile(name: string, fd: int, isFirstTime: bool)

  const NO_FILE := LogFile("", -1, true)

  datatype ReturnCode =
    | NO_PROBLEM
    | INTERNAL_ERR
    | INVALID_LOG_FILE
    | FILE_LOGGING_ERR
    | LOG_ALREADY_OPEN(name: string)

  // What was written: the header block, or one text.
  datatype Chunk = Header | Text(text: string)

  // An open file: the path it was opened under, whether for appending, and what has been
  // written through the descriptor since.
  datatype File = File(path: string, appending: bool, chunks: seq<Chunk>)

  // The logger, and of the world around it the descriptors it has open and the dependents
  // of its log source.
  datatype World = World(
    def: LogFile,
    logs: map<string, LogFile>,
    on: bool,
    hasSource: bool,
    me: int,
    dependents: seq<int>,
    files: map<int, File>)

  // What the operating system answers to open, and to chmod on a file that is new.
  datatype OpenOutcome = OpenFailed | Opened(fd: nat, existed: bool, chmodOk: bool)

  // An open descriptor is one that was not open before.
  predicate Possible(w: World, env: OpenOutcome)
  {
    env.Opened? ==> env.fd !in w.files
  }

  // ozt_normalisePath is not known, except that it does not make a name empty.
  ghost predicate KeepsNames(norm: string -> string)
  {
    forall name :: name != "" ==> norm(name) != ""
  }

  // ---------- descriptors ----------

  function Open(w: World, fd: int, f: File): World
  {
    w.(files := w.files[fd := f])
  }

  function ForAppending(path: string): File
  {
    File(path, true, [])
  }

  function More(f: File, chunks: seq<Chunk>): File
  {
    f.(chunks := f.chunks + chunks)
  }

  // Only an open descriptor may be closed.
  function Close(w: World, fd: int): World
    requires fd in w.files
  {
    w.(files := w.files - {fd})
  }

  function CloseIfOpen(w: World, fd: int): World
    requires fd != -1 ==> fd in w.files
  {
    if fd != -1 then Close(w, fd) else w
  }

  // ---------- registration ----------

  function TurnOn(w: World): World
    requires w.hasSource
  {
    if w.on then w else w.(on := true, dependents := w.dependents + [w.me])
  }

  function TurnOff(w: World): World
  {
    if w.on && w.hasSource then w.(on := false, dependents := RemoveFirst(w.dependents, w.me)) else w
  }

  function RemoveFirst(s: seq<int>, x: int): seq<int>
  {
    if s == [] then []
    else if s[0] == x then s[1..]
    else [s[0]] + RemoveFirst(s[1..], x)
  }

  // The dependents other than the logger itself.
  function Others(s: seq<int>, me: int): seq<int>
  {
    if s == [] then []
    else (if s[0] == me then [] else [s[0]]) + Others(s[1..], me)
  }

  lemma {:induction false} RemoveFirstRemoves(s: seq<int>, x: int)
    ensures Others(RemoveFirst(s, x), x) == Others(s, x)
    ensures multiset(RemoveFirst(s, x)) == multiset(s) - multiset{x}
  {
    if s != [] {
      assert s == [s[0]] + s[1..];
      if s[0] != x {
        RemoveFirstRemoves(s[1..], x);
        assert multiset(s) == multiset{s[0]} + multiset(s[1..]);
      }
    }
  }

  lemma {:induction false} OthersOfAppend(s: seq<int>, x: int)
    ensures Others(s + [x], x) == Others(s, x)
  {
    if s == [] {
      assert s + [x] == [x];
    } else {
      assert (s + [x])[1..] == s[1..] + [x];
      OthersOfAppend(s[1..], x);
    }
  }

  // ---------- the operations ----------

  ghost predicate NameInUse(logs: map<string, LogFile>, name: string)
  {
    exists k :: k in logs && logs[k].name == name
  }

  // The descriptors the table refers to.
  function Owned(w: World): set<int>
  {
    DefaultFd(w.def.fd) + Fds(w.logs)
  }

  function DefaultFd(fd: int): set<int>
  {
    if fd != -1 then {fd} else {}
  }

  function Fds(logs: map<string, LogFile>): set<int>
  {
    set k | k in logs :: logs[k].fd
  }

  // A newly opened file takes the place of what the id stood for.
  function Install(w: World, id: string, lf: LogFile, f: File): World
    requires Owned(w) <= w.files.Keys && lf.fd !in w.files
  {
    var ready := Open(w, lf.fd, f);
    if id == DEFAULT_FILE_ID then CloseIfOpen(ready, w.def.fd).(def := lf)
    else if id in w.logs then Close(ready, w.logs[id].fd).(logs := w.logs[id := lf])
    else ready.(logs := w.logs[id := lf])
  }

  function NameDropped(w: World): World
  {
    w.(def := w.def.(name := ""))
  }

  function OpenedAndClosed(w: World, fd: int, f: File): World
  {
    Close(Open(w, fd, f), fd)
  }

  // The rest of logAppend once its file is open and logging is on. `w` is the state but
  // for the new descriptor.
  ghost function AddFile(w: World, id: string, lf: LogFile, f: File): (World, ReturnCode)
    requires Sound(w) && lf.fd !in w.files
  {
    if id in w.logs && w.logs[id].name == lf.name then (OpenedAndClosed(w, lf.fd, f), NO_PROBLEM)
    else if NameInUse(w.logs, lf.name) then (OpenedAndClosed(w, lf.fd, f), LOG_ALREADY_OPEN(lf.name))
    else if w.def.name == lf.name then
      (OpenedAndClosed(w, lf.fd, f), if id == DEFAULT_FILE_ID then NO_PROBLEM else LOG_ALREADY_OPEN(lf.name))
    else (Install(w, id, lf, f), NO_PROBLEM)
  }

  ghost function LogAppend(w: World, norm: string -> string, name: string, id: string, env: OpenOutcome)
    : (World, ReturnCode)
    requires Sound(w) && Possible(w, env)
  {
    if name == "" then (NameDropped(w), INVALID_LOG_FILE)
    else if env.OpenFailed? then (if id == DEFAULT_FILE_ID then NameDropped(w) else w, FILE_LOGGING_ERR)
    else if !env.existed && !env.chmodOk then (OpenedAndClosed(w, env.fd, ForAppending(name)), FILE_LOGGING_ERR)
    else if !w.hasSource then (OpenedAndClosed(w, env.fd, ForAppending(name)), INTERNAL_ERR)
    else AddFile(TurnOn(w), id, LogFile(norm(name), env.fd, true), ForAppending(name))
  }

  // What closeLog does to the table, before it looks whether a log is left.
  function CloseEntry(w: World, id: string): World
    requires Owned(w) <= w.files.Keys
  {
    if id == DEFAULT_FILE_ID then CloseIfOpen(w, w.def.fd).(def := NO_FILE)
    else if id in w.logs then Close(w, w.logs[id].fd).(logs := w.logs - {id})
    else w
  }

  function CloseLog(w: World, id: string): World
    requires Owned(w) <= w.files.Keys
  {
    if !w.on then w
    else
      var closed := CloseEntry(w, id);
      if closed.logs == map[] && closed.def.name == "" then TurnOff(closed) else closed
  }

  ghost function CloseAllLogs(w: World): World
  {
    if w.on then w.(def := if w.def.fd != -1 then NO_FILE else w.def, logs := map[], files := w.files - Owned(w))
    else w.(logs := map[])
  }

  // Destruction: all logs are closed, then logging is turned off.
  ghost function Destroy(w: World): World
  {
    TurnOff(CloseAllLogs(w))
  }

  const ETX: char := '\U{0003}'

  // The text without its first end-of-text character.
  function StripEtx(t: string): string
  {
    if t == "" then ""
    else if t[0] == ETX then t[1..]
    else [t[0]] + StripEtx(t[1..])
  }

  // What appendLine writes to a log.
  function Line(first: bool, h: bool, text: string): seq<Chunk>
  {
    if h && first then [Header, Text(text)] else [Text(text)]
  }

  ghost predicate IsLogOf(w: World, k: string, fd: int)
  {
    k in w.logs && w.logs[k].fd == fd
  }

  // What appendLog writes through one descriptor; a write through none fails.
  ghost function Written(w: World, fd: int, h: bool, text: string): seq<Chunk>
  {
    if fd == -1 then []
    else if fd == w.def.fd && w.def.name != "" then Line(w.def.isFirstTime, h, text)
    else if exists k :: IsLogOf(w, k, fd) then
      var k :| IsLogOf(w, k, fd);
      Line(w.logs[k].isFirstTime, h, text)
    else []
  }

  ghost function AppendLog(w: World, h: bool, newText: string): World
  {
    var text := StripEtx(newText);
    w.(def := w.def.(isFirstTime := w.def.isFirstTime && !(h && w.def.name != "")),
       files := map fd | fd in w.files :: More(w.files[fd], Written(w, fd, h, text)))
  }

  ghost function UpdateFrom(w: World, fromSource: bool, h: bool, newText: string): World
  {
    if w.on && fromSource && newText != "" then AppendLog(w, h, newText) else w
  }

  // The source goes away. If logging was on it goes off, and the source is forgotten;
  // nothing is closed.
  function Detach(w: World): World
  {
    if w.on then w.(on := false, hasSource := false, dependents := []) else w
  }

  // ---------- the invariants ----------

  // What every operation asks for: the descriptors in the table are open, each in one place.
  ghost predicate Sound(w: World)
  {
    Owned(w) <= w.files.Keys && FdsApart(w.def.fd, w.logs)
  }

  ghost predicate FdsApart(defFd: int, logs: map<string, LogFile>)
  {
    && -1 <= defFd
    && (forall k | k in logs :: 0 <= logs[k].fd && logs[k].fd != defFd)
    && FdsDistinct(logs)
  }

  // The descriptors that are open and that nothing refers to any more.
  ghost function Leaked(w: World): set<int>
  {
    w.files.Keys - Owned(w)
  }

  // Open descriptors are exactly those in the table, each in one place.
  ghost predicate DescriptorsOwned(w: World)
  {
    Sound(w) && Leaked(w) == {}
  }

  ghost predicate FdsDistinct(logs: map<string, LogFile>)
  {
    forall j, k | j in logs && k in logs && j != k :: logs[j].fd != logs[k].fd
  }

  // No path is open under two ids.
  ghost predicate NamesDistinct(w: World)
  {
    NamesApart(w.def, w.logs)
  }

  ghost predicate NamesApart(def: LogFile, logs: map<string, LogFile>)
  {
    && DEFAULT_FILE_ID !in logs
    && (def.name != "" ==> def.fd != -1)
    && (forall k | k in logs :: logs[k].name != "" && logs[k].name != def.name && logs[k].isFirstTime)
    && (forall j, k | j in logs && k in logs && j != k :: logs[j].name != logs[k].name)
  }

  // Logging is on exactly when the logger is registered, once, and it is on whenever
  // the table holds a log.
  ghost predicate Registered(w: World)
  {
    && (w.on ==> w.hasSource)
    && multiset(w.dependents)[w.me] == (if w.on then 1 else 0)
    && (w.logs != map[] || w.def.name != "" ==> w.on)
  }

  ghost predicate Valid(w: World)
  {
    DescriptorsOwned(w) && NamesDistinct(w) && Registered(w)
  }

  lemma TurnOnKeepsValid(w: World)
    requires Valid(w) && w.hasSource
    ensures Valid(TurnOn(w))
    ensures Others(TurnOn(w).dependents, w.me) == Others(w.dependents, w.me)
  {
    OthersOfAppend(w.dependents, w.me);
  }

  lemma TurnOffKeepsValid(w: World)
    requires DescriptorsOwned(w) && NamesDistinct(w) && w.logs == map[] && w.def.name == ""
    requires (w.on ==> w.hasSource) && multiset(w.dependents)[w.me] == (if w.on then 1 else 0)
    ensures Valid(TurnOff(w)) && !TurnOff(w).on
    ensures Others(TurnOff(w).dependents, w.me) == Others(w.dependents, w.me)
  {
    RemoveFirstRemoves(w.dependents, w.me);
  }
}
