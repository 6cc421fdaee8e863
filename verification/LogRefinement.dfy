// The contents of the logs: the logger refines a machine in which a log is just a name
// and the list of texts it was given, and what is written to its file since it was opened
// is the rendering of that list.
module LogRefinement {
  import opened LogTable
  import opened LogRuns
  import opened LogLaws

  datatype Entry = Entry(h: bool, text: string)

  datatype Log = Log(name: string, entries: seq<Entry>)

  // The open logs by id, the default log among them.
  type Logs = map<string, Log>

  ghost function LogStep(norm: string -> string, a: Logs, op: Op): Logs
  {
    match op
    case LogAppendOp(name, id, env) =>
      if name == "" then a - {DEFAULT_FILE_ID}
      else if env.OpenFailed? then (if id == DEFAULT_FILE_ID then a - {DEFAULT_FILE_ID} else a)
      else if !env.existed && !env.chmodOk then a
      else if exists k :: k in a && a[k].name == norm(name) then a
      else a[id := Log(norm(name), [])]
    case CloseLogOp(id) => a - {id}
    case CloseAllLogsOp => map[]
    case UpdateOp(fromSource, h, text) =>
      if fromSource && text != "" then Extended(a, Entry(h, StripEtx(text))) else a
  }

  // Every open log is given the entry.
  ghost function Extended(a: Logs, e: Entry): Logs
  {
    map k | k in a :: Log(a[k].name, a[k].entries + [e])
  }

  ghost function LogRun(norm: string -> string, a: Logs, ops: seq<Op>): Logs
    decreases |ops|
  {
    if ops == [] then a else LogRun(norm, LogStep(norm, a, ops[0]), ops[1..])
  }

  // ---------- rendering ----------

  predicate AnyHeader(es: seq<Entry>)
  {
    exists e :: e in es && e.h
  }

  // The default log gets one header, before the first text that asks for one.
  ghost function RenderDefault(es: seq<Entry>): seq<Chunk>
  {
    if es == [] then []
    else
      var earlier, e := es[..|es| - 1], es[|es| - 1];
      RenderDefault(earlier) + Line(!AnyHeader(earlier), e.h, e.text)
  }

  // Every other log gets a header before each text that asks for one, because what is
  // remembered about the first time is remembered in a copy.
  ghost function RenderOther(es: seq<Entry>): seq<Chunk>
  {
    if es == [] then []
    else
      var e := es[|es| - 1];
      RenderOther(es[..|es| - 1]) + Line(true, e.h, e.text)
  }

  lemma RenderExtended(es: seq<Entry>, e: Entry)
    ensures RenderDefault(es + [e]) == RenderDefault(es) + Line(!AnyHeader(es), e.h, e.text)
    ensures RenderOther(es + [e]) == RenderOther(es) + Line(true, e.h, e.text)
    ensures AnyHeader(es + [e]) <==> AnyHeader(es) || e.h
  {
    assert (es + [e])[..|es|] == es;
    assert e in es + [e];
  }

  // ---------- the refinement ----------

  ghost predicate DefaultRefines(w: World, a: Logs)
  {
    && (DEFAULT_FILE_ID in a <==> w.def.name != "")
    && (DEFAULT_FILE_ID in a ==>
          var log := a[DEFAULT_FILE_ID];
          && log.name == w.def.name
          && w.def.isFirstTime == !AnyHeader(log.entries)
          && w.def.fd in w.files && w.files[w.def.fd].chunks == RenderDefault(log.entries))
  }

  ghost predicate OthersRefine(w: World, a: Logs)
  {
    forall k | k != DEFAULT_FILE_ID ::
      && (k in a <==> k in w.logs)
      && (k in a ==> LogRefines(w, k, a[k]))
  }

  ghost predicate LogRefines(w: World, k: string, log: Log)
    requires k in w.logs
  {
    && log.name == w.logs[k].name
    && w.logs[k].fd in w.files && w.files[w.logs[k].fd].chunks == RenderOther(log.entries)
  }

  ghost predicate Refines(w: World, a: Logs)
  {
    DefaultRefines(w, a) && OthersRefine(w, a)
  }

  lemma NamesAgree(w: World, a: Logs, name: string)
    requires Valid(w) && Refines(w, a) && name != ""
    ensures (exists k :: k in a && a[k].name == name) <==> NameInUse(w.logs, name) || w.def.name == name
  {
    if k :| k in a && a[k].name == name {
      assert k == DEFAULT_FILE_ID || (k in w.logs && w.logs[k].name == name);
    }
    if NameInUse(w.logs, name) {
      var k :| k in w.logs && w.logs[k].name == name;
      assert k in a && a[k].name == name;
    }
    if w.def.name == name {
      assert a[DEFAULT_FILE_ID].name == name;
    }
  }

  lemma {:induction false} InstallRefines(w: World, a: Logs, id: string, lf: LogFile, f: File)
    requires Sound(w) && Fresh(w, lf) && lf.isFirstTime && lf.name != "" && DEFAULT_FILE_ID !in w.logs
    requires Refines(w, a) && f.chunks == []
    ensures Refines(Install(w, id, lf, f), a[id := Log(lf.name, [])])
  {
    var w', a' := Install(w, id, lf, f), a[id := Log(lf.name, [])];
    if id == DEFAULT_FILE_ID {
      assert DefaultRefines(w', a');
    } else {
      InstallFrames(w, id, lf, f, DEFAULT_FILE_ID);
    }
    forall k | k != DEFAULT_FILE_ID
      ensures (k in a' <==> k in w'.logs) && (k in a' ==> LogRefines(w', k, a'[k]))
    {
      InstallRefinesOther(w, a, id, lf, f, k);
    }
  }

  lemma InstallRefinesOther(w: World, a: Logs, id: string, lf: LogFile, f: File, k: string)
    requires Sound(w) && Fresh(w, lf) && OthersRefine(w, a) && k != DEFAULT_FILE_ID && f.chunks == []
    ensures var w', a' := Install(w, id, lf, f), a[id := Log(lf.name, [])];
            (k in a' <==> k in w'.logs) && (k in a' ==> LogRefines(w', k, a'[k]))
  {
    if k != id {
      assert k in a ==> LogRefines(w, k, a[k]);
      InstallFrames(w, id, lf, f, k);
    }
  }

  lemma {:induction false} LogAppendRefines(norm: string -> string, w: World, a: Logs, name: string,
      id: string, env: OpenOutcome)
    requires Valid(w) && Possible(w, env) && KeepsNames(norm) && w.hasSource && Refines(w, a)
    ensures Refines(LogAppend(w, norm, name, id, env).0, LogStep(norm, a, LogAppendOp(name, id, env)))
  {
    if Succeeds(w, name, env) {
      SuccessRefines(norm, w, a, name, id, env);
    } else {
      AppendRefused(w, norm, name, id, env);
      NameDroppedRefines(w, a);
    }
  }

  lemma NameDroppedRefines(w: World, a: Logs)
    requires Valid(w) && Refines(w, a)
    ensures Refines(NameDropped(w), a - {DEFAULT_FILE_ID})
  {
    var w', a' := NameDropped(w), a - {DEFAULT_FILE_ID};
    forall k | k != DEFAULT_FILE_ID
      ensures (k in a' <==> k in w'.logs) && (k in a' ==> LogRefines(w', k, a'[k]))
    {
      if k in w.logs {
        assert k in a && LogRefines(w, k, a[k]);
      }
    }
  }

  lemma {:induction false} SuccessRefines(norm: string -> string, w: World, a: Logs, name: string,
      id: string, env: OpenOutcome)
    requires Valid(w) && Possible(w, env) && KeepsNames(norm) && Refines(w, a) && Succeeds(w, name, env)
    ensures Refines(LogAppend(w, norm, name, id, env).0, LogStep(norm, a, LogAppendOp(name, id, env)))
  {
    NamesAgree(w, a, norm(name));
    AppendSucceeds(w, norm, name, id, env);
    TurnedOnRefines(w, a);
    if Unused(w, norm(name)) {
      InstallRefines(TurnOn(w), a, id, NewFile(norm, name, env), ForAppending(name));
    }
  }

  lemma TurnedOnRefines(w: World, a: Logs)
    requires w.hasSource && Refines(w, a)
    ensures Refines(TurnOn(w), a)
  {
    assert forall k | k in w.logs && k in a && LogRefines(w, k, a[k]) :: LogRefines(TurnOn(w), k, a[k]);
  }

  lemma CloseLogRefines(w: World, a: Logs, id: string)
    requires Valid(w) && Refines(w, a)
    ensures Refines(CloseLog(w, id), a - {id})
  {
    CloseDefaultRefines(w, a, id);
    forall k | k != DEFAULT_FILE_ID
      ensures (k in a - {id} <==> k in CloseLog(w, id).logs)
      ensures k in a - {id} ==> LogRefines(CloseLog(w, id), k, (a - {id})[k])
    {
      CloseOtherRefines(w, a, id, k);
    }
  }

  lemma CloseDefaultRefines(w: World, a: Logs, id: string)
    requires Valid(w) && Refines(w, a)
    ensures DefaultRefines(CloseLog(w, id), a - {id})
  {
    if id != DEFAULT_FILE_ID {
      CloseFrames(w, id, DEFAULT_FILE_ID);
    }
  }

  lemma CloseOtherRefines(w: World, a: Logs, id: string, k: string)
    requires Valid(w) && OthersRefine(w, a) && k != DEFAULT_FILE_ID
    ensures (k in a - {id} <==> k in CloseLog(w, id).logs)
    ensures k in a - {id} ==> LogRefines(CloseLog(w, id), k, (a - {id})[k])
  {
    assert k in a <==> k in w.logs;
    assert k in a ==> LogRefines(w, k, a[k]);
    if k != id {
      CloseFrames(w, id, k);
    }
  }

  lemma WrittenToLog(w: World, k: string, h: bool, text: string)
    requires Valid(w) && k in w.logs
    ensures Written(w, w.logs[k].fd, h, text) == Line(true, h, text)
  {
    assert IsLogOf(w, k, w.logs[k].fd);
  }

  lemma {:induction false} AppendLogRefines(w: World, a: Logs, h: bool, text: string)
    requires Valid(w) && Refines(w, a)
    ensures Refines(AppendLog(w, h, text), Extended(a, Entry(h, StripEtx(text))))
  {
    var e := Entry(h, StripEtx(text));
    var w', a' := AppendLog(w, h, text), Extended(a, e);
    if DEFAULT_FILE_ID in a {
      RenderExtended(a[DEFAULT_FILE_ID].entries, e);
    }
    forall k | k != DEFAULT_FILE_ID
      ensures (k in a' <==> k in w'.logs) && (k in a' ==> LogRefines(w', k, a'[k]))
    {
      if k in w.logs {
        assert k in a && LogRefines(w, k, a[k]);
        RenderExtended(a[k].entries, e);
        WrittenToLog(w, k, h, StripEtx(text));
      }
    }
  }

  // With logging off there is no log to write to.
  lemma OffMeansEmpty(w: World, a: Logs)
    requires Valid(w) && Refines(w, a) && !w.on
    ensures a == map[]
  {
    assert forall k | k in a :: k == DEFAULT_FILE_ID || k in w.logs;
  }

  lemma {:induction false} StepRefines(norm: string -> string, w: World, a: Logs, op: Op)
    requires Valid(w) && Allowed(w, op) && KeepsNames(norm) && w.hasSource && Refines(w, a)
    ensures Refines(Step(norm, w, op), LogStep(norm, a, op))
  {
    if !w.on {
      OffMeansEmpty(w, a);
    }
    match op
    case LogAppendOp(name, id, env) => LogAppendRefines(norm, w, a, name, id, env);
    case CloseLogOp(id) => CloseLogRefines(w, a, id);
    case CloseAllLogsOp =>
    case UpdateOp(fromSource, h, text) => AppendLogRefines(w, a, h, text);
  }

  // Whatever the run, what has been written to an open log since it was opened is the
  // rendering of the texts appended since then, and nothing else.
  lemma {:induction false} RunRefines(norm: string -> string, w: World, a: Logs, ops: seq<Op>)
    requires Valid(w) && KeepsNames(norm) && RunAllowed(norm, w, ops) && w.hasSource && Refines(w, a)
    ensures Refines(Run(norm, w, ops), LogRun(norm, a, ops))
    decreases |ops|
  {
    if ops != [] {
      StepRefines(norm, w, a, ops[0]);
      RunRefines(norm, Step(norm, w, ops[0]), LogStep(norm, a, ops[0]), ops[1..]);
    }
  }

  // ---------- what a rendering contains ----------

  function Texts(cs: seq<Chunk>): seq<string>
  {
    if cs == [] then []
    else (match cs[0] case Header => [] case Text(t) => [t]) + Texts(cs[1..])
  }

  function Headers(cs: seq<Chunk>): nat
  {
    if cs == [] then 0 else (if cs[0].Header? then 1 else 0) + Headers(cs[1..])
  }

  lemma {:induction false} CountsOfConcat(a: seq<Chunk>, b: seq<Chunk>)
    ensures Texts(a + b) == Texts(a) + Texts(b) && Headers(a + b) == Headers(a) + Headers(b)
    decreases |a|
  {
    if a == [] {
      assert a + b == b;
    } else {
      assert (a + b)[1..] == a[1..] + b;
      CountsOfConcat(a[1..], b);
    }
  }

  lemma LineCounts(first: bool, h: bool, text: string)
    ensures Texts(Line(first, h, text)) == [text]
    ensures Headers(Line(first, h, text)) == if h && first then 1 else 0
  {
    var one := [Text(text)];
    assert one[1..] == [] && Texts(one) == [text] + Texts([]) && Headers(one) == 0 + Headers([]);
    var two := [Header, Text(text)];
    assert two[1..] == one && Texts(two) == [] + Texts(one) && Headers(two) == 1 + Headers(one);
  }

  ghost function Asking(es: seq<Entry>): nat
  {
    if es == [] then 0 else Asking(es[..|es| - 1]) + if es[|es| - 1].h then 1 else 0
  }

  // Both renderings hold all the texts in order; the default log has at most one header,
  // another log has one for every text that asked for it.
  lemma {:induction false} RenderingsContain(es: seq<Entry>)
    ensures Texts(RenderDefault(es)) == Texts(RenderOther(es)) == seq(|es|, i requires 0 <= i < |es| => es[i].text)
    ensures Headers(RenderDefault(es)) == if AnyHeader(es) then 1 else 0
    ensures Headers(RenderOther(es)) == Asking(es)
    decreases |es|
  {
    if es != [] {
      var earlier, e := es[..|es| - 1], es[|es| - 1];
      RenderingsContain(earlier);
      assert es == earlier + [e];
      RenderExtended(earlier, e);
      CountsOfConcat(RenderDefault(earlier), Line(!AnyHeader(earlier), e.h, e.text));
      CountsOfConcat(RenderOther(earlier), Line(true, e.h, e.text));
      LineCounts(!AnyHeader(earlier), e.h, e.text);
      LineCounts(true, e.h, e.text);
    }
  }

  // ---------- where the headers are ----------

  // The texts alone.
  function Lines(es: seq<Entry>): seq<Chunk>
  {
    seq(|es|, i requires 0 <= i < |es| => Text(es[i].text))
  }

  // Every text that asks for a header, with the header directly before it.
  function Paragraphs(es: seq<Entry>): seq<Chunk>
  {
    if es == [] then []
    else (if es[0].h then [Header, Text(es[0].text)] else [Text(es[0].text)]) + Paragraphs(es[1..])
  }

  ghost predicate FirstAsking(es: seq<Entry>, i: int)
  {
    0 <= i < |es| && es[i].h && forall j | 0 <= j < i :: !es[j].h
  }

  // The header of the default log stands directly before the first text that asks for one.
  lemma {:induction false} DefaultHeaderPlace(es: seq<Entry>)
    ensures !AnyHeader(es) ==> RenderDefault(es) == Lines(es)
    ensures forall i | FirstAsking(es, i) :: RenderDefault(es) == Lines(es[..i]) + [Header] + Lines(es[i..])
    decreases |es|
  {
    if es != [] {
      var earlier, e := es[..|es| - 1], es[|es| - 1];
      DefaultHeaderPlace(earlier);
      assert es == earlier + [e];
      RenderExtended(earlier, e);
      forall i | FirstAsking(es, i) ensures RenderDefault(es) == Lines(es[..i]) + [Header] + Lines(es[i..]) {
        HeaderPlaceExtended(earlier, e, i);
      }
      LinesExtended(earlier, e);
    }
  }

  lemma LinesExtended(es: seq<Entry>, e: Entry)
    ensures Lines(es + [e]) == Lines(es) + [Text(e.text)]
  {
  }

  lemma HeaderPlaceExtended(es: seq<Entry>, e: Entry, i: int)
    requires FirstAsking(es + [e], i)
    requires !AnyHeader(es) ==> RenderDefault(es) == Lines(es)
    requires FirstAsking(es, i) ==> RenderDefault(es) == Lines(es[..i]) + [Header] + Lines(es[i..])
    ensures RenderDefault(es + [e]) == Lines((es + [e])[..i]) + [Header] + Lines((es + [e])[i..])
  {
    RenderExtended(es, e);
    assert forall j | 0 <= j < |es| :: es[j] == (es + [e])[j];
    if i < |es| {
      assert FirstAsking(es, i) && es[i] in es;
      EarlierPlace(es, e, i);
    } else {
      assert !AnyHeader(es);
      LastPlace(es, e);
    }
  }

  lemma EarlierPlace(es: seq<Entry>, e: Entry, i: int)
    requires 0 <= i < |es|
    ensures Lines(es[..i]) + [Header] + Lines(es[i..]) + [Text(e.text)] ==
            Lines((es + [e])[..i]) + [Header] + Lines((es + [e])[i..])
  {
    assert (es + [e])[..i] == es[..i] && (es + [e])[i..] == es[i..] + [e];
    LinesExtended(es[i..], e);
    Joined(Lines(es[..i]) + [Header], Lines(es[i..]), [Text(e.text)]);
  }

  lemma LastPlace(es: seq<Entry>, e: Entry)
    ensures Lines(es) + [Header, Text(e.text)] ==
            Lines((es + [e])[..|es|]) + [Header] + Lines((es + [e])[|es|..])
  {
    assert (es + [e])[..|es|] == es && (es + [e])[|es|..] == [e];
    assert Lines([e]) == [Text(e.text)] && [Header] + [Text(e.text)] == [Header, Text(e.text)];
    Joined(Lines(es), [Header], [Text(e.text)]);
  }

  lemma Joined(a: seq<Chunk>, b: seq<Chunk>, c: seq<Chunk>)
    ensures a + b + c == a + (b + c)
  {
  }

  lemma {:induction false} ParagraphsExtended(es: seq<Entry>, e: Entry)
    ensures Paragraphs(es + [e]) == Paragraphs(es) + if e.h then [Header, Text(e.text)] else [Text(e.text)]
    decreases |es|
  {
    if es == [] {
      assert es + [e] == [e] && [e][1..] == [];
    } else {
      assert (es + [e])[1..] == es[1..] + [e];
      ParagraphsExtended(es[1..], e);
    }
  }

  // In the other logs one stands directly before each.
  lemma {:induction false} OtherHeaderPlaces(es: seq<Entry>)
    ensures RenderOther(es) == Paragraphs(es)
    decreases |es|
  {
    if es != [] {
      var earlier, e := es[..|es| - 1], es[|es| - 1];
      OtherHeaderPlaces(earlier);
      assert es == earlier + [e];
      RenderExtended(earlier, e);
      ParagraphsExtended(earlier, e);
    }
  }

  // ---------- from the constructor on ----------

  lemma {:induction false} StartedRefines(norm: string -> string, w: World, ops: seq<Op>)
    requires Started(w) && KeepsNames(norm)
    ensures Valid(w)
    ensures RunAllowed(norm, w, ops) ==> Refines(Run(norm, w, ops), LogRun(norm, map[], ops))
  {
    StartedIsValid(w);
    if RunAllowed(norm, w, ops) {
      RunRefines(norm, w, map[], ops);
    }
  }

  function DescriptorOf(w: World, id: string): int
    requires id == DEFAULT_FILE_ID || id in w.logs
  {
    if id == DEFAULT_FILE_ID then w.def.fd else w.logs[id].fd
  }

  // Whatever has happened since the logger was constructed, what has been written through
  // the descriptor of an open log is exactly the texts appended while it was open, in order
  // and each without its first end-of-text character. The default log got one header if any
  // text asked for one, directly before the first that did, and every other log got one
  // directly before each text that did. What the file
  // held before it was opened is not looked at: files are opened for appending.
  lemma {:induction false} LogsHoldTheirTexts(norm: string -> string, w: World, ops: seq<Op>, id: string)
    requires Started(w) && KeepsNames(norm) && Valid(w) && RunAllowed(norm, w, ops)
    ensures var w', logs := Run(norm, w, ops), LogRun(norm, map[], ops);
            && (id in logs <==> if id == DEFAULT_FILE_ID then w'.def.name != "" else id in w'.logs)
            && (id in logs ==>
                  var es := logs[id].entries;
                  && logs[id].name == NameOf(w', id)
                  && DescriptorOf(w', id) in w'.files
                  && var file := w'.files[DescriptorOf(w', id)].chunks;
                     && Texts(file) == seq(|es|, i requires 0 <= i < |es| => es[i].text)
                     && Headers(file) == (if id != DEFAULT_FILE_ID then Asking(es) else if AnyHeader(es) then 1 else 0)
                     && (id != DEFAULT_FILE_ID ==> file == Paragraphs(es))
                     && (id == DEFAULT_FILE_ID && !AnyHeader(es) ==> file == Lines(es))
                     && (id == DEFAULT_FILE_ID ==>
                           forall i | FirstAsking(es, i) :: file == Lines(es[..i]) + [Header] + Lines(es[i..])))
  {
    StartedRefines(norm, w, ops);
    var w', logs := Run(norm, w, ops), LogRun(norm, map[], ops);
    if id in logs {
      RenderingsContain(logs[id].entries);
      DefaultHeaderPlace(logs[id].entries);
      OtherHeaderPlaces(logs[id].entries);
      assert id != DEFAULT_FILE_ID ==> LogRefines(w', id, logs[id]);
    }
  }
}
