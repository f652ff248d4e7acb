/** The three-phase mode dispatcher.

    Each phase walks a fixed, ordered list of candidate modes. The first mode
    whose selection test answers is initialised and launched; the modes after
    it are never looked at. A phase answers `None` when none of its modes is
    selected, and the driver moves on to the next phase only then.

    A mode's selection test, its initialisation and its launch belong to the
    mode itself and are inputs here: `check` is what the selection test
    returns (`None` when the mode's subcommand is absent, otherwise the result
    of building the mode), and `launched` is what `launch` would return. */
module Mode {
  import opened Common

  datatype Kind = Setup | Uninstall | Init | Update | Tlc | Apalache | Run | Test | Clean

  /** What a phase answers: `None` when it selected no mode; otherwise
      `Ok(None)` for a local mode, `Ok(Some(code))` for a mode that delegates
      to an external tool, or the error that stopped the mode. */
  type PhaseResult = Option<Res<Option<Int32>>>

  /** The name of a mode, as its contexts spell it. */
  function ModeName(k: Kind): string {
    match k
    case Setup => "setup"
    case Uninstall => "uninstall"
    case Init => "init"
    case Update => "update"
    case Tlc => "tlc"
    case Apalache => "apalache"
    case Run => "run"
    case Test => "test"
    case Clean => "clean"
  }

  /** Context attached when building a mode fails, "<name> mode
      initialization failed" (the uninstall text is spelt "mod" in the
      source and is kept as it is). */
  function InitContext(k: Kind): string {
    ModeName(k) + (if k == Uninstall then " mod" else " mode") + " initialization failed"
  }

  /** Context attached when launching a mode fails, "mode <name> failed". */
  function LaunchContext(k: Kind): string {
    "mode " + ModeName(k) + " failed"
  }

  predicate DelegatesToProcess(k: Kind) {
    k == Tlc || k == Apalache
  }

  /** Message of the error raised when a tool's process has no exit code. */
  function ExitCodeMissing(k: Kind): string
    requires DelegatesToProcess(k)
  {
    if k == Tlc then "failed to retrieve exit code of TLC process"
    else "failed to retrieve exit code of Apalache process"
  }

  /** What `launch` returned, by the three return types the modes have:
      nothing (local modes), a process exit status (TLC and Apalache), or an
      exit code (the run mode). */
  datatype Launched = Local(done: Res<()>) | Process(status: Res<ExitStatus>) | Code(code: Res<Int32>)

  /** One candidate of a phase. */
  datatype Candidate = Candidate(kind: Kind, check: Option<Res<()>>, launched: Launched)

  /** The launch result has the shape of the mode's own `launch`. */
  predicate Fits(c: Candidate) {
    match c.launched
    case Local(_) => c.kind in {Setup, Uninstall, Init, Update, Test, Clean}
    case Process(_) => DelegatesToProcess(c.kind)
    case Code(_) => c.kind == Run
  }

  /** What the environment answers about one mode whose `launch` returns `L`. */
  datatype Probe<L> = Probe(check: Option<Res<()>>, launch: Res<L>)

  function AsLocal(k: Kind, p: Probe<()>): Candidate {
    Candidate(k, p.check, Local(p.launch))
  }

  function AsProcess(k: Kind, p: Probe<ExitStatus>): Candidate {
    Candidate(k, p.check, Process(p.launch))
  }

  function AsCode(k: Kind, p: Probe<Int32>): Candidate {
    Candidate(k, p.check, Code(p.launch))
  }

  /** The early-return combinator of the source: a success hands its value to
      the rest of the computation, a failure ends it at once with
      `Some(Err(..))`, whatever the rest would have done. */
  function WrapTry<T, U>(r: Res<T>, rest: T -> Option<Res<U>>): (o: Option<Res<U>>)
    ensures r.Ok? ==> o == rest(r.value)
    ensures r.Err? ==> o == Some(Err(r.error))
  {
    match r
    case Ok(v) => rest(v)
    case Err(e) => Some(Err(e))
  }

  /** `code()` followed by `ok_or_else`: the exit code, or an error naming the tool. */
  function CodeOf(s: ExitStatus, missing: string): Res<Int32> {
    match s.code
    case Some(c) => Ok(c)
    case None => Err(Msg(missing))
  }

  /** Launching an initialised mode and turning what `launch` returned into
      the phase's answer. */
  function Finish(c: Candidate): PhaseResult
    requires Fits(c)
  {
    var k := c.kind;
    match c.launched
    case Local(done) =>
      WrapTry(done.WithContext(LaunchContext(k)), (u: ()) => Some(Ok(None)))
    case Process(status) =>
      var missing := ExitCodeMissing(k);
      WrapTry(status.WithContext(LaunchContext(k)), (s: ExitStatus) =>
        WrapTry(CodeOf(s, missing), (code: Int32) => Some(Ok(Some(code)))))
    case Code(code) =>
      WrapTry(code.WithContext(LaunchContext(k)), (n: Int32) => Some(Ok(Some(n))))
  }

  /** Trying one candidate: one arm of a phase's `if let ... else if` chain. */
  function Attempt(c: Candidate): (r: PhaseResult)
    requires Fits(c)
    ensures r.None? <==> c.check.None?
    ensures c.check.Some? && c.check.value.Err? ==>
      r == Some(Err(Context(InitContext(c.kind), c.check.value.error)))
    ensures c.check == Some(Ok(())) ==>
      match c.launched
      case Local(Err(e)) => r == Some(Err(Context(LaunchContext(c.kind), e)))
      case Process(Err(e)) => r == Some(Err(Context(LaunchContext(c.kind), e)))
      case Code(Err(e)) => r == Some(Err(Context(LaunchContext(c.kind), e)))
      case Local(Ok(_)) => r == Some(Ok(None))
      case Process(Ok(ExitStatus(Some(code)))) => r == Some(Ok(Some(code)))
      case Process(Ok(ExitStatus(None))) => r == Some(Err(Msg(ExitCodeMissing(c.kind))))
      case Code(Ok(code)) => r == Some(Ok(Some(code)))
  {
    match c.check
    case None => None
    case Some(init) =>
      WrapTry(init.WithContext(InitContext(c.kind)), (m: ()) => Finish(c))
  }

  /** The position of the first candidate whose selection test answers, or
      `|cs|` when there is none. */
  function FirstSelected(cs: seq<Candidate>): (i: nat)
    ensures i <= |cs|
    ensures forall j | 0 <= j < i :: cs[j].check.None?
    ensures i < |cs| ==> cs[i].check.Some?
  {
    if cs == [] || cs[0].check.Some? then 0 else 1 + FirstSelected(cs[1..])
  }

  /** A phase over an ordered list of candidates: the first selected
      candidate decides, and no candidate selected means `None`. */
  function TryPhase(cs: seq<Candidate>): (r: PhaseResult)
    requires forall c | c in cs :: Fits(c)
    ensures r.None? <==> forall c | c in cs :: c.check.None?
    ensures r == if FirstSelected(cs) < |cs| then Attempt(cs[FirstSelected(cs)]) else None
  {
    if cs == [] then None
    else if cs[0].check.Some? then Attempt(cs[0])
    else TryPhase(cs[1..])
  }

  /** Candidates after a selected one are never looked at. */
  lemma {:induction false} LaterCandidatesIgnored(cs: seq<Candidate>, later: seq<Candidate>)
    requires forall c | c in cs + later :: Fits(c)
    requires exists c | c in cs :: c.check.Some?
    ensures TryPhase(cs + later) == TryPhase(cs)
  {
    assert cs != [];
    assert (cs + later)[0] == cs[0];
    if cs[0].check.None? {
      assert cs + later == [cs[0]] + (cs[1..] + later);
      assert (cs + later)[1..] == cs[1..] + later;
      var c :| c in cs && c.check.Some?;
      assert c in cs[1..];
      LaterCandidatesIgnored(cs[1..], later);
    }
  }

  /** Candidates that are not selected make no difference. */
  lemma {:induction false} UnselectedCandidatesSkipped(cs: seq<Candidate>, later: seq<Candidate>)
    requires forall c | c in cs + later :: Fits(c)
    requires forall c | c in cs :: c.check.None?
    ensures TryPhase(cs + later) == TryPhase(later)
  {
    if cs == [] {
      assert cs + later == later;
    } else {
      assert (cs + later)[0] == cs[0];
      assert (cs + later)[1..] == cs[1..] + later;
      UnselectedCandidatesSkipped(cs[1..], later);
    }
  }

  /** The first two letters of a mode's name; no two modes share them. */
  function NameStart(k: Kind): (char, char) {
    match k
    case Setup => ('s', 'e')
    case Uninstall => ('u', 'n')
    case Init => ('i', 'n')
    case Update => ('u', 'p')
    case Tlc => ('t', 'l')
    case Apalache => ('a', 'p')
    case Run => ('r', 'u')
    case Test => ('t', 'e')
    case Clean => ('c', 'l')
  }

  /** A mode's name starts with its two initials. */
  lemma {:induction false} ModeNameStart(k: Kind)
    ensures |ModeName(k)| >= 2 && (ModeName(k)[0], ModeName(k)[1]) == NameStart(k)
  {
  }

  /** An initialisation context starts with the mode's name, and so with
      the mode's two initials. */
  lemma {:induction false} InitContextStart(k: Kind)
    ensures |ModeName(k)| <= |InitContext(k)| && InitContext(k)[..|ModeName(k)|] == ModeName(k)
    ensures |InitContext(k)| >= 2
    ensures (InitContext(k)[0], InitContext(k)[1]) == NameStart(k)
  {
    ModeNameStart(k);
    var rest := (if k == Uninstall then " mod" else " mode") + " initialization failed";
    assert InitContext(k) == ModeName(k) + rest;
  }

  /** A launch context starts with "mode " and then the mode's name, whose
      two initials are at positions 5 and 6. */
  lemma {:induction false} LaunchContextStart(k: Kind)
    ensures 5 + |ModeName(k)| <= |LaunchContext(k)|
    ensures LaunchContext(k)[..5] == "mode " && LaunchContext(k)[5..5 + |ModeName(k)|] == ModeName(k)
    ensures |LaunchContext(k)| >= 7 && LaunchContext(k)[0] == 'm'
    ensures (LaunchContext(k)[5], LaunchContext(k)[6]) == NameStart(k)
  {
    ModeNameStart(k);
    var tail := ModeName(k) + " failed";
    assert LaunchContext(k) == "mode " + tail;
    assert tail[..|ModeName(k)|] == ModeName(k);
  }

  /** The two contexts differ: an initialisation context never reads as a
      launch context. */
  lemma {:induction false} InitAndLaunchContextsDiffer(k: Kind, k': Kind)
    ensures InitContext(k) != LaunchContext(k')
  {
    InitContextStart(k);
    LaunchContextStart(k');
  }

  /** Each initialisation context names one mode. */
  lemma {:induction false} InitContextNamesMode(k: Kind, k': Kind)
    requires InitContext(k) == InitContext(k')
    ensures k == k'
  {
    InitContextStart(k);
    InitContextStart(k');
  }

  /** Each launch context names one mode. */
  lemma {:induction false} LaunchContextNamesMode(k: Kind, k': Kind)
    requires LaunchContext(k) == LaunchContext(k')
    ensures k == k'
  {
    LaunchContextStart(k);
    LaunchContextStart(k');
  }

  /** A local mode never answers with an exit code. */
  lemma {:induction false} LocalModeHasNoExitCode(c: Candidate)
    requires Fits(c) && c.launched.Local?
    ensures Attempt(c) != Some(Ok(None)) ==> Attempt(c).None? || Attempt(c).value.Err?
  {
  }

  /** When building a mode fails, what its launch would have returned plays no part. */
  lemma {:induction false} InitFailureSkipsLaunch(c: Candidate, other: Launched)
    requires Fits(c) && Fits(c.(launched := other))
    requires c.check.Some? && c.check.value.Err?
    ensures Attempt(c.(launched := other)) == Attempt(c)
  {
  }

  /** Phase run before the user configuration is loaded: setup, then uninstall. */
  function PreUserLoad(setup: Probe<()>, uninstall: Probe<()>): (r: PhaseResult)
    ensures r.None? <==> setup.check.None? && uninstall.check.None?
    ensures setup.check.Some? ==> r == Attempt(AsLocal(Setup, setup))
    ensures setup.check.None? ==> r == Attempt(AsLocal(Uninstall, uninstall))
  {
    TryPhase([AsLocal(Setup, setup), AsLocal(Uninstall, uninstall)])
  }

  /** Phase run before the project is loaded: init, update, TLC, Apalache. */
  function PreProjectLoad(init: Probe<()>, update: Probe<()>, tlc: Probe<ExitStatus>, apalache: Probe<ExitStatus>): (r: PhaseResult)
    ensures r.None? <==> init.check.None? && update.check.None? && tlc.check.None? && apalache.check.None?
    ensures init.check.Some? ==> r == Attempt(AsLocal(Init, init))
    ensures init.check.None? && update.check.Some? ==> r == Attempt(AsLocal(Update, update))
    ensures init.check.None? && update.check.None? && tlc.check.Some? ==> r == Attempt(AsProcess(Tlc, tlc))
    ensures init.check.None? && update.check.None? && tlc.check.None? ==> r == Attempt(AsProcess(Apalache, apalache))
  {
    var cs := [AsLocal(Init, init), AsLocal(Update, update), AsProcess(Tlc, tlc), AsProcess(Apalache, apalache)];
    assert cs == cs[..2] + cs[2..];
    if init.check.None? && update.check.None? then
      UnselectedCandidatesSkipped(cs[..2], cs[2..]);
      TryPhase(cs)
    else
      TryPhase(cs)
  }

  /** Phase run after everything is loaded: run, test, clean. */
  function PostLoading(run: Probe<Int32>, test: Probe<()>, clean: Probe<()>): (r: PhaseResult)
    ensures r.None? <==> run.check.None? && test.check.None? && clean.check.None?
    ensures run.check.Some? ==> r == Attempt(AsCode(Run, run))
    ensures run.check.None? && test.check.Some? ==> r == Attempt(AsLocal(Test, test))
    ensures run.check.None? && test.check.None? ==> r == Attempt(AsLocal(Clean, clean))
  {
    TryPhase([AsCode(Run, run), AsLocal(Test, test), AsLocal(Clean, clean)])
  }

  /** Everything one invocation answers, mode by mode. */
  datatype Invocation = Invocation(
    setup: Probe<()>, uninstall: Probe<()>,
    init: Probe<()>, update: Probe<()>, tlc: Probe<ExitStatus>, apalache: Probe<ExitStatus>,
    run: Probe<Int32>, test: Probe<()>, clean: Probe<()>)
  {
    /** The candidates of the three phases, phase after phase, in their order. */
    function Candidates(): (cs: seq<Candidate>)
      ensures forall c | c in cs :: Fits(c)
    {
      [AsLocal(Setup, setup), AsLocal(Uninstall, uninstall),
       AsLocal(Init, init), AsLocal(Update, update), AsProcess(Tlc, tlc), AsProcess(Apalache, apalache),
       AsCode(Run, run), AsLocal(Test, test), AsLocal(Clean, clean)]
    }
  }

  /** The driver: the three phases in order, stopping at the first that answers. */
  function Dispatch(inv: Invocation): (r: PhaseResult)
    ensures r.None? <==> forall c | c in inv.Candidates() :: c.check.None?
  {
    var pre := PreUserLoad(inv.setup, inv.uninstall);
    if pre.Some? then pre
    else
      var project := PreProjectLoad(inv.init, inv.update, inv.tlc, inv.apalache);
      if project.Some? then project
      else PostLoading(inv.run, inv.test, inv.clean)
  }

  /** Two phases in a row behave as one phase over their candidates joined. */
  lemma {:induction false} PhasesInSequence(first: seq<Candidate>, second: seq<Candidate>)
    requires forall c | c in first + second :: Fits(c)
    ensures TryPhase(first + second) == if TryPhase(first).Some? then TryPhase(first) else TryPhase(second)
  {
    if exists c | c in first :: c.check.Some? {
      LaterCandidatesIgnored(first, second);
    } else {
      UnselectedCandidatesSkipped(first, second);
    }
  }

  /** The three phases together behave as one phase over all nine modes in
      their order: the first selected mode decides, and the modes after it,
      in its phase and in later phases, are never looked at. */
  lemma {:induction false} DispatchIsFirstMatch(inv: Invocation)
    ensures Dispatch(inv) == TryPhase(inv.Candidates())
  {
    var pre := [AsLocal(Setup, inv.setup), AsLocal(Uninstall, inv.uninstall)];
    var project := [AsLocal(Init, inv.init), AsLocal(Update, inv.update), AsProcess(Tlc, inv.tlc), AsProcess(Apalache, inv.apalache)];
    var post := [AsCode(Run, inv.run), AsLocal(Test, inv.test), AsLocal(Clean, inv.clean)];
    assert inv.Candidates() == pre + (project + post);
    PhasesInSequence(project, post);
    PhasesInSequence(pre, project + post);
  }

  /** When setup is selected, uninstall's selection test is never consulted. */
  lemma {:induction false} SetupBeforeUninstall(setup: Probe<()>, uninstall: Probe<()>, uninstall': Probe<()>)
    requires setup.check.Some?
    ensures PreUserLoad(setup, uninstall) == PreUserLoad(setup, uninstall')
  {
  }

  /** A phase that answers ends dispatch: later phases are never reached. */
  lemma {:induction false} EarlierPhaseWins(inv: Invocation, inv': Invocation)
    requires inv'.setup == inv.setup && inv'.uninstall == inv.uninstall
    requires PreUserLoad(inv.setup, inv.uninstall).Some?
    ensures Dispatch(inv') == Dispatch(inv) == PreUserLoad(inv.setup, inv.uninstall)
  {
  }
}
