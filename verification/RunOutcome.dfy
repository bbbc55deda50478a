/** How a backup run ends: which error it raises, what it leaves in the state file and in the metric, what it gives back. */
module RunOutcome {
  import opened Errors
  import opened Strings
  import opened Election
  import opened RunMachine
  import opened RunOrder
  import opened RunTry

  // ---- the failure path, call by call -----------------------------------------------------------------------------
  // `k` are the calls made since the `try` part was left, `held` is what it had got hold of, `damaged` says whether the
  // state file can be read.

  function RemovalAt(held: Held): nat { if held.backend then 1 else 0 }

  function StateAt(held: Held): nat { if held.workDir then RemovalAt(held) + 1 else RemovalAt(held) }

  /** The removal of the work directory raised something that the handler does not catch. */
  predicate Escaped(k: seq<Entry>, held: Held) {
    held.workDir && |k| > RemovalAt(held) && k[RemovalAt(held)].reply.failure == Some(Uncoded)
  }

  /** An open backend has been closed, and the removal of a work directory has been tried, in this order. */
  predicate CleanedUp(k: seq<Entry>, held: Held) {
    |k| >= StateAt(held) && (held.backend ==> k[0].op.Close?) && (held.workDir ==> k[RemovalAt(held)].op.RemoveDir?)
  }

  /** The state file could be read, so it is written. */
  predicate Writes(k: seq<Entry>, held: Held, damaged: bool)
    requires |k| > StateAt(held)
  {
    k[StateAt(held)].reply.Works() && !damaged
  }

  /** Where the state file is read for the last success. */
  function LastReadAt(k: seq<Entry>, held: Held, damaged: bool): nat
    requires |k| > StateAt(held)
  {
    StateAt(held) + if Writes(k, held, damaged) then 2 else 1
  }

  predicate Recorded(k: seq<Entry>, held: Held, damaged: bool) {
    |k| > StateAt(held) && k[StateAt(held)].op.ReadState? && |k| >= LastReadAt(k, held, damaged)
    && (Writes(k, held, damaged) ==> k[StateAt(held) + 1].op.WriteState?)
  }

  /** All calls of the failure path. */
  predicate HandlerCalls(k: seq<Entry>, held: Held, damaged: bool) {
    CleanedUp(k, held)
    && if Escaped(k, held) then |k| == StateAt(held)
       else Recorded(k, held, damaged)
            && var t := LastReadAt(k, held, damaged); |k| == t + 2 && k[t].op.ReadState? && k[t + 1].op.WriteMetric?
  }

  /** The error with a note for each clean-up call that raised. */
  function WithNotes(f: Failure, k: seq<Entry>, held: Held): Failure {
    var g := if held.backend && |k| > 0 && !k[0].reply.Works() then Combine(f, k[0].reply.failure.value, E_STORAGE) else f;
    if held.workDir && |k| > RemovalAt(held) && !k[RemovalAt(held)].reply.Works()
    then Combine(g, k[RemovalAt(held)].reply.failure.value, E_STORAGE) else g
  }

  /** What is still held: a backend until it has been closed, a work directory until its removal has worked. */
  function HeldAfter(k: seq<Entry>, held: Held): Held {
    Held(held.backend && k == [], held.workDir && !(|k| > RemovalAt(held) && k[RemovalAt(held)].reply.Works()))
  }

  lemma NotesKeepCode(f: Failure, k: seq<Entry>, held: Held)
    ensures CodeOf(WithNotes(f, k, held), E_STORAGE) == CodeOf(f, E_STORAGE)
    ensures WithNotes(f, k, held) != f
            <==> (held.backend && |k| > 0 && !k[0].reply.Works())
                 || (held.workDir && |k| > RemovalAt(held) && !k[RemovalAt(held)].reply.Works())
  {
  }

  // ---- what is shown ----------------------------------------------------------------------------------------------

  /** The state file names the code, or, if it could not be read or written, an event says so. */
  predicate StateSays(m: Machine, k: seq<Entry>, held: Held, damaged: bool, code: Code)
    requires Recorded(k, held, damaged)
  {
    if Writes(k, held, damaged) && k[StateAt(held) + 1].reply.Works()
    then m.files.state.Present? && m.files.state.record.lastRun == Some(FailedWith(code))
    else StateWriteFailure in m.events
  }

  /** The metric says failure now, with the last success in the state file as far as that could be read. */
  predicate ShowsFailure(m: Machine, read: Reply) {
    m.files.metric
    == Some(Metrics(if read.Works() && m.files.state.Present? then m.files.state.record.lastSuccess else 0, m.clock, 0, 0))
  }

  /** The metric says failure, or an event says that it may not. */
  predicate MetricSays(m: Machine, read: Reply, shown: Reply) {
    if shown.Works() then ShowsFailure(m, read) else MetricsWriteFailure in m.events
  }

  /** How the failure path ends that was entered with `f`. The error that is raised is `f` with its notes, under the code of
      `f`, and is shown; only if the removal of the work directory escapes it is that error, and nothing is recorded. A work
      directory is left exactly if its removal raised. */
  predicate Ending(m: Machine, f: Failure, k: seq<Entry>, held: Held, damaged: bool, g: Failure) {
    HandlerCalls(k, held, damaged) && m.held == HeldAfter(k, held)
    && if Escaped(k, held) then g == Uncoded
       else g == WithNotes(f, k, held) && CodeOf(g, E_STORAGE) == CodeOf(f, E_STORAGE)
            && StateFailure(CodeOf(f, E_STORAGE)) in m.events && StateSays(m, k, held, damaged, CodeOf(f, E_STORAGE))
            && MetricSays(m, k[|k| - 2].reply, k[|k| - 1].reply)
  }

  /** After `left` calls the `try` part was left with `f`; all calls from there on are those of the failure path. */
  ghost predicate FailedAfter(c: Settings, s0: StateFile, m: Machine, left: nat, f: Failure, g: Failure) {
    left <= |m.journal| && Left(c, s0, m.journal[..left], f)
    && Ending(m, f, m.journal[left..], HeldBy(m.journal[..left]), s0.Damaged?, g)
  }

  ghost predicate FailedProperly(c: Settings, s0: StateFile, m: Machine, g: Failure) {
    exists left: nat, f :: FailedAfter(c, s0, m, left, f, g)
  }

  /** A run that found the lock taken. */
  ghost predicate Refuses(s0: StateFile, m: Machine) {
    |m.journal| > 0 && m.journal[0].op.Acquire? && !m.journal[0].reply.Works() && m.raising.primary.None?
    && !m.held.backend && !m.held.workDir
  }

  predicate LockShows(s0: StateFile, m: Machine) {
    RecordOf(m.files.state).lastSuccess == RecordOf(s0).lastSuccess
    && ((m.files.state.Present? && m.files.state.record.lastRun == Some(LockedOut)) || StateWriteFailure in m.events)
  }

  ghost predicate RefusesAt(s0: StateFile, m: Machine, p: Refusing) {
    Refuses(s0, m)
    && (if p.ReadingForLock? || p.WritingLock? then m.files.state == s0 else LockShows(s0, m))
    && (p.WritingLock? ==> !m.files.state.Damaged?)
    && (p.ShowingLock? ==> m.journal[|m.journal| - 1].op.ReadState?
                           && p.last == LastSuccess(m.files.state, m.journal[|m.journal| - 1].reply))
  }

  /** How a run that found the lock taken has ended: the last success is kept, the error is E_LOCKED unless the write of the
      metric, which has no guard here, raised. */
  ghost predicate RefusedProperly(s0: StateFile, m: Machine, g: Failure) {
    Refuses(s0, m) && LockShows(s0, m)
    && var j := m.journal;
       |j| > 1 && j[|j| - 1].op.WriteMetric? && j[|j| - 2].op.ReadState?
       && g == (if j[|j| - 1].reply.failure.Some? then j[|j| - 1].reply.failure.value else Coded(E_LOCKED, 0))
       && (j[|j| - 1].reply.Works() ==> ShowsFailure(m, j[|j| - 2].reply))
  }

  // ---- where the failure path stands ------------------------------------------------------------------------------

  predicate PastRemoval(h: Handling) { !h.HandlingClose? && !h.HandlingRemove? }

  predicate Stands(h: Handling, k: seq<Entry>, held: Held, damaged: bool) {
    match h
    case HandlingClose => k == [] && held.backend
    case HandlingRemove => held.workDir && |k| == RemovalAt(held) && (held.backend ==> k[0].op.Close?)
    case ReadingForFailure => |k| == StateAt(held) && CleanedUp(k, held) && !Escaped(k, held)
    case WritingFailure =>
      CleanedUp(k, held) && !Escaped(k, held) && |k| == StateAt(held) + 1 && k[StateAt(held)].op.ReadState?
      && Writes(k, held, damaged)
    case ReadingLast =>
      CleanedUp(k, held) && !Escaped(k, held) && Recorded(k, held, damaged) && |k| == LastReadAt(k, held, damaged)
    case ShowingFailure(_) =>
      CleanedUp(k, held) && !Escaped(k, held) && Recorded(k, held, damaged) && |k| == LastReadAt(k, held, damaged) + 1
      && k[|k| - 1].op.ReadState?
  }

  /** What holds in the failure path; `f` is what left the `try` part. */
  predicate Handled(m: Machine, h: Handling, f: Failure, k: seq<Entry>, held: Held, damaged: bool) {
    Stands(h, k, held, damaged) && m.raising.failure == WithNotes(f, k, held) && m.held == HeldAfter(k, held)
    && (m.files.state.Damaged? <==> damaged)
    && (PastRemoval(h) && !h.ReadingForFailure? ==> StateFailure(CodeOf(f, E_STORAGE)) in m.events)
    && (h.ReadingLast? || h.ShowingFailure? ==> StateSays(m, k, held, damaged, CodeOf(f, E_STORAGE)))
    && (h.ShowingFailure? ==> h.last == LastSuccess(m.files.state, k[|k| - 1].reply))
  }

  ghost predicate Handles(c: Settings, s0: StateFile, m: Machine) {
    m.phase.AtHandler? && m.raising.primary.Some? && m.raising.left <= |m.journal|
    && Left(c, s0, m.journal[..m.raising.left], m.raising.primary.value)
    && Handled(m, m.phase.handling, m.raising.primary.value, m.journal[m.raising.left..],
               HeldBy(m.journal[..m.raising.left]), s0.Damaged?)
  }

  ghost predicate Explains(c: Settings, s0: StateFile, m: Machine) {
    if Trying(m.phase) then Smooth(c, s0, m)
    else match m.phase
      case AtHandler(_) => Handles(c, s0, m)
      case AtRefusal(p) => RefusesAt(s0, m, p)
      case Ended(Ok(_)) => m.raising.primary.None?
      case Ended(Err(g)) =>
        if Worked(m.journal, 0, Acquire) then FailedProperly(c, s0, m, g) else RefusedProperly(s0, m, g)
      case _ => m.raising.primary.None?
  }

  /** From the `try` part. */
  lemma TryExplains(c: Settings, s0: StateFile, m: Machine, r: Reply)
    requires History(c, s0, m) && Explains(c, s0, m) && Trying(m.phase)
    ensures Explains(c, s0, Step(c, m, r))
  {
    TryStep(c, s0, m, r);
    var n := Step(c, m, r);
    hide Step, Smooth, History;
    if n.phase.AtHandler? {
      EnteredHandles(c, s0, n);
      hide Entered, Handles;
    }
  }

  lemma EnteredHandles(c: Settings, s0: StateFile, n: Machine)
    requires Entered(c, s0, n)
    ensures Handles(c, s0, n)
  {
    assert n.journal[..|n.journal|] == n.journal && n.journal[|n.journal|..] == [];
    hide Left, HeldBy;
  }

  /** What one more call means for the journal behind the `try` part. */
  lemma OneCallMore(m: Machine, n: Machine, e: Entry)
    requires n.journal == m.journal + [e] && m.raising.left <= |m.journal| && n.raising.left == m.raising.left
    ensures n.journal[..n.raising.left] == m.journal[..m.raising.left]
    ensures n.journal[n.raising.left..] == m.journal[m.raising.left..] + [e]
  {
  }

  /** One call of the failure path that does not end it. */
  lemma HandlerGoesOn(m: Machine, r: Reply, f: Failure, k: seq<Entry>, held: Held, damaged: bool)
    requires m.phase.AtHandler? && Handled(m, m.phase.handling, f, k, held, damaged)
    ensures var n, e := HandlerStep(Logged(m, r), r), Entry(Wants(m.phase), r);
      n.phase.AtHandler? ==> Handled(n, n.phase.handling, f, k + [e], held, damaged)
                             && n.raising == m.raising.(failure := n.raising.failure) && n.journal == m.journal + [e]
  {
    match m.phase.handling
    case HandlingClose => CloseGoesOn(m, r, f, k, held, damaged);
    case HandlingRemove => RemovalGoesOn(m, r, f, k, held, damaged);
    case ReadingForFailure => RecordingGoesOn(m, r, f, k, held, damaged);
    case WritingFailure => WritingGoesOn(m, r, f, k, held, damaged);
    case ReadingLast => ReadingGoesOn(m, r, f, k, held, damaged);
    case ShowingFailure(_) => ShowingEnds(m, r);
  }

  lemma ShowingEnds(m: Machine, r: Reply)
    requires m.phase.AtHandler? && m.phase.handling.ShowingFailure?
    ensures HandlerStep(Logged(m, r), r).phase.Ended?
  {
    hide Shown, Tell;
  }

  lemma CloseGoesOn(m: Machine, r: Reply, f: Failure, k: seq<Entry>, held: Held, damaged: bool)
    requires m.phase.AtHandler? && Handled(m, m.phase.handling, f, k, held, damaged) && m.phase.handling.HandlingClose?
    ensures var n, e := HandlerStep(Logged(m, r), r), Entry(Wants(m.phase), r);
      n.phase.AtHandler? && Handled(n, n.phase.handling, f, k + [e], held, damaged)
      && n.raising == m.raising.(failure := n.raising.failure) && n.journal == m.journal + [e]
  {
    assert (k + [Entry(Close, r)])[0] == Entry(Close, r);
  }

  lemma RemovalGoesOn(m: Machine, r: Reply, f: Failure, k: seq<Entry>, held: Held, damaged: bool)
    requires m.phase.AtHandler? && Handled(m, m.phase.handling, f, k, held, damaged) && m.phase.handling.HandlingRemove?
    ensures var n, e := HandlerStep(Logged(m, r), r), Entry(Wants(m.phase), r);
      n.phase.AtHandler? ==> Handled(n, n.phase.handling, f, k + [e], held, damaged)
                             && n.raising == m.raising.(failure := n.raising.failure) && n.journal == m.journal + [e]
  {
    assert (k + [Entry(RemoveDir, r)])[|k|] == Entry(RemoveDir, r);
  }

  lemma RecordingGoesOn(m: Machine, r: Reply, f: Failure, k: seq<Entry>, held: Held, damaged: bool)
    requires m.phase.AtHandler? && Handled(m, m.phase.handling, f, k, held, damaged) && m.phase.handling.ReadingForFailure?
    ensures var n, e := HandlerStep(Logged(m, r), r), Entry(Wants(m.phase), r);
      n.phase.AtHandler? && Handled(n, n.phase.handling, f, k + [e], held, damaged)
      && n.raising == m.raising.(failure := n.raising.failure) && n.journal == m.journal + [e]
  {
    var n, e := HandlerStep(Logged(m, r), r), Entry(ReadState, r);
    var code := CodeOf(f, E_STORAGE);
    NotesKeepCode(f, k, held);
    SameNotes(f, k, held, e);
    hide WithNotes, CodeOf;
    var told := m.events + [StateFailure(code)];
    assert told[|m.events|] == StateFailure(code);
    assert n.events == if n.phase.handling.ReadingLast? then told + [StateWriteFailure] else told;
    assert n.phase.handling.ReadingLast? ==> n.events[|told|] == StateWriteFailure;
    assert (k + [e])[|k|] == e;
  }

  lemma WritingGoesOn(m: Machine, r: Reply, f: Failure, k: seq<Entry>, held: Held, damaged: bool)
    requires m.phase.AtHandler? && Handled(m, m.phase.handling, f, k, held, damaged) && m.phase.handling.WritingFailure?
    ensures var n, e := HandlerStep(Logged(m, r), r), Entry(Wants(m.phase), r);
      n.phase.AtHandler? && Handled(n, n.phase.handling, f, k + [e], held, damaged)
      && n.raising == m.raising.(failure := n.raising.failure) && n.journal == m.journal + [e]
  {
    var n, e := HandlerStep(Logged(m, r), r), Entry(WriteState, r);
    NotesKeepCode(f, k, held);
    SameNotes(f, k, held, e);
    hide WithNotes, CodeOf;
    assert n.events == if r.failure.Some? then m.events + [StateWriteFailure] else m.events;
    assert r.failure.Some? ==> n.events[|m.events|] == StateWriteFailure;
    assert (k + [e])[|k|] == e;
  }

  lemma ReadingGoesOn(m: Machine, r: Reply, f: Failure, k: seq<Entry>, held: Held, damaged: bool)
    requires m.phase.AtHandler? && Handled(m, m.phase.handling, f, k, held, damaged) && m.phase.handling.ReadingLast?
    ensures var n, e := HandlerStep(Logged(m, r), r), Entry(Wants(m.phase), r);
      n.phase.AtHandler? && Handled(n, n.phase.handling, f, k + [e], held, damaged)
      && n.raising == m.raising.(failure := n.raising.failure) && n.journal == m.journal + [e]
  {
    SameNotes(f, k, held, Entry(ReadState, r));
    hide WithNotes, CodeOf, LastSuccess;
    assert (k + [Entry(ReadState, r)])[|k|] == Entry(ReadState, r);
  }

  /** Behind the clean-up no call changes what is noted or held. */
  lemma SameNotes(f: Failure, k: seq<Entry>, held: Held, e: Entry)
    requires |k| >= StateAt(held)
    ensures WithNotes(f, k + [e], held) == WithNotes(f, k, held)
    ensures HeldAfter(k + [e], held).workDir == HeldAfter(k, held).workDir
    ensures k != [] || !held.backend ==> HeldAfter(k + [e], held) == HeldAfter(k, held)
  {
  }

  /** What the two calls that end the failure path leave. */
  predicate EndsWell(n: Machine, f: Failure, k: seq<Entry>, held: Held, damaged: bool) {
    n.phase.Ended? && n.phase.result.Err? && Ending(n, f, k, held, damaged, n.phase.result.failure)
  }

  lemma EscapeEnds(m: Machine, r: Reply, f: Failure, k: seq<Entry>, held: Held, damaged: bool)
    requires m.phase.AtHandler? && Handled(m, m.phase.handling, f, k, held, damaged)
    requires m.phase.handling.HandlingRemove? && r.failure == Some(Uncoded)
    ensures EndsWell(HandlerStep(Logged(m, r), r), f, k + [Entry(RemoveDir, r)], held, damaged)
  {
    assert (k + [Entry(RemoveDir, r)])[|k|] == Entry(RemoveDir, r);
    assert held.backend ==> (k + [Entry(RemoveDir, r)])[0] == k[0];
  }

  lemma MetricEnds(m: Machine, r: Reply, f: Failure, k: seq<Entry>, held: Held, damaged: bool)
    requires m.phase.AtHandler? && Handled(m, m.phase.handling, f, k, held, damaged) && m.phase.handling.ShowingFailure?
    ensures EndsWell(HandlerStep(Logged(m, r), r), f, k + [Entry(WriteMetric, r)], held, damaged)
  {
    var n, e := HandlerStep(Logged(m, r), r), Entry(WriteMetric, r);
    SameNotes(f, k, held, e);
    NotesKeepCode(f, k, held);
    LastCall(m.phase.handling, k, held, damaged, e);
    hide WithNotes, CodeOf, HeldAfter, HandlerCalls, Escaped, Stands;
    assert n.events == if r.failure.Some? then m.events + [MetricsWriteFailure] else m.events;
    assert r.failure.Some? ==> n.events[|m.events|] == MetricsWriteFailure;
  }

  lemma LastCall(h: Handling, k: seq<Entry>, held: Held, damaged: bool, e: Entry)
    requires h.ShowingFailure? && Stands(h, k, held, damaged) && e.op.WriteMetric?
    ensures var l := k + [e];
      HandlerCalls(l, held, damaged) && !Escaped(l, held) && |k| > StateAt(held) + 1 && l[|k|] == e && l[|k| - 1] == k[|k| - 1]
      && l[StateAt(held)] == k[StateAt(held)] && l[StateAt(held) + 1] == k[StateAt(held) + 1]
      && Recorded(k, held, damaged) && Recorded(l, held, damaged)
  {
  }

  lemma HandlerStepEnds(m: Machine, r: Reply, f: Failure, k: seq<Entry>, held: Held, damaged: bool)
    requires m.phase.AtHandler? && Handled(m, m.phase.handling, f, k, held, damaged)
    requires HandlerStep(Logged(m, r), r).phase.Ended?
    ensures EndsWell(HandlerStep(Logged(m, r), r), f, k + [Entry(Wants(m.phase), r)], held, damaged)
  {
    hide Handled, EndsWell;
    if m.phase.handling.ShowingFailure? {
      MetricEnds(m, r, f, k, held, damaged);
    } else {
      OnlyTwoEnd(m, r);
      EscapeEnds(m, r, f, k, held, damaged);
    }
  }

  lemma OnlyTwoEnd(m: Machine, r: Reply)
    requires m.phase.AtHandler? && HandlerStep(Logged(m, r), r).phase.Ended?
    ensures m.phase.handling.ShowingFailure? || (m.phase.handling.HandlingRemove? && r.failure == Some(Uncoded))
  {
    hide Tell, Recorded, Shown;
  }

  lemma EndsProperly(c: Settings, s0: StateFile, n: Machine, left: nat, f: Failure)
    requires left <= |n.journal| && Left(c, s0, n.journal[..left], f)
    requires EndsWell(n, f, n.journal[left..], HeldBy(n.journal[..left]), s0.Damaged?)
    ensures FailedAfter(c, s0, n, left, f, n.phase.result.failure)
  {
    hide Left, HeldBy, Ending;
  }

  lemma LeftLocked(c: Settings, s0: StateFile, j: seq<Entry>, left: nat, f: Failure)
    requires left <= |j| && Left(c, s0, j[..left], f)
    ensures Worked(j, 0, Acquire)
  {
  }

  /** From the failure path. */
  lemma HandlerExplains(c: Settings, s0: StateFile, m: Machine, r: Reply)
    requires Handles(c, s0, m)
    ensures Explains(c, s0, Step(c, m, r))
  {
    var n := HandlerStep(Logged(m, r), r);
    IsHandlerStep(c, m, r);
    HandlerStays(m, r);
    hide Step, HandlerStep, Handles, Logged, Explains;
    if n.phase.AtHandler? {
      HandlesOn(c, s0, m, r);
      HandlesExplains(c, s0, n);
    } else {
      HandlesToTheEnd(c, s0, m, r);
      assert FailedProperly(c, s0, n, n.phase.result.failure);
      EndExplains(c, s0, n);
    }
  }

  lemma IsHandlerStep(c: Settings, m: Machine, r: Reply)
    requires m.phase.AtHandler?
    ensures Step(c, m, r) == HandlerStep(Logged(m, r), r)
  {
    hide HandlerStep;
  }

  lemma HandlesExplains(c: Settings, s0: StateFile, n: Machine)
    requires Handles(c, s0, n)
    ensures Explains(c, s0, n)
  {
    hide Smooth;
  }

  lemma EndExplains(c: Settings, s0: StateFile, n: Machine)
    requires n.phase.Ended? && n.phase.result.Err? && FailedProperly(c, s0, n, n.phase.result.failure)
    requires Worked(n.journal, 0, Acquire)
    ensures Explains(c, s0, n)
  {
    hide FailedProperly, Smooth;
  }

  lemma HandlesOn(c: Settings, s0: StateFile, m: Machine, r: Reply)
    requires Handles(c, s0, m) && HandlerStep(Logged(m, r), r).phase.AtHandler?
    ensures Handles(c, s0, HandlerStep(Logged(m, r), r))
  {
    var n, e := HandlerStep(Logged(m, r), r), Entry(Wants(m.phase), r);
    hide HandlerStep, Handled, Left, HeldBy;
    HandlerGoesOn(m, r, m.raising.primary.value, m.journal[m.raising.left..], HeldBy(m.journal[..m.raising.left]), s0.Damaged?);
    OneCallMore(m, n, e);
  }

  lemma HandlesToTheEnd(c: Settings, s0: StateFile, m: Machine, r: Reply)
    requires Handles(c, s0, m) && HandlerStep(Logged(m, r), r).phase.Ended?
    ensures var n := HandlerStep(Logged(m, r), r);
      n.phase.Ended? && n.phase.result.Err? && Worked(n.journal, 0, Acquire)
      && FailedAfter(c, s0, n, m.raising.left, m.raising.primary.value, n.phase.result.failure)
  {
    var n, e := HandlerStep(Logged(m, r), r), Entry(Wants(m.phase), r);
    var left, f := m.raising.left, m.raising.primary.value;
    HandlerStays(m, r);
    hide HandlerStep, Handled, Left, HeldBy, EndsWell;
    OneCallMore(m, n, e);
    HandlerStepEnds(m, r, f, m.journal[left..], HeldBy(m.journal[..left]), s0.Damaged?);
    EndsProperly(c, s0, n, left, f);
    LeftLocked(c, s0, n.journal, left, f);
    hide FailedAfter, Handles;
  }

  lemma HandlerStays(m: Machine, r: Reply)
    requires m.phase.AtHandler?
    ensures var n := HandlerStep(Logged(m, r), r);
      n.journal == m.journal + [Entry(Wants(m.phase), r)] && n.raising == m.raising.(failure := n.raising.failure)
      && (n.phase.AtHandler? || (n.phase.Ended? && n.phase.result.Err?))
  {
    hide Tell, Recorded, Shown, End, Noted, AfterClose, LastSuccess, Wants;
  }

  // ---- the other ways ---------------------------------------------------------------------------------------------

  lemma RefusalExplains(c: Settings, s0: StateFile, m: Machine, r: Reply)
    requires m.phase.AtRefusal? && RefusesAt(s0, m, m.phase.refusing) && !m.phase.refusing.ShowingLock?
    ensures Explains(c, s0, Step(c, m, r))
  {
    var n := RefusalStep(Logged(m, r), r);
    var e := Entry(Wants(m.phase), r);
    assert Step(c, m, r) == n && n.journal == m.journal + [e];
    assert n.journal[0] == m.journal[0] && n.journal[|m.journal|] == e;
    hide Step, LastSuccess, Shown, Tell, End, Recorded;
    assert n.events == m.events || n.events == m.events + [StateWriteFailure];
    if n.events != m.events { assert n.events[|m.events|] == StateWriteFailure; }
    assert RefusesAt(s0, n, n.phase.refusing);
    hide RefusesAt, RefusalStep;
  }

  lemma RefusalEnds(c: Settings, s0: StateFile, m: Machine, r: Reply)
    requires m.phase.AtRefusal? && RefusesAt(s0, m, m.phase.refusing) && m.phase.refusing.ShowingLock?
    ensures Explains(c, s0, Step(c, m, r))
  {
    var n := RefusalStep(Logged(m, r), r);
    assert Step(c, m, r) == n && n.journal == m.journal + [Entry(WriteMetric, r)];
    assert n.journal[0] == m.journal[0] && n.journal[|m.journal|] == Entry(WriteMetric, r);
    assert n.journal[|m.journal| - 1] == m.journal[|m.journal| - 1];
    hide Step, Shown, Tell, End, Recorded;
    assert RefusedProperly(s0, n, n.phase.result.failure);
    hide RefusedProperly, RefusesAt, RefusalStep;
  }

  /** The paths that end without an error keep having none. */
  lemma OthersExplain(c: Settings, s0: StateFile, m: Machine, r: Reply)
    requires m.raising.primary.None?
    requires m.phase.AtTail? || m.phase.AtRetention? || m.phase.DiscardingMetric? || m.phase.DiscardingBridge?
    ensures Explains(c, s0, Step(c, m, r))
  {
    OthersStay(c, m, r);
    hide Step;
  }

  lemma OthersStay(c: Settings, m: Machine, r: Reply)
    requires m.phase.AtTail? || m.phase.AtRetention? || m.phase.DiscardingMetric? || m.phase.DiscardingBridge?
    ensures var n := Step(c, m, r); var p := n.phase;
      n.raising == m.raising
      && (p.AtTail? || p.AtRetention? || p.DiscardingBridge? || (p.Ended? && p.result.Ok?))
  {
    hide Tell, End;
  }

  lemma ExplainsStep(c: Settings, s0: StateFile, m: Machine, r: Reply)
    requires History(c, s0, m) && Explains(c, s0, m) && !m.phase.Ended?
    ensures Explains(c, s0, Step(c, m, r))
  {
    hide Step, History, Smooth, Handles, RefusesAt;
    if Trying(m.phase) { TryExplains(c, s0, m, r); }
    else if m.phase.AtHandler? { HandlerExplains(c, s0, m, r); }
    else if m.phase.AtRefusal? {
      if m.phase.refusing.ShowingLock? { RefusalEnds(c, s0, m, r); } else { RefusalExplains(c, s0, m, r); }
    } else { OthersExplain(c, s0, m, r); }
  }

  lemma {:induction false} RunExplains(c: Settings, clock: int, files: Files, script: (nat, Op) -> Reply, n: nat)
    ensures Explains(c, files.state, Run(c, Start(clock, files), script, n))
  {
    StartExplains(c, clock, files);
    hide Explains, InOrder, History, Step, Start;
    if n > 0 {
      RunExplains(c, clock, files, script, n - 1);
      RunInOrder(c, clock, files, script, n - 1);
      var p := Run(c, Start(clock, files), script, n - 1);
      RunMore(c, Start(clock, files), script, n);
      hide *;
      if !p.phase.Ended? {
        OrderGives(c, files.state, p);
        ExplainsStep(c, files.state, p, script(n - 1, Wants(p.phase)));
      }
    }
  }

  lemma StartExplains(c: Settings, clock: int, files: Files)
    ensures Explains(c, files.state, Start(clock, files))
  {
    hide Complaint;
  }

  // ---- main results -----------------------------------------------------------------------------------------------

  /** A run that fails under the lock raises the error with which its `try` part was left, with the code of that error and a
      note for every clean-up call that raised, and its calls from there on are those of the failure path: close, removal,
      state file, metric. State file and metric show the failure, or an event says why not, even with an unreadable state
      file; a work directory is left exactly if its removal raised. Only a removal that raises something that is no
      BackupError escapes: exactly then the error is replaced and nothing is recorded. */
  lemma FailureIsKeptAndShown(c: Settings, clock: int, files: Files, script: (nat, Op) -> Reply, n: nat)
    requires var m := Run(c, Start(clock, files), script, n); m.phase.Ended? && m.phase.result.Err?
    ensures var m := Run(c, Start(clock, files), script, n);
      |m.journal| > 0
      && if m.journal[0].reply.Works() then FailedProperly(c, files.state, m, m.phase.result.failure)
         else RefusedProperly(files.state, m, m.phase.result.failure)
  {
    RunExplains(c, clock, files, script, n);
    RunInOrderFirst(c, clock, files, script, n);
    var m := Run(c, Start(clock, files), script, n);
    hide Run, FailedProperly, RefusedProperly, Start;
    if m.journal[0].reply.Works() { assert Worked(m.journal, 0, Acquire); }
  }

  /** The first call is the one for the lock. */
  lemma {:induction false} RunInOrderFirst(c: Settings, clock: int, files: Files, script: (nat, Op) -> Reply, n: nat)
    ensures var m := Run(c, Start(clock, files), script, n);
      (m.phase.Locking? <==> m.journal == []) && (m.journal != [] ==> m.journal[0].op.Acquire?)
  {
    hide Step;
    if n > 0 {
      RunInOrderFirst(c, clock, files, script, n - 1);
      var p := Run(c, Start(clock, files), script, n - 1);
      if !p.phase.Ended? {
        var r := script(n - 1, Wants(p.phase));
        StepLogs(c, p, r);
        NeverLocksAgain(c, p, r);
        hide Step;
      }
    }
  }

  lemma NeverLocksAgain(c: Settings, m: Machine, r: Reply)
    requires !m.phase.Ended?
    ensures !Step(c, m, r).phase.Locking?
  {
    hide Fail, Tell, Recorded, Shown, End, AfterClose, Noted, Objection,
      FlowObjection, Elect, Strip, LastSuccess;
  }
}
