/**
 * `with_stepping`: pause the CPU around an arbitrary body and resume it on the way out. The
 * debugger's behaviour is an environment that answers every interaction in turn; a body is a tree of
 * reads, raised exceptions, handlers and nested blocks.
 */
module Stepping {
  import opened Text

  datatype Exn = Cancelled | Timeout | SteppingFailed(pidAlive: Option<bool>) | Other(code: int)

  /** One answer: what an entry probe raises, what any other interaction raises, whether a command
    * takes effect, whether a resume broadcast confirms, whether the process is alive. */
  datatype Answer = Answer(probeExn: Option<Exn>, exn: Option<Exn>, obeyed: bool, confirmed: bool, alive: bool)

  type Env = nat -> Answer

  datatype Config = Config(knowsPid: bool, hasObserver: bool)

  datatype Event =
    | Saw(stepping: bool)  // a read inside a body, with the CPU state it saw
    | PauseBegun | PauseDone | ResumeBegun

  /** `stepping` is the CPU state, `tick` the number of answers used so far. */
  datatype World = World(stepping: bool, tick: nat, log: seq<Event>)

  datatype Body =
    | End
    | Use(rest: Body)
    | Throw(exn: Exn)
    | Try(inner: Body, rest: Body)                   // `except Exception: pass`
    | With(preserve: bool, inner: Body, rest: Body)  // a nested block

  datatype Ran = Ran(world: World, exn: Option<Exn>)

  function Log(w: World, e: Event): World { w.(log := w.log + [e]) }

  // ---------- primitives ----------

  function EntryProbe(env: Env, w: World): Ran { Ran(w.(tick := w.tick + 1), env(w.tick).probeExn) }

  function Interact(env: Env, w: World): Ran { Ran(w.(tick := w.tick + 1), env(w.tick).exn) }

  function Command(env: Env, w: World, target: bool): Ran {
    var a := env(w.tick);
    Ran(w.(tick := w.tick + 1, stepping := if a.obeyed then target else w.stepping), a.exn)
  }

  /** `wait_for_state`: returns only on the state waited for. */
  function Await(env: Env, w: World, target: bool): Ran {
    var a := env(w.tick);
    Ran(w.(tick := w.tick + 1), if a.exn.Some? then a.exn else if w.stepping == target then None else Some(Timeout))
  }

  function PauseCpu(env: Env, cfg: Config, w: World): Ran {
    var probed := Interact(env, Log(w, PauseBegun));
    if probed.exn == Some(Cancelled) then probed
    else
      var sent := Command(env, probed.world, true);
      if sent.exn.Some? then sent
      else
        var waited := Await(env, sent.world, true);
        if waited.exn == Some(Timeout) then
          waited.(exn := Some(SteppingFailed(if cfg.knowsPid then Some(env(sent.world.tick).alive) else None)))
        else if waited.exn.Some? then waited
        else Ran(Log(waited.world, PauseDone), None)
  }

  /** Any resume broadcast confirms, including one from before the command that was not yet in the drained
    * queue: nothing ties `confirmed` to the state of the CPU. */
  function ResumeCpu(env: Env, cfg: Config, w: World): Ran {
    var sent := Command(env, Log(w, ResumeBegun), false);
    if sent.exn.Some? then sent
    else if !cfg.hasObserver then Await(env, sent.world, false)
    else
      var heard := Interact(env, sent.world);
      if heard.exn.Some? || env(sent.world.tick).confirmed then heard
      else Await(env, heard.world, false)
  }

  // ---------- blocks ----------

  /** Callers of a block see a failed pause as SteppingFailed or as their own cancellation. */
  function Wrapped(e: Exn): Exn {
    if e.SteppingFailed? || e.Cancelled? then e else SteppingFailed(None)
  }

  /** Leaving a block that paused: one shielded resume; what propagates depends on how the body ended. */
  function Leave(env: Env, cfg: Config, body: Ran): Ran {
    var callerCancelled := env(body.world.tick).exn == Some(Cancelled);
    var resumed := ResumeCpu(env, cfg, body.world.(tick := body.world.tick + 1));
    if callerCancelled then resumed.(exn := Some(Cancelled))
    else if body.exn.None? || resumed.exn == Some(Cancelled) then resumed
    else resumed.(exn := body.exn)
  }

  function Block(env: Env, cfg: Config, w: World, preserve: bool, inner: Body): Ran
    decreases inner, 1
  {
    var probed := EntryProbe(env, w);
    if probed.exn == Some(Cancelled) then probed
    else if preserve && probed.exn.None? && w.stepping then Exec(env, cfg, probed.world, inner)
    else
      var paused := PauseCpu(env, cfg, probed.world);
      if paused.exn.Some? then paused.(exn := Some(Wrapped(paused.exn.value)))
      else Leave(env, cfg, Exec(env, cfg, paused.world, inner))
  }

  function Exec(env: Env, cfg: Config, w: World, body: Body): Ran
    decreases body, 0
  {
    match body
    case End => Ran(w, None)
    case Use(rest) => Exec(env, cfg, Log(w, Saw(w.stepping)), rest)
    case Throw(e) => Ran(w, Some(e))
    case Try(inner, rest) =>
      var ran := Exec(env, cfg, w, inner);
      if ran.exn == Some(Cancelled) then ran else Exec(env, cfg, ran.world, rest)
    case With(preserve, inner, rest) =>
      var ran := Block(env, cfg, w, preserve, inner);
      if ran.exn.Some? then ran else Exec(env, cfg, ran.world, rest)
  }

  // ---------- what a body does regardless of stepping ----------

  predicate Preserving(body: Body) {
    match body
    case End => true
    case Use(rest) => Preserving(rest)
    case Throw(_) => true
    case Try(inner, rest) => Preserving(inner) && Preserving(rest)
    case With(preserve, inner, rest) => preserve && Preserving(inner) && Preserving(rest)
  }

  /** The exception the body ends with if blocks were transparent. */
  function Ends(body: Body): Option<Exn> {
    match body
    case End => None
    case Use(rest) => Ends(rest)
    case Throw(e) => Some(e)
    case Try(inner, rest) => if Ends(inner) == Some(Cancelled) then Ends(inner) else Ends(rest)
    case With(_, inner, rest) => if Ends(inner).Some? then Ends(inner) else Ends(rest)
  }

  /** How many reads it performs. */
  function Reads(body: Body): nat {
    match body
    case End => 0
    case Use(rest) => 1 + Reads(rest)
    case Throw(_) => 0
    case Try(inner, rest) => if Ends(inner) == Some(Cancelled) then Reads(inner) else Reads(inner) + Reads(rest)
    case With(_, inner, rest) => if Ends(inner).Some? then Reads(inner) else Reads(inner) + Reads(rest)
  }

  /** `n` reads of a stopped CPU. */
  function Saws(n: nat): seq<Event> { seq(n, _ => Saw(true)) }

  // ---------- an environment whose entry probes answer ----------

  /** Entry probes answer, or the caller is cancelled in them. */
  ghost predicate ProbesAnswer(env: Env) { forall t :: env(t).probeExn.None? || env(t).probeExn == Some(Cancelled) }

  /** `after` extends `before` by reads of a stopped CPU only. */
  predicate OnlyTrusted(before: seq<Event>, after: seq<Event>) {
    before <= after && forall i | |before| <= i < |after| :: after[i] == Saw(true)
  }

  /** Inside a block nothing but reads happens, and every read sees a stopped CPU, however the
    * debugger behaves otherwise. */
  lemma {:induction false} TrustInside(env: Env, cfg: Config, w: World, body: Body)
    requires ProbesAnswer(env) && Preserving(body) && w.stepping
    ensures Exec(env, cfg, w, body).world.stepping
    ensures OnlyTrusted(w.log, Exec(env, cfg, w, body).world.log)
    decreases body
  {
    match body
    case End =>
    case Use(rest) => TrustInside(env, cfg, Log(w, Saw(true)), rest);
    case Throw(_) =>
    case Try(inner, rest) =>
      TrustInside(env, cfg, w, inner);
      TrustInside(env, cfg, Exec(env, cfg, w, inner).world, rest);
    case With(_, inner, rest) =>
      var probed := EntryProbe(env, w);
      if probed.exn.None? {
        TrustInside(env, cfg, probed.world, inner);
        TrustInside(env, cfg, Exec(env, cfg, probed.world, inner).world, rest);
      }
  }

  /** A completed pause leaves the CPU stopped; only a completed one is logged as such. */
  lemma PauseEffect(env: Env, cfg: Config, w: World)
    ensures var r := PauseCpu(env, cfg, w);
      && (r.exn.None? ==> r.world.stepping && r.world.log == w.log + [PauseBegun, PauseDone])
      && (r.exn.Some? ==> r.world.log == w.log + [PauseBegun])
  {
    assert w.log + [PauseBegun] + [PauseDone] == w.log + [PauseBegun, PauseDone];
  }

  /** The command sent at `tick` is ignored, and a broadcast confirms it nevertheless. */
  predicate FalselyConfirmed(env: Env, cfg: Config, tick: nat) {
    cfg.hasObserver && !env(tick).obeyed && env(tick + 1).confirmed
  }

  /** A resume that returns leaves a stopped CPU stopped exactly when it was falsely confirmed. */
  lemma ResumeEffect(env: Env, cfg: Config, w: World)
    ensures var r := ResumeCpu(env, cfg, w);
      && r.world.log == w.log + [ResumeBegun]
      && (r.exn.None? ==> (r.world.stepping <==> w.stepping && FalselyConfirmed(env, cfg, w.tick)))
  {}

  /** Leaving a block that paused begins one resume; returning normally it leaves a stopped CPU stopped
    * exactly when that resume was falsely confirmed. */
  lemma LeaveEffect(env: Env, cfg: Config, body: Ran)
    ensures var r := Leave(env, cfg, body);
      && r.world.log == body.world.log + [ResumeBegun]
      && (r.exn.None? ==>
           (r.world.stepping <==> body.world.stepping && FalselyConfirmed(env, cfg, body.world.tick + 1)))
  {
    ResumeEffect(env, cfg, body.world.(tick := body.world.tick + 1));
  }

  /** When the exit of a block that pauses sends its resume command. */
  function ResumeTick(env: Env, cfg: Config, w: World, inner: Body): nat {
    Exec(env, cfg, PauseCpu(env, cfg, EntryProbe(env, w).world).world, inner).world.tick + 1
  }

  /** For every tree of preserving blocks and every debugger whose entry probes answer: every read inside a
    * block sees a stopped CPU; and a block that returns normally has restored the state it found, except
    * exactly when it was entered running and its resume was ignored but confirmed by a broadcast. */
  lemma BlockIsTrustworthy(env: Env, cfg: Config, w: World, inner: Body)
    requires ProbesAnswer(env) && Preserving(inner)
    ensures var r := Block(env, cfg, w, true, inner);
      && w.log <= r.world.log
      && (forall i | |w.log| <= i < |r.world.log| && r.world.log[i].Saw? :: r.world.log[i].stepping)
      && (r.exn.None? ==>
           (r.world.stepping <==> w.stepping || FalselyConfirmed(env, cfg, ResumeTick(env, cfg, w, inner))))
  {
    var probed := EntryProbe(env, w);
    if probed.exn.None? {
      if w.stepping {
        TrustInside(env, cfg, probed.world, inner);
      } else {
        PauseEffect(env, cfg, probed.world);
        var paused := PauseCpu(env, cfg, probed.world);
        if paused.exn.None? {
          TrustInside(env, cfg, paused.world, inner);
          LeaveEffect(env, cfg, Exec(env, cfg, paused.world, inner));
        }
      }
    }
  }

  /** Broadcasts tell the truth: one confirms a command only if that command took effect. */
  ghost predicate TruthfulBroadcasts(env: Env) {
    forall t: nat :: env(t + 1).confirmed ==> env(t).obeyed
  }

  /** Then, or without an observer, every block that returns normally has restored the state it found. */
  lemma BlockRestoresState(env: Env, cfg: Config, w: World, inner: Body)
    requires ProbesAnswer(env) && Preserving(inner) && (cfg.hasObserver ==> TruthfulBroadcasts(env))
    ensures var r := Block(env, cfg, w, true, inner); r.exn.None? ==> r.world.stepping == w.stepping
  {
    BlockIsTrustworthy(env, cfg, w, inner);
    if cfg.hasObserver {
      var t := ResumeTick(env, cfg, w, inner);
      assert env(t + 1).confirmed ==> env(t).obeyed;
    }
  }

  /** A debugger that ignores one resume command, with an old broadcast still to be dispatched: the block
    * ends normally and the CPU stays stopped. */
  lemma FalseConfirmationLeavesStopped(knowsPid: bool)
    ensures var env: Env := t => Answer(None, None, t != 5, true, true);
      var r := Block(env, Config(knowsPid, true), World(false, 0, []), true, End);
      ProbesAnswer(env) && r.exn.None? && r.world.stepping
  {
    var env: Env, cfg := t => Answer(None, None, t != 5, true, true), Config(knowsPid, true);
    var w := World(false, 0, []);
    var paused := PauseCpu(env, cfg, EntryProbe(env, w).world);
    assert paused.exn.None? && paused.world.tick == 4;
    assert ResumeTick(env, cfg, w, End) == 5 && FalselyConfirmed(env, cfg, 5);
    BlockIsTrustworthy(env, cfg, w, End);
  }

  // ---------- the ideal environment ----------

  ghost predicate Ideal(env: Env) { forall t :: env(t).probeExn.None? && env(t).exn.None? && env(t).obeyed }

  lemma SawsJoin(log: seq<Event>, m: nat, n: nat)
    ensures log + Saws(m) + Saws(n) == log + Saws(m + n)
    ensures log + [Saw(true)] + Saws(n) == log + Saws(n + 1)
    ensures log + Saws(0) == log
  {}

  lemma {:induction false} IdealInside(env: Env, cfg: Config, w: World, body: Body)
    requires Ideal(env) && Preserving(body) && w.stepping
    ensures var r := Exec(env, cfg, w, body);
      r.world.stepping && r.exn == Ends(body) && r.world.log == w.log + Saws(Reads(body))
    decreases body
  {
    match body
    case End => SawsJoin(w.log, 0, 0);
    case Use(rest) =>
      IdealInside(env, cfg, Log(w, Saw(true)), rest);
      SawsJoin(w.log, 0, Reads(rest));
    case Throw(_) => SawsJoin(w.log, 0, 0);
    case Try(inner, rest) =>
      IdealInside(env, cfg, w, inner);
      IdealInside(env, cfg, Exec(env, cfg, w, inner).world, rest);
      SawsJoin(w.log, Reads(inner), Reads(rest));
    case With(_, inner, rest) =>
      var probed := EntryProbe(env, w);
      IdealInside(env, cfg, probed.world, inner);
      IdealInside(env, cfg, Exec(env, cfg, probed.world, inner).world, rest);
      SawsJoin(w.log, Reads(inner), Reads(rest));
  }

  /** Over an ideal debugger a tree of blocks is transparent: it ends as its body would, every read
    * sees a stopped CPU, the entry state is restored, and it costs exactly one pause and one resume
    * if entered running and none if entered stepping - however deep the nesting. */
  lemma IdealBlock(env: Env, cfg: Config, w: World, inner: Body)
    requires Ideal(env) && Preserving(inner)
    ensures var r := Block(env, cfg, w, true, inner);
      && r.exn == Ends(inner) && r.world.stepping == w.stepping
      && r.world.log == w.log +
        (if w.stepping then Saws(Reads(inner)) else [PauseBegun, PauseDone] + Saws(Reads(inner)) + [ResumeBegun])
  {
    var probed := EntryProbe(env, w);
    if w.stepping {
      IdealInside(env, cfg, probed.world, inner);
    } else {
      var paused := PauseCpu(env, cfg, probed.world);
      PauseEffect(env, cfg, probed.world);
      IdealInside(env, cfg, paused.world, inner);
      var ran := Exec(env, cfg, paused.world, inner);
      LeaveEffect(env, cfg, ran);
      assert w.log + [PauseBegun, PauseDone] + Saws(Reads(inner)) + [ResumeBegun]
        == w.log + ([PauseBegun, PauseDone] + Saws(Reads(inner)) + [ResumeBegun]);
    }
  }

  /** Ideal from the answer after `tick` on; what the entry probe at `tick` does is left open. */
  ghost predicate IdealAfter(env: Env, tick: nat) {
    forall t | t > tick :: env(t).probeExn.None? && env(t).exn.None? && env(t).obeyed
  }

  /** Once every answer is ideal a tree entered stopped stays stopped, and ends as its body would. */
  lemma {:induction false} IdealStaysStopped(env: Env, cfg: Config, w: World, tick: nat, body: Body)
    requires IdealAfter(env, tick) && w.tick > tick && Preserving(body) && w.stepping
    ensures var r := Exec(env, cfg, w, body); r.world.stepping && r.world.tick > tick && r.exn == Ends(body)
    decreases body
  {
    match body
    case End =>
    case Use(rest) => IdealStaysStopped(env, cfg, Log(w, Saw(true)), tick, rest);
    case Throw(_) =>
    case Try(inner, rest) =>
      IdealStaysStopped(env, cfg, w, tick, inner);
      IdealStaysStopped(env, cfg, Exec(env, cfg, w, inner).world, tick, rest);
    case With(_, inner, rest) =>
      var probed := EntryProbe(env, w);
      IdealStaysStopped(env, cfg, probed.world, tick, inner);
      IdealStaysStopped(env, cfg, Exec(env, cfg, probed.world, inner).world, tick, rest);
  }

  /** An ideal pause completes, and an ideal exit leaves the CPU running and lets the body's end through. */
  lemma IdealPauseAndLeave(env: Env, cfg: Config, w: World, tick: nat, body: Ran)
    requires IdealAfter(env, tick) && w.tick > tick && body.world.tick > tick
    ensures var r := PauseCpu(env, cfg, w); r.exn.None? && r.world.stepping && r.world.tick > tick
    ensures !Leave(env, cfg, body).world.stepping && Leave(env, cfg, body).exn == body.exn
  {}

  /** One block around any tree of preserving blocks, reads, exceptions and handlers, with an entry probe
    * that may answer, fail or be cancelled and everything after it ideal: the block exits with the CPU
    * stopped exactly when it was entered stopped and either could see it and was asked to preserve it, or
    * never got past the probe. In every other case it exits running: a failed probe on a stopped CPU loses
    * the entry state. Unless cancelled in its probe it ends as its body would. */
  lemma ExitStateExact(env: Env, cfg: Config, w: World, preserve: bool, inner: Body)
    requires IdealAfter(env, w.tick) && Preserving(inner)
    ensures var r, probe := Block(env, cfg, w, preserve, inner), env(w.tick).probeExn;
      && (r.world.stepping <==> w.stepping && (probe == Some(Cancelled) || (preserve && probe.None?)))
      && r.exn == if probe == Some(Cancelled) then Some(Cancelled) else Ends(inner)
  {
    var probed := EntryProbe(env, w);
    if probed.exn == Some(Cancelled) {
    } else if preserve && probed.exn.None? && w.stepping {
      IdealStaysStopped(env, cfg, probed.world, w.tick, inner);
    } else {
      IdealPauseAndLeave(env, cfg, probed.world, w.tick, probed);
      var paused := PauseCpu(env, cfg, probed.world);
      IdealStaysStopped(env, cfg, paused.world, w.tick, inner);
      IdealPauseAndLeave(env, cfg, probed.world, w.tick, Exec(env, cfg, paused.world, inner));
    }
  }

  /** The same inside an outer block: after a nested block that ends normally, the outer body's next read
    * sees a stopped CPU if and only if the nested block was asked to preserve and its entry probe answered. */
  lemma NestedTrustExact(env: Env, cfg: Config, w: World, preserve: bool, inner: Body, rest: Body)
    requires IdealAfter(env, w.tick) && Preserving(inner) && w.stepping
    requires Ends(inner).None? && env(w.tick).probeExn != Some(Cancelled)
    ensures var nested := Block(env, cfg, w, preserve, inner);
      Exec(env, cfg, w, With(preserve, inner, Use(rest))) ==
        Exec(env, cfg, Log(nested.world, Saw(preserve && env(w.tick).probeExn.None?)), rest)
  {
    ExitStateExact(env, cfg, w, preserve, inner);
    var nested := Block(env, cfg, w, preserve, inner);
    assert Exec(env, cfg, w, With(preserve, inner, Use(rest))) == Exec(env, cfg, nested.world, Use(rest));
  }

  /** A nested block whose entry probe fails resumes the CPU under the outer block: the outer body's
    * next read sees it running. */
  lemma NestedProbeFailureBreaksTrust(cfg: Config)
    ensures var env: Env := t =>
        Answer(if t == 4 then Some(Other(0)) else None, None, true, true, true);
      var r := Block(env, cfg, World(false, 0, []), true, With(true, End, Use(End)));
      r.exn.None? && r.world.log ==
        [PauseBegun, PauseDone, PauseBegun, PauseDone, ResumeBegun, Saw(false), ResumeBegun]
  {
    var env: Env := t => Answer(if t == 4 then Some(Other(0)) else None, None, true, true, true);
    var w0 := World(false, 0, []);
    var w1 := PauseCpu(env, cfg, EntryProbe(env, w0).world).world;
    assert w1 == World(true, 4, [PauseBegun, PauseDone]);
    var inner := Block(env, cfg, w1, true, End);
    assert inner.exn.None? && inner.world.log == [PauseBegun, PauseDone, PauseBegun, PauseDone, ResumeBegun];
    assert !inner.world.stepping;
    var rest := Exec(env, cfg, inner.world, Use(End));
    assert rest.world.log == inner.world.log + [Saw(false)];
  }

  // ---------- any environment at all ----------

  /** Where pauses completed and resumes begun are the brackets: the nesting depth after `events`,
    * starting from `depth`; None if a resume has no pause to undo. */
  function Depth(events: seq<Event>, depth: nat): Option<nat> {
    if events == [] then Some(depth)
    else match events[0]
      case PauseDone => Depth(events[1..], depth + 1)
      case ResumeBegun => if depth == 0 then None else Depth(events[1..], depth - 1)
      case _ => Depth(events[1..], depth)
  }

  lemma {:induction false} DepthAppend(x: seq<Event>, y: seq<Event>, depth: nat)
    ensures Depth(x + y, depth) == if Depth(x, depth).None? then None else Depth(y, Depth(x, depth).value)
    decreases |x|
  {
    if x == [] {
      assert x + y == y;
    } else {
      assert (x + y)[0] == x[0] && (x + y)[1..] == x[1..] + y;
      match x[0]
      case PauseDone => DepthAppend(x[1..], y, depth + 1);
      case ResumeBegun => if depth > 0 { DepthAppend(x[1..], y, depth - 1); }
      case _ => DepthAppend(x[1..], y, depth);
    }
  }

  /** `after` extends `before` by a well-bracketed stretch. */
  ghost predicate Bracketed(before: seq<Event>, after: seq<Event>) {
    before <= after && forall d: nat :: Depth(after[|before|..], d) == Some(d)
  }

  lemma BracketedJoin(x: seq<Event>, y: seq<Event>, z: seq<Event>)
    requires Bracketed(x, y) && Bracketed(y, z)
    ensures Bracketed(x, z)
  {
    assert z[|x|..] == y[|x|..] + z[|y|..];
    forall d: nat ensures Depth(z[|x|..], d) == Some(d) { DepthAppend(y[|x|..], z[|y|..], d); }
  }

  /** Wrapping a bracketed stretch in one completed pause and one resume keeps it bracketed. */
  lemma BracketedWrap(x: seq<Event>, y: seq<Event>)
    requires Bracketed(x + [PauseBegun, PauseDone], y)
    ensures Bracketed(x, y + [ResumeBegun])
  {
    var front := x + [PauseBegun, PauseDone];
    var middle := y[|front|..];
    assert y == front + middle;
    var stretch := (y + [ResumeBegun])[|x|..];
    assert stretch == [PauseBegun, PauseDone] + middle + [ResumeBegun];
    forall d: nat ensures Depth(stretch, d) == Some(d) {
      assert Depth([PauseDone], d) == Depth([], d + 1);
      assert [PauseBegun, PauseDone][1..] == [PauseDone] && [PauseDone][1..] == [];
      assert Depth([PauseBegun, PauseDone], d) == Some(d + 1);
      DepthAppend([PauseBegun, PauseDone] + middle, [ResumeBegun], d);
      DepthAppend([PauseBegun, PauseDone], middle, d);
      assert Depth([ResumeBegun], d + 1) == Depth([ResumeBegun][1..], d) == Some(d);
    }
  }

  /** Whatever fails or is cancelled, in every tree of blocks completed pauses and resume attempts
    * match like brackets: each block that paused begins exactly one resume, after its body. */
  lemma {:induction false} PausesAndResumesMatch(env: Env, cfg: Config, w: World, body: Body)
    ensures Bracketed(w.log, Exec(env, cfg, w, body).world.log)
    decreases body, 0
  {
    match body
    case End =>
    case Use(rest) =>
      var w' := Log(w, Saw(w.stepping));
      PausesAndResumesMatch(env, cfg, w', rest);
      assert w'.log[|w.log|..] == [Saw(w.stepping)] && [Saw(w.stepping)][1..] == [];
      BracketedJoin(w.log, w'.log, Exec(env, cfg, w, body).world.log);
    case Throw(_) =>
    case Try(inner, rest) =>
      var ran := Exec(env, cfg, w, inner);
      PausesAndResumesMatch(env, cfg, w, inner);
      if ran.exn != Some(Cancelled) {
        PausesAndResumesMatch(env, cfg, ran.world, rest);
        BracketedJoin(w.log, ran.world.log, Exec(env, cfg, ran.world, rest).world.log);
      }
    case With(preserve, inner, rest) =>
      var ran := Block(env, cfg, w, preserve, inner);
      BlockMatches(env, cfg, w, preserve, inner);
      if ran.exn.None? {
        PausesAndResumesMatch(env, cfg, ran.world, rest);
        BracketedJoin(w.log, ran.world.log, Exec(env, cfg, ran.world, rest).world.log);
      }
  }

  lemma {:induction false} BlockMatches(env: Env, cfg: Config, w: World, preserve: bool, inner: Body)
    ensures Bracketed(w.log, Block(env, cfg, w, preserve, inner).world.log)
    decreases inner, 1
  {
    var probed := EntryProbe(env, w);
    if probed.exn == Some(Cancelled) {
    } else if preserve && probed.exn.None? && w.stepping {
      PausesAndResumesMatch(env, cfg, probed.world, inner);
    } else {
      var paused := PauseCpu(env, cfg, probed.world);
      PauseEffect(env, cfg, probed.world);
      if paused.exn.Some? {
        assert paused.world.log[|w.log|..] == [PauseBegun] && [PauseBegun][1..] == [];
      } else {
        PausesAndResumesMatch(env, cfg, paused.world, inner);
        var ran := Exec(env, cfg, paused.world, inner);
        LeaveEffect(env, cfg, ran);
        BracketedWrap(w.log, ran.world.log);
      }
    }
  }

  /** The block gets as far as its body. */
  predicate Enters(env: Env, cfg: Config, w: World, preserve: bool) {
    var probed := EntryProbe(env, w);
    probed.exn != Some(Cancelled)
    && ((preserve && probed.exn.None? && w.stepping) || PauseCpu(env, cfg, probed.world).exn.None?)
  }

  /** Where its body then starts. */
  function Entered(env: Env, cfg: Config, w: World, preserve: bool): World {
    var probed := EntryProbe(env, w);
    if preserve && probed.exn.None? && w.stepping then probed.world else PauseCpu(env, cfg, probed.world).world
  }

  /** A block that does not complete its pause runs no part of its body - with any other body it does
    * exactly the same - and starts no resume; its caller sees SteppingFailed or its own cancellation. */
  lemma FailedPauseNeverRunsBody(env: Env, cfg: Config, w: World, preserve: bool, inner: Body, other: Body)
    requires !Enters(env, cfg, w, preserve)
    ensures var r := Block(env, cfg, w, preserve, inner);
      && r == Block(env, cfg, w, preserve, other)
      && (r.world.log == w.log || r.world.log == w.log + [PauseBegun])
      && r.exn.Some? && (r.exn.value.SteppingFailed? || r.exn.value.Cancelled?)
  {
    PauseEffect(env, cfg, EntryProbe(env, w).world);
  }

  /** The tree with the body of every block that does not complete its pause replaced by `filler`. */
  function Refilled(env: Env, cfg: Config, w: World, body: Body, filler: Body): Body
    decreases body
  {
    match body
    case End => End
    case Use(rest) => Use(Refilled(env, cfg, Log(w, Saw(w.stepping)), rest, filler))
    case Throw(e) => Throw(e)
    case Try(inner, rest) =>
      Try(Refilled(env, cfg, w, inner, filler), Refilled(env, cfg, Exec(env, cfg, w, inner).world, rest, filler))
    case With(preserve, inner, rest) =>
      With(preserve,
           if Enters(env, cfg, w, preserve) then Refilled(env, cfg, Entered(env, cfg, w, preserve), inner, filler)
           else filler,
           Refilled(env, cfg, Block(env, cfg, w, preserve, inner).world, rest, filler))
  }

  /** In every tree and against every debugger the bodies under failed pauses do not matter: whatever is
    * put in their place, the run is the same. */
  lemma {:induction false} FailedPausesHideBodies(env: Env, cfg: Config, w: World, body: Body, filler: Body)
    ensures Exec(env, cfg, w, Refilled(env, cfg, w, body, filler)) == Exec(env, cfg, w, body)
    decreases body
  {
    match body
    case End =>
    case Use(rest) => FailedPausesHideBodies(env, cfg, Log(w, Saw(w.stepping)), rest, filler);
    case Throw(_) =>
    case Try(inner, rest) =>
      FailedPausesHideBodies(env, cfg, w, inner, filler);
      FailedPausesHideBodies(env, cfg, Exec(env, cfg, w, inner).world, rest, filler);
    case With(preserve, inner, rest) =>
      if Enters(env, cfg, w, preserve) {
        FailedPausesHideBodies(env, cfg, Entered(env, cfg, w, preserve), inner, filler);
      } else {
        FailedPauseNeverRunsBody(env, cfg, w, preserve, inner, filler);
      }
      FailedPausesHideBodies(env, cfg, Block(env, cfg, w, preserve, inner).world, rest, filler);
  }

  /** The wait for the pause begun at `tick` runs out: the command was sent, and the wait is refused in time or
    * never sees a stopped CPU. */
  predicate PauseTimesOut(env: Env, w: World) {
    env(w.tick + 1).exn.None?
    && (env(w.tick + 2).exn == Some(Timeout)
        || (env(w.tick + 2).exn.None? && !w.stepping && !env(w.tick + 1).obeyed))
  }

  /** What a failed pause reports, besides a cancellation: whether the process is alive, exactly when the wait ran
    * out and the process is known; a failure that says so already is passed on as it is. */
  lemma FailedPauseReports(env: Env, cfg: Config, w: World, preserve: bool, inner: Body)
    requires !Enters(env, cfg, w, preserve)
    ensures var r, t := Block(env, cfg, w, preserve, inner), w.tick + 1;
      r.exn != Some(Cancelled) ==>
        if PauseTimesOut(env, w.(tick := t))
        then r.exn == Some(SteppingFailed(if cfg.knowsPid then Some(env(t + 2).alive) else None))
        else var raised := if env(t + 1).exn.Some? then env(t + 1).exn else env(t + 2).exn;
             raised.Some? && r.exn == Some(if raised.value.SteppingFailed? then raised.value else SteppingFailed(None))
  {}

  /** Leaving a block that paused. An ordinary resume failure never replaces the body's exception but
    * does propagate after a body that succeeded; only a cancellation of the caller or of the resume
    * overrides, and always does; a normal return leaves the CPU running unless the resume was falsely
    * confirmed. */
  lemma ResumeFailureNeverMasksBody(env: Env, cfg: Config, body: Ran)
    ensures var r := Leave(env, cfg, body);
      var resumed := ResumeCpu(env, cfg, body.world.(tick := body.world.tick + 1));
      && (body.exn.Some? && r.exn != Some(Cancelled) ==> r.exn == body.exn)
      && (body.exn.None? && r.exn != Some(Cancelled) ==> r.exn == resumed.exn)
      && (r.exn == Some(Cancelled) <==>
           body.exn == Some(Cancelled) || env(body.world.tick).exn == Some(Cancelled) || resumed.exn == Some(Cancelled))
      && (r.exn.None? ==>
           (r.world.stepping <==> body.world.stepping && FalselyConfirmed(env, cfg, body.world.tick + 1)))
      && r.world.log == body.world.log + [ResumeBegun]
  {
    LeaveEffect(env, cfg, body);
  }
}
