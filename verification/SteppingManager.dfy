/** The stepping manager as an object that talks to the debugger, against the `Stepping` functions. */
module SteppingManagerObject {
  import opened Text
  import opened Stepping

  class SteppingManager {
    const env: Env
    const cfg: Config
    var stepping: bool   // the CPU
    var tick: nat        // answers used so far
    var log: seq<Event>

    ghost function View(): World
      reads this
    {
      World(stepping, tick, log)
    }

    constructor (env: Env, cfg: Config, stepping: bool)
      ensures View() == World(stepping, 0, []) && this.env == env && this.cfg == cfg
    {
      this.env, this.cfg, this.stepping := env, cfg, stepping;
      tick, log := 0, [];
    }

    /** One interaction that commands nothing. */
    method Call() returns (a: Answer)
      modifies this`tick
      ensures a == env(old(tick)) && tick == old(tick) + 1
    {
      a := env(tick);
      tick := tick + 1;
    }

    method FireAndForget(target: bool) returns (exn: Option<Exn>)
      modifies this`tick, this`stepping
      ensures Ran(View(), exn) == Command(env, old(View()), target)
    {
      var a := Call();
      if a.obeyed { stepping := target; }
      exn := a.exn;
    }

    method WaitForState(target: bool) returns (exn: Option<Exn>, alive: bool)
      modifies this`tick
      ensures Ran(View(), exn) == Await(env, old(View()), target) && alive == env(old(tick)).alive
    {
      var a := Call();
      alive := a.alive;
      exn := if a.exn.Some? then a.exn else if stepping == target then None else Some(Timeout);
    }

    method Pause() returns (exn: Option<Exn>)
      modifies this
      ensures Ran(View(), exn) == PauseCpu(env, cfg, old(View()))
    {
      log := log + [PauseBegun];
      var probe := Call();  // best effort: only a cancellation propagates
      if probe.exn == Some(Cancelled) { return probe.exn; }
      exn := FireAndForget(true);
      if exn.Some? { return; }
      var alive;
      exn, alive := WaitForState(true);
      if exn == Some(Timeout) {
        exn := Some(SteppingFailed(if cfg.knowsPid then Some(alive) else None));
      } else if exn.None? {
        log := log + [PauseDone];
      }
    }

    method Resume() returns (exn: Option<Exn>)
      modifies this
      ensures Ran(View(), exn) == ResumeCpu(env, cfg, old(View()))
    {
      log := log + [ResumeBegun];
      exn := FireAndForget(false);
      if exn.Some? { return; }
      if cfg.hasObserver {
        var heard := Call();
        if heard.exn.Some? { return heard.exn; }
        if heard.confirmed { return None; }
      }
      var alive;
      exn, alive := WaitForState(false);
    }

    /** The context manager around `inner`. */
    method WithStepping(preserveState: bool, inner: Body) returns (exn: Option<Exn>)
      modifies this
      ensures Ran(View(), exn) == Block(env, cfg, old(View()), preserveState, inner)
      decreases inner, 1
    {
      var wasStepping := false;
      var probe := Call();
      if probe.probeExn == Some(Cancelled) { return probe.probeExn; }
      if probe.probeExn.None? { wasStepping := stepping; }

      var shouldResumeOnExit := true;
      if preserveState && wasStepping {
        shouldResumeOnExit := false;
      } else {
        exn := Pause();
        if exn.Some? {
          if !exn.value.SteppingFailed? && !exn.value.Cancelled? { exn := Some(SteppingFailed(None)); }
          return;
        }
      }

      exn := RunBody(inner);
      if shouldResumeOnExit { exn := ResumeShielded(exn); }
    }

    /** The exit of a block that paused: resume under shield, then decide what propagates. */
    method ResumeShielded(bodyExn: Option<Exn>) returns (exn: Option<Exn>)
      modifies this
      ensures Ran(View(), exn) == Leave(env, cfg, Ran(old(View()), bodyExn))
    {
      var bodySucceeded := bodyExn.None?;
      var caller := Call();
      var resumeExn := Resume();
      if caller.exn == Some(Cancelled) || resumeExn == Some(Cancelled) {
        exn := Some(Cancelled);
      } else if bodySucceeded {
        exn := resumeExn;
      } else {
        exn := bodyExn;
      }
    }

    method RunBody(body: Body) returns (exn: Option<Exn>)
      modifies this
      ensures Ran(View(), exn) == Exec(env, cfg, old(View()), body)
      decreases body, 0
    {
      match body
      case End => exn := None;
      case Use(rest) =>
        log := log + [Saw(stepping)];
        exn := RunBody(rest);
      case Throw(e) => exn := Some(e);
      case Try(inner, rest) =>
        exn := RunBody(inner);
        if exn != Some(Cancelled) { exn := RunBody(rest); }
      case With(preserve, inner, rest) =>
        exn := WithStepping(preserve, inner);
        if exn.None? { exn := RunBody(rest); }
    }
  }
}
