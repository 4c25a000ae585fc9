/** Where the cancellation of a tree of blocks comes from, and what is left to happen after it. */
module SteppingCancellation {
  import opened Text
  import opened Stepping

  // ---------- places of a tree ----------

  /** One step down a tree: into the body of a handler or a block, or past the first thing it does. */
  datatype Turn = Into | Past

  datatype Place = Place(world: World, body: Body)

  /** The rest of the tree that a run reaches by these turns, and where it then is; None if it never gets there. */
  function Reach(env: Env, cfg: Config, w: World, body: Body, path: seq<Turn>): Option<Place>
    decreases |path|
  {
    if path == [] then Some(Place(w, body))
    else match body
      case Use(rest) =>
        if path[0].Past? then Reach(env, cfg, Log(w, Saw(w.stepping)), rest, path[1..]) else None
      case Try(inner, rest) =>
        if path[0].Into? then Reach(env, cfg, w, inner, path[1..])
        else
          var ran := Exec(env, cfg, w, inner);
          if ran.exn == Some(Cancelled) then None else Reach(env, cfg, ran.world, rest, path[1..])
      case With(preserve, inner, rest) =>
        if path[0].Into? then
          if !Enters(env, cfg, w, preserve) then None
          else Reach(env, cfg, Entered(env, cfg, w, preserve), inner, path[1..])
        else
          var ran := Block(env, cfg, w, preserve, inner);
          if ran.exn.Some? then None else Reach(env, cfg, ran.world, rest, path[1..])
      case _ => None
  }

  /** The block does not keep a CPU it found stopped. */
  predicate Pauses(env: Env, w: World, preserve: bool) {
    env(w.tick).probeExn != Some(Cancelled) && !(preserve && env(w.tick).probeExn.None? && w.stepping)
  }

  /** How many of the blocks around the place paused the CPU. */
  function PausedAround(env: Env, cfg: Config, w: World, body: Body, path: seq<Turn>): nat
    requires Reach(env, cfg, w, body, path).Some?
    decreases |path|
  {
    if path == [] then 0
    else match body
      case Use(rest) => PausedAround(env, cfg, Log(w, Saw(w.stepping)), rest, path[1..])
      case Try(inner, rest) =>
        if path[0].Into? then PausedAround(env, cfg, w, inner, path[1..])
        else PausedAround(env, cfg, Exec(env, cfg, w, inner).world, rest, path[1..])
      case With(preserve, inner, rest) =>
        if path[0].Into? then
          (if Pauses(env, w, preserve) then 1 else 0)
            + PausedAround(env, cfg, Entered(env, cfg, w, preserve), inner, path[1..])
        else PausedAround(env, cfg, Block(env, cfg, w, preserve, inner).world, rest, path[1..])
  }

  // ---------- where a cancellation can come from ----------

  /** One of the answers to a resume command sent at `t` is a cancellation. */
  predicate ResumeCancelled(env: Env, cfg: Config, t: nat) {
    || env(t).exn == Some(Cancelled)
    || (env(t).exn.None? && env(t + 1).exn == Some(Cancelled))
    || (env(t).exn.None? && cfg.hasObserver && env(t + 1).exn.None? && !env(t + 1).confirmed
        && env(t + 2).exn == Some(Cancelled))
  }

  /** One of the answers to a pause begun at `t`: to its status probe, its command or its wait. */
  predicate PauseCancelled(env: Env, t: nat) {
    || env(t).exn == Some(Cancelled)
    || env(t + 1).exn == Some(Cancelled)
    || (env(t + 1).exn.None? && env(t + 2).exn == Some(Cancelled))
  }

  /** A cancellation arises here: it is raised, or the caller is cancelled in the probe, the pause or the exit
    * of this very block. */
  predicate CancelledHere(env: Env, cfg: Config, w: World, body: Body) {
    match body
    case Throw(e) => e.Cancelled?
    case With(preserve, inner, _) =>
      || env(w.tick).probeExn == Some(Cancelled)
      || (Pauses(env, w, preserve) && PauseCancelled(env, w.tick + 1))
      || (Pauses(env, w, preserve) && Enters(env, cfg, w, preserve)
          && var ran := Exec(env, cfg, Entered(env, cfg, w, preserve), inner);
             env(ran.world.tick).exn == Some(Cancelled) || ResumeCancelled(env, cfg, ran.world.tick + 1))
    case _ => false
  }

  lemma PauseCancelledExactly(env: Env, cfg: Config, w: World)
    ensures PauseCpu(env, cfg, w).exn == Some(Cancelled) <==> PauseCancelled(env, w.tick)
  {}

  lemma ResumeCancelledExactly(env: Env, cfg: Config, w: World)
    ensures ResumeCpu(env, cfg, w).exn == Some(Cancelled) <==> ResumeCancelled(env, cfg, w.tick)
  {}

  /** What leaving a block that paused raises: a cancellation of the body, the caller or the resume before
    * anything else, then the body's exception, then the resume's. */
  lemma LeaveOutcome(env: Env, cfg: Config, body: Ran)
    ensures var r, t := Leave(env, cfg, body), body.world.tick;
      && (r.exn == Some(Cancelled) <==>
           body.exn == Some(Cancelled) || env(t).exn == Some(Cancelled) || ResumeCancelled(env, cfg, t + 1))
      && (r.exn != Some(Cancelled) ==>
           r.exn == if body.exn.Some? then body.exn else ResumeCpu(env, cfg, body.world.(tick := t + 1)).exn)
  {
    ResumeCancelledExactly(env, cfg, body.world.(tick := body.world.tick + 1));
  }

  /** A block ends cancelled exactly if a cancellation arises in it, or its body ends cancelled. */
  lemma BlockCancelledExactly(env: Env, cfg: Config, w: World, preserve: bool, inner: Body, rest: Body)
    ensures Block(env, cfg, w, preserve, inner).exn == Some(Cancelled) <==>
      || CancelledHere(env, cfg, w, With(preserve, inner, rest))
      || (Enters(env, cfg, w, preserve)
          && Exec(env, cfg, Entered(env, cfg, w, preserve), inner).exn == Some(Cancelled))
  {
    PauseCancelledExactly(env, cfg, EntryProbe(env, w).world);
    if Enters(env, cfg, w, preserve) && Pauses(env, w, preserve) {
      LeaveOutcome(env, cfg, Exec(env, cfg, Entered(env, cfg, w, preserve), inner));
    }
  }

  lemma HereEndsCancelled(env: Env, cfg: Config, w: World, body: Body)
    requires CancelledHere(env, cfg, w, body)
    ensures Exec(env, cfg, w, body).exn == Some(Cancelled)
  {
    if body.With? { BlockCancelledExactly(env, cfg, w, body.preserve, body.inner, body.rest); }
  }

  // ---------- it goes all the way out ----------

  function Resumes(n: nat): seq<Event> { seq(n, _ => ResumeBegun) }

  /** A block whose body ends cancelled ends cancelled, after one resume if it paused. */
  lemma BlockPassesOn(env: Env, cfg: Config, w: World, preserve: bool, inner: Body)
    requires Enters(env, cfg, w, preserve)
    requires Exec(env, cfg, Entered(env, cfg, w, preserve), inner).exn == Some(Cancelled)
    ensures var r, ran := Block(env, cfg, w, preserve, inner), Exec(env, cfg, Entered(env, cfg, w, preserve), inner);
      r.exn == Some(Cancelled)
      && r.world.log == ran.world.log + Resumes(if Pauses(env, w, preserve) then 1 else 0)
  {
    var ran := Exec(env, cfg, Entered(env, cfg, w, preserve), inner);
    assert Resumes(1) == [ResumeBegun] && ran.world.log + Resumes(0) == ran.world.log;
    if Pauses(env, w, preserve) {
      LeaveEffect(env, cfg, ran);
      LeaveOutcome(env, cfg, ran);
    }
  }

  lemma ResumesJoin(log: seq<Event>, m: nat, n: nat)
    ensures log + Resumes(m) + Resumes(n) == log + Resumes(n + m)
    ensures log + Resumes(0) == log
  {}

  /** Whatever is reached and ends cancelled, the whole tree ends cancelled, and all that still happens is
    * one resume for every block around it that paused. */
  lemma {:induction false} CancellationGoesOut(env: Env, cfg: Config, w: World, body: Body, path: seq<Turn>)
    requires var at := Reach(env, cfg, w, body, path);
      at.Some? && Exec(env, cfg, at.value.world, at.value.body).exn == Some(Cancelled)
    ensures var at, r := Reach(env, cfg, w, body, path).value, Exec(env, cfg, w, body);
      && r.exn == Some(Cancelled)
      && r.world.log == Exec(env, cfg, at.world, at.body).world.log + Resumes(PausedAround(env, cfg, w, body, path))
    decreases |path|
  {
    if path == [] {
      ResumesJoin(Exec(env, cfg, w, body).world.log, 0, 0);
    } else {
      match body
      case Use(rest) => CancellationGoesOut(env, cfg, Log(w, Saw(w.stepping)), rest, path[1..]);
      case Try(inner, rest) =>
        if path[0].Into? {
          CancellationGoesOut(env, cfg, w, inner, path[1..]);
        } else {
          CancellationGoesOut(env, cfg, Exec(env, cfg, w, inner).world, rest, path[1..]);
        }
      case With(preserve, inner, rest) =>
        if path[0].Into? {
          var v := Entered(env, cfg, w, preserve);
          CancellationGoesOut(env, cfg, v, inner, path[1..]);
          BlockPassesOn(env, cfg, w, preserve, inner);
          var at := Reach(env, cfg, w, body, path).value;
          ResumesJoin(Exec(env, cfg, at.world, at.body).world.log, PausedAround(env, cfg, v, inner, path[1..]),
                      if Pauses(env, w, preserve) then 1 else 0);
        } else {
          CancellationGoesOut(env, cfg, Block(env, cfg, w, preserve, inner).world, rest, path[1..]);
        }
    }
  }

  /** The run reaches a place at which a cancellation arises. */
  predicate CancelledAt(env: Env, cfg: Config, w: World, body: Body, path: seq<Turn>) {
    var at := Reach(env, cfg, w, body, path);
    at.Some? && CancelledHere(env, cfg, at.value.world, at.value.body)
  }

  lemma {:induction false} FindOrigin(env: Env, cfg: Config, w: World, body: Body) returns (path: seq<Turn>)
    requires Exec(env, cfg, w, body).exn == Some(Cancelled)
    ensures CancelledAt(env, cfg, w, body, path)
    decreases body
  {
    match body
    case Use(rest) =>
      var p := FindOrigin(env, cfg, Log(w, Saw(w.stepping)), rest);
      path := [Past] + p;
      assert path[1..] == p;
    case Throw(_) => path := [];
    case Try(inner, rest) =>
      var ran, p := Exec(env, cfg, w, inner), [];
      if ran.exn == Some(Cancelled) {
        p := FindOrigin(env, cfg, w, inner);
        path := [Into] + p;
      } else {
        p := FindOrigin(env, cfg, ran.world, rest);
        path := [Past] + p;
      }
      assert path[1..] == p;
    case With(preserve, inner, rest) =>
      BlockCancelledExactly(env, cfg, w, preserve, inner, rest);
      var ran, p := Block(env, cfg, w, preserve, inner), [];
      if CancelledHere(env, cfg, w, body) {
        path := [];
      } else if ran.exn.Some? {
        p := FindOrigin(env, cfg, Entered(env, cfg, w, preserve), inner);
        path := [Into] + p;
        assert path[1..] == p;
      } else {
        p := FindOrigin(env, cfg, ran.world, rest);
        path := [Past] + p;
        assert path[1..] == p;
      }
  }

  /** In every tree and against every debugger: the tree ends cancelled if and only if its run reaches a
    * raised cancellation, or a block whose caller is cancelled in its probe, its pause or its exit. None is
    * swallowed and none is made up. */
  lemma CancelledExactly(env: Env, cfg: Config, w: World, body: Body)
    ensures Exec(env, cfg, w, body).exn == Some(Cancelled) <==>
      exists path :: CancelledAt(env, cfg, w, body, path)
  {
    if Exec(env, cfg, w, body).exn == Some(Cancelled) { var path := FindOrigin(env, cfg, w, body); }
    if path :| CancelledAt(env, cfg, w, body, path) {
      var at := Reach(env, cfg, w, body, path).value;
      HereEndsCancelled(env, cfg, at.world, at.body);
      CancellationGoesOut(env, cfg, w, body, path);
    }
  }
}
