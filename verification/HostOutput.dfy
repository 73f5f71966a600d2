/** What a terminal has shown and keeps for replay, over whole runs of the host. */
module HostOutput {
  import opened Bytes
  import opened TerminalModel
  import opened TerminalInvariants
  import opened HostModel
  import opened HostInvariants
  import opened HostRuns
  import Filter = Osc52Filter

  predicate Delivers(a: Action, id: Uuid) {
    a.On? && a.id == id && a.command.DoPtyBytes?
  }

  /** The chunks of output that the actions deliver to terminal `id`, in order. */
  function Delivered(actions: seq<Action>, id: Uuid): (chunks: seq<seq<byte>>)
    decreases |actions|
  {
    if actions == [] then []
    else (if Delivers(actions[0], id) then [actions[0].command.bytes] else []) + Delivered(actions[1..], id)
  }

  lemma PerformKeepsOutput(t: Terminal, c: Command, cfg: Config)
    requires !c.DoPtyBytes? && !Perform(t, c, cfg).term.closed
    ensures var t' := Perform(t, c, cfg).term; t'.filter == t.filter && t'.replay == t.replay
  {
    hide Swept, Kept, ValidImage;
  }

  /** Only output and a close touch the filter or the replay buffer. */
  lemma StepKeepsOutput(h: Host, a: Action, id: Uuid, cfg: Config)
    requires Enabled(h, a, cfg) && id in h.terminals && !Delivers(a, id)
    ensures var h' := Step(h, a, cfg).0;
            && id in h'.terminals
            && (!h'.terminals[id].closed ==>
                  h'.terminals[id].filter == h.terminals[id].filter
                      && h'.terminals[id].replay == h.terminals[id].replay)
  {
    hide Perform, Step, Enabled, ValidMetadata, Swept, Kept;
    StepTouches(h, a, id, cfg);
    if About(a, id) && a.On? && !Perform(h.terminals[id], a.command, cfg).term.closed {
      PerformKeepsOutput(h.terminals[id], a.command, cfg);
    }
  }

  /** One chunk: the filter reads it, and what it shows goes into the replay buffer. */
  lemma StepShows(h: Host, a: Action, id: Uuid, cfg: Config)
    requires Enabled(h, a, cfg) && id in h.terminals && Delivers(a, id) && !h.terminals[id].closed
    ensures var (f, out) := Filter.Push(h.terminals[id].filter, a.command.bytes, cfg.osc52Cap);
            var h' := Step(h, a, cfg).0;
            && id in h'.terminals && h'.terminals[id].filter == f
            && (|h.terminals[id].replay| <= cfg.replayCap ==>
                  h'.terminals[id].replay == Last(h.terminals[id].replay + out.passthrough, cfg.replayCap))
  {
    hide Filter.Push, ReleaseQuota;
    var t := h.terminals[id];
    var out := Filter.Push(t.filter, a.command.bytes, cfg.osc52Cap).1;
    assert out.passthrough == [] ==> t.replay + out.passthrough == t.replay;
  }

  /** The filter has read `chunks` since it was `f`, and the buffer has kept what that showed after `replay`. */
  ghost predicate Showed(t: Terminal, f: Filter.Filter, replay: seq<byte>, chunks: seq<seq<byte>>, cfg: Config) {
    var (f', out) := Filter.Run(f, chunks, cfg.osc52Cap);
    t.filter == f' && t.replay == Last(replay + out.passthrough, cfg.replayCap)
  }

  lemma ShowedNothing(t: Terminal, cfg: Config)
    requires |t.replay| <= cfg.replayCap
    ensures Showed(t, t.filter, t.replay, [], cfg)
  {
    assert t.replay + [] == t.replay;
  }

  lemma ShowedMore(t: Terminal, f: Filter.Filter, replay: seq<byte>, chunk: seq<byte>, chunks: seq<seq<byte>>,
                   cfg: Config)
    requires var (f1, out) := Filter.Push(f, chunk, cfg.osc52Cap);
             Showed(t, f1, Last(replay + out.passthrough, cfg.replayCap), chunks, cfg)
    ensures Showed(t, f, replay, [chunk] + chunks, cfg)
  {
    hide Filter.Push;
    var (f1, out) := Filter.Push(f, chunk, cfg.osc52Cap);
    assert ([chunk] + chunks)[0] == chunk && ([chunk] + chunks)[1..] == chunks;
    var rest := Filter.Run(f1, chunks, cfg.osc52Cap).1.passthrough;
    LastOfLast(replay + out.passthrough, rest, cfg.replayCap);
    Assoc(replay, out.passthrough, rest);
  }

  lemma {:induction false} RunShows(h: Host, actions: seq<Action>, id: Uuid, cfg: Config)
    requires HostOk(h, cfg) && Legal(h, actions, cfg) && id in h.terminals
    ensures var h' := Run(h, actions, cfg);
            && id in h'.terminals
            && (!h'.terminals[id].closed ==>
                  Showed(h'.terminals[id], h.terminals[id].filter, h.terminals[id].replay, Delivered(actions, id), cfg))
    decreases |actions|
  {
    hide HostOk, Step, Enabled, Showed, Filter.Push, Delivered;
    DeliveredNext(actions, id);
    if actions == [] {
      ReplayFits(h, id, cfg);
      ShowedNothing(h.terminals[id], cfg);
    } else {
      var h1, h' := Step(h, actions[0], cfg).0, Run(h, actions, cfg);
      StepTouches(h, actions[0], id, cfg);
      StepKeepsOk(h, actions[0], cfg);
      RunShows(h1, actions[1..], id, cfg);
      if !h'.terminals[id].closed {
        StillOpen(h, actions, id, cfg);
        hide Run, Legal;
        ShowsBefore(h, actions, id, h'.terminals[id], cfg);
      }
    }
  }

  lemma DeliveredNext(actions: seq<Action>, id: Uuid)
    ensures Delivered(actions, id) ==
            if actions == [] then []
            else if Delivers(actions[0], id) then [actions[0].command.bytes] + Delivered(actions[1..], id)
            else Delivered(actions[1..], id)
  {
  }

  lemma ReplayFits(h: Host, id: Uuid, cfg: Config)
    requires HostOk(h, cfg) && id in h.terminals
    ensures |h.terminals[id].replay| <= cfg.replayCap
  {
    hide BindingsOk, CloseOk, JournalOk, Conserved, WithinLimits;
    assert TerminalOk(h.terminals[id], cfg);
  }

  /** What was shown after the first action, seen from before it. */
  lemma ShowsBefore(h: Host, actions: seq<Action>, id: Uuid, t: Terminal, cfg: Config)
    requires HostOk(h, cfg) && actions != [] && Enabled(h, actions[0], cfg) && id in h.terminals
            && !h.terminals[id].closed
    requires var h1 := Step(h, actions[0], cfg).0;
             && id in h1.terminals && !h1.terminals[id].closed
             && Showed(t, h1.terminals[id].filter, h1.terminals[id].replay, Delivered(actions[1..], id), cfg)
    ensures Showed(t, h.terminals[id].filter, h.terminals[id].replay, Delivered(actions, id), cfg)
  {
    hide HostOk, Step, Enabled, Showed, Filter.Push, Delivered;
    var a, was := actions[0], h.terminals[id];
    DeliveredNext(actions, id);
    ReplayFits(h, id, cfg);
    if Delivers(a, id) {
      StepShows(h, a, id, cfg);
      ShowedMore(t, was.filter, was.replay, a.command.bytes, Delivered(actions[1..], id), cfg);
    } else {
      StepKeepsOutput(h, a, id, cfg);
    }
  }

  /** A terminal that is open at the end was open all along. */
  lemma StillOpen(h: Host, actions: seq<Action>, id: Uuid, cfg: Config)
    requires HostOk(h, cfg) && actions != [] && Legal(h, actions, cfg) && id in h.terminals
    requires id in Run(h, actions, cfg).terminals && !Run(h, actions, cfg).terminals[id].closed
    ensures !h.terminals[id].closed
    ensures var h1 := Step(h, actions[0], cfg).0; id in h1.terminals && !h1.terminals[id].closed
  {
    hide HostOk, Step, Enabled, Run, Legal, Closes, Violations;
    UnfoldRun(h, actions, cfg);
    StepTouches(h, actions[0], id, cfg);
    StepKeepsOk(h, actions[0], cfg);
    RunFollows(h, actions, id, cfg);
    RunFollows(Step(h, actions[0], cfg).0, actions[1..], id, cfg);
  }

  lemma BeforeSpawn(h: Host, a: Action, id: Uuid, cfg: Config)
    requires Enabled(h, a, cfg) && id !in h.terminals
    ensures !Delivers(a, id)
    ensures var h' := Step(h, a, cfg).0; id in h'.terminals ==> h'.terminals[id] == SPAWNED
  {
    hide Perform, BeginSweep, BeginMain, ReleaseQuota, ChargeQuota, CanPerform;
  }

  lemma {:induction false} SpawnedShows(h: Host, actions: seq<Action>, id: Uuid, cfg: Config)
    requires HostOk(h, cfg) && Legal(h, actions, cfg) && id !in h.terminals
    requires id in Run(h, actions, cfg).terminals && !Run(h, actions, cfg).terminals[id].closed
    ensures Showed(Run(h, actions, cfg).terminals[id], Filter.FRESH, [], Delivered(actions, id), cfg)
    decreases |actions|
  {
    hide HostOk, Step, Enabled, Showed;
    var a, rest := actions[0], actions[1..];
    var h1 := Step(h, a, cfg).0;
    BeforeSpawn(h, a, id, cfg);
    StepKeepsOk(h, a, cfg);
    assert [] + Delivered(rest, id) == Delivered(rest, id);
    if id in h1.terminals {
      RunShows(h1, rest, id, cfg);
    } else {
      SpawnedShows(h1, rest, id, cfg);
    }
  }

  /**
    In every state of every run, whatever else went on in between: an open terminal's filter has read
    exactly the chunks delivered since it was spawned, and its replay is the tail of what they showed.
  */
  lemma ReplayIsTailOfShown(actions: seq<Action>, id: Uuid, cfg: Config)
    requires Legal(NO_TERMINALS, actions, cfg)
    requires id in Run(NO_TERMINALS, actions, cfg).terminals && !Run(NO_TERMINALS, actions, cfg).terminals[id].closed
    ensures var t := Run(NO_TERMINALS, actions, cfg).terminals[id];
            var (f, out) := Filter.Run(Filter.FRESH, Delivered(actions, id), cfg.osc52Cap);
            t.filter == f && t.replay == Last(out.passthrough, cfg.replayCap)
  {
    hide Legal, Run, Filter.Run, Delivered;
    NoTerminalsOk(cfg);
    SpawnedShows(NO_TERMINALS, actions, id, cfg);
    var out := Filter.Run(Filter.FRESH, Delivered(actions, id), cfg.osc52Cap).1;
    assert [] + out.passthrough == out.passthrough;
  }
}
