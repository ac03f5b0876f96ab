/**
 * Views of an effect trace used to state what the commands do: the
 * effects that touch the workspace, and the services whose update was
 * forced.
 */
module Traces {
  import opened Process
  import opened Host

  /** Removing, creating or cloning into a directory of the workspace. */
  predicate TouchesWorkspace(e: Effect) {
    e.RemoveAll? || e.MkdirAll? || e.Clone?
  }

  /** The effects of `effects` that touch the workspace, in order. */
  function WorkspaceEffects(effects: seq<Effect>): seq<Effect> {
    if effects == [] then []
    else
      var e := effects[|effects| - 1];
      WorkspaceEffects(effects[..|effects| - 1]) + (if TouchesWorkspace(e) then [e] else [])
  }

  /** The services whose update `effects` forces, in order. */
  function UpdatedServices(effects: seq<Effect>): seq<string> {
    if effects == [] then []
    else
      var e := effects[|effects| - 1];
      UpdatedServices(effects[..|effects| - 1]) + (if e.UpdateService? then [e.serviceID] else [])
  }

  /** Exactly the workspace effects are kept. */
  lemma {:induction false} WorkspaceEffectsSpec(effects: seq<Effect>)
    ensures forall e :: e in WorkspaceEffects(effects) <==> e in effects && TouchesWorkspace(e)
  {
    if effects != [] {
      var init, last := effects[..|effects| - 1], effects[|effects| - 1];
      WorkspaceEffectsSpec(init);
      assert effects == init + [last];
      forall e ensures e in effects <==> e in init || e == last {
      }
    }
  }

  /** The view of a concatenation is the concatenation of the views. */
  lemma {:induction false} WorkspaceEffectsAppend(a: seq<Effect>, b: seq<Effect>)
    ensures WorkspaceEffects(a + b) == WorkspaceEffects(a) + WorkspaceEffects(b)
  {
    if b != [] {
      var init := b[..|b| - 1];
      WorkspaceEffectsAppend(a, init);
      assert (a + b)[..|a + b| - 1] == a + init && (a + b)[|a + b| - 1] == b[|b| - 1];
    } else {
      assert a + b == a;
    }
  }

  lemma {:induction false} UpdatedServicesAppend(a: seq<Effect>, b: seq<Effect>)
    ensures UpdatedServices(a + b) == UpdatedServices(a) + UpdatedServices(b)
  {
    if b != [] {
      var init := b[..|b| - 1];
      UpdatedServicesAppend(a, init);
      assert (a + b)[..|a + b| - 1] == a + init && (a + b)[|a + b| - 1] == b[|b| - 1];
    } else {
      assert a + b == a;
    }
  }

  /** Running processes touches no directory and updates no service. */
  lemma {:induction false} ExecsQuiet(commands: seq<Command>)
    ensures WorkspaceEffects(Execs(commands)) == [] && UpdatedServices(Execs(commands)) == []
  {
    if commands != [] {
      var init := commands[..|commands| - 1];
      ExecsQuiet(init);
    }
  }

  /** The updates of a list of services are the updates of exactly those services, in order. */
  lemma {:induction false} UpdatesView(ids: seq<string>)
    ensures WorkspaceEffects(Updates(ids)) == [] && UpdatedServices(Updates(ids)) == ids
  {
    if ids != [] {
      var init := ids[..|ids| - 1];
      UpdatesView(init);
      assert ids == init + [ids[|ids| - 1]];
    }
  }

  /** A trace without update effects updates no service. */
  lemma {:induction false} NoUpdatesIn(effects: seq<Effect>)
    requires forall e :: e in effects ==> !e.UpdateService?
    ensures UpdatedServices(effects) == []
  {
    if effects != [] {
      var init := effects[..|effects| - 1];
      assert forall e :: e in init ==> e in effects;
      NoUpdatesIn(init);
    }
  }

  /** An effect that touches no directory adds nothing to the workspace view. */
  lemma QuietStep(effects: seq<Effect>, e: Effect)
    requires !TouchesWorkspace(e)
    ensures WorkspaceEffects(effects + [e]) == WorkspaceEffects(effects)
  {
    assert (effects + [e])[..|effects|] == effects;
  }

  /** A trace made of workspace effects only is its own workspace view and updates no service. */
  lemma AllTouch(effects: seq<Effect>)
    requires forall e :: e in effects ==> TouchesWorkspace(e)
    ensures WorkspaceEffects(effects) == effects && UpdatedServices(effects) == []
  {
    NoUpdatesIn(effects);
    AllTouchView(effects);
  }

  /** The workspace view of a trace of workspace effects is the trace itself. */
  lemma {:induction false} AllTouchView(effects: seq<Effect>)
    requires forall e :: e in effects ==> TouchesWorkspace(e)
    ensures WorkspaceEffects(effects) == effects
  {
    if effects != [] {
      var init, last := effects[..|effects| - 1], effects[|effects| - 1];
      assert effects == init + [last];
      assert forall e :: e in init ==> e in effects;
      AllTouchView(init);
    }
  }

  /** Appending a trace whose workspace view is empty leaves the workspace view as it was. */
  lemma QuietTail(effects: seq<Effect>, tail: seq<Effect>)
    requires WorkspaceEffects(tail) == []
    ensures WorkspaceEffects(effects + tail) == WorkspaceEffects(effects)
  {
    WorkspaceEffectsAppend(effects, tail);
  }

  /** The updates of one more service end with its update. */
  lemma UpdatesSnoc(ids: seq<string>, id: string)
    ensures Updates(ids + [id]) == Updates(ids) + [UpdateService(id)]
  {
    assert (ids + [id])[..|ids|] == ids;
  }

  /** One `Exec` effect per command, in order. */
  lemma {:induction false} ExecsSpec(commands: seq<Command>)
    ensures |Execs(commands)| == |commands|
    ensures forall k :: 0 <= k < |commands| ==> Execs(commands)[k] == Exec(commands[k])
  {
    if commands != [] {
      ExecsSpec(commands[..|commands| - 1]);
    }
  }

  /** One `UpdateService` effect per identifier, in order. */
  lemma {:induction false} UpdatesSpec(ids: seq<string>)
    ensures |Updates(ids)| == |ids|
    ensures forall k :: 0 <= k < |ids| ==> Updates(ids)[k] == UpdateService(ids[k])
  {
    if ids != [] {
      UpdatesSpec(ids[..|ids| - 1]);
    }
  }
}
