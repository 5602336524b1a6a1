/**
  The synchronisation cycle of `sendStackUpdates`: for every stack, look up
  its containers by name, classify and render them, then edit the message
  recorded for the stack's id or send a new one and record its id; save the
  record at the end. The record is the store object below; the orchestration
  API and the chat channel are inputs.
 */
module StackSync {
  import opened Options
  import opened Portainer
  import opened ContainerGroups
  import opened StackStatus
  import opened StackEmbed

  /** The configuration tables the task reads by status code. */
  datatype Config = Config(statusTexts: PerStatus<string>, emojis: PerStatus<string>, colors: PerStatus<Color>)

  /** A fetch from the orchestration API: its value, or the error that aborts the cycle. */
  datatype Fetch<T> = Fetched(value: T) | TransportError

  /** What the channel answers to the request made for one stack: done (with the message id of a send), or an error. */
  datatype Reply = Delivered(messageId: string) | Failed

  /** A request the channel carried out. */
  datatype Action = Sent(stackId: string, embed: Embed) | Edited(messageId: string, embed: Embed)

  /** The message map after some stacks, the requests done so far, and whether no request failed. */
  datatype Run = Run(entries: map<string, string>, actions: seq<Action>, completed: bool)

  datatype Outcome = NoStacks | Saved | Aborted

  /** The in-memory map, the saved file, the requests done and how the cycle ended. */
  datatype CycleResult = CycleResult(entries: map<string, string>, persisted: map<string, string>,
                                     actions: seq<Action>, outcome: Outcome)

  /** The container-map key a stack name is looked up under; an absent name is the string "undefined". */
  function LookupKey(name: Option<string>): string {
    match name
    case Some(n) => n
    case None => "undefined"
  }

  function ContainersOf(groups: Groups, stack: Stack): seq<ContainerInfo> {
    var key := LookupKey(stack.name);
    if key in groups then groups[key] else []
  }

  /** The message of one stack: count, classify and render its containers. */
  function RenderStack(stack: Stack, groups: Groups, cfg: Config): Embed {
    var cs := ContainersOf(groups, stack);
    var running := CountRunning(cs);
    var status := DetermineStackStatus(|cs|, running);
    CreateStackEmbed(stack, cfg.statusTexts.Get(status), running, |cs|, cs,
                     cfg.emojis.Get(status), cfg.colors.Get(status))
  }

  /** The renderer a cycle uses: every stack rendered against the same grouping and configuration. */
  function Renderer(groups: Groups, cfg: Config): Stack -> Embed {
    stack => RenderStack(stack, groups, cfg)
  }

  /** A stack has a live message when its id maps to a non-empty (truthy) message id. */
  predicate Posted(entries: map<string, string>, id: string) {
    id in entries && entries[id] != ""
  }

  /** One iteration of the loop, for the stack at position `pos`. */
  function Step(r: Run, stack: Stack, pos: nat, render: Stack -> Embed, channel: nat -> Reply): Run {
    var embed := render(stack);
    match channel(pos)
    case Failed => Run(r.entries, r.actions, false)
    case Delivered(messageId) =>
      if Posted(r.entries, stack.id) then Run(r.entries, r.actions + [Edited(r.entries[stack.id], embed)], true)
      else Run(r.entries[stack.id := messageId], r.actions + [Sent(stack.id, embed)], true)
  }

  /** The loop over `stacks` from the message map `entries`; a failed request stops it. */
  function Reconcile(entries: map<string, string>, stacks: seq<Stack>, render: Stack -> Embed,
                     channel: nat -> Reply): Run
  {
    if stacks == [] then Run(entries, [], true)
    else
      var r := Reconcile(entries, stacks[..|stacks| - 1], render, channel);
      if !r.completed then r
      else Step(r, stacks[|stacks| - 1], |stacks| - 1, render, channel)
  }

  /** One whole call of the task, from the in-memory map and the saved file. */
  function Cycle(entries: map<string, string>, persisted: map<string, string>,
                 stacks: Fetch<seq<Stack>>, containers: Fetch<seq<Container>>,
                 cfg: Config, channel: nat -> Reply): CycleResult
  {
    if stacks.TransportError? || containers.TransportError? then CycleResult(entries, persisted, [], Aborted)
    else if |stacks.value| == 0 then CycleResult(entries, persisted, [], NoStacks)
    else match Grouped(containers.value)
      case None => CycleResult(entries, persisted, [], Aborted)
      case Some(groups) =>
        var r := Reconcile(entries, stacks.value, Renderer(groups, cfg), channel);
        if r.completed then CycleResult(r.entries, r.entries, r.actions, Saved)
        else CycleResult(r.entries, persisted, r.actions, Aborted)
  }

  function StackIds(stacks: seq<Stack>): set<string> {
    set i | 0 <= i < |stacks| :: stacks[i].id
  }

  /** Every message id the channel hands out is non-empty, as chat message ids are. */
  ghost predicate NonEmptyIds(channel: nat -> Reply) {
    forall k: nat :: channel(k).Delivered? ==> channel(k).messageId != ""
  }

  predicate NoSends(actions: seq<Action>) {
    forall i :: 0 <= i < |actions| ==> !actions[i].Sent?
  }

  /**
    The record of stack messages: `entries` is the in-memory map from stack id
    to message id, `persisted` the map as the data file last received it.
   */
  class StackMessageStore {
    var entries: map<string, string>
    var persisted: map<string, string>

    /** At start-up the in-memory map is empty whatever the data file holds; the file is never read back. */
    constructor (file: map<string, string>)
      ensures entries == map[] && persisted == file
    {
      entries := map[];
      persisted := file;
    }

    /** Writes the whole map to the data file. */
    method Save()
      modifies this
      ensures persisted == entries && entries == old(entries)
    {
      persisted := entries;
    }

    /**
      The loop of the task: for each stack in order, edit its live message or
      send a new one and record its id. Stops at the first failed request.
     */
    method UpdateStacks(stacks: seq<Stack>, groups: Groups, cfg: Config, channel: nat -> Reply)
      returns (actions: seq<Action>, completed: bool)
      modifies this
      ensures Run(entries, actions, completed) == Reconcile(old(entries), stacks, Renderer(groups, cfg), channel)
      ensures persisted == old(persisted)
    {
      ghost var render := Renderer(groups, cfg);
      actions := [];
      var i := 0;
      while i < |stacks|
        invariant 0 <= i <= |stacks|
        invariant Reconcile(old(entries), stacks[..i], render, channel) == Run(entries, actions, true)
        invariant persisted == old(persisted)
      {
        var stack := stacks[i];
        var embed := RenderStack(stack, groups, cfg);
        assert render(stack) == embed;
        assert stacks[..i + 1][..i] == stacks[..i];
        var reply := channel(i);
        if reply.Failed? {
          AbortSticks(old(entries), stacks, i + 1, render, channel);
          return actions, false;
        }
        if Posted(entries, stack.id) {
          actions := actions + [Edited(entries[stack.id], embed)];
        } else {
          entries := entries[stack.id := reply.messageId];
          actions := actions + [Sent(stack.id, embed)];
        }
        i := i + 1;
      }
      assert stacks[..i] == stacks;
      completed := true;
    }

    /**
      One call of the status task: give up on a failed fetch, return early
      when there are no stacks, group the containers, run the loop and save
      the map when the loop completes.
     */
    method SendStackUpdates(stacks: Fetch<seq<Stack>>, containers: Fetch<seq<Container>>,
                            cfg: Config, channel: nat -> Reply)
      returns (actions: seq<Action>, outcome: Outcome)
      modifies this
      ensures CycleResult(entries, persisted, actions, outcome)
              == Cycle(old(entries), old(persisted), stacks, containers, cfg, channel)
    {
      actions := [];
      if stacks.TransportError? || containers.TransportError? {
        return actions, Aborted;
      }
      if |stacks.value| == 0 {
        return actions, NoStacks;
      }
      var grouped := CreateContainerMap(containers.value);
      if grouped.None? {
        return actions, Aborted;
      }
      var completed;
      actions, completed := UpdateStacks(stacks.value, grouped.value, cfg, channel);
      if completed {
        Save();
        outcome := Saved;
      } else {
        outcome := Aborted;
      }
    }
  }

  /** Once a request fails, the rest of the loop does nothing. */
  lemma {:induction false} AbortSticks(entries: map<string, string>, stacks: seq<Stack>, n: nat,
                                       render: Stack -> Embed, channel: nat -> Reply)
    requires n <= |stacks|
    requires !Reconcile(entries, stacks[..n], render, channel).completed
    ensures Reconcile(entries, stacks, render, channel) == Reconcile(entries, stacks[..n], render, channel)
    decreases |stacks|
  {
    if n < |stacks| {
      var init := stacks[..|stacks| - 1];
      assert init[..n] == stacks[..n];
      AbortSticks(entries, init, n, render, channel);
    } else {
      assert stacks[..n] == stacks;
    }
  }

  lemma StackIdsSnoc(stacks: seq<Stack>)
    requires stacks != []
    ensures StackIds(stacks) == StackIds(stacks[..|stacks| - 1]) + {stacks[|stacks| - 1].id}
  {
    var init := stacks[..|stacks| - 1];
    forall id | id in StackIds(stacks) ensures id in StackIds(init) + {stacks[|stacks| - 1].id} {
      var i :| 0 <= i < |stacks| && stacks[i].id == id;
      if i < |init| { assert init[i] == stacks[i]; }
    }
    forall id | id in StackIds(init) ensures id in StackIds(stacks) {
      var i :| 0 <= i < |init| && init[i].id == id;
      assert stacks[i] == init[i];
    }
  }

  /**
    The loop never removes a key and never overwrites a live message id; it
    only adds the ids of stacks it visits, leaves the keys of other stacks as
    they were, and after a complete loop every visited stack id is a key.
   */
  lemma {:induction false} ReconcileGrowsOnly(entries: map<string, string>, stacks: seq<Stack>,
                                              render: Stack -> Embed, channel: nat -> Reply)
    ensures var r := Reconcile(entries, stacks, render, channel);
            && entries.Keys <= r.entries.Keys <= entries.Keys + StackIds(stacks)
            && (forall id :: Posted(entries, id) ==> r.entries[id] == entries[id])
            && (forall id :: id in entries && id !in StackIds(stacks) ==> r.entries[id] == entries[id])
            && (r.completed ==> r.entries.Keys == entries.Keys + StackIds(stacks))
    decreases |stacks|
  {
    if stacks != [] {
      ReconcileGrowsOnly(entries, stacks[..|stacks| - 1], render, channel);
      StackIdsSnoc(stacks);
    }
  }

  /**
    With non-empty message ids, after a complete loop a stack id has a live
    message exactly when it had one before or the loop visited it.
   */
  lemma {:induction false} ReconcilePostsEveryStack(entries: map<string, string>, stacks: seq<Stack>,
                                                    render: Stack -> Embed, channel: nat -> Reply)
    requires NonEmptyIds(channel)
    ensures var r := Reconcile(entries, stacks, render, channel);
            r.completed ==> forall id :: Posted(r.entries, id) <==> Posted(entries, id) || id in StackIds(stacks)
    decreases |stacks|
  {
    if stacks != [] {
      var init := stacks[..|stacks| - 1];
      ReconcilePostsEveryStack(entries, init, render, channel);
      StackIdsSnoc(stacks);
      var last := stacks[|stacks| - 1];
      assert channel(|stacks| - 1).Delivered? ==> channel(|stacks| - 1).messageId != "";
    }
  }

  /**
    With non-empty message ids, a send records the message id the channel
    returned for it under the id of its stack, and a later occurrence of that
    stack in the list (an edit) leaves the record alone.
   */
  lemma {:induction false} ReconcileRecordsSentIds(entries: map<string, string>, stacks: seq<Stack>,
                                                   render: Stack -> Embed, channel: nat -> Reply)
    requires NonEmptyIds(channel)
    ensures var r := Reconcile(entries, stacks, render, channel);
            forall i :: 0 <= i < |r.actions| && r.actions[i].Sent? ==>
              && i < |stacks|
              && r.actions[i].stackId == stacks[i].id
              && channel(i).Delivered?
              && stacks[i].id in r.entries
              && r.entries[stacks[i].id] == channel(i).messageId
    decreases |stacks|
  {
    if stacks != [] {
      var n := |stacks| - 1;
      var init, last := stacks[..n], stacks[n];
      var r0 := Reconcile(entries, init, render, channel);
      var r := Reconcile(entries, stacks, render, channel);
      ReconcileRecordsSentIds(entries, init, render, channel);
      ReconcileStopsAtFailure(entries, init, render, channel);
      ActionsExtend(entries, stacks, render, channel);
      forall i | 0 <= i < |r.actions| && r.actions[i].Sent?
        ensures && i < |stacks| && r.actions[i].stackId == stacks[i].id && channel(i).Delivered?
                && stacks[i].id in r.entries && r.entries[stacks[i].id] == channel(i).messageId
      {
        if i < |r0.actions| {
          assert r.actions[i] == r0.actions[i];
          assert stacks[i] == init[i];
          assert channel(i).messageId != "";
        } else {
          assert i == n;
        }
      }
    }
  }

  /**
    Each request of the loop belongs to the stack at the same position and
    carries that stack's message; the loop stops exactly at the first failed
    request.
   */
  lemma {:induction false} ReconcileStopsAtFailure(entries: map<string, string>, stacks: seq<Stack>,
                                                   render: Stack -> Embed, channel: nat -> Reply)
    ensures var r := Reconcile(entries, stacks, render, channel);
            && |r.actions| <= |stacks|
            && (r.completed <==> |r.actions| == |stacks|)
            && (!r.completed ==> channel(|r.actions|).Failed?)
            && (forall i :: 0 <= i < |r.actions| ==> channel(i).Delivered?)
            && (forall i :: 0 <= i < |r.actions| ==> r.actions[i].embed == render(stacks[i]))
    decreases |stacks|
  {
    if stacks != [] {
      var n := |stacks| - 1;
      var init := stacks[..n];
      ReconcileStopsAtFailure(entries, init, render, channel);
      forall i | 0 <= i < n ensures stacks[i] == init[i] { }
    }
  }

  /**
    A failed request leaves the map as the requests before it left it: when
    the loop stops early, its map is the map of the loop over the stacks it
    served, so the failing stack adds no entry.
   */
  lemma {:induction false} FailedRequestLeavesMap(entries: map<string, string>, stacks: seq<Stack>,
                                                  render: Stack -> Embed, channel: nat -> Reply)
    ensures var r := Reconcile(entries, stacks, render, channel);
            !r.completed ==>
              && |r.actions| < |stacks|
              && r.entries == Reconcile(entries, stacks[..|r.actions|], render, channel).entries
    decreases |stacks|
  {
    if stacks != [] {
      var n := |stacks| - 1;
      var init := stacks[..n];
      var r0 := Reconcile(entries, init, render, channel);
      ReconcileStopsAtFailure(entries, stacks, render, channel);
      ReconcileStopsAtFailure(entries, init, render, channel);
      if !r0.completed {
        FailedRequestLeavesMap(entries, init, render, channel);
        assert init[..|r0.actions|] == stacks[..|r0.actions|];
      } else {
        assert init == stacks[..n];
      }
    }
  }

  /**
    The request for the stack at position `i`: an edit of its live message if
    it had one before the cycle, a send if it had none and occurs at `i` for
    the first time, an edit if it occurred earlier in the list.
   */
  predicate CreateOrEdit(entries: map<string, string>, stacks: seq<Stack>, render: Stack -> Embed,
                         a: Action, i: nat)
    requires i < |stacks|
  {
    var id, embed := stacks[i].id, render(stacks[i]);
    && (Posted(entries, id) ==> a == Edited(entries[id], embed))
    && (!Posted(entries, id) && id !in StackIds(stacks[..i]) ==> a == Sent(id, embed))
    && (id in StackIds(stacks[..i]) ==> a.Edited?)
  }

  /** The request for the last stack, made when the loop got that far. */
  lemma LastCreateOrEdit(entries: map<string, string>, stacks: seq<Stack>,
                         render: Stack -> Embed, channel: nat -> Reply)
    requires NonEmptyIds(channel)
    requires stacks != []
    requires Reconcile(entries, stacks[..|stacks| - 1], render, channel).completed
    requires channel(|stacks| - 1).Delivered?
    ensures var r := Reconcile(entries, stacks, render, channel);
            |r.actions| == |stacks| && CreateOrEdit(entries, stacks, render, r.actions[|stacks| - 1], |stacks| - 1)
  {
    var n := |stacks| - 1;
    var init, last := stacks[..n], stacks[n];
    var r0 := Reconcile(entries, init, render, channel);
    ReconcileStopsAtFailure(entries, init, render, channel);
    ReconcileGrowsOnly(entries, init, render, channel);
    ReconcilePostsEveryStack(entries, init, render, channel);
    assert Posted(r0.entries, last.id) <==> Posted(entries, last.id) || last.id in StackIds(init);
  }

  /** A longer list only appends requests, and only when the shorter one completed without failure. */
  lemma ActionsExtend(entries: map<string, string>, stacks: seq<Stack>,
                      render: Stack -> Embed, channel: nat -> Reply)
    requires stacks != []
    ensures var r0 := Reconcile(entries, stacks[..|stacks| - 1], render, channel);
            var r := Reconcile(entries, stacks, render, channel);
            && r0.actions <= r.actions
            && (|r.actions| > |r0.actions| ==> r0.completed && channel(|stacks| - 1).Delivered?)
  {
  }

  /**
    With non-empty message ids, every request of the loop is the one
    `CreateOrEdit` describes: one send for each stack id without a live
    message, at its first occurrence, and edits otherwise.
   */
  lemma {:induction false} ReconcileCreateOrEdit(entries: map<string, string>, stacks: seq<Stack>,
                                                 render: Stack -> Embed, channel: nat -> Reply)
    requires NonEmptyIds(channel)
    ensures var r := Reconcile(entries, stacks, render, channel);
            && |r.actions| <= |stacks|
            && forall i :: 0 <= i < |r.actions| ==> CreateOrEdit(entries, stacks, render, r.actions[i], i)
    decreases |stacks|
  {
    ReconcileStopsAtFailure(entries, stacks, render, channel);
    if stacks != [] {
      var n := |stacks| - 1;
      var init := stacks[..n];
      var r0 := Reconcile(entries, init, render, channel);
      var r := Reconcile(entries, stacks, render, channel);
      ReconcileCreateOrEdit(entries, init, render, channel);
      ActionsExtend(entries, stacks, render, channel);
      forall i | 0 <= i < |r.actions| ensures CreateOrEdit(entries, stacks, render, r.actions[i], i) {
        if i < |r0.actions| {
          assert stacks[i] == init[i] && stacks[..i] == init[..i];
          assert r.actions[i] == r0.actions[i];
          assert CreateOrEdit(entries, init, render, r0.actions[i], i);
        } else {
          ReconcileStopsAtFailure(entries, init, render, channel);
          LastCreateOrEdit(entries, stacks, render, channel);
        }
      }
    }
  }

  /** When every stack already has a live message, the loop sends nothing and leaves the map as it is. */
  lemma {:induction false} AllPostedNoSends(entries: map<string, string>, stacks: seq<Stack>,
                                            render: Stack -> Embed, channel: nat -> Reply)
    requires forall i :: 0 <= i < |stacks| ==> Posted(entries, stacks[i].id)
    ensures var r := Reconcile(entries, stacks, render, channel);
            NoSends(r.actions) && r.entries == entries
    decreases |stacks|
  {
    if stacks != [] {
      var init := stacks[..|stacks| - 1];
      forall i | 0 <= i < |init| ensures Posted(entries, init[i].id) { assert init[i] == stacks[i]; }
      AllPostedNoSends(entries, init, render, channel);
    }
  }

  /**
    Running the loop a second time over the same stacks, from the map the
    first complete loop left, sends nothing and changes nothing in the map,
    whatever the containers, configuration and channel of the second run.
   */
  lemma ReconcileIdempotent(entries: map<string, string>, stacks: seq<Stack>,
                            render: Stack -> Embed, channel: nat -> Reply,
                            render': Stack -> Embed, channel': nat -> Reply)
    requires NonEmptyIds(channel)
    requires Reconcile(entries, stacks, render, channel).completed
    ensures var r := Reconcile(entries, stacks, render, channel);
            var r' := Reconcile(r.entries, stacks, render', channel');
            NoSends(r'.actions) && r'.entries == r.entries
  {
    var r := Reconcile(entries, stacks, render, channel);
    ReconcilePostsEveryStack(entries, stacks, render, channel);
    forall i | 0 <= i < |stacks| ensures Posted(r.entries, stacks[i].id) {
      assert stacks[i].id in StackIds(stacks);
    }
    AllPostedNoSends(r.entries, stacks, render', channel');
  }

  /**
    A cycle keeps every key and every live message id of the map; the data
    file receives the whole map when the cycle completes and is untouched
    otherwise; a cycle that has no stacks changes nothing.
   */
  lemma CycleKeepsRecord(entries: map<string, string>, persisted: map<string, string>,
                         stacks: Fetch<seq<Stack>>, containers: Fetch<seq<Container>>,
                         cfg: Config, channel: nat -> Reply)
    ensures var c := Cycle(entries, persisted, stacks, containers, cfg, channel);
            && entries.Keys <= c.entries.Keys
            && (forall id :: Posted(entries, id) ==> c.entries[id] == entries[id])
            && (stacks.Fetched? ==> forall id :: id in entries && id !in StackIds(stacks.value) ==> c.entries[id] == entries[id])
            && (c.outcome == Saved ==> c.persisted == c.entries)
            && (c.outcome != Saved ==> c.persisted == persisted)
            && (stacks == Fetched([]) ==> c.entries == entries && c.persisted == persisted && c.actions == [])
  {
    if stacks.Fetched? && containers.Fetched? && |stacks.value| > 0 && AllNamed(containers.value) {
      ReconcileGrowsOnly(entries, stacks.value, Renderer(GroupsOf(containers.value), cfg), channel);
    }
  }

  /**
    A call aborted after the loop began keeps the map the requests served
    before the failure left it, and keeps the file; a call aborted earlier
    (a failed fetch, a container without a name) changes nothing.
   */
  lemma AbortedCycleKeepsServedPrefix(entries: map<string, string>, persisted: map<string, string>,
                                      stacks: Fetch<seq<Stack>>, containers: Fetch<seq<Container>>,
                                      cfg: Config, channel: nat -> Reply)
    ensures var c := Cycle(entries, persisted, stacks, containers, cfg, channel);
            c.outcome == Aborted ==>
              && c.persisted == persisted
              && (if stacks.Fetched? && containers.Fetched? && Grouped(containers.value).Some? then
                    && |c.actions| < |stacks.value|
                    && c.entries == Reconcile(entries, stacks.value[..|c.actions|],
                                              Renderer(Grouped(containers.value).value, cfg), channel).entries
                  else c.entries == entries && c.actions == [])
  {
    if stacks.Fetched? && containers.Fetched? && |stacks.value| > 0 && AllNamed(containers.value) {
      FailedRequestLeavesMap(entries, stacks.value, Renderer(GroupsOf(containers.value), cfg), channel);
    }
  }

  /**
    With non-empty message ids, every send of a cycle is recorded in the map
    under its stack's id, with the message id the channel returned for it.
   */
  lemma CycleRecordsSentIds(entries: map<string, string>, persisted: map<string, string>,
                            stacks: Fetch<seq<Stack>>, containers: Fetch<seq<Container>>,
                            cfg: Config, channel: nat -> Reply)
    requires NonEmptyIds(channel)
    ensures var c := Cycle(entries, persisted, stacks, containers, cfg, channel);
            forall i :: 0 <= i < |c.actions| && c.actions[i].Sent? ==>
              && stacks.Fetched? && i < |stacks.value|
              && c.actions[i].stackId == stacks.value[i].id
              && channel(i).Delivered?
              && stacks.value[i].id in c.entries
              && c.entries[stacks.value[i].id] == channel(i).messageId
  {
    if stacks.Fetched? && containers.Fetched? && |stacks.value| > 0 && AllNamed(containers.value) {
      assert Grouped(containers.value) == Some(GroupsOf(containers.value));
      var r := Reconcile(entries, stacks.value, Renderer(GroupsOf(containers.value), cfg), channel);
      ReconcileRecordsSentIds(entries, stacks.value, Renderer(GroupsOf(containers.value), cfg), channel);
      var c := Cycle(entries, persisted, stacks, containers, cfg, channel);
      assert c.entries == r.entries && c.actions == r.actions;
    }
  }

  /**
    The first cycle after start-up runs from an empty map, whatever the data
    file holds: with non-empty message ids, when it completes, each stack id
    is sent a new message at its first occurrence, and the file is replaced by
    a map whose keys are exactly the ids of the stacks.
   */
  lemma StartUpCycleReplacesFile(file: map<string, string>,
                                 stacks: Fetch<seq<Stack>>, containers: Fetch<seq<Container>>,
                                 cfg: Config, channel: nat -> Reply)
    requires NonEmptyIds(channel)
    requires Cycle(map[], file, stacks, containers, cfg, channel).outcome == Saved
    ensures var c := Cycle(map[], file, stacks, containers, cfg, channel);
            && c.persisted.Keys == StackIds(stacks.value)
            && |c.actions| == |stacks.value|
            && forall i :: 0 <= i < |stacks.value| && stacks.value[i].id !in StackIds(stacks.value[..i]) ==>
                 c.actions[i].Sent? && c.actions[i].stackId == stacks.value[i].id
  {
    var render := Renderer(GroupsOf(containers.value), cfg);
    var r := Reconcile(map[], stacks.value, render, channel);
    ReconcileGrowsOnly(map[], stacks.value, render, channel);
    ReconcileStopsAtFailure(map[], stacks.value, render, channel);
    ReconcileCreateOrEdit(map[], stacks.value, render, channel);
    forall i | 0 <= i < |stacks.value| && stacks.value[i].id !in StackIds(stacks.value[..i])
      ensures r.actions[i].Sent? && r.actions[i].stackId == stacks.value[i].id
    {
      assert CreateOrEdit(map[], stacks.value, render, r.actions[i], i);
    }
  }

  /**
    Two consecutive cycles over the same stacks and containers: when the
    first completes, the second sends no new message and leaves the map and
    the data file as the first left them.
   */
  lemma CycleIdempotent(entries: map<string, string>, persisted: map<string, string>,
                        stacks: Fetch<seq<Stack>>, containers: Fetch<seq<Container>>,
                        cfg: Config, channel: nat -> Reply, channel': nat -> Reply)
    requires NonEmptyIds(channel)
    requires Cycle(entries, persisted, stacks, containers, cfg, channel).outcome == Saved
    ensures var c := Cycle(entries, persisted, stacks, containers, cfg, channel);
            var c' := Cycle(c.entries, c.persisted, stacks, containers, cfg, channel');
            NoSends(c'.actions) && c'.entries == c.entries && c'.persisted == c.persisted
  {
    var render := Renderer(GroupsOf(containers.value), cfg);
    ReconcileIdempotent(entries, stacks.value, render, channel, render, channel');
  }

  /**
    The message of a stack shows the status text, running count and total of
    the containers found under its name, lists those containers with their
    markers, titles the stack by name, and takes the colour of its status.
   */
  lemma RenderStackReadsBack(stack: Stack, groups: Groups, cfg: Config)
    requires forall s: Status :: '\n' !in cfg.statusTexts.Get(s)
    requires NoNewlines(ContainersOf(groups, stack))
    ensures var cs := ContainersOf(groups, stack);
            var status := DetermineStackStatus(|cs|, CountRunning(cs));
            var e := RenderStack(stack, groups, cfg);
            && e.color == cfg.colors.Get(status)
            && TitleName(e.title, cfg.emojis.Get(status)) == Some(DisplayName(stack.name))
            && |e.fields| == 2
            && e.fields[0].name == "General Information"
            && ParseGeneralInfo(e.fields[0].value) == Some((cfg.statusTexts.Get(status), CountRunning(cs), |cs|))
            && e.fields[1].name == "Containers"
            && ParseContainerList(e.fields[1].value) == Some(Shown(cs))
  {
    var cs := ContainersOf(groups, stack);
    var status := DetermineStackStatus(|cs|, CountRunning(cs));
    TitleShowsName(cfg.emojis.Get(status), stack.name);
    GeneralInfoRoundTrip(cfg.statusTexts.Get(status), CountRunning(cs), |cs|);
    ContainerListRoundTrip(cs);
  }
}
