/** Worked cycles over small concrete inputs. */
module Scenarios {
  import opened Options
  import opened Strings
  import opened Portainer
  import opened ContainerGroups
  import opened StackStatus
  import opened StackEmbed
  import opened StackSync

  const WEB_STACKS: seq<Stack> := [Stack("s1", Some("web"))]
  const WEB_CONTAINERS: seq<Container> := [Container(["/web_1"], "running", map[PROJECT_LABEL := "web"])]

  /** The container "/web_1" of project "web" is grouped as "web_1" under "web". */
  lemma WebGrouping()
    ensures Grouped(WEB_CONTAINERS) == Some(map["web" := [ContainerInfo("web_1", "running")]])
  {
    var cs := WEB_CONTAINERS;
    var info := ContainerInfo("web_1", "running");
    assert HasName(cs[0]);
    assert RemoveFirst("/web_1", '/') == "web_1";
    assert Info(cs[0]) == info;
    assert ProjectOf(cs[0]) == "web";
    assert ProjectsOf(cs) == {"web"};
    assert cs[..0] == [];
    assert Bucket(cs, "web") == [info];
    assert AllNamed(cs);
    var g := GroupsOf(cs);
    assert g.Keys == {"web"};
    assert g["web"] == [info];
    assert g == map["web" := [info]];
  }

  lemma WebContainerList()
    ensures ContainerList([ContainerInfo("web_1", "running")]) == "- \U{1F7E2} **web_1**"
  {
    var info := ContainerInfo("web_1", "running");
    assert ContainerLine(info) == "- \U{1F7E2} **web_1**";
    assert Lines([info]) == ["- \U{1F7E2} **web_1**"];
  }

  lemma OneOfOne(statusText: string)
    ensures GeneralInfo(statusText, 1, 1) == "**Status:** " + statusText + "\n**Containers:** 1/1"
  {
    assert NatToString(1) == "1";
  }

  lemma WebRender(cfg: Config)
    ensures RenderStack(WEB_STACKS[0], map["web" := [ContainerInfo("web_1", "running")]], cfg)
            == Embed(cfg.emojis.running + " **web**", cfg.colors.running,
                 [Field("General Information", "**Status:** " + cfg.statusTexts.running + "\n**Containers:** 1/1", true),
                  Field("Containers", "- \U{1F7E2} **web_1**", true)])
  {
    var info := ContainerInfo("web_1", "running");
    assert [info][..0] == [];
    assert CountRunning([info]) == 1;
    WebContainerList();
    OneOfOne(cfg.statusTexts.running);
  }

  /**
    One stack "web" (id "s1") with one running container "/web_1": the first
    cycle from an empty map sends one message for "s1" (the one `WebRender`
    spells out), records the id the channel returns, and saves the map,
    whatever the data file held before.
   */
  lemma FirstCycleSendsOneMessage(cfg: Config, channel: nat -> Reply, file: map<string, string>)
    requires channel(0).Delivered?
    ensures var c := Cycle(map[], file, Fetched(WEB_STACKS), Fetched(WEB_CONTAINERS), cfg, channel);
            && c.outcome == Saved
            && c.entries == map["s1" := channel(0).messageId]
            && c.persisted == c.entries
            && c.actions == [Sent("s1", RenderStack(WEB_STACKS[0], map["web" := [ContainerInfo("web_1", "running")]], cfg))]
  {
    WebGrouping();
    assert WEB_STACKS[..0] == [];
  }

  /**
    A restart: the store is built over a data file that already records a
    message for "s1" (and for a stack "s2" that no longer exists). The file
    is not read back, so the first cycle sends a new message for "s1" instead
    of editing the recorded one, and the save replaces the file by a map that
    holds only the new message id.
   */
  method RestartedStoreSendsAgain(cfg: Config, channel: nat -> Reply)
    returns (store: StackMessageStore, actions: seq<Action>, outcome: Outcome)
    requires channel(0).Delivered?
    ensures outcome == Saved
    ensures actions == [Sent("s1", RenderStack(WEB_STACKS[0], map["web" := [ContainerInfo("web_1", "running")]], cfg))]
    ensures store.entries == map["s1" := channel(0).messageId]
    ensures store.persisted == map["s1" := channel(0).messageId]
  {
    var file := map["s1" := "1001", "s2" := "1002"];
    store := new StackMessageStore(file);
    actions, outcome := store.SendStackUpdates(Fetched(WEB_STACKS), Fetched(WEB_CONTAINERS), cfg, channel);
    FirstCycleSendsOneMessage(cfg, channel, file);
  }

  /** The same stack with no containers: offline, "0/0", and "No containers found.". */
  lemma StackWithoutContainersIsOffline(cfg: Config)
    ensures var e := RenderStack(WEB_STACKS[0], map[], cfg);
            && e.title == cfg.emojis.offline + " **web**"
            && e.color == cfg.colors.offline
            && e.fields[0].value == "**Status:** " + cfg.statusTexts.offline + "\n**Containers:** 0/0"
            && e.fields[1].value == "No containers found."
  {
    // No bucket for "web": zero containers, hence offline with the counts "0/0".
  }

  const MIXED_BUCKET: seq<ContainerInfo> := [ContainerInfo("web_1", "running"), ContainerInfo("web_2", "exited")]

  lemma MixedContainerList()
    ensures ContainerList(MIXED_BUCKET) == "- \U{1F7E2} **web_1**\n- \U{1F534} **web_2**"
  {
    var cs := MIXED_BUCKET;
    var green, red := "- \U{1F7E2} **web_1**", "- \U{1F534} **web_2**";
    assert ContainerLine(cs[0]) == green;
    assert Marker("exited") == RED_CIRCLE;
    assert ContainerLine(cs[1]) == red;
    assert Lines(cs) == [green, red];
    assert Join([green, red], '\n') == green + "\n" + Join([red], '\n');
  }

  lemma OneRunningOfTwo(statusText: string)
    ensures CountRunning(MIXED_BUCKET) == 1
    ensures GeneralInfo(statusText, 1, 2) == "**Status:** " + statusText + "\n**Containers:** 1/2"
  {
    var cs := MIXED_BUCKET;
    assert cs[..1] == [cs[0]] && [cs[0]][..0] == [];
    assert NatToString(1) == "1" && NatToString(2) == "2";
  }

  /** One of two containers running: partially running, "1/2", a green and a red line. */
  lemma MixedRender(cfg: Config)
    ensures var e := RenderStack(WEB_STACKS[0], map["web" := MIXED_BUCKET], cfg);
            && e.title == cfg.emojis.partiallyRunning + " **web**"
            && e.color == cfg.colors.partiallyRunning
            && e.fields[0].value == "**Status:** " + cfg.statusTexts.partiallyRunning + "\n**Containers:** 1/2"
            && e.fields[1].value == "- \U{1F7E2} **web_1**\n- \U{1F534} **web_2**"
  {
    assert ContainersOf(map["web" := MIXED_BUCKET], WEB_STACKS[0]) == MIXED_BUCKET;
    OneRunningOfTwo(cfg.statusTexts.partiallyRunning);
    MixedContainerList();
  }
}
