/**
  The text of a stack's status message, as `createStackEmbed` builds it: the
  title, the "General Information" field and the "Containers" field. The
  parsers beside them read each text back and serve as the partners of the
  round-trip lemmas.
 */
module StackEmbed {
  import opened Options
  import opened Strings
  import opened Portainer
  import opened ContainerGroups
  import opened StackStatus

  /** The colour of the message, taken from the configuration as it is. */
  type Color = nat

  datatype Field = Field(name: string, value: string, inline: bool)

  /** A rendered status message; the timestamp is not modelled. */
  datatype Embed = Embed(title: string, color: Color, fields: seq<Field>)

  const GREEN_CIRCLE: char := '\U{1F7E2}'
  const RED_CIRCLE: char := '\U{1F534}'
  const NO_CONTAINERS: string := "No containers found."
  const UNKNOWN_STACK: string := "Unknown Stack"
  const STATUS_PREFIX: string := "**Status:** "
  const CONTAINERS_PREFIX: string := "**Containers:** "

  /** The name shown in the title: the stack's name, or "Unknown Stack" when absent or empty. */
  function DisplayName(name: Option<string>): string {
    if name.Some? && name.value != "" then name.value else UNKNOWN_STACK
  }

  function Title(emoji: string, name: Option<string>): string {
    emoji + " **" + DisplayName(name) + "**"
  }

  function GeneralInfo(statusText: string, running: nat, total: nat): string {
    STATUS_PREFIX + statusText + "\n" + CONTAINERS_PREFIX + NatToString(running) + "/" + NatToString(total)
  }

  function Marker(state: string): char {
    if state == "running" then GREEN_CIRCLE else RED_CIRCLE
  }

  function ContainerLine(c: ContainerInfo): string {
    "- " + [Marker(c.state)] + " **" + c.name + "**"
  }

  function Lines(cs: seq<ContainerInfo>): seq<string> {
    seq(|cs|, i requires 0 <= i < |cs| => ContainerLine(cs[i]))
  }

  function ContainerList(cs: seq<ContainerInfo>): string {
    if |cs| > 0 then Join(Lines(cs), '\n')
    else NO_CONTAINERS
  }

  function CreateStackEmbed(stack: Stack, statusText: string, running: nat, total: nat,
                            cs: seq<ContainerInfo>, emoji: string, color: Color): Embed
  {
    Embed(Title(emoji, stack.name), color,
          [Field("General Information", GeneralInfo(statusText, running, total), true),
           Field("Containers", ContainerList(cs), true)])
  }

  // Readers of the rendered texts.

  predicate StartsWith(s: string, prefix: string) {
    |prefix| <= |s| && s[..|prefix|] == prefix
  }

  /** The name between `emoji + " **"` and the closing "**" of a title. */
  function TitleName(title: string, emoji: string): Option<string> {
    var head := emoji + " **";
    if StartsWith(title, head) && |title| >= |head| + 2 && title[|title| - 2..] == "**"
    then Some(title[|head|..|title| - 2])
    else None
  }

  /** The running count and total read back from `"<running>/<total>"`. */
  function ParseCounts(counts: string): Option<(nat, nat)> {
    match Find(counts, '/')
    case None => None
    case Some(q) =>
      match (ParseNat(counts[..q]), ParseNat(counts[q + 1..]))
      case (Some(running), Some(total)) => Some((running, total))
      case _ => None
  }

  /** Status text, running count and total read back from a "General Information" text. */
  function ParseGeneralInfo(text: string): Option<(string, nat, nat)> {
    if !StartsWith(text, STATUS_PREFIX) then None
    else
      var rest := text[|STATUS_PREFIX|..];
      match Find(rest, '\n')
      case None => None
      case Some(j) =>
        var after := rest[j + 1..];
        if !StartsWith(after, CONTAINERS_PREFIX) then None
        else match ParseCounts(after[|CONTAINERS_PREFIX|..])
          case None => None
          case Some(counts) => Some((rest[..j], counts.0, counts.1))
  }

  /** Whether a container line shows the green marker, and the name it shows. */
  function ParseLine(line: string): Option<(bool, string)> {
    if |line| >= 8 && line[..2] == "- " && line[3..6] == " **" && line[|line| - 2..] == "**"
       && (line[2] == GREEN_CIRCLE || line[2] == RED_CIRCLE)
    then Some((line[2] == GREEN_CIRCLE, line[6..|line| - 2]))
    else None
  }

  function ParseLines(lines: seq<string>): Option<seq<(bool, string)>> {
    if lines == [] then Some([])
    else match (ParseLines(lines[..|lines| - 1]), ParseLine(lines[|lines| - 1]))
      case (Some(init), Some(last)) => Some(init + [last])
      case _ => None
  }

  /** The (running?, name) pairs a "Containers" text lists. */
  function ParseContainerList(text: string): Option<seq<(bool, string)>> {
    if text == NO_CONTAINERS then Some([]) else ParseLines(Split(text, '\n'))
  }

  /** What the "Containers" field is meant to show of each entry. */
  function Shown(cs: seq<ContainerInfo>): seq<(bool, string)> {
    seq(|cs|, i requires 0 <= i < |cs| => (IsRunning(cs[i]), cs[i].name))
  }

  predicate NoNewlines(cs: seq<ContainerInfo>) {
    forall i :: 0 <= i < |cs| ==> '\n' !in cs[i].name
  }

  // Round trips.

  /** The title shows the stack's name, or "Unknown Stack" when the name is absent or empty. */
  lemma TitleShowsName(emoji: string, name: Option<string>)
    ensures TitleName(Title(emoji, name), emoji) ==
              Some(if name.Some? && name.value != "" then name.value else UNKNOWN_STACK)
  {
    // The title is the head, the display name and "**"; unfolding both sides suffices.
  }

  lemma CountsRoundTrip(running: nat, total: nat)
    ensures ParseCounts(NatToString(running) + "/" + NatToString(total)) == Some((running, total))
  {
    var r, t := NatToString(running), NatToString(total);
    var counts := r + "/" + t;
    FindAfter(r, '/', t);
    assert counts == r + ['/'] + t;
    assert counts[..|r|] == r;
    assert counts[|r| + 1..] == t;
    NatToStringRoundTrip(running);
    NatToStringRoundTrip(total);
  }

  /** The general information reads back as the status text, the running count and the total. */
  lemma GeneralInfoRoundTrip(statusText: string, running: nat, total: nat)
    requires '\n' !in statusText
    ensures ParseGeneralInfo(GeneralInfo(statusText, running, total)) == Some((statusText, running, total))
  {
    var counts := NatToString(running) + "/" + NatToString(total);
    var after := CONTAINERS_PREFIX + counts;
    var rest := statusText + "\n" + after;
    var text := GeneralInfo(statusText, running, total);
    assert text == STATUS_PREFIX + rest;
    assert text[..|STATUS_PREFIX|] == STATUS_PREFIX;
    assert text[|STATUS_PREFIX|..] == rest;
    FindAfter(statusText, '\n', after);
    assert rest == statusText + ['\n'] + after;
    assert rest[..|statusText|] == statusText;
    assert rest[|statusText| + 1..] == after;
    assert after[..|CONTAINERS_PREFIX|] == CONTAINERS_PREFIX;
    assert after[|CONTAINERS_PREFIX|..] == counts;
    CountsRoundTrip(running, total);
  }

  /** A container line reads back as whether the state is "running" and the container's name. */
  lemma ContainerLineRoundTrip(c: ContainerInfo)
    ensures ParseLine(ContainerLine(c)) == Some((IsRunning(c), c.name))
  {
    // The marker sits at index 2 and the name between index 6 and the closing "**".
  }

  lemma {:induction false} ParseLinesOfLines(cs: seq<ContainerInfo>)
    ensures ParseLines(Lines(cs)) == Some(Shown(cs))
    decreases |cs|
  {
    if cs != [] {
      var lines := Lines(cs);
      var init, last := cs[..|cs| - 1], cs[|cs| - 1];
      var initLines := Lines(init);
      ParseLinesOfLines(init);
      assert lines[..|lines| - 1] == initLines;
      assert lines[|lines| - 1] == ContainerLine(last);
      ContainerLineRoundTrip(last);
      assert ParseLines(lines) == Some(Shown(init) + [(IsRunning(last), last.name)]);
      assert Shown(cs) == Shown(init) + [(IsRunning(last), last.name)];
    } else {
      assert Lines(cs) == [];
      assert Shown(cs) == [];
    }
  }

  /**
    The "Containers" text lists every entry in order with its running marker
    and name, one line each, and reads "No containers found." exactly when
    there are none.
   */
  lemma ContainerListRoundTrip(cs: seq<ContainerInfo>)
    requires NoNewlines(cs)
    ensures cs == [] <==> ContainerList(cs) == NO_CONTAINERS
    ensures ParseContainerList(ContainerList(cs)) == Some(Shown(cs))
  {
    if cs != [] {
      var lines := Lines(cs);
      forall i | 0 <= i < |lines| ensures '\n' !in lines[i] {
        var l := lines[i];
        assert l == "- " + [Marker(cs[i].state)] + " **" + cs[i].name + "**";
        assert Marker(cs[i].state) != '\n';
      }
      SplitJoin(lines, '\n');
      JoinStart(lines, '\n');
      assert ContainerList(cs)[0] == '-';
      ParseLinesOfLines(cs);
    } else {
      assert Shown(cs) == [];
    }
  }
}
