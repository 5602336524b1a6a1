# Stack status synchronisation, modelled in Dafny

This project models the status task of a chat bot that watches a Portainer
installation (`src/tasks/serviceStats.js`). On every call the task:

1. fetches the stacks and the containers from Portainer;
2. groups the containers by compose project (`createContainerMap`);
3. for each stack, counts its running containers and classifies it as
   offline, running or partially running (`determineStackStatus`);
4. renders a status message (`createStackEmbed`);
5. edits the message recorded for the stack's id, or sends a new message and
   records its id (the `stackMessageMap` dictionary);
6. saves the dictionary to a data file.

Files and modules:

- `options.dfy` (`Options`): the `Option` type for JavaScript's `undefined`.
- `strings.dfy` (`Strings`): decimal formatting of counts, first-occurrence
  search and removal (`String.prototype.replace` with a string pattern),
  `join`, and the `split` that inverts it.
- `portainer.dfy` (`Portainer`): the stack and container records.
- `container_groups.dfy` (`ContainerGroups`): grouping. The reduce is the
  method `CreateContainerMap`, a loop that updates a local map in place. It
  is proved against the specification `GroupsOf`: one bucket per project,
  holding that project's containers in input order.
- `stack_status.dfy` (`StackStatus`): the classifier and the running count.
- `stack_embed.dfy` (`StackEmbed`): the title, field texts, name and colour of
  the message. It also has readers that parse each text back. They are the
  partners of the round-trip lemmas.
- `stack_sync.dfy` (`StackSync`): the reconciliation loop.
  - The class `StackMessageStore` holds the in-memory map (`entries`, the
    source's `stackMessageMap`) and the map as last written to the data file
    (`persisted`).
  - Its methods `UpdateStacks` and `SendStackUpdates` change both fields in
    place.
  - They are proved against the functions `Reconcile` (the loop) and `Cycle`
    (one whole call). The lemmas about the cycle are stated over those two
    functions.
- `scenarios.dfy` (`Scenarios`): worked examples on concrete inputs: one
  grouping, three renderings, and a first cycle, also run through the store
  after a restart.

The outside world is an input:

- Each Portainer fetch is a `Fetch` value: a list, or a transport error.
- The chat channel is a function `channel: nat -> Reply`. It gives the answer
  to the request made for the stack at each position: delivered, with the new
  message id for a send, or failed.
- The status texts, emojis and colours from the configuration are a `Config`
  of three per-status tables.

JavaScript behaviour the model keeps:

- A container whose project label is missing or empty (`||`) goes to the
  bucket "Unknown Project".
- A container's name is its first name with the first `/` removed, wherever
  that `/` is. A container with no name makes `Names[0].replace` throw, and
  the whole call ends before anything is sent or saved.
- Containers are looked up under `stack.Name` coerced to a string. A stack
  without a name is looked up under the key `"undefined"`. Its title reads
  "Unknown Stack", and so does the title of a stack whose name is empty.
- A stack "has a message" when its id maps to a truthy, that is non-empty,
  message id.
- The single `try`/`catch` means a failed send, fetch or edit ends the whole
  loop. The save is then skipped. Entries already added to the in-memory map
  stay there.
- A missing stack list and an empty one take the same early return. Neither
  changes the map or the file.

Consequences of the code as written, which the model keeps:

- `loadStackMessages` is never called, so the in-memory map starts empty at
  start-up. The store's constructor models this: `entries` starts empty, and
  `persisted` is whatever the file holds. The first completed call therefore
  sends a new message for every stack and replaces the file.
- A failed request for one stack ends the whole call, not only that stack's
  update.
- Container states are the API's strings, compared with `"running"`.
- The classifier does not check `running <= total`. The model's counts
  satisfy it (`CountRunning`), but the classifier is stated for all pairs.

## Model

| member | source | states |
|---|---|---|
| `ContainerGroups.CreateContainerMap` | src/tasks/serviceStats.js:71-81 | the reduce returns exactly the grouping `GroupsOf` (one bucket per project present, each bucket that project's containers in order); it fails exactly when some container has no name |
| `ContainerGroups.BucketKeepsOrder` | src/tasks/serviceStats.js:72-80 | the j-th entry of a bucket comes from the j-th container of that project, in ascending input position; a position is listed in bucket k iff its container's project is k, so each container is in exactly one bucket |
| `ContainerGroups.ContainerLandsInItsBucket` | src/tasks/serviceStats.js:73-78 | a container's entry is in the bucket of its project label, or of "Unknown Project" when the label is missing or empty |
| `ContainerGroups.GroupKeysAreProjects` | src/tasks/serviceStats.js:72-74 | the grouping has a key exactly for each project some container belongs to |
| `ContainerGroups.GroupSizesSum` | src/tasks/serviceStats.js:72-80 | the bucket sizes add up to the number of input containers (grouping partitions its input) |
| `ContainerGroups.GroupsOfSnoc` | src/tasks/serviceStats.js:74-79 | grouping one more container pushes its entry onto its project's bucket, creating the bucket if missing, and changes no other bucket |
| `Strings.RemoveFirst` | src/tasks/serviceStats.js:76 | the display name is the first name with only its first '/' removed, unchanged if it has none |
| `StackStatus.DetermineStackStatus` | src/tasks/serviceStats.js:83-91 | total: OFFLINE iff total is 0; RUNNING iff total > 0 and running == total; PARTIALLY_RUNNING otherwise, with no check that running <= total |
| `StackStatus.CountRunning` | src/tasks/serviceStats.js:47 | the running count is at most the total; it equals the total iff every state is exactly "running", and it is 0 iff none is |
| `StackStatus.CountRunningIsCount` | src/tasks/serviceStats.js:47 | the running count is exactly the number of entries whose state is exactly "running" |
| `StackStatus.BucketStatus` | src/tasks/serviceStats.js:47-50 | a stack's containers classify as offline iff there are none, running iff there are some and all run, partially running iff some container is not running |
| `StackEmbed.TitleShowsName` | src/tasks/serviceStats.js:108 | the title is the emoji, then the stack name in bold; the name reads "Unknown Stack" when it is absent or empty |
| `StackEmbed.GeneralInfoRoundTrip` | src/tasks/serviceStats.js:97-98 | the "General Information" text reads back as the status text, the running count and the total |
| `StackEmbed.CountsRoundTrip` | src/tasks/serviceStats.js:98 | `running/total` reads back as the two counts |
| `Strings.NatToStringRoundTrip` | src/tasks/serviceStats.js:98 | a count's decimal text reads back as the count |
| `StackEmbed.ContainerLineRoundTrip` | src/tasks/serviceStats.js:101-103 | a container line reads back as whether the state is exactly "running" (green marker, otherwise red) and the container's name |
| `StackEmbed.ContainerListRoundTrip` | src/tasks/serviceStats.js:100-105 | the "Containers" text is exactly "No containers found." iff there are no containers; otherwise it lists every container in order, one line each, with its marker and name |
| `Strings.SplitJoin` | src/tasks/serviceStats.js:104 | splitting a newline join at its newlines gives back the lines |
| `StackSync.RenderStackReadsBack` | src/tasks/serviceStats.js:46-54 | a stack's message shows the status text, running count and total of the containers found under its name; it lists them, titles the stack and takes its status's colour (for status texts and container names without a newline) |
| `StackSync.StackMessageStore.constructor` | src/tasks/serviceStats.js:30 | at start-up the in-memory map is empty whatever the data file holds |
| `StackSync.StackMessageStore.Save` | src/tasks/serviceStats.js:27-29 | the data file receives the whole in-memory map, which is unchanged |
| `StackSync.StackMessageStore.UpdateStacks` | src/tasks/serviceStats.js:45-63 | the loop leaves the map and the request list that `Reconcile` specifies, and does not touch the file |
| `StackSync.StackMessageStore.SendStackUpdates` | src/tasks/serviceStats.js:34-69 | one call leaves the map, the file, the requests and the outcome that `Cycle` specifies |
| `StackSync.AbortSticks` | src/tasks/serviceStats.js:35-68 | once a request fails, the rest of the loop adds no request and no entry |
| `StackSync.ReconcileStopsAtFailure` | src/tasks/serviceStats.js:45-63 | the k-th request belongs to the k-th stack and carries that stack's message; the loop completes iff it made a request for every stack, and otherwise stops at the first failed one |
| `StackSync.FailedRequestLeavesMap` | src/tasks/serviceStats.js:56-67 | when a request fails the loop ends with fewer requests than stacks, and the map is exactly what the requests served before the failure left it: the failing stack records nothing |
| `StackSync.ReconcileGrowsOnly` | src/tasks/serviceStats.js:56-62 | no key is removed and no live message id is overwritten; only visited stack ids are added; keys of stacks not in the list keep their values; after a complete loop the keys are the old keys plus the visited ids |
| `StackSync.ReconcileRecordsSentIds` | src/tasks/serviceStats.js:59-61 | each send was delivered, is for the stack at its position, and leaves that stack's id mapped to the message id the channel returned for it |
| `StackSync.ReconcilePostsEveryStack` | src/tasks/serviceStats.js:56-62 | after a complete loop, a stack id has a live message iff it had one before or the loop visited it |
| `StackSync.ReconcileCreateOrEdit` | src/tasks/serviceStats.js:56-62 | a stack with a live message is edited with that message id; a stack without one is sent, with its id, at its first occurrence in the list; its later occurrences are edits |
| `StackSync.AllPostedNoSends` | src/tasks/serviceStats.js:56-58 | when every stack already has a live message, the loop sends nothing and leaves the map unchanged |
| `StackSync.ReconcileIdempotent` | src/tasks/serviceStats.js:45-63 | a second loop over the same stacks, from the map a complete first loop left, sends nothing and changes nothing |
| `StackSync.CycleKeepsRecord` | src/tasks/serviceStats.js:34-69 | a call never removes a key or overwrites a live message id, and keys of stacks not fetched keep their values; after a saved call the file holds the whole map, after any other outcome the file is unchanged; an empty stack list changes nothing |
| `StackSync.AbortedCycleKeepsServedPrefix` | src/tasks/serviceStats.js:34-68 | an aborted call leaves the file as it was; if it aborted inside the loop, the map is what the stacks served before the failure left it, otherwise the map is unchanged and nothing was requested |
| `StackSync.CycleRecordsSentIds` | src/tasks/serviceStats.js:34-69 | every send of a call is for the stack at its position and is recorded in the map under that stack's id with the message id the channel returned |
| `StackSync.StartUpCycleReplacesFile` | src/tasks/serviceStats.js:30-65 | the first completed call after start-up runs from an empty map whatever the file holds: it sends for each stack id at its first occurrence, and the saved file's keys are exactly the stack ids |
| `StackSync.CycleIdempotent` | src/tasks/serviceStats.js:34-69 | after a completed call, a second call on the same data sends no message and leaves map and file as they were |
| `Scenarios.WebGrouping` | src/tasks/serviceStats.js:71-81 | container "/web_1" of project "web" is grouped as "web_1" under "web" |
| `Scenarios.WebRender` | src/tasks/serviceStats.js:94-123 | that stack renders as running, "1/1", with a green line for "web_1" |
| `Scenarios.FirstCycleSendsOneMessage` | src/tasks/serviceStats.js:43-65 | from an empty map, whatever the file holds, the first call sends one message for "s1", records the returned id and saves the map |
| `Scenarios.RestartedStoreSendsAgain` | src/tasks/serviceStats.js:27-65 | a store built over a file that records "s1" and a stale "s2" sends a new message for "s1" rather than editing, and the save leaves the file holding only the new id |
| `Scenarios.StackWithoutContainersIsOffline` | src/tasks/serviceStats.js:84-85 | a stack with no containers renders as offline, "0/0", "No containers found." |
| `Scenarios.MixedRender` | src/tasks/serviceStats.js:94-105 | a stack with one running and one exited container renders as partially running, "1/2", with a green line for the first and a red line for the second |

## Left out

- Portainer HTTP calls (`fetchStacks`, `fetchContainers`). They are external; their results are inputs, and a failure of either is a `TransportError` that ends the call.
- Discord I/O (`channel.messages.fetch`, `message.edit`, `channel.send`). It is an oracle indexed by stack position. The fetch and the edit of one stack are one request. A failed request is assumed to have had no effect.
- `EmbedBuilder` and its fluent API, `setTimestamp` (wall-clock time), and how the colour is encoded. The colour is an opaque number taken from the configuration.
- The configuration tables are total in the model. A status code missing from `EMOJIS`, `EMBED_COLORS` or `STACK_STATUS` would render as `undefined`; this is not modelled.
- File-system persistence: `ensureDataDirExists`, `loadStackMessages`, the JSON text written by `saveStackMessages`, and write failures. Saving is modelled as a snapshot of the map into `persisted`. `loadStackMessages` is never called in the source, so the model has no load.
- `console.log` calls and the `async`/`await` sequencing. The calls run one after another, which the model follows.
- Keys inherited by plain JavaScript objects (`"constructor"`, `"__proto__"`, …) are not modelled. Both dictionaries are modelled as plain maps.
- A container without a `Labels` object is not modelled. The API always sends one.
- Stack ids are strings in the model. Numeric ids from Portainer become the same string keys in JavaScript.
- Characters are Unicode scalar values. UTF-16 code units, as JavaScript strings count them, are not modelled.
- `src/events/interactionCreate.js` is not part of this model. It is dispatch glue: look up a command by name, then log or send an ephemeral error reply.
- StackSync.ReconcilePostsEveryStack: assumes every message id the channel returns is non-empty, as chat message ids are. An empty id would not count as a live message, and the stack would be sent again next time.
- StackSync.ReconcileCreateOrEdit: under the same non-empty message-id assumption.
- StackSync.ReconcileRecordsSentIds: under the same non-empty message-id assumption. With an empty id, a later occurrence of the same stack would send again and overwrite it.
- StackSync.CycleRecordsSentIds: under the same non-empty message-id assumption.
- StackSync.StartUpCycleReplacesFile: under the same non-empty message-id assumption.
- StackSync.ReconcileIdempotent: under the same non-empty message-id assumption, for the first loop.
- StackSync.CycleIdempotent: under the same non-empty message-id assumption, for the first call.
- StackEmbed.GeneralInfoRoundTrip: stated for status texts without a newline. Only then can the reader find where the status text ends.
- StackEmbed.ContainerListRoundTrip: stated for container names without a newline. Docker names never contain one.
- StackSync.RenderStackReadsBack: stated for status texts and container names without a newline, as the two round-trip lemmas it combines are.
