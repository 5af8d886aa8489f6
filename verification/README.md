# pulumi-eos: sessions, commands and read-back, modelled and proved in Dafny

pulumi-eos applies typed resources to an Arista switch through named
configuration sessions, and reads them back by scanning the text of
`show running-config`. This project models the parts of the provider whose
correctness is more than one function can show, and proves it:

- **The session protocol.** `Eapi` has the eAPI client and its sessions as
  classes over a device that keeps a running configuration and, for every
  session name, the batches of lines typed into it. Every call can fail
  unnoticed or half-way (`Net`): the request is lost, its answer is lost, or
  the device stops after the first lines. `Staging` says exactly which bodies
  arrive whole and which can change running-config on the way. `SessionSlot` is the
  same client's one-place semaphore as a transition system over all interleavings,
  and `ClientSteps` ties the classes to its steps. `RawCli` and `Configlet` are the
  two free-form resources on top of it; `RawCli.RawCliReport` says what the first reports.
- **The compiler.** `PrefixList` and `RouteMap` render validated arguments to a
  command list; `Eos` is an interpreter for those commands, written from the
  CLI's point of view, with modes and accumulating clauses. `PrefixListDevice`
  and `RouteMapDevice` prove that the list drives every prior state to exactly
  the declared one; `Runs` proves this of whole runs over several lists and maps,
  `Interleavings` of applies that run side by side; `PrefixListRefresh` and
  `RouteMapRefresh` go on to what Read finds afterwards. `OspfDevice` (over
  `OspfProcess`, which reads the lines of one process), `PbrDevice`,
  `StaticRouteDevice`, `VrrpDevice` and `RcfDevice` do the same for the commands of those
  resources, each with a reader of the lines of its own.
- **Printers and parsers.** For prefix-lists, route-maps, policy-based routing,
  static routes, OSPF processes, VRRP groups and inline RCF: reading a text that
  holds the rendered lines gives the declared object, in its normal form, and
  other objects in the same text do not interfere; where they do, for route-maps and
  OSPF processes, `RouteMapIsolation` and `OspfIsolation` say exactly when. What a refresh
  makes of any stored state are the lemmas `DriftIsSeen`. `Printed` carries the round trips over to
  texts with any indentation. `GnmiPath` does the same for gNMI paths and `OspfArea`
  for OSPF area identifiers.

Shared theory: `Text` (Go's string and number functions on code points), `Seqs`,
`Sorting` (a sort that promises only a sorted permutation, and why that is enough),
`Scanner` (line scanners as folds), `Rendering` (pieces the renderers share), `Netip`
(IPv4 addresses and prefixes), `ConfigDiff` (a diff printer), `Shell` (configuration modes and
effects of lines, and what an apply makes of them).

`dafny verify dfyconfig.toml` checks everything. Each imperative function of the
provider is a method proved equal to a specification function; the lemmas are
about those functions.

## How the device and the network are modelled

- `configure session NAME` creates or resumes a pending session. A pending session
  is the list of batches typed into it; committing replays them on the running
  configuration of that moment. What a batch means is a parameter of the protocol
  (`Semantics`), and `Eos` for prefix-lists and route-maps.
- The CLI stands in exec mode, in a session, or in configuration mode proper, which
  `configure` and `configure terminal` enter and where a line is in force at once. In exec
  mode the session commands and `configure` mean what they say when they are spelled out,
  and `end`, `exit` and `show` lines change no configuration. In a session `end`, `commit`
  and `abort` leave it, and so does an `exit` outside every sub-mode.
- What any other line is taken for is a parameter (`Cli`): a configuration line, an
  abbreviation such as `comm`, an alias, or, in a session too, an exec command; and so is
  whether some lines end inside a sub-mode. A line taken for any other command may change
  running-config at once, in any way (`direct`). So theorems over `sem` or `cli` hold for
  every such CLI. In configuration mode proper every line but `end`, `exit`, and lines that
  change no configuration, counts as configuration.
- The CLI under `Eos` takes every line that is not a spelled-out session command for a
  configuration line; its only sub-mode is a route-map block, and which mode lines end in
  does not depend on the configuration (`Eos.ModeAgrees`).
- Each eAPI call is `Delivered`, `Mute` (executed, and answered without error but also
  without text) or `Broken(n)` (the device executed the first `n` lines, then the call
  failed). A lost request is `Broken(0)`; a lost answer is `Broken(n)` with `n` at least
  the number of lines.
- The devices of the other resources each keep one kind of object. OSPF processes are
  keyed by instance and VRF, `default` when none is named; areas are 32-bit numbers, whatever
  their spelling. PBR has policies, each a rule for every sequence number, and the policy at
  every interface's input. Static routes are keyed by VRF, prefix, next hop and distance, 1 when
  none is written. The lines of a VRRP group add to what the group has, and only its own
  negation takes it away. An RCF unit holds code, refers to a file or was pulled; the negation
  of the file reference removes such a unit, the other negation any other.
- A line that such a device cannot read does nothing.
- The clock of a timed commit is read as hours, minutes and seconds.
- A device holds words: names and arguments reach it as words of a line
  (`Eos.RunHeld`), so it has no name and no argument with white space in it.
- Reader theorems hold for every text whose *trimmed lines* are the rendered
  lines. That this covers every indentation and all trailing blanks is
  `Text.PrintedIsRead`, and `Printed` states it for each reader. For prefix-lists and
  static routes the order of the lines is immaterial too, and lines of other
  kinds may stand between.
- A device shows a prefix-list as one line for its remark and one for each rule, in any
  order (`PrefixListRefresh.Shows`); a route-map as one block for each sequence number,
  in any order, each with one line for each clause it holds (several for extended
  communities), in any order (`RouteMapRefresh.Shows`). How it shows anything else is
  left open.
- Strings are sequences of Unicode code points. `int` is Go's 64-bit `int`
  (`Text.Int`) wherever a value is stored or parsed.

## What was found not to hold

- Two prefix-lists, or two route-maps, whose names differ only in characters that the
  session name folds together (`a.b` and `a-b`) share a session, and a commit lost by
  one can be committed by the other. Runs over two of them are safe if and only if their
  session names differ, one apply after another and side by side:
  `Runs.SafeExactlyWhenSessionsApart`, `Interleavings.SafeTogetherExactly`,
  `Runs.SameSessionExactly`.
- A session object used by two callers can drain a slot it does not hold. From every
  reachable state, the slot keeps counting its holders whatever follows if and only if
  the step taken respects the owner: `SessionSlot.CountKeptExactly`; a run that goes
  wrong is `SessionSlot.SharedSessionLosesSlot`.
- A changed line that itself starts with `--` or `++` is taken for a diff header.
  `RawCli.EmptyDiffExactly`, `RawCli.HeaderLookalikeIsMissed`.
- A body is not always staged as it is. It arrives as one batch and does nothing else if
  and only if every line of it is typed into the session, by the CLI's reading:
  `Staging.StagedExactly`. Other lines can change running-config before any diff is looked
  at, even when no commit ever arrives, if and only if `Staging.BodyEscapes` says so of the
  lines as the CLI reads them: `Staging.StagingLeavesRunning`,
  `Staging.StagingChangesRunning`, `Staging.UncommittedApply`,
  `Staging.UncommittedApplyChanges`. A body all typed into the session never does, one whose
  first other line is a `commit` always can, and so do `end`, `configure`, `hostname x`
  (`Staging.HostnameEscapes`) and `exit`, `configure session s commit`
  (`Staging.ExitEscapes`). What is promised for an apply of a body all typed into the
  session fails for every other body: `RawCli.OtherBodiesDiffer`.
- A diff call that is answered without text counts as "no difference": the body is
  dropped and reported as empty, whatever it would have changed.
  `RawCli.SilentDiffDropsBody`.
- Validation lets names with blanks in them through, and blanks in the arguments of
  route-map clauses. A device reaches the declared list if and only if the name is one
  word, the declared map if and only if the arguments are single words too:
  `PrefixListDevice.ConvergesExactly`, `RouteMapDevice.ConvergesExactly`, with a list and a
  map named `a b` (`PrefixListDevice.TwoWordNameMissed`, `RouteMapDevice.TwoWordNameMissed`)
  and a map that matches interface `a b` (`RouteMapDevice.TwoWordArgumentMissed`). A removal
  whose name is another list's name with blanks around it removes that list:
  `PrefixListDevice.RemovesExactly`, `RouteMapDevice.RemovesExactly`, as ` a` does with `a`:
  `PrefixListDevice.PaddedNameRemoves`.
- A remark of a prefix-list that ends in white space or holds a line break passes validation
  and does not come back: `Printed.PrefixListReadsBack`, `Printed.BlankRemarkLost`. Neither
  does such a description of a VRRP group, nor a tracked object of several words:
  `Printed.GroupReadsBack`, `VrrpRead.ReadsBack`, `Printed.TwoWordTrackLost`.
- A community value spelt like a keyword is read back as the keyword.
  `RouteMapRead.CommunityRoundTripExactly`, `RouteMapRead.NoneValueMisread`.
- Clauses that follow a route-map in the same text are read as clauses of its last
  entry. Every map of a name reads back intact in front of given lines if and only if
  none of them starts `match ` or `set ` and none is a `continue` with a number:
  `RouteMapIsolation.IntactExactly`. In front of another map that holds only if that map
  has no clause at all (`RouteMapIsolation.OtherMapExactly`); one that matches tag 5 is
  `RouteMapIsolation.TagLeaks`.
- A route-map that is not in the text counts as present, with no entry, if and only if
  its header is mentioned anywhere, as in the line of a BGP neighbour that refers to it:
  `RouteMapRefresh.AbsentExactly`, `RouteMapRefresh.ReferenceIsFound`.
- Leading zeros in a dotted area identifier survive canonicalisation, so one area can
  have two canonical forms. `OspfArea.SameForm`, `OspfArea.LeadingZerosKept`; such
  spellings exist, as `1` and `01`: `OspfArea.PaddedGroup`.
- An OSPF interface named `default` is read as the process-wide passive default.
  `OspfRead.NoDriftExactly`, `OspfRead.DefaultInterfaceDrifts`.
- Lines that follow an OSPF process in the same text, up to the next process, are read as
  its own. Every process of an instance and VRF reads back intact if and only if none of
  them sets one of the five fields (`OspfIsolation.IntactExactly`); a BGP block with a
  router-id does (`OspfIsolation.RouterIdLeaks`).
- White space other than blanks and tabs passes the validation of a static route's
  name and track, and any white space that of its VRF; such a route does not read
  back. `StaticRouteRead.LineReadExactly`; a route of VRF `a b` is one:
  `StaticRouteRead.TwoWordVrfMissed`.
- A PBR class name with a blank inside passes validation and is not read as a class
  line. `PbrRead.HeaderReadExactly`, `PbrRead.TwoWordClassMissed`.
- `shutdown` of a VRRP group is read back if and only if it is not `false`, which is
  staged as a negation that the reader never sees: `VrrpRead.ShutdownReadExactly`. So a
  refresh shows the live value if and only if it is true or is what was stored:
  `VrrpRead.ShutdownDriftExactly`.
- An apply of a VRRP group takes nothing away from it. What it leaves is the declared group if
  and only if the group had nothing that the arguments leave out (`VrrpDevice.StaleExactly`,
  `VrrpDevice.ConvergesExactly`): an address that is no longer listed stays
  (`VrrpDevice.StaleAddressStays`), a priority of 200 that is no longer declared and a
  preemption that is declared off stay as well (`VrrpDevice.StaleFieldsStay`).
- An interface that a PBR policy no longer lists keeps the policy:
  `PbrDevice.DroppedInterfaceKeepsPolicy`, and from any state, with `Ethernet1`,
  `PbrDevice.DroppedInterfaceStays`.
- Validation lets texts of other resources through as well that are not single words. A device
  reaches the declared OSPF process if and only if VRF, interfaces and route-maps are, and no
  interface is named `default` (`OspfDevice.ConvergesExactly`, `OspfDevice.TwoWordVrfMissed`,
  `OspfDevice.DefaultInterfaceMissed`); the declared policy if and only if its name, classes,
  VRFs and groups are (`PbrDevice.ConvergesExactly`); the declared route if and only if VRF,
  name and track are (`StaticRouteDevice.ConvergesExactly`); the declared RCF path or URL if
  and only if it is (`RcfDevice.ConvergesExactly`). A removal can take out another object, as one
  whose name or VRF is the word between the blanks: `OspfDevice.RemovesExactly`,
  `PbrDevice.RemovesExactly`, `StaticRouteDevice.RemovesExactly`, as the route of VRF ` a` does
  with that of VRF `a`: `StaticRouteDevice.PaddedVrfRemoves`.
- RCF code reaches the device as it is if and only if no line of it is `EOF`:
  `RcfDevice.CodeArrivesExactly`.
- A unit stored as code that is a file on the device is shown as both after a refresh, which
  validation would refuse: `RcfRead.BothAfterDrift`.
- RCF code with a line that is blanks around `EOF`, or whose first line starts with
  a space or tab, does not come back. `RcfRead.BodyReadExactly`,
  `RcfRead.IndentedCodeLost`, `RcfRead.TerminatorCodeLost`.

The documentation of the configlet's digest says that its lines are trimmed; the
code trims only the end of each line, and so does the model.

## Model

| member | source | states |
|---|---|---|
| Eapi.Client.OpenSession | internal/client/eapi/client.go:232-252 | An empty name or an occupied slot opens nothing and changes nothing; otherwise the request enters (or resumes) the named session and the slot is held exactly when a session is returned |
| Eapi.Session.Stage | internal/client/eapi/client.go:302-314 | A closed session stages nothing; an open one re-enters its name and types the body, and stays open whatever the call's outcome |
| Eapi.Session.Diff | internal/client/eapi/client.go:341-357 | The diff of the session's candidate, with the device unchanged up to the failure point |
| Eapi.Session.CommitTimer | internal/client/eapi/client.go:362-376 | A timed commit leaves the session open and the slot held |
| Eapi.Session.Commit | internal/client/eapi/client.go:380-392 | Closes the session and frees the slot whether or not the call succeeds; on a closed session it changes neither slot nor device |
| Eapi.Session.Abort | internal/client/eapi/client.go:396-408 | Closes the session and frees the slot; on a closed session it is a no-op without error |
| Eapi.Session.ReleaseSlot | internal/client/eapi/client.go:411-419 | Drains at most one token and never blocks |
| Eapi.HoursMinutesSeconds | internal/client/eapi/client.go:362-376 | The clock written into a timed commit denotes the timeout in whole seconds |
| Eapi.ClockRead | internal/client/eapi/client.go:362-376 | Read as hours, minutes and seconds, the clock text of a timed commit is the timeout in whole seconds, or the default when none is asked for |
| Eapi.OpenEffect | internal/client/eapi/client.go:232-252 | What opening leaves on the device, for every outcome of the call: the session exists unless the request died before its first line |
| Staging.StagedExactly | internal/client/eapi/client.go:302-314 | For every CLI, every device and every outcome of a call that reaches it: what arrives of a body becomes one new batch of the resumed session, and nothing else happens, if and only if every line of it is one that the CLI types into the session |
| Staging.StagingLeavesRunning | internal/client/eapi/client.go:302-314 | When the lines of a body, as the CLI reads them, cannot escape, staging leaves running-config as it is, for every device, every meaning of the lines and every outcome |
| Staging.StagingChangesRunning | internal/client/eapi/client.go:302-314 | When they can, there is a device of the same CLI on which staging changes running-config |
| Staging.UncommittedApply | internal/resources/l3/prefix_list.go:224-244 | An apply of a body that cannot escape, whose commit does not arrive, leaves running-config as it is |
| Staging.UncommittedApplyChanges | internal/resources/l3/prefix_list.go:224-244 | For any other body there is a device on which an apply whose commit is lost changes running-config |
| Staging.PlainDoesNotEscape | internal/client/eapi/client.go:302-314 | A body all of whose lines the CLI types into the session cannot escape |
| Staging.CommitLineEscapes | internal/client/eapi/client.go:302-314 | A body whose first other line is a `commit` can, whatever follows |
| Staging.LeavingEscapes | internal/client/eapi/client.go:302-314 | A body whose first other line is an `end`, or an `exit` outside every sub-mode, escapes if and only if the rest of it escapes from exec mode |
| Staging.HostnameEscapes | internal/client/eapi/client.go:302-314 | `end`, `configure`, `hostname x` escapes |
| Staging.ExitEscapes | internal/client/eapi/client.go:302-314 | `exit`, `configure session s commit` escapes |
| Eapi.DiffEffect | internal/client/eapi/client.go:341-357 | Asking for the diff changes nothing on the device, and its answer is the diff of the session |
| Eapi.CommitEffect | internal/client/eapi/client.go:380-392 | A commit call that reaches the device replaces running-config by the session's candidate and ends the session, even if its answer is lost |
| Eapi.AbortEffect | internal/client/eapi/client.go:396-408 | An abort call that reaches the device drops the session and leaves running-config alone |
| Eapi.CommitTimerEffect | internal/client/eapi/client.go:362-376 | A timed commit that reaches the device puts the candidate in force and keeps the old configuration for as many seconds as were asked for; one that does not changes nothing |
| Eapi.TimedCommitOutcomes | internal/client/eapi/client.go:359-392 | After a timed commit call that reached the device, the candidate is in force and what was in force before is kept for the seconds asked for; the expiring timer brings it back; a confirming commit call leaves what that call alone would have left, with nothing for the timer to undo; a lost confirmation changes nothing |
| Eapi.ApplyCommands | internal/resources/l3/prefix_list.go:224-244 | On every path of open, stage, commit or abort the session is closed and the slot free, the device is the outcome of the calls that ran, and an error is returned if and only if one of open, stage, commit or abort broke, both errors together when stage and abort did |
| Eapi.ApplyRunning | internal/resources/l3/prefix_list.go:224-244 | For every body: past staging, running-config changes only if the commit reached the device after a complete stage, and then to the candidate of that moment; for a body all typed into the session staging changes nothing, and the candidate is what was pending followed by the whole body |
| Eapi.ApplyPending | internal/resources/l3/prefix_list.go:224-244 | What an apply leaves pending under its own name is a beginning of its own body, and other sessions are untouched |
| SessionSlot.SlotCountsHolders | internal/client/eapi/client.go:67-76 | Over every interleaving of openers and closers the slot's occupancy is the number of holders and at most one |
| SessionSlot.AtMostOneHolder | internal/client/eapi/client.go:67-76 | Two holders at one time are the same call |
| SessionSlot.FailedOpenNeverBlocks | internal/client/eapi/client.go:238-250 | A failed open always finds its own token to give back |
| SessionSlot.ReleaseDrainsOwnSlot | internal/client/eapi/client.go:380-419 | A release always drains the slot of its own session |
| SessionSlot.HandOver | internal/client/eapi/client.go:232-252 | Between one holder and the next opener the holder has given the slot up |
| SessionSlot.SharedSessionLosesSlot | internal/client/eapi/client.go:380-419 | Without one owner for each session there is a run in which the slot's count and its holders part |
| SessionSlot.BreachBreaksCount | internal/client/eapi/client.go:380-419 | From every state of a careful run, any step that breaks the ownership rule can be followed by three careful ones after which slot and holders differ |
| SessionSlot.CountKeptExactly | internal/client/eapi/client.go:380-419 | From every such state, a step keeps the count right for good, whatever careful steps follow, if and only if it respects the rule |
| ClientSteps.OpenSteps | internal/client/eapi/client.go:232-252 | The three outcomes of an open call, as possible and careful steps of the transition system, with the slot and the holders they leave |
| ClientSteps.CloseSteps | internal/client/eapi/client.go:380-419 | A commit or abort of an open session is three possible and careful steps that give up the slot; of a closed one, a refusal |
| ClientSteps.OpenTracked | internal/client/eapi/client.go:232-252 | The client's open method moves its slot as those steps do, and a session is returned exactly when the call holds the slot |
| ClientSteps.CommitTracked | internal/client/eapi/client.go:380-392 | The commit method moves slot and session as those steps do |
| ClientSteps.AbortTracked | internal/client/eapi/client.go:396-408 | The abort method moves slot and session as those steps do |
| Configlet.CanonicalConfigletLines | internal/resources/device/configlet.go:177-187 | The non-blank lines, each without its trailing blanks |
| Configlet.CanonicalIdempotent | internal/resources/device/configlet.go:177-187 | Canonicalising the joined canonical lines changes nothing |
| Configlet.SameHashInputSameCommands | internal/resources/device/configlet.go:160-172 | Two bodies have one hash input if and only if they stage the same commands |
| Configlet.BlankLineIrrelevant | internal/resources/device/configlet.go:177-187 | A blank line anywhere does not matter |
| Configlet.TrailingBlanksIrrelevant | internal/resources/device/configlet.go:177-187 | Blanks at the end of any line do not matter |
| Configlet.PrepareConfiglet | internal/resources/device/configlet.go:160-172 | A blank name or an empty body is refused; otherwise the hash input determines the staged commands |
| Configlet.ApplyConfiglet | internal/resources/device/configlet.go:191-210 | Whatever fails, the session is closed and the slot free on return, and an error is returned if and only if a call that was reached broke |
| RawCli.IsEmptyDiff | internal/resources/device/raw_cli.go:233-250 | True exactly when every trimmed line of the diff is blank or a header |
| RawCli.EmptyDiffExactly | internal/resources/device/raw_cli.go:233-250 | For a printed diff: empty if and only if every changed line looks like a header |
| RawCli.EmptyDiffMeansSame | internal/resources/device/raw_cli.go:233-250 | For configurations without lines starting `--` or `++`: empty if and only if candidate and running agree |
| RawCli.HeaderLookalikeIsMissed | internal/resources/device/raw_cli.go:233-250 | Removing a line `--x` counts as no change |
| RawCli.ApplyRawCli | internal/resources/device/raw_cli.go:195-231 | On every path, whichever call fails, the session is closed and the slot free; the error is that of the calls that broke; result and device are those of the flow that RawCliReport and RawCliEffect speak of |
| RawCli.RawCliReport | internal/resources/device/raw_cli.go:195-231 | For every body: success if and only if no call that is reached broke; `empty` if and only if open, stage and diff got through and the device's answer shows no change, and then a success has dropped the session and put nothing in force; any other success has put the candidate in force, and the diff returned is the one it made; no failure returns a diff |
| RawCli.RawCliEffect | internal/resources/device/raw_cli.go:195-231 | For every body: past staging, running-config changes exactly when the commit is reached after a complete stage with a visible difference, and then to the candidate; a result of `empty` means it did not; for a body all typed into the session staging changes nothing |
| RawCli.EmptyExactlyWhenConverged | internal/resources/device/raw_cli.go:191-231 | For every body, with the calls getting through: `empty` is reported if and only if the diff answer has no text or, once the body is staged, the listing of the candidate is that of running-config |
| RawCli.ConvergedIsNoOp | internal/resources/device/raw_cli.go:191-231 | For every body: when the candidate it leaves is running-config, no commit is issued and running-config stays as staging left it, which for a body all typed into the session is as before |
| RawCli.ReapplyIsNoOp | internal/resources/device/raw_cli.go:191-231 | Re-applying a body of idempotent effect after a committed apply returns `empty` and changes nothing, also in a session that resumes leftovers the body absorbs |
| RawCli.SilentDiffDropsBody | internal/client/eapi/client.go:341-357 | A diff answer without text makes the apply drop the body and report it as empty |
| RawCli.CommitLineCommits | internal/resources/device/raw_cli.go:195-231 | What a bare `commit` at the end of a body puts in force while the body is being staged |
| RawCli.OtherBodiesDiffer | internal/resources/device/raw_cli.go:195-231 | For every body with a line that is not typed into the session there is a device of the same CLI on which, with all calls getting through, neither flow puts the body in force |
| PrefixList.ValidateEntry | internal/resources/l3/prefix_list.go:194-220 | Accepts exactly the valid entries: ranges, action, IPv4 prefix, mask bounds in order |
| PrefixList.Validate | internal/resources/l3/prefix_list.go:173-192 | Accepts exactly the named, non-empty lists of valid entries with distinct sequence numbers |
| PrefixList.BuildPrefixListCmds | internal/resources/l3/prefix_list.go:258-273 | Despite an unstable sort the commands are the negation, the remark and the entries in ascending order |
| PrefixList.PrefixListEntryCmd | internal/resources/l3/prefix_list.go:275-288 | The words of an entry with exactly the bounds that were set |
| PrefixList.RenderedCanonically | internal/resources/l3/prefix_list.go:258-273 | Permuting the entries leaves the command list identical, and its numbers strictly ascend |
| PrefixListRead.ParsePrefixListEntryRest | internal/resources/l3/prefix_list.go:347-376 | The entry a line spells, or nothing when number, action or length are wrong |
| PrefixListRead.ParsePrefixListLines | internal/resources/l3/prefix_list.go:318-345 | Found, remark and sorted entries are those of the lines that carry the list's own prefix |
| PrefixListRead.ReadsBack | internal/resources/l3/prefix_list.go:258-376 | In any permutation of the rendered lines of several lists, a list reads back as exactly its remark and its entries in order |
| PrefixListRead.AbsentNotFound | internal/resources/l3/prefix_list.go:318-345 | A list that is not in the text is not found |
| PrefixListRead.RenderedAreLines | internal/resources/l3/prefix_list.go:258-288 | Printing the rendered lines one under another gives such a text |
| PrefixListDevice.Converges | internal/resources/l3/prefix_list.go:258-273 | From any prior device state the commands leave the list exactly as declared, or absent after a removal, and everything else untouched |
| PrefixListDevice.ConvergesExactly | internal/resources/l3/prefix_list.go:173-273 | For validated lists and any state a device can hold: the commands leave the list as declared if and only if its name is one word |
| PrefixListDevice.RemovesExactly | internal/resources/l3/prefix_list.go:258-262 | A removal leaves out exactly the named list unless the name is, blanks aside, that of another list the device has |
| PrefixListDevice.TwoWordNameMissed | internal/resources/l3/prefix_list.go:173-273 | A valid list named `a b`, which no device reaches |
| PrefixListDevice.PaddedNameRemoves | internal/resources/l3/prefix_list.go:258-262 | A valid list named ` a`, whose removal takes out list `a` |
| PrefixListDevice.DeclaredExactly | internal/resources/l3/prefix_list.go:258-288 | The declared state holds every entry's rule and no other sequence number |
| PrefixListDevice.AppliesIdempotently | internal/resources/l3/prefix_list.go:250-273 | Applying twice is applying once |
| PrefixListDevice.AppliesWithoutHistory | internal/resources/l3/prefix_list.go:250-273 | What was applied to the list before does not matter |
| PrefixListDevice.ApplyPrefixList | internal/resources/l3/prefix_list.go:224-244 | The apply flow over a client: slot free and session closed on return, device as the calls that ran left it |
| PrefixListRefresh.DeclaredReadsBack | internal/resources/l3/prefix_list.go:301-345 | From any listing of a device that holds the list as declared, Read returns the declaration |
| PrefixListRefresh.DriftIsSeen | internal/resources/l3/prefix_list.go:301-386 | Whatever is stored for a list, a refresh puts the live entries in its place, and the live remark if there is one |
| PrefixListRefresh.RefreshAfterRun | internal/resources/l3/prefix_list.go:109-170 | After any run over lists and maps with failures and resumed sessions, Read finds for each list what its last effective commit declared, and nothing after an effective Delete |
| RouteMap.Validate | internal/resources/l3/route_map.go:247-344 | Accepts exactly the named, non-empty maps of valid entries with distinct sequence numbers |
| RouteMap.BuildRouteMapCmds | internal/resources/l3/route_map.go:405-422 | Despite an unstable sort the commands are the negation and the blocks in ascending order |
| RouteMap.RouteMapMatchCmds | internal/resources/l3/route_map.go:424-457 | One line for each match clause that is set |
| RouteMap.RouteMapSetCmds | internal/resources/l3/route_map.go:459-505 | One line for each set clause that is set; community `none` wins over values |
| RouteMap.RenderedCanonically | internal/resources/l3/route_map.go:405-422 | Permuting the entries leaves the command list identical, and its numbers strictly ascend |
| RouteMapDevice.Converges | internal/resources/l3/route_map.go:398-505 | From any prior device state the commands leave the map exactly as declared, with no stale block or clause, and every other map and list untouched; removal deletes exactly that map |
| RouteMapDevice.ConvergesExactly | internal/resources/l3/route_map.go:247-505 | For validated maps and any state a device can hold: the commands leave the map as declared if and only if its name and every argument are single words |
| RouteMapDevice.RemovesExactly | internal/resources/l3/route_map.go:405-410 | A removal leaves out exactly the named map unless the name is, blanks aside, that of another map the device has |
| RouteMapDevice.TwoWordNameMissed | internal/resources/l3/route_map.go:247-422 | A valid map named `a b`, which no device reaches |
| RouteMapDevice.TwoWordArgumentMissed | internal/resources/l3/route_map.go:247-457 | A valid map that matches interface `a b`, which no device reaches |
| RouteMapDevice.DeclaredExactly | internal/resources/l3/route_map.go:405-505 | The declared map holds every entry with exactly its clauses and no other sequence number |
| RouteMapDevice.AppliesIdempotently | internal/resources/l3/route_map.go:398-422 | Applying twice is applying once |
| RouteMapDevice.AppliesWithoutHistory | internal/resources/l3/route_map.go:398-422 | What was applied to the map before does not matter |
| RouteMapDevice.ApplyRouteMap | internal/resources/l3/route_map.go:376-396 | Whatever fails, the session is closed and the slot free on return |
| RouteMapDevice.ApplyLeavesDeclared | internal/resources/l3/route_map.go:376-422 | One apply over a failing network leaves running-config untouched or the map exactly as declared |
| RouteMapRead.ParseRouteMapSection | internal/resources/l3/route_map.go:529-553 | The scanner with its current entry computes the fold over the trimmed lines, sorted by sequence number |
| RouteMapRead.ReadsBack | internal/resources/l3/route_map.go:529-677 | Parsing the rendered lines gives the entries in ascending order, in normal form |
| RouteMapRead.CommunityRoundTripExactly | internal/resources/l3/route_map.go:628-677 | A community clause reads back in normal form if and only if no value is spelt like a keyword in its place |
| RouteMapRead.NoneValueMisread | internal/resources/l3/route_map.go:628-677 | A valid clause that sets the community value `none`, read as the keyword |
| RouteMapRead.ForeignLinesReadAsOurs | internal/resources/l3/route_map.go:529-553 | Lines that follow our blocks are read as lines of our last entry, and nothing else of the map changes |
| RouteMapIsolation.ReadsBackAmong | internal/resources/l3/route_map.go:529-593 | The blocks of a map read back between any text without its headers and any harmless text without its headers |
| RouteMapIsolation.IntactExactly | internal/resources/l3/route_map.go:529-593 | Between two such texts every map of a name reads back intact if and only if no line of the second starts `match ` or `set ` and none is a `continue` with a number |
| RouteMapIsolation.OtherMapExactly | internal/resources/l3/route_map.go:405-593 | In front of another map's rendered commands, if and only if no entry of that map has a clause |
| RouteMapIsolation.TagLeaks | internal/resources/l3/route_map.go:529-593 | A map that matches tag 5 is valid and does the damage |
| RouteMapRefresh.ReadRouteMap | internal/resources/l3/route_map.go:509-524 | Nothing is found in a text that does not mention the header; otherwise the entries are those of the section parser |
| RouteMapRefresh.BlockScanned | internal/resources/l3/route_map.go:529-677 | A block reads back whatever the order of its clauses, and whatever harmless lines follow it |
| RouteMapRefresh.ReadDeclares | internal/resources/l3/route_map.go:509-677 | What is read from a listing of a device declares exactly the blocks the device holds |
| RouteMapRefresh.BlockTells | internal/resources/l3/route_map.go:424-505 | Entries that leave the same block on the device have one normal form |
| RouteMapRefresh.DeclaredReadsBack | internal/resources/l3/route_map.go:376-677 | From any listing of a device that holds the map as declared, Read finds entries that declare it again; they are the declared entries in normal form if and only if no community is spelt like a keyword |
| RouteMapRefresh.RefreshAfterRun | internal/resources/l3/route_map.go:183-242 | After any run over lists and maps with failures and resumed sessions, Read finds for each map entries that declare what its last effective commit declared, and none after an effective Delete |
| RouteMapRefresh.AbsentExactly | internal/resources/l3/route_map.go:509-553 | A map without a header line has no entry; it is reported as present if and only if the text mentions its header anywhere |
| RouteMapRefresh.ReferenceIsFound | internal/resources/l3/route_map.go:509-524 | The line of a BGP neighbour that refers to a removed map keeps it present |
| Runs.ResumedCommit | internal/client/eapi/client.go:306-310 | Committing a resumed session with leftovers of the same list or map still ends in exactly what is declared, and touches nothing else |
| Runs.RunsAreSafe | internal/resources/l3/prefix_list.go:224-272 | After any run of creates, updates and deletes over several lists and maps, with calls failing anywhere, each is what its last effective commit declared, and everything else is as before |
| Runs.SharedSessionIsUnsafe | internal/resources/l3/prefix_list.go:246-248 | Two of them with one session name: a lost commit of the first is committed by the second |
| Runs.SafeExactlyWhenSessionsApart | internal/resources/l3/route_map.go:376-396 | All runs over two of them are safe if and only if their session names differ |
| Runs.SameSessionExactly | internal/resources/l3/prefix_list.go:246-248 | Two applies share a session if and only if they are of one kind and their names agree, place by place, up to the characters that are replaced |
| Interleavings.CallEffect | internal/client/eapi/client.go:232-419 | One call of an apply, whatever becomes of it: other sessions are untouched, its own holds lines of its own list or map, and running-config changes only by a commit that reaches the device, to what is declared |
| Interleavings.InterleavingsAreSafe | internal/resources/l3/prefix_list.go:224-244 | However the calls of side-by-side applies of several lists and maps interleave, whichever break and whichever applies are given up half-way, each list and map is what the last of its commits to reach the device declared, and everything else is as before |
| Interleavings.SafeTogetherExactly | internal/resources/l3/route_map.go:376-396 | All interleavings over two of them are safe if and only if their session names differ |
| GnmiPath.SplitPath | internal/client/gnmi/client.go:205-228 | The bracket-depth scanner computes the segments |
| GnmiPath.SplitElem | internal/client/gnmi/client.go:232-257 | The name and the key map of an element |
| GnmiPath.ParsePath | internal/client/gnmi/client.go:186-201 | The elements of a path, or an error for an empty one |
| GnmiPath.SegmentsJoin | internal/client/gnmi/client.go:205-228 | For every string, joining the segments gives it back up to one dropped trailing slash |
| GnmiPath.SegmentsHoldNoTopSlash | internal/client/gnmi/client.go:205-228 | No segment holds a slash outside brackets |
| GnmiPath.SegmentsOfJoined | internal/client/gnmi/client.go:205-228 | Splitting undoes joining |
| GnmiPath.ParseInvertsPrint | internal/client/gnmi/client.go:186-257 | The parser inverts a printer of elements with keys, with or without a leading slash; values may hold `/` and `=` |
| GnmiPath.DistinctKeysKept | internal/client/gnmi/client.go:232-257 | With distinct keys no pair is lost |
| Pbr.ValidatePbrAction | internal/resources/l3/policy_based_routing.go:272-294 | Accepts exactly one action with a parseable next hop |
| Pbr.ValidatePbr | internal/resources/l3/policy_based_routing.go:242-304 | Accepts exactly the named policies of valid sequences and attachments |
| Pbr.BuildPbrCmds | internal/resources/l3/policy_based_routing.go:347-408 | The commands in order, detach, negate, rebuild, attach; what they mean to a device is PbrDevice.Converges |
| PbrDevice.Converges | internal/resources/l3/policy_based_routing.go:347-408 | From any prior state: an apply leaves the policy exactly as declared, at the input of every listed interface; a removal leaves it out, at the input of none of them; every other policy and interface is as before |
| PbrDevice.DeclaredExactly | internal/resources/l3/policy_based_routing.go:380-396 | With distinct sequence numbers the declared policy holds every sequence's class and action, and no other number |
| PbrDevice.ConvergesExactly | internal/resources/l3/policy_based_routing.go:242-408 | For validated policies with distinct numbers and any state a device can hold: the commands leave the policy as declared if and only if all texts are single words |
| PbrDevice.RemovesExactly | internal/resources/l3/policy_based_routing.go:347-378 | A removal leaves out exactly the named policy unless the name is, blanks aside, that of another policy that the device has or that a listed interface holds |
| PbrDevice.DroppedInterfaceKeepsPolicy | internal/resources/l3/policy_based_routing.go:368-378 | An interface that holds the policy and is no longer listed keeps it |
| PbrDevice.DroppedInterfaceStays | internal/resources/l3/policy_based_routing.go:347-408 | From any state: a valid policy attached to `Ethernet1`, then declared without it, stays there |
| PbrDevice.ApplyLeavesDeclared | internal/resources/l3/policy_based_routing.go:310-408 | One apply over a failing network leaves running-config untouched or the policy exactly as declared, or gone |
| PbrRead.ApplyPbrNexthop | internal/resources/l3/policy_based_routing.go:499-512 | The address and the last `vrf` pair after it |
| PbrRead.ApplyPbrSectionLine | internal/resources/l3/policy_based_routing.go:460-497 | One body line; the reference kept into the growing slice is always to its last sequence |
| PbrRead.ParsePbrSection | internal/resources/l3/policy_based_routing.go:433-454 | The scanner computes the fold over the trimmed lines |
| PbrRead.LatestHeader | internal/resources/l3/policy_based_routing.go:460-484 | For every text: a sequence is its header with the action spelt by exactly the lines up to the next header |
| PbrRead.EarlierKept | internal/resources/l3/policy_based_routing.go:460-484 | For every text: no line touches a sequence before the latest |
| PbrRead.HeaderReadExactly | internal/resources/l3/policy_based_routing.go:486-497 | A rendered class line is read as its sequence if and only if the class is one word |
| PbrRead.TwoWordClassMissed | internal/resources/l3/policy_based_routing.go:486-497 | A valid sequence of class `a b`, whose line is not read as it |
| PbrRead.ReadsBack | internal/resources/l3/policy_based_routing.go:347-512 | From rendered policies with distinct names, detach and attach blocks included, each reads back as its sequences in order with exactly one action each |
| PbrRead.DriftIsSeen | internal/resources/l3/policy_based_routing.go:433-519 | Whatever is stored for a policy, a refresh puts the live sequences in its place and keeps the stored attachments |
| PbrRead.NormStagedAlike | internal/resources/l3/policy_based_routing.go:380-396 | What is read back would be staged as the same commands |
| PbrRead.AbsentNotFound | internal/resources/l3/policy_based_routing.go:433-454 | A policy that is not in the text is not found |
| StaticRoute.ValidateStaticRoute | internal/resources/l3/static_route.go:171-216 | Accepts exactly the valid routes |
| StaticRoute.BuildStaticRouteCmds | internal/resources/l3/static_route.go:277-307 | One line with exactly the options that differ from the defaults, or the negation without them; what they mean to a device is StaticRouteDevice.Converges |
| StaticRouteDevice.Converges | internal/resources/l3/static_route.go:277-307 | From any prior routes: an apply leaves exactly the declared route under its VRF, prefix, next hop and distance; a removal leaves out exactly that route, whatever its options; every other route is as before |
| StaticRouteDevice.AppliesWithoutHistory | internal/resources/l3/static_route.go:277-307 | What was applied to the route before, or removed, does not matter |
| StaticRouteDevice.ConvergesExactly | internal/resources/l3/static_route.go:171-307 | For validated routes and any state a device can hold: the command leaves the route as declared if and only if VRF, name and track are single words |
| StaticRouteDevice.RemovesExactly | internal/resources/l3/static_route.go:277-291 | A removal leaves out exactly its own route unless the VRF is not one word and the words of the line name another route that the device has |
| StaticRouteDevice.PaddedVrfRemoves | internal/resources/l3/static_route.go:277-291 | A valid route of VRF ` a`, whose removal takes out the route of VRF `a` |
| StaticRouteDevice.ApplyLeavesDeclared | internal/resources/l3/static_route.go:230-307 | One apply over a failing network leaves running-config untouched or the route exactly as declared, or gone |
| StaticRoute.IDInjective | internal/resources/l3/static_route.go:218-228 | Validated routes share an identifier if and only if they agree in effective VRF, prefix, next hop and distance, slashes in the VRF name included |
| StaticRouteDevice.IDIsPlace | internal/resources/l3/static_route.go:218-228 | Validated routes share an identifier if and only if they share a place on the device |
| StaticRouteRead.ParseStaticRouteLine | internal/resources/l3/static_route.go:364-410 | The route a line spells, its options read in pairs |
| StaticRouteRead.ParseStaticRouteLines | internal/resources/l3/static_route.go:340-359 | The first line that spells the wanted VRF, prefix and next hop |
| StaticRouteRead.LineReadExactly | internal/resources/l3/static_route.go:277-410 | Parsing inverts rendering, with distance 1 and tag 0 as defaults, if and only if VRF, name and track are single words |
| StaticRouteRead.TwoWordVrfMissed | internal/resources/l3/static_route.go:277-410 | A valid route of VRF `a b`, which does not read back |
| StaticRouteRead.ReadsBack | internal/resources/l3/static_route.go:340-410 | Among rendered routes in any order and between any other lines, the lookup gives the route its own row when no other has its VRF, prefix and next hop |
| StaticRouteRead.AbsentNotFound | internal/resources/l3/static_route.go:340-359 | A route that is not listed is not found |
| StaticRouteRead.NoDrift | internal/resources/l3/static_route.go:412-434 | A refresh leaves an applied route as it was declared |
| StaticRouteRead.DriftIsSeen | internal/resources/l3/static_route.go:340-434 | Whatever is stored for a route, every field that the live row has stands in the refreshed state, and the others as stored |
| OspfArea.CanonicaliseOspfArea | internal/resources/l3/router_ospf.go:511-529 | The checking loop and the octet arithmetic compute the canonical form |
| OspfArea.CanonicalDenotes | internal/resources/l3/router_ospf.go:511-529 | Exactly the identifiers of a 32-bit number are accepted, and the result is a dotted quad of octets for the same number |
| OspfArea.CanonicalIdempotent | internal/resources/l3/router_ospf.go:511-529 | Canonicalising twice is canonicalising once |
| OspfArea.SameForm | internal/resources/l3/router_ospf.go:511-529 | One form means one area; one area means one form exactly for spellings without leading zeros in a quad |
| OspfArea.DecimalInjective | internal/resources/l3/router_ospf.go:511-529 | Decimal identifiers collide only when they are equal numbers |
| OspfArea.LeadingZerosKept | internal/resources/l3/router_ospf.go:516-524 | Quads of equal value have one form only if they agree digit by digit |
| OspfArea.ValidateNetworks | internal/resources/l3/router_ospf.go:414-425 | Accepts exactly the rows with a prefix and an identifier of a 32-bit number |
| OspfArea.ValidateAreas | internal/resources/l3/router_ospf.go:427-450 | Accepts exactly the valid areas |
| OspfArea.RenderArea | internal/resources/l3/router_ospf.go:725-759 | The lines of an area, type, cost and ranges |
| OspfArea.AreaLinesNameArea | internal/resources/l3/router_ospf.go:725-759 | Every line of an area starts with its identifier |
| OspfArea.ValidatedIdRendered | internal/resources/l3/router_ospf.go:587-590 | After validation the rendered identifier is a dotted quad for the declared number |
| OspfArea.RejectedIdEmpty | internal/resources/l3/router_ospf.go:725-726 | The rendered identifier is empty exactly for identifiers validation refuses |
| OspfSection.ValidateScalars | internal/resources/l3/router_ospf.go:391-410 | Accepts exactly the processes whose scalars are in range: the ones for which a refresh is proved to show no drift |
| OspfSection.ValidateRedistribute | internal/resources/l3/router_ospf.go:453-463 | Accepts exactly the rows with a known source |
| OspfSection.ValidateTail | internal/resources/l3/router_ospf.go:465-499 | Accepts exactly the valid distances, timers, log settings, default information and summaries |
| OspfSection.BuildRouterOspfCmds | internal/resources/l3/router_ospf.go:561-715 | The commands in order, negation, header, body, exit; what they mean to a device is OspfDevice.Converges |
| OspfSection.AppendRouterOspfBody | internal/resources/l3/router_ospf.go:579-606 | The builders together append the body, whose meaning is OspfDevice.Converges |
| OspfDevice.Converges | internal/resources/l3/router_ospf.go:561-759 | From any prior state: an apply leaves the process of that instance and VRF exactly as declared, with nothing of what it was before: scalars, distances, passive interfaces, redistribution, areas, networks, log setting, limits, timers, default information, summaries and graceful restart; a removal leaves out exactly that process; every other process is as before |
| OspfDevice.AreasDeclared | internal/resources/l3/router_ospf.go:725-759 | A declared process has every area under its 32-bit number, with its type, default cost and ranges, and no other area |
| OspfDevice.NetworksDeclared | internal/resources/l3/router_ospf.go:587-590 | A declared process has every network under the number of its area, and no other network |
| OspfDevice.ConvergesExactly | internal/resources/l3/router_ospf.go:374-759 | For validated processes that redistribute each source once, and any state a device can hold: the commands leave the process as declared if and only if all texts are single words and no interface is named `default` |
| OspfDevice.RemovesExactly | internal/resources/l3/router_ospf.go:561-567 | A removal leaves out exactly its own process unless its VRF is, blanks aside, that of another process that the device has |
| OspfDevice.TwoWordVrfMissed | internal/resources/l3/router_ospf.go:374-577 | A valid process of VRF `a b`, which no device reaches |
| OspfDevice.DefaultInterfaceMissed | internal/resources/l3/router_ospf.go:647-659 | A valid process with a passive interface `default`, which no device reaches |
| OspfDevice.ApplyLeavesDeclared | internal/resources/l3/router_ospf.go:531-577 | One apply over a failing network leaves running-config untouched or the process exactly as declared, or gone |
| OspfRead.ParseRouterOspfSection | internal/resources/l3/router_ospf.go:796-820 | The scanner computes the fold over the trimmed lines |
| OspfRead.SectionScanned | internal/resources/l3/router_ospf.go:796-849 | Whatever text stands before the process, its five fields are read as declared and then overwritten by the lines that follow, up to the next process, and by nothing else |
| OspfIsolation.IntactExactly | internal/resources/l3/router_ospf.go:796-849 | Between two texts without its header, every validated process of an instance and VRF reads back as declared if and only if none of those lines sets one of the five fields |
| OspfIsolation.RouterIdLeaks | internal/resources/l3/router_ospf.go:796-849 | The router-id of a BGP block that follows is read as the process's |
| OspfRead.ReadsBack | internal/resources/l3/router_ospf.go:561-849 | From rendered processes distinct in instance or VRF, each reads back as its own |
| OspfRead.AbsentNotFound | internal/resources/l3/router_ospf.go:796-820 | A process that is not in the text is not found |
| OspfRead.NoDriftExactly | internal/resources/l3/router_ospf.go:852-873 | A refresh changes an applied process in no way if and only if no interface named `default` turns the passive default on |
| OspfRead.DefaultInterfaceDrifts | internal/resources/l3/router_ospf.go:852-873 | A valid process with a passive interface `default`, declared not passive by default, is passive by default after a refresh |
| OspfRead.DriftIsSeen | internal/resources/l3/router_ospf.go:852-873 | Whatever is stored for a process, the fields that the device holds overwrite it, and the others stay as stored |
| Vrrp.ValidateVrrp | internal/resources/l3/vrrp.go:220-263 | Accepts exactly the valid groups |
| Vrrp.AppendVrrpAddresses | internal/resources/l3/vrrp.go:355-373 | The primary flag of the loop says whether an IPv4 address came before |
| Vrrp.BuildVrrpCmds | internal/resources/l3/vrrp.go:310-346 | The interface line and the group's lines, or the negation of the whole group |
| Vrrp.FirstIsPrimary | internal/resources/l3/vrrp.go:355-373 | Every validated address has its line in the declared order, and among the IPv4 lines exactly the first lacks `secondary` |
| VrrpDevice.Converges | internal/resources/l3/vrrp.go:310-424 | From any prior state: an apply puts every declared field over what the group had; a removal leaves out exactly that group; every other group is as before |
| VrrpDevice.DeclaredAddresses | internal/resources/l3/vrrp.go:355-373 | A declared group has the first IPv4 address as its primary, the other IPv4 ones as secondaries, and the IPv6 ones as such, and no others |
| VrrpDevice.StaleExactly | internal/resources/l3/vrrp.go:310-424 | What an apply leaves is the declared group if and only if the group had nothing that the arguments leave out |
| VrrpDevice.ConvergesExactly | internal/resources/l3/vrrp.go:220-424 | For validated groups and any state a device can hold: the commands leave the group as declared if and only if that is so and addresses and tracked objects are single words |
| VrrpDevice.StaleAddressStays | internal/resources/l3/vrrp.go:355-373 | An address that is no longer listed stays |
| VrrpDevice.StaleFieldsStay | internal/resources/l3/vrrp.go:376-403 | From any state: a priority of 200 that is no longer declared, and a preemption declared off, stay in force |
| VrrpDevice.AppliesIdempotently | internal/resources/l3/vrrp.go:310-424 | Applying twice is applying once |
| VrrpDevice.ApplyLeavesDeclared | internal/resources/l3/vrrp.go:269-346 | One apply over a failing network leaves running-config untouched, or the declared fields over what the group had, or the group gone |
| VrrpRead.ParseVrrpSection | internal/resources/l3/vrrp.go:459-480 | The scanner computes the fold over the lines of the group |
| VrrpRead.LinesSeenBy | internal/resources/l3/vrrp.go:464-474 | Group 1 never absorbs lines of group 10, nor any group those of another |
| VrrpRead.GroupRead | internal/resources/l3/vrrp.go:485-597 | The lines of a valid group read back as all its fields, addresses in the declared order, if and only if its tracked objects are single words |
| VrrpRead.ReadsBack | internal/resources/l3/vrrp.go:459-597 | Among several groups under one interface, whatever other lines stand between, a valid group reads back as declared if and only if its tracked objects are single words |
| VrrpRead.AbsentNotFound | internal/resources/l3/vrrp.go:459-480 | A group without lines is not found |
| VrrpRead.NoDrift | internal/resources/l3/vrrp.go:600-636 | A refresh leaves a valid group as it was declared but for its tracks: those that were read replace them, if any was read, and they are the declared ones in normal form if and only if all objects are single words |
| VrrpRead.DriftIsSeen | internal/resources/l3/vrrp.go:459-636 | Whatever is stored for a group, after reading a live one each of description, priority, preemption, delay, interval, addresses, tracks and BFD peer that the live group declares stands in the refreshed state; what it leaves out, interface and group number stay as stored |
| VrrpRead.ShutdownReadExactly | internal/resources/l3/vrrp.go:459-597 | The reader recovers `shutdown` if and only if it was not declared `false` |
| VrrpRead.ShutdownDriftExactly | internal/resources/l3/vrrp.go:600-636 | A refresh shows the live `shutdown` if and only if it is true or is what was stored; a change shows if and only if it became true |
| Rcf.ValidateRcf | internal/resources/l3/rcf.go:197-240 | Accepts exactly one delivery for a well-formed name |
| RcfDevice.Converges | internal/resources/l3/rcf.go:258-345 | From any prior state: a delivery by file or URL leaves the unit exactly as declared; a removal leaves out exactly the named unit, whatever it held; every other unit is as before |
| RcfDevice.CodeArrivesExactly | internal/resources/l3/rcf.go:355-371 | From any prior state: streaming valid code leaves the unit with exactly that code, and every other unit as before, if and only if no line of it is `EOF` |
| RcfDevice.ConvergesExactly | internal/resources/l3/rcf.go:211-345 | For a validated file or URL and any state a device can hold: the commands leave the unit as declared if and only if it is a single word |
| RcfDevice.ApplyLeavesDeclared | internal/resources/l3/rcf.go:274-345 | One apply over a failing network leaves running-config untouched or the unit exactly as declared, or gone |
| RcfRead.CollectInlineBody | internal/resources/l3/rcf.go:454-473 | The loop with its locked indent computes the body up to the terminator |
| RcfRead.ParseRcfSection | internal/resources/l3/rcf.go:412-440 | The first line that is the unit's header decides between body and source path |
| RcfRead.BodyReadExactly | internal/resources/l3/rcf.go:355-473 | A listing with one fixed indent gives the code back byte for byte if and only if its first line starts with neither space nor tab and no line trims to `EOF` |
| RcfRead.IndentedCodeLost | internal/resources/l3/rcf.go:197-473 | Valid code that starts with a blank loses it |
| RcfRead.TerminatorCodeLost | internal/resources/l3/rcf.go:197-473 | Valid code with a line `EOF` ends there |
| RcfRead.InlineReadExactly | internal/resources/l3/rcf.go:355-483 | The same among several units whose lines cannot be taken for a header |
| RcfRead.SourceReadsBack | internal/resources/l3/rcf.go:320-440 | A file reference comes back without the device's `edited` mark |
| RcfRead.StagedCodeReadsBack | internal/resources/l3/rcf.go:355-473 | A unit listed as the command and the input text that were staged for it, indented, reads back to the code given by the user if and only if that code is plain |
| RcfRead.StagedSourceReadsBack | internal/resources/l3/rcf.go:320-440 | A unit listed as the staged source line, marked as edited or not, reads back to the path given by the user |
| RcfRead.DriftIsSeen | internal/resources/l3/rcf.go:412-494 | Whatever is stored for a unit, a refresh puts the live path, or live code that reads back, in its place |
| RcfRead.BothAfterDrift | internal/resources/l3/rcf.go:485-494 | A unit stored as code that is a file on the device is refreshed to a state that validation refuses |
| Text.AtoiItoa | internal/resources/l3/prefix_list.go:275-288 | A printed number reads back as itself |
| Text.FieldsJoin | internal/resources/l3/prefix_list.go:347-376 | Splitting into words undoes joining words with blanks |
| Text.PrintedIsRead | internal/resources/l3/prefix_list.go:318-330 | A text that shows some lines, each between blanks of its own, has those lines for its trimmed lines |
| Printed.PrefixListReadsBack | internal/resources/l3/prefix_list.go:318-345 | Rendered lists, their lines printed in any order with any indentation: a valid list reads back if and only if its remark is one line that does not end in white space |
| Printed.BlankRemarkLost | internal/resources/l3/prefix_list.go:318-345 | A valid list whose remark ends in a blank, as which no text reads back |
| Printed.RouteMapReadsBack | internal/resources/l3/route_map.go:529-553 | A route-map printed with any indentation, between text without its headers and harmless text, reads back |
| Printed.PolicyReadsBack | internal/resources/l3/policy_based_routing.go:433-454 | Rendered policies printed with any indentation read back |
| Printed.StaticRouteReadsBack | internal/resources/l3/static_route.go:340-359 | Rendered routes printed in any order between other lines, with any indentation, are found |
| Printed.ProcessReadsBack | internal/resources/l3/router_ospf.go:796-820 | Rendered OSPF processes printed with any indentation read back |
| Printed.GroupReadsBack | internal/resources/l3/vrrp.go:459-597 | VRRP groups printed under their interface with any indentation: a valid group reads back if and only if its description is one line that does not end in white space and its tracked objects are single words |
| Printed.TwoWordTrackLost | internal/resources/l3/vrrp.go:485-597 | A valid track of object `a b` is not read as it |
| Sorting.SortedPermutationUnique | internal/resources/l3/prefix_list.go:266-270 | With distinct keys a sorted permutation is unique, so an unstable sort has no freedom |

## Left out

- Transport: HTTP, gRPC, TLS, JSON payloads, goeapi, and the Pulumi plumbing around
  the resources; a call is its outcome on the device and whether it is seen.
- SHA-256: the digests kept in state are represented by their inputs.
- `prepareRawCli` has the body of `prepareConfiglet` with its own error values; it is
  modelled once, as Configlet.PrepareConfiglet.
- Address parsing beyond IPv4: IPv6 literals, IPv4-or-IPv6 prefixes and URLs are
  predicates passed in by the caller; the matching of interface names and digit groups
  is written out.
- Eapi.HoursMinutesSeconds: the timeout is an integer number of nanoseconds; the
  float arithmetic of the source agrees with it below 4096 hours.
- Eapi.Client.OpenSession: waiting for the slot is a step of SessionSlot; the sequential
  class reports an occupied slot as the end of the context.
- Eapi.ApplyPending: is about bodies all typed into the session; what another body leaves
  pending depends on its lines.
- RawCli.ReapplyIsNoOp: is about bodies all typed into the session, and the second session
  may resume leftovers only if the body absorbs what they do.
- In exec mode, a command that is none of the session's may change running-config, but is not
  modelled to change sessions or the mode; nothing is claimed of a body past such a command.
- StageRich: staged like plain commands; the input text of RCF is modelled in Rcf, not
  its path through a session.
- PrefixListDevice.Converges: names are single words; the source refuses only blank ones,
  and PrefixListDevice.ConvergesExactly says that no other name converges.
- RouteMapDevice.Converges: names and clause arguments are single words; the source refuses
  only blank names and does not check most arguments, and RouteMapDevice.ConvergesExactly
  says that no other map converges.
- RouteMapRead.ReadsBack: the text is the rendered command list; RouteMapIsolation has the
  blocks among other text.
- RouteMapRead.ReadsBack: words of match and set clauses are free of white space, as the
  CLI needs them.
- Runs.RunsAreSafe: names, and the arguments of route-maps, are single words, as for one
  apply.
- RouteMapRefresh.DeclaredReadsBack: a device never shows an extended community spelt
  `additive`, nor a community list that a keyword in it makes ambiguous; after each block
  only lines without effect on an entry are shown.
- RouteMapRefresh.ReadRouteMap: the text answer of the device; a failing call and an
  answer without one are left out.
- PbrRead.ReadsBack: class, VRF and next hop are single words.
- StaticRouteRead.ReadsBack: no other route has the VRF, prefix and next hop; the reader does
  not look at the distance, and the model follows the code.
- PbrDevice.ConvergesExactly: sequence numbers are distinct, which validation does not ask for;
  PbrDevice.Converges is for all policies, with the last sequence of a number counting.
- OspfDevice.ConvergesExactly: no source is redistributed twice; OspfDevice.Converges is for all
  processes, with the last row of a source counting.
- OspfDevice.AreasDeclared: no two rows are one area; for others, the declared process is what
  the rows add up to.
- VrrpDevice.ConvergesExactly: the group has at least one line; without one, the commands enter
  the interface and leave.
- The `ApplyLeavesDeclared` lemmas take the session name as a parameter; which names the
  applies of OSPF, PBR, static routes, VRRP and RCF use, and runs of several of them, are not
  modelled.
- RcfDevice.ApplyLeavesDeclared: is about the plain commands; code is streamed by StageRich.
- VrrpRead.ReadsBack: the text is the listing of one interface; the reader does not look
  for the place of the interface line.
- RcfRead.BodyReadExactly: every listed body line carries the indent; a device that
  strips it from blank lines is not covered.
- The URL delivery of RCF, whose listing the device decides.
- OspfRead.ReadsBack: the reader recovers five fields; the other lines of a process are
  proved to be passed over. What they mean to the device is in OspfDevice.
- Range and enumeration validators of other resources, their identifiers, and resources
  that repeat these schemes: VLANs, interfaces, port channels, BFD, MLAG, BGP and more.
- A slice that grows while a reference into it is kept (policy-based routing) is a sequence
  with an index; aliasing of the backing array is not represented.
