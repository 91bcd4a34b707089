# A verified model of the Netgear switch library's control paths

The library reads and writes managed switches over SNMP, NSDP, the web UI and the FASTPATH command
line. This project models the parts of it where a mistake would move a port nobody named, or report a
change that did not happen, and proves what they promise. One module models one part:

- **Bitmaps** – the octet strings of the wire (most significant bit of octet 0 is id 1, the PortList
  convention of section 5 of RFC 4363): loops over octets against sets of ids.
- **Switchport** – how a FASTPATH port's columns (mode, access VLAN, native VLAN, allowed list, general
  lists) yield its VLAN membership, and the planner that compiles a wanted membership into column SETs.
- **CapturedM4300** – columns and membership measured on real switches, as witnesses for that rule.
- **SnmpMembership** – the write that plans, issues the SETs one by one and verifies, against an agent
  whose behaviour is an arbitrary function of an arbitrary state.
- **TruthfulAgent** – the agent that derives its mirrors from its columns, where the write is totally correct.
- **QBridge** – the standard-table write, split or combined, on plain and on auto-untagging firmware.
- **PoeControl**, **CliPoe** – the deadline-driven PoE loops, with real-valued time.
- **CliShell**, **CliWrites** – the switch behind the shell, with its configured and its current VLAN view, the
  config-mode stack, CLI operations and the sparse syslog table.
- **WebUi** – membership pages of a server that remembers a selected VLAN and may ignore a select.
- **Nsdp**, **LoginMerge**, **Facade** – NSDP's set update, the login interleaving, and the facade's caches and
  client lifetime.
- **Backends**, **Protection** – one switch behind every backend, each backend's writes carried through to it,
  and what protected ports are promised over whole runs of facade calls.

Operations that change state are methods of classes or of a session object, each proved equal to a
function of the old state or to an outright property; lemmas then prove what the library promises about
that function, for every input, every device behaviour or every run.

Where the code and its own words part, the model follows the code:

- Excluding VLAN 1 from a port that is untagged nowhere else is accepted and leaves it untagged in VLAN 1
  (`Switchport.RequestHonoured` gives the exact condition; a port untagged nowhere even gains VLAN 1).
- The fallback to VLAN 1 is planned without checking that VLAN 1 exists (`Switchport.PlanLands`,
  `Switchport.FallbackToMissingVlan`).
- models.py calls `poe_cycle_complete` the rule of every backend; the CLI uses a stricter one
  (`PoeControl.CliRuleIsStricter`).
- The Plus web write neither sends the CSRF hash with its VLAN select nor checks the VLAN that comes back. It
  moves only the requested port exactly if the select is honoured (`WebUi.PlusWriteFaithfulIff`); otherwise it can
  return normally with a protected port gone (`WebUi.PlusWriteCanStrip`).
- A web page that does not say which VLAN it shows passes the wrong-VLAN check: the check protects a reading
  exactly on firmware that labels its pages (`WebUi.CheckProtectsIff`).
- sync_api.py says its deletion guard gives every backend the same safety rail. It guards what the backend's
  reading shows: an unforced deletion spares the protected ports exactly if the reading shows one of them in the
  VLAN or none is configured into it (`Protection.DeletionSparesIff`). The CLI lists only ports that participate
  right now, so a measured VLAN slips through (`CliWrites.MeasuredVlanIsExposed`), and a web reading without the
  wrong-VLAN check can show another VLAN's ports (`Protection.UncheckedReadingStrips`).
- CLI membership writes are verified against the current view too: letting in a port that does not participate at
  once is reported as failed though configured (`CliWrites.MeasuredPortReadsBackExcluded`), and excluding a port that
  is only configured may leave it configured (`CliWrites.MembershipReadsBack`).
- The CLI write's own words say that forcing general mode can move a port's membership elsewhere and re-home it;
  the virtual shell only changes a mode field. The model follows the words here: a port that leaves access or trunk
  mode gets whatever part in every VLAN, and whatever PVID, the firmware's general mode gives it. Its other VLANs
  stay on every firmware exactly where there is no such mode to leave (`CliWrites.OtherVlansStayIff`), and a captured
  access port loses its VLAN to a write that names another and returns normally (`Backends.CliWriteLeavesAccessVlan`).
- The managed web write takes a page that names no VLAN for the requested one's. It moves only the requested slot
  exactly if it takes no other VLAN's page (`WebUi.FastpathConfinedIff`); otherwise it can return normally with a
  protected port gone (`WebUi.FastpathWriteCanStrip`).
- An NSDP membership write to a VLAN that does not exist creates it, even for EXCLUDED
  (`Nsdp.MembershipWriteCreates`).
- Re-encoding a PortList from the physical ports that were read drops LAG members unseen
  (`QBridge.FallbackKeepsMembersIff`, `QBridge.FallbackDropsLag`).
- sync_api.py calls the HTTP client the only one worth closing; CLI sessions the facade opened stay open
  after `close` (`Facade.SyncSwitch.Close`).

## Model

| member | source | states |
|---|---|---|
| Bitmaps.DecodeEnumerates | src/netgear_switch/snmp_write.py:79-86 | Decoding by id is the source's double enumeration of octets and bit offsets. |
| Bitmaps.DecodeEncode | src/netgear_switch/snmp_write.py:67-86 | Decoding undoes encoding on every set of ids the width can hold. |
| Bitmaps.EncodeDecode | src/netgear_switch/snmp_write.py:67-86 | Encoding undoes decoding: the named ids and the width determine every octet. |
| Bitmaps.VlanBitmap | src/netgear_switch/snmp_write.py:67-76 | The bit-raising loop builds exactly the 512-octet encoding of the set. |
| Bitmaps.EditVlanBits | src/netgear_switch/snmp_write.py:89-110 | The in-place edit decodes to (old ∪ add) − remove, never narrows, and within 4096 VLANs is octet for octet the function the planner uses. |
| Bitmaps.EditFlipsOnlyNamedBits | src/netgear_switch/snmp_write.py:92-99 | Bits of VLANs named in neither argument are unchanged and no octet is lost. |
| Bitmaps.EncodePortBitmap | src/netgear_switch/protocols/snmp/write.py:42-54 | The growing encoder names exactly the given ports and is no wider than the width asked or the highest port needs. |
| Bitmaps.SetPortBitLoop | src/netgear_switch/protocols/snmp/write.py:57-79 | The decode, change, re-encode sequence is the one-port edit. |
| Bitmaps.SetPortBitNames | src/netgear_switch/protocols/snmp/write.py:57-79 | That edit moves one port's bit, keeps every other (LAG and CPU bits too) and never narrows the octets. |
| Switchport.PlanLands | src/netgear_switch/snmp_write.py:137-280 | From any mode, an accepted plan's SETs leave exactly the planned membership if and only if some untagged VLAN remains wanted or VLAN 1 exists. |
| Switchport.FallbackToMissingVlan | src/netgear_switch/snmp_write.py:211-223 | Without VLAN 1, excluding a port from its only untagged VLAN is accepted, and leaves it in no VLAN instead of the planned one. |
| Switchport.EveryPrefixIsSafe | src/netgear_switch/snmp_write.py:637-643 | After any number of the SETs the port's VLANs lie between old ∩ target and old ∪ target, and its untagged VLANs are the old ones or the planned one. |
| Switchport.ModeFirstOvergrants | src/netgear_switch/snmp_write.py:637-643 | With the mode sent first on a stale full list, the intermediate state is safe exactly if the port belongs in every VLAN of the switch. |
| Switchport.ModeFirstBreaksFactoryPort | src/netgear_switch/snmp_write.py:241-245 | Tagging a factory-default port into one VLAN would, mode first, hand it a third. |
| Switchport.ExpressibleTargets | src/netgear_switch/snmp_write.py:156-168 | Access and trunk rows express exactly: one existing untagged VLAN beside existing, disjoint tagged ones. |
| Switchport.RefusalsAreExact | src/netgear_switch/snmp_write.py:193-223 | The planner accepts a request exactly when some column assignment derives what is wanted, the missing-VLAN-1 fallback apart; with VLAN 1 present, refusal and inexpressibility coincide. |
| Switchport.RequestHonoured | src/netgear_switch/snmp_write.py:168-191 | For whatever was read: the named VLAN ends as asked save one exactly characterised exclusion of VLAN 1, other VLANs keep their tagging, and their untagged state unless UNTAGGED was asked. |
| Switchport.ExcludingDefaultIsIgnored | src/netgear_switch/snmp_write.py:187-191 | Excluding VLAN 1 from a factory-default port is accepted and changes nothing. |
| Switchport.ReissueIsFixpoint | src/netgear_switch/snmp_write.py:137-280 | A request that has landed is accepted again with the same target and changes no column, bitmap octets included. |
| Switchport.UntouchedColumns | src/netgear_switch/snmp_write.py:225-275 | Columns a plan does not need stay as they were, and on a trunk so does every allowed bit of a VLAN that does not exist. |
| Switchport.FreshListIsTheTarget | src/netgear_switch/snmp_write.py:240-245 | A port that was no trunk and becomes one allows exactly the VLANs of its target: nothing of its stale list is left. |
| Switchport.FutureVlans | src/netgear_switch/snmp_write.py:225-245 | Whatever VLANs are created later, the port carries the target and nothing more, unless it was a trunk, when exactly the VLANs its own list already allowed come with it. |
| Switchport.FactoryPortStaysOut | src/netgear_switch/snmp_write.py:240-245 | The factory port, tagged into one VLAN, stays out of a VLAN created afterwards. |
| CapturedM4300.ColumnsReproduceCapture | src/netgear_switch/virtual/seed.py:2163-2190 | The measured columns of all 24 ports derive the membership captured beside them in all 14 VLANs. |
| CapturedM4300.NativeNeedNotBeAllowed | tests/virtual/test_switchport_vlan_write.py:280-311 | Port 12 of the M4300-16X is untagged in a native VLAN its allowed list omits. |
| SnmpMembership.SnmpWriter.SetVlanMembership | src/netgear_switch/snmp_write.py:663-675 | Result, device state and SETs sent are those of the write function below, for any agent. |
| SnmpMembership.SnmpWriter.SetVlanSwitchport | src/netgear_switch/snmp_write.py:607-646 | Read, plan, issue in order, stop at the first refusal, read back and compare. |
| SnmpMembership.NormalReturnIsVerified | src/netgear_switch/snmp_write.py:283-312 | Whatever the agent does, on normal return the last reading, compared with the first, shows the request carried out and no other VLAN of the port moved, the stated exceptions apart. |
| SnmpMembership.RefusalsSendNothing | src/netgear_switch/snmp_write.py:666-672 | No SET is sent exactly when guard, missing VLAN or planner refuses, and no SET ever names another port. |
| TruthfulAgent.MirrorIsTruthful | src/netgear_switch/snmp_write.py:113-125 | The membership read from the VLAN rows is the one the columns derive. |
| TruthfulAgent.TruthfulWrite | src/netgear_switch/snmp_write.py:607-675 | On a truthful switch the write returns normally if and only if allowed, existing and expressible; then the port has what was wanted, no other port moves, and while VLAN 1 exists an error changes no column. |
| TruthfulAgent.UnknownPortRejected | src/netgear_switch/snmp_write.py:607-646 | A port the switch does not have is refused, and the switch stays as it is. |
| TruthfulAgent.ReissueChangesNothing | src/netgear_switch/snmp_write.py:607-675 | A write that succeeded succeeds again and leaves the whole switch as it is. |
| TruthfulAgent.RunIsPortwise | src/netgear_switch/snmp_write.py:607-675 | Over any run of requests each port's row ends where its own requests alone take it: writes to different ports do not interfere. |
| TruthfulAgent.RunLeavesOthers | src/netgear_switch/snmp_write.py:389-393 | A port no request names, or a protected one named only by unforced requests, keeps its row over any run. |
| QBridge.SplitLands | src/netgear_switch/snmp_write.py:702-708 | Egress then untagged, in PDUs of their own, lands exactly both bitmaps on either firmware. |
| QBridge.CombinedLandsIff | src/netgear_switch/registry.py:83-94 | One combined PDU lands always on plain firmware, and on auto-untagging firmware exactly in the listed cases. |
| QBridge.ReversedLandsIff | src/netgear_switch/registry.py:83-94 | The reverse order fails exactly when tagging a port not yet in the VLAN on auto-untagging firmware. |
| QBridge.BitmapsAskForWanted | src/netgear_switch/protocols/snmp/write.py:82-102 | The two edited bitmaps ask for the current row with one port moved, whatever their width. |
| QBridge.QBridgeWriter.SetVlanMembership | src/netgear_switch/snmp_write.py:676-743 | Result and rows are exactly those of the row function: a refused PDU ends the write, with nothing or the egress column written; else it returns normally exactly when the physical ports read back as asked, with split writes or on plain firmware always, and the row is then the one asked for. |
| QBridge.FilteredCheckIsExact | src/netgear_switch/snmp_write.py:712-722 | Comparing physical ports only tells whether the combined write landed, unless the requested port is not physical, when the check passes whatever happened. |
| QBridge.FallbackKeepsMembersIff | src/netgear_switch/snmp_write.py:404-418 | Without the device's own octets the write keeps every member exactly when the VLAN holds, the requested port apart, only physical ports; the check cannot tell. |
| QBridge.FallbackDropsLag | src/netgear_switch/protocols/snmp/parse.py:321-327 | A VLAN holding a LAG as port 1000 loses it to such a write, which returns normally. |
| PoeControl.Rearm | src/netgear_switch/snmp_write.py:446-485 | At most an off and an on SET, a refused one ending it at once; the on SET follows readings of an unused or searching port with its link down, so a port that never reads so gets none and never a normal return; nor does one that never recovers; sleeps are bounded by the deadlines; readings taking at most R each, a port that settles off two readings before the one deadline and recovers one reading before the other never times out. |
| PoeControl.RecoveredMeans | src/netgear_switch/models.py:150-172 | What each rule takes for recovery, detection state by detection state. |
| PoeControl.PoeReset | src/netgear_switch/cli_write.py:637-670 | No off command is sent, a refused reset ends it at once, sleeps are bounded, a normal return ends on a reading that meets the caller's rule, a port that never meets it gives none, and a port settling one reading before the deadline never times out. |
| PoeControl.GoaheadRearm | src/netgear_switch/http_write.py:668-723 | The on write is made exactly if the off write was taken and a reading showed the port disabled; refused writes end it; a normal return ends on a reading that completes the cycle, and a port that settles in time is given up on only by the reading after the on write. |
| PoeControl.CliRuleIsStricter | src/netgear_switch/cli_write.py:682-692 | The CLI's rule implies the shared one, and rejects exactly the idle ports that are searching again. |
| PoeControl.PromptPortSettles | src/netgear_switch/models.py:150-172 | Settling within any two deadlines is possible for every recovery rule, with readings that take time. |
| CliPoe.SetPoe | src/netgear_switch/cli_write.py:589-635 | On a column lagging L reads, enabling succeeds iff L = 0 or (L − 1)·poll < timeout, after L + 1 reads; otherwise it gives up after exactly ceil(timeout/poll) + 1 reads; the clock moves by the naps alone. |
| CliPoe.PsePort.ReadsEnabled | src/netgear_switch/virtual/cli_fastpath.py:316-341 | A read shows Disabled while lag remains and uses one read of it up. |
| CliPoe.ReadLimitIsFirstPast | src/netgear_switch/cli_write.py:624-635 | The read limit is the first read made at or past the deadline. |
| CliShell.StackRestored | src/netgear_switch/cli_write.py:248-267 | Whatever is accepted or refused, the shell is back in the mode it started in, and a failed descent changes nothing at all. |
| CliShell.StackRestoredIff | src/netgear_switch/cli_write.py:251-267 | The unwinding never looks at what `exit` answers: the shell is back in its mode if and only if every exit given was honoured. |
| CliShell.Session.DoInMode | src/netgear_switch/cli_write.py:248-267 | The loop that counts entered levels and leaves them computes that function. |
| CliWrites.CliWriter.Do | src/netgear_switch/cli_write.py:294-387 | Each operation is guard, read, precondition, descent, verifying read, in that order; what it then does is the lemmas below, operation by operation. |
| CliWrites.OpRefusals | src/netgear_switch/cli_write.py:236-240 | Exactly when an operation is refused before any configuration command, with which error, and that it changes nothing. |
| CliWrites.PvidReadsBack | src/netgear_switch/cli_write.py:528-560 | From any prior switchport mode a PVID write that meets no refusal returns normally with the PVID as asked and everything else as general mode left it. |
| CliWrites.PortEnabledReadsBack | src/netgear_switch/cli_write.py:723-745 | An admin-state write that meets no refusal returns normally; that port's state is as asked and nothing else differs. |
| CliWrites.PoeReadsBack | src/netgear_switch/cli_write.py:589-635 | So with PoE. |
| CliWrites.PoeResetReadsBack | src/netgear_switch/cli_write.py:637-670 | A reset that is taken changes no configuration and returns normally exactly if the port recovers. |
| CliWrites.VlanCreated | src/netgear_switch/cli_write.py:294-316 | A creation that meets no refusal returns normally, with the VLAN there, empty if it is new, under its name. |
| CliWrites.VlanDeleted | src/netgear_switch/cli_write.py:318-346 | A deletion past the guard that meets no refusal returns normally, with the VLAN gone and its PVIDs back on VLAN 1. |
| CliWrites.CollectorAdded | src/netgear_switch/cli_write.py:894-926 | An addition that meets no refusal returns normally with exactly one row more. |
| CliWrites.CollectorRemoved | src/netgear_switch/cli_write.py:928-983 | A removal that meets no refusal returns normally with exactly that host's row gone. |
| CliWrites.NothingRejected | src/netgear_switch/cli_write.py:242-246 | On a shell that accepts every command no operation is rejected. |
| CliWrites.OpRestoresMode | src/netgear_switch/cli_write.py:251-256 | Each operation restores the mode stack, reads only at base mode, and returns normally only if verified. |
| CliWrites.MembershipReadsBack | src/netgear_switch/cli_write.py:348-387 | From any prior switchport mode, with or without such modes, on any firmware: a write that meets no refusal leaves the table general mode put the port in with the named VLAN as asked, reads back as asked exactly if the port takes part, and is configured as asked but for one exactly characterised exclusion. |
| CliWrites.MembershipMovesOnePort | src/netgear_switch/cli_write.py:351-358 | Whatever is accepted or refused, every other port keeps its part in every VLAN, and its PVID. |
| CliWrites.OtherVlansStayIff | src/netgear_switch/cli_write.py:190-204 | On every firmware the port's other VLANs stay exactly if the image has no switchport modes, the port was general already or there is no other VLAN; its PVID, exactly in the first two cases. |
| CliWrites.PreludeNeededIff | src/netgear_switch/cli_write.py:182-194 | Without the general-mode prelude, all commands accepted, the port reads back as asked exactly if it is not in access mode and takes part, or there was nothing to do. |
| CliWrites.OpOnTable | src/netgear_switch/cli_write.py:894-983 | An operation can only leave the collector table, append one new host with an unused index, or drop the named host's row. |
| CliWrites.RemoveDeletesExactlyOne | src/netgear_switch/cli_write.py:928-983 | A removal that returns normally dropped exactly the named row, however sparse the indices. |
| CliWrites.AddThenRemove | src/netgear_switch/cli_write.py:894-983 | Adding a collector and removing it, both with a normal return, restores the table. |
| CliWrites.PositionalRemovalIff | src/netgear_switch/cli_write.py:935-940 | Removal by position hits the right row exactly if its index equals its position. |
| CliWrites.PositionalRemovalMisses | src/netgear_switch/cli_write.py:935-940 | On the measured table with indices 1 and 3 it removes nothing. |
| CliWrites.OpSparesProtected | src/netgear_switch/cli_write.py:318-387 | An unforced operation takes no membership (configured or current), tagging, admin state, PoE or PVID from a protected port, unless it deletes a VLAN that hides one from the guard, or its PVID's VLAN. |
| CliWrites.DeletionSparesIff | src/netgear_switch/cli_write.py:329-336 | Carried out, an unforced deletion spares the protected ports if and only if one of them participates in the VLAN right now or none is configured into it. |
| CliWrites.MeasuredVlanIsExposed | tests/fixtures/cli/gsm7252ps_show_vlan_90.txt:57-58 | In the measured VLAN 90, with port 50 protected, the deletion returns normally and the port's configured membership is gone. |
| CliWrites.MeasuredPortReadsBackExcluded | tests/fixtures/cli/gsm7252ps_show_vlan_90.txt:57 | Letting port 50 into VLAN 90, where it still does not participate, configures it as asked and is reported as failed. |
| CliWrites.RunKeeps | src/netgear_switch/cli_write.py:216-290 | Over any run: mode stack kept, reads at base mode, hosts and indices distinct; and unless a VLAN hides a protected port from the guard at the start, unforced calls spare every protected port throughout. |
| WebUi.FastpathMembership | src/netgear_switch/http_read.py:638-660 | Every listed VLAN gets a page that does not claim to be another's, or the read fails; nothing on the server changes. On labelled pages it succeeds exactly if every listed VLAN is the one on the base page or has its select honoured. |
| WebUi.GetVlansFastpath | src/netgear_switch/http_read.py:367-412 | One entry per listed VLAN, in order: its id, the tagged and untagged ports of a page that passes the check, members being both; on labelled pages the page is that VLAN's own, and the read succeeds exactly if every listed VLAN gets shown. |
| WebUi.GetVlansPlus | src/netgear_switch/http_read.py:597-617 | The same for the Plus loops, as an exact function of the server, each entry saying of every port what its code says; with distinct ids the checked loop never selects the VLAN already on show. |
| WebUi.LabelledIsOwn | src/netgear_switch/http_read.py:317-331 | On labelling firmware, a page that passes the check is the VLAN's own. |
| WebUi.CheckProtectsIff | src/netgear_switch/http_read.py:348-412 | Whatever a server does with selects, a page that passes the check is the VLAN's own exactly on firmware that labels its pages. |
| WebUi.ReadForIff | src/netgear_switch/http_read.py:619-636 | On labelled pages a reading succeeds exactly if the VLAN is on show or its select is honoured, and is then that VLAN's own. |
| WebUi.SetFastpathMembership | src/netgear_switch/http_write.py:1032-1086 | Result and server are exactly those of the write function; on labelled pages a normal return moved exactly the requested slot of the requested VLAN. |
| WebUi.FastpathMovesOneSlot | src/netgear_switch/http_write.py:1059-1066 | On labelled pages either nothing moves or exactly the requested slot of the requested VLAN, LAG slots and other VLANs included in nothing else. |
| WebUi.FastpathRefusalsUntouched | src/netgear_switch/http_write.py:378-416 | A rejected select on labelled pages, and a raised err_flag on any, always end in an error with every VLAN untouched. |
| WebUi.FastpathSucceeds | src/netgear_switch/http_write.py:1059-1075 | Firmware that labels its pages, shows what is selected and applies what is sent lets every allowed write of a rendered port succeed. |
| WebUi.FastpathOkIff | src/netgear_switch/http_write.py:1057-1075 | On any firmware a normal return means every step passed and the page read last has the code as asked; with the last page in hand the result is decided by its code. |
| WebUi.FastpathConfinedIff | src/netgear_switch/http_write.py:1077-1086 | For every membership table, however pages are labelled, the write moves at most the requested slot if and only if it takes no other VLAN's page for the requested one's. |
| WebUi.FastpathWriteCanStrip | src/netgear_switch/http_write.py:1059-1075 | On unlabelled pages of a server that keeps showing VLAN 1, untagging port 2 in VLAN 20 returns normally and takes protected port 5 out of VLAN 20. |
| WebUi.SetPlusMembership | src/netgear_switch/http_write.py:1002-1030 | Guard, select, apply of whatever VLAN's codes came back with one port moved, and re-read: exact result and server; a normal return shows the code asked for. |
| WebUi.PlusOkIff | src/netgear_switch/http_write.py:1023-1030 | On any firmware it returns normally exactly if the guard passes, the first page has all ports and the hash, and the VLAN on show at the end has the code asked for; which error otherwise. |
| WebUi.PlusDroppedApplyFails | src/netgear_switch/http_write.py:1023-1030 | A dropped apply is reported as failed, unless the port was so already. |
| WebUi.PlusSucceeds | src/netgear_switch/http_write.py:1002-1030 | A server that honours selects and applies what it is sent lets it succeed and moves exactly that slot. |
| WebUi.PlusWriteFaithfulIff | src/netgear_switch/http_write.py:1012-1022 | For every membership table the Plus write moves only the requested slot if and only if the VLAN shown after its select is the one asked for; on labelled pages, exactly if the page passes the check it does not make. |
| WebUi.PlusWriteCanStrip | src/netgear_switch/http_write.py:1012-1030 | On a server that keeps showing VLAN 1, untagging port 2 in VLAN 20 returns normally and takes protected port 5 out of VLAN 20. |
| Nsdp.UpdateMovesOnePort | src/netgear_switch/nsdp_write.py:85-97 | The update moves one port as asked, keeps tagged within members, is idempotent and undone by asking for the old mode. |
| Nsdp.OkMeansAsAsked | src/netgear_switch/nsdp_write.py:100-107 | The check passes exactly if the port takes part as asked. |
| Nsdp.NsdpWriter.SetVlanMembership | src/netgear_switch/nsdp_write.py:221-241 | One record with one port moved is written, result and records are exactly those of the write function, and normal return means it read back so, on any switch. |
| Nsdp.NsdpWriter.CreateVlan | src/netgear_switch/nsdp_write.py:302-328 | An existing VLAN is left as it is, members included. |
| Nsdp.NsdpWriter.DeleteVlan | src/netgear_switch/nsdp_write.py:330-351 | Without force nothing happens; a normal return means the VLAN is gone. |
| Nsdp.MembershipWriteCreates | src/netgear_switch/nsdp_write.py:229-234 | On a faithful switch the write returns normally for a VLAN that is not there, even for EXCLUDED, and the VLAN then exists: the VLANs stay as they were exactly if it was there. |
| LoginMerge.Merge | src/netgear_switch/protocols/http/crypt.py:14-25 | The two-index loop computes the recursive interleaving. |
| LoginMerge.SeparateUndoes | src/netgear_switch/protocols/http/crypt.py:14-25 | The result has length \|a\| + \|b\| and, given the lengths, splits back into both strings. |
| LoginMerge.InterleaveUndoes | src/netgear_switch/protocols/http/crypt.py:14-25 | Every string of the right length is the interleaving of its own split. |
| LoginMerge.MergeInjectiveInPassword | src/netgear_switch/protocols/http/crypt.py:28-30 | For one nonce, different passwords of whatever lengths give different strings to hash. |
| Facade.SyncSwitch.Resolve | src/netgear_switch/sync_api.py:674-703 | An explicit secret wins and asks nobody, else the resolver is asked once and its answer given, else there is none; an answer is never asked for again; a resolver that raised leaves nothing remembered. |
| Facade.SyncSwitch.Require | src/netgear_switch/sync_api.py:411-421 | Succeeds exactly if that secret is there. |
| Facade.SyncSwitch.ReaderFor | src/netgear_switch/sync_api.py:341-393 | At most one reader per backend, filed under its own, never replaced; had exactly if cached or nothing stands in its way. |
| Facade.SyncSwitch.WriterFor | src/netgear_switch/sync_api.py:395-457 | The same for writers, had exactly if cached or its secret is there or its model is verified; only an SNMP writer not yet built asks for the write community. |
| Facade.SyncSwitch.HttpSession | src/netgear_switch/sync_api.py:319-326 | The injected client if there is one, else the single self-built one, had exactly if built already or the password is there. |
| Facade.SyncSwitch.Close | src/netgear_switch/sync_api.py:275-280 | Every HTTP client the facade built is closed, none is open; CLI sessions are not touched. |
| Facade.SyncSwitch.Run | src/netgear_switch/sync_api.py:471-492 | Over any run: at most one self-built client open, none after a final close, the injected one never closed, each secret answered at most once, and reads never ask for the write community. |
| Protection.GuardVlanDelete | src/netgear_switch/sync_api.py:831-848 | The facade refuses an unforced deletion exactly when the first row of that VLAN holds a protected port. |
| Protection.DeleteVlan | src/netgear_switch/sync_api.py:816-829 | Reading over the backend, guard on the rows read, then that backend's writer: the function the theorems below are about. |
| Backends.SnmpMembershipSpares | src/netgear_switch/snmp_write.py:607-743 | Over SNMP in either dialect, split or combined, on either firmware, whatever SETs the agent takes, a membership write takes nothing from a protected port, except that re-encoding without the device's octets asks it to be physical. |
| Backends.NsdpMembershipSpares | src/netgear_switch/nsdp_write.py:221-241 | So with NSDP's whole-set write. |
| Backends.HttpMembershipSpares | src/netgear_switch/http_write.py:1002-1086 | So with the web writes, on labelled FASTPATH pages, on a Plus switch that honours its unhashed select, and over the XML API. |
| Backends.ColumnSetShows | src/netgear_switch/virtual/state.py:719-774 | When a column SET is taken, and that it then leaves its port in every VLAN as the columns derive and everything else as it was. |
| Backends.XmlAndNsdpOkIff | src/netgear_switch/http_write.py:801-813 | Over the XML API a membership write succeeds exactly if it passes the guard, the VLAN is there and the switch carries it out; over NSDP, past the guard, if carried out. |
| Backends.CliWriteLeavesAccessVlan | src/netgear_switch/cli_write.py:197-204 | Port 15 of the captured M4300-24X, in access mode on VLAN 10: tagging it into VLAN 20 over the CLI returns normally, takes it out of VLAN 10 and into VLAN 1. |
| Protection.StepInStep | src/netgear_switch/virtual/state.py:719-774 | After every call, over whatever backend, a port's switchport columns and the shell agree on its mode, and in general mode on its memberships. |
| Protection.DeletionSparesIff | src/netgear_switch/sync_api.py:816-848 | Over any backend that can delete, the protected ports come through an unforced deletion if and only if the backend's own reading shows one of them in the VLAN or none is configured into it. |
| Protection.ReadingShows | src/netgear_switch/sync_api.py:836-848 | Every reading but the CLI's shows every protected port configured into a VLAN, when those are physical ports and Plus pages are each VLAN's own. |
| Protection.UncheckedReadingStrips | src/netgear_switch/http_read.py:348-364 | On a Plus server that keeps showing VLAN 1, read without the wrong-VLAN check, a listed, unforced deletion returns normally and takes protected port 5 out of VLAN 20. |
| Protection.StepSpares | src/netgear_switch/sync_api.py:705-872 | One unforced call (membership, creation, deletion, admin state, PoE, PoE cycle, PVID) over one backend, through that backend's own writer, guard and reading, spares every protected port. |
| Protection.RunSpares | src/netgear_switch/sync_api.py:705-872 | Over every run of unforced calls in any mix of backends a protected port keeps every membership, stays enabled and stays powered, where the pages and readings a call rests on can be trusted and, if the CLI is to delete, no VLAN hides a protected port from its guard at the start. |
| Protection.OkMeansDone | src/netgear_switch/sync_api.py:705-872 | Over any backend, a creation, deletion, admin-state, PoE, PoE-cycle or PVID call that returns normally has done exactly what was asked, and nothing that is not its business differs. |
| Protection.CarriedOkIff | src/netgear_switch/sync_api.py:705-872 | On a switch that carries every request out over SNMP, NSDP or HTTP, the calls that return normally are exactly the allowed ones. |
| Protection.CallRefusals | src/netgear_switch/sync_api.py:705-872 | Over SNMP, NSDP or HTTP a call is refused by the guard, as impossible or for a missing VLAN exactly when it should be, with that error, and changes nothing the switch is configured with. |
| Protection.CycleLeavesPower | src/netgear_switch/snmp_write.py:446-485 | However a PoE cycle ends, the last SET taken decides the port's power, and with none taken it is as it was. |
| Protection.MembershipOkMeansDone | src/netgear_switch/sync_api.py:792-803 | Over any backend, a membership call that returns normally leaves the named port configured as asked, two named exclusions apart. |
| Protection.CycleOverSnmp | src/netgear_switch/snmp_write.py:487-507 | Nothing happens to a protected port; a normal return of the re-arm loop leaves the port powered, and it is left powered exactly if the on SET was made, or the off SET was refused on a powered port. |

## Left out

- Transports, sessions and their exceptions: only the device or session step a call triggers is modelled.
- HTML, XML and CLI text parsing, and form bodies: pages and tables are taken as parsed records.
- The asynchronous twins: the same logic with awaits.
- MD5, certificate and key handling, and certificate deployment.
- Management IP and reboot: their outcome cannot be observed through the library.
- Host names, descriptions, speed and flow control writes: one branch and one read-back each.
- CliWrites.CliWriter.Do: several `show` commands given at one point, polling included, count as one reading; the lag of the PoE status column is CliPoe's.
- CliShell.StackRestored: `exit` is taken to be honoured, as everything built on it does (CliShell.StackRestoredIff says what that amounts to), and a refused mode command to leave the mode alone.
- Facade.SyncSwitch.Run: the secrets' three separate fields are one map, and errors of the operations themselves are not told apart.
- Protection.StepSpares: a FASTPATH deletion over HTTP, which always fails, is given one error whichever step raises it; whether a switch carries out one plain request (an admin SET, an XML write) is one answer of the model.
- Protection.RunSpares: PVIDs are not among what is spared, since deleting a VLAN may move them; CliWrites.RunKeeps says when they stay.
- PoeControl.Rearm: a poll interval of zero or less, with which the loop need not end, is excluded.
