# A verified model of the VPN manager

The VPN manager drives several tunnel providers from a menu. This project models the parts of it that carry
logic of their own and proves what they keep: the keeper processes that hold a Happ or key tunnel open and share
one state file, the merge of a subscription's xray config and the nftables killswitch it runs under, the wire and
text codecs, the reconciliation of Happ's append-only log, the subscription cache, and the small collections
behind the menus. Sockets, nft, sysctl, xray and happd itself appear only as answers that may be anything.

| file | subject |
|---|---|
| `Keeper.dfy` | one keeper as a machine, one step per socket call, state-file access or sleep |
| `KeeperWorld.dfy` | any number of keepers, connects, switches, disconnects and kills, interleaved |
| `KeeperProgram.dfy` | `run_keeper` and `_hold_session` with their loops and locals, refining the machine |
| `KeeperBounds.dfy` | start frames, sleeps and re-arms, for one keeper and inside every interleaving |
| `KeeperCourse.dfy` | what every course of one keeper shows in its answers and records, without the machine's own terms |
| `KeeperMenu.dfy` | the connect action's poll: whose verdict it reads, and when it sees an error |
| `Framing.dfy` | length-prefixed frames over a socket that delivers in arbitrary pieces; the sniffer |
| `Routing.dfy` | first-match rule lists and what the rule merge keeps of them |
| `RuntimeConfig.dfy` | `build_runtime_config` on objects, marks set in place on a copy |
| `Killswitch.dfy` | the nft chain, the script's `on`, and which whitelist each kind of connect installs |
| `SubscriptionLog.dfy` | `_parse_providers` |
| `SubscriptionCache.dfy` | `fetch_subscription` over any history of calls, and the memo in front of the file |
| `Utf8.dfy`, `Base64.dfy`, `Text.dfy`, `SsKey.dfy` | `ss://` keys and the encodings they use |
| `Strace.dfy` | `decode_strace_string` and the frame check behind it |
| `Ipv6Guard.dfy` | the two kernel keys of the IPv6 guard |
| `Tunnels.dfy` | what providers' connects and disconnects can do to the tunnels and to what can be seen of them |
| `Guard.dfy` | connect and disconnect with the guard: one tunnel at a time, IPv6 off while there is one, and when not |
| `Menu.dfy` | unique labels and the choice by label |
| `Lookup.dfy`, `KeyStore.dfy`, `ServerMatch.dfy` | the key store, and how a name finds a server |
| `Common.dfy` | shared datatypes, decimal digits, suffixed names |

`dafny verify dfyconfig.toml` checks everything.

## What the proofs found

- A disconnect or switch while a keeper holds its session or sleeps is final, but one while the keeper still
  waits for the ack is not: the guarded write finds no record, takes the file back, and the keeper can re-arm.
  `StartFrameStillPossibleIff` gives the exact states from which another start frame can follow.
- The connect's poll looks at no pid. Its verdict can be another keeper's exactly when an older keeper is not gone
  yet (`VerdictCanBeForeignIff`).
- The "error" record of a keeper is overwritten by its own "exited" at once (the `finally` clause). A failure reads
  as a failure exactly when a poll falls in between (`KeeperFailedIff`), else as an early exit
  (`ReportedErrorReadsAsExit`).
- The filter that drops the subscription's catch-all looks at two keys only. It changes the routing of a packet
  exactly when a kept rule takes it over from a dropped one (`SameForIff`); dropped rules at the end are harmless, a
  dropped rule with matchers in the middle may not be.
- `_tunnel_target` can still name a freedom outbound: when no tagged proxy exists or tags repeat
  (`PinnedToFreedomIff`, `UntaggedProxyPinsToFreedom`).
- `happ-killswitch on` deletes the old table before loading the new one, so a table that nft refuses leaves no
  killswitch at all (`OnLeavesNoTableIff`, `RefusedInterfaceLeavesNoTable`).
- IPv6 guard: a disable that reached only the first key is reported as done by every later disable
  (`HalfDisabledStays`).
- `parse_ss_key` refuses the "/" that SIP002 allows before the query (`SlashRefused`).
- A store of keys that cannot be decoded counts as empty, so the next import replaces it, and entries without a host
  go too (`ImportLosesNothingIff`).
- The key providers and OpenVPN remove the record their active row is read from before they know whether the tunnel
  stops (src/providers/keys.py:679, src/providers/openvpn.py:126-127). When the stop is refused the tunnel stays up
  unseen (a key provider's until its keeper looks at the file): disconnect_all lists it as stopped and IPv6 comes back
  on under it, or a connect brings up a second tunnel beside it (`CanSurviveIff`, `CanLeakIff`, `CanStayBesideIff` say
  exactly when). IPv6 comes back on in the same way while a new tunnel cannot be seen yet.
- Labels that differ only in surrounding whitespace stay distinct on the menu and yet run the same action
  (`IndentedTwinIsUnreachable`).

## Model

| member | source | states |
|---|---|---|
| KeeperWorld.StartFrameStillPossibleIff | src/providers/happ.py:403-527 | From any world of keepers, a further start frame of a keeper is reachable by some interleaving exactly when its phase, its attempts and the ownership of the file allow it |
| KeeperWorld.WayToStart | src/providers/happ.py:403-527 | The reachable half: an interleaving that ends in the start frame is produced |
| KeeperWorld.DisownedSessionNeverRestarts | src/providers/happ.py:362-395 | A keeper that is holding, sleeping or rechecking while the file is not its own sends no start frame in any continuation |
| KeeperWorld.DisconnectDuringAckIsNotFinal | src/providers/happ.py:465-485 | After a disconnect during the ack wait some continuation still has a start frame of that keeper |
| KeeperWorld.KilledNeverActs | src/providers/happ.py:403-527 | A keeper that was killed takes no further step in any continuation, and its record stays as it was |
| KeeperWorld.ForeignRecordReplacedIff | src/providers/happ.py:304-316 | A keeper's step replaces a record of another pid exactly when it is one of the unguarded writes and the write succeeds; every other step leaves the file alone |
| KeeperWorld.WriteLandsIff | src/providers/keys.py:463-579 | For every phase that writes, the file afterwards: the claim and the key keeper's own report always land, the other records unless the file names another pid |
| KeeperWorld.RecordStays | src/providers/happ.py:304-316 | Over any part of a run, a claimed record stays as it is until its keeper writes, an unlink happens, or another keeper writes without looking |
| KeeperWorld.HappWritesGuarded | src/providers/happ.py:415-420 | In runs of Happ keepers the claim is the only write without a look at the file, in every reachable world |
| KeeperWorld.RunJustified | src/providers/happ.py:465-485 | Invariant of every run: whatever keeper or record says "connected" has an ack behind it, for a request id of a start frame sent before |
| KeeperWorld.ConnectedMeansAcknowledged | src/providers/happ.py:484-485 | A "connected" record found after a connect's unlink was written by a keeper whose start frame was acknowledged under its request id |
| KeeperWorld.RunNames | src/providers/happ.py:415-485 | Invariant of every run: whatever record a keeper or the file holds is of a spawned keeper, and if it says "connected" it names that keeper's server and, for Happ, its subscription |
| KeeperWorld.ConnectedNamesSpawned | src/providers/happ.py:484-484 | A "connected" record found after a connect's unlink names the server and the subscription that the keeper under its pid was spawned for, and that keeper was acknowledged |
| KeeperWorld.StaleExitReadAsVerdict | src/providers/happ.py:690-701 | One course of events in which it happens: an old keeper that is closing writes its "exited" between unlink and claim (the exact condition is KeeperMenu.VerdictCanBeForeignIff) |
| KeeperWorld.SplitWriteLosesClaim | src/providers/happ.py:310-316 | With the look and the write of a guarded write as two steps of the machine, a run in which a keeper claims the file in between ends with the claim lost; as one step after the claim the same write leaves it alone |
| KeeperWorld.PutIsAtomicIff | src/providers/happ.py:313-316 | The late write does what the write in one step would do exactly when the look still holds, or when the file has the record already |
| KeeperProgram.WriteState | src/providers/happ.py:304-316 | A write has the machine's effect: none when guarded and the file names another pid, else the record when the write succeeds |
| KeeperProgram.Judge | src/providers/happ.py:387-395 | A frame is passed over exactly when it is malformed, names another process or is neither "stopped" nor "finished"; of the others "finished" with data other than "15" alone counts as died |
| KeeperProgram.HoldSession | src/providers/happ.py:362-395 | The hold loop ends at the first observation that ends a session, tells death from stop by it, and leaves the keeper in the machine's state |
| KeeperProgram.HoldingIsSilent | src/providers/happ.py:362-395 | A held session writes nothing and sends nothing |
| KeeperProgram.AwaitAck | src/providers/happ.py:465-482 | The ack loop goes on only past an ack of its own request, ends with an error record otherwise, and follows the machine |
| KeeperProgram.StartSession | src/providers/happ.py:449-485 | Opening, start frame, ack and record follow the machine, and only an ack leads on to the hold |
| KeeperProgram.Announce | src/providers/happ.py:484-485 | The "connected" record is tried exactly as the machine does, whether or not the file allows it; what it names is KeeperCourse.CourseTold |
| KeeperProgram.Report | src/providers/happ.py:427-437 | An error branch tries its record and leaves |
| KeeperProgram.BackOff | src/providers/happ.py:507-508 | One sleep of the current length, after which the length triples up to 30 |
| KeeperProgram.Recheck | src/providers/happ.py:509-514 | The session is armed again exactly when the file still names this process |
| KeeperProgram.Attempt | src/providers/happ.py:447-514 | One turn of the outer loop follows the machine from one start frame to the next or to the end |
| KeeperProgram.TryBlock | src/providers/happ.py:421-514 | The whole try block follows the machine and never falls through: it leaves, throws, or is still running |
| KeeperProgram.Finally | src/providers/happ.py:524-527 | Whatever came before, the last record tried is "exited", under the guard, and nothing follows it |
| KeeperProgram.RunKeeper | src/providers/happ.py:403-527 | For every script of answers the program's variables and its effects, in order, are those of the step machine |
| KeeperBounds.BudgetKept | src/providers/happ.py:443-514 | For every stream of answers the starts sent and the seconds slept match the attempt the keeper is in |
| KeeperBounds.RearmsIff | src/providers/happ.py:493-514 | A held session is followed by another attempt exactly when fewer than 3 were made, its first end is a "finished" without "15" or a missing interface, and the file names the keeper after the sleep |
| KeeperBounds.RequestedStopIsFinal | src/providers/happ.py:389-394 | Once "stopped" or "finished 15" for its process is the first end of a session, no start frame follows |
| KeeperBounds.KeeperRunsMirrorSolo | src/providers/keys.py:463-579 | In every interleaving the course of each keeper, of either kind, is a run of the solitary machine on what it observed |
| KeeperBounds.KeeperBudget | src/providers/happ.py:443-514 | In every interleaving a keeper sends at most 3 start frames and sleeps at most 3 + 9 seconds |
| KeeperCourse.CourseTold | src/providers/happ.py:415-485 | On every course: before the first ack the record names what the keeper was started with, from the first ack on the config's server and, for Happ, the subscription; "connected" exactly from that ack on, until the keeper is closing |
| KeeperCourse.WrittenRecordsName | src/providers/happ.py:484-485 | The same of every record that reaches the file: a "connected" one comes after an ack for a start frame and names server and subscription of the setup |
| KeeperCourse.AckWaitEndsIff | src/providers/happ.py:465-482 | The wait for the ack goes on to "connected" exactly at "started" or "success" with the request id of the start frame, to an error exactly at another status with that id or at the deadline, and otherwise waits on |
| KeeperCourse.LostConnectionRecordedIff | src/providers/happ.py:515-523 | A lost connection is recorded as an error exactly before the first ack; any other exception always is |
| KeeperCourse.WriteLandsIff | src/providers/happ.py:304-316 | A record after the claim reaches the file exactly when the disk takes it and the file is missing, names no pid or names this one; the claim needs the disk only |
| KeeperCourse.SilenceIsChecked | src/providers/happ.py:379-386 | Every silence of a held session is followed by a look at the file: one that does not name the keeper ends the session, otherwise a known interface that is gone counts as a death |
| KeeperCourse.IfaceIsPrepared | src/providers/happ.py:433-433 | The interface looked for is that of the config, on every course |
| KeeperCourse.ClosingEnds | src/providers/happ.py:524-527 | A keeper that is closing is gone after its next step |
| KeeperCourse.GoneMeansExited | src/providers/happ.py:524-527 | The last thing a process that is gone did was to try an "exited" record with the names it had |
| KeeperCourse.BudgetCanBeUsedUp | src/providers/happ.py:443-514 | Some course has exactly 3 start frames and 3 + 9 seconds of sleep, so the bounds are exact |
| KeeperCourse.PreparationLeads | src/providers/happ.py:421-438 | How every course begins: a config leads to the first attempt, a missing or refused one to an error, which only the key keeper's missing config reports without a look at the file |
| KeeperCourse.AnnouncedIsHeld | src/providers/happ.py:484-492 | After an ack the session is held whether or not its record reached the file |
| KeeperMenu.AwaitKeeper | src/providers/happ.py:690-701 | The poll returns the verdict of the first decisive content and times out only when none was decisive |
| KeeperMenu.SuccessMeansAcknowledged | src/providers/happ.py:690-701 | A success verdict after a connect's unlink reports the very server that a keeper was spawned for, and happd acknowledged that keeper |
| KeeperMenu.VerdictIsOwnWhenAlone | src/providers/happ.py:668-701 | When every older keeper is gone, whatever the file holds until the next connect is the spawned keeper's |
| KeeperMenu.VerdictCanBeForeignIff | src/providers/happ.py:690-701 | At any moment of any run, the verdict of a connect made there can rest on another keeper's record exactly when some older keeper is not gone yet |
| KeeperMenu.ErrorMeansEnding | src/providers/happ.py:476-482 | After an unlink the file is always some keeper's, and an error in it names a keeper that is closing or gone |
| KeeperMenu.ErrorShownIff | src/providers/happ.py:515-526 | The file shows a keeper's error exactly from its report until an unlink, its own "exited" or an unguarded write removes it |
| KeeperMenu.KeeperFailedIff | src/providers/happ.py:690-701 | The first decisive poll reads as the keeper's failure exactly when it falls between such a report and what removes it |
| KeeperMenu.ReportedErrorReadsAsExit | src/providers/happ.py:427-430 | A keeper without a config reports its error and closes; a poll before the report and one after the close return an early exit |
| Framing.BigEndianRoundTrip | src/providers/happ.py:328-330 | Packing a length into four bytes and unpacking gives it back |
| Framing.BigEndianUnique | src/providers/happ.py:346-346 | Every four bytes are the packing of exactly the length they unpack to |
| Framing.Socket.Recv | src/providers/happ.py:341-345 | recv hands out any non-empty piece of what follows, nothing only at the end, or times out without moving |
| Framing.ReadExactly | src/providers/happ.py:340-352 | The fill loop returns exactly the next n bytes, or stops short at the end or at a timeout |
| Framing.RecvFrame | src/providers/happ.py:337-356 | A call takes exactly one whole frame off the stream, or ends before the frame is complete |
| Framing.RecvNext | src/providers/happ.py:379-386 | Begun at a frame boundary the call returns that very frame, or sees the end after the last one; a timeout leaves it at that boundary when nothing had been read, and otherwise at no boundary at all |
| Framing.RecvMany | src/providers/happ.py:378-386 | n calls, each timeout followed by another call: unless a timeout falls inside a frame the bodies are the first payloads and exactly the rest is left, for any cutting by recv and any timeouts at boundaries; the first timeout inside a frame keeps the bodies so far and leaves no boundary |
| Framing.FirstAnswer | src/providers/happ.py:117-131 | The answer of a request is the first payload that is no event; there is none when that one is malformed, the peer closes first, or a timeout comes |
| Framing.ReadParts | scripts/happd-sniff.py:34-46 | Header and body as read are together the very bytes of one frame |
| Framing.ForwardOne | scripts/happd-sniff.py:33-48 | One turn of the loop forwards the next frame whole, or ends the loop with what had gone through of it |
| Framing.Pipe | scripts/happd-sniff.py:31-55 | What is forwarded is an unchanged prefix of the source made of whole frames; only a destination that fails may have got the front of one more; on a clean end no whole frame is left behind |
| Framing.FromStart | src/providers/happ.py:328-330 | What follows the start of frame j on the wire is the encoding of the remaining payloads |
| Routing.CaughtLocallyIff | src/happmeta.py:106-110 | Exactly which packets the local rules take for themselves |
| Routing.KeepIsFilter | src/happmeta.py:539-541 | The filter drops a rule exactly when it is for "proxy" and for "tcp,udp", and leaves the others in order and number as they were |
| Routing.KeptIff | src/happmeta.py:539-541 | A rule is among the kept ones exactly when it was there and is not of that kind |
| Routing.MergedRoute | src/happmeta.py:538-550 | Where the merged list sends every packet: xray's own traffic to "direct", the bootstrap resolver to "dns-direct", the apps' port 53 to "dns-out", then the dns rule, then the kept rules, then tcp and udp to "proxy" |
| Routing.EveryPacketDecided | src/happmeta.py:545-550 | Every tcp or udp packet gets a decision, for every subscription |
| Routing.SameForIff | src/happmeta.py:538-550 | A tcp or udp packet past the local rules keeps its route exactly unless its first match is for "proxy" and "tcp,udp" and the first match not of that kind sends it elsewhere |
| Routing.MergeKeepsMeaningIff | src/happmeta.py:538-550 | For every set of possible packets, the merged list routes them past the local rules as the subscription's own list with default "proxy" does, exactly when no kept rule takes one of them over from a dropped one |
| Routing.DroppedSuffixKeepsMeaning | src/happmeta.py:539-541 | In particular when the dropped rules form a suffix, whatever packets are possible |
| Routing.IndependentKeepsMeaningIff | src/happmeta.py:538-550 | When matchers do not exclude each other, it is exactly the joint packet of each two rules that has to be looked at |
| Routing.MatcherRuleDroppedChangesMeaning | src/happmeta.py:539-541 | A dropped rule for one domain, followed by a direct catch-all, sends the domain direct |
| Routing.ExclusiveDomainsKeepMeaning | src/happmeta.py:539-541 | The same rule in front of a direct rule for another domain changes nothing when no packet is for both |
| Routing.BootstrapGoesDirect | src/happmeta.py:106-110 | Bootstrap lookups go to dns-direct before any rule of the subscription, in both modes |
| Routing.LookupsGoToTarget | src/happmeta.py:542-550 | In tunnel mode every lookup of the built-in resolver goes to the pinned target, and no other packet changes its way |
| Routing.LookupsFollowSubscriptionIff | src/happmeta.py:542-550 | Otherwise a lookup follows the subscription's own rules exactly unless a kept rule takes it over |
| RuntimeConfig.EndpointsOf | src/happmeta.py:787-799 | Exactly the complete endpoints of the proxy outbounds, each once |
| RuntimeConfig.TalksToIff | src/happmeta.py:787-799 | An outbound has an endpoint exactly when its protocol is none of freedom, blackhole and dns and the first server of its settings, of whichever of the three forms, is complete |
| RuntimeConfig.BootstrapHosts | src/happmeta.py:503-503 | Exactly the hosts of the proxy outbounds that are no addresses |
| RuntimeConfig.BootstrapResolver | src/happmeta.py:613-630 | The first resolver that is unrestricted and addressed by IP, else the fallback, hence always one addressed by IP |
| RuntimeConfig.UsableIff | src/happmeta.py:613-630 | A resolver is usable exactly when it is not limited to domains and the host of its address is an IP |
| RuntimeConfig.TunnelTarget | src/happmeta.py:579-602 | The last pure catch-all's target, or the first tagged proxy in place of a freedom outbound |
| RuntimeConfig.LastCatchAllIs | src/happmeta.py:586-589 | The default is the target of the last rule without inbound tags and matchers that has one, and "proxy" without such a rule |
| RuntimeConfig.OtherDefaultStays | src/happmeta.py:590-602 | A default that is no freedom outbound stays the target |
| RuntimeConfig.ProxyForFreedom | src/happmeta.py:590-602 | One that is gives way to the first proxy outbound with a tag |
| RuntimeConfig.PinnedToFreedomIff | src/happmeta.py:590-602 | Exactly when the pinned target is a freedom outbound all the same |
| RuntimeConfig.UntaggedProxyPinsToFreedom | src/happmeta.py:590-602 | It happens for a direct-by-default subscription whose only proxy outbound has no tag |
| RuntimeConfig.PinnedTargetNeverFreedom | src/happmeta.py:590-602 | Never with distinct tags and a tagged proxy |
| RuntimeConfig.TunnelLookupsNeverDirect | src/happmeta.py:542-550 | In tunnel mode all dns-in lookups of the merged config go to one target, which is no freedom outbound when the subscription's own tags are distinct, it has a tagged proxy, and none of its proxies is tagged dns-direct |
| RuntimeConfig.CopyOutbounds | src/happmeta.py:498-498 | New, pairwise different objects with the same content |
| RuntimeConfig.MarkProxies | src/happmeta.py:515-517 | Every proxy outbound gets the mark and no other outbound changes |
| RuntimeConfig.MarkedCopy | src/happmeta.py:514-517 | The copy differs from the original in the marks of its proxies only |
| RuntimeConfig.ChooseVia | src/happmeta.py:531-533 | "proxy" when a proxy outbound has that tag, else the first tag of a proxy outbound, none without one |
| RuntimeConfig.AddDnsOutbounds | src/happmeta.py:518-536 | dns-direct is appended, dns-out only without a dns outbound, and only the first dns outbound is chained, only when it had no dialer |
| RuntimeConfig.MergeOutbounds | src/happmeta.py:514-536 | The outbound half of the merge on a copy, the originals untouched |
| RuntimeConfig.BootstrapServers | src/happmeta.py:503-512 | The bootstrap entry is put in front only when there are such hosts, limited to exactly them, with the chosen resolver |
| RuntimeConfig.BuildRuntimeConfig | src/happmeta.py:487-554 | The merged outbounds, rules and resolvers as specified, in objects that are all new: the subscription's config does not change |
| RuntimeConfig.MarksAfterMerge | src/happmeta.py:514-536 | Every outbound but freedom, blackhole and dns ones carries 0x6B73 after the merge, those keep the mark they had, dns-direct has it, and nothing but mark and dialer of an outbound changes |
| RuntimeConfig.DialersAfterMerge | src/happmeta.py:519-536 | A dialer is set on the first dns outbound or the added dns-out alone, and only when it has none: "proxy" when a proxy has that tag, else the first tagged proxy |
| Killswitch.ChainAcceptsIff | scripts/happ-killswitch:110-127 | The chain accepts exactly: the mark 0x6B73, lo, happ-* and allowed interfaces, port 53, whitelisted addresses, the private, link-local and multicast ranges of both families by their top bits, and DHCP broadcasts |
| Killswitch.UnmarkedPublicDropped | scripts/happ-killswitch:110-127 | An unmarked packet off the allowed interfaces, no lookup and not whitelisted, to an IPv4 address outside 10/8, 172.16/12, 192.168/16, 169.254/16, 224/4 and 255.255.255.255 is dropped |
| Killswitch.UnmarkedPublicDropped6 | scripts/happ-killswitch:124-124 | The same in IPv6 outside fe80::/10 and ff00::/8 |
| Killswitch.StaysNearIff | scripts/happ-killswitch:121-124 | On the 32-bit number of an address: private exactly for the prefixes 0x0A, 0xAC1, 0xC0A8 and 0xA9FE, multicast for 0xE; in IPv6 the first 10 bits 0x3FA or the first 8 bits 0xFF |
| Killswitch.NameMatchesIff | scripts/happ-killswitch:100-104 | An interface pattern with a star at its end matches every name that begins with the rest, any other pattern exactly itself |
| Killswitch.MergedTrafficPasses | src/happmeta.py:514-518 | Under the chain, traffic of proxies and dns-direct of a merged config passes to any destination; the other outbounds gain nothing from the mark |
| Killswitch.WordsSplit | scripts/happ-killswitch:95-99 | Splitting a joined text at a blank gives the words of both sides |
| Killswitch.Firewall.Parse | scripts/happ-killswitch:69-77 | The argument loop reads extra addresses, interfaces and --no-conf in any order, and fails exactly on an --iface without a name |
| Killswitch.OneOptionMore | scripts/happ-killswitch:70-77 | What one more argument or pair of arguments adds to any list that is understood: --no-conf, --iface with a name, an address; --iface without a name makes it a usage error |
| Killswitch.Firewall.Gather | scripts/happ-killswitch:82-93 | The accumulated string splits into exactly the saved addresses, when they count, and the arguments, and is empty only without any |
| Killswitch.Firewall.On | scripts/happ-killswitch:66-129 | For every argument list the table afterwards: the chain for the merged whitelist, none when nft refuses it, the old one on a usage error or an empty whitelist |
| Killswitch.OnLeavesNoTableIff | scripts/happ-killswitch:107-127 | With a table loaded, `on` ends without any table exactly when the arguments are read, the whitelist text is not empty, and nft refuses an interface name or an address |
| Killswitch.RefusedInterfaceLeavesNoTable | scripts/happ-killswitch:100-127 | It does for every argument list with an interface name that nft does not accept |
| Killswitch.BuildArgs | src/killswitch.py:66-77 | The list built option by option is the one whose reading the next row is about |
| Killswitch.EnableArgsMeaning | src/killswitch.py:66-77 | The script reads the arguments enable builds back as they were meant |
| Killswitch.ResolveEndpointIps | src/killswitch.py:135-151 | Exactly the addresses of the hosts that resolve, each once and in sorted order |
| Killswitch.Manager.Enable | src/killswitch.py:49-77 | A failed detect is fatal only without extra addresses; otherwise the script runs on the arguments and the saved addresses are replaced only by detected ones |
| Killswitch.Manager.ResumeForHapp | src/killswitch.py:112-132 | Nothing happens when the killswitch is off and no mode asks for it; with addresses the rules are rebuilt, from these alone when there are any; without, a loaded table stays and the saved addresses are detected anew, or a plain enable follows |
| Killswitch.Manager.PrepareHappConnect | src/vpn_manager.py:146-165 | After the killswitch half of a Happ connect, with some resolvable host, the whitelist is exactly the resolved set, or nft refused it and there is no table |
| Killswitch.Manager.SuspendFor | src/killswitch.py:102-109 | The table goes and the persisted mode stays |
| Killswitch.Manager.PrepareOtherConnect | src/vpn_manager.py:166-176 | Before any other connect: in "all" mode with known endpoints the chain for the saved or detected addresses and the endpoints is loaded, or refused with no table left, or the whitelist was empty and nothing changed; in every other case the killswitch is off |
| SubscriptionLog.ReadUpdates | src/happmeta.py:127-129 | Every id with an update line is noted with the url and place of a line of its own that no later update line of the id follows, and no other id is noted |
| SubscriptionLog.LastUpdateIs | src/happmeta.py:127-129 | The last update of an id is an update line of it without a later one, and there is none exactly without such a line |
| SubscriptionLog.PickClosest | src/happmeta.py:184-187 | Among ids whose urls have scheme and host: as far as any other id's path agrees with the path of the added line, so does the chosen one's, and further than those of the ids before it |
| SubscriptionLog.SimilarityIsAgreement | src/happmeta.py:158-168 | Comparing similarities is comparing how far the paths agree, scheme and host left out |
| SubscriptionLog.SimilarityCounts | src/happmeta.py:158-168 | The similarity reaches m exactly when the first m characters agree, of the path, or of the whole url when it has no scheme or host |
| SubscriptionLog.AddedLineGoesToClosest | src/happmeta.py:170-188 | An added line with a new url, no older than the host's update lines, changes exactly one id: the first in log order whose path agrees with the line's as far as any |
| SubscriptionLog.ScanForMax | src/happmeta.py:187-187 | The scan of max stops at the first of the greatest numbers |
| SubscriptionLog.CommonPrefixIsLongest | src/happmeta.py:158-168 | The counted length is that of the longest common prefix |
| SubscriptionLog.Reconcile | src/happmeta.py:117-190 | Both passes together compute the fold of the added lines over the ids read |
| SubscriptionLog.AddedLineChangesAtMostOne | src/happmeta.py:171-190 | An added line gives at most one id a new url, its own, and that id is on its host |
| SubscriptionLog.StaleLineIgnored | src/happmeta.py:181-183 | An added line older than the newest update line of the host has no effect |
| SubscriptionLog.AddedLineOtherwise | src/happmeta.py:170-189 | A url that some id has already changes nothing; a host without a real id gets its synthesized url |
| SubscriptionLog.AllLinesKeep | src/happmeta.py:170-190 | Over any log: ids and their hosts stay, distinct urls stay distinct, nothing is synthesized for a host with a real id |
| SubscriptionLog.SingleIdCarriesNewest | src/happmeta.py:153-190 | The only real id of a host carries the url of the last of its update line and the added lines for the host |
| SubscriptionLog.UnknownHostCarriesLastAdded | src/happmeta.py:170-190 | A host without a real id carries the url of its last added line, and is there only if there is one |
| SubscriptionLog.ProviderOfHostIff | src/happmeta.py:192-197 | Exactly which keys of the result belong to a host, sha1 taken as free of collisions |
| SubscriptionLog.OneProviderUnderRealId | src/happmeta.py:192-197 | A host with one real id has exactly one provider, under that id |
| SubscriptionLog.OneProviderCarriesLastLine | src/happmeta.py:153-197 | And its url in the result is that of the host's last line, the id's newest update or a later added line |
| SubscriptionLog.OneSynthesizedProvider | src/happmeta.py:192-197 | A host without a real id has exactly one provider when a line added it, and none otherwise |
| SubscriptionCache.Cache.Fetch | src/happmeta.py:266-318 | A forced call, one for another url and one an hour after the stored answer return the new list whenever the provider gives one; an unforced call within the hour returns the cached list and changes nothing; so does a call without an answer. What is returned is what the cache then holds exactly unless a new answer differed and could not be written |
| SubscriptionCache.CacheHoldsHistory | src/happmeta.py:291-314 | Over any run of calls, failing writes included: servers and url are those of the last answer that was stored, info is that of the latest header-bearing answer in the streak of the same url |
| SubscriptionCache.StreakGoesOn | src/happmeta.py:302-310 | An answer without headers continues the streak exactly for the same url |
| SubscriptionCache.UnaskedIff | src/happmeta.py:283-289 | Over any history: the provider is left unasked exactly when the call is not forced and the last stored answer was for its url and is less than 3600 s old |
| SubscriptionCache.AnsweredIff | src/happmeta.py:283-310 | A call stores its answer exactly when it is forced or not that lately answered, can fetch, gets a list, and the write works |
| SubscriptionCache.CacheMoves | src/happmeta.py:266-318 | After every call the cache holds its list in exactly that case, else the list it held before |
| SubscriptionCache.Memo.Read | src/happmeta.py:400-413 | A memoized read returns what reading the file would, when (inode, mtime, size) identifies the content |
| Utf8.RoundTrip | src/providers/keys.py:172-172 | Decoding gives every string back from its encoding |
| Base64.LooseInvertsEncode | src/providers/keys.py:92-98 | The tolerant decoder inverts base64 of every byte string in both alphabets, padded or not |
| Base64.ForeignSkipped | src/providers/keys.py:92-98 | Characters outside the alphabet make no difference, wherever they stand |
| Base64.AlphabetIs | src/providers/keys.py:92-98 | The digits are those of tables 1 and 2 of RFC 4648 |
| Base64.DigitsDecodeIff | src/providers/keys.py:92-98 | A text of digits decodes exactly when its length is not one more than a multiple of four |
| SsKey.ParseSsKey | src/providers/keys.py:145-219 | The parser, step by step, computes the meaning that the lemmas below are about, errors included |
| SsKey.ReadServer | src/providers/keys.py:161-200 | The two branches, with and without userinfo |
| SsKey.ReadUserinfo | src/providers/keys.py:169-189 | Legacy JSON with or without a host of its own, and method:password |
| SsKey.HostPortRoundTrip | src/providers/keys.py:101-116 | host:port and [host]:port read back, colons in the host included |
| SsKey.SplitPrinted | src/providers/keys.py:119-132 | Query and fragment come off as they were put on |
| SsKey.CredentialsRoundTrip | src/providers/keys.py:92-98 | method:password comes back from its base64, for any password |
| SsKey.ParseInvertsPrint | src/providers/keys.py:145-219 | Printing a key and parsing gives the same fields, for every supported method, non-empty password, host form, port, alphabet and harmless query or fragment |
| SsKey.LegacyLinkMeans | src/providers/keys.py:190-210 | A link without "@", the base64 of a JSON object: the key has its server, port, method and password, or the error is the first of bad JSON, bad port, no usable server, unsupported method, empty password |
| SsKey.JsonUserinfoMeans | src/providers/keys.py:174-184 | A JSON object in front of "@": a server of its own wins over host and port behind it, which count otherwise |
| SsKey.JsonWithoutHostMeans | src/providers/keys.py:174-184 | With nothing behind "@" the object has to name the server |
| SsKey.ColonlessCredentialsRefused | src/providers/keys.py:185-189 | Credentials that are neither JSON nor method:password are refused before host and port are looked at |
| SsKey.UnsupportedQueryRefused | src/providers/keys.py:154-159 | A query with plugin, or else with prefix, is refused for that before anything in front of it is read |
| SsKey.PortRefused | src/providers/keys.py:111-115 | Ports outside 1..65535 are out of range; an empty one, or one that starts with no digit, is garbled |
| SsKey.PortInAnyScript | src/providers/keys.py:111-113 | A port in the digits of any script reads as its number |
| SsKey.PortWithoutValueRefused | src/providers/keys.py:111-113 | One with a digit that has no decimal value is refused as such |
| SsKey.PortlessRefused | src/providers/keys.py:102-110 | No colon, no closing bracket, or no colon right behind it is garbled |
| SsKey.EmptyHostRefused | src/providers/keys.py:111-112 | So is an empty host, in either form |
| SsKey.NameDropsAttribution | src/providers/keys.py:123-128 | The display name is what stands before the first " / ", stripped, and absent when nothing is left |
| SsKey.HasSchemeIff | src/providers/keys.py:149-151 | The scheme is ss:// in any case |
| SsKey.SlashRefused | src/providers/keys.py:108-113 | Every such link with a "/" behind the port is refused as garbled |
| SsKey.AcceptedIsUsable | src/providers/keys.py:202-219 | Whatever is accepted has a host, a port in range, a supported method, a password and a name |
| SsKey.AcceptedCanBeReprinted | src/providers/keys.py:184-219 | Every accepted SIP002 link can be printed from its fields alone and is then accepted with the same fields |
| Strace.ReadDigits | scripts/happd-extract-config.py:36-43 | The digit loop takes the longest run of up to three octal digits |
| Strace.Decode | scripts/happd-extract-config.py:20-50 | The decoder with its cursors computes the token-wise meaning, errors included |
| Strace.NextToken | scripts/happd-extract-config.py:30-49 | The body of the loop takes exactly one token: a character, an octal escape, a shorthand or an escaped character |
| Strace.StepProgresses | scripts/happd-extract-config.py:29-49 | Each token moves the cursor forward, and the bytes so far with the meaning of the rest stay the meaning of the whole |
| Strace.LetterEscapeMeans | scripts/happd-extract-config.py:22-48 | A backslash before n, t, r, f, v, a or b is that control character, before any other character but an octal digit it is that character, and decoding goes on behind it |
| Strace.OctalEscapeMeans | scripts/happd-extract-config.py:36-43 | Up to three octal digits are the byte they count to, and more than 255 is an error |
| Strace.DecodeInvertsQuoting | scripts/happd-extract-config.py:20-50 | Decoding inverts every way to quote a byte sequence: plain characters, shorthands, octal of any length that no digit prolongs |
| Strace.DecodeInvertsStrace | scripts/happd-extract-config.py:20-50 | strace's own choice is one of these ways, so decoding gives every byte sequence back |
| Strace.WholeFrameIff | scripts/happd-extract-config.py:53-71 | Passing the length check means being one whole frame of exactly the bytes behind the header |
| Strace.ExtractBody | scripts/happd-extract-config.py:53-71 | A body is extracted exactly from the reads that decode to one whole frame |
| Ipv6Guard.Kernel.Set | src/ipv6guard.py:52-68 | Both keys, or the first only, or none, depending on which write is refused first |
| Ipv6Guard.Kernel.Disable | src/ipv6guard.py:37-42 | The keys and the report of a disable, whatever the calls answer |
| Ipv6Guard.Kernel.Enable | src/ipv6guard.py:45-49 | The keys and the report of an enable, whatever the calls answer |
| Ipv6Guard.ReportedDisableIsOff | src/ipv6guard.py:37-42 | A disable that reports success has IPv6 off, whatever its reads and writes answered |
| Ipv6Guard.AllKeyAsWantedIff | src/ipv6guard.py:37-68 | Exactly when the first key ends up as wanted |
| Ipv6Guard.BothKeysAsWantedIff | src/ipv6guard.py:26-68 | Exactly when a reported success speaks for both keys |
| Ipv6Guard.HalfDisable | src/ipv6guard.py:52-68 | A second key that refuses leaves the first one off and the disable reported as failed |
| Ipv6Guard.HalfDisabledStays | src/ipv6guard.py:26-42 | Over any run of disables a half-done one is never completed, and each is reported as done |
| Ipv6Guard.InStepStays | src/ipv6guard.py:52-68 | Unless a write is refused halfway, the two keys stay equal over any run and the last action that works decides |
| Tunnels.SuccessSeesNothing | src/vpn_manager.py:230-250 | In every course of disconnect_all without a failure nothing can be seen any more, and only connections whose refused stop takes their record along get out of sight |
| Tunnels.CanSurviveIff | src/vpn_manager.py:237-245 | A successful disconnect_all can leave a given visible tunnel up exactly when its provider reads the active row from a record it removes first and its stop may be refused |
| Tunnels.AlwaysClearsIff | src/vpn_manager.py:230-250 | Its success always means that everything visible is down exactly when nothing visible is such a connection |
| Tunnels.RefusedStopIsListedAsStopped | src/providers/keys.py:674-687 | The run: one refused stop, disconnect_all succeeds, lists the tunnel as stopped, and it is up and cannot be seen |
| Tunnels.CourseLeaves | src/vpn_manager.py:182-195 | After a successful guarded_connect the target is up, and besides it only what was out of sight before or got lost on the way |
| Tunnels.CanStayBesideIff | src/vpn_manager.py:182-195 | A successful guarded_connect can leave a given other visible tunnel up exactly when that one's stop may be refused by such a provider and the connect does not take its place |
| Tunnels.CanGoUnseenIff | src/vpn_manager.py:206-212 | After a disconnect something can be up with nothing to be seen exactly when a tunnel was out of sight already or the stop itself may put one there |
| Guard.ActiveConnections | src/vpn_manager.py:57-63 | Exactly what the probes can see, over all providers |
| Guard.SyncIpv6Guard | src/vpn_manager.py:215-222 | IPv6 is asked off exactly when something visible is up |
| Guard.DisconnectProvider | src/vpn_manager.py:234-245 | One provider's turn: exactly what was visible of it is listed, what is listed as stopped is down unless its refused stop put it out of sight, and without failures nothing visible of the provider is left |
| Guard.DisconnectAll | src/vpn_manager.py:230-250 | One of the courses the Tunnels rows speak of; success means nothing can be seen, what is listed as stopped is down or lost on the way, and when nothing visible is risky nothing gets lost |
| Guard.TearDownOthers | src/vpn_manager.py:182-190 | Either all other visible connections came down by a successful disconnect_all, or the action ends with IPv6 off exactly while something visible is up |
| Guard.GuardedConnect | src/vpn_manager.py:178-203 | A success is one of the courses the Tunnels rows speak of: the target is up, and besides it at most what was out of sight or got lost; when the guard's calls work IPv6 is off after a success, without a probe of the new tunnel, and otherwise off exactly while something visible is up; without a warning no visible tunnel has IPv6 on |
| Guard.GuardedDisconnect | src/vpn_manager.py:206-212 | A reported disconnect is down, and IPv6 is off exactly while something visible is up when the calls work |
| Guard.InSyncWithAllIff | src/vpn_manager.py:215-222 | A guard in step with the probes is wrong exactly when something is up and none of it can be seen |
| Guard.CanLeakIff | src/vpn_manager.py:206-222 | A disconnect whose guard calls work can end with a tunnel up and IPv6 on exactly when a tunnel is out of sight already or the stop itself may put one there |
| Guard.LeakingDisconnects | src/vpn_manager.py:206-222 | Two such runs: a refused stop that removed the record, and the disconnect of anything else while the tunnel cannot be seen yet |
| Guard.PerformAll | src/vpn_manager.py:136-250 | Any connects, disconnects and disconnect-alls in a row, time passing before each: a successful connect leaves its own tunnel and what was lost, nothing else brings one up, only risky connections get lost, and after every action whose sysctl calls work IPv6 is off after a connect and otherwise off exactly while something visible is up |
| Guard.SureRunIsGuarded | src/vpn_manager.py:136-250 | As long as before every action nothing that is up is risky, IPv6 is off exactly while something is up after every action whose calls work, and from a successful connect on there is at most one tunnel |
| Guard.RunIsGuardedIff | src/vpn_manager.py:136-250 | In every run IPv6 is wrong after an action whose calls work exactly when no connect succeeded in it and all that is up has been lost |
| Menu.FirstFreeSuffix | src/vpn_manager.py:1143-1147 | The search ends, at the first free number, for every set of labels |
| Menu.UniqueLabels | src/vpn_manager.py:1127-1151 | Position by position the action is kept and the label is the original, or its first free suffixed form when an earlier entry has it |
| Menu.UniqueFormIsUnique | src/vpn_manager.py:1134-1150 | The counts that shorten the search change nothing: the result is determined by the definition alone |
| Menu.LabelsAreDistinct | src/vpn_manager.py:1127-1151 | The labels are pairwise distinct, each the original or the original with " (n)", n at least 2 |
| Menu.RunItems | src/vpn_manager.py:1160-1173 | The first entry whose stripped label is the selected line runs |
| Menu.EachRunsItsOwnIff | src/vpn_manager.py:1164-1173 | Every entry runs its own action exactly when the stripped labels are pairwise distinct and not blank |
| Menu.StrippedMenuRunsItsOwn | src/vpn_manager.py:1127-1173 | A disambiguated menu of labels without surrounding whitespace always does |
| Menu.IndentedTwinIsUnreachable | src/vpn_manager.py:1164-1173 | A label that differs from an earlier one in indentation only runs that one's action |
| Lookup.PicksIff | src/happmeta.py:715-719 | Exactly which element is picked: the first exact match, or the only loose one when there is no exact match |
| KeyStore.Store.AddServer | src/providers/keys.py:328-342 | A key is added exactly when its key fields are new; then the loaded entries are followed by it under a free name, else the file is unchanged |
| KeyStore.SameKeyIff | src/providers/keys.py:302-305 | Two entries have equal key fields exactly when they are of one kind with the same host, port and method and password, or id |
| KeyStore.ImportLosesNothingIff | src/providers/keys.py:290-342 | An import that adds a key keeps everything the file held exactly when the file could be decoded and all its entries have a host |
| KeyStore.ImportKeeps | src/providers/keys.py:328-342 | One import moves, changes and drops nothing and keeps names and key fields distinct |
| KeyStore.RunKeeps | src/providers/keys.py:328-342 | Over any run of imports the store only grows at the end, holds exactly the old and the imported key fields, and stays distinct in names and key fields |
| KeyStore.RunLoadsBack | src/providers/keys.py:290-299 | What a run of imports saved is loaded back entry by entry |
| KeyStore.EmptyStoreCounts | src/providers/keys.py:302-342 | From an empty store there is one entry per different key, however often and in whatever order they came |
| KeyStore.LaterDuplicateChangesNothing | src/providers/keys.py:331-332 | A key that any earlier import brought in leaves the store as it is |
| KeyStore.StoredNameFindsItself | src/providers/keys.py:345-351 | After any imports into a store of distinct names, every stored name finds that very entry, also when it is part of other names |
| KeyStore.AmbiguousNameFindsNothing | src/providers/keys.py:345-351 | A name that is not stored and fits two entries finds none |
| KeyStore.FoundIff | src/providers/keys.py:345-351 | A name finds exactly the first entry called that, or else the only entry whose lower-cased name has the lower-cased name as a stretch of it |
| Text.ContainsIff | src/providers/keys.py:345-351 | Containing is having a stretch equal to the other text |
| ServerMatch.MatchIsCandidate | src/happmeta.py:702-719 | Nothing but a substring match is ever picked |
| ServerMatch.MatchIff | src/happmeta.py:702-719 | Exactly which server is picked, with substrings spelled out: the first of that name or the only fitting one of the known subscription, and when that settles nothing the same in the whole list |
| ServerMatch.MatchedIs | src/providers/happ.py:557-575 | Whose row is active: the server of a connected record, else the GUI's last one when it runs, and nobody's without a tunnel |
| ServerMatch.RecordedServerIsPicked | src/happmeta.py:711-717 | A name with a subscription id that the list has picks a server with both |
| ServerMatch.AmbiguousPicksNothing | src/happmeta.py:711-719 | Without an exact match, two substring candidates select nothing: in the known subscription, without one, or when the known one has no candidate |
| ServerMatch.Connections | src/providers/happ.py:535-595 | Exactly one active row when a tunnel is up and none otherwise, for any server list; the servers in order, the matched position active |
| ServerMatch.RecordedServerIsActive | src/providers/happ.py:557-595 | When the keeper's record names a server of the list with its subscription, an active row has that name and id |

## Left out

- Reading the state file is taken as reliable; in the code a read that fails counts as an absent file. Writing may fail at every step.
- Process ids are never reused, and request ids are fresh numbers; a kill ends a keeper without its `finally` clause.
- Each read-check-write of the state file is one step, as the source's own comment accepts; `KeeperWorld.SplitWriteLosesClaim` shows what the window costs.
- KeeperProgram.RunKeeper: runs on a finite script of answers, so it speaks of every finite prefix of a run and says nothing about a keeper that holds for ever.
- SubscriptionLog.Reconcile: the log is a sequence of events already cut out by the regular expressions; names of providers and the routing.json fallback, which never touch urls, are not modelled.
- SsKey.ParseSsKey: percent decoding, query parsing, JSON and what digits beyond ASCII are worth are arbitrary functions; the limit of `int` on very long digit strings is not modelled.
- Utf8.RoundTrip: `Decode` turns each malformed byte into one U+FFFD, where CPython may join several; well-formed text is not affected.
- KeyStore.StoredNameFindsItself: `str.lower` is an arbitrary function; the random uid is a parameter.
- Routing.MergeKeepsMeaningIff: matchers besides the inbound tag and the network are opaque conditions; which of them can hold together is the parameter of possible packets. A rule that names both an outbound and a balancer is read as naming the outbound, and a network is "tcp", "udp", one of the two lists of both, or matches nothing.
- RuntimeConfig.BuildRuntimeConfig: inbounds, the log section and the rewriting of a balancer's strategy.
- RuntimeConfig.BootstrapResolver: what is an IP address, and the host of a DoH url, come from arbitrary functions.
- Framing.FirstAnswer: a payload that is no JSON object counts as malformed, also where the code would raise on it.
- KeyStore.Store.AddServer: entries of the stored list that are no objects, which loading drops, are not represented.
- Killswitch.Firewall.On: sourcing the conf file is taken as reading the one variable it sets; nft's reading of addresses and interface names is an arbitrary function.
- Guard.GuardedConnect: providers are honest, apart from records that go before the stop is known; Happ's optional launch of its GUI (src/providers/happ.py:642-651), a reported success without a tunnel, is not modelled; a tunnel becomes visible between two actions, not within one; the killswitch half of the action is `Killswitch.Manager.PrepareHappConnect` and `Killswitch.Manager.PrepareOtherConnect`.
- Guard.GuardedDisconnect: a Happ tunnel keeps its row's name; in the code a row whose record is gone is called "Happ".
- Killswitch.Manager.PrepareOtherConnect: which endpoints and interface names the providers list (src/vpn_manager.py:286-320) is a parameter.
- happd and xray: their answers are arbitrary, balancer selection, DNS server choice and TUN handling are not modelled.
- The VLESS parser, WireGuard, OpenVPN and NetworkManager providers: command wrappers and weaker versions of the codecs above.
- The cache of happd's process list, pings, speed tests, notifications, settings and all drawing.
