# Verified models of ygg

Dafny models of the parts of ygg that decide where a packet or a connection goes, with proofs of what they
keep in every run. Each part has an imperative model (a class or methods with the loops of the Go code),
proved to do exactly what a state machine or a specification function says, and lemmas about that state
machine over all runs.

* **Addresses** (`bits`, `addresses`, `address_laws`, `genkeys`): the bit loops that turn a 256-bit key into an
  address or a subnet and back, what survives the trip, the transform used for lookups, and why a better key
  has a higher address.
* **Key store** (`keystore_spec`, `keystore_laws`, `keystore_fates`, `keystore`): which key a destination belongs to, the packet held back
  for each unknown destination, and timers that may go off arbitrarily late.
* **Transport manager** (`transport_spec`, `transport_laws`, `transport_theorems`, `transport_manager`, `transport_dial`):
  routing by most specific pattern, the snapshot-dial-commit protocol, the forest of tracked connections, the
  mutators with their delayed closes, and the retry loop of Dial and Listen while other callers run.
* **Firewall** (`packet_parser`, `firewall`): the IPv6 extension header walk and the flow table that forgets.
* **TUN supervisor and packet pipeline** (`tun_supervisor`, `tun_pipeline`, `tun_fates`, `tun_writer`): device sessions under any
  order of messages, and pooled buffers from the core to a device.
* **Handshake** (`handshake`): the tagged-field message, for any list of fields in any order.
* **Peer fetcher** (`autopeer`): the aggregate list and results that come back late.

Where steps of different goroutines can interleave, one step is one section under a lock, one actor message, one
operation on a channel, a pool or a device, or the copying of one packet; a run is any list of steps.

Two findings differ from what the repository's documentation says:

* The transport manager's documentation promises that no resource survives on the wrong network
  (`ygglib/transport/manager.go:71-74`). That holds for every dialed connection and every listener
  (`DialedOnRightNetwork`). A connection accepted between the moment its listener is put on a close list and the moment
  the listener is closed escapes (`AcceptedConnectionCanEscape` gives the run): it ends up tracked on the old network.
  Exactly: in a run nothing is ever on a wrong network without being on a close list, if and only if no connection is
  ever accepted from a listener that is itself on a wrong network at that moment (`RightNetworkExactly`), and only such
  connections can be misrouted (`OnlyStraysAreMisrouted`). The same window lets a closed manager start tracking a
  connection (`ClosedManagerStep`).
* A better key is meant to have a higher address (`yggd/genkeys/main.go:1-10`). The key of 256 zero bits, the best of
  all, overflows the run-length byte and has the lowest address; `BetterKeyHigherAddress` says exactly when the claim
  holds.

## Model

| member | source | states |
|---|---|---|
| Addresses.AddrForKey | ygglib/address/address.go:51-94 | the bit loop yields, for a 32-byte key and only then, the prefix, the leading ones of the inverted key as a wrapping byte, and the whole bytes of what follows, cut or zero-padded |
| Addresses.SplitInverted | ygglib/address/address.go:67-88 | the loop over inverted bits counts the run, skips the first zero and packs the rest into whole bytes |
| Addresses.CounterWraps | ygglib/address/address.go:69-77 | the run-length byte is exact for runs up to 255 and wraps to zero at 256 |
| Addresses.SubnetForKey | ygglib/address/address.go:101-114 | the first eight bytes of the address with the subnet bit set; nothing for a key of another length |
| Addresses.GetKey | ygglib/address/address.go:118-142 | the or-and-shift loops set every bit of the partial key as the run length and the address bits say, and all others to one |
| Addresses.SubnetGetKey | ygglib/address/address.go:146-150 | the partial key of a subnet is that of the zero-filled address |
| Addresses.KeyXform | ygglib/core/core.go:104-106 | keys are looked up by the partial key of their subnet |
| AddressLaws.PartialKey | ygglib/address/address.go:116-142 | for every key but zero, the partial key agrees with the key on the run, the first one bit and all whole bytes that fit, and is all ones after |
| AddressLaws.ZeroKeyReadsBack | ygglib/address/address.go:72-80 | the zero key overflows the run length and reads back as the key of all ones |
| AddressLaws.AddressRoundTrip | ygglib/address/address.go:51-142 | deriving from the partial key gives the address back if and only if it has the node prefix and no bits past the last whole byte |
| AddressLaws.ShortRunAddressRoundTrip | ygglib/address/address.go:51-142 | so for every node address with a run length of at most 143 |
| AddressLaws.AddressStable | ygglib/address/address.go:51-142 | an address derived from any key, the zero key included, is found again through its partial key |
| AddressLaws.SubnetRoundTrip | ygglib/address/address.go:101-150 | the same round trip for subnets, if and only if |
| AddressLaws.ShortRunSubnetRoundTrip | ygglib/address/address.go:101-150 | so for every subnet with a run length of at most 207 |
| AddressLaws.SubnetStable | ygglib/address/address.go:101-150 | a subnet derived from any key is found again through its partial key |
| AddressLaws.BloomTransformAgrees | ygglib/core/core.go:104-106 | the lookup transform is idempotent and gives the same for a key, the partial key of its address and the partial key of its subnet |
| AddressLaws.TransformBits | ygglib/core/core.go:104-106 | for every key but zero, the transform keeps the run, the first one bit and all whole bytes that fit the subnet, six at most, and sets all the rest |
| GenKeys.IsBetter | yggd/genkeys/main.go:61-71 | true exactly if the new key is lexicographically smaller |
| GenKeys.Irreflexive | yggd/genkeys/main.go:61-71 | no key is better than itself |
| GenKeys.Transitive | yggd/genkeys/main.go:61-71 | better than better is better |
| GenKeys.Trichotomy | yggd/genkeys/main.go:61-71 | of two different keys one is better |
| GenKeys.DoKeys | yggd/genkeys/main.go:73-93 | a worker keeps the best key of its stream, every report beats all earlier ones and every key tried up to it, and the counts add up to the keys tried |
| GenKeys.Collect | yggd/genkeys/main.go:47-58 | the collector ends with a received key that no received key beats |
| GenKeys.CollectorBeatsTries | yggd/genkeys/main.go:44-93 | of all keys that a worker had tried by its last report received, none is better than the collector's |
| GenKeys.BetterKeyHigherAddress | yggd/genkeys/main.go:61-71 | a better key's address is at least as high, if and only if the better key is not zero or the other starts with 113 ones |
| KeyStores.KeyStore.SendToAddress | ygglib/ipv6rwc/ipv6rwc.go:77-104 | a packet for a known address goes to its key and re-arms the record; otherwise it replaces the held-back one, arms a timer and starts a lookup |
| KeyStores.KeyStore.SendToSubnet | ygglib/ipv6rwc/ipv6rwc.go:106-133 | the same for a subnet, and no address entry or address buffer changes |
| KeyStores.KeyStore.UpdateKey | ygglib/ipv6rwc/ipv6rwc.go:135-164 | a new key is indexed by key, address and subnet, and what was held back for either goes out to it and is neither replaced nor expired; a known one is re-armed |
| KeyStores.KeyStore.InfoTimedOut | ygglib/ipv6rwc/ipv6rwc.go:166-183 | a record's timeout removes exactly the entries that are still this record |
| KeyStores.KeyStore.AddressBufferTimedOut | ygglib/ipv6rwc/ipv6rwc.go:94-100 | an address buffer's timeout gives its packet up only if the buffer is still the one held |
| KeyStores.KeyStore.SubnetBufferTimedOut | ygglib/ipv6rwc/ipv6rwc.go:123-129 | the same for a subnet's buffer |
| KeyStores.KeyStore.WritePC | ygglib/ipv6rwc/ipv6rwc.go:283-326 | which packets are accepted, with every error case, and that only accepted ones change anything |
| KeyStores.KeyStore.ReadPC | ygglib/ipv6rwc/ipv6rwc.go:228-281 | the first packet is passed up that is for this node and comes from an address of the key that sent it, cut to the caller's room, and none before it; or the core's failure; the state is that of the run of what was read |
| KeyStores.KeyStore.SetMTU | ygglib/ipv6rwc/ipv6rwc.go:334-344 | the MTU in force is the requested one kept between 1280 and the core's |
| KeyStoreLaws.PacketsReachTheirKey | ygglib/ipv6rwc/ipv6rwc.go:77-183 | in every run, every packet goes to a key its destination is derived from, every indexed destination belongs to a live record, and a packet is held back only for its own unknown destination and after a lookup |
| KeyStoreLaws.RunKeepsRouting | ygglib/ipv6rwc/ipv6rwc.go:77-183 | the invariant behind it, including that everything live has a timer armed |
| KeyStoreLaws.PacketsAreConserved | ygglib/ipv6rwc/ipv6rwc.go:77-164 | in every run each accepted packet is in exactly one place: given to the core once with its bytes, held back, replaced, or timed out |
| KeyStoreLaws.FatesAreFinal | ygglib/ipv6rwc/ipv6rwc.go:77-164 | what was sent, replaced or timed out stays so |
| KeyStoreLaws.LateTimersAreHarmless | ygglib/ipv6rwc/ipv6rwc.go:85-183 | in every run, a timer ever armed does something if and only if its record or buffer is still there, and once that is gone it never does anything again |
| KeyStoreLaws.LookupFindsOwner | ygglib/ipv6rwc/ipv6rwc.go:102-131 | the lookup for a destination is transformed like the full key of its owner |
| KeyStoreFates.WriteAnswers | ygglib/ipv6rwc/ipv6rwc.go:283-326 | each answer to a write, and exactly for which bytes it is given |
| KeyStoreFates.WriteGoes | ygglib/ipv6rwc/ipv6rwc.go:77-133 | an accepted packet goes to the key of its destination, which is re-armed, or is held back, alone, with its timer and its lookup; nothing else changes |
| KeyStoreFates.DeliveredExactly | ygglib/ipv6rwc/ipv6rwc.go:243-279 | for which bytes a packet is passed up: for this node's address or subnet, from the address or subnet of the key that sent it |
| KeyStoreFates.ReceiveDecides | ygglib/ipv6rwc/ipv6rwc.go:243-277 | one that is too big is answered, one for this node makes its sender known, any other does nothing |
| KeyStoreFates.NewKeyGetsItsPackets | ygglib/ipv6rwc/ipv6rwc.go:135-164 | what was held back for a new key's address or subnet goes out to it, and only that; nothing is given up and no other destination is touched |
| KeyStoreFates.TimerTakesItsOwn | ygglib/ipv6rwc/ipv6rwc.go:94-183 | a timer that goes off removes its own record from every map, or its own buffer, and nothing else |
| KeyStoreFates.FatesHaveCauses | ygglib/ipv6rwc/ipv6rwc.go:77-183 | in every run: a packet was sent because its destination was known or became known, replaced because a later one to the same destination was accepted, or expired because the timer of its own buffer went off |
| TransportManagers.PatternScore | ygglib/transport/manager.go:648-657 | counts the literals and the wildcards of a pattern |
| TransportManagers.ScoresCoverPattern | ygglib/transport/manager.go:643-657 | wildcards are the stars, question marks and brackets of a pattern, literals are all the rest |
| TransportManagers.SpecificityOrder | ygglib/transport/manager.go:496-515 | more literals are strictly more specific, and with as many, fewer wildcards are; the order is total and transitive |
| TransportManagers.Manager.ResolveNetwork | ygglib/transport/manager.go:496-515 | in whatever order the mappings are visited: a matching pattern that no other beats in literals and then wildcards, or the default exactly if nothing matches, and its network |
| TransportLaws.MappingElsewhere | ygglib/transport/manager.go:496-515 | a best match stands when a pattern that does not match the host is added |
| TransportLaws.UnusedMapping | ygglib/transport/manager.go:496-515 | and when another pattern is removed |
| TransportManagers.Manager.SnapshotFor | ygglib/transport/manager.go:374-398 | a snapshot is a route that holds now, or exactly the error that applies |
| TransportManagers.Manager.CommitCarrier | ygglib/transport/manager.go:400-447 | tracked under a fresh id, or turned away exactly if closed or the version has moved |
| TransportManagers.Manager.RegisterAcceptedConn | ygglib/transport/manager.go:449-474 | an accepted connection becomes a child of its tracked listener, or is closed exactly if there is none |
| TransportManagers.Manager.UnregisterResource | ygglib/transport/manager.go:476-489 | forgets a resource, also in its parent |
| TransportManagers.Manager.CloseWrapper | ygglib/transport/manager.go:550-586 | the first close forgets the resource and closes the carrier, later ones do nothing |
| TransportManagers.Manager.CollectResourceTree | ygglib/transport/manager.go:529-542 | terminates, lists each resource once, and lists only chosen ones |
| TransportManagers.Manager.CollectClosers | ygglib/transport/manager.go:517-527 | lists exactly the resources that are chosen, each once |
| TransportManagers.Manager.SetDefaultNetworkLocked | ygglib/transport/manager.go:231-242 | bumps the version and puts exactly what the default mapping carries on the close list |
| TransportManagers.Manager.MapNetworkLocked | ygglib/transport/manager.go:252-262 | replaces the mapping and puts every resource whose host it matches on the close list |
| TransportManagers.Manager.UnmapNetworkLocked | ygglib/transport/manager.go:273-287 | removes the mapping and puts what used it on the close list; nothing if there is none |
| TransportManagers.Manager.CloseLocked | ygglib/transport/manager.go:292-303 | closes the manager, once, and puts everything on the close list |
| TransportManagers.Manager.MapNetwork | ygglib/transport/manager.go:246-265 | run alone, replaces the mapping, leaves exactly the resources whose host the pattern does not match, and touches no other setting; the error cases are exact and change nothing |
| TransportManagers.Manager.UnmapNetwork | ygglib/transport/manager.go:267-290 | run alone, removes the mapping and leaves exactly the resources that did not use it; without such a mapping, and in the error cases, nothing changes |
| TransportManagers.Manager.SetDefaultNetwork | ygglib/transport/manager.go:231-244 | run alone, leaves exactly the resources that are not on the default mapping and touches no other setting; nothing changes once closed |
| TransportManagers.Manager.Close | ygglib/transport/manager.go:292-306 | run alone, leaves the manager closed and nothing tracked; on a closed manager nothing changes |
| TransportManagers.Manager.RegisterTransport | ygglib/transport/manager.go:162-190 | registers all schemes or none, exactly if all are new and not empty, and otherwise reports the first fault |
| TransportManagers.Manager.UnregisterTransport | ygglib/transport/manager.go:192-203 | removes a registered scheme and bumps the version |
| TransportLaws.StepKeeps | ygglib/transport/manager.go:231-474 | every step keeps the forest linked, ids fresh, snapshots of the current version valid, and everything not on a close list on its host's network unless accepted late |
| TransportTheorems.DialedOnRightNetwork | ygglib/transport/manager.go:71-74 | in every interleaving, a dialed connection or listener not on a close list is on the network its host is routed to now |
| TransportTheorems.RightNetworkExactly | ygglib/transport/manager.go:71-74 | in every run, accepted connections included: everything not on a close list is on the right network throughout, if and only if no connection is accepted from a listener that is on a wrong one at that moment |
| TransportTheorems.OnlyStraysAreMisrouted | ygglib/transport/manager.go:449-474 | in every run, whatever is tracked on a wrong network and not on a close list was accepted from such a listener |
| TransportTheorems.NothingSurvivesOnWrongNetwork | ygglib/transport/manager.go:231-306 | in particular, if closes finish before the next connection is accepted, nothing is on a wrong network once all closes are done |
| TransportTheorems.AcceptedConnectionCanEscape | ygglib/transport/manager.go:449-474 | without that condition the promise fails: a run that leaves a connection on a network no longer in use |
| TransportTheorems.NoCommitAfterClose | ygglib/transport/manager.go:400-447 | what a closed manager tracks was tracked at Close or accepted since |
| TransportTheorems.CloseIsFinal | ygglib/transport/manager.go:292-306 | in every run: after Close the manager is closed for good, gives out no snapshot, commits nothing, and tracks only what it did and what was accepted since |
| TransportTheorems.ClosedManagerStep | ygglib/transport/manager.go:292-306 | a closed manager starts tracking something exactly when a listener still tracked accepts |
| TransportTheorems.GoneStaysGone | ygglib/transport/manager.go:476-494 | an id no longer tracked is never used again, so a link to a closed parent never means another resource |
| TransportTheorems.ParentFixed | ygglib/transport/manager.go:449-489 | kind, host, mapping and parent of an id never change while it is tracked |
| TransportTheorems.CommitDecides | ygglib/transport/manager.go:400-447 | after a commit the carrier is behind a new id, with its transport still registered, or closed |
| TransportTheorems.CarriersNeverLost | ygglib/transport/manager.go:312-372 | a carrier handed over is always with its caller, behind an id, or turned away |
| TransportTheorems.CarriersClosedOnce | ygglib/transport/manager.go:544-592 | in every run no carrier is closed twice, and only those turned away or whose wrapper was closed |
| TransportDial.Dial | ygglib/transport/manager.go:312-372 | whatever others do before, during and between its rounds: every carrier is returned or closed, each round but the last is a retry and there are no more retries than version changes, cancellation is obeyed after each retry and only there, a failure has its reason in the manager at that moment, and what is returned is of the kind and for the host asked for, its scheme registered, on its host's network at that moment |
| TransportDial.Attempt | ygglib/transport/manager.go:320-338 | one round retries only if the version has moved past its start, and then the carrier is closed; it fails for the reason that applies to this scheme and host, or tracks the carrier for this host |
| PacketParser.ParseIPv6Packet | ygglib/tun/firewall.go:206-287 | the loop stays in bounds, terminates on every byte string and yields what the recursive walk does |
| PacketParser.ParseIgnoresTrailing | ygglib/tun/firewall.go:206-223 | only the fixed header and the payload length it announces matter |
| PacketParser.ChainIsTransparent | ygglib/tun/firewall.go:246-280 | any chain of options, routing, authentication and unfragmented fragment headers up to 65535 bytes leaves the result as without it |
| PacketParser.WalkFindsChain | ygglib/tun/firewall.go:224-286 | conversely, what the walk accepts is such a chain before an upper header, from which alone the result is read |
| PacketParser.ReadsTCP | ygglib/tun/firewall.go:229-237 | behind any valid chain and before any trailing bytes, TCP ports and flags are read from these bytes of the header |
| PacketParser.ReadsUDP | ygglib/tun/firewall.go:238-245 | and UDP ports from these |
| PacketParser.ReadsOther | ygglib/tun/firewall.go:226-287 | ICMPv6 needs no ports and any other protocol has none |
| PacketParser.ShortHeaderIsRefused | ygglib/tun/firewall.go:229-241 | a TCP or UDP header cut short is refused |
| PacketParser.AcceptedIsPrinted | ygglib/tun/firewall.go:206-287 | any packet that can be read is a fixed header, a valid chain and a payload of the length announced, with something after it |
| Firewalls.Firewall.AllowOutgoing | ygglib/tun/firewall.go:119-145 | lets out exactly what can be read as TCP, UDP or ICMPv6, and remembers the first two |
| Firewalls.Firewall.AllowIncoming | ygglib/tun/firewall.go:147-190 | ICMPv6 and open ports get in, other TCP and UDP only with a live flow, and with one always if time does not run backwards; nothing unreadable and no other protocol does |
| Firewalls.Firewall.Prune | ygglib/tun/firewall.go:198-204 | removes exactly the expired flows, in any order |
| Firewalls.Firewall.SetConfig | ygglib/tun/firewall.go:77-90 | a new configuration forgets all flows |
| Firewalls.IncomingRepresents | ygglib/tun/firewall.go:170-179 | pruning, refreshing and ending a flow keep the table a faithful part of the history |
| Firewalls.UnsolicitedStaysOut | ygglib/tun/firewall.go:147-190 | a packet to a closed port gets in only as an answer to one that was let out |
| Firewalls.TableFlowsWereOpened | ygglib/tun/firewall.go:142-144 | every flow in the table is the reverse of a packet let out since the configuration |
| Firewalls.AnswerGetsIn | ygglib/tun/firewall.go:137-179 | an answer gets in for the flow's time to live, whatever else passes, unless the flow was ended |
| Firewalls.AnswerIsLetIn | ygglib/tun/firewall.go:119-178 | after a TCP or UDP packet out, a packet with its addresses and ports swapped is let in for ten minutes or two, whatever else happens, unless one with FIN or RST came first |
| Firewalls.EndedFlowStaysOut | ygglib/tun/firewall.go:172-177 | after a FIN or RST in, the flow is closed until a packet goes out again |
| Firewalls.AnswerKeepsOpen | ygglib/tun/firewall.go:172-177 | any other packet in on a live flow keeps it live for exactly another time to live |
| Firewalls.LiveIsRecent | ygglib/tun/firewall.go:147-204 | a live flow has seen a packet less than a time to live ago |
| TunSupervisor.Supervisor.HandleAttach | ygglib/tun/tun.go:320-341 | starts the next session and stops the one it replaces, or refuses exactly if stopped or occupied, and then names the occupant |
| TunSupervisor.Supervisor.DetachCurrent | ygglib/tun/tun.go:359-372 | ends the session, if any, and sets the desired MTU |
| TunSupervisor.Supervisor.HandleReport | ygglib/tun/tun.go:396-416 | only the current session's reports count; up wins over down; an error report ends the session |
| TunSupervisor.Supervisor.Supervise | ygglib/tun/tun.go:289-318 | the message loop is the run of its messages and ends with the first stop |
| TunSupervisor.StoppedExactly | ygglib/tun/tun.go:289-318 | the supervisor is stopped exactly if it has been told to, and then has no session |
| TunSupervisor.SupervisorInvariant | ygglib/tun/tun.go:289-416 | for every order of messages: status shows the current session and nothing else, its id is published, sessions are numbered in order, all but the current were told to stop exactly once, and the core has the session's MTU or the desired one |
| TunSupervisor.EndedSessionIsMute | ygglib/tun/tun.go:396-399 | no report of an ended session changes anything, however late |
| TunSupervisor.SessionsOnlyGrow | ygglib/tun/tun.go:343-357 | ids only grow, and a session told to stop stays stopped |
| TunSupervisor.RunKeepsRange | ygglib/tun/iface.go:161-168 | every MTU in force is at least 1280, or zero after a device could not tell its own |
| TunSupervisor.DesiredMTU | ygglib/tun/tun.go:241-250 | at least 1280, and at most what the core can carry if that is |
| TunPipeline.DeviceGetsWhatWasRead | ygglib/tun/iface.go:21-145 | in every interleaving and for every pattern of partial writes, a device gets packets routed to its session while it was current, byte for byte as read, in order, none twice and none left out |
| TunPipeline.BuffersHaveOneHolder | ygglib/tun/iface.go:21-145 | in every interleaving, a buffer with the reader, in the queue, in a channel, in a batch or copied but not yet given back is not in the pool, still contains its packet, and is held nowhere else |
| TunPipeline.NoDoublePut | ygglib/tun/iface.go:21-145 | in every interleaving, a buffer that a step puts back was not in the pool, and the pool gains nothing else |
| TunPipeline.RunKeeps | ygglib/tun/iface.go:21-145 | the ownership and order invariant behind it |
| TunPipeline.RoutedWhileCurrent | ygglib/tun/tun.go:374-394 | in every interleaving, whatever was routed to a session was routed at a moment when the session was current and enabled, from the head of the queue, past the firewall and within the MTU, and is still in the session's channel or batch, copied or written |
| TunFates.RouteExactly | ygglib/tun/tun.go:374-394 | the oldest packet is handed on if and only if the firewall allows it, a session is current and enabled, it fits the MTU and there is room; otherwise its buffer goes back |
| TunFates.EveryPacketHasAFate | ygglib/tun/tun.go:374-394 | in every interleaving, whatever was read from the core waits, was handed to a session, or was dropped at one moment for one of those reasons or because the reader stopped |
| TunPipeline.RunWithinCapacity | ygglib/tun/tun.go:343-357 | no channel and no batch ever exceeds its size |
| TunWriter.Pipeline.QueueOne | ygglib/tun/iface.go:21-42 | a buffer of the pool is reused whenever there is one; the packet read is queued behind the others or waits when there is no room; after a read error or on stop the buffer goes back and the loop ends |
| TunWriter.Pipeline.RoutePacket | ygglib/tun/tun.go:374-394 | hands the packet on exactly if it may pass, and gives its buffer back otherwise |
| TunWriter.Pipeline.Drain | ygglib/tun/iface.go:104-119 | takes from the channel in order until it is empty or the batch is full |
| TunWriter.Pipeline.CopyBatch | ygglib/tun/iface.go:121-129 | copies every packet of the batch, behind the device's free space, and only then gives the buffers back one by one |
| TunWriter.Pipeline.WriteOut | ygglib/tun/iface.go:130-143 | whatever a device takes at a time, written and unwritten together stay the batch in order; ends when all is taken or the device fails |
| TunWriter.Pipeline.WriteRound | ygglib/tun/iface.go:101-144 | one round of the writer: takes as many packets as there are up to a batch, and what the device got plus what it did not is exactly those packets, in order, behind all it got before |
| Handshake.VersionMetadata.Encode | ygglib/core/version.go:59-96 | the patched buffer is the four fields, signed, or exactly the error that applies |
| Handshake.EncodedBytes | ygglib/core/version.go:59-96 | one's own message, byte for byte |
| Handshake.VersionMetadata.Decode | ygglib/core/version.go:99-170 | result, error and fields left behind, also on failure, are those of the specification |
| Handshake.VersionMetadata.ReadAll | ygglib/core/version.go:119-155 | the field loop terminates and does what the recursive reader does |
| Handshake.VersionMetadata.Check | ygglib/core/version.go:173-184 | true exactly for this protocol version and a key of full size |
| Handshake.ReadPrinted | ygglib/core/version.go:119-155 | any list of fields in any order is accepted exactly if known fields have their sizes, and then the last of a kind wins and unknown ones are ignored |
| Handshake.LastWins | ygglib/core/version.go:119-155 | each part of the metadata is that of the last field with its number, and no other field matters |
| Handshake.AcceptedIsPrinted | ygglib/core/version.go:119-155 | whatever the loop accepts is such a list, with nothing truncated and nothing trailing |
| Handshake.DecodeMessage | ygglib/core/version.go:99-170 | a message is accepted if and only if its fields are well sized and its signature fits key and password; what follows stays unread |
| Handshake.RefusedExactly | ygglib/core/version.go:99-170 | each error, and exactly for which streams and passwords it is given |
| Handshake.AcceptedIsMessage | ygglib/core/version.go:99-170 | and nothing else is accepted |
| Handshake.RoundTrip | ygglib/core/version.go:59-170 | decoding what was encoded restores the metadata from any earlier state |
| Handshake.OtherPassword | ygglib/core/version.go:157-168 | with another password exactly if the signature fits that one too |
| Handshake.TruncatedIsRejected | ygglib/core/version.go:100-115 | a message cut short is rejected and changes nothing |
| AutoPeer.AggregateInvariant | ygglib/autopeer/fetcher.go:314-388 | after every operation the list is the stored contributions in source order, only sources that may contribute do, and the built-in one contributes its document |
| AutoPeer.AggregateInOrder | ygglib/autopeer/fetcher.go:378-382 | the aggregate follows the order of the sources |
| AutoPeer.StoredExactly | ygglib/autopeer/fetcher.go:314-361 | over every run: a fetched source contributes a list if and only if that list came back while the source was listed and over the identical, comparable network, and since then the source could contribute at every moment and no other result of it came back |
| AutoPeer.PeerComesFrom | ygglib/autopeer/fetcher.go:314-388 | every peer handed out is in the built-in document or in such a result |
| AutoPeer.PeerHasSource | ygglib/autopeer/fetcher.go:378-382 | every peer handed out is a stored contribution of a listed source |
| AutoPeer.ChangeReports | ygglib/autopeer/fetcher.go:378-388 | a change is reported exactly if the list differs or the new one is empty |
| AutoPeer.Fetcher.ReconcileLocked | ygglib/autopeer/fetcher.go:344-376 | the deleting loop, the built-in source and the rebuild establish the invariant from any contributions; a change is reported exactly if the list differs or is empty |
| AutoPeer.Fetcher.RebuildPeers | ygglib/autopeer/fetcher.go:378-388 | the loop builds the aggregate and replaces the list unless it is deeply equal |
| AutoPeer.Fetcher.ReplaceSourcePeers | ygglib/autopeer/fetcher.go:314-330 | merges a result, with the exact report; nothing and no report for a source that is not listed |
| AutoPeer.Fetcher.AddSource | ygglib/autopeer/fetcher.go:162-171 | appends a source that is not listed, then reconciles, with the exact report of a change |
| AutoPeer.Fetcher.RemoveSource | ygglib/autopeer/fetcher.go:174-184 | removes the first listing of a source and its override, then reconciles, with the exact report of a change |
| AutoPeer.Fetcher.SetSources | ygglib/autopeer/fetcher.go:152-159 | replaces the list of sources, then reconciles, with the exact report of a change |
| AutoPeer.Fetcher.SetDefaultNetwork | ygglib/autopeer/fetcher.go:119-126 | replaces the default network, then reconciles, with the exact report of a change |
| AutoPeer.Fetcher.SetSourceNetwork | ygglib/autopeer/fetcher.go:131-138 | sets an override, nothing meaning disabled, then reconciles, with the exact report of a change |
| AutoPeer.Fetcher.RemoveSourceNetwork | ygglib/autopeer/fetcher.go:142-149 | drops an override, then reconciles, with the exact report of a change |

## Left out

- Sockets, TLS, QUIC, WebSocket, device set-up, HTTP, JSON and URL parsing: networks, transports, carriers, devices and
  parsed documents are opaque values whose behaviour is arbitrary.
- `path.Match`, trimming and lower-casing: parameters of the transport manager; hosts and schemes arrive normalised.
- ironwood, blake2b and ed25519: parameters; only that a signature has 64 bytes and verifies under its own key is assumed.
- The key store's records and buffers are values with an identity number in its five maps instead of shared pointers, and
  the proofs see the address and subnet maps as one map over tagged destinations. The timer fields and Stop are not
  modelled, as a stopped timer may already be waiting for the lock: every timer ever armed may go off at any time, any
  number of times.
- Resources of the transport manager and lanes of the pipeline are values in maps that the methods update; the Go code
  keeps pointers to them in the same maps and shares them with nobody.
- TransportDial.Dial: the answers of the transport come as a finite list, so the loop ends when the list does; cancellation
  is read from a second list. That others may run between its sections is the contract of `Others`.
- TunWriter.Pipeline.WriteOut: the answers of the device come as a finite list; a device that keeps taking nothing without
  an error would keep the Go loop going. The report that a failing device causes is a message to the supervisor there.
- KeyStores.KeyStore.ReadPC: what the core delivers comes as a finite list, and then a failure or nothing.
- The loop that reads packets from a device: its session check and the hand-over to the core are not modelled, only the
  firewall's `AllowOutgoing` it asks.
- GenKeys.DoKeys: the endless key generation is any finite stream; the running total of keys tried that the program prints
  leaves out workers' reports that were not the best, and is not modelled.
- The two locked sections of AllowOutgoing and AllowIncoming are one step: a configuration change between them is as
  one before or after.
- Serving of status requests, callbacks, wake-ups, intervals, logging and the sorted port lists: plumbing.
- Wrap-around of 64-bit counters.
- `ygglib/core/link.go`, `ygglib/jumper`, admin handlers, configuration, multicast: not part of this model.
