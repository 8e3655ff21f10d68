# ishoal control plane, modelled in Dafny

ishoal joins the LAN of a game console (the "switch") to other such LANs
over UDP. An XDP program in the kernel captures the switch's frames; the
user-space control plane written in C keeps the switch identity, the kernel
program's shared `.bss` block and its two maps in step, tunnels each frame
to every known remote, and a small Node.js rendezvous server tells every
client which switch address lives behind which public UDP endpoint.

The model covers three sequential cores:

- `src/bpf_user.c` (module `BpfUser`, with the kernel object in `Kernel`):
  the user copies of `switch_ip`, `switch_mac` and `fake_gateway_ip` and
  their kernel mirror, the switch-change observer list, the subnet-mask
  rule, the per-frame handler `on_xsk_pkt`, start-up of the program and the
  AF_XDP socket pool in `bpf_load_thread`, and the `atexit` teardown.
- `src/remote.c` (module `Remote`): the head-inserted `remotes` list with
  `set_remote_addr`, `delete_remote_addr` and `broadcast_all_remotes`,
  the kernel table `remote_addrs` it is mirrored into and the remotes log.
- `srv/registry/index.js` (module `Rendezvous`): the IPv4 address
  expression, the normalisation of a connection's public address, and the
  `pulse` handler over the insertion-ordered `allSwitches` Map, with its
  once-per-connection 20-minute expiry sweep.

Shared value types (addresses in network byte order, UDP endpoints, the
14-byte Ethernet header) are in module `Net`.

Each C global and each piece of kernel state is a field of a class
(`BpfUser.BpfUser`, `Kernel.BpfObject`, `Remote.Registry`,
`Rendezvous.Server`, `Rendezvous.Connection`), and each C function or
handler is a method that updates those fields in place, with loops where
the source loops. Every method is specified against functions of the old
state (`Remote.AfterSet`, `Remote.AfterDelete`, `BpfUser.StopIndex`,
`Rendezvous.Sweep`, ...), and the properties of those functions are lemmas.

Where the design description and the code disagree, the model follows the
code:

- observers run newest first, because `list_add` inserts at the head
  (`src/bpf_user.c:74`), not in registration order;
- teardown runs `clear_map`, then `detach_obj`, then `close_obj`, the
  reverse of their `atexit` registration;
- `set_remote_addr` always prepends a new node, also after overwriting an
  existing node for the same address, so the list does not stay unique by
  local address (`Remote.SetBreaksUniqueness`), and it logs a line on every
  call that is not for the switch's own address;
- `delete_remote_addr` unlinks only the first node for the address but
  removes the whole kernel key, so a node pushed by an earlier set can stay
  in the list and keep receiving broadcasts (`Remote.DeleteAfterSetKeepsNode`).

## Model

| member | source | states |
|---|---|---|
| Net.Htonl | src/bpf_user.c:111 | the four bytes of `htonl(x)` in memory are the base-256 digits of `x`, most significant first |
| Kernel.BpfObject.Load | src/bpf_user.c:150 | a freshly loaded program has a zero `.bss`, empty maps and is not destroyed |
| Kernel.BpfObject.UpdateXsk | src/bpf_user.c:183-184 | a successful `xsks_map` update stores the descriptor under the key; a failed one changes nothing and is reported |
| Kernel.BpfObject.DeleteXsk | src/bpf_user.c:33-39 | a key deleted from `xsks_map` is absent afterwards and no other key changes |
| Kernel.BpfObject.Destroy | src/bpf_user.c:23-26 | `close_obj` destroys the program object |
| Kernel.BpfObject.SetRemoteAddr | src/bpf_user.c:41-46 | the kernel table maps the local address to the endpoint; a failed update is fatal and changes nothing |
| Kernel.BpfObject.DeleteRemoteAddr | src/bpf_user.c:48-51 | the local address is no longer a key of the kernel table; other keys keep their endpoints |
| Remote.Overwrite | src/remote.c:95-101 | the scan of `set_remote_addr`: only the first node for the address gets the new endpoint; the length, every node's address and every other node stay; with no such node the list is unchanged |
| Remote.AfterDelete | src/remote.c:126-130 | the scan of `delete_remote_addr`: with no node for the address the list is unchanged, otherwise it is exactly one node shorter |
| Remote.FirstMatchFrom | src/remote.c:95-101 | the scan resumed at index i stops at the first node for the address at or after i, or finds none exactly when there is none |
| Remote.FirstMatch | src/remote.c:95-101 | the scan from the head stops at the first node for the address; it finds none exactly when no node has that address |
| Remote.CountPositive | src/remote.c:95-101 | the scan finds a node exactly when at least one node has the address |
| Remote.CountAfterSet | src/remote.c:95-111 | every non-switch set grows the list by exactly one node, adds one node for its own address and none for any other |
| Remote.SetBreaksUniqueness | src/remote.c:99-111 | setting an address that already has a node leaves at least two nodes for it: uniqueness by local address is not kept |
| Remote.DeleteAfterSetKeepsNode | src/remote.c:95-130 | a delete right after a set of an address that already had a node removes only the pushed node; the overwritten node stays and is still found by a scan |
| Remote.CountAfterDelete | src/remote.c:126-130 | a delete removes exactly one node of its address when it has one, none otherwise, and no node of any other address |
| Remote.FirstMatchAfterSet | src/remote.c:103-111 | after a set, the first node of every other address is the same node, one place further from the head |
| Remote.MirrorAfterSet | src/remote.c:95-116 | a set keeps every kernel key's endpoint equal to the endpoint of the first node a scan finds for it |
| Remote.FirstMatchAfterDelete | src/remote.c:126-130 | unlinking the first node of one address leaves the first node of every other address unchanged |
| Remote.MirrorAfterDelete | src/remote.c:126-140 | a delete keeps every remaining kernel key mirrored by the first node a scan finds for it |
| Remote.Registry.constructor | src/remote.c:29 | the list and the log start empty |
| Remote.Registry.SetRemoteAddr | src/remote.c:88-117 | the switch's own address changes nothing; otherwise the list becomes `AfterSet` (first node overwritten, new node prepended), one `+ Remote IP` line is logged, the kernel key is set or the call is fatal, and the list/kernel agreement is kept |
| Remote.Registry.DeleteRemoteAddr | src/remote.c:119-141 | the switch's address or an address without a node changes nothing and logs nothing; otherwise only the first node is unlinked, one `- Remote IP` line is logged, the kernel key is deleted, and the agreement is kept |
| Remote.Registry.BroadcastAllRemotes | src/remote.c:143-157 | exactly one datagram of the buffer per node, to that node's endpoint, in list order; the list is unchanged |
| BpfUser.SubnetMask | src/bpf_user.c:108-114 | a non-zero fake gateway forces mask 255.255.255.0; otherwise the real subnet mask is used |
| BpfUser.StopIndex | src/bpf_user.c:172-187 | the socket loop stops at the first queue whose socket fails to open or whose map update fails; every queue before it succeeded |
| BpfUser.XskEntries | src/bpf_user.c:181-186 | after the loop `xsks_map` has exactly the keys 0 to k-1, each holding its queue's socket descriptor |
| BpfUser.LoopOutcome | src/bpf_user.c:172-179 | a failure at queue 0 ends the process; the loop ends normally exactly when every queue succeeded or a later socket failed to open |
| BpfUser.NewestFirst | src/bpf_user.c:67-76 | observers registered one after another sit in the list newest first, in front of the earlier ones |
| BpfUser.TeardownOrder | src/bpf_user.c:148-190 | the exit hooks run `clear_map`, `detach_obj`, `close_obj` after a start-up that finished its loop, fewer after an earlier fatal exit; `clear_map` is registered only when the loop ended without a fatal exit |
| BpfUser.BpfUser.constructor | src/bpf_user.c:14-21 | before start-up there is no program object, no observer, no socket and no exit hook |
| BpfUser.BpfUser.OnSwitchChange | src/bpf_user.c:67-76 | the list becomes `Registered` of the old list and the one observer, i.e. the observer is inserted at the head |
| BpfUser.BpfUser.NotifySwitchChange | src/bpf_user.c:78-86 | every registered observer is called exactly once, in list order (newest first) |
| BpfUser.BpfUser.SetSwitchIp | src/bpf_user.c:88-96 | an unchanged address changes nothing and calls no observer, also before the program is loaded; a new one is written to the user copy and the kernel mirror, and every observer runs once |
| BpfUser.BpfUser.SetSwitchMac | src/bpf_user.c:98-106 | the same for the switch MAC, compared byte by byte |
| BpfUser.BpfUser.UpdateSubnetMask | src/bpf_user.c:108-114 | the kernel mask becomes `SubnetMask` of the fake gateway; nothing else in `.bss` changes |
| BpfUser.BpfUser.SetFakeGatewayIp | src/bpf_user.c:116-125 | an unchanged gateway changes nothing, also before the program is loaded; a new one is written to both copies with the mask recomputed; no switch observer is ever called |
| BpfUser.BpfUser.OnXskPkt | src/bpf_user.c:127-146 | differing kernel switch values are adopted by the user copies with one round of observers, equal ones cause none; a frame of at most 14 bytes is not sent, a longer one is sent without its first 14 bytes to every remote once |
| BpfUser.BpfUser.PushInitialBss | src/bpf_user.c:156-166 | the kernel `.bss` holds the switch, host and gateway values and the mask rule's result |
| BpfUser.BpfUser.OpenSockets | src/bpf_user.c:172-187 | the loop's outcome is `LoopExit`, `num_xsk` is the stop index and `xsks_map` holds exactly the sockets before it |
| BpfUser.BpfUser.LoadThread | src/bpf_user.c:148-190 | each failure point ends the process with the state reached so far; the exit hooks registered are `LoadHooks`; a full start-up leaves the program attached with the sockets registered |
| BpfUser.BpfUser.ClearMapKeys | src/bpf_user.c:33-39 | keys 0 to 63 are gone from `xsks_map`, every other key is untouched |
| BpfUser.BpfUser.RunHook | src/bpf_user.c:23-39 | `clear_map` clears the keys, `detach_obj` detaches the program, `close_obj` destroys the object |
| BpfUser.BpfUser.RunExitHooks | src/bpf_user.c:154-189 | the hooks run in reverse order of registration and each has its effect; the kernel maps are otherwise unchanged |
| Rendezvous.OctetText | srv/registry/index.js:3 | the decimal text of a byte is an octet of the expression and starts with 0 only for zero |
| Rendezvous.DottedQuadAccepted | srv/registry/index.js:3 | the expression accepts the dotted-decimal text of an address exactly when its first byte is not zero |
| Rendezvous.AcceptsExample | srv/registry/index.js:3 | "10.0.0.1" is accepted |
| Rendezvous.RefusesLeadingZero | srv/registry/index.js:3 | "0.1.2.3" is refused |
| Rendezvous.RefusesTrailingDot | srv/registry/index.js:3 | "1.2.3." is refused |
| Rendezvous.RefusesLargeOctet | srv/registry/index.js:3 | "1.2.3.256" is refused |
| Rendezvous.RefusesThreeOctets | srv/registry/index.js:3 | "1.2.3" is refused |
| Rendezvous.IsIPv4 | srv/registry/index.js:3 | the expression `IPV4_REGEXP`: the text does not start with `0` and splits at its dots into exactly four octets (1-2 digits, or 100-255) |
| Rendezvous.StripMapped | srv/registry/index.js:19-20 | an address starting with `::ffff:` loses exactly that prefix; any other address is kept as it is |
| Rendezvous.NormalizePublicIp | srv/registry/index.js:16-23 | a public address is kept only if it is IPv4 after the mapped prefix is stripped, and the kept value is the stripped address |
| Rendezvous.MappedAddressNormalised | srv/registry/index.js:16-23 | an address in `::ffff:` form normalises to its IPv4 part when that is IPv4 and is refused otherwise; a plain IPv4 address is kept as it is; an unprefixed address that is not IPv4 is refused |
| Rendezvous.RefusesIPv6Peer | srv/registry/index.js:19-23 | a plain IPv6 peer address such as `::1` is refused |
| Rendezvous.MapSetSpec | srv/registry/index.js:61 | `Map.set` keeps the Map well formed, gives the key its new value and keeps every other key's value and place; a new key goes last |
| Rendezvous.SweepSpec | srv/registry/index.js:44-51 | the sweep keeps exactly the fresh entries, each with its value unchanged, and the Map stays well formed |
| Rendezvous.SweepEmitsSpec | srv/registry/index.js:44-51 | the sweep emits one event per key in Map order: a set of a fresh entry to this socket, a delete of an expired one to every other socket |
| Rendezvous.SweepUpToSpec | srv/registry/index.js:44-51 | visiting the keys one by one and deleting the expired entry being visited gives the sweep |
| Rendezvous.ValidPulse | srv/registry/index.js:27-36 | the guards of the `pulse` handler: a string switch address matching the expression and an integer port strictly between 0 and 65536; a valid port fits a UDP port |
| Rendezvous.Changed | srv/registry/index.js:54-59 | `shouldBroadcast`: the Map has no entry for the switch address, or its stored public address or port differs from the pulse's |
| Rendezvous.PulseAnnounced | srv/registry/index.js:54-63 | after a pulse the Map holds `[publicIP, vpnPort, now]` for the switch, so an identical pulse on a connection that has already pulsed (no sweep in between) is not announced again |
| Rendezvous.RepeatPulseRefreshesOnly | srv/registry/index.js:54-63 | a repeated identical pulse on a connection that has already pulsed (no sweep in between) only moves the switch's timestamp: no key, place or endpoint changes and nothing is announced |
| Rendezvous.Connection.constructor | srv/registry/index.js:25 | a new connection keeps its public address and is not initialised |
| Rendezvous.Server.constructor | srv/registry/index.js:7 | the server starts with an empty Map and no emissions |
| Rendezvous.Server.Connect | srv/registry/index.js:16-23 | a connection is made exactly when the normalised public address is IPv4, with that address; otherwise the handler throws |
| Rendezvous.Server.Pulse | srv/registry/index.js:26-63 | an invalid pulse changes nothing; a valid one sweeps on the connection's first pulse only, then sets the switch's entry to `[publicIP, vpnPort, now]` and announces it to all sockets exactly when the endpoint changed |
| Rendezvous.Server.SweepOnce | srv/registry/index.js:41-52 | the Map becomes `Sweep` of the old Map and the emissions are `SweepEmits` of its keys, in order |

## Left out

- `src/main.c` is not part of this model: argument handling, the signal handler, the `poll` loop and thread start and join are process orchestration.
- `start_endpoint` and the endpoint socket, STUN and the temporary log file are I/O; the remotes log is a sequence of strings and `sendto` is a returned sequence of datagrams.
- libbpf, XDP and AF_XDP calls (`bpf_kern__open_and_load`, `bpf_set_link_xdp_fd`, `xsk_configure_socket`, `bpf_map_*`) are foreign: their outcomes are parameters (`loadOk`, `attachOk`, the `attempts` sequence, `updateOk`) and the maps are fields of `Kernel.BpfObject`. What the XDP program does with the maps is not modelled.
- The mutexes and the unsynchronised access to `switch_ip` between the packet threads and the setters are concurrency; the model is sequential.
- Observers are identities; a call is recorded in `calls`, what the callback does is not modelled. `tui_on_xsk_pkt` is a foreign call and is left out.
- `perror_exit` and `exit` are the `Exit.Fatal` outcome (and `fatal` results in `Remote`); the process then runs its exit hooks, modelled by `BpfUser.BpfUser.RunExitHooks`. A failing `calloc` and the missing `free` after `list_del` are not modelled.
- `ip_str` is not part of this model; the log lines use the dotted-decimal text `Net.IpStr`.
- `ishoal.h` is not part of this model: `MAX_XSKS` is the constructor parameter `maxXsks`, and the globals defined elsewhere (`public_host_ip`, `host_mac`, `gateway_mac`, `vpn_port`, `real_subnet_mask`) are the constant `host`.
- `BpfUser.BpfUser.UpdateSubnetMask` and `OnXskPkt` require the program object to be loaded, as the C code dereferences `obj` unchecked on every path; `SetSwitchIp`, `SetSwitchMac` and `SetFakeGatewayIp` require it only when the value changes, as their no-op paths return before touching `obj`.
- socket.io transport, `console.log` and the `disconnect` handler are I/O; emissions are an event log in `Rendezvous.Server`.
- BpfUser.BpfUser.RunHook: the results of `detach_obj`'s `bpf_set_link_xdp_fd(ifindex, -1, 0)` and of the `bpf_map_delete_elem` calls of `clear_map` and `bpf_delete_remote_addr` are ignored by the code; the model takes them to succeed (the program is detached, the keys are gone), so `RunHook`, `RunExitHooks`, `Kernel.BpfObject.DeleteXsk` and `Kernel.BpfObject.DeleteRemoteAddr` promise those effects only under that assumption.
- Rendezvous.Server.Connect: a refused address gives a `null` connection and leaves the server untouched; what follows the `throw` of the `connection` listener (its propagation, an uncaught-exception exit of the process and the server state afterwards) is not modelled.
- Rendezvous.Server.Pulse: the two `Date.now()` reads of a pulse are one `now` parameter, so the sweep's cut-off and the stored timestamp come from the same instant.
- JavaScript numbers are modelled as reals, with NaN and the infinities as one non-finite value; values other than strings and numbers are one opaque value.
