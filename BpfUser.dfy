/** The user-space side of the packet path in `src/bpf_user.c`: the switch
    identity globals and their kernel mirror, the switch-change observers,
    the fake-gateway subnet-mask policy, the per-frame handler of the AF_XDP
    sockets, the start-up of the kernel program and socket pool, and the
    `atexit` teardown. */
module BpfUser {
  import opened Net
  import opened Kernel
  import opened Remote

  /** An observer registered with `on_switch_change`, by identity: calling it
      is recorded, what it does is not modelled. */
  type ObserverId = nat

  /** An exit hook registered with `atexit` by `bpf_load_thread`. */
  datatype Hook = CloseObj | DetachObj | ClearMap

  /** How `bpf_load_thread` ends: it returns with the packet path running, or
      the process ends through `perror_exit(op)`, or through a plain `exit(1)`,
      which prints nothing and is `Fatal("exit")`. */
  datatype Exit = Running | Fatal(op: string)

  /** The answer for one queue index: `xsk_configure_socket` failed, or it
      gave a socket with descriptor `fd` whose `xsks_map` update succeeded or
      failed. */
  datatype XskAttempt = XskFailed | XskOpened(fd: int, mapUpdateOk: bool)

  /** Globals defined elsewhere in the program that `bpf_load_thread` copies
      into `.bss`, and the interface's own subnet mask. */
  datatype HostInfo = HostInfo(
    publicHostIp: IpAddr,
    hostMac: MacAddr,
    gatewayMac: MacAddr,
    vpnPort: Port,
    realSubnetMask: IpAddr)

  /** The number of `xsks_map` keys `clear_map` deletes. */
  const ClearedKeys: nat := 64

  /** The mask `update_subnet_mask` pushes: a fake gateway forces a /24,
      otherwise the interface's real mask is used. */
  function SubnetMask(fakeGatewayIp: IpAddr, realSubnetMask: IpAddr): (mask: IpAddr)
    ensures IsSet(fakeGatewayIp) ==> mask == [255, 255, 255, 0]
    ensures !IsSet(fakeGatewayIp) ==> mask == realSubnetMask
  {
    if IsSet(fakeGatewayIp) then Htonl(0xFFFF_FF00) else realSubnetMask
  }

  /** The `.bss` block as `bpf_load_thread` initialises it. */
  function InitialBss(switchIp: IpAddr, switchMac: MacAddr, fakeGatewayIp: IpAddr, host: HostInfo): Bss {
    Bss(switchMac, switchIp, fakeGatewayIp, SubnetMask(fakeGatewayIp, host.realSubnetMask),
        host.publicHostIp, host.hostMac, host.gatewayMac, host.vpnPort)
  }

  /** The queue index at which the socket loop stops: the first whose socket
      did not open or whose map update failed, or the number of queues. */
  function StopIndex(attempts: seq<XskAttempt>): (k: nat)
    ensures k <= |attempts|
    ensures forall i :: 0 <= i < k ==> attempts[i].XskOpened? && attempts[i].mapUpdateOk
    ensures k < |attempts| ==> !(attempts[k].XskOpened? && attempts[k].mapUpdateOk)
  {
    if attempts == [] then 0
    else if attempts[0].XskOpened? && attempts[0].mapUpdateOk then 1 + StopIndex(attempts[1..])
    else 0
  }

  /** How the socket loop ends: a socket that does not open stops it quietly,
      except at queue 0; a failed map update is always fatal. */
  function LoopExit(attempts: seq<XskAttempt>): Exit {
    var k := StopIndex(attempts);
    if k == |attempts| then Running
    else if attempts[k].XskOpened? then Fatal("bpf_map_update_elem")
    else if k == 0 then Fatal("xsk_configure_socket")
    else Running
  }

  /** `xsks_map` after the loop: queue `i` maps to its socket for every `i`
      before the stop index. */
  function XskEntries(attempts: seq<XskAttempt>): (m: map<int, int>)
    ensures m.Keys == KeysBelow(StopIndex(attempts))
    ensures forall i :: 0 <= i < StopIndex(attempts) ==> m[i] == attempts[i].fd
  {
    map i | 0 <= i < StopIndex(attempts) :: attempts[i].fd
  }

  /** The `atexit` registrations of `bpf_load_thread`, in registration order. */
  function LoadHooks(loadOk: bool, attachOk: bool, attempts: seq<XskAttempt>): seq<Hook> {
    if !loadOk then []
    else if !attachOk then [CloseObj]
    else if LoopExit(attempts) == Running then [CloseObj, DetachObj, ClearMap]
    else [CloseObj, DetachObj]
  }

  function Reverse<T>(s: seq<T>): (r: seq<T>)
    ensures |r| == |s| && forall i :: 0 <= i < |s| ==> r[i] == s[|s| - 1 - i]
  {
    if s == [] then [] else Reverse(s[1..]) + [s[0]]
  }

  /** Clearing keys a second time changes nothing. */
  lemma MinusTwice(m: map<int, int>, m0: map<int, int>, keys: set<int>)
    requires m == m0 - keys || m == m0
    ensures m - keys == m0 - keys
  {
  }

  /** Running one more hook, from the back of the list. */
  lemma HookStep(hooks: seq<Hook>, i: nat)
    requires i < |hooks|
    ensures Reverse(hooks[i..]) == Reverse(hooks[i + 1..]) + [hooks[i]]
    ensures forall h :: h in hooks[i..] <==> h == hooks[i] || h in hooks[i + 1..]
  {
    assert hooks[i..][1..] == hooks[i + 1..];
  }

  /** The observer list after `on_switch_change(fn)` for each `fn` of `fns` in turn. */
  function Registered(handlers: seq<ObserverId>, fns: seq<ObserverId>): seq<ObserverId>
    decreases fns
  {
    if fns == [] then handlers else Registered([fns[0]] + handlers, fns[1..])
  }

  /** `list_add` inserts at the head, so observers run newest first: the
      list is the registrations in reverse, in front of what was there. */
  lemma {:induction false} NewestFirst(handlers: seq<ObserverId>, fns: seq<ObserverId>)
    ensures Registered(handlers, fns) == Reverse(fns) + handlers
    decreases fns
  {
    if fns != [] {
      NewestFirst([fns[0]] + handlers, fns[1..]);
      assert Reverse(fns) == Reverse(fns[1..]) + [fns[0]];
    }
  }

  /** The socket loop stops at queue 0 exactly when the process ends there,
      and a queue that fails to open later leaves the sockets before it in
      service. */
  lemma LoopOutcome(attempts: seq<XskAttempt>)
    ensures StopIndex(attempts) == 0 && |attempts| > 0 ==> LoopExit(attempts).Fatal?
    ensures LoopExit(attempts) == Running <==>
      StopIndex(attempts) == |attempts| || (StopIndex(attempts) > 0 && attempts[StopIndex(attempts)].XskFailed?)
  {
  }

  /** At process exit the hooks run in reverse: after a start-up that
      reached the socket loop, `clear_map` runs first, then `detach_obj`,
      then `close_obj`; `clear_map` runs only when the loop ended without a
      fatal exit. */
  lemma {:induction false} TeardownOrder(loadOk: bool, attachOk: bool, attempts: seq<XskAttempt>)
    ensures loadOk && attachOk && LoopExit(attempts) == Running ==>
      Reverse(LoadHooks(loadOk, attachOk, attempts)) == [ClearMap, DetachObj, CloseObj]
    ensures loadOk && attachOk && LoopExit(attempts) != Running ==>
      Reverse(LoadHooks(loadOk, attachOk, attempts)) == [DetachObj, CloseObj]
    ensures loadOk && !attachOk ==> Reverse(LoadHooks(loadOk, attachOk, attempts)) == [CloseObj]
    ensures ClearMap in LoadHooks(loadOk, attachOk, attempts) <==> loadOk && attachOk && LoopExit(attempts) == Running
  {
    var h := LoadHooks(loadOk, attachOk, attempts);
    assert Reverse(h) == if |h| == 0 then [] else Reverse(h[1..]) + [h[0]];
  }

  /** The keys 0 to n - 1. */
  function KeysBelow(n: nat): (keys: set<int>)
    ensures forall k :: k in keys <==> 0 <= k < n
  {
    if n == 0 then {} else KeysBelow(n - 1) + {n - 1}
  }

  class BpfUser {
    var switchMac: MacAddr
    var switchIp: IpAddr
    var fakeGatewayIp: IpAddr
    const host: HostInfo
    /** `MAX_XSKS`. */
    const maxXsks: nat
    /** `obj`: null until `bpf_kern__open_and_load` succeeds. */
    var obj: BpfObject?
    /** `on_switch_chg_handlers`, head first. */
    var handlers: seq<ObserverId>
    /** Every observer invocation so far, in order. */
    var calls: seq<ObserverId>
    var numXsk: nat
    /** The `atexit` registrations, in registration order. */
    var exitHooks: seq<Hook>
    /** Whether the XDP program is attached to the interface. */
    var xdpAttached: bool
    /** The exit hooks that have run, in order. */
    var ranHooks: seq<Hook>

    /** The process before `bpf_load_thread`: the switch and gateway globals
        hold whatever configuration gave them. */
    constructor (host: HostInfo, maxXsks: nat, switchIp: IpAddr, switchMac: MacAddr, fakeGatewayIp: IpAddr)
      ensures this.host == host && this.maxXsks == maxXsks
      ensures this.switchIp == switchIp && this.switchMac == switchMac && this.fakeGatewayIp == fakeGatewayIp
      ensures obj == null && handlers == [] && calls == [] && numXsk == 0
      ensures exitHooks == [] && !xdpAttached && ranHooks == []
    {
      this.host := host;
      this.maxXsks := maxXsks;
      this.switchIp := switchIp;
      this.switchMac := switchMac;
      this.fakeGatewayIp := fakeGatewayIp;
      obj := null;
      handlers := [];
      calls := [];
      numXsk := 0;
      exitHooks := [];
      xdpAttached := false;
      ranHooks := [];
    }

    /** `on_switch_change`: register an observer at the head of the list. */
    method OnSwitchChange(fn: ObserverId)
      modifies this`handlers
      ensures handlers == Registered(old(handlers), [fn])
    {
      handlers := [fn] + handlers;
    }

    /** `__on_switch_change`: call every observer once, in list order. */
    method NotifySwitchChange()
      modifies this`calls
      ensures calls == old(calls) + handlers
    {
      var i := 0;
      while i < |handlers|
        invariant 0 <= i <= |handlers|
        invariant calls == old(calls) + handlers[..i]
      {
        calls := calls + [handlers[i]];
        i := i + 1;
      }
      assert handlers[..i] == handlers;
    }

    /** `bpf_set_switch_ip`. */
    method SetSwitchIp(addr: IpAddr)
      requires addr != switchIp ==> obj != null
      modifies this`switchIp, this`calls, (if obj == null then {} else {obj})`bss
      ensures addr == old(switchIp) ==>
        switchIp == old(switchIp) && calls == old(calls) && (obj != null ==> obj.bss == old(obj.bss))
      ensures addr != old(switchIp) ==>
        switchIp == addr && obj.bss == old(obj.bss).(switchIp := addr) && calls == old(calls) + handlers
    {
      if switchIp == addr {
        return;
      }
      switchIp := addr;
      obj.bss := obj.bss.(switchIp := addr);
      NotifySwitchChange();
    }

    /** `bpf_set_switch_mac`. */
    method SetSwitchMac(addr: MacAddr)
      requires addr != switchMac ==> obj != null
      modifies this`switchMac, this`calls, (if obj == null then {} else {obj})`bss
      ensures addr == old(switchMac) ==>
        switchMac == old(switchMac) && calls == old(calls) && (obj != null ==> obj.bss == old(obj.bss))
      ensures addr != old(switchMac) ==>
        switchMac == addr && obj.bss == old(obj.bss).(switchMac := addr) && calls == old(calls) + handlers
    {
      if switchMac == addr {
        return;
      }
      switchMac := addr;
      obj.bss := obj.bss.(switchMac := addr);
      NotifySwitchChange();
    }

    /** `update_subnet_mask`. */
    method UpdateSubnetMask()
      requires obj != null
      modifies obj`bss
      ensures obj.bss == old(obj.bss).(subnetMask := SubnetMask(fakeGatewayIp, host.realSubnetMask))
    {
      if IsSet(fakeGatewayIp) {
        obj.bss := obj.bss.(subnetMask := Htonl(0xFFFF_FF00));
      } else {
        obj.bss := obj.bss.(subnetMask := host.realSubnetMask);
      }
    }

    /** `bpf_set_fake_gateway_ip`: switch observers are not told. */
    method SetFakeGatewayIp(addr: IpAddr)
      requires addr != fakeGatewayIp ==> obj != null
      modifies this`fakeGatewayIp, (if obj == null then {} else {obj})`bss
      ensures calls == old(calls)
      ensures addr == old(fakeGatewayIp) ==>
        fakeGatewayIp == old(fakeGatewayIp) && (obj != null ==> obj.bss == old(obj.bss))
      ensures addr != old(fakeGatewayIp) ==>
        && fakeGatewayIp == addr
        && obj.bss == old(obj.bss).(fakeGatewayIp := addr, subnetMask := SubnetMask(addr, host.realSubnetMask))
    {
      if fakeGatewayIp == addr {
        return;
      }
      fakeGatewayIp := addr;
      obj.bss := obj.bss.(fakeGatewayIp := addr);
      UpdateSubnetMask();
    }

    /** `on_xsk_pkt`: adopt the switch identity the XDP program has learnt,
        then hand the frame without its Ethernet header to
        `broadcast_all_remotes`. The datagrams sent are returned. */
    method OnXskPkt(registry: Registry, frame: seq<Byte>) returns (sends: seq<Datagram>)
      requires obj != null
      modifies this`switchIp, this`switchMac, this`calls
      ensures old(obj.bss.switchIp) != old(switchIp) || old(obj.bss.switchMac) != old(switchMac) ==>
        switchIp == obj.bss.switchIp && switchMac == obj.bss.switchMac && calls == old(calls) + handlers
      ensures old(obj.bss.switchIp) == old(switchIp) && old(obj.bss.switchMac) == old(switchMac) ==>
        switchIp == old(switchIp) && switchMac == old(switchMac) && calls == old(calls)
      ensures |frame| <= EthHeaderLen ==> sends == []
      ensures |frame| > EthHeaderLen ==>
        && |sends| == |registry.remotes|
        && forall i :: 0 <= i < |sends| ==> sends[i] == Datagram(registry.remotes[i].remote, frame[EthHeaderLen..])
    {
      if obj.bss.switchIp != switchIp || obj.bss.switchMac != switchMac {
        switchIp := obj.bss.switchIp;
        switchMac := obj.bss.switchMac;
        NotifySwitchChange();
      }
      if |frame| <= EthHeaderLen {
        return [];
      }
      sends := registry.BroadcastAllRemotes(frame[EthHeaderLen..]);
    }

    /** The `.bss` writes of `bpf_load_thread`, `update_subnet_mask` included. */
    method PushInitialBss()
      requires obj != null
      modifies obj`bss
      ensures obj.bss == InitialBss(switchIp, switchMac, fakeGatewayIp, host)
    {
      obj.bss := obj.bss.(switchIp := switchIp, switchMac := switchMac);
      obj.bss := obj.bss.(publicHostIp := host.publicHostIp, hostMac := host.hostMac, gatewayMac := host.gatewayMac);
      obj.bss := obj.bss.(fakeGatewayIp := fakeGatewayIp);
      UpdateSubnetMask();
      obj.bss := obj.bss.(vpnPort := host.vpnPort);
    }

    /** The socket loop of `bpf_load_thread`: for each queue, open a socket
        and store its descriptor under the queue's key in `xsks_map`. */
    method OpenSockets(attempts: seq<XskAttempt>) returns (exit: Exit)
      requires obj != null && obj.xsksMap == map[] && numXsk == 0
      requires |attempts| == maxXsks
      modifies this`numXsk, obj`xsksMap
      ensures exit == LoopExit(attempts)
      ensures numXsk == StopIndex(attempts) && obj.xsksMap == XskEntries(attempts)
    {
      var i := 0;
      while i < maxXsks
        invariant 0 <= i <= StopIndex(attempts)
        invariant numXsk == i
        invariant obj.xsksMap == map j | 0 <= j < i :: attempts[j].fd
      {
        var attempt := attempts[i];
        if attempt.XskFailed? {
          if i > 0 {
            break;
          } else {
            return Fatal("xsk_configure_socket");
          }
        }
        var ok := obj.UpdateXsk(i, attempt.fd, attempt.mapUpdateOk);
        if !ok {
          return Fatal("bpf_map_update_elem");
        }
        numXsk := numXsk + 1;
        i := i + 1;
      }
      exit := Running;
    }

    /** `bpf_load_thread`: load the program, fill `.bss`, attach to the
        interface, open one AF_XDP socket per queue and register them, with
        the `atexit` hooks in between. The libbpf and AF_XDP outcomes are
        the oracle answers `loadOk`, `attachOk` and `attempts`. */
    method LoadThread(loadOk: bool, attachOk: bool, attempts: seq<XskAttempt>) returns (exit: Exit)
      requires obj == null && exitHooks == [] && numXsk == 0 && !xdpAttached
      requires |attempts| == maxXsks
      modifies this`obj, this`exitHooks, this`xdpAttached, this`numXsk
      ensures exitHooks == LoadHooks(loadOk, attachOk, attempts)
      ensures !loadOk ==> exit == Fatal("exit") && obj == null && numXsk == 0 && !xdpAttached
      ensures loadOk ==>
        && obj != null && fresh(obj) && !obj.destroyed && obj.remoteAddrs == map[]
        && obj.bss == InitialBss(switchIp, switchMac, fakeGatewayIp, host)
      ensures loadOk && !attachOk ==>
        exit == Fatal("bpf_set_link_xdp_fd") && !xdpAttached && numXsk == 0 && obj.xsksMap == map[]
      ensures loadOk && attachOk ==>
        && exit == LoopExit(attempts) && xdpAttached
        && numXsk == StopIndex(attempts) && obj.xsksMap == XskEntries(attempts)
    {
      if !loadOk {
        return Fatal("exit");
      }
      obj := new BpfObject.Load();
      exitHooks := exitHooks + [CloseObj];
      PushInitialBss();

      if !attachOk {
        return Fatal("bpf_set_link_xdp_fd");
      }
      xdpAttached := true;
      exitHooks := exitHooks + [DetachObj];

      exit := OpenSockets(attempts);
      if exit == Running {
        exitHooks := exitHooks + [ClearMap];
      }
    }

    /** `clear_map`: delete `xsks_map` keys 0 to 63, ignoring the results. */
    method ClearMapKeys()
      requires obj != null
      modifies obj`xsksMap
      ensures obj.xsksMap == old(obj.xsksMap) - KeysBelow(ClearedKeys)
    {
      var i := 0;
      while i < ClearedKeys
        invariant 0 <= i <= ClearedKeys
        invariant obj.xsksMap == old(obj.xsksMap) - KeysBelow(i)
      {
        obj.DeleteXsk(i);
        i := i + 1;
      }
    }

    /** One `atexit` hook. */
    method RunHook(h: Hook)
      requires obj != null
      modifies this`xdpAttached, obj`xsksMap, obj`destroyed
      ensures xdpAttached == (old(xdpAttached) && h != DetachObj)
      ensures obj.destroyed == (old(obj.destroyed) || h == CloseObj)
      ensures obj.xsksMap == if h == ClearMap then old(obj.xsksMap) - KeysBelow(ClearedKeys) else old(obj.xsksMap)
    {
      match h {
        case ClearMap => ClearMapKeys();
        case DetachObj => xdpAttached := false;
        case CloseObj => obj.Destroy();
      }
    }

    /** Process exit: libc runs the `atexit` hooks newest first. */
    method RunExitHooks()
      requires exitHooks != [] ==> obj != null
      modifies this`xdpAttached, this`ranHooks, obj
      ensures ranHooks == old(ranHooks) + Reverse(exitHooks)
      ensures xdpAttached == (old(xdpAttached) && DetachObj !in exitHooks)
      ensures obj != null ==> obj.destroyed == (old(obj.destroyed) || CloseObj in exitHooks)
      ensures obj != null ==>
        obj.xsksMap == if ClearMap in exitHooks then old(obj.xsksMap) - KeysBelow(ClearedKeys) else old(obj.xsksMap)
      ensures obj != null ==> obj.bss == old(obj.bss) && obj.remoteAddrs == old(obj.remoteAddrs)
    {
      var hooks := exitHooks;
      var i := |hooks|;
      while i > 0
        invariant 0 <= i <= |hooks|
        invariant ranHooks == old(ranHooks) + Reverse(hooks[i..])
        invariant xdpAttached == (old(xdpAttached) && DetachObj !in hooks[i..])
        invariant obj != null ==> obj.destroyed == (old(obj.destroyed) || CloseObj in hooks[i..])
        invariant obj != null ==>
          obj.xsksMap == if ClearMap in hooks[i..] then old(obj.xsksMap) - KeysBelow(ClearedKeys) else old(obj.xsksMap)
        invariant obj != null ==> obj.bss == old(obj.bss) && obj.remoteAddrs == old(obj.remoteAddrs)
      {
        i := i - 1;
        HookStep(hooks, i);
        if obj != null {
          MinusTwice(obj.xsksMap, old(obj.xsksMap), KeysBelow(ClearedKeys));
        }
        RunHook(hooks[i]);
        ranHooks := ranHooks + [hooks[i]];
      }
    }
  }
}
