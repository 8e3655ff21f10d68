/** The remote registry of `src/remote.c`: the `remotes` list of
    (local address, remote endpoint) nodes, its mirror in the kernel table
    `remote_addrs`, the structural log, and the UDP fan-out of frames.

    The list is kept exactly as the C code leaves it, including two quirks:
    a set always prepends a new node, even after overwriting an existing one,
    and a delete unlinks only the first node for the address while it deletes
    the whole kernel key. */
module Remote {
  import opened Net
  import opened Kernel

  /** `struct remote_switch`: one node of the `remotes` list. */
  datatype RemoteSwitch = RemoteSwitch(local: IpAddr, remote: RemoteAddr)

  /** The index of the first node for `local` at or after index `i`: the
      `list_for_each_entry` scan, resumed at `i`. */
  function FirstMatchFrom(s: seq<RemoteSwitch>, local: IpAddr, i: nat): (r: Option<nat>)
    requires i <= |s|
    decreases |s| - i
    ensures r.Some? ==> i <= r.value < |s| && s[r.value].local == local
    ensures r.Some? ==> forall j :: i <= j < r.value ==> s[j].local != local
    ensures r.None? <==> forall j :: i <= j < |s| ==> s[j].local != local
  {
    if i == |s| then None
    else if s[i].local == local then Some(i)
    else FirstMatchFrom(s, local, i + 1)
  }

  /** The index of the first node for `local`, where a scan from the head
      stops. */
  function FirstMatch(s: seq<RemoteSwitch>, local: IpAddr): (r: Option<nat>)
    ensures r.Some? ==> r.value < |s| && s[r.value].local == local
    ensures r.Some? ==> forall j :: 0 <= j < r.value ==> s[j].local != local
    ensures r.None? <==> forall j :: 0 <= j < |s| ==> s[j].local != local
  {
    FirstMatchFrom(s, local, 0)
  }

  /** The number of nodes for `local`. */
  function Count(s: seq<RemoteSwitch>, local: IpAddr): nat {
    if s == [] then 0 else (if s[0].local == local then 1 else 0) + Count(s[1..], local)
  }

  /** The registry invariant the design asks for: one node per local address. */
  ghost predicate UniqueLocals(s: seq<RemoteSwitch>) {
    forall i, j :: 0 <= i < j < |s| ==> s[i].local != s[j].local
  }

  /** The scan of `set_remote_addr`: the first node for `local`, if any, gets
      the new endpoint. */
  function Overwrite(s: seq<RemoteSwitch>, local: IpAddr, remote: RemoteAddr): (r: seq<RemoteSwitch>)
    ensures |r| == |s| && forall j :: 0 <= j < |s| ==> r[j].local == s[j].local
    ensures FirstMatch(s, local).None? ==> r == s
    ensures FirstMatch(s, local).Some? ==>
      && r[FirstMatch(s, local).value].remote == remote
      && forall j :: 0 <= j < |s| && j != FirstMatch(s, local).value ==> r[j] == s[j]
  {
    match FirstMatch(s, local)
    case None => s
    case Some(i) => s[i := s[i].(remote := remote)]
  }

  /** The list after `set_remote_addr` for a non-switch address: the
      `goto next` of the scan lands on the allocation, so a new node is
      pushed at the head whether or not the scan found one. */
  function AfterSet(s: seq<RemoteSwitch>, local: IpAddr, remote: RemoteAddr): seq<RemoteSwitch> {
    [RemoteSwitch(local, remote)] + Overwrite(s, local, remote)
  }

  /** The list after `delete_remote_addr` for a non-switch address: only the
      first node for `local` is unlinked. */
  function AfterDelete(s: seq<RemoteSwitch>, local: IpAddr): (r: seq<RemoteSwitch>)
    ensures FirstMatch(s, local).None? ==> r == s
    ensures FirstMatch(s, local).Some? ==> |r| == |s| - 1
  {
    match FirstMatch(s, local)
    case None => s
    case Some(i) => s[..i] + s[i + 1..]
  }

  /** The kernel table agrees with the list: every kernel key has a node, and
      the first node for it (the one a scan would find) holds the same endpoint. */
  ghost predicate Mirrors(s: seq<RemoteSwitch>, kernel: map<IpAddr, RemoteAddr>) {
    forall l :: l in kernel ==> FirstMatch(s, l).Some? && s[FirstMatch(s, l).value].remote == kernel[l]
  }

  /** The line `set_remote_addr` writes to the remotes log. */
  function AddedLine(local: IpAddr): string {
    "+ Remote IP " + IpStr(local) + "\n"
  }

  /** The line `delete_remote_addr` writes to the remotes log. */
  function RemovedLine(local: IpAddr): string {
    "- Remote IP " + IpStr(local) + "\n"
  }

  // ---------------------------------------------------------------------------
  // Properties of the list operations

  /** The scan looks only at the local addresses of the nodes. */
  lemma FirstMatchByLocals(s: seq<RemoteSwitch>, t: seq<RemoteSwitch>, m: IpAddr)
    requires |s| == |t| && forall j :: 0 <= j < |s| ==> s[j].local == t[j].local
    ensures FirstMatch(s, m) == FirstMatch(t, m)
  {
  }

  lemma {:induction false} CountByLocals(s: seq<RemoteSwitch>, t: seq<RemoteSwitch>, m: IpAddr)
    requires |s| == |t| && forall j :: 0 <= j < |s| ==> s[j].local == t[j].local
    ensures Count(s, m) == Count(t, m)
  {
    if s != [] {
      CountByLocals(s[1..], t[1..], m);
    }
  }

  lemma {:induction false} CountAppend(a: seq<RemoteSwitch>, b: seq<RemoteSwitch>, m: IpAddr)
    ensures Count(a + b, m) == Count(a, m) + Count(b, m)
  {
    if a == [] {
      assert a + b == b;
    } else {
      assert (a + b)[1..] == a[1..] + b;
      CountAppend(a[1..], b, m);
    }
  }

  /** A node is present exactly when the count is positive. */
  lemma {:induction false} CountPositive(s: seq<RemoteSwitch>, m: IpAddr)
    ensures Count(s, m) > 0 <==> FirstMatch(s, m).Some?
  {
    if s != [] {
      CountPositive(s[1..], m);
    }
  }

  /** Every set adds exactly one node for its address and leaves the number
      of nodes of every other address alone: the list grows by one. */
  lemma {:induction false} CountAfterSet(s: seq<RemoteSwitch>, local: IpAddr, remote: RemoteAddr, m: IpAddr)
    ensures |AfterSet(s, local, remote)| == |s| + 1
    ensures Count(AfterSet(s, local, remote), m) == Count(s, m) + (if m == local then 1 else 0)
  {
    var t := Overwrite(s, local, remote);
    CountByLocals(s, t, m);
    assert AfterSet(s, local, remote)[1..] == t;
  }

  /** Uniqueness by local address is not kept: setting an address that
      already has a node leaves two nodes for it. */
  lemma {:induction false} SetBreaksUniqueness(s: seq<RemoteSwitch>, local: IpAddr, remote: RemoteAddr)
    requires FirstMatch(s, local).Some?
    ensures !UniqueLocals(AfterSet(s, local, remote))
    ensures Count(AfterSet(s, local, remote), local) >= 2
  {
    var i := FirstMatch(s, local).value;
    var t := AfterSet(s, local, remote);
    assert t[0].local == local && t[i + 1].local == local;
    CountAfterSet(s, local, remote, local);
    CountPositive(s, local);
  }

  /** A delete right after a set of an address that already had a node
      unlinks only the node the set pushed: the overwritten node stays in the
      list (and keeps receiving broadcasts) although the kernel key is gone. */
  lemma {:induction false} DeleteAfterSetKeepsNode(s: seq<RemoteSwitch>, local: IpAddr, remote: RemoteAddr)
    requires FirstMatch(s, local).Some?
    ensures AfterDelete(AfterSet(s, local, remote), local) == Overwrite(s, local, remote)
    ensures FirstMatch(AfterDelete(AfterSet(s, local, remote), local), local) == FirstMatch(s, local)
  {
    var t := Overwrite(s, local, remote);
    assert AfterSet(s, local, remote)[1..] == t;
    FirstMatchByLocals(s, t, local);
  }

  /** A delete of an address with a node removes exactly one node for it and
      no node of any other address; a delete of an absent address removes
      nothing. */
  lemma {:induction false} CountAfterDelete(s: seq<RemoteSwitch>, local: IpAddr, m: IpAddr)
    ensures Count(AfterDelete(s, local), m)
         == Count(s, m) - (if m == local && FirstMatch(s, local).Some? then 1 else 0)
  {
    match FirstMatch(s, local)
    case None =>
    case Some(i) =>
      assert s == s[..i] + [s[i]] + s[i + 1..];
      CountAppend(s[..i] + [s[i]], s[i + 1..], m);
      CountAppend(s[..i], [s[i]], m);
      CountAppend(s[..i], s[i + 1..], m);
  }

  /** A set moves the first node of every other address one place back and
      leaves it as it was. */
  lemma {:induction false} FirstMatchAfterSet(s: seq<RemoteSwitch>, local: IpAddr, remote: RemoteAddr, l: IpAddr)
    requires l != local && FirstMatch(s, l).Some?
    ensures FirstMatch(AfterSet(s, local, remote), l) == Some(FirstMatch(s, l).value + 1)
    ensures AfterSet(s, local, remote)[FirstMatch(s, l).value + 1] == s[FirstMatch(s, l).value]
  {
    var k := FirstMatch(s, l).value;
    var o := Overwrite(s, local, remote);
    var t := AfterSet(s, local, remote);
    assert |o| == |s| && forall j :: 0 <= j < |s| ==> o[j].local == s[j].local;
    assert o[k] == s[k];
    forall j | 0 <= j < k + 1 ensures t[j].local != l {
      if j > 0 {
        assert t[j] == o[j - 1];
      }
    }
    FirstMatchIs(t, l, k + 1);
  }

  /** A set keeps the kernel table in step with the list. */
  lemma {:induction false} MirrorAfterSet(s: seq<RemoteSwitch>, kernel: map<IpAddr, RemoteAddr>, local: IpAddr, remote: RemoteAddr)
    requires Mirrors(s, kernel)
    ensures Mirrors(AfterSet(s, local, remote), kernel[local := remote])
  {
    var t := AfterSet(s, local, remote);
    forall l | l in kernel[local := remote]
      ensures FirstMatch(t, l).Some? && t[FirstMatch(t, l).value].remote == kernel[local := remote][l]
    {
      if l == local {
        FirstMatchIs(t, l, 0);
      } else {
        FirstMatchAfterSet(s, local, remote, l);
      }
    }
  }

  lemma AfterDeleteIs(s: seq<RemoteSwitch>, local: IpAddr, i: nat)
    requires FirstMatch(s, local) == Some(i)
    ensures AfterDelete(s, local) == s[..i] + s[i + 1..]
  {
  }

  /** A scan stops at the first node for `l`. */
  lemma {:induction false} FirstMatchIs(t: seq<RemoteSwitch>, l: IpAddr, k: nat)
    requires k < |t| && t[k].local == l
    requires forall j :: 0 <= j < k ==> t[j].local != l
    ensures FirstMatch(t, l) == Some(k)
  {
  }

  /** Unlinking a node behind the first node for `l` keeps that node where it is. */
  lemma {:induction false} UnlinkBehind(s: seq<RemoteSwitch>, i: nat, l: IpAddr, k: nat)
    requires k < i < |s| && FirstMatch(s, l) == Some(k)
    ensures FirstMatch(s[..i] + s[i + 1..], l) == Some(k)
    ensures (s[..i] + s[i + 1..])[k] == s[k]
  {
    var t := s[..i] + s[i + 1..];
    forall j | 0 <= j < k ensures t[j].local != l {
      assert t[j] == s[j];
    }
    assert t[k] == s[k];
    FirstMatchIs(t, l, k);
  }

  /** Unlinking a node in front of the first node for `l` moves that node
      one place towards the head. */
  lemma {:induction false} UnlinkInFront(s: seq<RemoteSwitch>, i: nat, l: IpAddr, k: nat)
    requires i < k < |s| && FirstMatch(s, l) == Some(k)
    ensures FirstMatch(s[..i] + s[i + 1..], l) == Some(k - 1)
    ensures (s[..i] + s[i + 1..])[k - 1] == s[k]
  {
    var t := s[..i] + s[i + 1..];
    forall j | 0 <= j < k - 1 ensures t[j].local != l {
      if j < i { assert t[j] == s[j]; } else { assert t[j] == s[j + 1]; }
    }
    assert t[k - 1] == s[k];
    FirstMatchIs(t, l, k - 1);
  }

  /** Unlinking the first node of one address does not change which node a
      scan finds for any other address. */
  lemma {:induction false} FirstMatchAfterDelete(s: seq<RemoteSwitch>, local: IpAddr, l: IpAddr)
    requires FirstMatch(s, local).Some? && FirstMatch(s, l).Some? && l != local
    ensures FirstMatch(AfterDelete(s, local), l).Some?
    ensures AfterDelete(s, local)[FirstMatch(AfterDelete(s, local), l).value] == s[FirstMatch(s, l).value]
  {
    var i := FirstMatch(s, local).value;
    var k := FirstMatch(s, l).value;
    AfterDeleteIs(s, local, i);
    assert k != i;
    if k < i {
      UnlinkBehind(s, i, l, k);
    } else {
      UnlinkInFront(s, i, l, k);
    }
  }

  /** A delete keeps the kernel table in step with the list. */
  lemma {:induction false} MirrorAfterDelete(s: seq<RemoteSwitch>, kernel: map<IpAddr, RemoteAddr>, local: IpAddr)
    requires Mirrors(s, kernel)
    requires FirstMatch(s, local).Some?
    ensures Mirrors(AfterDelete(s, local), kernel - {local})
  {
    forall l | l in kernel - {local}
      ensures FirstMatch(AfterDelete(s, local), l).Some?
      ensures AfterDelete(s, local)[FirstMatch(AfterDelete(s, local), l).value].remote == (kernel - {local})[l]
    {
      FirstMatchAfterDelete(s, local, l);
    }
  }

  // ---------------------------------------------------------------------------
  // The registry

  class Registry {
    /** `remotes`, head first. */
    var remotes: seq<RemoteSwitch>
    /** `remotes_log`, one string per `fprintf`. */
    var log: seq<string>

    constructor ()
      ensures remotes == [] && log == []
    {
      remotes := [];
      log := [];
    }

    /** `set_remote_addr`. `switchIp` is the current value of the global
        `switch_ip`; `updateOk` is the kernel map update's outcome, whose
        failure ends the process (`fatal`). */
    method SetRemoteAddr(obj: BpfObject, switchIp: IpAddr, localIp: IpAddr, remoteIp: IpAddr,
                         remotePort: Port, updateOk: bool) returns (fatal: bool)
      modifies this, obj`remoteAddrs
      ensures localIp == switchIp ==>
        !fatal && remotes == old(remotes) && log == old(log) && obj.remoteAddrs == old(obj.remoteAddrs)
      ensures localIp != switchIp ==>
        && remotes == AfterSet(old(remotes), localIp, RemoteAddr(remoteIp, remotePort))
        && log == old(log) + [AddedLine(localIp)]
        && fatal == !updateOk
        && obj.remoteAddrs == (if updateOk then old(obj.remoteAddrs)[localIp := RemoteAddr(remoteIp, remotePort)]
                               else old(obj.remoteAddrs))
      ensures Mirrors(old(remotes), old(obj.remoteAddrs)) && !fatal ==> Mirrors(remotes, obj.remoteAddrs)
    {
      fatal := false;
      if localIp == switchIp {
        return;
      }
      var endpoint := RemoteAddr(remoteIp, remotePort);
      ghost var before := remotes;
      var i := 0;
      while i < |remotes|
        invariant 0 <= i <= |remotes| && remotes == before
        invariant forall j :: 0 <= j < i ==> remotes[j].local != localIp
      {
        if remotes[i].local == localIp {
          remotes := remotes[i := remotes[i].(remote := endpoint)];
          break;
        }
        i := i + 1;
      }
      remotes := [RemoteSwitch(localIp, endpoint)] + remotes;
      log := log + [AddedLine(localIp)];
      fatal := obj.SetRemoteAddr(localIp, endpoint, updateOk);
      if !fatal && Mirrors(before, old(obj.remoteAddrs)) {
        MirrorAfterSet(before, old(obj.remoteAddrs), localIp, endpoint);
      }
    }

    /** `delete_remote_addr`. */
    method DeleteRemoteAddr(obj: BpfObject, switchIp: IpAddr, localIp: IpAddr)
      modifies this, obj`remoteAddrs
      ensures localIp == switchIp || FirstMatch(old(remotes), localIp).None? ==>
        remotes == old(remotes) && log == old(log) && obj.remoteAddrs == old(obj.remoteAddrs)
      ensures localIp != switchIp && FirstMatch(old(remotes), localIp).Some? ==>
        && remotes == AfterDelete(old(remotes), localIp)
        && log == old(log) + [RemovedLine(localIp)]
        && obj.remoteAddrs == old(obj.remoteAddrs) - {localIp}
      ensures Mirrors(old(remotes), old(obj.remoteAddrs)) ==> Mirrors(remotes, obj.remoteAddrs)
    {
      if localIp == switchIp {
        return;
      }
      ghost var before := remotes;
      var i := 0;
      while i < |remotes|
        invariant 0 <= i <= |remotes| && remotes == before
        invariant forall j :: 0 <= j < i ==> remotes[j].local != localIp
      {
        if remotes[i].local == localIp {
          remotes := remotes[..i] + remotes[i + 1..];
          log := log + [RemovedLine(localIp)];
          obj.DeleteRemoteAddr(localIp);
          if Mirrors(before, old(obj.remoteAddrs)) {
            MirrorAfterDelete(before, old(obj.remoteAddrs), localIp);
          }
          return;
        }
        i := i + 1;
      }
    }

    /** `broadcast_all_remotes`: one datagram of `buf` to every node's
        endpoint, in list order; `sendto` results are ignored and the list
        is only read. */
    method BroadcastAllRemotes(buf: seq<Byte>) returns (sends: seq<Datagram>)
      ensures |sends| == |remotes|
      ensures forall i :: 0 <= i < |remotes| ==> sends[i] == Datagram(remotes[i].remote, buf)
    {
      sends := [];
      for i := 0 to |remotes|
        invariant |sends| == i
        invariant forall j :: 0 <= j < i ==> sends[j] == Datagram(remotes[j].remote, buf)
      {
        sends := sends + [Datagram(remotes[i].remote, buf)];
      }
    }
  }
}
