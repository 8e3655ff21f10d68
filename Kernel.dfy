/** The loaded kernel-resident program as user space sees it through libbpf:
    the `.bss` block it shares with the XDP program and its two maps. What the
    XDP program itself does with them is outside this model; a failing libbpf
    call is an oracle answer passed in by the caller. */
module Kernel {
  import opened Net

  /** `obj->bss`: the fields the XDP program reads on every frame. */
  datatype Bss = Bss(
    switchMac: MacAddr,
    switchIp: IpAddr,
    fakeGatewayIp: IpAddr,
    subnetMask: IpAddr,
    publicHostIp: IpAddr,
    hostMac: MacAddr,
    gatewayMac: MacAddr,
    vpnPort: Port)

  const ZeroMac: MacAddr := [0, 0, 0, 0, 0, 0]

  /** A freshly loaded program's `.bss` is zero-filled. */
  const ZeroBss := Bss(ZeroMac, ZeroIp, ZeroIp, ZeroIp, ZeroIp, ZeroMac, ZeroMac, 0)

  /** `struct bpf_kern` after `bpf_kern__open_and_load`. */
  class BpfObject {
    var bss: Bss
    /** `xsks_map`: queue index to AF_XDP socket fd. */
    var xsksMap: map<int, int>
    /** `remote_addrs`: local address to the remote it is tunnelled to. */
    var remoteAddrs: map<IpAddr, RemoteAddr>
    /** Set by `bpf_kern__destroy`. */
    var destroyed: bool

    constructor Load()
      ensures bss == ZeroBss && xsksMap == map[] && remoteAddrs == map[] && !destroyed
    {
      bss := ZeroBss;
      xsksMap := map[];
      remoteAddrs := map[];
      destroyed := false;
    }

    /** `bpf_map_update_elem` on `xsks_map`; `updateOk` is the call's outcome. */
    method UpdateXsk(key: int, fd: int, updateOk: bool) returns (ok: bool)
      modifies this`xsksMap
      ensures ok == updateOk
      ensures xsksMap == if updateOk then old(xsksMap)[key := fd] else old(xsksMap)
    {
      if updateOk {
        xsksMap := xsksMap[key := fd];
      }
      ok := updateOk;
    }

    /** `bpf_map_delete_elem` on `xsks_map`: the key is gone afterwards. */
    method DeleteXsk(key: int)
      modifies this`xsksMap
      ensures xsksMap == old(xsksMap) - {key}
    {
      xsksMap := xsksMap - {key};
    }

    /** `bpf_kern__destroy`. */
    method Destroy()
      modifies this`destroyed
      ensures destroyed
    {
      destroyed := true;
    }

    /** `bpf_set_remote_addr`: `BPF_ANY` update of `remote_addrs`; a failed
        update is fatal (`perror_exit`), reported as `fatal`. */
    method SetRemoteAddr(localIp: IpAddr, remote: RemoteAddr, updateOk: bool) returns (fatal: bool)
      modifies this`remoteAddrs
      ensures fatal == !updateOk
      ensures remoteAddrs == if updateOk then old(remoteAddrs)[localIp := remote] else old(remoteAddrs)
    {
      if updateOk {
        remoteAddrs := remoteAddrs[localIp := remote];
      }
      fatal := !updateOk;
    }

    /** `bpf_delete_remote_addr`: the key is gone afterwards; the result of
        `bpf_map_delete_elem` is ignored. */
    method DeleteRemoteAddr(localIp: IpAddr)
      modifies this`remoteAddrs
      ensures remoteAddrs == old(remoteAddrs) - {localIp}
    {
      remoteAddrs := remoteAddrs - {localIp};
    }
  }
}
