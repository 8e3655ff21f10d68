/** The rendezvous server of `srv/registry/index.js`: every connected switch
    client pulses its virtual switch address and UDP port; the server keeps
    the last pulse of every switch address in `allSwitches` and tells the
    clients which remotes to add or delete. Time is the `now` argument
    (milliseconds) and every `emit` is appended to an event log. */
module Rendezvous {
  import opened Net

  // ---------------------------------------------------------------------------
  // The IPv4 address expression: a look-ahead refusing a leading 0, one refusing
  // a trailing dot, and four octet groups each followed by a dot or the end.

  predicate IsDigit(c: char) {
    '0' <= c <= '9'
  }

  /** A whole dot-free part matched by `(1?\d?\d|25[0-5]|2[0-4]\d)`: one or two
      digits (leading zero allowed), or three digits from 100 to 255. */
  predicate IsOctet(p: string) {
    || (|p| == 1 && IsDigit(p[0]))
    || (|p| == 2 && IsDigit(p[0]) && IsDigit(p[1]))
    || (|p| == 3 && p[0] == '1' && IsDigit(p[1]) && IsDigit(p[2]))
    || (|p| == 3 && p[0] == '2' && '0' <= p[1] <= '4' && IsDigit(p[2]))
    || (|p| == 3 && p[0] == '2' && p[1] == '5' && '0' <= p[2] <= '5')
  }

  /** The parts of `s` between dots. */
  function Split(s: string): (parts: seq<string>)
    ensures |parts| >= 1
  {
    if s == [] then [[]]
    else if s[0] == '.' then [[]] + Split(s[1..])
    else var rest := Split(s[1..]); [[s[0]] + rest[0]] + rest[1..]
  }

  /** The parts joined with dots. */
  function JoinDots(parts: seq<string>): string
    requires |parts| >= 1
  {
    if |parts| == 1 then parts[0] else parts[0] + "." + JoinDots(parts[1..])
  }

  /** The expression `IPV4_REGEXP`: four octets joined by dots (the group's
      `(\.|$)` can match the end only once, and the second look-ahead forbids
      a trailing dot), and the whole string does not start with `0`. */
  predicate IsIPv4(s: string) {
    && |s| > 0 && s[0] != '0'
    && |Split(s)| == 4
    && forall i :: 0 <= i < 4 ==> IsOctet(Split(s)[i])
  }

  lemma {:induction false} SplitNoDot(p: string)
    requires '.' !in p
    ensures Split(p) == [p]
  {
    if p != [] {
      assert '.' !in p[1..];
      SplitNoDot(p[1..]);
      assert [p[0]] + p[1..] == p;
    }
  }

  lemma {:induction false} SplitPrefix(p: string, rest: string)
    requires '.' !in p
    ensures Split(p + "." + rest) == [p] + Split(rest)
  {
    if p == [] {
      assert p + "." + rest == ['.'] + rest;
    } else {
      var s := p + "." + rest;
      assert s[0] == p[0] && s[1..] == p[1..] + "." + rest;
      assert '.' !in p[1..];
      SplitPrefix(p[1..], rest);
      assert [p[0]] + p[1..] == p;
    }
  }

  /** Splitting undoes joining when no part holds a dot. */
  lemma {:induction false} SplitJoin(parts: seq<string>)
    requires |parts| >= 1 && forall i :: 0 <= i < |parts| ==> '.' !in parts[i]
    ensures Split(JoinDots(parts)) == parts
  {
    if |parts| == 1 {
      SplitNoDot(parts[0]);
    } else {
      SplitJoin(parts[1..]);
      SplitPrefix(parts[0], JoinDots(parts[1..]));
    }
  }

  /** The decimal text of a byte is an octet, and starts with `0` only for zero. */
  lemma {:induction false} OctetText(n: Byte)
    ensures IsOctet(DecimalString(n)) && '.' !in DecimalString(n)
    ensures DecimalString(n)[0] == '0' <==> n == 0
  {
    if n >= 10 {
      assert DecimalString(n) == DecimalString(n / 10) + [DigitChar(n % 10)];
      if n >= 100 {
        assert DecimalString(n / 10) == DecimalString(n / 100) + [DigitChar(n / 10 % 10)];
        assert DecimalString(n / 100) == [DigitChar(n / 100)];
      }
    }
  }

  lemma JoinQuad(p0: string, p1: string, p2: string, p3: string)
    ensures JoinDots([p0, p1, p2, p3]) == p0 + "." + p1 + "." + p2 + "." + p3
  {
    var parts := [p0, p1, p2, p3];
    assert JoinDots([p3]) == p3;
    assert [p2, p3][1..] == [p3];
    assert JoinDots([p2, p3]) == p2 + "." + p3;
    assert [p1, p2, p3][1..] == [p2, p3];
    assert JoinDots([p1, p2, p3]) == p1 + "." + (p2 + "." + p3);
    assert parts[1..] == [p1, p2, p3];
    assert p0 + "." + (p1 + "." + (p2 + "." + p3)) == p0 + "." + p1 + "." + p2 + "." + p3;
  }

  /** The expression accepts the dotted-decimal text of an address exactly
      when its first byte is not zero. */
  lemma DottedQuadAccepted(a: IpAddr)
    ensures IsIPv4(IpStr(a)) <==> a[0] != 0
  {
    var parts := [DecimalString(a[0]), DecimalString(a[1]), DecimalString(a[2]), DecimalString(a[3])];
    OctetText(a[0]);
    OctetText(a[1]);
    OctetText(a[2]);
    OctetText(a[3]);
    JoinQuad(parts[0], parts[1], parts[2], parts[3]);
    SplitJoin(parts);
    assert Split(IpStr(a)) == parts;
    assert IpStr(a)[0] == parts[0][0];
  }

  /** The example the expression is meant to accept. */
  lemma AcceptsExample()
    ensures IsIPv4("10.0.0.1")
  {
    DottedQuadAccepted([10, 0, 0, 1]);
    assert IpStr([10, 0, 0, 1]) == "10.0.0.1";
  }

  /** The examples the expression is meant to refuse: a leading zero, a
      trailing dot, an octet over 255, three octets. */
  lemma RefusesLeadingZero()
    ensures !IsIPv4("0.1.2.3")
  {
  }

  lemma RefusesTrailingDot()
    ensures !IsIPv4("1.2.3.")
  {
    var parts := ["1", "2", "3", ""];
    JoinQuad("1", "2", "3", "");
    assert "1" + "." + "2" + "." + "3" + "." + "" == "1.2.3.";
    SplitJoin(parts);
    assert Split("1.2.3.")[3] == "";
  }

  lemma RefusesLargeOctet()
    ensures !IsIPv4("1.2.3.256")
  {
    var parts := ["1", "2", "3", "256"];
    JoinQuad("1", "2", "3", "256");
    assert "1" + "." + "2" + "." + "3" + "." + "256" == "1.2.3.256";
    SplitJoin(parts);
    assert !IsOctet(Split("1.2.3.256")[3]);
  }

  lemma RefusesThreeOctets()
    ensures !IsIPv4("1.2.3")
  {
    SplitPrefix("1", "2.3");
    SplitPrefix("2", "3");
    SplitNoDot("3");
    assert "1.2.3" == "1" + "." + "2.3" && "2.3" == "2" + "." + "3";
  }

  // ---------------------------------------------------------------------------
  // The connection's public address

  const MappedPrefix: string := "::ffff:"

  /** `publicIP` after removing an IPv4-mapped IPv6 prefix (section 2.5.5.2
      of RFC 4291). */
  function StripMapped(addr: string): (r: string)
    ensures IsMapped(addr) ==> MappedPrefix + r == addr
    ensures !IsMapped(addr) ==> r == addr
  {
    if IsMapped(addr) then addr[|MappedPrefix|..] else addr
  }

  /** `publicIP.startsWith('::ffff:')`. */
  predicate IsMapped(addr: string) {
    |addr| >= |MappedPrefix| && addr[..|MappedPrefix|] == MappedPrefix
  }

  /** The public address of a new connection, or `None` where the handler
      throws `Unexpected IP`. */
  function NormalizePublicIp(addr: string): (r: Option<string>)
    ensures r.Some? ==> IsIPv4(r.value) && r.value == StripMapped(addr)
  {
    var ip := StripMapped(addr);
    if IsIPv4(ip) then Some(ip) else None
  }

  /** An IPv4 address is accepted as it is and in its mapped form; anything
      else is refused in either form. */
  lemma MappedAddressNormalised(ip: string)
    ensures NormalizePublicIp(MappedPrefix + ip) == (if IsIPv4(ip) then Some(ip) else None)
    ensures IsIPv4(ip) ==> NormalizePublicIp(ip) == Some(ip)
    ensures !IsMapped(ip) && !IsIPv4(ip) ==> NormalizePublicIp(ip).None?
  {
    assert (MappedPrefix + ip)[..|MappedPrefix|] == MappedPrefix;
    assert (MappedPrefix + ip)[|MappedPrefix|..] == ip;
    if IsIPv4(ip) {
      var first := Split(ip)[0];
      assert |first| > 0 && IsDigit(first[0]);
      assert ip[0] == first[0];
      assert ip[0] != ':';
      assert |ip| >= |MappedPrefix| ==> ip[..|MappedPrefix|][0] == ip[0];
    }
  }

  /** A plain IPv6 peer, such as the loopback `::1`, makes the handler throw. */
  lemma RefusesIPv6Peer()
    ensures NormalizePublicIp("::1").None?
  {
    SplitNoDot("::1");
  }

  // ---------------------------------------------------------------------------
  // allSwitches: a JavaScript Map, which iterates in insertion order

  /** One value of `allSwitches`: `[publicIP, vpnPort, lastPulse]`. */
  datatype SwitchEntry = SwitchEntry(publicIP: string, vpnPort: int, lastPulse: int)

  /** The Map: its keys in insertion order and its key/value pairs. */
  datatype SwitchMap = SwitchMap(order: seq<string>, entries: map<string, SwitchEntry>)

  const EmptyMap := SwitchMap([], map[])

  predicate Distinct(s: seq<string>) {
    forall i, j :: 0 <= i < j < |s| ==> s[i] != s[j]
  }

  ghost predicate WellFormed(m: SwitchMap) {
    Distinct(m.order) && forall k :: k in m.entries <==> k in m.order
  }

  function Remove(s: seq<string>, k: string): (r: seq<string>)
    ensures forall x :: x in r <==> x in s && x != k
  {
    if s == [] then [] else (if s[0] == k then [] else [s[0]]) + Remove(s[1..], k)
  }

  /** `Map.prototype.set`: a new key goes last, an existing key keeps its place. */
  function MapSet(m: SwitchMap, k: string, v: SwitchEntry): SwitchMap {
    if k in m.entries then m.(entries := m.entries[k := v]) else SwitchMap(m.order + [k], m.entries[k := v])
  }

  /** `Map.prototype.delete`. */
  function MapDelete(m: SwitchMap, k: string): SwitchMap {
    SwitchMap(Remove(m.order, k), m.entries - {k})
  }

  lemma {:induction false} RemoveAbsent(s: seq<string>, k: string)
    requires k !in s
    ensures Remove(s, k) == s
  {
    if s != [] {
      RemoveAbsent(s[1..], k);
    }
  }

  lemma {:induction false} RemoveAppend(a: seq<string>, b: seq<string>, k: string)
    ensures Remove(a + b, k) == Remove(a, k) + Remove(b, k)
  {
    if a == [] {
      assert a + b == b;
    } else {
      assert (a + b)[1..] == a[1..] + b;
      RemoveAppend(a[1..], b, k);
    }
  }

  /** Setting a key keeps the Map well formed; the key holds the new value,
      every other key keeps its value and its place. */
  lemma MapSetSpec(m: SwitchMap, k: string, v: SwitchEntry)
    requires WellFormed(m)
    ensures WellFormed(MapSet(m, k, v))
    ensures MapSet(m, k, v).entries == m.entries[k := v]
    ensures MapSet(m, k, v).order == if k in m.order then m.order else m.order + [k]
  {
  }

  // ---------------------------------------------------------------------------
  // The expiry sweep of a connection's first pulse

  /** 20 minutes. */
  const ExpiryMs: int := 20 * 60 * 1000

  type SocketId = nat

  datatype Event =
    | SetRemoteAddrEvent(localIP: string, remoteIP: string, remotePort: int)
    | DeleteRemoteAddrEvent(localIP: string)

  /** `socket.emit`, `socket.broadcast.emit` (every socket but this one) and
      `io.sockets.emit` (every socket). */
  datatype Emission =
    | ToSocket(socket: SocketId, event: Event)
    | ToOthers(except: SocketId, event: Event)
    | ToAll(event: Event)

  predicate IsFresh(e: SwitchEntry, cutoff: int) {
    e.lastPulse > cutoff
  }

  /** The keys of `keys`, in order, whose entries are fresh. */
  function Kept(keys: seq<string>, entries: map<string, SwitchEntry>, cutoff: int): seq<string> {
    if keys == [] then []
    else
      var k := keys[|keys| - 1];
      Kept(keys[..|keys| - 1], entries, cutoff) + (if k in entries && IsFresh(entries[k], cutoff) then [k] else [])
  }

  /** A key is kept exactly when it is among `keys` with a fresh entry. */
  lemma {:induction false} KeptMembers(keys: seq<string>, entries: map<string, SwitchEntry>, cutoff: int)
    ensures forall k :: k in Kept(keys, entries, cutoff) <==> k in keys && k in entries && IsFresh(entries[k], cutoff)
  {
    if keys != [] {
      var init := keys[..|keys| - 1];
      KeptMembers(init, entries, cutoff);
      assert keys == init + [keys[|keys| - 1]];
    }
  }

  /** `entries` without the expired entries of `keys`. */
  function Pruned(keys: seq<string>, entries: map<string, SwitchEntry>, cutoff: int): map<string, SwitchEntry> {
    if keys == [] then entries
    else
      var k := keys[|keys| - 1];
      var rest := Pruned(keys[..|keys| - 1], entries, cutoff);
      if k in entries && !IsFresh(entries[k], cutoff) then rest - {k} else rest
  }

  /** An entry survives pruning exactly when it is not among `keys` or is
      fresh, and it survives unchanged. */
  lemma {:induction false} PrunedSpec(keys: seq<string>, entries: map<string, SwitchEntry>, cutoff: int)
    ensures forall k :: k in Pruned(keys, entries, cutoff) <==> k in entries && (k in keys ==> IsFresh(entries[k], cutoff))
    ensures forall k :: k in Pruned(keys, entries, cutoff) ==> Pruned(keys, entries, cutoff)[k] == entries[k]
  {
    if keys != [] {
      var init := keys[..|keys| - 1];
      PrunedSpec(init, entries, cutoff);
      assert keys == init + [keys[|keys| - 1]];
    }
  }

  /** What the sweep emits for one key. */
  function SweepEmission(k: string, e: SwitchEntry, cutoff: int, socket: SocketId): Emission {
    if IsFresh(e, cutoff) then ToSocket(socket, SetRemoteAddrEvent(k, e.publicIP, e.vpnPort))
    else ToOthers(socket, DeleteRemoteAddrEvent(k))
  }

  /** The emissions of the sweep over `keys`, in order. */
  function SweepEmits(keys: seq<string>, entries: map<string, SwitchEntry>, cutoff: int, socket: SocketId): seq<Emission> {
    if keys == [] then []
    else
      var k := keys[|keys| - 1];
      SweepEmits(keys[..|keys| - 1], entries, cutoff, socket)
        + (if k in entries then [SweepEmission(k, entries[k], cutoff, socket)] else [])
  }

  /** The Map after the sweep: the expired keys are deleted. */
  function Sweep(m: SwitchMap, cutoff: int): SwitchMap {
    SwitchMap(Kept(m.order, m.entries, cutoff), Pruned(m.order, m.entries, cutoff))
  }

  /** One more key of the sweep. */
  lemma {:induction false} KeptStep(keys: seq<string>, entries: map<string, SwitchEntry>, cutoff: int, i: nat)
    requires i < |keys|
    ensures Kept(keys[..i + 1], entries, cutoff)
         == Kept(keys[..i], entries, cutoff)
            + (if keys[i] in entries && IsFresh(entries[keys[i]], cutoff) then [keys[i]] else [])
  {
    assert keys[..i + 1][..i] == keys[..i] && keys[..i + 1][i] == keys[i];
  }

  lemma {:induction false} PrunedStep(keys: seq<string>, entries: map<string, SwitchEntry>, cutoff: int, i: nat)
    requires i < |keys|
    ensures Pruned(keys[..i + 1], entries, cutoff)
         == if keys[i] in entries && !IsFresh(entries[keys[i]], cutoff) then Pruned(keys[..i], entries, cutoff) - {keys[i]}
            else Pruned(keys[..i], entries, cutoff)
  {
    assert keys[..i + 1][..i] == keys[..i] && keys[..i + 1][i] == keys[i];
  }

  /** One more key of the sweep's emissions. */
  lemma {:induction false} SweepEmitsStep(keys: seq<string>, entries: map<string, SwitchEntry>, cutoff: int, socket: SocketId, i: nat)
    requires i < |keys| && keys[i] in entries
    ensures SweepEmits(keys[..i + 1], entries, cutoff, socket)
         == SweepEmits(keys[..i], entries, cutoff, socket) + [SweepEmission(keys[i], entries[keys[i]], cutoff, socket)]
  {
    assert keys[..i + 1][..i] == keys[..i] && keys[..i + 1][i] == keys[i];
  }

  lemma {:induction false} RemoveMiddle(a: seq<string>, k: string, b: seq<string>)
    requires k !in a && k !in b
    ensures Remove(a + [k] + b, k) == a + b
  {
    RemoveAppend(a + [k], b, k);
    RemoveAppend(a, [k], k);
    RemoveAbsent(a, k);
    RemoveAbsent(b, k);
    assert [k][1..] == [];
    assert Remove([k], k) == [];
    assert Remove(a + [k], k) == a;
  }

  lemma {:induction false} KeptDistinct(keys: seq<string>, entries: map<string, SwitchEntry>, cutoff: int)
    requires Distinct(keys)
    ensures Distinct(Kept(keys, entries, cutoff))
  {
    if keys != [] {
      var init := keys[..|keys| - 1];
      KeptDistinct(init, entries, cutoff);
      KeptMembers(init, entries, cutoff);
      assert keys[|keys| - 1] !in init;
    }
  }

  /** The key the sweep visits at index `i` is still in the Map, unchanged. */
  lemma {:induction false} SweepVisit(keys: seq<string>, entries: map<string, SwitchEntry>, cutoff: int, i: nat)
    requires WellFormed(SwitchMap(keys, entries)) && i < |keys|
    ensures keys[i] in entries && keys[i] !in keys[..i] && keys[i] !in keys[i + 1..]
    ensures keys[i] in Pruned(keys[..i], entries, cutoff)
    ensures Pruned(keys[..i], entries, cutoff)[keys[i]] == entries[keys[i]]
  {
    assert keys[i] in keys;
    PrunedSpec(keys[..i], entries, cutoff);
  }

  /** Visiting a fresh entry keeps it in its place. */
  lemma {:induction false} SweepKeepStep(keys: seq<string>, entries: map<string, SwitchEntry>, cutoff: int, i: nat)
    requires i < |keys| && keys[i] in entries && IsFresh(entries[keys[i]], cutoff)
    ensures Kept(keys[..i], entries, cutoff) + keys[i..] == Kept(keys[..i + 1], entries, cutoff) + keys[i + 1..]
  {
    KeptStep(keys, entries, cutoff, i);
    var kept := Kept(keys[..i], entries, cutoff);
    assert keys[i..] == [keys[i]] + keys[i + 1..];
    assert kept + keys[i..] == (kept + [keys[i]]) + keys[i + 1..];
  }

  /** Visiting an expired entry deletes it from the order. */
  lemma {:induction false} SweepDropStep(keys: seq<string>, entries: map<string, SwitchEntry>, cutoff: int, i: nat)
    requires i < |keys| && keys[i] in entries && !IsFresh(entries[keys[i]], cutoff)
    requires keys[i] !in keys[..i] && keys[i] !in keys[i + 1..]
    ensures Remove(Kept(keys[..i], entries, cutoff) + keys[i..], keys[i]) == Kept(keys[..i + 1], entries, cutoff) + keys[i + 1..]
  {
    KeptStep(keys, entries, cutoff, i);
    var kept := Kept(keys[..i], entries, cutoff);
    KeptMembers(keys[..i], entries, cutoff);
    assert kept + keys[i..] == kept + [keys[i]] + keys[i + 1..] by {
      assert keys[i..] == [keys[i]] + keys[i + 1..];
    }
    RemoveMiddle(kept, keys[i], keys[i + 1..]);
  }

  /** The loop body's effect on the Map for key `k`: an expired entry is
      deleted, anything else stays. */
  function Visit(m: SwitchMap, k: string, cutoff: int): SwitchMap {
    if k in m.entries && !IsFresh(m.entries[k], cutoff) then MapDelete(m, k) else m
  }

  /** The Map after the loop has visited the first `i` keys of the order
      it started from, one by one. */
  function SweepUpTo(m: SwitchMap, cutoff: int, i: nat): SwitchMap
    requires i <= |m.order|
  {
    if i == 0 then m else Visit(SweepUpTo(m, cutoff, i - 1), m.order[i - 1], cutoff)
  }

  /** The Map while the loop is at index `i` of the order it started from:
      the expired entries before `i` are gone, the rest is untouched. */
  function SweptPrefix(m: SwitchMap, cutoff: int, i: nat): SwitchMap
    requires i <= |m.order|
  {
    SwitchMap(Kept(m.order[..i], m.entries, cutoff) + m.order[i..], Pruned(m.order[..i], m.entries, cutoff))
  }

  /** One visit moves the Map from index `i` to index `i + 1`. */
  lemma {:induction false} SweptPrefixStep(m: SwitchMap, cutoff: int, i: nat)
    requires WellFormed(m) && i < |m.order|
    ensures m.order[i] in SweptPrefix(m, cutoff, i).entries
    ensures SweptPrefix(m, cutoff, i).entries[m.order[i]] == m.entries[m.order[i]]
    ensures Visit(SweptPrefix(m, cutoff, i), m.order[i], cutoff) == SweptPrefix(m, cutoff, i + 1)
  {
    SweepVisit(m.order, m.entries, cutoff, i);
    PrunedStep(m.order, m.entries, cutoff, i);
    if IsFresh(m.entries[m.order[i]], cutoff) {
      SweepKeepStep(m.order, m.entries, cutoff, i);
    } else {
      SweepDropStep(m.order, m.entries, cutoff, i);
    }
  }

  /** After visiting a prefix of the Map's own order, the Map is the swept
      prefix. */
  lemma {:induction false} SweepUpToPrefix(m: SwitchMap, cutoff: int, i: nat)
    requires WellFormed(m) && i <= |m.order|
    ensures SweepUpTo(m, cutoff, i) == SweptPrefix(m, cutoff, i)
  {
    if i == 0 {
      assert m.order[..0] == [] && m.order[0..] == m.order;
    } else {
      SweepUpToPrefix(m, cutoff, i - 1);
      SweptPrefixStep(m, cutoff, i - 1);
    }
  }

  /** Visiting the keys one by one gives the sweep. */
  lemma {:induction false} SweepUpToSpec(m: SwitchMap, cutoff: int)
    requires WellFormed(m)
    ensures SweepUpTo(m, cutoff, |m.order|) == Sweep(m, cutoff)
  {
    SweepUpToPrefix(m, cutoff, |m.order|);
    assert m.order[..|m.order|] == m.order;
  }

  /** Every key the loop reaches is still in the Map with its original entry. */
  lemma {:induction false} SweepUpToVisit(m: SwitchMap, cutoff: int, i: nat)
    requires WellFormed(m) && i < |m.order|
    ensures m.order[i] in SweepUpTo(m, cutoff, i).entries
    ensures SweepUpTo(m, cutoff, i).entries[m.order[i]] == m.entries[m.order[i]]
  {
    SweepUpToPrefix(m, cutoff, i);
    SweptPrefixStep(m, cutoff, i);
  }

  /** The sweep keeps exactly the fresh entries, unchanged and in their
      order, and the Map stays well formed. */
  lemma {:induction false} SweepSpec(m: SwitchMap, cutoff: int)
    requires WellFormed(m)
    ensures WellFormed(Sweep(m, cutoff))
    ensures forall k :: k in Sweep(m, cutoff).entries <==> k in m.entries && IsFresh(m.entries[k], cutoff)
    ensures forall k :: k in Sweep(m, cutoff).entries ==> Sweep(m, cutoff).entries[k] == m.entries[k]
  {
    KeptDistinct(m.order, m.entries, cutoff);
    KeptMembers(m.order, m.entries, cutoff);
    PrunedSpec(m.order, m.entries, cutoff);
  }

  /** The sweep emits one event per key, in Map order: the fresh entries to
      the pulsing socket, a delete of the expired ones to every other socket. */
  lemma {:induction false} SweepEmitsSpec(keys: seq<string>, entries: map<string, SwitchEntry>, cutoff: int, socket: SocketId)
    requires forall k :: k in keys ==> k in entries
    ensures |SweepEmits(keys, entries, cutoff, socket)| == |keys|
    ensures forall i :: 0 <= i < |keys| ==>
      SweepEmits(keys, entries, cutoff, socket)[i] == SweepEmission(keys[i], entries[keys[i]], cutoff, socket)
  {
    if keys != [] {
      var init := keys[..|keys| - 1];
      SweepEmitsSpec(init, entries, cutoff, socket);
    }
  }

  // ---------------------------------------------------------------------------
  // Pulses

  predicate IsInteger(n: real) {
    n.Floor as real == n
  }

  /** A JavaScript value as the `pulse` handler receives it. `JsNonFinite`
      stands for `NaN` and the infinities: of type number, never an integer. */
  datatype JsValue = JsString(s: string) | JsNumber(n: real) | JsNonFinite | JsOther

  /** The guards of the `pulse` handler. */
  predicate ValidPulse(switchIP: JsValue, vpnPort: JsValue)
    ensures ValidPulse(switchIP, vpnPort) ==>
      vpnPort.JsNumber? && 0 < vpnPort.n.Floor < 0x1_0000 && vpnPort.n.Floor as real == vpnPort.n
  {
    && switchIP.JsString? && vpnPort.JsNumber?
    && IsIPv4(switchIP.s)
    && IsInteger(vpnPort.n) && 0.0 < vpnPort.n < 65536.0
  }

  /** Whether the pulse of `ip` from `publicIP` and `port` differs from
      what the Map holds: the condition for announcing it. */
  predicate Changed(m: SwitchMap, ip: string, publicIP: string, port: int) {
    !(ip in m.entries && m.entries[ip].publicIP == publicIP && m.entries[ip].vpnPort == port)
  }

  /** A valid pulse is announced to every socket at most once, and only when
      it changes the switch's endpoint; the Map then holds it. */
  lemma PulseAnnounced(m: SwitchMap, ip: string, publicIP: string, port: int, now: int)
    requires WellFormed(m)
    ensures MapSet(m, ip, SwitchEntry(publicIP, port, now)).entries[ip] == SwitchEntry(publicIP, port, now)
    ensures !Changed(MapSet(m, ip, SwitchEntry(publicIP, port, now)), ip, publicIP, port)
  {
  }

  /** A repeated identical pulse on an initialized connection only moves the
      switch's timestamp: no key, place or endpoint changes and nothing is
      announced. */
  lemma RepeatPulseRefreshesOnly(m: SwitchMap, ip: string, publicIP: string, port: int, now: int, later: int)
    requires WellFormed(m)
    ensures var m1 := MapSet(m, ip, SwitchEntry(publicIP, port, now));
      && !Changed(m1, ip, publicIP, port)
      && MapSet(m1, ip, SwitchEntry(publicIP, port, later))
         == SwitchMap(m1.order, m1.entries[ip := m1.entries[ip].(lastPulse := later)])
  {
  }

  class Connection {
    const id: SocketId
    /** The normalised `publicIP` of the connection. */
    const publicIP: string
    var initialized: bool

    constructor (id: SocketId, publicIP: string)
      ensures this.id == id && this.publicIP == publicIP && !initialized
    {
      this.id := id;
      this.publicIP := publicIP;
      initialized := false;
    }
  }

  class Server {
    var allSwitches: SwitchMap
    var emitted: seq<Emission>

    ghost predicate Valid()
      reads this
    {
      WellFormed(allSwitches)
    }

    constructor ()
      ensures Valid() && allSwitches == EmptyMap && emitted == []
    {
      allSwitches := EmptyMap;
      emitted := [];
    }

    /** The `connection` handler up to its `pulse` subscription: a new
        connection, or `null` where it throws. */
    method Connect(id: SocketId, remoteAddress: string) returns (c: Connection?)
      ensures NormalizePublicIp(remoteAddress).None? <==> c == null
      ensures c != null ==>
        fresh(c) && c.id == id && c.publicIP == NormalizePublicIp(remoteAddress).value && !c.initialized
    {
      var publicIP := remoteAddress;
      if IsMapped(publicIP) {
        publicIP := publicIP[|MappedPrefix|..];
      }
      if !IsIPv4(publicIP) {
        return null;
      }
      c := new Connection(id, publicIP);
    }

    /** The `pulse` handler of connection `c` at time `now`. */
    method Pulse(c: Connection, switchIP: JsValue, vpnPort: JsValue, now: int)
      requires Valid()
      modifies this, c`initialized
      ensures Valid()
      ensures !ValidPulse(switchIP, vpnPort) ==>
        allSwitches == old(allSwitches) && emitted == old(emitted) && c.initialized == old(c.initialized)
      ensures ValidPulse(switchIP, vpnPort) ==>
        var ip, port := switchIP.s, vpnPort.n.Floor;
        var cutoff := now - ExpiryMs;
        var swept := if old(c.initialized) then old(allSwitches) else Sweep(old(allSwitches), cutoff);
        var sweepEmits := if old(c.initialized) then []
                          else SweepEmits(old(allSwitches).order, old(allSwitches).entries, cutoff, c.id);
        && c.initialized
        && allSwitches == MapSet(swept, ip, SwitchEntry(c.publicIP, port, now))
        && emitted == old(emitted) + sweepEmits
             + (if Changed(swept, ip, c.publicIP, port) then [ToAll(SetRemoteAddrEvent(ip, c.publicIP, port))] else [])
    {
      if !switchIP.JsString? || !(vpnPort.JsNumber? || vpnPort.JsNonFinite?) {
        return;
      }
      if !IsIPv4(switchIP.s) {
        return;
      }
      if !vpnPort.JsNumber? || !IsInteger(vpnPort.n) || vpnPort.n <= 0.0 || vpnPort.n >= 65536.0 {
        return;
      }
      var ip, port := switchIP.s, vpnPort.n.Floor;
      var cutoff := now - ExpiryMs;

      if !c.initialized {
        c.initialized := true;
        SweepOnce(c.id, cutoff);
      }

      var shouldBroadcast := true;
      if ip in allSwitches.entries {
        var previous := allSwitches.entries[ip];
        if previous.publicIP == c.publicIP && previous.vpnPort == port {
          shouldBroadcast := false;
        }
      }

      MapSetSpec(allSwitches, ip, SwitchEntry(c.publicIP, port, now));
      allSwitches := MapSet(allSwitches, ip, SwitchEntry(c.publicIP, port, now));
      if shouldBroadcast {
        emitted := emitted + [ToAll(SetRemoteAddrEvent(ip, c.publicIP, port))];
      }
    }

    /** The `for ... of allSwitches` loop of a connection's first pulse:
        announce every fresh entry to the socket, delete every expired one
        and tell the other sockets. Deleting the entry being visited does
        not disturb a JavaScript Map iteration, so iterating over the keys
        as they were gives the same visits. */
    method SweepOnce(socket: SocketId, cutoff: int)
      requires Valid()
      modifies this
      ensures Valid()
      ensures allSwitches == Sweep(old(allSwitches), cutoff)
      ensures emitted == old(emitted) + SweepEmits(old(allSwitches).order, old(allSwitches).entries, cutoff, socket)
    {
      var keys := allSwitches.order;
      ghost var start := allSwitches;
      var i := 0;
      while i < |keys|
        invariant 0 <= i <= |keys|
        invariant allSwitches == SweepUpTo(start, cutoff, i)
        invariant emitted == old(emitted) + SweepEmits(keys[..i], start.entries, cutoff, socket)
      {
        var k := keys[i];
        SweepUpToVisit(start, cutoff, i);
        SweepEmitsStep(keys, start.entries, cutoff, socket, i);
        var e := allSwitches.entries[k];
        if IsFresh(e, cutoff) {
          emitted := emitted + [ToSocket(socket, SetRemoteAddrEvent(k, e.publicIP, e.vpnPort))];
        } else {
          allSwitches := MapDelete(allSwitches, k);
          emitted := emitted + [ToOthers(socket, DeleteRemoteAddrEvent(k))];
        }
        i := i + 1;
      }
      assert keys[..i] == keys;
      SweepUpToSpec(start, cutoff);
      SweepSpec(start, cutoff);
    }
  }
}
