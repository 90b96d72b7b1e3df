/**
 * The outbound-address guess shown to the operator and sent in `system_info`:
 * a walk over the network interfaces that prefers a 192.168/16 address, then the
 * other private ranges of section 3 of RFC 1918 (10/8, 172.16/12), then any usable IPv4
 * address, skipping down, loopback and virtual interfaces as well as loopback and
 * link-local (section 2.1 of RFC 3927) addresses.
 */
module LocalIP {
  import opened Wrappers
  import opened Strs
  import opened Protocol
  import Seqs

  /** One address of an interface: an IP network (4 or 16 address bytes) or some other kind of net.Addr. */
  datatype Addr = IPNet(ip: seq<byte>) | OtherAddr

  /** An interface as listed by the OS; `addrs` is None when listing its addresses failed. */
  datatype Interface = Interface(name: string, up: bool, loopback: bool, addrs: Option<seq<Addr>>)

  type IPv4 = s: seq<byte> | |s| == 4 witness [0, 0, 0, 0]

  /** net.IP.To4: a 4-byte address, or the IPv4 address mapped into an IPv6 one (::ffff:a.b.c.d). */
  function To4(ip: seq<byte>): Option<IPv4>
  {
    if |ip| == 4 then Some(ip)
    else if |ip| == 16 && (forall k :: 0 <= k < 10 ==> ip[k] == 0) && ip[10] == 255 && ip[11] == 255
    then Some(ip[12..16])
    else None
  }

  predicate IsLoopback(ip: IPv4) { ip[0] == 127 }

  predicate IsLinkLocal(ip: IPv4) { ip[0] == 169 && ip[1] == 254 }

  predicate IsHomeNet(ip: IPv4) { ip[0] == 192 && ip[1] == 168 }

  predicate IsOtherPrivate(ip: IPv4) { ip[0] == 10 || (ip[0] == 172 && 16 <= ip[1] <= 31) }

  /** The dotted-quad text of an address. */
  function IPString(ip: IPv4): string
  {
    NatToString(ip[0]) + "." + NatToString(ip[1]) + "." + NatToString(ip[2]) + "." + NatToString(ip[3])
  }

  /** Adapter-name fragments that mark a virtual interface, matched case-insensitively. */
  predicate IsVirtualName(name: string)
  {
    var n := ToLower(name);
    Contains(n, "virtual") || Contains(n, "vmware") || Contains(n, "vbox")
    || Contains(n, "docker") || Contains(n, "vethernet") || Contains(n, "hyper-v")
  }

  predicate UsableInterface(iface: Interface)
  {
    iface.up && !iface.loopback && !IsVirtualName(iface.name) && iface.addrs.Some?
  }

  /** The IPv4 address an entry contributes, if it is neither loopback nor link-local. */
  function UsableAddr(a: Addr): Option<IPv4>
  {
    if !a.IPNet? then None
    else match To4(a.ip)
      case None => None
      case Some(ip) => if IsLoopback(ip) || IsLinkLocal(ip) then None else Some(ip)
  }

  /** The candidates one address entry contributes: none or one. */
  function AddrCandidates(a: Addr): seq<IPv4>
  {
    match UsableAddr(a)
    case Some(ip) => [ip]
    case None => []
  }

  function UsableAddrs(addrs: seq<Addr>): seq<IPv4>
  {
    if addrs == [] then []
    else AddrCandidates(addrs[0]) + UsableAddrs(addrs[1..])
  }

  function InterfaceAddrs(iface: Interface): seq<IPv4>
  {
    if UsableInterface(iface) then UsableAddrs(iface.addrs.value) else []
  }

  /** Every usable address, interface by interface, in listing order. */
  function Candidates(ifaces: seq<Interface>): seq<IPv4>
  {
    if ifaces == [] then []
    else InterfaceAddrs(ifaces[0]) + Candidates(ifaces[1..])
  }

  function HomeNets(ips: seq<IPv4>): seq<IPv4>
  {
    if ips == [] then []
    else (if IsHomeNet(ips[0]) then [ips[0]] else []) + HomeNets(ips[1..])
  }

  function OtherPrivates(ips: seq<IPv4>): seq<IPv4>
  {
    if ips == [] then []
    else (if IsOtherPrivate(ips[0]) then [ips[0]] else []) + OtherPrivates(ips[1..])
  }

  /** The address the walk settles on, given the usable candidates in order. */
  function Choose(cands: seq<IPv4>): string
  {
    if HomeNets(cands) != [] then IPString(HomeNets(cands)[0])
    else if OtherPrivates(cands) != [] then IPString(OtherPrivates(cands)[0])
    else if cands != [] then IPString(cands[0])
    else "unknown"
  }

  /** What getLocalIP answers for an interface listing (None when listing the interfaces failed). */
  function SelectedIP(ifaces: Option<seq<Interface>>): string
  {
    match ifaces
    case None => "unknown"
    case Some(list) => Choose(Candidates(list))
  }

  lemma {:induction false} HomeNetsAppend(a: seq<IPv4>, b: seq<IPv4>)
    ensures HomeNets(a + b) == HomeNets(a) + HomeNets(b)
  {
    if a == [] {
      assert a + b == b;
    } else {
      Seqs.TailOfConcat(a, b);
      assert (a + b)[0] == a[0];
      HomeNetsAppend(a[1..], b);
      Seqs.AppendAssoc((if IsHomeNet(a[0]) then [a[0]] else []), HomeNets(a[1..]), HomeNets(b));
    }
  }

  lemma {:induction false} OtherPrivatesAppend(a: seq<IPv4>, b: seq<IPv4>)
    ensures OtherPrivates(a + b) == OtherPrivates(a) + OtherPrivates(b)
  {
    if a == [] {
      assert a + b == b;
    } else {
      Seqs.TailOfConcat(a, b);
      assert (a + b)[0] == a[0];
      OtherPrivatesAppend(a[1..], b);
      Seqs.AppendAssoc((if IsOtherPrivate(a[0]) then [a[0]] else []), OtherPrivates(a[1..]), OtherPrivates(b));
    }
  }

  /** One more candidate: the two preference lists grow by it exactly when it belongs to them. */
  lemma AppendOne(seen: seq<IPv4>, ip: IPv4)
    ensures HomeNets(seen + [ip]) == HomeNets(seen) + (if IsHomeNet(ip) then [ip] else [])
    ensures OtherPrivates(seen + [ip]) == OtherPrivates(seen) + (if IsOtherPrivate(ip) then [ip] else [])
  {
    HomeNetsAppend(seen, [ip]);
    OtherPrivatesAppend(seen, [ip]);
    assert HomeNets([ip]) == (if IsHomeNet(ip) then [ip] else []) + HomeNets([]);
    assert OtherPrivates([ip]) == (if IsOtherPrivate(ip) then [ip] else []) + OtherPrivates([]);
  }

  /**
   * What the walk has recorded after seeing the candidates `seen` (none of them 192.168):
   * the 10/8 and 172.16/12 addresses in order (only the first matters) and the first candidate.
   */
  predicate Tracked(seen: seq<IPv4>, candidateIPs: seq<string>, fallbackIP: string)
  {
    && (|candidateIPs| == 0 <==> OtherPrivates(seen) == [])
    && (|candidateIPs| > 0 ==> candidateIPs[0] == IPString(OtherPrivates(seen)[0]))
    && fallbackIP == (if seen == [] then "" else IPString(seen[0]))
  }

  /**
   * getLocalIP: walks the interfaces and their addresses, returns the first 192.168 address
   * at once, otherwise the first 10/8 or 172.16/12 address, otherwise the first usable one.
   */
  method GetLocalIP(ifaces: Option<seq<Interface>>) returns (r: string)
    ensures r == SelectedIP(ifaces)
  {
    if ifaces.None? {
      return "unknown";
    }
    var list := ifaces.value;
    var fallbackIP: string := "";
    var candidateIPs: seq<string> := [];
    var i := 0;
    while i < |list|
      invariant 0 <= i <= |list|
      invariant HomeNets(Candidates(list[..i])) == []
      invariant Tracked(Candidates(list[..i]), candidateIPs, fallbackIP)
    {
      var iface := list[i];
      CandidatesStep(list, i);
      if !iface.up || iface.loopback || IsVirtualName(iface.name) || iface.addrs.None? {
        assert InterfaceAddrs(iface) == [];
        assert Candidates(list[..i + 1]) == Candidates(list[..i]) + [] == Candidates(list[..i]);
        i := i + 1;
        continue;
      }
      assert InterfaceAddrs(iface) == UsableAddrs(iface.addrs.value);
      var home;
      home, candidateIPs, fallbackIP := ScanAddrs(iface.addrs.value, Candidates(list[..i]), candidateIPs, fallbackIP);
      assert Candidates(list[..i + 1]) == Candidates(list[..i]) + UsableAddrs(iface.addrs.value);
      if home.Some? {
        CandidatesSplitAt(list, i + 1);
        HomeNetsFirst(Candidates(list[..i + 1]), Candidates(list[i + 1..]));
        return home.value;
      }
      i := i + 1;
    }
    assert list[..i] == list;
    if |candidateIPs| > 0 {
      return candidateIPs[0];
    }
    if fallbackIP != "" {
      return fallbackIP;
    }
    return "unknown";
  }

  /**
   * The address loop of getLocalIP for one usable interface: `home` is the 192.168 address
   * that ends the walk, if this interface has one.
   */
  method ScanAddrs(addrs: seq<Addr>, ghost seenBefore: seq<IPv4>, candidateIPs0: seq<string>, fallbackIP0: string)
    returns (home: Option<string>, candidateIPs: seq<string>, fallbackIP: string)
    requires HomeNets(seenBefore) == [] && Tracked(seenBefore, candidateIPs0, fallbackIP0)
    ensures home.None? ==> (
      && HomeNets(seenBefore + UsableAddrs(addrs)) == []
      && Tracked(seenBefore + UsableAddrs(addrs), candidateIPs, fallbackIP))
    ensures home.Some? ==> (
      && HomeNets(seenBefore + UsableAddrs(addrs)) != []
      && home.value == IPString(HomeNets(seenBefore + UsableAddrs(addrs))[0]))
  {
    candidateIPs, fallbackIP := candidateIPs0, fallbackIP0;
    ghost var seen := seenBefore;
    var j := 0;
    assert addrs[..0] == [] && seenBefore + [] == seenBefore;
    while j < |addrs|
      invariant 0 <= j <= |addrs|
      invariant seen == seenBefore + UsableAddrs(addrs[..j])
      invariant HomeNets(seen) == []
      invariant Tracked(seen, candidateIPs, fallbackIP)
    {
      SeenStep(seenBefore, addrs, j);
      var found;
      found, candidateIPs, fallbackIP := VisitAddr(addrs[j], seen, candidateIPs, fallbackIP);
      if found.Some? {
        // the first 192.168 address wins whatever follows
        HomeFound(seenBefore, addrs, j, found.value);
        return Some(IPString(found.value)), candidateIPs, fallbackIP;
      }
      seen := seen + AddrCandidates(addrs[j]);
      j := j + 1;
    }
    assert addrs[..j] == addrs;
    return None, candidateIPs, fallbackIP;
  }

  /**
   * One address entry of the address loop: `found` is a 192.168 address, which ends the walk;
   * otherwise the entry's candidate, if any, is recorded.
   */
  method VisitAddr(addr: Addr, ghost seen: seq<IPv4>, candidateIPs0: seq<string>, fallbackIP0: string)
    returns (found: Option<IPv4>, candidateIPs: seq<string>, fallbackIP: string)
    requires HomeNets(seen) == [] && Tracked(seen, candidateIPs0, fallbackIP0)
    ensures found.Some? ==> UsableAddr(addr) == found && IsHomeNet(found.value)
    ensures found.None? ==> (
      && HomeNets(seen + AddrCandidates(addr)) == []
      && Tracked(seen + AddrCandidates(addr), candidateIPs, fallbackIP))
  {
    candidateIPs, fallbackIP := candidateIPs0, fallbackIP0;
    var usable := UsableAddr(addr);
    if usable.None? {
      assert seen + AddrCandidates(addr) == seen;
      return None, candidateIPs, fallbackIP;
    }
    var ip := usable.value;
    if ip[0] == 192 && ip[1] == 168 {
      return Some(ip), candidateIPs, fallbackIP;
    }
    AppendOne(seen, ip);
    if ip[0] == 10 {
      candidateIPs := candidateIPs + [IPString(ip)];
    }
    if ip[0] == 172 && ip[1] >= 16 && ip[1] <= 31 {
      candidateIPs := candidateIPs + [IPString(ip)];
    }
    if fallbackIP == "" {
      fallbackIP := IPString(ip);
    }
    found := None;
  }

  /** One more address entry: the walk's candidates grow by what it contributes. */
  lemma SeenStep(seenBefore: seq<IPv4>, addrs: seq<Addr>, j: nat)
    requires j < |addrs|
    ensures seenBefore + UsableAddrs(addrs[..j + 1]) == seenBefore + UsableAddrs(addrs[..j]) + AddrCandidates(addrs[j])
  {
    UsableAddrsStep(addrs, j);
    Regroup(seenBefore, UsableAddrs(addrs[..j]), AddrCandidates(addrs[j]), []);
  }

  /** The address loop stops at its first 192.168 address, which is the first of the whole walk so far. */
  lemma HomeFound(seenBefore: seq<IPv4>, addrs: seq<Addr>, j: nat, ip: IPv4)
    requires j < |addrs| && UsableAddr(addrs[j]) == Some(ip) && IsHomeNet(ip)
    requires HomeNets(seenBefore + UsableAddrs(addrs[..j])) == []
    ensures HomeNets(seenBefore + UsableAddrs(addrs)) != []
    ensures IPString(HomeNets(seenBefore + UsableAddrs(addrs))[0]) == IPString(ip)
  {
    var seen := seenBefore + UsableAddrs(addrs[..j]);
    UsableAddrsStep(addrs, j);
    assert AddrCandidates(addrs[j]) == [ip];
    AppendOne(seen, ip);
    Regroup(seenBefore, UsableAddrs(addrs[..j]), [ip], []);
    UsableAddrsSplit(addrs, j + 1);
    Regroup(seenBefore, UsableAddrs(addrs[..j + 1]), UsableAddrs(addrs[j + 1..]), []);
    HomeNetsFirst(seen + [ip], UsableAddrs(addrs[j + 1..]));
  }

  /** A 192.168 candidate early in the list is the first one of any extension. */
  lemma HomeNetsFirst(a: seq<IPv4>, b: seq<IPv4>)
    requires HomeNets(a) != []
    ensures HomeNets(a + b) != [] && HomeNets(a + b)[0] == HomeNets(a)[0]
  {
    HomeNetsAppend(a, b);
  }

  lemma CandidatesStep(list: seq<Interface>, i: nat)
    requires i < |list|
    ensures Candidates(list[..i + 1]) == Candidates(list[..i]) + InterfaceAddrs(list[i])
  {
    assert list[..i + 1] == list[..i] + [list[i]];
    CandidatesAppend(list[..i], [list[i]]);
    assert Candidates([list[i]]) == InterfaceAddrs(list[i]) + Candidates([]);
  }

  lemma UsableAddrsStep(addrs: seq<Addr>, j: nat)
    requires j < |addrs|
    ensures UsableAddrs(addrs[..j + 1]) == UsableAddrs(addrs[..j]) + AddrCandidates(addrs[j])
  {
    assert addrs[..j + 1] == addrs[..j] + [addrs[j]];
    UsableAddrsAppend(addrs[..j], [addrs[j]]);
    assert UsableAddrs([addrs[j]]) == AddrCandidates(addrs[j]) + UsableAddrs([]);
  }

  lemma Regroup<T>(a: seq<T>, b: seq<T>, c: seq<T>, d: seq<T>)
    ensures a + (b + c) + d == (a + b) + (c + d)
    ensures a + b + c == a + (b + c)
  {
  }

  lemma CandidatesSplitAt(list: seq<Interface>, k: nat)
    requires k <= |list|
    ensures Candidates(list) == Candidates(list[..k]) + Candidates(list[k..])
  {
    Seqs.TakeDrop(list, k);
    CandidatesAppend(list[..k], list[k..]);
  }

  lemma UsableAddrsSplit(addrs: seq<Addr>, k: nat)
    requires k <= |addrs|
    ensures UsableAddrs(addrs) == UsableAddrs(addrs[..k]) + UsableAddrs(addrs[k..])
  {
    Seqs.TakeDrop(addrs, k);
    UsableAddrsAppend(addrs[..k], addrs[k..]);
  }

  lemma {:induction false} UsableAddrsAppend(a: seq<Addr>, b: seq<Addr>)
    ensures UsableAddrs(a + b) == UsableAddrs(a) + UsableAddrs(b)
  {
    if a == [] {
      assert a + b == b;
    } else {
      Seqs.TailOfConcat(a, b);
      assert (a + b)[0] == a[0];
      UsableAddrsAppend(a[1..], b);
      Seqs.AppendAssoc(AddrCandidates(a[0]), UsableAddrs(a[1..]), UsableAddrs(b));
    }
  }

  lemma {:induction false} CandidatesAppend(a: seq<Interface>, b: seq<Interface>)
    ensures Candidates(a + b) == Candidates(a) + Candidates(b)
  {
    if a == [] {
      assert a + b == b;
    } else {
      Seqs.TailOfConcat(a, b);
      assert (a + b)[0] == a[0];
      CandidatesAppend(a[1..], b);
      Seqs.AppendAssoc(InterfaceAddrs(a[0]), Candidates(a[1..]), Candidates(b));
    }
  }

  /** A dotted quad starts with a digit, so it is never the "unknown" marker. */
  lemma IPStringNotUnknown(ip: IPv4)
    ensures IPString(ip) != "unknown"
  {
    assert IsDigit(IPString(ip)[0]);
  }

  /** HomeNets keeps exactly the 192.168 candidates, and its head is the first of them. */
  lemma {:induction false} HomeNetsFirstMatch(ips: seq<IPv4>)
    ensures HomeNets(ips) == [] <==> forall k :: 0 <= k < |ips| ==> !IsHomeNet(ips[k])
    ensures HomeNets(ips) != [] ==> exists k :: (
      && 0 <= k < |ips| && IsHomeNet(ips[k]) && HomeNets(ips)[0] == ips[k]
      && forall m :: 0 <= m < k ==> !IsHomeNet(ips[m]))
  {
    if ips != [] {
      HomeNetsFirstMatch(ips[1..]);
      if !IsHomeNet(ips[0]) && HomeNets(ips[1..]) != [] {
        var k :| (
          && 0 <= k < |ips[1..]| && IsHomeNet(ips[1..][k]) && HomeNets(ips[1..])[0] == ips[1..][k]
          && forall m :: 0 <= m < k ==> !IsHomeNet(ips[1..][m]));
        assert IsHomeNet(ips[k + 1]) && forall m :: 0 <= m < k + 1 ==> !IsHomeNet(ips[m]);
      }
      if !IsHomeNet(ips[0]) && HomeNets(ips[1..]) == [] {
        assert forall k :: 1 <= k < |ips| ==> ips[k] == ips[1..][k - 1];
      }
    }
  }

  /** OtherPrivates keeps exactly the 10/8 and 172.16/12 candidates, and its head is the first of them. */
  lemma {:induction false} OtherPrivatesFirstMatch(ips: seq<IPv4>)
    ensures OtherPrivates(ips) == [] <==> forall k :: 0 <= k < |ips| ==> !IsOtherPrivate(ips[k])
    ensures OtherPrivates(ips) != [] ==> exists k :: (
      && 0 <= k < |ips| && IsOtherPrivate(ips[k]) && OtherPrivates(ips)[0] == ips[k]
      && forall m :: 0 <= m < k ==> !IsOtherPrivate(ips[m]))
  {
    if ips != [] {
      OtherPrivatesFirstMatch(ips[1..]);
      if !IsOtherPrivate(ips[0]) && OtherPrivates(ips[1..]) != [] {
        var k :| (
          && 0 <= k < |ips[1..]| && IsOtherPrivate(ips[1..][k]) && OtherPrivates(ips[1..])[0] == ips[1..][k]
          && forall m :: 0 <= m < k ==> !IsOtherPrivate(ips[1..][m]));
        assert IsOtherPrivate(ips[k + 1]) && forall m :: 0 <= m < k + 1 ==> !IsOtherPrivate(ips[m]);
      }
      if !IsOtherPrivate(ips[0]) && OtherPrivates(ips[1..]) == [] {
        assert forall k :: 1 <= k < |ips| ==> ips[k] == ips[1..][k - 1];
      }
    }
  }

  /** getLocalIP answers "unknown" exactly when no usable address exists. */
  lemma SelectedUnknownIff(list: seq<Interface>)
    ensures SelectedIP(Some(list)) == "unknown" <==> Candidates(list) == []
  {
    var c := Candidates(list);
    if HomeNets(c) != [] {
      IPStringNotUnknown(HomeNets(c)[0]);
    } else if OtherPrivates(c) != [] {
      IPStringNotUnknown(OtherPrivates(c)[0]);
    } else if c != [] {
      IPStringNotUnknown(c[0]);
    }
  }

  /** With a 192.168 address anywhere, the first one in interface and address order is chosen. */
  lemma SelectedHomeFirst(list: seq<Interface>)
    requires exists k :: 0 <= k < |Candidates(list)| && IsHomeNet(Candidates(list)[k])
    ensures exists k :: (
      && 0 <= k < |Candidates(list)| && IsHomeNet(Candidates(list)[k])
      && SelectedIP(Some(list)) == IPString(Candidates(list)[k])
      && forall m :: 0 <= m < k ==> !IsHomeNet(Candidates(list)[m]))
  {
    HomeNetsFirstMatch(Candidates(list));
  }

  /** Without one, the first 10/8 or 172.16/12 address is chosen. */
  lemma SelectedPrivateFirst(list: seq<Interface>)
    requires forall k :: 0 <= k < |Candidates(list)| ==> !IsHomeNet(Candidates(list)[k])
    requires exists k :: 0 <= k < |Candidates(list)| && IsOtherPrivate(Candidates(list)[k])
    ensures exists k :: (
      && 0 <= k < |Candidates(list)| && IsOtherPrivate(Candidates(list)[k])
      && SelectedIP(Some(list)) == IPString(Candidates(list)[k])
      && forall m :: 0 <= m < k ==> !IsOtherPrivate(Candidates(list)[m]))
  {
    HomeNetsFirstMatch(Candidates(list));
    OtherPrivatesFirstMatch(Candidates(list));
  }

  /** Without either, the first usable address is chosen. */
  lemma SelectedFallback(list: seq<Interface>)
    requires forall k :: 0 <= k < |Candidates(list)| ==> !IsHomeNet(Candidates(list)[k]) && !IsOtherPrivate(Candidates(list)[k])
    requires Candidates(list) != []
    ensures SelectedIP(Some(list)) == IPString(Candidates(list)[0])
  {
    HomeNetsFirstMatch(Candidates(list));
    OtherPrivatesFirstMatch(Candidates(list));
  }

  /** Every candidate is a usable IPv4 address of an interface that is up, not loopback and not virtual. */
  lemma {:induction false} CandidatesAreUsable(list: seq<Interface>)
    ensures forall ip :: ip in Candidates(list) ==> (
      && !IsLoopback(ip) && !IsLinkLocal(ip)
      && exists i :: 0 <= i < |list| && UsableInterface(list[i]) && ip in UsableAddrs(list[i].addrs.value))
  {
    if list != [] {
      CandidatesAreUsable(list[1..]);
      UsableAddrsAreUsable(InterfaceAddrsOf(list[0]));
      forall ip | ip in Candidates(list)
        ensures exists i :: 0 <= i < |list| && UsableInterface(list[i]) && ip in UsableAddrs(list[i].addrs.value)
      {
        if ip in InterfaceAddrs(list[0]) {
          assert UsableInterface(list[0]) && ip in UsableAddrs(list[0].addrs.value);
        } else {
          assert ip in Candidates(list[1..]);
          var i :| 0 <= i < |list[1..]| && UsableInterface(list[1..][i]) && ip in UsableAddrs(list[1..][i].addrs.value);
          assert list[i + 1] == list[1..][i];
        }
      }
    }
  }

  function InterfaceAddrsOf(iface: Interface): seq<Addr>
  {
    if iface.addrs.Some? then iface.addrs.value else []
  }

  /** An address that survives UsableAddrs is IPv4, not loopback and not link-local. */
  lemma {:induction false} UsableAddrsAreUsable(addrs: seq<Addr>)
    ensures forall ip :: ip in UsableAddrs(addrs) ==> (
      && !IsLoopback(ip) && !IsLinkLocal(ip)
      && exists a :: a in addrs && UsableAddr(a) == Some(ip))
  {
    if addrs != [] {
      UsableAddrsAreUsable(addrs[1..]);
      forall ip | ip in UsableAddrs(addrs)
        ensures exists a :: a in addrs && UsableAddr(a) == Some(ip)
      {
        if ip in AddrCandidates(addrs[0]) {
          assert UsableAddr(addrs[0]) == Some(ip);
        } else {
          var a :| a in addrs[1..] && UsableAddr(a) == Some(ip);
          assert a in addrs;
        }
      }
    }
  }

  /**
   * The virtual-adapter test ignores case and position: any name with "Docker" in it
   * (for instance "vEthernet (Docker)") marks the interface as virtual.
   */
  lemma DockerNamedIsVirtual(before: string, after: string)
    ensures IsVirtualName(before + "Docker" + after)
    ensures !UsableInterface(Interface(before + "Docker" + after, true, false, Some([])))
  {
    ToLowerConcat(before + "Docker", after);
    ToLowerConcat(before, "Docker");
    assert ToLower("Docker") == "docker";
    assert Contains("docker", "docker") by { assert OccursAt("docker", "docker", 0); }
    ContainsInMiddle(ToLower(before), "docker", ToLower(after), "docker");
  }
}
