/** The two DNS names of a compute node, as `get_pending_node_dns_domains` of bin/resize.py
    computes them, and the address index they share with Terraform (locals.tf).
    An IPv4 address is its 32-bit number. */
module NodeDns {
  import opened Wrappers

  function Pow2(n: nat): (p: nat)
    ensures p > 0
  {
    if n == 0 then 1 else 2 * Pow2(n - 1)
  }

  /** An IPv4 network without host bits, the only kind `ip_network` accepts. */
  datatype Subnet = Subnet(network: nat, prefix: nat) {
    function Size(): (n: nat)
      requires prefix <= 32
      ensures n > 0
    {
      Pow2(32 - prefix)
    }

    ghost predicate Valid() {
      && prefix <= 32
      && network + Size() <= 0x1_0000_0000
      && network % Size() == 0
    }

    /** `list(private_subnet_cidr.hosts())`: /31 keeps both addresses and /32 its only one. */
    function Hosts(): (hosts: seq<nat>)
      requires prefix <= 32
    {
      if prefix == 32 then [network]
      else if prefix == 31 then [network, network + 1]
      else
        assert Size() >= 4 by { assert Pow2(32 - prefix) == 4 * Pow2(30 - prefix); }
        seq(Size() - 2, i requires 0 <= i => network + 1 + i)
    }

    /** The position `hosts.index(ip)` finds; None for its ValueError. */
    function HostPosition(ip: nat): (position: Option<nat>)
      requires prefix <= 32
      ensures position.Some? <==> ip in Hosts()
      ensures position.Some? ==> position.value < |Hosts()| && Hosts()[position.value] == ip
    {
      var first := if prefix >= 31 then network else network + 1;
      assert prefix < 31 && ip >= first && ip - first < |Hosts()| ==> Hosts()[ip - first] == ip;
      if ip >= first && ip - first < |Hosts()| then Some(ip - first) else None
    }

    function HostIndex(ip: nat): Option<nat>
      requires prefix <= 32
    {
      match HostPosition(ip)
      case None => None
      case Some(position) => Some(position + 2)
    }
  }

  /** Octet 0 is the most significant one, as in `split(".", ip)`. */
  function Octet(ip: nat, i: nat): nat
    requires i < 4
  {
    if i == 0 then ip / 0x100_0000
    else if i == 1 then ip / 0x1_0000 % 256
    else if i == 2 then ip / 256 % 256
    else ip % 256
  }

  /** `cluster_instances_ips_index` of locals.tf; `first` is `cidrhost(cidr_block, 0)`. */
  function TerraformIndex(ip: nat, first: nat): int {
    (Octet(ip, 3) - Octet(first, 3)) + 256 * (Octet(ip, 2) - Octet(first, 2)) + 1
  }

  lemma {:induction false} IndexIsInjective(s: Subnet, a: nat, b: nat)
    requires s.Valid() && a in s.Hosts() && b in s.Hosts()
    ensures s.HostIndex(a) == s.HostIndex(b) <==> a == b
  {
    assert s.HostPosition(a).Some? && s.HostPosition(b).Some?;
  }

  lemma {:induction false} PowSplit(n: nat)
    requires n <= 16
    ensures Pow2(n) * Pow2(16 - n) == 0x1_0000
  {
    if n == 0 {
      assert Pow2(4) == 16;
      assert Pow2(8) == 256;
      assert Pow2(12) == 4096;
    } else {
      PowSplit(n - 1);
      var p, t := Pow2(n - 1), Pow2(16 - n);
      assert Pow2(n - 1) * Pow2(17 - n) == p * (2 * t);
      assert p * (2 * t) == (2 * p) * t;
    }
  }

  lemma Scale(p: nat, a: nat, b: nat)
    requires a <= b
    ensures p * a <= p * b
  {}

  lemma Regroup(p: nat, t: nat, q: nat, r: nat)
    ensures p * (t * q + r) == (p * t) * q + p * r
  {}

  lemma Block(p: nat, t: nat, network: nat, q: nat, r: nat, offset: nat)
    requires p * t == 0x1_0000 && network == p * (t * q + r) && r < t && offset < p
    ensures (network + offset) / 0x1_0000 == q && network / 0x1_0000 == q
  {
    Regroup(p, t, q, r);
    Scale(p, r + 1, t);
    var low := p * r;
    assert low + p <= 0x1_0000;
    assert network == 0x1_0000 * q + low;
  }

  function Quotient(x: nat, d: nat): (q: nat)
    requires d > 0
    ensures x % d < d && x == d * q + x % d
  {
    x / d
  }

  lemma AlignedBlockOf(p: nat, t: nat, network: nat, offset: nat)
    requires p > 0 && t > 0 && p * t == 0x1_0000 && network % p == 0 && offset < p
    ensures (network + offset) / 0x1_0000 == network / 0x1_0000
  {
    var m := Quotient(network, p);
    var q := Quotient(m, t);
    Block(p, t, network, q, m % t, offset);
  }

  /** An aligned block of at most 2^16 addresses never crosses a 2^16 boundary. */
  lemma AlignedBlock(n: nat, network: nat, offset: nat)
    requires n <= 16 && network % Pow2(n) == 0 && offset < Pow2(n)
    ensures (network + offset) / 0x1_0000 == network / 0x1_0000
  {
    PowSplit(n);
    AlignedBlockOf(Pow2(n), Pow2(16 - n), network, offset);
  }

  /** Python and Terraform give a host the same number exactly when the subnet has a network and a
      broadcast address and the host shares its upper 16 bits with the network address. */
  lemma TerraformAgrees(s: Subnet, ip: nat)
    requires s.Valid() && ip in s.Hosts()
    ensures s.HostIndex(ip) == Some(TerraformIndex(ip, s.network))
       <==> s.prefix <= 30 && ip / 0x1_0000 == s.network / 0x1_0000
  {
    Spread(ip, s.network);
    assert s.HostPosition(ip).Some?;
    assert s.prefix <= 30 ==> s.HostIndex(ip) == Some(ip - s.network + 1);
    assert s.prefix >= 31 ==> s.HostIndex(ip) == Some(ip - s.network + 2);
    if s.prefix >= 31 {
      assert ip - s.network <= 1;
    }
  }

  lemma Spread(ip: nat, first: nat)
    ensures TerraformIndex(ip, first) == ip - first + 1 - 0x1_0000 * (ip / 0x1_0000 - first / 0x1_0000)
  {
    LowBits(ip);
    LowBits(first);
  }

  lemma LowBits(ip: nat)
    ensures Octet(ip, 3) + 256 * Octet(ip, 2) == ip - 0x1_0000 * (ip / 0x1_0000)
  {
    var q := ip / 256;
    assert q / 256 == ip / 0x1_0000;
  }

  /** In particular they agree on every host of a /16 to /30 subnet. */
  lemma TerraformAgreesFrom16To30(s: Subnet, ip: nat)
    requires s.Valid() && 16 <= s.prefix <= 30 && ip in s.Hosts()
    ensures s.HostIndex(ip) == Some(TerraformIndex(ip, s.network))
  {
    TerraformAgrees(s, ip);
    AlignedBlock(32 - s.prefix, s.network, ip - s.network);
  }

  /** Where they do not: 10.0.0.0 in 10.0.0.0/31 is 2 for Python and 1 for Terraform, and 10.1.0.1 in 10.0.0.0/15
      is 65538 and 2. */
  lemma NumberedTwice()
    ensures var s, ip := Subnet(0x0A00_0000, 31), 0x0A00_0000;
      && s.Valid() && ip in s.Hosts()
      && s.HostIndex(ip) == Some(2) && TerraformIndex(ip, s.network) == 1
    ensures var s, ip := Subnet(0x0A00_0000, 15), 0x0A01_0001;
      && s.Valid() && ip in s.Hosts()
      && s.HostIndex(ip) == Some(65538) && TerraformIndex(ip, s.network) == 2
  {
    assert Pow2(1) == 2;
    PowSplit(16);
    assert Pow2(17) == 0x2_0000;
    var small, wide := Subnet(0x0A00_0000, 31), Subnet(0x0A00_0000, 15);
    assert small.HostPosition(0x0A00_0000).Some? && wide.HostPosition(0x0A01_0001).Some?;
    Spread(0x0A00_0000, small.network);
    Spread(0x0A01_0001, wide.network);
    assert 0x0A00_0000 / 0x1_0000 == 0x0A00 && 0x0A01_0001 / 0x1_0000 == 0x0A01;
  }

  // ---- names -------------------------------------------------------------------------------

  function Digit(d: nat): char
    requires d < 10
  {
    '0' + d as char
  }

  /** `str(n)` */
  function Decimal(n: nat): (s: string)
    ensures s != []
  {
    if n < 10 then [Digit(n)] else Decimal(n / 10) + [Digit(n % 10)]
  }

  function DecimalValue(s: string): int {
    if s == [] then 0 else 10 * DecimalValue(s[..|s| - 1]) + (s[|s| - 1] as int - '0' as int)
  }

  lemma {:induction false} DecimalRoundTrip(n: nat)
    ensures DecimalValue(Decimal(n)) == n
  {
    if n >= 10 {
      DecimalRoundTrip(n / 10);
      assert Decimal(n)[..|Decimal(n)| - 1] == Decimal(n / 10);
    } else {
      assert Decimal(n)[..0] == [];
    }
  }

  /** The inventory variables the names depend on. */
  datatype Naming = Naming(zone: string, queue: Option<string>, instanceType: string, subnet: Option<Subnet>) {
    ghost predicate Valid() {
      subnet.Some? ==> subnet.value.Valid()
    }

    function HostDomain(displayName: string): string {
      displayName + "." + zone
    }

    function SlurmName(index: nat): string
      requires queue.Some?
    {
      queue.value + "-" + instanceType + "-" + Decimal(index)
    }

    function SlurmDomain(index: nat): string
      requires queue.Some?
    {
      SlurmName(index) + "." + zone
    }

    /** `get_pending_node_dns_domains` */
    function Domains(displayName: string, ip: nat): Result<seq<string>>
      requires subnet.Some? ==> subnet.value.prefix <= 32
    {
      if queue.None? || subnet.None? then Err("inventory lacks queue or private_subnet")
      else match subnet.value.HostIndex(ip)
        case None => Err("address outside private_subnet")
        case Some(index) => Ok([HostDomain(displayName), SlurmDomain(index)])
    }
  }

  lemma SuffixCancels(a: string, b: string, suffix: string)
    ensures a + suffix == b + suffix <==> a == b
  {
    if a + suffix == b + suffix {
      assert |a| == |b|;
      assert (a + suffix)[..|a|] == a && (b + suffix)[..|b|] == b;
    }
  }

  lemma PrefixCancels(prefix: string, a: string, b: string)
    ensures prefix + a == prefix + b <==> a == b
  {
    if prefix + a == prefix + b {
      assert (prefix + a)[|prefix|..] == a && (prefix + b)[|prefix|..] == b;
    }
  }

  lemma SlurmNameInjective(n: Naming, i: nat, j: nat)
    requires n.queue.Some?
    ensures n.SlurmName(i) == n.SlurmName(j) <==> i == j
  {
    PrefixCancels(n.queue.value + "-" + n.instanceType + "-", Decimal(i), Decimal(j));
    DecimalRoundTrip(i);
    DecimalRoundTrip(j);
  }

  /** The removed node `gone` and a live node share a DNS name exactly when they share a host name
      or an address, or when one's host name is spelled like the other's Slurm name. */
  lemma SharedDomain(n: Naming, gone: string, goneIp: nat, live: string, liveIp: nat)
    requires n.Valid()
    requires n.Domains(gone, goneIp).Ok? && n.Domains(live, liveIp).Ok?
    ensures (exists d :: d in n.Domains(gone, goneIp).value && d in n.Domains(live, liveIp).value)
       <==> (|| gone == live
             || goneIp == liveIp
             || live == n.SlurmName(n.subnet.value.HostIndex(goneIp).value)
             || gone == n.SlurmName(n.subnet.value.HostIndex(liveIp).value))
  {
    var s := n.subnet.value;
    var i, j := s.HostIndex(goneIp).value, s.HostIndex(liveIp).value;
    assert s.HostPosition(goneIp).Some? && s.HostPosition(liveIp).Some?;
    IndexIsInjective(s, goneIp, liveIp);
    SlurmNameInjective(n, i, j);
    var a, b := n.Domains(gone, goneIp).value, n.Domains(live, liveIp).value;
    assert a == [n.HostDomain(gone), n.SlurmDomain(i)];
    assert b == [n.HostDomain(live), n.SlurmDomain(j)];
    DomainCancels(n, gone, live);
    DomainCancels(n, gone, n.SlurmName(j));
    DomainCancels(n, n.SlurmName(i), live);
    DomainCancels(n, n.SlurmName(i), n.SlurmName(j));
    assert a[0] in a && a[1] in a && b[0] in b && b[1] in b;
  }

  lemma DomainCancels(n: Naming, a: string, b: string)
    ensures a + "." + n.zone == b + "." + n.zone <==> a == b
  {
    assert a + "." + n.zone == a + ("." + n.zone) && b + "." + n.zone == b + ("." + n.zone);
    SuffixCancels(a, b, "." + n.zone);
  }
}
