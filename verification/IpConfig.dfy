/** The cloud-init network option of a virtual machine, written by
    constructCloudInitOptions and read by IPConfigParser
    (pkg/proxmox/virtualmachinetemplate.go). */
module IpConfig {
  import opened Wrappers
  import opened Text

  datatype IPConfig = IPConfig(gateway: string, gatewayIPv6: string, ip: string, ipv6: string, cidr: string)

  const NO_CONFIG: IPConfig := IPConfig("", "", "", "", "")

  /** The IPv6 fields are not written. */
  function Print(c: IPConfig): string {
    "gw=" + c.gateway + ",ip=" + c.ip + "/" + c.cidr
  }

  function AssignKey(c: IPConfig, key: string, value: string): IPConfig {
    if key == "ip" then
      var (address, mask) := Cut(value, '/');
      if mask.Some? then c.(ip := address, cidr := mask.value) else c.(ip := value)
    else if key == "gw" then c.(gateway := value)
    else if key == "ip6" then c.(ipv6 := Cut(value, '/').0)
    else if key == "gw6" then c.(gatewayIPv6 := value)
    else c
  }

  function Assign(c: IPConfig, pair: string): IPConfig {
    var (key, value) := Cut(pair, '=');
    if pair == "" || value.None? then c else AssignKey(c, key, value.value)
  }

  function AssignAll(pairs: seq<string>): IPConfig {
    if pairs == [] then NO_CONFIG else Assign(AssignAll(pairs[..|pairs| - 1]), pairs[|pairs| - 1])
  }

  function Parse(text: string): IPConfig {
    AssignAll(Split(text, ','))
  }

  method IPConfigParser(text: string) returns (c: IPConfig)
    ensures c == Parse(text)
  {
    c := NO_CONFIG;
    var pairs := Split(text, ',');
    for i := 0 to |pairs|
      invariant c == AssignAll(pairs[..i])
    {
      assert pairs[..i + 1][..i] == pairs[..i];
      c := Assign(c, pairs[i]);
    }
    assert pairs[..|pairs|] == pairs;
  }

  lemma ReadPair(c: IPConfig, key: string, value: string)
    requires '=' !in key
    ensures Cut(key + "=" + value, '=') == (key, Some(value))
    ensures Assign(c, key + "=" + value) == AssignKey(c, key, value)
  {
    assert key + "=" + value == key + (['='] + value);
    CutAt(key, value, '=');
  }

  /** What each pair sets: an address is cut at its first slash, the mask of an IPv6
      address is dropped, and other keys, or text without a key, set nothing. */
  lemma PairsAreRead(c: IPConfig, address: string, mask: string, value: string, key: string, text: string)
    requires '/' !in address && '=' !in key && key != "ip" && key != "gw" && key != "ip6" && key != "gw6"
    requires '=' !in text
    ensures Assign(c, "ip=" + address) == c.(ip := address)
    ensures Assign(c, "ip=" + (address + "/" + mask)) == c.(ip := address, cidr := mask)
    ensures Assign(c, "gw=" + value) == c.(gateway := value)
    ensures Assign(c, "ip6=" + address) == Assign(c, "ip6=" + (address + "/" + mask)) == c.(ipv6 := address)
    ensures Assign(c, "gw6=" + value) == c.(gatewayIPv6 := value)
    ensures Assign(c, key + "=" + value) == c && Assign(c, text) == c
  {
    var whole := address + "/" + mask;
    assert whole == address + (['/'] + mask);
    CutAt(address, mask, '/');
    NoCutIs(address, '/');
    NoCutIs(text, '=');
    forall k | '=' !in k ensures forall v :: Assign(c, k + "=" + v) == AssignKey(c, k, v) {
      forall v ensures Assign(c, k + "=" + v) == AssignKey(c, k, v) { ReadPair(c, k, v); }
    }
    assert "ip" + "=" == "ip=" && "gw" + "=" == "gw=" && "ip6" + "=" == "ip6=" && "gw6" + "=" == "gw6=";
    assert '=' !in "ip" && '=' !in "gw" && '=' !in "ip6" && '=' !in "gw6";
  }

  lemma {:induction false} NoCutIs(s: string, sep: char)
    requires sep !in s
    ensures Cut(s, sep) == (s, None)
  {
    if s != [] {
      NoCutIs(s[1..], sep);
      assert [s[0]] + s[1..] == s;
    }
  }

  /** The configurations whose text keeps gateway, address and mask apart. */
  predicate Printable(c: IPConfig) {
    ',' !in c.gateway && ',' !in c.ip && '/' !in c.ip && ',' !in c.cidr
  }

  lemma {:induction false} CutParts(s: string, sep: char)
    ensures sep !in Cut(s, sep).0 && forall c :: c in Cut(s, sep).0 ==> c in s
    ensures Cut(s, sep).1.Some? ==> forall c :: c in Cut(s, sep).1.value ==> c in s
  {
    if s != [] && s[0] != sep {
      CutParts(s[1..], sep);
    }
  }

  /** Whatever the text, what is read is printable. */
  lemma {:induction false} AssignedIsPrintable(pairs: seq<string>)
    requires forall t :: t in pairs ==> ',' !in t
    ensures Printable(AssignAll(pairs))
  {
    if pairs != [] {
      var pair := pairs[|pairs| - 1];
      AssignedIsPrintable(pairs[..|pairs| - 1]);
      assert pair in pairs;
      CutParts(pair, '=');
      var (key, value) := Cut(pair, '=');
      if value.Some? {
        CutParts(value.value, '/');
        if Cut(value.value, '/').1.None? {
          NoCutMeansAbsent(value.value, '/');
        }
      }
    }
  }

  lemma {:induction false} NoCutMeansAbsent(s: string, sep: char)
    requires Cut(s, sep).1.None?
    ensures sep !in s
  {
    if s != [] {
      NoCutMeansAbsent(s[1..], sep);
    }
  }

  lemma PrintIsJoin(c: IPConfig)
    ensures Print(c) == Join(["gw=" + c.gateway, "ip=" + c.ip + "/" + c.cidr], ',')
  {
    var second := "ip=" + c.ip + "/" + c.cidr;
    assert ["gw=" + c.gateway, second][1..] == [second];
    assert ",ip=" == [','] + "ip=";
    assert Print(c) == "gw=" + c.gateway + [','] + second;
  }

  lemma PrintableReadsBack(c: IPConfig)
    requires Printable(c)
    ensures Parse(Print(c)) == NO_CONFIG.(gateway := c.gateway, ip := c.ip, cidr := c.cidr)
  {
    var first, address := "gw=" + c.gateway, c.ip + "/" + c.cidr;
    var second := "ip=" + c.ip + "/" + c.cidr;
    PrintIsJoin(c);
    SplitJoin([first, second], ',');
    assert first == "gw" + (['='] + c.gateway);
    assert second == "ip" + (['='] + address) && address == c.ip + (['/'] + c.cidr);
    CutAt("gw", c.gateway, '=');
    CutAt("ip", address, '=');
    CutAt(c.ip, c.cidr, '/');
    assert [first, second][..1] == [first] && [first][..0] == [];
    assert AssignAll([first]) == NO_CONFIG.(gateway := c.gateway);
  }

  /** Gateway, address and mask come back exactly when the gateway and the mask have
      no comma and the address has neither comma nor slash; the whole configuration
      does when, besides, it has no IPv6 part. */
  lemma ReadsBackExactly(c: IPConfig)
    ensures
      var r := Parse(Print(c));
      && (r.gateway == c.gateway && r.ip == c.ip && r.cidr == c.cidr <==> Printable(c))
      && (r == c <==> Printable(c) && c.ipv6 == "" && c.gatewayIPv6 == "")
  {
    AssignedIsPrintable(Split(Print(c), ','));
    if Printable(c) {
      PrintableReadsBack(c);
    }
  }
}
