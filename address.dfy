/** Splitting an agent's bind address into the address to listen on and a port. */
module Address {
  import opened Wrappers
  import opened Errors
  import opened Text

  /** The port an agent binds to when its bind address names none. */
  const DefaultBindPort: nat := 7946

  /** The two halves of a bind address. */
  datatype AddrParts = AddrParts(ip: string, port: nat)

  /** Splits `addr` at its first ':'. Without one, the whole string is the address and the
      port is `defaultPort`; with one, the text after it must be a decimal number. */
  function SplitHostPort(addr: string, defaultPort: nat): (r: Result<AddrParts, ConfigError>)
    ensures r.Ok? ==> ':' !in r.value.ip
    ensures r.Err? ==> r.error == InvalidPort(addr)
  {
    match IndexOf(addr, ':')
    case None => Ok(AddrParts(addr, defaultPort))
    case Some(i) =>
      match ParseDecimal(addr[i + 1..])
      case None => Err(InvalidPort(addr))
      case Some(port) => Ok(AddrParts(addr[..i], port))
  }

  /** How an address and a port are written as one bind address. */
  function JoinHostPort(parts: AddrParts): string {
    parts.ip + ":" + ShowNat(parts.port)
  }

  /** An address without a port keeps the whole string as the address and takes the default port. */
  lemma NoPortTakesDefault(addr: string, defaultPort: nat)
    requires ':' !in addr
    ensures SplitHostPort(addr, defaultPort) == Ok(AddrParts(addr, defaultPort))
  {
  }

  /** Splitting a joined address and port gives them back, whatever the default port. */
  lemma SplitJoin(parts: AddrParts, defaultPort: nat)
    requires ':' !in parts.ip
    ensures SplitHostPort(JoinHostPort(parts), defaultPort) == Ok(parts)
  {
    var addr := JoinHostPort(parts);
    IndexOfAfterPrefix(parts.ip, ':', ShowNat(parts.port));
    assert addr[|parts.ip| + 1..] == ShowNat(parts.port);
    assert addr[..|parts.ip|] == parts.ip;
    ParseShowNat(parts.port);
  }

  /** A bind address is rejected exactly when it has a ':' and what follows the first ':'
      is not a non-empty string of digits. */
  lemma SplitFailsIff(addr: string, defaultPort: nat)
    ensures SplitHostPort(addr, defaultPort).Err? <==>
      exists i :: 0 <= i < |addr| && addr[i] == ':' && ':' !in addr[..i] &&
                  !(|addr[i + 1..]| > 0 && AllDigits(addr[i + 1..]))
  {
    match IndexOf(addr, ':')
    case None =>
    case Some(i) =>
      forall j | 0 <= j < |addr| && addr[j] == ':' && ':' !in addr[..j] ensures j == i {
      }
  }

  /** The first row of the bind-address test table: "0.0.0.0" binds the default port. */
  lemma BindAddrWithoutPort(defaultPort: nat)
    ensures SplitHostPort("0.0.0.0", defaultPort) == Ok(AddrParts("0.0.0.0", defaultPort))
  {
    NoPortTakesDefault("0.0.0.0", defaultPort);
  }

  /** The port digits of the second test row read as 1234. */
  lemma PortDigits1234()
    ensures ParseDecimal("1234") == Some(1234)
  {
    assert "1234"[..3] == "123" && "123"[..2] == "12" && "12"[..1] == "1";
    assert ParseDecimal("12") == Some(12);
    assert ParseDecimal("123") == Some(123);
  }

  /** An address, a ':' and a decimal port split back into the address and that port. */
  lemma SplitWithPort(host: string, digits: string, port: nat, defaultPort: nat)
    requires ':' !in host && ParseDecimal(digits) == Some(port)
    ensures SplitHostPort(host + ":" + digits, defaultPort) == Ok(AddrParts(host, port))
  {
    var addr := host + ":" + digits;
    IndexOfAfterPrefix(host, ':', digits);
    assert addr[|host| + 1..] == digits;
    assert addr[..|host|] == host;
  }

  /** The second row: "0.0.0.0:1234" binds port 1234, whatever the default port. */
  lemma BindAddrWithPort(defaultPort: nat)
    ensures SplitHostPort("0.0.0.0:1234", defaultPort) == Ok(AddrParts("0.0.0.0", 1234))
  {
    PortDigits1234();
    SplitWithPort("0.0.0.0", "1234", 1234, defaultPort);
    assert "0.0.0.0" + ":" + "1234" == "0.0.0.0:1234";
  }
}
