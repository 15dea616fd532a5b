/** Package `probe/tcp`: the constructor of a TCP reachability probe. The
    dial itself (`Probe`) is network I/O and is not modelled. */
module Tcp {
  import opened Wrappers

  datatype TcpProbe = TcpProbe(server: string, port: string, addr: string)

  /** `New(server, port)`: both parts are required; the dial address is
      their plain concatenation, with no separator inserted. */
  function New(server: string, port: string): (r: Result<TcpProbe>)
    ensures r.Err? <==> server == "" || port == ""
    ensures r.Ok? ==> r.value.server == server && r.value.port == port
    ensures r.Ok? ==> |r.value.addr| == |server| + |port|
    ensures r.Ok? ==> r.value.addr[..|server|] == server && r.value.addr[|server|..] == port
  {
    if server == "" || port == "" then Err("need a server and port to create tcp probe")
    else Ok(TcpProbe(server, port, server + port))
  }

  /** Without a leading colon in `port`, the address is not "host:port":
      `New("localhost", "8080")` dials "localhost8080". */
  lemma NoSeparatorInserted()
    ensures New("localhost", "8080") == Ok(TcpProbe("localhost", "8080", "localhost8080"))
    ensures New("localhost", ":8080").value.addr == "localhost:8080"
  {
    assert "localhost" + "8080" == "localhost8080";
    assert "localhost" + ":8080" == "localhost:8080";
  }

  /** For every server and port, the address reads "server:x" exactly when
      the port itself is ":x": `New` never supplies the colon. */
  lemma AddressIsHostPort(server: string, port: string, x: string)
    requires server != "" && port != ""
    ensures New(server, port).value.addr == server + ":" + x <==> port == ":" + x
  {
    var a := New(server, port).value.addr;
    if a == server + ":" + x {
      assert a[|server|..] == ":" + x;
    }
  }
}
