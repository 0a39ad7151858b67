/** The SOCKS5 client handshake (RFC 1928) over a stream that arrives in any pieces. */
module Socks {
  import opened Prelude
  import opened Text

  type byte = b: int | 0 <= b < 256

  datatype Fault = CutOff | NotSocks5(version: byte) | AuthDemanded | BadName | NameTooLong | BadPort
      | Refused(code: byte) | UnknownAddress(kind: byte)

  /** A connected socket: all that the peer will ever send, how much of it is read, and
      how large a piece the `n`-th receive finds. */
  class Socket {
    const incoming: seq<byte>
    const pieces: nat -> nat
    var pos: nat
    var calls: nat
    var sent: seq<byte>
    var isClosed: bool

    ghost predicate Valid()
      reads this
    {
      pos <= |incoming|
    }

    constructor (incoming: seq<byte>, pieces: nat -> nat)
      ensures Valid() && this.incoming == incoming && this.pieces == pieces && pos == 0 && sent == [] && !isClosed
    {
      this.incoming, this.pieces := incoming, pieces;
      pos, calls, sent, isClosed := 0, 0, [], false;
    }

    // Between one byte and `max`, or nothing at the end of the stream.
    method Recv(max: nat) returns (chunk: seq<byte>)
      requires Valid() && max > 0
      modifies this`pos, this`calls
      ensures Valid() && old(pos) <= pos <= old(pos) + max
      ensures chunk == incoming[old(pos)..pos]
      ensures pos == old(pos) ==> pos == |incoming|
    {
      var left := |incoming| - pos;
      var most := if left < max then left else max;
      var size := if most == 0 then 0 else 1 + pieces(calls) % most;
      chunk := incoming[pos..pos + size];
      pos, calls := pos + size, calls + 1;
    }

    method SendAll(data: seq<byte>)
      modifies this`sent
      ensures sent == old(sent) + data
    {
      sent := sent + data;
    }

    method Close()
      modifies this`isClosed
      ensures isClosed
    {
      isClosed := true;
    }
  }

  /** `_recv_exactly`: the next `n` bytes and no more, however they arrive; an error
      exactly when the stream ends before. */
  method RecvExactly(sock: Socket, n: nat) returns (r: Result<seq<byte>, Fault>)
    requires sock.Valid()
    modifies sock`pos, sock`calls
    ensures sock.Valid()
    ensures r == if old(sock.pos) + n > |sock.incoming| then Err(CutOff)
                 else Ok(sock.incoming[old(sock.pos)..old(sock.pos) + n])
    ensures sock.pos == if r.Ok? then old(sock.pos) + n else |sock.incoming|
  {
    var data: seq<byte> := [];
    var remaining := n;
    while remaining > 0
      invariant sock.Valid() && 0 <= remaining <= n && sock.pos == old(sock.pos) + n - remaining
      invariant data == sock.incoming[old(sock.pos)..sock.pos]
    {
      var chunk := sock.Recv(remaining);
      if chunk == [] { return Err(CutOff); }
      data := data + chunk;
      remaining := remaining - |chunk|;
    }
    assert data == sock.incoming[old(sock.pos)..old(sock.pos) + n];
    return Ok(data);
  }

  // ---- the bytes of the handshake ---------------------------------------------------------

  const GREETING: seq<byte> := [5, 1, 0]

  function Request(host: seq<byte>, port: nat): seq<byte>
    requires |host| <= 255 && port <= 65535
  {
    [5, 1, 0, 3] + [|host|] + host + [port / 256, port % 256]
  }

  // The destination a server reads from a request (sections 4 and 5).
  function ReadRequest(s: seq<byte>): Option<(seq<byte>, nat)> {
    if |s| < 7 || s[..4] != [5, 1, 0, 3] then None
    else
      var size := s[4] as int;
      if |s| != 7 + size then None else Some((s[5..5 + size], s[5 + size] as int * 256 + s[6 + size] as int))
  }

  /** The request says where to connect. */
  lemma RequestIsRead(host: seq<byte>, port: nat)
    requires |host| <= 255 && port <= 65535
    ensures ReadRequest(Request(host, port)) == Some((host, port))
  {
    var s := Request(host, port);
    assert s[..4] == [5, 1, 0, 3] && s[4] == |host|;
    assert s[5..5 + |host|] == host;
    assert s[5 + |host|] == port / 256 && s[6 + |host|] == port % 256;
  }

  datatype Address = IPv4(bytes: seq<byte>) | Domain(bytes: seq<byte>) | IPv6(bytes: seq<byte>)

  predicate AddressOk(a: Address) {
    match a
    case IPv4(b) => |b| == 4
    case Domain(b) => |b| <= 255
    case IPv6(b) => |b| == 16
  }

  function PrintAddress(a: Address): seq<byte>
    requires AddressOk(a)
  {
    match a
    case IPv4(b) => [1] + b
    case Domain(b) => [3] + ([|b|] + b)
    case IPv6(b) => [4] + b
  }

  // A success as the proxy sends it (section 6): method reply, then the bound address
  // and port. The version and reserved bytes of the second reply are not looked at.
  function Success(version: byte, reserved: byte, bound: Address, port: (byte, byte)): seq<byte>
    requires AddressOk(bound)
  {
    [5, 0] + [version, 0, reserved] + PrintAddress(bound) + [port.0, port.1]
  }

  ghost predicate IsSuccess(s: seq<byte>) {
    exists version, reserved, bound, port :: AddressOk(bound) && s == Success(version, reserved, bound, port)
  }

  // ---- the handshake ----------------------------------------------------------------------

  // How far the bound address goes, given the four bytes at `p` that end in its type.
  function AddressEnd(s: seq<byte>, p: nat): Result<nat, Fault>
    requires p + 4 <= |s|
  {
    match s[p + 3]
    case 1 => Ok(p + 8)
    case 3 => if p + 5 <= |s| then Ok(p + 5 + s[p + 4]) else Err(CutOff)
    case 4 => Ok(p + 20)
    case kind => Err(UnknownAddress(kind))
  }

  // The reply to the request, from `p` on: where the tunnelled stream begins.
  function ReadReply(s: seq<byte>, p: nat): Result<nat, Fault> {
    if p + 4 > |s| then Err(CutOff)
    else if s[p + 1] != 0 then Err(Refused(s[p + 1]))
    else match AddressEnd(s, p)
      case Err(e) => Err(e)
      case Ok(end) => if end + 2 <= |s| then Ok(end + 2) else Err(CutOff)
  }

  function ReadGreeting(s: seq<byte>): Option<Fault> {
    if |s| < 2 then Some(CutOff)
    else if s[0] != 5 then Some(NotSocks5(s[0]))
    else if s[1] != 0 then Some(AuthDemanded)
    else None
  }

  // What stops the request from being written; `host` is None where it cannot be encoded.
  function RequestFault(host: Option<seq<byte>>, port: nat): Option<Fault> {
    if host.None? then Some(BadName) else if |host.value| > 255 then Some(NameTooLong)
    else if port > 65535 then Some(BadPort) else None
  }

  function Handshake(s: seq<byte>, host: Option<seq<byte>>, port: nat): Result<nat, Fault> {
    if ReadGreeting(s).Some? then Err(ReadGreeting(s).value)
    else if RequestFault(host, port).Some? then Err(RequestFault(host, port).value)
    else ReadReply(s, 2)
  }

  /** `socks5_connect`, on a new connection to the proxy: on success the socket stands
      right after the handshake, on failure it is closed, and the request is sent only
      after a greeting that asks for no authentication. */
  method Connect(sock: Socket, host: Option<seq<byte>>, port: nat) returns (r: Result<nat, Fault>)
    requires sock.Valid() && sock.pos == 0 && sock.sent == [] && !sock.isClosed
    modifies sock
    ensures sock.Valid() && r == Handshake(sock.incoming, host, port)
    ensures r.Ok? ==> sock.pos == r.value && !sock.isClosed
    ensures r.Err? ==> sock.isClosed
    ensures sock.sent == if ReadGreeting(sock.incoming).None? && RequestFault(host, port).None?
                         then GREETING + Request(host.value, port) else GREETING
  {
    r := Negotiate(sock, host, port);
    if r.Err? { sock.Close(); }
  }

  method Negotiate(sock: Socket, host: Option<seq<byte>>, port: nat) returns (r: Result<nat, Fault>)
    requires sock.Valid() && sock.pos == 0 && sock.sent == [] && !sock.isClosed
    modifies sock`pos, sock`calls, sock`sent
    ensures sock.Valid() && r == Handshake(sock.incoming, host, port)
    ensures r.Ok? ==> sock.pos == r.value
    ensures sock.sent == if ReadGreeting(sock.incoming).None? && RequestFault(host, port).None?
                         then GREETING + Request(host.value, port) else GREETING
  {
    sock.SendAll(GREETING);
    var greeting := RecvExactly(sock, 2);
    if greeting.Err? { return Err(greeting.error); }
    if greeting.value[0] != 5 { return Err(NotSocks5(greeting.value[0])); }
    if greeting.value[1] != 0 { return Err(AuthDemanded); }
    if host.None? { return Err(BadName); }
    if |host.value| > 255 { return Err(NameTooLong); }
    if port > 65535 { return Err(BadPort); }
    sock.SendAll(Request(host.value, port));
    r := Await(sock);
  }

  method Await(sock: Socket) returns (r: Result<nat, Fault>)
    requires sock.Valid() && sock.pos == 2
    modifies sock`pos, sock`calls
    ensures sock.Valid() && r == ReadReply(sock.incoming, 2)
    ensures r.Ok? ==> sock.pos == r.value
  {
    var reply := RecvExactly(sock, 4);
    if reply.Err? { return Err(reply.error); }
    if reply.value[1] != 0 { return Err(Refused(reply.value[1])); }
    var kind := reply.value[3];
    var size: nat := 0;
    if kind == 1 {
      size := 4;
    } else if kind == 3 {
      var length := RecvExactly(sock, 1);
      if length.Err? { return Err(length.error); }
      size := length.value[0];
    } else if kind == 4 {
      size := 16;
    } else {
      return Err(UnknownAddress(kind));
    }
    var address := RecvExactly(sock, size);
    if address.Err? { return Err(address.error); }
    var port := RecvExactly(sock, 2);
    if port.Err? { return Err(port.error); }
    return Ok(sock.pos);
  }

  // ---- success consumes exactly the handshake -----------------------------------------------

  lemma SuccessIsRead(version: byte, reserved: byte, bound: Address, port: (byte, byte), rest: seq<byte>)
    requires AddressOk(bound)
    ensures var s := Success(version, reserved, bound, port);
            ReadGreeting(s + rest).None? && ReadReply(s + rest, 2) == Ok(|s|)
  {
    var s := Success(version, reserved, bound, port);
    var t := s + rest;
    assert t[0] == 5 && t[1] == 0 && t[3] == 0 && t[5] == PrintAddress(bound)[0];
    assert bound.Domain? ==> t[6] == PrintAddress(bound)[1];
  }

  // The address that ends where the walk says it does.
  lemma AddressAt(s: seq<byte>, p: nat, end: nat) returns (bound: Address)
    requires p + 4 <= |s| && AddressEnd(s, p) == Ok(end) && end <= |s|
    ensures AddressOk(bound) && p + 3 <= end && s[p + 3..end] == PrintAddress(bound)
  {
    if s[p + 3] == 1 {
      bound := IPv4(s[p + 4..end]);
    } else if s[p + 3] == 3 {
      bound := Domain(s[p + 5..end]);
      assert s[p + 4..end] == [s[p + 4]] + s[p + 5..end];
    } else {
      bound := IPv6(s[p + 4..end]);
    }
    assert s[p + 3..end] == [s[p + 3]] + s[p + 4..end];
  }

  lemma ReadIsSuccess(s: seq<byte>, n: nat)
    requires ReadGreeting(s).None? && ReadReply(s, 2) == Ok(n)
    ensures n <= |s| && IsSuccess(s[..n])
  {
    var bound := AddressAt(s, 2, n - 2);
    SliceJoin(s, 2, 5);
    SliceJoin(s, 5, n - 2);
    SliceJoin(s, n - 2, n);
    assert s[..2] == [5, 0] && s[2..5] == [s[2], 0, s[4]] && s[n - 2..n] == [s[n - 2], s[n - 1]];
    assert s[..n] == Success(s[2], s[4], bound, (s[n - 2], s[n - 1]));
  }

  /** The handshake succeeds exactly when what arrives begins with a complete success,
      and then consumes exactly those bytes, whatever follows them. */
  lemma HandshakeExact(s: seq<byte>, host: Option<seq<byte>>, port: nat, n: nat)
    ensures Handshake(s, host, port) == Ok(n) <==> RequestFault(host, port).None? && n <= |s| && IsSuccess(s[..n])
  {
    if Handshake(s, host, port) == Ok(n) {
      ReadIsSuccess(s, n);
    }
    if n <= |s| && IsSuccess(s[..n]) {
      var version, reserved, bound, p :| AddressOk(bound) && s[..n] == Success(version, reserved, bound, p);
      SuccessIsRead(version, reserved, bound, p, s[n..]);
      assert s == s[..n] + s[n..];
    }
  }
}
