/** myLibraries/Socket.cpp: messages on a byte stream, each after its length in network order, read
    and written in whatever pieces recv and send choose. */
module Framing {
  import opened Base

  type Octet = x: int | 0 <= x < 256

  type Octets = seq<Octet>

  const WORD: nat := 0x1_0000_0000

  /** htonl: the four bytes of an uint32_t, most significant first. */
  function BigEndian(n: nat): Octets
    requires n < WORD
  {
    [n / 0x100_0000, n / 0x1_0000 % 256, n / 256 % 256, n % 256]
  }

  /** ntohl. */
  function Number(b: Octets): nat
    requires |b| == 4
  {
    ((b[0] as int * 256 + b[1] as int) * 256 + b[2] as int) * 256 + b[3] as int
  }

  lemma NumberOf(n: nat)
    requires n < WORD
    ensures Number(BigEndian(n)) == n
  {
    var a, b := n / 256, n / 0x1_0000;
    assert b == a / 256 && n / 0x100_0000 == b / 256;
  }

  /** sendString: the length goes through an uint32_t. */
  function Frame(m: Octets): Octets { BigEndian(|m| % WORD) + m }

  function Frames(ms: seq<Octets>): Octets {
    if ms == [] then [] else Frame(ms[0]) + Frames(ms[1..])
  }

  /** recvString on the bytes still to come; None when the peer closes before the message is complete. */
  function Parse(stream: Octets): Option<(Octets, Octets)> {
    if |stream| < 4 then None
    else
      var n := Number(stream[..4]);
      if |stream| - 4 < n then None else Some((stream[4..4 + n], stream[4 + n..]))
  }

  function ParseAll(stream: Octets, n: nat): Option<seq<Octets>> {
    if n == 0 then Some([])
    else
      match Parse(stream)
      case None => None
      case Some((m, rest)) =>
        match ParseAll(rest, n - 1)
        case None => None
        case Some(ms) => Some([m] + ms)
  }

  /** One frame gives back its message; of a message of 2^32 bytes or more only what fits the
      wrapped length. */
  lemma ParseFrame(m: Octets, rest: Octets)
    ensures Parse(Frame(m) + rest) == Some((m[..|m| % WORD], m[|m| % WORD..] + rest))
    ensures m != [] ==> (Parse(Frame(m) + rest) == Some((m, rest)) <==> |m| < WORD)
  {
    var n, s := |m| % WORD, Frame(m) + rest;
    NumberOf(n);
    assert s[..4] == BigEndian(n);
    assert s[4..4 + n] == m[..n];
    assert s[4 + n..] == m[n..] + rest;
    if |m| < WORD {
      assert m[..n] == m && m[n..] == [];
    }
  }

  /** Of a stream that ends inside a message nothing is taken for that message. */
  lemma CutFrame(m: Octets, i: nat)
    requires i < |Frame(m)| && i < 4 + |m| % WORD
    ensures Parse(Frame(m)[..i]) == None
  {
    var n := |m| % WORD;
    NumberOf(n);
    if i >= 4 {
      assert Frame(m)[..i][..4] == BigEndian(n);
    }
  }

  /** A stream of frames is read back as the list of messages that was written. */
  lemma {:induction false} FramesRoundTrip(ms: seq<Octets>)
    requires forall m :: m in ms ==> m != [] && |m| < WORD
    ensures ParseAll(Frames(ms), |ms|) == Some(ms)
  {
    if ms != [] {
      ParseFrame(ms[0], Frames(ms[1..]));
      FramesRoundTrip(ms[1..]);
      assert [ms[0]] + ms[1..] == ms;
    }
  }

  function Flatten(pieces: seq<Octets>): Octets {
    if pieces == [] then [] else Flatten(pieces[..|pieces| - 1]) + pieces[|pieces| - 1]
  }

  /** How many of `most` bytes the i-th system call moves: at least one, or the loop would not end. */
  function Moved(pick: nat -> nat, i: nat, most: nat): (n: nat)
    requires most > 0
    ensures 0 < n <= most
  {
    1 + pick(i) % most
  }

  /** write: send until everything has gone. */
  method Write(buffer: Octets, pick: nat -> nat) returns (pieces: seq<Octets>)
    ensures Flatten(pieces) == buffer
    ensures forall p :: p in pieces ==> p != []
  {
    pieces := [];
    var ptr: nat, len: nat := 0, |buffer|;
    while len > 0
      invariant ptr + len == |buffer|
      invariant Flatten(pieces) == buffer[..ptr]
      invariant forall p :: p in pieces ==> p != []
      decreases len
    {
      var n := Moved(pick, |pieces|, len);
      var piece := buffer[ptr..ptr + n];
      assert (pieces + [piece])[..|pieces|] == pieces;
      assert buffer[..ptr] + piece == buffer[..ptr + n];
      pieces := pieces + [piece];
      ptr, len := ptr + n, len - n;
    }
    assert buffer[..ptr] == buffer;
  }

  /** read: recv until `len` bytes are there; recv gives no more than has arrived, and nothing once the
      peer has closed. */
  method Read(stream: Octets, len: nat, pick: nat -> nat) returns (got: Option<Octets>, rest: Octets)
    ensures got == (if |stream| >= len then Some(stream[..len]) else None)
    ensures got.Some? ==> rest == stream[len..]
  {
    var buffer: Octets, left: nat, calls: nat := [], len, 0;
    while left > 0
      invariant |buffer| + left == len && |buffer| <= |stream| && buffer == stream[..|buffer|]
      decreases left
    {
      var here := |stream| - |buffer|;
      if here == 0 {
        return None, [];
      }
      var n := Moved(pick, calls, if left < here then left else here);
      buffer := buffer + stream[|buffer|..|buffer| + n];
      left, calls := left - n, calls + 1;
    }
    assert |buffer| == len;
    return Some(buffer), stream[len..];
  }

  method SendString(m: Octets, pick: nat -> nat) returns (pieces: seq<Octets>)
    ensures Flatten(pieces) == Frame(m)
  {
    var header := Write(BigEndian(|m| % WORD), pick);
    var body := Write(m, pick);
    FlattenBoth(header, body);
    return header + body;
  }

  lemma {:induction false} FlattenBoth(a: seq<Octets>, b: seq<Octets>)
    ensures Flatten(a + b) == Flatten(a) + Flatten(b)
    decreases |b|
  {
    if b == [] {
      assert a + b == a;
    } else {
      var init := b[..|b| - 1];
      assert (a + b)[..|a + b| - 1] == a + init;
      FlattenBoth(a, init);
    }
  }

  method RecvString(stream: Octets, pick: nat -> nat) returns (got: Option<(Octets, Octets)>)
    ensures got == Parse(stream)
  {
    var header, rest := Read(stream, 4, pick);
    if header.None? {
      return None;
    }
    var n := Number(header.value);
    var body, after := Read(rest, n, pick);
    if body.None? {
      return None;
    }
    assert rest[..n] == stream[4..4 + n] && rest[n..] == stream[4 + n..];
    return Some((body.value, after));
  }

  method SendAll(ms: seq<Octets>, pick: nat -> nat) returns (wire: Octets)
    ensures wire == Frames(ms)
  {
    hide Frame;
    wire := [];
    for i := 0 to |ms|
      invariant wire + Frames(ms[i..]) == Frames(ms)
    {
      assert ms[i..][0] == ms[i] && ms[i..][1..] == ms[i + 1..];
      var pieces := SendString(ms[i], pick);
      assert wire + (Frame(ms[i]) + Frames(ms[i + 1..])) == wire + Frame(ms[i]) + Frames(ms[i + 1..]);
      wire := wire + Flatten(pieces);
    }
    assert ms[|ms|..] == [];
  }

  /** Whatever pieces each write and each read is cut into, the receiver gets the list that was sent. */
  method Exchange(ms: seq<Octets>, sends: nat -> nat, recvs: nat -> nat) returns (got: seq<Octets>)
    requires forall m :: m in ms ==> m != [] && |m| < WORD
    ensures got == ms
  {
    hide Frame, Parse;
    var wire := SendAll(ms, sends);
    got := [];
    assert ms[0..] == ms;
    for i := 0 to |ms|
      invariant wire == Frames(ms[i..]) && got == ms[..i]
    {
      assert ms[i..][0] == ms[i] && ms[i..][1..] == ms[i + 1..];
      ParseFrame(ms[i], Frames(ms[i + 1..]));
      var one := RecvString(wire, recvs);
      assert ms[..i + 1] == ms[..i] + [ms[i]];
      got, wire := got + [one.value.0], one.value.1;
    }
    assert ms[..|ms|] == ms;
  }
}
