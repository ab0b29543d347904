/** Files on the wire: _sendFile cuts a file into DATA messages, the receiving loop of _storeFile
    puts it together again, and the hash of a file is computed block by block. */
module Transfer {
  import opened Base

  /** Messages of either direction. The `data` of a STOR is not part of the message itself: it
      follows as a run of DATA messages. */
  datatype Message = Order(command: Command) | Data(data: Bytes, last: bool) | Answer(response: Response) | Stray

  /** The run of DATA messages for a file: file.read succeeds for full buffers only, so all messages
      but the last are full, and the last carries what is left, which may be nothing. */
  function Blocks(data: Bytes, n: nat): seq<Message>
    requires n > 0
    decreases |data|
  {
    if |data| >= n then [Data(data[..n], false)] + Blocks(data[n..], n) else [Data(data, true)]
  }

  /** _sendFile of client and server. */
  method SendFile(data: Bytes, n: nat) returns (out: seq<Message>)
    requires n > 0
    ensures out == Blocks(data, n)
  {
    out := [];
    var at := 0;
    while |data| - at >= n
      invariant at <= |data|
      invariant out + Blocks(data[at..], n) == Blocks(data, n)
    {
      assert data[at..][..n] == data[at..at + n] && data[at..][n..] == data[at + n..];
      out := out + [Data(data[at..at + n], false)];
      at := at + n;
    }
    out := out + [Data(data[at..], true)];
  }

  /** How many messages, how long, and which one is flagged. */
  lemma {:induction false} BlocksShape(data: Bytes, n: nat)
    requires n > 0
    ensures var ms := Blocks(data, n);
            && |ms| == |data| / n + 1
            && (forall i :: 0 <= i < |ms| ==> ms[i].Data? && (ms[i].last <==> i == |ms| - 1))
            && (forall i :: 0 <= i < |ms| - 1 ==> |ms[i].data| == n)
            && |ms[|ms| - 1].data| == |data| % n
    decreases |data|
  {
    if |data| >= n {
      BlocksShape(data[n..], n);
      OneLess(|data|, n);
    } else {
      Small(|data|, n);
    }
  }

  lemma OneLess(x: nat, n: nat)
    requires 0 < n <= x
    ensures x / n == (x - n) / n + 1 && x % n == (x - n) % n
  {
    var a, b, d := x / n, (x - n) / n, x / n - (x - n) / n;
    assert x == n * a + x % n && x - n == n * b + (x - n) % n;
    assert n * d == n * a - n * b;
    if d <= 0 {
      Scale(n, d, 0);
    } else if d >= 2 {
      Scale(n, 2, d);
    }
  }

  lemma Scale(n: nat, a: int, b: int)
    requires a <= b
    ensures n * a <= n * b
  {
  }

  lemma Small(x: nat, n: nat)
    requires x < n
    ensures x / n == 0 && x % n == x
  {
  }

  /** How the receiving loop ends: with the whole file; at a message that is not DATA, which is
      consumed; or with the connection. */
  datatype Received = Whole(data: Bytes, rest: seq<Message>) | Interrupted(rest: seq<Message>) | Cut

  function TakeRun(inbox: seq<Message>): Received {
    if inbox == [] then Cut
    else if !inbox[0].Data? then Interrupted(inbox[1..])
    else if inbox[0].last then Whole(inbox[0].data, inbox[1..])
    else
      match TakeRun(inbox[1..])
      case Whole(data, rest) => Whole(inbox[0].data + data, rest)
      case r => r
  }

  /** The loop of _storeFile of client and server: each message is appended to the temporary file. */
  method ReceiveRun(inbox: seq<Message>) returns (r: Received)
    ensures r == TakeRun(inbox)
  {
    var file: Bytes := [];
    var at := 0;
    while at < |inbox|
      invariant at <= |inbox|
      invariant TakeRun(inbox) == Prefixed(file, TakeRun(inbox[at..]))
    {
      var m := inbox[at];
      assert inbox[at..][1..] == inbox[at + 1..];
      at := at + 1;
      if !m.Data? {
        return Interrupted(inbox[at..]);
      }
      ghost var sofar := file;
      file := file + m.data;
      if m.last {
        return Whole(file, inbox[at..]);
      }
      Associates(sofar, m.data, TakeRun(inbox[at..]));
    }
    return Cut;
  }

  function Prefixed(file: Bytes, r: Received): Received {
    match r
    case Whole(data, rest) => Whole(file + data, rest)
    case _ => r
  }

  lemma Associates(a: Bytes, b: Bytes, r: Received)
    ensures Prefixed(a, Prefixed(b, r)) == Prefixed(a + b, r)
  {
    if r.Whole? {
      assert a + (b + r.data) == a + b + r.data;
    }
  }

  /** The receiver gets the file back and takes nothing that comes after it. */
  lemma {:induction false} RoundTrip(data: Bytes, n: nat, rest: seq<Message>)
    requires n > 0
    ensures TakeRun(Blocks(data, n) + rest) == Whole(data, rest)
    decreases |data|
  {
    var ms := Blocks(data, n);
    if |data| >= n {
      assert (ms + rest)[1..] == Blocks(data[n..], n) + rest;
      RoundTrip(data[n..], n, rest);
      assert data[..n] + data[n..] == data;
    } else {
      assert (ms + rest)[1..] == rest;
    }
  }

  /** A run that breaks off before its last message: what comes instead is consumed and the file is lost. */
  lemma {:induction false} BrokenRun(data: Bytes, n: nat, i: nat, rest: seq<Message>)
    requires n > 0 && i < |Blocks(data, n)| && (rest != [] ==> !rest[0].Data?)
    ensures TakeRun(Blocks(data, n)[..i] + rest) == if rest == [] then Cut else Interrupted(rest[1..])
    decreases |data|
  {
    var ms := Blocks(data, n);
    if i == 0 {
      assert ms[..0] + rest == rest;
    } else {
      assert ms[1..] == Blocks(data[n..], n);
      assert (ms[..i] + rest)[1..] == Blocks(data[n..], n)[..i - 1] + rest;
      assert (ms[..i] + rest)[0] == ms[0];
      BrokenRun(data[n..], n, i - 1, rest);
    }
  }

  // ------------------------------------------------------------ block hashing

  /** A digest fed piece by piece is the digest of all it was fed. */
  class HashMaker {
    const sha: Digest
    var fed: Bytes

    constructor (sha: Digest)
      ensures fed == [] && this.sha == sha
    {
      this.sha := sha;
      fed := [];
    }

    method Update(block: Bytes)
      modifies this
      ensures fed == old(fed) + block
    {
      fed := fed + block;
    }

    method Get() returns (h: Hash)
      ensures h == sha(fed)
    {
      h := sha(fed);
    }
  }

  const BUFFER: nat := 1024

  /** The hashing loop of Directory_entry: full blocks, then what is left. */
  method HashOfFile(sha: Digest, file: Bytes) returns (h: Hash)
    ensures h == sha(file)
  {
    var hm := new HashMaker(sha);
    var at := 0;
    while |file| - at >= BUFFER
      invariant at <= |file| && hm.fed == file[..at] && hm.sha == sha
    {
      hm.Update(file[at..at + BUFFER]);
      at := at + BUFFER;
      assert file[..at] == file[..at - BUFFER] + file[at - BUFFER..at];
    }
    hm.Update(file[at..]);
    assert file[..at] + file[at..] == file;
    h := hm.Get();
  }
}
