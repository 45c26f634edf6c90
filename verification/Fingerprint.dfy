/** The request fingerprint: buffered and streaming forms over pooled hashers.

    SHA-256 with hex encoding is an arbitrary function `sha` from absorbed bytes to 64 bytes;
    nothing is assumed of it, in particular not injectivity. */
module Fingerprints {
  import Fnv1a

  type Bytes = Fnv1a.Bytes

  const HEX_LENGTH: nat := 64
  const PREFIX: Bytes := [0x64, 0x65, 0x64, 0x75, 0x70, 0x3A]  // "dedup:"

  type Hex = s: Bytes | |s| == 64 witness seq(64, _ => 0)

  /** The key both forms must compute. */
  function KeyOf(sha: Bytes -> Hex, verb: Bytes, uri: Bytes, body: Bytes): Bytes {
    PREFIX + sha(verb + uri + body)
  }

  class Hasher {
    var absorbed: Bytes

    constructor ()
      ensures absorbed == []
    {
      absorbed := [];
    }

    method Reset()
      modifies this
      ensures absorbed == []
    {
      absorbed := [];
    }

    method Write(p: Bytes)
      modifies this
      ensures absorbed == old(absorbed) + p
    {
      absorbed := absorbed + p;
    }
  }

  /** The hasher pool: hands out any idle hasher, in whatever state it was returned. */
  class HasherPool {
    var idle: set<Hasher>

    constructor ()
      ensures idle == {}
    {
      idle := {};
    }

    method Get() returns (h: Hasher)
      modifies this
      ensures h !in idle && idle <= old(idle) <= idle + {h}
      ensures h in old(idle) || fresh(h)
    {
      if idle == {} {
        h := new Hasher();
      } else {
        h :| h in idle;
        idle := idle - {h};
      }
    }

    method Put(h: Hasher)
      modifies this
      ensures idle == old(idle) + {h}
    {
      idle := idle + {h};
    }
  }

  function Concat(chunks: seq<Bytes>): Bytes {
    if chunks == [] then [] else chunks[0] + Concat(chunks[1..])
  }

  /** `Concat` is the one way to join chunks that leaves a single chunk alone and respects splitting. */
  lemma {:induction false} ConcatLaws(c: Bytes, a: seq<Bytes>, b: seq<Bytes>)
    ensures Concat([]) == [] && Concat([c]) == c
    ensures Concat(a + b) == Concat(a) + Concat(b)
  {
    assert [c][1..] == [];
    if a == [] {
      assert a + b == b;
    } else {
      ConcatLaws(c, a[1..], b);
      assert (a + b)[1..] == a[1..] + b;
    }
  }

  datatype ReadResult = Data(bytes: Bytes) | Eof | Failed

  /** A request body: it yields its chunks in turn, then ends or fails. */
  class BodyReader {
    var rest: seq<Bytes>
    const fails: bool

    constructor (chunks: seq<Bytes>, fails: bool)
      ensures rest == chunks && this.fails == fails
    {
      rest := chunks;
      this.fails := fails;
    }

    method Read() returns (r: ReadResult)
      modifies this
      ensures old(rest) == [] ==> rest == [] && r == if fails then Failed else Eof
      ensures old(rest) != [] ==> rest == old(rest)[1..] && r == Data(old(rest)[0])
    {
      if rest == [] {
        r := if fails then Failed else Eof;
      } else {
        r := Data(rest[0]);
        rest := rest[1..];
      }
    }
  }

  /** io.Copy from the body into a hasher. */
  method Copy(h: Hasher, body: BodyReader) returns (n: nat, ok: bool)
    modifies h, body
    ensures h.absorbed == old(h.absorbed) + Concat(old(body.rest))
    ensures n == |Concat(old(body.rest))| && ok == !body.fails && body.rest == []
  {
    n := 0;
    var r := body.Read();
    while r.Data?
      invariant r.Data? ==> h.absorbed + r.bytes + Concat(body.rest) == old(h.absorbed) + Concat(old(body.rest))
      invariant r.Data? ==> n + |r.bytes| + |Concat(body.rest)| == |Concat(old(body.rest))|
      invariant !r.Data? ==> body.rest == [] && r == if body.fails then Failed else Eof
      invariant !r.Data? ==> h.absorbed == old(h.absorbed) + Concat(old(body.rest)) && n == |Concat(old(body.rest))|
      decreases |body.rest|, r.Data?
    {
      ghost var next, rest := r.bytes, body.rest;
      h.Write(r.bytes);
      n := n + |r.bytes|;
      r := body.Read();
      if r.Data? {
        assert h.absorbed + r.bytes + Concat(body.rest) == h.absorbed + Concat(rest);
      } else {
        assert h.absorbed + Concat(rest) == h.absorbed;
      }
    }
    ok := r.Eof?;
  }

  /** Fills dst[at..at+64] with the digest of verb, uri and the streamed body; a failed read leaves dst alone. */
  method StreamHashInto(pool: HasherPool, sha: Bytes -> Hex, verb: Bytes, uri: Bytes, body: BodyReader,
                        dst: array<bv8>, at: nat) returns (n: nat, ok: bool)
    requires at + HEX_LENGTH == dst.Length
    modifies pool, pool.idle, body, dst
    ensures n == |Concat(old(body.rest))| && ok == !body.fails
    ensures dst[..] == old(dst[..at]) + if ok then sha(verb + uri + Concat(old(body.rest))) else old(dst[at..])
    ensures fresh(pool.idle - old(pool.idle)) && old(pool.idle) <= pool.idle && pool.idle != {}
  {
    var h := pool.Get();
    h.Reset();
    h.Write(verb);
    h.Write(uri);
    n, ok := Copy(h, body);
    if ok {
      assert h.absorbed == verb + uri + Concat(old(body.rest));
      Encode(sha(h.absorbed), dst, at);
    } else {
      assert dst[..] == old(dst[..at]) + old(dst[at..]);
    }
    pool.Put(h);
  }

  method Encode(hex: Hex, dst: array<bv8>, at: nat)
    requires at + HEX_LENGTH == dst.Length
    modifies dst
    ensures dst[..] == old(dst[..at]) + hex
  {
    for i := 0 to HEX_LENGTH
      invariant dst[..at] == old(dst[..at])
      invariant dst[at..at + i] == hex[..i]
    {
      dst[at + i] := hex[i];
    }
    assert dst[..] == dst[..at] + dst[at..at + HEX_LENGTH];
  }

  method NewKeyBuffer() returns (buf: array<bv8>)
    ensures fresh(buf) && buf[..] == PREFIX + seq(HEX_LENGTH, _ => 0)
  {
    buf := new bv8[|PREFIX| + HEX_LENGTH](i => if 0 <= i < |PREFIX| then PREFIX[i] else 0);
  }

  method StreamingRedisKey(pool: HasherPool, sha: Bytes -> Hex, verb: Bytes, uri: Bytes, body: BodyReader)
    returns (key: Bytes, n: nat, ok: bool)
    modifies pool, pool.idle, body
    ensures n == |Concat(old(body.rest))| && ok == !body.fails
    ensures key == if ok then KeyOf(sha, verb, uri, Concat(old(body.rest))) else PREFIX + seq(HEX_LENGTH, _ => 0)
    ensures key[..6] == [0x64, 0x65, 0x64, 0x75, 0x70, 0x3A] && (ok ==> key[6..] == sha(verb + uri + Concat(old(body.rest))))
    ensures fresh(pool.idle - old(pool.idle)) && old(pool.idle) <= pool.idle && pool.idle != {}
  {
    var buf := NewKeyBuffer();
    assert buf[..][..|PREFIX|] == buf[..|PREFIX|] && buf[..][|PREFIX|..] == buf[|PREFIX|..];
    n, ok := StreamHashInto(pool, sha, verb, uri, body, buf, |PREFIX|);
    key := buf[..];
  }

  datatype Option<+T> = None | Some(value: T)

  datatype Request = Request(verb: Bytes, uri: Bytes, body: Bytes)

  /** io.ReadAll of the body; a nil body is an empty one. */
  method FromHTTP(verb: Bytes, uri: Bytes, body: BodyReader?) returns (fp: Option<Request>)
    modifies if body == null then {} else {body}
    ensures body == null ==> fp == Some(Request(verb, uri, []))
    ensures body != null ==> fp == if body.fails then None else Some(Request(verb, uri, Concat(old(body.rest))))
  {
    if body == null {
      return Some(Request(verb, uri, []));
    }
    var data: Bytes := [];
    while body.rest != []
      invariant data + Concat(body.rest) == Concat(old(body.rest))
      decreases |body.rest|
    {
      var r := body.Read();
      data := data + r.bytes;
    }
    assert data + Concat(body.rest) == data;
    var end := body.Read();
    fp := if end.Eof? then Some(Request(verb, uri, data)) else None;
  }

  method RedisKey(pool: HasherPool, sha: Bytes -> Hex, f: Request) returns (key: Bytes)
    modifies pool, pool.idle
    ensures key == KeyOf(sha, f.verb, f.uri, f.body)
    ensures key[..6] == [0x64, 0x65, 0x64, 0x75, 0x70, 0x3A] && key[6..] == sha(f.verb + f.uri + f.body)
    ensures fresh(pool.idle - old(pool.idle)) && old(pool.idle) <= pool.idle && pool.idle != {}
  {
    var buf := NewKeyBuffer();
    assert buf[..][..|PREFIX|] == buf[..|PREFIX|];
    var h := pool.Get();
    h.Reset();
    h.Write(f.verb);
    h.Write(f.uri);
    h.Write(f.body);
    assert h.absorbed == f.verb + f.uri + f.body;
    Encode(sha(h.absorbed), buf, |PREFIX|);
    pool.Put(h);
    key := buf[..];
  }
}
