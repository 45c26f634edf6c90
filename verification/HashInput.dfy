/** Which requests share a fingerprint input: the bytes fed to the digest are a plain
    concatenation, so field boundaries are lost except where the grammar restores them. */
module HashInput {
  import Fingerprints

  type Bytes = Fingerprints.Bytes
  type Request = Fingerprints.Request

  function Input(r: Request): Bytes {
    r.verb + r.uri + r.body
  }

  const SLASH: bv8 := 0x2F

  predicate IsAlphaNum(b: bv8) {
    0x30 <= b <= 0x39 || 0x41 <= b <= 0x5A || 0x61 <= b <= 0x7A
  }

  /** tchar, section 5.6.2 of RFC 9110. */
  predicate IsTokenByte(b: bv8) {
    IsAlphaNum(b) || b in {0x21, 0x23, 0x24, 0x25, 0x26, 0x27, 0x2A, 0x2B, 0x2D, 0x2E, 0x5E, 0x5F, 0x60, 0x7C, 0x7E}
  }

  /** pchar other than an escape, slash and question mark (section 3.3 and 3.4 of RFC 3986). */
  predicate IsPlain(b: bv8) {
    || IsAlphaNum(b)
    || b in {0x2D, 0x2E, 0x5F, 0x7E}
    || b in {0x21, 0x24, 0x26, 0x27, 0x28, 0x29, 0x2A, 0x2B, 0x2C, 0x3B, 0x3D}
    || b in {0x3A, 0x40, 0x2F, 0x3F}
  }

  predicate IsHexDigit(b: bv8) {
    0x30 <= b <= 0x39 || 0x41 <= b <= 0x46 || 0x61 <= b <= 0x66
  }

  /** How many bytes the leading element of a target takes: one plain byte, or an escape of a
      percent sign and two hexadecimal digits. Zero when `s` starts with neither. */
  function Unit(s: Bytes): (n: nat)
    ensures n <= |s|
  {
    if |s| > 0 && IsPlain(s[0]) then 1
    else if |s| > 2 && s[0] == 0x25 && IsHexDigit(s[1]) && IsHexDigit(s[2]) then 3
    else 0
  }

  predicate IsTarget(s: Bytes) {
    s == [] || (Unit(s) > 0 && IsTarget(s[Unit(s)..]))
  }

  /** A token method and an origin-form target (section 3.2.1 of RFC 9112). */
  predicate WellFormed(r: Request) {
    && r.verb != [] && (forall i :: 0 <= i < |r.verb| ==> IsTokenByte(r.verb[i]))
    && r.uri != [] && r.uri[0] == SLASH && IsTarget(r.uri)
  }

  /** The body cannot be mistaken for a continuation of the target. */
  predicate Delimited(r: Request) {
    Unit(r.body) == 0
  }

  lemma SlashIsNoTokenByte()
    ensures !IsTokenByte(SLASH) && IsPlain(SLASH)
  {
  }

  lemma MethodIsNoLonger(r: Request, q: Request)
    requires WellFormed(r) && WellFormed(q) && Input(r) == Input(q)
    ensures |q.verb| <= |r.verb|
  {
    SlashIsNoTokenByte();
    assert Input(r)[|r.verb|] == r.uri[0];
    assert forall i :: 0 <= i < |q.verb| ==> Input(q)[i] == q.verb[i] && IsTokenByte(Input(q)[i]);
  }

  /** The first slash ends the method, so methods never blend into targets. */
  lemma MethodIsRecoverable(r: Request, q: Request)
    requires WellFormed(r) && WellFormed(q) && Input(r) == Input(q)
    ensures r.verb == q.verb && r.uri + r.body == q.uri + q.body
  {
    MethodIsNoLonger(r, q);
    MethodIsNoLonger(q, r);
    var n := |r.verb|;
    assert r.verb == Input(r)[..n] && q.verb == Input(q)[..n];
    assert r.uri + r.body == Input(r)[n..] && q.uri + q.body == Input(q)[n..];
  }

  /** Exactly which pairs of requests share a digest input. */
  lemma SameInputIff(r: Request, q: Request)
    requires WellFormed(r) && WellFormed(q)
    ensures Input(r) == Input(q) <==> r.verb == q.verb && r.uri + r.body == q.uri + q.body
  {
    assert Input(r) == r.verb + (r.uri + r.body);
    assert Input(q) == q.verb + (q.uri + q.body);
    if Input(r) == Input(q) {
      MethodIsRecoverable(r, q);
    }
  }

  /** With delimited bodies the input determines the whole request. */
  lemma DelimitedInputsAreInjective(r: Request, q: Request)
    requires WellFormed(r) && WellFormed(q) && Delimited(r) && Delimited(q)
    ensures Input(r) == Input(q) <==> r == q
  {
    if Input(r) == Input(q) {
      MethodIsRecoverable(r, q);
      UriIsNoLonger(r, q);
      UriIsNoLonger(q, r);
      assert r.uri == (r.uri + r.body)[..|r.uri|] && q.uri == (q.uri + q.body)[..|q.uri|];
      assert r.body == (r.uri + r.body)[|r.uri|..] && q.body == (q.uri + q.body)[|q.uri|..];
    }
  }

  lemma UriIsNoLonger(r: Request, q: Request)
    requires WellFormed(r) && WellFormed(q) && Delimited(q) && r.uri + r.body == q.uri + q.body
    ensures |r.uri| <= |q.uri|
  {
    TargetEndsFirst(r.uri, r.body, q.uri, q.body);
  }

  /** Reading elements from the left, a target that what follows cannot prolong is the longest. */
  lemma {:induction false} TargetEndsFirst(u: Bytes, b: Bytes, v: Bytes, c: Bytes)
    requires IsTarget(u) && IsTarget(v) && u + b == v + c && Unit(c) == 0
    ensures |u| <= |v|
  {
    if u != [] {
      UnitOfPrefix(u, b);
      assert v == [] ==> v + c == c;
      if v != [] {
        UnitOfPrefix(v, c);
        var n := Unit(u);
        assert u[n..] + b == (u + b)[n..] == v[n..] + c;
        TargetEndsFirst(u[n..], b, v[n..], c);
      }
    }
  }

  lemma UnitOfPrefix(u: Bytes, b: Bytes)
    requires Unit(u) > 0
    ensures Unit(u + b) == Unit(u)
  {
  }

  lemma {:induction false} TargetsConcatenate(u: Bytes, v: Bytes)
    requires IsTarget(u) && IsTarget(v)
    ensures IsTarget(u + v)
  {
    if u == [] {
      assert u + v == v;
    } else {
      var n := Unit(u);
      UnitOfPrefix(u, v);
      assert (u + v)[n..] == u[n..] + v;
      TargetsConcatenate(u[n..], v);
    }
  }

  lemma LeadingUnitIsTarget(s: Bytes)
    requires Unit(s) > 0
    ensures IsTarget(s[..Unit(s)])
  {
    var u := s[..Unit(s)];
    assert Unit(u) == |u| && u[|u|..] == [];
  }

  function KeyOf(sha: Bytes -> Fingerprints.Hex, r: Request): Bytes {
    Fingerprints.KeyOf(sha, r.verb, r.uri, r.body)
  }

  /** Nothing but the input enters the key, */
  lemma SameInputSameKey(sha: Bytes -> Fingerprints.Hex, r: Request, q: Request)
    requires Input(r) == Input(q)
    ensures KeyOf(sha, r) == KeyOf(sha, q)
  {
  }

  /** and all of it does: some digest tells any two inputs apart. */
  lemma SomeDigestSeparates(r: Request, q: Request) returns (sha: Bytes -> Fingerprints.Hex)
    requires Input(r) != Input(q)
    ensures KeyOf(sha, r) != KeyOf(sha, q)
  {
    var input := Input(r);
    sha := bytes => if bytes == input then seq(64, _ => 1) else seq(64, _ => 0);
    assert KeyOf(sha, r)[6] == 1 && KeyOf(sha, q)[6] == 0;
  }

  /** Which requests share a key under every digest. */
  lemma SameKeyIff(r: Request, q: Request)
    requires WellFormed(r) && WellFormed(q)
    ensures (forall sha: Bytes -> Fingerprints.Hex :: KeyOf(sha, r) == KeyOf(sha, q)) <==>
            r.verb == q.verb && r.uri + r.body == q.uri + q.body
  {
    SameInputIff(r, q);
    if Input(r) == Input(q) {
      forall sha: Bytes -> Fingerprints.Hex ensures KeyOf(sha, r) == KeyOf(sha, q) {
        SameInputSameKey(sha, r, q);
      }
    } else {
      var sha := SomeDigestSeparates(r, q);
    }
  }

  ghost predicate HasTwin(r: Request) {
    exists q :: WellFormed(q) && q != r && Input(q) == Input(r)
  }

  /** Some other well-formed request has the same input unless the target is the bare slash
      and the body is delimited: the documented separators are not there. */
  lemma TwinIff(r: Request)
    requires WellFormed(r)
    ensures HasTwin(r) <==> |r.uri| > 1 || !Delimited(r)
  {
    if |r.uri| > 1 {
      var q := Fingerprints.Request(r.verb, [SLASH], r.uri[1..] + r.body);
      SlashIsNoTokenByte();
      assert [SLASH][1..] == [] && IsTarget([SLASH]);
      assert q.uri + q.body == r.uri + r.body;
      SameInputIff(q, r);
    } else if !Delimited(r) {
      var n := Unit(r.body);
      var q := Fingerprints.Request(r.verb, r.uri + r.body[..n], r.body[n..]);
      LeadingUnitIsTarget(r.body);
      TargetsConcatenate(r.uri, r.body[..n]);
      assert q.uri + q.body == r.uri + r.body;
      assert |q.uri| != |r.uri|;
      SameInputIff(q, r);
    } else {
      forall q | WellFormed(q) && Input(q) == Input(r) ensures q == r {
        MethodIsRecoverable(q, r);
        UriIsNoLonger(q, r);
        assert q.uri == (q.uri + q.body)[..1] && r.uri == (r.uri + r.body)[..1];
        assert q.body == (q.uri + q.body)[1..] && r.body == (r.uri + r.body)[1..];
      }
    }
  }

  /** There is no body cap: requests that agree up to any cap and differ after it have different inputs. */
  lemma BodyIsNotCapped(r: Request, q: Request, cap: nat)
    requires r.verb == q.verb && r.uri == q.uri && cap <= |r.body| && cap <= |q.body|
    requires r.body[..cap] == q.body[..cap] && r.body[cap..] != q.body[cap..]
    ensures Input(r) != Input(q)
  {
    var n := |r.verb + r.uri| + cap;
    assert Input(r)[n..] == r.body[cap..] && Input(q)[n..] == q.body[cap..];
  }
}
