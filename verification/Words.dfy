/** Words over a finite alphabet and left folds over them: the counting argument behind the
    shard balance, free of bit-level detail. */
module Words {

  /** Left fold of a word, last letter outermost. */
  function Fold<B>(mix: (B, B) -> B, seed: B, w: seq<B>): B {
    if w == [] then seed else mix(Fold(mix, seed, w[..|w| - 1]), w[|w| - 1])
  }

  /** A round keeps distinct accumulators distinct. */
  ghost predicate Cancels<B(!new)>(mix: (B, B) -> B) {
    forall x, y, b :: mix(x, b) == mix(y, b) ==> x == y
  }

  /** `solve(x, t)` is the one letter that takes accumulator `x` to `t`. */
  ghost predicate Solves<B(!new)>(mix: (B, B) -> B, solve: (B, B) -> B) {
    forall x, t, b :: mix(x, b) == t <==> b == solve(x, t)
  }

  ghost predicate Total<B(!new)>(alphabet: set<B>) {
    forall b :: b in alphabet
  }

  function Power(base: nat, n: nat): nat {
    if n == 0 then 1 else base * Power(base, n - 1)
  }

  function Image<T, U>(f: T -> U, s: set<T>): set<U> {
    set x | x in s :: f(x)
  }

  /** Every prefix extended by every letter. */
  function Extend<B>(prefixes: set<seq<B>>, lasts: set<B>): set<seq<B>> {
    set w, b | w in prefixes && b in lasts :: w + [b]
  }

  function WordsOf<B>(alphabet: set<B>, n: nat): set<seq<B>> {
    if n == 0 then {[]} else Extend(WordsOf(alphabet, n - 1), alphabet)
  }

  lemma {:induction false} FoldFollowsPrefix<B(!new)>(mix: (B, B) -> B, seed: B, p: seq<B>, q: seq<B>, tail: seq<B>)
    requires Cancels(mix)
    ensures Fold(mix, seed, p + tail) == Fold(mix, seed, q + tail) <==> Fold(mix, seed, p) == Fold(mix, seed, q)
    decreases |tail|
  {
    if tail == [] {
      assert p + tail == p && q + tail == q;
    } else {
      var n := |tail| - 1;
      assert (p + tail)[..|p| + n] == p + tail[..n];
      assert (q + tail)[..|q| + n] == q + tail[..n];
      FoldFollowsPrefix(mix, seed, p, q, tail[..n]);
    }
  }

  lemma {:induction false} InjectiveImage<T, U>(f: T -> U, s: set<T>)
    requires forall x, y :: x in s && y in s && f(x) == f(y) ==> x == y
    ensures |Image(f, s)| == |s|
  {
    if s != {} {
      var a :| a in s;
      var rest := s - {a};
      InjectiveImage(f, rest);
      assert Image(f, s) == Image(f, rest) + {f(a)};
    }
  }

  lemma AppendIsInjective<B(!new)>(f: seq<B> -> seq<B>, last: seq<B> -> B, s: set<seq<B>>)
    requires forall x :: f(x) == x + [last(x)]
    ensures |Image(f, s)| == |s|
  {
    forall x, y | x in s && y in s && f(x) == f(y) ensures x == y {
      assert |f(x)| == |x| + 1 && |f(y)| == |y| + 1;
      assert f(x)[..|x|] == x && f(y)[..|y|] == y;
    }
    InjectiveImage(f, s);
  }

  lemma ExtendMember<B(!new)>(prefixes: set<seq<B>>, lasts: set<B>, w: seq<B>)
    ensures w in Extend(prefixes, lasts) <==> w != [] && w[..|w| - 1] in prefixes && w[|w| - 1] in lasts
  {
    if w in Extend(prefixes, lasts) {
      var p, b :| p in prefixes && b in lasts && w == p + [b];
      assert p == w[..|w| - 1];
    } else if w != [] {
      assert w == w[..|w| - 1] + [w[|w| - 1]];
    }
  }

  lemma {:induction false} WordsOfLengthN<B(!new)>(alphabet: set<B>, n: nat, w: seq<B>)
    requires Total(alphabet)
    ensures w in WordsOf(alphabet, n) <==> |w| == n
  {
    if n > 0 {
      ExtendMember(WordsOf(alphabet, n - 1), alphabet, w);
      if w != [] {
        WordsOfLengthN(alphabet, n - 1, w[..|w| - 1]);
      }
    }
  }

  lemma {:induction false} ExtendSize<B(!new)>(prefixes: set<seq<B>>, lasts: set<B>)
    ensures |Extend(prefixes, lasts)| == |prefixes| * |lasts|
    decreases |lasts|
  {
    if |lasts| == 0 {
      assert Extend(prefixes, lasts) == {};
    } else {
      var c :| c in lasts;
      var rest := lasts - {c};
      var f := (w: seq<B>) => w + [c];
      ExtendSize(prefixes, rest);
      AppendIsInjective(f, w => c, prefixes);
      ExtendSplits(prefixes, lasts, c, f);
      assert |Extend(prefixes, lasts)| == |Extend(prefixes, rest)| + |Image(f, prefixes)|;
      OneMoreRow(|prefixes|, |rest|, |lasts|);
    }
  }

  lemma OneMoreRow(width: nat, rows: nat, more: nat)
    requires more == rows + 1
    ensures width * more == width * rows + width
  {
  }

  lemma ExtendSplits<B(!new)>(prefixes: set<seq<B>>, lasts: set<B>, c: B, f: seq<B> -> seq<B>)
    requires c in lasts && forall w :: f(w) == w + [c]
    ensures Extend(prefixes, lasts) == Extend(prefixes, lasts - {c}) + Image(f, prefixes)
    ensures Extend(prefixes, lasts - {c}) !! Image(f, prefixes)
  {
    forall w ensures w in Image(f, prefixes) <==> w != [] && w[..|w| - 1] in prefixes && w[|w| - 1] == c {
      if w != [] && w[|w| - 1] == c {
        assert w == f(w[..|w| - 1]);
      }
    }
    forall w ensures w in Extend(prefixes, lasts) <==> w in Extend(prefixes, lasts - {c}) || w in Image(f, prefixes) {
      ExtendMember(prefixes, lasts, w);
      ExtendMember(prefixes, lasts - {c}, w);
    }
    forall w | w in Extend(prefixes, lasts - {c}) ensures w !in Image(f, prefixes) {
      ExtendMember(prefixes, lasts - {c}, w);
    }
  }

  lemma {:induction false} WordsOfSize<B(!new)>(alphabet: set<B>, n: nat)
    ensures |WordsOf(alphabet, n)| == Power(|alphabet|, n)
  {
    if n > 0 {
      WordsOfSize(alphabet, n - 1);
      ExtendSize(WordsOf(alphabet, n - 1), alphabet);
    }
  }

  /** The words of length `n` whose fold is `t`. */
  function Class<B(!new)>(mix: (B, B) -> B, seed: B, alphabet: set<B>, n: nat, t: B): set<seq<B>> {
    set w | w in WordsOf(alphabet, n) && Fold(mix, seed, w) == t
  }

  lemma ClassMember<B(!new)>(mix: (B, B) -> B, solve: (B, B) -> B, seed: B, alphabet: set<B>, n: nat, t: B,
                             f: seq<B> -> seq<B>, w: seq<B>)
    requires Total(alphabet) && Solves(mix, solve)
    requires forall p :: f(p) == p + [solve(Fold(mix, seed, p), t)]
    ensures w in Class(mix, seed, alphabet, n + 1, t) <==> w in Image(f, WordsOf(alphabet, n))
  {
  }

  /** One letter decides: the class at length n+1 is an injective image of all words of length n. */
  lemma ClassSize<B(!new)>(mix: (B, B) -> B, solve: (B, B) -> B, seed: B, alphabet: set<B>, n: nat, t: B)
    requires Total(alphabet) && Solves(mix, solve)
    ensures |Class(mix, seed, alphabet, n + 1, t)| == Power(|alphabet|, n)
  {
    var last := (w: seq<B>) => solve(Fold(mix, seed, w), t);
    var f := (w: seq<B>) => w + [last(w)];
    forall w ensures w in Class(mix, seed, alphabet, n + 1, t) <==> w in Image(f, WordsOf(alphabet, n)) {
      ClassMember(mix, solve, seed, alphabet, n, t, f, w);
    }
    assert Class(mix, seed, alphabet, n + 1, t) == Image(f, WordsOf(alphabet, n));
    AppendIsInjective(f, last, WordsOf(alphabet, n));
    WordsOfSize(alphabet, n);
  }
}
