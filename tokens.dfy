/**
 * Session tokens: 20 letters drawn from a stream of 63-bit random words by
 * cutting each word into ten 6-bit indices and keeping the indices that fall
 * inside the 52-letter alphabet.
 */
module Tokens {
  import opened Wrappers
  import opened Naming

  /** The size of the token alphabet `letterBytes`, "abc…xyzABC…XYZ". */
  const AlphabetSize: nat := 52

  /** `letterBytes[k]`: `a` to `z` for the first 26 indices, then `A` to `Z`. */
  function Letter(k: nat): (c: char)
    requires k < AlphabetSize
    ensures IsLetter(c)
  {
    if k < 26 then ('a' as int + k) as char else ('A' as int + (k - 26)) as char
  }

  /** Conversely, every ASCII letter is in the alphabet: the tokens can use all 52 letters. */
  lemma LetterOnto(c: char)
    requires IsLetter(c)
    ensures exists k :: 0 <= k < AlphabetSize && Letter(k) == c
  {
    var k := if 'a' <= c <= 'z' then c as int - 'a' as int else c as int - 'A' as int + 26;
    assert Letter(k) == c;
  }

  /** Bits per letter index, and the number of indices cut from one word (63 / 6). */
  const LetterIdxBits: nat := 6
  const LetterIdxMax: nat := 10
  const TokenLength: nat := 20

  /** A value of the random source's `Int63`: never negative. */
  type Int63 = x: int | 0 <= x < 0x8000_0000_0000_0000

  /**
   * The first `k` 6-bit indices of `w`, lowest bits first. For a non-negative
   * word, `w & 63` is `w % 64` and `w >> 6` is `w / 64`.
   */
  function WordIndices(w: nat, k: nat): (r: seq<nat>)
    ensures |r| == k
    ensures forall j :: 0 <= j < k ==> r[j] < 64
  {
    if k == 0 then [] else [w % 64] + WordIndices(w / 64, k - 1)
  }

  /** Every index the generator may examine, word after word. */
  function Indices(words: seq<Int63>): (r: seq<nat>)
    ensures |r| == LetterIdxMax * |words|
  {
    if words == [] then []
    else Indices(words[..|words| - 1]) + WordIndices(words[|words| - 1], LetterIdxMax)
  }

  /** Indices that all name a letter of the alphabet. */
  predicate InAlphabet(xs: seq<nat>) {
    forall j :: 0 <= j < |xs| ==> xs[j] < AlphabetSize
  }

  /** The indices that name a letter, in the order they were drawn. */
  function Accepted(xs: seq<nat>): (r: seq<nat>)
    ensures |r| <= |xs|
    ensures InAlphabet(r)
  {
    if xs == [] then []
    else
      var last := xs[|xs| - 1];
      Accepted(xs[..|xs| - 1]) + (if last < AlphabetSize then [last] else [])
  }

  /**
   * The letters for the accepted indices, written from the end of the token
   * towards its start: the j-th accepted index lands at position |acc| - 1 - j.
   */
  function Spell(acc: seq<nat>): (t: string)
    requires InAlphabet(acc)
    ensures |t| == |acc|
    ensures forall j :: 0 <= j < |acc| ==> t[|acc| - 1 - j] == Letter(acc[j])
  {
    if acc == [] then []
    else [Letter(acc[|acc| - 1])] + Spell(acc[..|acc| - 1])
  }

  /**
   * The token a stream of words yields: the first 20 accepted indices spelt
   * out, or None when the stream holds fewer than 20 of them.
   */
  function TokenOf(words: seq<Int63>): (r: Option<string>)
    ensures r.Some? <==> |Accepted(Indices(words))| >= TokenLength
    ensures r.Some? ==> |r.value| == TokenLength
  {
    var acc := Accepted(Indices(words));
    if |acc| < TokenLength then None else Some(Spell(acc[..TokenLength]))
  }

  /** A token as the generator writes them: 20 letters. */
  predicate IsToken(t: string) {
    |t| == TokenLength && AllLetters(t)
  }

  /** Every token the generator yields is 20 letters. */
  lemma TokenAlphabet(words: seq<Int63>)
    requires TokenOf(words).Some?
    ensures IsToken(TokenOf(words).value)
  {
    var acc := Accepted(Indices(words))[..TokenLength];
    forall j | 0 <= j < TokenLength ensures IsLetter(Spell(acc)[j]) {
      assert Spell(acc)[TokenLength - 1 - (TokenLength - 1 - j)] == Letter(acc[TokenLength - 1 - j]);
    }
  }

  lemma AcceptedSnoc(xs: seq<nat>, x: nat)
    ensures Accepted(xs + [x]) == Accepted(xs) + (if x < AlphabetSize then [x] else [])
  {
    assert (xs + [x])[..|xs|] == xs;
  }

  lemma {:induction false} IndicesAppend(a: seq<Int63>, b: seq<Int63>)
    ensures Indices(a + b) == Indices(a) + Indices(b)
    decreases |b|
  {
    if b == [] {
      assert a + b == a;
    } else {
      var b' := b[..|b| - 1];
      assert (a + b)[..|a + b| - 1] == a + b';
      assert (a + b)[|a + b| - 1] == b[|b| - 1];
      IndicesAppend(a, b');
    }
  }

  lemma {:induction false} AcceptedAppend(xs: seq<nat>, ys: seq<nat>)
    ensures Accepted(xs + ys) == Accepted(xs) + Accepted(ys)
    decreases |ys|
  {
    if ys == [] {
      assert xs + ys == xs;
    } else {
      var ys' := ys[..|ys| - 1];
      assert (xs + ys)[..|xs + ys| - 1] == xs + ys';
      assert (xs + ys)[|xs + ys| - 1] == ys[|ys| - 1];
      AcceptedAppend(xs, ys');
    }
  }

  /**
   * Once a prefix of the indices holds 20 accepted ones, the token is fixed by
   * that prefix, whatever follows it.
   */
  lemma TokenOfPrefix(words: seq<Int63>, xs: seq<nat>, ys: seq<nat>)
    requires Indices(words) == xs + ys
    requires |Accepted(xs)| == TokenLength
    ensures TokenOf(words) == Some(Spell(Accepted(xs)))
  {
    AcceptedAppend(xs, ys);
    assert Accepted(xs + ys)[..TokenLength] == Accepted(xs);
  }

  /** A 20-letter string that has the letters of `acc` at the mirrored positions is their spelling. */
  lemma SpellPointwise(t: string, acc: seq<nat>)
    requires InAlphabet(acc)
    requires |t| == |acc| == TokenLength
    requires forall j :: 0 <= j < TokenLength ==> t[j] == Letter(acc[TokenLength - 1 - j])
    ensures t == Spell(acc)
  {
  }

  /**
   * Where the generator stands in the stream: `w` words fetched, the indices
   * of the first `w - 1` words and the `consumed` ones of word `w` examined,
   * `remain` indices left in `cache`, and fewer than 20 letters found before
   * word `w` was fetched.
   */
  ghost predicate Progress(words: seq<Int63>, w: nat, consumed: seq<nat>, cache: nat, remain: nat) {
    && 1 <= w <= |words|
    && remain <= LetterIdxMax
    && Indices(words[..w]) == consumed + WordIndices(cache, remain)
    && |Accepted(Indices(words[..w - 1]))| < TokenLength
  }

  /** Fetching the next word when the cached one is used up. */
  lemma FetchStep(words: seq<Int63>, w: nat, consumed: seq<nat>, cache: nat)
    requires Progress(words, w, consumed, cache, 0)
    requires w < |words|
    requires |Accepted(consumed)| < TokenLength
    ensures Progress(words, w + 1, consumed, words[w], LetterIdxMax)
  {
    assert WordIndices(cache, 0) == [];
    assert Indices(words[..w]) == consumed;
    assert words[..w + 1][..w] == words[..w];
    assert words[..w + 1 - 1] == words[..w];
  }

  /** Examining the lowest index of the cached word. */
  lemma ConsumeStep(words: seq<Int63>, w: nat, consumed: seq<nat>, cache: nat, remain: nat)
    requires Progress(words, w, consumed, cache, remain)
    requires remain > 0
    ensures Progress(words, w, consumed + [cache % 64], cache / 64, remain - 1)
    ensures Accepted(consumed + [cache % 64])
         == Accepted(consumed) + (if cache % 64 < AlphabetSize then [cache % 64] else [])
  {
    var idx := cache % 64;
    var rest := WordIndices(cache / 64, remain - 1);
    assert WordIndices(cache, remain) == [idx] + rest;
    assert consumed + ([idx] + rest) == (consumed + [idx]) + rest;
    AcceptedSnoc(consumed, idx);
  }

  /** The stream ran dry before 20 letters were found: there is no token. */
  lemma RunsDry(words: seq<Int63>, consumed: seq<nat>, cache: nat)
    requires Progress(words, |words|, consumed, cache, 0)
    requires |Accepted(consumed)| < TokenLength
    ensures TokenOf(words).None?
  {
    assert WordIndices(cache, 0) == [];
    assert words[..|words|] == words;
    assert Indices(words) == consumed;
  }

  /** The 20th letter was found: the token is settled, and so is the number of words used. */
  lemma TokenAtExit(words: seq<Int63>, w: nat, consumed: seq<nat>, cache: nat, remain: nat)
    requires Progress(words, w, consumed, cache, remain)
    requires |Accepted(consumed)| == TokenLength
    ensures TokenOf(words) == Some(Spell(Accepted(consumed)))
    ensures TokenOf(words[..w]) == TokenOf(words)
    ensures TokenOf(words[..w - 1]).None?
  {
    var rest := WordIndices(cache, remain);
    assert words == words[..w] + words[w..];
    IndicesAppend(words[..w], words[w..]);
    assert Indices(words) == consumed + (rest + Indices(words[w..]));
    TokenOfPrefix(words, consumed, rest + Indices(words[w..]));
    TokenOfPrefix(words[..w], consumed, rest);
  }

  /**
   * RandomString: fills a 20-character buffer from its last position to its
   * first. A word is fetched when the ten indices of the previous one are used
   * up; an index is written only when it is below 52. The random source is the
   * stream `words`; `used` is how many of its words were fetched.
   */
  method RandomString(words: seq<Int63>) returns (token: Option<string>, used: nat)
    ensures token == TokenOf(words)
    ensures used <= |words|
    ensures token.Some? ==> TokenOf(words[..used]) == token
    ensures token.Some? ==> 1 <= used && TokenOf(words[..used - 1]).None?
    ensures token.None? ==> used == |words|
  {
    var b := new char[TokenLength];
    if |words| == 0 {
      return None, 0;
    }
    var i: int := TokenLength - 1;
    var cache: nat := words[0];
    var remain: nat := LetterIdxMax;
    var w: nat := 1;
    ghost var consumed: seq<nat> := [];
    ghost var acc: seq<nat> := [];
    assert words[..1] == [] + [words[0]];
    while i >= 0
      invariant -1 <= i < TokenLength
      invariant Progress(words, w, consumed, cache, remain)
      invariant acc == Accepted(consumed) && |acc| == TokenLength - 1 - i
      invariant forall j :: i < j < TokenLength ==> b[j] == Letter(acc[TokenLength - 1 - j])
      decreases |words| - w, remain
    {
      if remain == 0 {
        if w == |words| {
          RunsDry(words, consumed, cache);
          return None, w;
        }
        FetchStep(words, w, consumed, cache);
        cache, remain := words[w], LetterIdxMax;
        w := w + 1;
      }
      var idx := cache % 64;
      ConsumeStep(words, w, consumed, cache, remain);
      if idx < AlphabetSize {
        b[i] := Letter(idx);
        i := i - 1;
        acc := acc + [idx];
      }
      consumed := consumed + [idx];
      cache := cache / 64;
      remain := remain - 1;
    }
    token, used := Some(b[..]), w;
    SpellPointwise(b[..], acc);
    TokenAtExit(words, w, consumed, cache, remain);
  }
}
