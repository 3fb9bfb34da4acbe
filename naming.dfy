/**
 * Blog names as the blog-creation handler sees them: the sanitising of the
 * requested name, the website derived from it, and the port drawn for the
 * new blog.
 */
module Naming {

  /** The hosting domain every blog website lives under. */
  const Domain: string := ".goblog.pw"

  /** The port draw is `Intn(PortSpan) + MinPort`. */
  const MinPort: int := 2000
  const PortSpan: nat := 63000

  /** The characters the class `[A-Za-z]` matches: the ASCII letters. */
  predicate IsLetter(c: char) {
    'A' <= c <= 'Z' || 'a' <= c <= 'z'
  }

  predicate AllLetters(s: string) {
    forall i :: 0 <= i < |s| ==> IsLetter(s[i])
  }

  /**
   * The requested blog name with every match of `[^A-Za-z]` replaced by the
   * empty string: the letters of `s`, in their order.
   */
  function Sanitize(s: string): (r: string)
    ensures AllLetters(r)
    ensures |r| <= |s|
  {
    if s == [] then []
    else if IsLetter(s[0]) then [s[0]] + Sanitize(s[1..])
    else Sanitize(s[1..])
  }

  /** Sanitising distributes over concatenation: nothing is reordered. */
  lemma {:induction false} SanitizeAppend(a: string, b: string)
    ensures Sanitize(a + b) == Sanitize(a) + Sanitize(b)
  {
    if a == [] {
      assert a + b == b;
    } else {
      assert (a + b)[1..] == a[1..] + b;
      SanitizeAppend(a[1..], b);
    }
  }

  /** Appending one character to the input appends it to the result iff it is a letter. */
  lemma SanitizeSnoc(s: string, c: char)
    ensures Sanitize(s + [c]) == if IsLetter(c) then Sanitize(s) + [c] else Sanitize(s)
  {
    SanitizeAppend(s, [c]);
    assert Sanitize([c]) == if IsLetter(c) then [c] else [] by {
      assert [c][1..] == [];
    }
  }

  /** Every letter of the input is kept, as often as it occurs; nothing else is. */
  lemma {:induction false} SanitizeCount(s: string, c: char)
    ensures multiset(Sanitize(s))[c] == if IsLetter(c) then multiset(s)[c] else 0
  {
    if s != [] {
      SanitizeCount(s[1..], c);
      assert s == [s[0]] + s[1..];
      assert multiset(s) == multiset{s[0]} + multiset(s[1..]);
    }
  }

  /** A name is left as it is exactly when it consists of letters only. */
  lemma {:induction false} SanitizeFixpoint(s: string)
    ensures Sanitize(s) == s <==> AllLetters(s)
  {
    if s != [] && AllLetters(s) {
      assert AllLetters(s[1..]) by {
        forall i | 0 <= i < |s[1..]| ensures IsLetter(s[1..][i]) {
          assert s[1..][i] == s[i + 1];
        }
      }
      SanitizeFixpoint(s[1..]);
    }
  }

  /** Sanitising a sanitised name changes nothing. */
  lemma SanitizeIdempotent(s: string)
    ensures Sanitize(Sanitize(s)) == Sanitize(s)
  {
    SanitizeFixpoint(Sanitize(s));
  }

  /** The website of a blog: its name followed by the hosting domain. */
  function Website(name: string): (w: string)
    ensures |w| == |name| + |Domain|
    ensures w[..|name|] == name && w[|name|..] == Domain
  {
    name + Domain
  }

  /** Different names never share a website, so the name can be read back from it. */
  lemma WebsiteInjective(a: string, b: string)
    ensures Website(a) == Website(b) ==> a == b
  {
  }

  /** The port handed to the provisioning script for an `Intn(PortSpan)` draw. */
  function Port(draw: nat): (p: int)
    requires draw < PortSpan
    ensures MinPort <= p < MinPort + PortSpan
    ensures 2000 <= p < 65000
  {
    draw + MinPort
  }
}
