/** Whitespace and trimming as ECMAScript defines them.  `String.prototype.trim`
    strips, and the regular-expression class `\s` matches, the same set of code
    points: WhiteSpace together with LineTerminator. */
module Text {

  /** WhiteSpace (TAB, VT, FF, ZWNBSP and every Zs space: SP, NBSP, U+1680,
      U+2000 to U+200A, U+202F, U+205F, U+3000) and LineTerminator (LF, CR,
      LS, PS). */
  predicate IsWs(c: char) {
    if c <= ' ' then ('\t' <= c <= '\r') || c == ' '
    else NonAsciiWs(c)
  }

  predicate NonAsciiWs(c: char) {
    || c == '\U{00A0}' || c == '\U{1680}' || ('\U{2000}' <= c <= '\U{200A}')
    || ('\U{2028}' <= c <= '\U{2029}') || c == '\U{202F}' || c == '\U{205F}'
    || c == '\U{3000}' || c == '\U{FEFF}'
  }

  predicate AllWs(s: string) {
    forall i :: 0 <= i < |s| ==> IsWs(s[i])
  }

  /** The first index at or after `k` that does not hold whitespace, or
      `|s|` when there is none. */
  function SkipWsFrom(s: string, k: nat): (r: nat)
    requires k <= |s|
    ensures k <= r <= |s|
    ensures forall i :: k <= i < r ==> IsWs(s[i])
    ensures r < |s| ==> !IsWs(s[r])
    decreases |s| - k
  {
    if k == |s| || !IsWs(s[k]) then k else SkipWsFrom(s, k + 1)
  }

  /** The last index at or before `k` whose predecessor does not hold
      whitespace, or 0 when there is none. */
  function SkipWsBack(s: string, k: nat): (r: nat)
    requires k <= |s|
    ensures r <= k
    ensures forall i :: r <= i < k ==> IsWs(s[i])
    ensures r > 0 ==> !IsWs(s[r - 1])
  {
    if k == 0 || !IsWs(s[k - 1]) then k else SkipWsBack(s, k - 1)
  }

  /** Where the text of `s` starts once its leading whitespace is skipped. */
  function ContentStart(s: string): (a: nat)
    ensures a <= |s|
  {
    SkipWsFrom(s, 0)
  }

  /** Where the text of `s` ends once its trailing whitespace is skipped. */
  function ContentEnd(s: string): (b: nat)
    ensures b <= |s|
  {
    SkipWsBack(s, |s|)
  }

  /** `String.prototype.trim`: `s` without its leading and trailing
      whitespace; nothing is left of a string that is all whitespace. */
  function Trim(s: string): (r: string)
    ensures |r| <= |s|
    ensures r == [] <==> AllWs(s)
  {
    var a, b := ContentStart(s), ContentEnd(s);
    if a == |s| then [] else
      assert a < b by { assert !IsWs(s[a]); }
      s[a..b]
  }

  /** What trimming leaves: the infix of `s` that starts after the leading
      whitespace and is empty or bounded by non-whitespace, with only
      whitespace after it. */
  lemma TrimSpec(s: string)
    ensures ContentStart(s) + |Trim(s)| <= |s|
    ensures Trim(s) == s[ContentStart(s)..ContentStart(s) + |Trim(s)|]
    ensures forall i :: 0 <= i < ContentStart(s) ==> IsWs(s[i])
    ensures forall i :: ContentStart(s) + |Trim(s)| <= i < |s| ==> IsWs(s[i])
    ensures Trim(s) == [] || (!IsWs(Trim(s)[0]) && !IsWs(Trim(s)[|Trim(s)| - 1]))
  {
    var a, b := ContentStart(s), ContentEnd(s);
    if a < |s| {
      assert !IsWs(s[a]);
      assert a < b;
      assert Trim(s) == s[a..b];
    }
  }

  /** Trimming is determined by its characterisation: any infix of `s` with
      only whitespace around it and no whitespace at its ends is `Trim(s)`. */
  lemma TrimUnique(s: string, a: nat, b: nat)
    requires a <= b <= |s|
    requires forall i :: 0 <= i < a ==> IsWs(s[i])
    requires forall i :: b <= i < |s| ==> IsWs(s[i])
    requires a == b || (!IsWs(s[a]) && !IsWs(s[b - 1]))
    ensures Trim(s) == s[a..b]
  {
    if a == b {
      // s is whitespace throughout
      assert ContentStart(s) == |s|;
    } else {
      assert ContentStart(s) == a;
      assert ContentEnd(s) == b;
    }
  }

  /** Trimming twice is trimming once. */
  lemma TrimIdempotent(s: string)
    ensures Trim(Trim(s)) == Trim(s)
  {
    var r := Trim(s);
    TrimSpec(s);
    TrimUnique(r, 0, |r|);
    assert r[0..|r|] == r;
  }

  /** Whitespace added on either side is removed again by trimming. */
  lemma TrimAbsorbs(p: string, s: string, q: string)
    requires AllWs(p) && AllWs(q)
    ensures Trim(p + s + q) == Trim(s)
  {
    var r, a := Trim(s), ContentStart(s);
    TrimSpec(s);
    var w := p + s + q;
    var a', b' := |p| + a, |p| + a + |r|;
    assert forall i :: 0 <= i < a' ==> IsWs(w[i]) by {
      forall i | 0 <= i < a' ensures IsWs(w[i]) {
        if i < |p| { assert w[i] == p[i]; } else { assert w[i] == s[i - |p|]; }
      }
    }
    assert forall i :: b' <= i < |w| ==> IsWs(w[i]) by {
      forall i | b' <= i < |w| ensures IsWs(w[i]) {
        if i < |p| + |s| { assert w[i] == s[i - |p|]; } else { assert w[i] == q[i - |p| - |s|]; }
      }
    }
    assert w[a'..b'] == r;
    TrimUnique(w, a', b');
  }
}
