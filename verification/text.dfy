/** Whitespace and Python's argument-less `str.strip()`, which the chat client
    applies both to the text typed by the user and to the reply of the model.
 */
module Text {

  /** The characters for which Python's `str.isspace()` holds: the ASCII
      controls TAB..CR, the separators FS..US, SPACE, NEL, NO-BREAK SPACE,
      OGHAM SPACE MARK, EN QUAD..HAIR SPACE, LINE and PARAGRAPH SEPARATOR,
      NARROW NO-BREAK SPACE, MEDIUM MATHEMATICAL SPACE and IDEOGRAPHIC SPACE. */
  predicate IsSpace(c: char) {
    var n := c as int;
    || (0x09 <= n <= 0x0D)
    || (0x1C <= n <= 0x20)
    || n == 0x85 || n == 0xA0 || n == 0x1680
    || (0x2000 <= n <= 0x200A)
    || n == 0x2028 || n == 0x2029 || n == 0x202F || n == 0x205F || n == 0x3000
  }

  /** Every character of `s` is whitespace (vacuously true of ""). */
  predicate AllSpace(s: string) {
    forall i :: 0 <= i < |s| ==> IsSpace(s[i])
  }

  /** `s` neither starts nor ends with whitespace. */
  predicate Bare(s: string) {
    s == [] || (!IsSpace(s[0]) && !IsSpace(s[|s| - 1]))
  }

  /** Drops the leading whitespace: the result is the suffix of `s` that
      starts at its first non-whitespace character. */
  function TrimLeft(s: string): (r: string)
    ensures |r| <= |s| && r == s[|s| - |r|..]
    ensures forall i :: 0 <= i < |s| - |r| ==> IsSpace(s[i])
    ensures r == [] || !IsSpace(r[0])
    decreases |s|
  {
    if |s| > 0 && IsSpace(s[0]) then TrimLeft(s[1..]) else s
  }

  /** Drops the trailing whitespace: the result is the prefix of `s` that
      ends at its last non-whitespace character. */
  function TrimRight(s: string): (r: string)
    ensures |r| <= |s| && r == s[..|r|]
    ensures forall i :: |r| <= i < |s| ==> IsSpace(s[i])
    ensures r == [] || !IsSpace(r[|r| - 1])
    decreases |s|
  {
    if |s| > 0 && IsSpace(s[|s| - 1]) then TrimRight(s[..|s| - 1]) else s
  }

  /** Python's `s.strip()`: drops whitespace at both ends. */
  function Trim(s: string): (r: string)
    ensures Bare(r)
    ensures |r| <= |s|
  {
    TrimRight(TrimLeft(s))
  }

  /** Whitespace in front of a string that does not start with whitespace
      is exactly what TrimLeft removes. */
  lemma {:induction false} TrimLeftSkips(a: string, t: string)
    requires AllSpace(a)
    requires t == [] || !IsSpace(t[0])
    ensures TrimLeft(a + t) == t
    decreases |a|
  {
    if a != [] {
      assert (a + t)[1..] == a[1..] + t;
      TrimLeftSkips(a[1..], t);
    } else {
      assert a + t == t;
    }
  }

  /** Whitespace behind a string that does not end with whitespace is
      exactly what TrimRight removes. */
  lemma {:induction false} TrimRightSkips(t: string, b: string)
    requires AllSpace(b)
    requires t == [] || !IsSpace(t[|t| - 1])
    ensures TrimRight(t + b) == t
    decreases |b|
  {
    if b != [] {
      assert (t + b)[..|t + b| - 1] == t + b[..|b| - 1];
      TrimRightSkips(t, b[..|b| - 1]);
    } else {
      assert t + b == t;
    }
  }

  /** Uniqueness: whenever `s` splits into whitespace, a bare middle and
      whitespace, stripping `s` yields that middle. */
  lemma TrimUnique(a: string, m: string, b: string)
    requires AllSpace(a) && Bare(m) && AllSpace(b)
    ensures Trim(a + m + b) == m
  {
    if m == [] {
      assert a + m + b == a + b;
      assert AllSpace(a + b);
      TrimLeftSkips(a + b, []);
      assert a + b + [] == a + b;
    } else {
      assert a + m + b == a + (m + b);
      TrimLeftSkips(a, m + b);
      TrimRightSkips(m, b);
    }
  }

  /** Existence: stripping only ever removes whitespace, from the two ends;
      `i` and `j` are where the stripped text starts and ends in `s`. */
  lemma TrimSplits(s: string) returns (i: nat, j: nat)
    ensures i <= j <= |s| && s[i..j] == Trim(s)
    ensures forall k :: 0 <= k < i ==> IsSpace(s[k])
    ensures forall k :: j <= k < |s| ==> IsSpace(s[k])
  {
    var l := TrimLeft(s);
    var m := TrimRight(l);
    i := |s| - |l|;
    j := i + |m|;
    assert l == s[i..];
    forall k | j <= k < |s|
      ensures IsSpace(s[k])
    {
      assert s[k] == l[k - i];
    }
    assert s[i..j] == l[..|m|];
  }

  /** Stripping twice is stripping once. */
  lemma TrimIdempotent(s: string)
    ensures Trim(Trim(s)) == Trim(s)
  {
    var m := Trim(s);
    assert [] + m + [] == m;
    TrimUnique([], m, []);
  }

  /** The stripped text is empty exactly when the input is blank, which is
      the test `if not user_text` in the send handler performs. */
  lemma TrimEmptyIffBlank(s: string)
    ensures Trim(s) == [] <==> AllSpace(s)
  {
    if AllSpace(s) {
      assert s + [] + [] == s;
      TrimUnique(s, [], []);
    }
    if Trim(s) == [] {
      var i, j := TrimSplits(s);
    }
  }
}
