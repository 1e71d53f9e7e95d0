/**
 * `String.prototype.trim` as the relay uses it: strip the ECMAScript
 * WhiteSpace and LineTerminator code points from both ends of a string.
 */
module JsString {

  /** The characters `trim` removes: TAB, LF, VT, FF, CR, every Space_Separator, LS, PS and the BOM. */
  predicate IsWhitespace(c: char) {
    var n := c as int;
    n == 0x09 || n == 0x0A || n == 0x0B || n == 0x0C || n == 0x0D ||
    n == 0x20 || n == 0xA0 || n == 0x1680 || (0x2000 <= n <= 0x200A) ||
    n == 0x2028 || n == 0x2029 || n == 0x202F || n == 0x205F || n == 0x3000 ||
    n == 0xFEFF
  }

  predicate AllWhitespace(s: string) {
    forall i :: 0 <= i < |s| ==> IsWhitespace(s[i])
  }

  /** Neither end of `s` is whitespace: what `trim` always returns. */
  predicate IsTrimmed(s: string) {
    s == [] || (!IsWhitespace(s[0]) && !IsWhitespace(s[|s| - 1]))
  }

  /** Drops the leading whitespace: the result is the suffix that starts at the first other character. */
  function TrimStart(s: string): (r: string)
    ensures |r| <= |s| && r == s[|s| - |r|..]
    ensures AllWhitespace(s[..|s| - |r|])
    ensures r == [] || !IsWhitespace(r[0])
  {
    if s == [] || !IsWhitespace(s[0]) then s
    else
      var r := TrimStart(s[1..]);
      assert s[1..][|s| - 1 - |r|..] == s[|s| - |r|..];
      var lead, rest := s[..|s| - |r|], s[1..][..|s| - 1 - |r|];
      assert AllWhitespace(lead) by {
        forall i | 0 <= i < |lead|
          ensures IsWhitespace(lead[i])
        {
          if i > 0 {
            assert lead[i] == rest[i - 1];
          }
        }
      }
      r
  }

  /** Drops the trailing whitespace: the result is the prefix that ends at the last other character. */
  function TrimEnd(s: string): (r: string)
    ensures |r| <= |s| && r == s[..|r|]
    ensures AllWhitespace(s[|r|..])
    ensures r == [] || !IsWhitespace(r[|r| - 1])
  {
    if s == [] || !IsWhitespace(s[|s| - 1]) then s
    else
      var r := TrimEnd(s[..|s| - 1]);
      assert s[..|s| - 1][..|r|] == s[..|r|];
      var trail, rest := s[|r|..], s[..|s| - 1][|r|..];
      assert AllWhitespace(trail) by {
        forall i | 0 <= i < |trail|
          ensures IsWhitespace(trail[i])
        {
          if i < |rest| {
            assert trail[i] == rest[i];
          }
        }
      }
      r
  }

  /** `s.trim()`: neither end of the result is whitespace, and it is empty exactly when `s` is all whitespace. */
  function Trim(s: string): (r: string)
    ensures IsTrimmed(r)
    ensures r == [] <==> AllWhitespace(s)
  {
    var t := TrimStart(s);
    var r := TrimEnd(t);
    assert r == [] ==> AllWhitespace(s) by {
      if r == [] {
        AllWhitespaceConcat(s[..|s| - |t|], t);
        assert s == s[..|s| - |t|] + t;
      }
    }
    r
  }

  /** `trim` cuts out a slice: whitespace only is removed, and only from the two ends. */
  lemma TrimIsSlice(s: string) returns (start: nat)
    ensures start + |Trim(s)| <= |s| && Trim(s) == s[start..start + |Trim(s)|]
    ensures AllWhitespace(s[..start]) && AllWhitespace(s[start + |Trim(s)|..])
  {
    var t := TrimStart(s);
    var r := TrimEnd(t);
    start := |s| - |t|;
    assert s[start..] == t;
    assert s[start + |r|..] == t[|r|..];
  }

  lemma AllWhitespaceConcat(a: string, b: string)
    requires AllWhitespace(a) && AllWhitespace(b)
    ensures AllWhitespace(a + b)
  {
    forall i | 0 <= i < |a + b|
      ensures IsWhitespace((a + b)[i])
    {
      if i >= |a| {
        assert (a + b)[i] == b[i - |a|];
      }
    }
  }

  /** Leading whitespace before a string that does not start with whitespace is dropped, and nothing else. */
  lemma {:induction false} TrimStartSkips(pad: string, t: string)
    requires AllWhitespace(pad)
    requires t == [] || !IsWhitespace(t[0])
    ensures TrimStart(pad + t) == t
  {
    if pad == [] {
      assert pad + t == t;
    } else {
      assert (pad + t)[1..] == pad[1..] + t;
      TrimStartSkips(pad[1..], t);
    }
  }

  /** Trailing whitespace after a string that does not end with whitespace is dropped, and nothing else. */
  lemma {:induction false} TrimEndSkips(t: string, pad: string)
    requires AllWhitespace(pad)
    requires t == [] || !IsWhitespace(t[|t| - 1])
    ensures TrimEnd(t + pad) == t
  {
    if pad == [] {
      assert t + pad == t;
    } else {
      assert (t + pad)[..|t + pad| - 1] == t + pad[..|pad| - 1];
      TrimEndSkips(t, pad[..|pad| - 1]);
    }
  }

  /** `trim` is determined by its contract: padding a trimmed string with whitespace on both sides and trimming gives it back. */
  lemma TrimOfPadded(lead: string, core: string, trail: string)
    requires AllWhitespace(lead) && AllWhitespace(trail) && IsTrimmed(core)
    ensures Trim(lead + core + trail) == core
  {
    if core == [] {
      assert lead + core + trail == lead + trail;
      AllWhitespaceConcat(lead, trail);
    } else {
      assert lead + core + trail == lead + (core + trail);
      TrimStartSkips(lead, core + trail);
      TrimEndSkips(core, trail);
    }
  }

  /** Trimming twice is trimming once. */
  lemma TrimIdempotent(s: string)
    ensures Trim(Trim(s)) == Trim(s)
  {
    var r := Trim(s);
    assert [] + r + [] == r;
    TrimOfPadded([], r, []);
  }
}
