/**
 * The pieces of JavaScript string behaviour the core relies on:
 * `String.prototype.trim` (only ever tested for emptiness) and `startsWith`.
 */
module JsStrings {

  /** The code points `trim` strips: ECMAScript's WhiteSpace and LineTerminator productions. */
  const TrimmableSet: set<char> := {
    '\t', '\n', '\U{000B}', '\U{000C}', '\r', ' ', '\U{00A0}', '\U{1680}',
    '\U{2028}', '\U{2029}', '\U{202F}', '\U{205F}', '\U{3000}', '\U{FEFF}'
  }

  predicate IsTrimmable(c: char) {
    c in TrimmableSet || '\U{2000}' <= c <= '\U{200A}'
  }

  /** A string made of trimmable characters only (the empty string included). */
  predicate IsBlank(s: string) {
    forall k :: 0 <= k < |s| ==> IsTrimmable(s[k])
  }

  predicate StartsWith(s: string, prefix: string) {
    |prefix| <= |s| && s[..|prefix|] == prefix
  }

  /** Drops leading trimmable characters; the result is a suffix of `s`. */
  function TrimStart(s: string): (r: string)
    ensures |r| <= |s| && r == s[|s| - |r|..]
    ensures r == [] || !IsTrimmable(r[0])
  {
    if |s| > 0 && IsTrimmable(s[0]) then TrimStart(s[1..]) else s
  }

  /** Drops trailing trimmable characters; the result is a prefix of `s`. */
  function TrimEnd(s: string): (r: string)
    ensures |r| <= |s| && r == s[..|r|]
    ensures r == [] || !IsTrimmable(r[|r| - 1])
  {
    if |s| > 0 && IsTrimmable(s[|s| - 1]) then TrimEnd(s[..|s| - 1]) else s
  }

  /** JavaScript trim: no trimmable character is left at either end. */
  function Trim(s: string): (r: string)
    ensures r == [] || (!IsTrimmable(r[0]) && !IsTrimmable(r[|r| - 1]))
  {
    TrimEnd(TrimStart(s))
  }

  /** Everything TrimStart drops is trimmable. */
  lemma {:induction false} TrimStartDropsBlank(s: string)
    ensures IsBlank(s[..|s| - |TrimStart(s)|])
  {
    if |s| > 0 && IsTrimmable(s[0]) {
      var t := TrimStart(s);
      TrimStartDropsBlank(s[1..]);
      var dropped := s[..|s| - |t|];
      forall k | 0 <= k < |dropped| ensures IsTrimmable(dropped[k]) {
        if k > 0 { assert dropped[k] == s[1..][..|s| - 1 - |t|][k - 1]; }
      }
    }
  }

  /** Everything TrimEnd drops is trimmable. */
  lemma {:induction false} TrimEndDropsBlank(s: string)
    ensures IsBlank(s[|TrimEnd(s)|..])
  {
    if |s| > 0 && IsTrimmable(s[|s| - 1]) {
      var init := s[..|s| - 1];
      var r := TrimEnd(s);
      TrimEndDropsBlank(init);
      var dropped := s[|r|..];
      forall k | 0 <= k < |dropped| ensures IsTrimmable(dropped[k]) {
        if k < |dropped| - 1 { assert dropped[k] == init[|r|..][k]; }
      }
    }
  }

  /** `core` sits at offset `lead` in `s`, with nothing but trimmable characters on either side of it. */
  predicate BlankAround(s: string, lead: int, core: string) {
    0 <= lead <= |s| - |core| && core == s[lead..lead + |core|] &&
    IsBlank(s[..lead]) && IsBlank(s[lead + |core|..])
  }

  /** What trim removes: a blank prefix and a blank suffix, and nothing in between. */
  lemma TrimRemovesBlankEnds(s: string)
    ensures exists lead :: BlankAround(s, lead, Trim(s))
  {
    var t := TrimStart(s);
    var lead := |s| - |t|;
    var r := TrimEnd(t);
    TrimStartDropsBlank(s);
    TrimEndDropsBlank(t);
    assert t == s[lead..];
    assert r == s[lead..lead + |r|];
    assert s[lead + |r|..] == t[|r|..];
    assert Trim(s) == r;
    assert BlankAround(s, lead, r);
  }

  /** Trimming leaves nothing exactly when the string is blank. */
  lemma TrimEmptyIffBlank(s: string)
    ensures Trim(s) == [] <==> IsBlank(s)
  {
    var t := TrimStart(s);
    var lead := |s| - |t|;
    TrimStartDropsBlank(s);
    TrimEndDropsBlank(t);
    if Trim(s) == [] {
      assert t == [];
      assert s[..lead] == s;
    } else {
      assert Trim(s)[0] == s[lead];
    }
  }
}
