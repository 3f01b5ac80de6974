/**
 * The string operations the order screen applies to a status before comparing it:
 * ECMAScript's `String.prototype.trim` and `String.prototype.toLowerCase`.
 */
module Text {

  /**
   * ECMAScript WhiteSpace and LineTerminator code points: exactly what `trim` strips
   * (tab, line feed, vertical tab, form feed and carriage return are U+0009 to U+000D).
   */
  predicate IsTrimmable(c: char) {
    || ('\t' <= c <= '\r') || c == ' ' || c == '\U{00A0}' || c == '\U{1680}'
    || ('\U{2000}' <= c <= '\U{200A}') || c == '\U{2028}' || c == '\U{2029}'
    || c == '\U{202F}' || c == '\U{205F}' || c == '\U{3000}' || c == '\U{FEFF}'
  }

  predicate AllTrimmable(s: string) {
    forall i :: 0 <= i < |s| ==> IsTrimmable(s[i])
  }

  /** Neither end of `s` carries a character that `trim` would strip. */
  predicate Unpadded(s: string) {
    s == [] || (!IsTrimmable(s[0]) && !IsTrimmable(s[|s| - 1]))
  }

  /** Drops the leading trimmable characters: the result is the suffix that starts at the first other one. */
  function TrimStart(s: string): (r: string)
    ensures |r| <= |s| && r == s[|s| - |r|..]
    ensures AllTrimmable(s[..|s| - |r|])
    ensures r != [] ==> !IsTrimmable(r[0])
  {
    if s != [] && IsTrimmable(s[0]) then
      var r := TrimStart(s[1..]);
      var k := |s| - |r|;
      assert r == s[k..] by { SliceOfSuffix(s, 1, k - 1); }
      AllTrimmableCons(s, k);
      r
    else
      s
  }

  /** Drops the trailing trimmable characters: the result is the prefix that ends at the last other one. */
  function TrimEnd(s: string): (r: string)
    ensures |r| <= |s| && r == s[..|r|]
    ensures AllTrimmable(s[|r|..])
    ensures r != [] ==> !IsTrimmable(r[|r| - 1])
  {
    if s != [] && IsTrimmable(s[|s| - 1]) then
      var r := TrimEnd(s[..|s| - 1]);
      var n := |r|;
      assert r == s[..n];
      AllTrimmableSnoc(s, n);
      r
    else
      s
  }

  /** A trimmable character followed by padding is padding. */
  lemma AllTrimmableCons(s: string, k: nat)
    requires 0 < k <= |s| && IsTrimmable(s[0]) && AllTrimmable(s[1..][..k - 1])
    ensures AllTrimmable(s[..k])
  {
    forall i | 0 <= i < k ensures IsTrimmable(s[..k][i]) {
      if i > 0 { assert s[..k][i] == s[1..][..k - 1][i - 1]; }
    }
  }

  /** Padding followed by a trimmable character is padding. */
  lemma AllTrimmableSnoc(s: string, n: nat)
    requires n < |s| && IsTrimmable(s[|s| - 1]) && AllTrimmable(s[..|s| - 1][n..])
    ensures AllTrimmable(s[n..])
  {
    forall i | 0 <= i < |s| - n ensures IsTrimmable(s[n..][i]) {
      if i < |s| - 1 - n { assert s[n..][i] == s[..|s| - 1][n..][i]; }
    }
  }

  /** `String.prototype.trim`: what is left carries no padding at either end. */
  function Trim(s: string): (r: string)
    ensures |r| <= |s|
    ensures Unpadded(r)
  {
    var t := TrimStart(s);
    var r := TrimEnd(t);
    assert r != [] ==> r[0] == t[0];
    r
  }

  /** What `trim` keeps is one slice of the input, and everything it cut off on either side is padding. */
  lemma TrimKeepsSlice(s: string)
    ensures exists k :: 0 <= k <= |s| - |Trim(s)| && s[k..k + |Trim(s)|] == Trim(s)
                        && AllTrimmable(s[..k]) && AllTrimmable(s[k + |Trim(s)|..])
  {
    var t := TrimStart(s);
    var r := TrimEnd(t);
    assert r == Trim(s);
    var k := |s| - |t|;
    SliceOfSuffix(s, k, |r|);
    assert AllTrimmable(s[k + |r|..]);
  }

  /** Cutting a prefix off a suffix of `s` is the same as slicing `s` itself. */
  lemma SliceOfSuffix(s: string, k: nat, n: nat)
    requires k + n <= |s|
    ensures s[k..][..n] == s[k..k + n]
    ensures s[k..][n..] == s[k + n..]
  {
  }

  /** A string that is already unpadded is its own trim, whatever padding surrounds it. */
  lemma {:induction false} TrimStripsPadding(pre: string, core: string, post: string)
    requires AllTrimmable(pre) && AllTrimmable(post) && Unpadded(core)
    ensures Trim(pre + core + post) == core
  {
    if core == [] {
      assert pre + core + post == pre + post;
      AllTrimmableConcat(pre, post);
      TrimAllPadding(pre + post);
    } else {
      var rest := core + post;
      assert pre + core + post == pre + rest;
      TrimStartStops(pre, rest);
      TrimEndStops(core, post);
    }
  }

  lemma AllTrimmableConcat(a: string, b: string)
    requires AllTrimmable(a) && AllTrimmable(b)
    ensures AllTrimmable(a + b)
  {
    forall i | 0 <= i < |a + b| ensures IsTrimmable((a + b)[i]) {
      if i >= |a| { assert (a + b)[i] == b[i - |a|]; }
    }
  }

  /** A string made only of padding trims to the empty string. */
  lemma TrimAllPadding(s: string)
    requires AllTrimmable(s)
    ensures Trim(s) == []
  {
    assert s + [] == s;
    TrimStartStops(s, []);
  }

  /** Trimming a string with no padding returns it unchanged. */
  lemma TrimUnpadded(s: string)
    requires Unpadded(s)
    ensures Trim(s) == s
  {
    assert [] + s == s;
    TrimStartStops([], s);
    assert s + [] == s;
    TrimEndStops(s, []);
  }

  lemma {:induction false} TrimStartStops(pre: string, rest: string)
    requires AllTrimmable(pre)
    requires rest == [] || !IsTrimmable(rest[0])
    ensures TrimStart(pre + rest) == rest
  {
    if pre != [] {
      assert (pre + rest)[1..] == pre[1..] + rest;
      TrimStartStops(pre[1..], rest);
    }
  }

  lemma {:induction false} TrimEndStops(core: string, post: string)
    requires AllTrimmable(post)
    requires core == [] || !IsTrimmable(core[|core| - 1])
    ensures TrimEnd(core + post) == core
  {
    if post != [] {
      var s := core + post;
      assert s[..|s| - 1] == core + post[..|post| - 1];
      TrimEndStops(core, post[..|post| - 1]);
    } else {
      assert core + post == core;
    }
  }

  /** `toLowerCase` on one character: upper-case ASCII letters map to lower case, all else is kept. */
  function LowerChar(c: char): (r: char)
    ensures 'A' <= c <= 'Z' ==> 'a' <= r <= 'z' && r as int - c as int == 32
    ensures !('A' <= c <= 'Z') ==> r == c
  {
    if 'A' <= c <= 'Z' then (c as int + 32) as char else c
  }

  /** `String.prototype.toLowerCase`, character by character. */
  function ToLower(s: string): (r: string)
    ensures |r| == |s|
    ensures forall i :: 0 <= i < |s| ==> r[i] == LowerChar(s[i])
    ensures forall i :: 0 <= i < |r| ==> !('A' <= r[i] <= 'Z')
  {
    seq(|s|, i requires 0 <= i < |s| => LowerChar(s[i]))
  }

  /** The normalisation both status checks use: `status.trim().toLowerCase()`. */
  function Normalize(status: string): string {
    ToLower(Trim(status))
  }

  /** A normalised status is no longer than the status, unpadded, and free of upper-case letters. */
  lemma NormalizeShape(status: string)
    ensures |Normalize(status)| <= |status|
    ensures Unpadded(Normalize(status))
    ensures forall i :: 0 <= i < |Normalize(status)| ==> !('A' <= Normalize(status)[i] <= 'Z')
  {
    ToLowerKeepsUnpadded(Trim(status));
  }

  /** An unpadded status is normalised by lower-casing alone. */
  lemma NormalizeOfUnpadded(s: string)
    requires Unpadded(s)
    ensures Normalize(s) == ToLower(s)
  {
    TrimUnpadded(s);
  }

  /** Lower-casing never creates or removes padding at either end. */
  lemma ToLowerKeepsUnpadded(t: string)
    requires Unpadded(t)
    ensures Unpadded(ToLower(t))
  {
    var n := ToLower(t);
    if n != [] {
      assert n[0] == LowerChar(t[0]);
      assert n[|n| - 1] == LowerChar(t[|t| - 1]);
    }
  }

  /** Lower-casing a lower-cased string changes nothing. */
  lemma ToLowerIdempotent(s: string)
    ensures ToLower(ToLower(s)) == ToLower(s)
  {
    var n := ToLower(s);
    var m := ToLower(n);
    assert forall i | 0 <= i < |n| :: m[i] == n[i];
  }

  /** Normalising a normalised status changes nothing. */
  lemma NormalizeIdempotent(status: string)
    ensures Normalize(Normalize(status)) == Normalize(status)
  {
    var t := Trim(status);
    var n := ToLower(t);
    assert n == Normalize(status);
    ToLowerKeepsUnpadded(t);
    TrimUnpadded(n);
    ToLowerIdempotent(t);
    assert Normalize(n) == ToLower(n);
  }
}
