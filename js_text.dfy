/**
 * String.prototype.trim as the chat client uses it (Frontend/src/App.jsx:123, 261, 263):
 * it removes the ECMAScript WhiteSpace and LineTerminator code points from both ends.
 */
module JsText {

  /**
   * ECMAScript WhiteSpace (TAB, VT, FF, ZWNBSP and the Zs category: space, NBSP, U+1680,
   * U+2000 to U+200A, U+202F, U+205F, U+3000) and LineTerminator (LF, CR, LS, PS).
   */
  predicate IsJsSpace(c: char) {
    || c == '\t' || c == '\n' || c == '\U{000B}' || c == '\U{000C}' || c == '\r'
    || c == ' ' || c == '\U{00A0}' || c == '\U{1680}' || ('\U{2000}' <= c <= '\U{200A}')
    || c == '\U{2028}' || c == '\U{2029}' || c == '\U{202F}' || c == '\U{205F}'
    || c == '\U{3000}' || c == '\U{FEFF}'
  }

  /** Every character of s is trimmed away. */
  predicate IsBlank(s: string) {
    forall i :: 0 <= i < |s| ==> IsJsSpace(s[i])
  }

  /** Does not start or end with a trimmable character. */
  predicate IsTrimmed(s: string) {
    s != [] ==> !IsJsSpace(s[0]) && !IsJsSpace(s[|s| - 1])
  }

  /** The characters of s at indices lo up to hi (exclusive) are all whitespace. */
  predicate BlankBetween(s: string, lo: int, hi: int) {
    forall j :: lo <= j < hi && 0 <= j < |s| ==> IsJsSpace(s[j])
  }

  /** The index of the first non-whitespace character of s at or after i, or |s|. */
  function Lead(s: string, i: nat): (n: nat)
    requires i <= |s|
    ensures i <= n <= |s| && BlankBetween(s, i, n)
    ensures n < |s| ==> !IsJsSpace(s[n])
    decreases |s| - i
  {
    if i < |s| && IsJsSpace(s[i]) then Lead(s, i + 1) else i
  }

  /** The end of s[lo..hi] once its trailing whitespace is dropped. */
  function Trail(s: string, lo: nat, hi: nat): (m: nat)
    requires lo <= hi <= |s|
    ensures lo <= m <= hi && BlankBetween(s, m, hi)
    ensures m > lo ==> !IsJsSpace(s[m - 1])
    decreases hi
  {
    if hi > lo && IsJsSpace(s[hi - 1]) then Trail(s, lo, hi - 1) else hi
  }

  /** text.trim(): what lies between the leading and the trailing whitespace. */
  function Trim(s: string): (r: string)
    ensures IsTrimmed(r)
    ensures r == [] <==> IsBlank(s)
    ensures exists k :: (0 <= k <= |s| - |r| && s[k..k + |r|] == r
      && BlankBetween(s, 0, k) && BlankBetween(s, k + |r|, |s|))
  {
    var n := Lead(s, 0);
    var m := Trail(s, n, |s|);
    assert m == n ==> IsBlank(s) by {
      if m == n {
        forall j | 0 <= j < |s| ensures IsJsSpace(s[j]) {
          assert j < n || m <= j;
        }
      }
    }
    assert s[n..m][..] == s[n..m];
    s[n..m]
  }

  /** Lead is determined by its contract: any index with its two properties is the first non-whitespace one. */
  lemma LeadIs(s: string, i: nat, n: nat)
    requires i <= n <= |s| && BlankBetween(s, i, n)
    requires n < |s| ==> !IsJsSpace(s[n])
    ensures Lead(s, i) == n
  {
  }

  /** Trail is determined by its contract. */
  lemma TrailIs(s: string, lo: nat, hi: nat, m: nat)
    requires lo <= m <= hi <= |s| && BlankBetween(s, m, hi)
    requires m > lo ==> !IsJsSpace(s[m - 1])
    ensures Trail(s, lo, hi) == m
  {
  }

  /** Trim undoes padding: surrounding a trimmed string with whitespace and trimming gives it back. */
  lemma TrimUnpad(pre: string, core: string, post: string)
    requires IsBlank(pre) && IsBlank(post) && IsTrimmed(core)
    ensures Trim(pre + core + post) == core
  {
    var s := pre + core + post;
    if core == [] {
      assert IsBlank(s) by {
        forall j | 0 <= j < |s| ensures IsJsSpace(s[j]) {
          if j < |pre| { assert s[j] == pre[j]; } else { assert s[j] == post[j - |pre|]; }
        }
      }
    } else {
      forall j | 0 <= j < |pre| ensures IsJsSpace(s[j]) {
        assert s[j] == pre[j];
      }
      assert s[|pre|] == core[0];
      LeadIs(s, 0, |pre|);
      var e := |pre| + |core|;
      forall j | e <= j < |s| ensures IsJsSpace(s[j]) {
        assert s[j] == post[j - e];
      }
      assert s[e - 1] == core[|core| - 1];
      TrailIs(s, |pre|, |s|, e);
      assert s[|pre|..e] == core;
    }
  }

  /** Trimming twice is trimming once. */
  lemma TrimIdempotent(s: string)
    ensures Trim(Trim(s)) == Trim(s)
  {
  }
}
