/** String helpers with the meaning of the JavaScript built-ins they stand for. */
module Strings {
  import opened Wrappers

  /** `s.startsWith(p)` */
  predicate StartsWith(s: string, p: string)
  {
    |p| <= |s| && s[..|p|] == p
  }

  /** `s.includes('..')`: two consecutive dots somewhere in `s`. */
  predicate HasDotDot(s: string)
  {
    exists i :: 0 <= i < |s| - 1 && s[i] == '.' && s[i + 1] == '.'
  }

  /** `parts.join('')` */
  function Concat(parts: seq<string>): string
  {
    if parts == [] then "" else Concat(parts[..|parts| - 1]) + parts[|parts| - 1]
  }

  /** `s.indexOf(p)`: the first position at which `p` occurs in `s`. */
  function IndexOf(s: string, p: string): (r: Option<nat>)
    ensures r.Some? ==> r.value + |p| <= |s| && s[r.value..r.value + |p|] == p
    ensures r.Some? ==> forall j :: 0 <= j < r.value ==> !StartsWith(s[j..], p)
    ensures r.None? ==> forall j :: 0 <= j <= |s| ==> !StartsWith(s[j..], p)
    decreases |s|
  {
    if StartsWith(s, p) then Some(0)
    else if s == [] then None
    else
      TailSuffixes(s);
      match IndexOf(s[1..], p)
      case None => None
      case Some(k) => Some(k + 1)
  }

  /** The suffixes of a non-empty string past its first character are the suffixes of its tail. */
  lemma TailSuffixes(s: string)
    requires s != []
    ensures forall j :: 1 <= j <= |s| ==> s[j..] == s[1..][j - 1..]
  {
  }

  /** `s.indexOf(c)` for a one-character pattern: the first position holding `c`. */
  lemma IndexOfChar(s: string, c: char)
    ensures IndexOf(s, [c]).Some? ==>
      var k := IndexOf(s, [c]).value;
      k < |s| && s[k] == c && forall j :: 0 <= j < k ==> s[j] != c
    ensures IndexOf(s, [c]).None? ==> forall j :: 0 <= j < |s| ==> s[j] != c
  {
    match IndexOf(s, [c]) {
      case None =>
        forall j | 0 <= j < |s| ensures s[j] != c {
          assert s[j..][..1] == [s[j]];
        }
      case Some(k) =>
        assert s[k..k + 1][0] == s[k];
        forall j | 0 <= j < k ensures s[j] != c {
          assert s[j..][..1] == [s[j]];
        }
    }
  }

  /** `s.replace(p, q)` with a string pattern: only the first occurrence is replaced. */
  function ReplaceFirst(s: string, p: string, q: string): string
  {
    match IndexOf(s, p)
    case None => s
    case Some(i) => s[..i] + q + s[i + |p|..]
  }

  lemma HasDotDotAppend(a: string, b: string)
    ensures HasDotDot(a) ==> HasDotDot(a + b)
    ensures HasDotDot(b) ==> HasDotDot(a + b)
  {
    if HasDotDot(a) {
      var i :| 0 <= i < |a| - 1 && a[i] == '.' && a[i + 1] == '.';
      assert (a + b)[i] == '.' && (a + b)[i + 1] == '.';
    }
    if HasDotDot(b) {
      var i :| 0 <= i < |b| - 1 && b[i] == '.' && b[i + 1] == '.';
      assert (a + b)[|a| + i] == '.' && (a + b)[|a| + i + 1] == '.';
    }
  }

  /** `String(n)` for a non-negative integer: its decimal digits, without leading zeros. */
  function NatString(n: nat): (r: string)
    ensures r != "" && '0' <= r[0] <= '9'
    ensures forall i :: 0 <= i < |r| ==> '0' <= r[i] <= '9'
  {
    var digit := ['0' + (n % 10) as char];
    if n < 10 then digit else NatString(n / 10) + digit
  }

  /** The number a string of decimal digits stands for. */
  function DigitsValue(s: string): nat
    requires forall i :: 0 <= i < |s| ==> '0' <= s[i] <= '9'
  {
    if s == [] then 0 else 10 * DigitsValue(s[..|s| - 1]) + (s[|s| - 1] - '0') as nat
  }

  /** Reading the decimal text of `n` back gives `n`. */
  lemma {:induction false} NatStringValue(n: nat)
    ensures DigitsValue(NatString(n)) == n
  {
    var r := NatString(n);
    if n >= 10 {
      NatStringValue(n / 10);
      assert r[..|r| - 1] == NatString(n / 10);
    }
  }
}
