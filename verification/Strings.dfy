/** Text helpers shared by the whole model.  A Go string is a `string`; the characters that
    matter to the code (bars, digits, base64url letters, white space) are all spelled out. */
module Strings {
  datatype Option<+T> = None | Some(value: T)
  datatype Result<+T> = Ok(value: T) | Err(error: string)

  // ----- Cutting at a separator -----

  lemma SameTail<T>(a: seq<T>, b: seq<T>, b': seq<T>)
    requires a + b == a + b'
    ensures b == b'
  {
    assert b == (a + b)[|a|..] && b' == (a + b')[|a|..];
  }

  lemma CutAtFirst(c: char, a: string, b: string, a': string, b': string)
    requires c !in a && c !in a'
    requires a + [c] + b == a' + [c] + b'
    ensures a == a' && b == b'
  {
    var s := a + [c] + b;
    assert forall i :: 0 <= i < |a| ==> s[i] == a[i] != c;
    assert forall i :: 0 <= i < |a'| ==> s[i] == a'[i] != c;
    assert s[|a|] == c && s[|a'|] == c;
    assert a == s[..|a|] && a' == s[..|a'|];
    assert b == s[|a| + 1..] && b' == s[|a'| + 1..];
  }

  lemma CutAtLast(c: char, a: string, b: string, a': string, b': string)
    requires c !in b && c !in b'
    requires a + [c] + b == a' + [c] + b'
    ensures a == a' && b == b'
  {
    var s := a + [c] + b;
    assert forall i :: |a| < i < |s| ==> s[i] == b[i - |a| - 1] != c;
    assert forall i :: |a'| < i < |s| ==> s[i] == b'[i - |a'| - 1] != c;
    assert s[|a|] == c && s[|a'|] == c;
    assert a == s[..|a|] && a' == s[..|a'|];
    assert b == s[|a| + 1..] && b' == s[|a'| + 1..];
  }

  /** The position of the first `c` in `s`, or |s|. */
  function IndexOf(s: string, c: char): (i: nat)
    ensures i <= |s| && forall k :: 0 <= k < i ==> s[k] != c
    ensures i < |s| ==> s[i] == c
  {
    if s == "" || s[0] == c then 0 else 1 + IndexOf(s[1..], c)
  }

  lemma IndexOfFirst(c: char, a: string, b: string)
    requires c !in a
    ensures IndexOf(a + [c] + b, c) == |a|
  {
    var s := a + [c] + b;
    assert s[|a|] == c;
    var i := IndexOf(s, c);
    assert forall k :: 0 <= k < i ==> s[k] == s[..i][k] != c;
    assert forall k :: 0 <= k < |a| ==> s[k] == a[k] != c;
  }

  predicate Contains(s: string, t: string) { exists i :: 0 <= i <= |s| && t <= s[i..] }

  // ----- Decimal numerals (the %d verb, strconv.FormatUint, ParseUint and Atoi) -----

  predicate IsDigit(c: char) { '0' <= c <= '9' }

  predicate AllDigits(s: string) { forall i :: 0 <= i < |s| ==> IsDigit(s[i]) }

  function DigitValue(c: char): nat
    requires IsDigit(c)
  {
    c as int - '0' as int
  }

  function Digit(d: nat): (c: char)
    requires d < 10
    ensures IsDigit(c) && DigitValue(c) == d
  {
    ('0' as int + d) as char
  }

  function Dec(n: nat): (s: string)
    ensures s != [] && AllDigits(s)
  {
    if n < 10 then [Digit(n)] else Dec(n / 10) + [Digit(n % 10)]
  }

  function Value(s: string): nat
    requires AllDigits(s)
  {
    if s == [] then 0 else 10 * Value(s[..|s| - 1]) + DigitValue(s[|s| - 1])
  }

  lemma {:induction false} ValueOfDec(n: nat)
    ensures Value(Dec(n)) == n
  {
    if n < 10 {
      assert Dec(n)[..0] == [];
    } else {
      var s := Dec(n / 10) + [Digit(n % 10)];
      assert s[..|s| - 1] == Dec(n / 10);
      ValueOfDec(n / 10);
    }
  }

  lemma DecInjective(m: nat, n: nat)
    requires Dec(m) == Dec(n)
    ensures m == n
  {
    ValueOfDec(m);
    ValueOfDec(n);
  }

  /** A numeral contains no character that is not a digit. */
  lemma DecLacks(n: nat, c: char)
    requires !IsDigit(c)
    ensures c !in Dec(n)
  {
  }

  // ----- White space (strings.TrimSpace, unicode.IsSpace) -----

  predicate IsSpace(c: char) {
    || '\U{9}' <= c <= '\U{D}' || c == ' ' || c == '\U{85}' || c == '\U{A0}' || c == '\U{1680}'
    || '\U{2000}' <= c <= '\U{200A}' || c == '\U{2028}' || c == '\U{2029}' || c == '\U{202F}'
    || c == '\U{205F}' || c == '\U{3000}'
  }

  /** No white space at either end, which is what TrimSpace leaves. */
  predicate Tight(s: string) { s != [] ==> !IsSpace(s[0]) && !IsSpace(s[|s| - 1]) }

  function TrimSpace(s: string): string {
    if s == [] then []
    else if IsSpace(s[0]) then TrimSpace(s[1..])
    else if IsSpace(s[|s| - 1]) then TrimSpace(s[..|s| - 1])
    else s
  }

  lemma TightIsTrimmed(s: string)
    requires Tight(s)
    ensures TrimSpace(s) == s
  {
  }

  /** `t` is `s` without its first `left` and its last `right` characters, which are white space. */
  predicate SpaceAround(s: string, t: string, left: nat, right: nat) {
    && |s| == left + |t| + right
    && (forall k :: 0 <= k < |t| ==> t[k] == s[left + k])
    && (forall k :: 0 <= k < left ==> IsSpace(s[k]))
    && (forall k :: |s| - right <= k < |s| ==> IsSpace(s[k]))
  }

  /** Only white space at the ends goes, and none of it stays. */
  lemma {:induction false} TrimSpaceTrims(s: string) returns (left: nat, right: nat)
    ensures SpaceAround(s, TrimSpace(s), left, right) && Tight(TrimSpace(s))
  {
    left, right := 0, 0;
    if s != "" && IsSpace(s[0]) {
      left, right := TrimSpaceTrims(s[1..]);
      OneMoreLeft(s, TrimSpace(s), left, right);
      left := left + 1;
    } else if s != "" && IsSpace(s[|s| - 1]) {
      left, right := TrimSpaceTrims(s[..|s| - 1]);
      right := right + 1;
    }
  }

  lemma OneMoreLeft(s: string, t: string, left: nat, right: nat)
    requires s != "" && IsSpace(s[0]) && SpaceAround(s[1..], t, left, right)
    ensures SpaceAround(s, t, left + 1, right)
  {
    forall k | 0 <= k < |s| - 1 ensures s[1..][k] == s[k + 1] {
    }
    forall k | 1 <= k < left + 1 ensures IsSpace(s[k]) {
      assert IsSpace(s[1..][k - 1]);
    }
    forall k | |s| - right <= k < |s| ensures IsSpace(s[k]) {
      assert IsSpace(s[1..][k - 1]);
    }
  }
}
