/**
 Character classes and C-string conventions shared by every parser of the
 simulation-specification reader.

 A C string is modelled as the `seq<char>` of the characters before its
 terminating NUL, one Dafny `char` per C `char` byte (characters above 0xFF
 have no C counterpart, and lengths count bytes); the C-locale `isspace` and
 `isdigit` classes are spelled out.
 Fixed-width C integers are subset types of `nat`, and every wrap-around is
 written explicitly where it happens.
 */
module CText {

  datatype Option<+T> = None | Some(value: T)

  const TWO_64: nat := 0x1_0000_0000_0000_0000

  /** `uint64_t` */
  type U64 = x: nat | x < TWO_64

  /** `uint8_t` */
  type Byte = x: nat | x < 256

  const NUL: char := '\0'

  /** The C-locale `isspace` set: space, \t, \n, \v, \f, \r. */
  predicate IsSpace(c: char) {
    c == ' ' || c == '\t' || c == '\n' || c == '\U{0B}' || c == '\U{0C}' || c == '\r'
  }

  /** The C `isdigit` set. */
  predicate IsDigit(c: char) {
    '0' <= c <= '9'
  }

  function DigitValue(c: char): (d: nat)
    requires IsDigit(c)
    ensures d < 10
  {
    c as int - '0' as int
  }

  /** The digit character for a value below ten; inverse of DigitValue. */
  function DigitChar(d: nat): (c: char)
    requires d < 10
    ensures IsDigit(c) && DigitValue(c) == d
  {
    ('0' as int + d) as char
  }

  predicate AllDigits(s: string) {
    forall i :: 0 <= i < |s| ==> IsDigit(s[i])
  }

  predicate NulFree(s: string) {
    forall i :: 0 <= i < |s| ==> s[i] != NUL
  }

  /** What `strlen` sees of a buffer: the characters before its first NUL. */
  function CString(buf: string): (r: string)
    ensures r <= buf
    ensures NulFree(r)
    ensures |r| < |buf| ==> buf[|r|] == NUL
  {
    if |buf| == 0 || buf[0] == NUL then [] else [buf[0]] + CString(buf[1..])
  }

  /** The number of leading digits: where a `while (isdigit(val[i])) i++` scan stops. */
  function DigitRun(s: string): (n: nat)
    ensures n <= |s|
    ensures AllDigits(s[..n])
    ensures n < |s| ==> !IsDigit(s[n])
  {
    if |s| == 0 || !IsDigit(s[0]) then 0
    else
      var n := 1 + DigitRun(s[1..]);
      assert s[..n] == [s[0]] + s[1..][..n - 1];
      n
  }

  /** The scan result is determined by its three defining facts. */
  lemma DigitRunUnique(s: string, n: nat)
    requires n <= |s| && AllDigits(s[..n])
    requires n < |s| ==> !IsDigit(s[n])
    ensures DigitRun(s) == n
  {
    var m := DigitRun(s);
    assert forall j :: 0 <= j < n ==> s[..n][j] == s[j];
    assert forall j :: 0 <= j < m ==> s[..m][j] == s[j];
  }

  /** The loop of the line driver that drops trailing `isspace` characters. */
  function TrimEnd(s: string): (r: string)
    ensures r <= s
    ensures |r| == 0 || !IsSpace(r[|r| - 1])
    ensures forall i :: |r| <= i < |s| ==> IsSpace(s[i])
  {
    if |s| > 0 && IsSpace(s[|s| - 1]) then TrimEnd(s[..|s| - 1]) else s
  }

  /** The `while (isspace(*p)) p++` loop of the dispatcher, as the index where it
      stops when started at index `i` of `s`. */
  function SkipSpace(s: string, i: nat): (k: nat)
    requires i <= |s|
    ensures i <= k <= |s|
    ensures k < |s| ==> !IsSpace(s[k])
    ensures forall j :: i <= j < k ==> IsSpace(s[j])
    decreases |s| - i
  {
    if i < |s| && IsSpace(s[i]) then SkipSpace(s, i + 1) else i
  }

  /** The scan result is determined by its defining facts. */
  lemma SkipSpaceUnique(s: string, i: nat, k: nat)
    requires i <= k <= |s|
    requires k < |s| ==> !IsSpace(s[k])
    requires forall j :: i <= j < k ==> IsSpace(s[j])
    ensures SkipSpace(s, i) == k
  {
  }
}
