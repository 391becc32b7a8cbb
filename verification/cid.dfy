/**
 `hexdigit` and `parse_cid`: the initial connection identifier of a
 simulation, written as up to sixteen "hex" characters.

 The scan is modelled as the C loop is written (state j, k, u8 and the byte
 array), and its results are characterised by closed-form layouts. The
 connection-id record keeps only the eight bytes `parse_cid` ever touches.
 */
module ConnectionId {
  import opened CText

  type CidBytes = s: seq<Byte> | |s| == 8 witness [0, 0, 0, 0, 0, 0, 0, 0]

  datatype Cid = Cid(id: CidBytes, idLen: Byte)

  /** What `parse_cid` reports, together with the identifier it leaves behind. */
  datatype CidOutcome = CidOutcome(ok: bool, cid: Cid)

  /** ASCII letters and digits: the characters `hexdigit` maps to a value. */
  predicate IsAlnum(c: char) {
    '0' <= c <= '9' || 'A' <= c <= 'Z' || 'a' <= c <= 'z'
  }

  predicate AllAlnum(s: string) {
    forall i :: 0 <= i < |s| ==> IsAlnum(s[i])
  }

  /** The conventional hexadecimal digit set. */
  predicate IsHex(c: char) {
    '0' <= c <= '9' || 'A' <= c <= 'F' || 'a' <= c <= 'f'
  }

  /** `hexdigit`: digits map to 0-9 and every letter, in either case, to 10 plus
      its position in the alphabet (so 'G'..'Z' give 16..35); anything else is -1. */
  function HexDigit(c: char): (y: int)
    ensures -1 <= y <= 35
    ensures y >= 0 <==> IsAlnum(c)
  {
    if '0' <= c <= '9' then c as int - '0' as int
    else if 'A' <= c <= 'Z' then 10 + c as int - 'A' as int
    else if 'a' <= c <= 'z' then 10 + c as int - 'a' as int
    else -1
  }

  /** The standard value of a hexadecimal digit, as an independent table. */
  function StandardHexValue(c: char): nat
    requires IsHex(c)
  {
    match c
    case 'a' => 10 case 'b' => 11 case 'c' => 12 case 'd' => 13 case 'e' => 14 case 'f' => 15
    case 'A' => 10 case 'B' => 11 case 'C' => 12 case 'D' => 13 case 'E' => 14 case 'F' => 15
    case _ => c as int - '0' as int
  }

  /* ------------------------------------------------------- the C loop */

  /** The locals of the `parse_cid` loop: byte index j, nibble count k, the
      pending value u8, and the identifier bytes written so far. */
  datatype CidScan = CidScan(j: nat, k: nat, u8: int, id: CidBytes)

  /** The outcome of the `while (val[i] != 0)` loop: did it run off the end without a `break`? */
  datatype ScanResult = ScanResult(completed: bool, state: CidScan)

  /** The loop of `parse_cid` from character `i` onwards. */
  function CidLoop(val: string, i: nat, st: CidScan): ScanResult
    requires i <= |val|
    decreases |val| - i
  {
    if i == |val| then ScanResult(true, st)
    else
      var hx := HexDigit(val[i]);
      if hx < 0 then ScanResult(false, st)
      else if st.j >= 8 then ScanResult(false, st)
      else
        var u8 := st.u8 + hx;
        if st.k + 1 == 2 then
          CidLoop(val, i + 1, CidScan(st.j + 1, 0, 0, st.id[st.j := u8 % 256]))
        else
          CidLoop(val, i + 1, CidScan(st.j, st.k + 1, u8 * 16, st.id[st.j := (u8 * 16) % 256]))
  }

  /** Reads `val[at]` the way C does; at the terminator this is NUL, and
      beyond it the stale buffer byte, of which only "is it NUL" is known. */
  function ReadsNul(val: string, at: nat, staleNul: bool): bool {
    if at < |val| then val[at] == NUL else if at == |val| then true else staleNul
  }

  /** `parse_cid` as written: the scan loop, the zero fill starting one past
      the last byte index, `id_len = 8`, and the final `val[j] != 0` test. */
  function ParseCid(cid: Cid, val: string, staleNul: bool): (r: CidOutcome)
    requires NulFree(val)
    ensures r.ok <==> AllAlnum(val) && (|val| == 8 || (|val| < 8 && staleNul))
    ensures AllAlnum(val) && |val| <= 16 ==> r.cid == Cid(Filled(cid.id, val), 8)
    ensures !(AllAlnum(val) && |val| <= 16) ==>
              r.cid == Cid(Scanned(cid.id, val, ScanStop(val)), cid.idLen)
  {
    var scan := CidLoop(val, 0, CidScan(0, 0, 0, cid.id));
    CidLoopLayout(cid.id, val);
    if !scan.completed then
      CidOutcome(false, cid.(id := scan.state.id))
    else
      var j := scan.state.j + 1;
      var id: CidBytes := seq(8, b requires 0 <= b < 8 => if b < j then scan.state.id[b] else 0);
      var last := if j < 8 then 8 else j;
      assert id == Filled(cid.id, val);
      CidOutcome(ReadsNul(val, last, staleNul), Cid(id, 8))
  }

  /* ------------------------------------------------------- closed forms */

  /** The byte built from the characters at 2b and 2b+1. */
  function PairByte(val: string, b: nat): Byte
    requires 2 * b + 1 < |val| && IsAlnum(val[2 * b]) && IsAlnum(val[2 * b + 1])
  {
    (16 * HexDigit(val[2 * b]) + HexDigit(val[2 * b + 1])) % 256
  }

  /** The byte left by a lone trailing character: its value in the high nibble. */
  function HighNibble(c: char): Byte
    requires IsAlnum(c)
  {
    (16 * HexDigit(c)) % 256
  }

  /** How many characters the loop consumes: it stops at the first character
      that is not a letter or digit, or at the seventeenth. */
  function ScanStop(val: string): (n: nat)
    ensures n <= |val| && n <= 16
    ensures AllAlnum(val[..n])
    ensures n < |val| && n < 16 ==> !IsAlnum(val[n])
  {
    if |val| == 0 || !IsAlnum(val[0]) then 0
    else if |val| > 1 && ScanStop(val[1..]) == 16 then 16
    else
      var n := 1 + ScanStop(val[1..]);
      assert val[..n] == [val[0]] + val[1..][..n - 1];
      n
  }

  /** The bytes once the first `i` characters are scanned: complete pairs,
      then a pending high nibble if `i` is odd, then the bytes as they were. */
  function Scanned(id0: CidBytes, val: string, i: nat): CidBytes
    requires i <= |val| && i <= 16 && AllAlnum(val[..i])
  {
    seq(8, b requires 0 <= b < 8 =>
      if b < i / 2 then
        assert val[..i][2 * b] == val[2 * b] && val[..i][2 * b + 1] == val[2 * b + 1];
        PairByte(val, b)
      else if b == i / 2 && i % 2 == 1 then
        assert val[..i][i - 1] == val[i - 1];
        HighNibble(val[i - 1])
      else id0[b])
  }

  /** The bytes `parse_cid` leaves after a complete scan of n <= 16 characters:
      byte b < n/2 is the pair (2b, 2b+1); for odd n byte n/2 is the last
      character's high nibble; for even n < 16 byte n/2 keeps its old value;
      every later byte is zero. */
  function Filled(id0: CidBytes, val: string): CidBytes
    requires |val| <= 16 && AllAlnum(val)
  {
    var n := |val|;
    assert val[..n] == val;
    var full := Scanned(id0, val, n);
    var bytes: seq<Byte> := seq(8, b requires 0 <= b < 8 => if b <= n / 2 then full[b] else 0);
    bytes
  }

  /** The loop state after `i` characters, all of them letters or digits. */
  function StateAt(id0: CidBytes, val: string, i: nat): CidScan
    requires i <= |val| && i <= 16 && AllAlnum(val[..i])
  {
    CidScan(i / 2, i % 2, if i % 2 == 1 then 16 * HexDigit(val[i - 1]) else 0, Scanned(id0, val, i))
  }

  /* ------------------------------------------------------- lemmas */

  /** One turn of the loop moves StateAt(i) to StateAt(i + 1). */
  lemma CidLoopStep(id0: CidBytes, val: string, i: nat)
    requires i < |val| && i < 16 && AllAlnum(val[..i + 1])
    ensures AllAlnum(val[..i])
    ensures CidLoop(val, i, StateAt(id0, val, i)) == CidLoop(val, i + 1, StateAt(id0, val, i + 1))
  {
    assert val[..i + 1][..i] == val[..i];
    assert val[..i + 1][i] == val[i];
    var st := StateAt(id0, val, i);
    var hx := HexDigit(val[i]);
    var u8 := st.u8 + hx;
    var next := StateAt(id0, val, i + 1);
    if i % 2 == 1 {
      var id := st.id[st.j := u8 % 256];
      assert id == next.id;
    } else {
      var id := st.id[st.j := (u8 * 16) % 256];
      assert id == next.id;
    }
  }

  /** The loop reaches StateAt(i) for every i up to where it stops. */
  lemma {:induction false} CidLoopReaches(id0: CidBytes, val: string, i: nat)
    requires i <= ScanStop(val)
    ensures AllAlnum(val[..i])
    ensures CidLoop(val, 0, CidScan(0, 0, 0, id0)) == CidLoop(val, i, StateAt(id0, val, i))
  {
    var stop := ScanStop(val);
    assert val[..stop][..i] == val[..i];
    if i == 0 {
      assert Scanned(id0, val, 0) == id0;
    } else {
      CidLoopReaches(id0, val, i - 1);
      assert val[..stop][..i] == val[..i];
      CidLoopStep(id0, val, i - 1);
    }
  }

  /** Where the loop ends: complete exactly for alphanumeric text of at most
      sixteen characters, and in every case with the StateAt(ScanStop) bytes. */
  lemma CidLoopLayout(id0: CidBytes, val: string)
    ensures var scan := CidLoop(val, 0, CidScan(0, 0, 0, id0));
            && (scan.completed <==> AllAlnum(val) && |val| <= 16)
            && scan.state == StateAt(id0, val, ScanStop(val))
  {
    var stop := ScanStop(val);
    CidLoopReaches(id0, val, stop);
    if stop == |val| {
      assert val[..stop] == val;
    } else if stop < 16 {
      assert !IsAlnum(val[stop]);
    } else {
      assert !(|val| <= 16);
    }
  }

  /** `hexdigit` agrees with the standard hexadecimal value on every hex digit. */
  lemma HexDigitOnHex(c: char)
    requires IsHex(c)
    ensures HexDigit(c) == StandardHexValue(c)
  {
  }

  /** `hexdigit` is case-insensitive and goes on past 'F': 'G' is 16 and 'z' is 35. */
  lemma HexDigitBeyondF(c: char)
    requires 'A' <= c <= 'Z'
    ensures HexDigit(c) == HexDigit((c as int + 32) as char) == 10 + (c as int - 'A' as int)
    ensures HexDigit('G') == 16 && HexDigit('z') == 35
  {
  }

  /** Sixteen characters fill all eight bytes, yet the `val[j]` test at j = 9 still rejects them. */
  lemma CidSixteenRejected(cid: Cid, val: string, staleNul: bool)
    requires NulFree(val) && AllAlnum(val) && |val| == 16
    ensures var r := ParseCid(cid, val, staleNul);
            && !r.ok
            && r.cid.idLen == 8
            && forall b :: 0 <= b < 8 ==> r.cid.id[b] == PairByte(val, b)
  {
    var r := ParseCid(cid, val, staleNul);
    forall b | 0 <= b < 8
      ensures r.cid.id[b] == PairByte(val, b)
    {
      assert val[..16] == val;
      assert r.cid.id == Filled(cid.id, val);
      assert Filled(cid.id, val)[b] == Scanned(cid.id, val, 16)[b];
    }
  }

  /** An even length below sixteen leaves byte n/2 as it was instead of zeroing it. */
  lemma CidEvenLengthKeepsByte(cid: Cid, val: string, staleNul: bool)
    requires NulFree(val) && AllAlnum(val) && |val| < 16 && |val| % 2 == 0
    ensures ParseCid(cid, val, staleNul).cid.id[|val| / 2] == cid.id[|val| / 2]
  {
    var n := |val|;
    assert val[..n] == val;
    assert Filled(cid.id, val)[n / 2] == Scanned(cid.id, val, n)[n / 2];
  }
}
