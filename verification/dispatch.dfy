/**
 `parse_param` and the value parsers it owns: the text copy, the file-name
 copy with its Windows slash rewrite, and the congestion-control lookup.

 Each step reports success and the record as the C code leaves it, so a
 failing step keeps whatever it wrote before failing (a partly written
 connection identifier, a NULL algorithm).
 */
module Dispatch {
  import opened CText
  import opened SimSpec
  import Numbers
  import ConnectionId

  /** What the parser depends on but cannot see:
      `lookupCc` is `picoquic_get_congestion_algorithm` over the registry,
      `windows` selects the `_WINDOWS` build of `parse_file_name`, and
      `staleNul(n)` says whether the byte that `parse_cid` reads past the end
      of a short identifier on line `n` happens to be NUL. */
  datatype Env = Env(lookupCc: string -> Option<CcHandle>, windows: bool, staleNul: nat -> bool)

  /** The return code (`ok` is `ret == 0`) and the record after one step. */
  datatype Step = Step(ok: bool, spec: Spec)

  /** `parse_text`: a heap copy of the value. The guard `val > 0` compares the
      address, never the length, so an empty value yields an empty string. */
  function ParseText(val: string): (r: Text)
    ensures r.Some? && |r.value| == |val|
    ensures forall i :: 0 <= i < |val| ==> r.value[i] == val[i]
  {
    Some(val)
  }

  /** The character `parse_file_name` stores for `c`. */
  function Whack(c: char, windows: bool): char {
    if windows && c == '/' then '\\' else c
  }

  /** The copy loop of the Windows `parse_file_name`. */
  function WhackAll(val: string, windows: bool): (r: string)
    ensures |r| == |val|
    ensures !windows ==> r == val
    ensures windows ==> forall i :: 0 <= i < |r| ==> r[i] != '/'
    ensures forall i :: 0 <= i < |r| && val[i] != '/' ==> r[i] == val[i]
    ensures forall i :: 0 <= i < |r| && val[i] == '/' ==> r[i] == (if windows then '\\' else '/')
  {
    if |val| == 0 then [] else [Whack(val[0], windows)] + WhackAll(val[1..], windows)
  }

  /** `parse_file_name`: the text copy, after the slash rewrite on Windows. */
  function ParseFileName(val: string, windows: bool): (r: Text)
    ensures r.Some? && |r.value| == |val|
    ensures !windows ==> r == ParseText(val)
    ensures windows ==> forall i :: 0 <= i < |val| ==> r.value[i] != '/'
    ensures forall i :: 0 <= i < |val| ==> r.value[i] == (if windows && val[i] == '/' then '\\' else val[i])
  {
    ParseText(WhackAll(val, windows))
  }

  /** The value parser of field `f` applied to `val` (the `switch` of `parse_param`). */
  function ApplyValue(env: Env, staleNul: bool, s: Spec, f: Field, val: string): (r: Step)
    requires NulFree(val)
    ensures forall g :: g != f ==> Get(r.spec, g) == Get(s, g)
    ensures ParserOf(f) == U64Parser ==>
              (r.ok <==> AllDigits(val)) &&
              (r.ok ==> r.spec == With(s, f, U64Val(Numbers.DecimalValue(val) % TWO_64))) &&
              (!r.ok ==> r.spec == s)
    ensures ParserOf(f) == IntParser ==>
              (r.ok <==> AllDigits(val) && Numbers.DecimalValue(val) % TWO_64 <= Numbers.INT_CAP) &&
              (r.ok ==> r.spec == With(s, f, IntVal(Numbers.DecimalValue(val) % TWO_64))) &&
              (!r.ok ==> r.spec == s)
    ensures ParserOf(f) == DoubleParser ==>
              (r.ok <==> Numbers.DecimalText(val)) && (!r.ok ==> r.spec == s) &&
              (AllDigits(val) ==> Get(r.spec, f) == RealVal(Numbers.DecimalValue(val) as real)) &&
              (forall p :: Numbers.DotAt(val, p) ==>
                 Get(r.spec, f) == RealVal(Numbers.FixedPoint(val[..p], val[p + 1..])))
    ensures ParserOf(f) == TextParser ==> r.ok && r.spec == With(s, f, TextVal(Some(val)))
    ensures ParserOf(f) == FileNameParser ==>
              r.ok && Get(r.spec, f).t.Some? && |Get(r.spec, f).t.value| == |val| &&
              forall i :: 0 <= i < |val| ==>
                Get(r.spec, f).t.value[i] == (if env.windows && val[i] == '/' then '\\' else val[i])
    ensures ParserOf(f) == CcAlgoParser ==>
              (r.ok <==> env.lookupCc(val).Some?) && Get(r.spec, f) == AlgoVal(env.lookupCc(val))
    ensures ParserOf(f) == CidParser ==>
              (r.ok <==> ConnectionId.AllAlnum(val) && (|val| == 8 || (|val| < 8 && staleNul))) &&
              Get(r.spec, f) == CidVal(ConnectionId.ParseCid(Get(s, f).c, val, staleNul).cid)
  {
    match ParserOf(f)
    case U64Parser =>
      var v := Numbers.ParseU64(val);
      if v.Some? then Step(true, With(s, f, U64Val(v.value))) else Step(false, s)
    case IntParser =>
      var v := Numbers.ParseInt(val);
      if v.Some? then Step(true, With(s, f, IntVal(v.value))) else Step(false, s)
    case DoubleParser =>
      var v := Numbers.ParseDouble(val);
      if v.Some? then Step(true, With(s, f, RealVal(v.value))) else Step(false, s)
    case TextParser =>
      Step(true, With(s, f, TextVal(ParseText(val))))
    case FileNameParser =>
      Step(true, With(s, f, TextVal(ParseFileName(val, env.windows))))
    case CcAlgoParser =>
      var h := env.lookupCc(val);
      Step(h.Some?, With(s, f, AlgoVal(h)))
    case CidParser =>
      var c := ConnectionId.ParseCid(Get(s, f).c, val, staleNul);
      Step(c.ok, With(s, f, CidVal(c.cid)))
  }

  /** `rest` is `isspace*` then ':' : the shape `parse_param` requires before the value. */
  predicate HasColon(rest: string) {
    exists n :: 0 <= n < |rest| && rest[n] == ':' && forall i :: 0 <= i < n ==> IsSpace(rest[i])
  }

  /** Where the value starts in the text after the keyword: past blanks, ':' and
      blanks; `None` when the first non-blank is not ':'. */
  function ValueStart(rest: string): (r: Option<nat>)
    ensures r.Some? ==> 0 < r.value <= |rest|
    ensures r.Some? && r.value < |rest| ==> !IsSpace(rest[r.value])
  {
    var m := SkipSpace(rest, 0);
    if m == |rest| || rest[m] != ':' then None else Some(SkipSpace(rest, m + 1))
  }

  /** The text `parse_param` hands to the value parser. */
  function ValueText(rest: string): (r: Option<string>)
    ensures r.Some? ==> |r.value| < |rest| && r.value == rest[|rest| - |r.value|..]
    ensures r.Some? ==> |r.value| == 0 || !IsSpace(r.value[0])
  {
    match ValueStart(rest)
    case None => None
    case Some(k) => Some(rest[k..])
  }

  /** `parse_param`: skip blanks, require ':', skip blanks, then parse the value. */
  function ParseParam(env: Env, staleNul: bool, s: Spec, f: Field, rest: string): (r: Step)
    requires NulFree(rest)
    ensures !HasColon(rest) ==> r == Step(false, s)
    ensures forall g :: g != f ==> Get(r.spec, g) == Get(s, g)
  {
    ValueTextIffColon(rest);
    match ValueText(rest)
    case None => Step(false, s)
    case Some(val) =>
      SuffixNulFree(rest, |rest| - |val|);
      ApplyValue(env, staleNul, s, f, val)
  }

  /* ---------------------------------------------------------------- lemmas */

  /** A tail of a NUL-free text is NUL-free. */
  lemma SuffixNulFree(s: string, k: nat)
    requires NulFree(s) && k <= |s|
    ensures NulFree(s[k..])
  {
    forall i | 0 <= i < |s| - k ensures s[k..][i] != NUL {
      assert s[k..][i] == s[k + i];
    }
  }

  /** `parse_param` finds a value exactly when the text after the keyword is blanks and then ':'. */
  lemma ValueTextIffColon(rest: string)
    ensures ValueText(rest).Some? <==> HasColon(rest)
  {
    var m := SkipSpace(rest, 0);
    if m < |rest| && rest[m] == ':' {
      assert HasColon(rest);
    }
    if n :| 0 <= n < |rest| && rest[n] == ':' && forall i :: 0 <= i < n ==> IsSpace(rest[i]) {
      SkipSpaceUnique(rest, 0, n);
    }
  }

  /** A parameter written as blanks, ':', blanks and a value hands exactly that value to the field's parser. */
  lemma ParamLayout(sp1: string, sp2: string, val: string)
    requires forall i :: 0 <= i < |sp1| ==> IsSpace(sp1[i])
    requires forall i :: 0 <= i < |sp2| ==> IsSpace(sp2[i])
    requires |val| == 0 || !IsSpace(val[0])
    ensures ValueText(sp1 + ":" + sp2 + val) == Some(val)
  {
    var rest := sp1 + ":" + sp2 + val;
    var c := |sp1|;
    var k := c + 1 + |sp2|;
    LayoutIndex(sp1, sp2, val);
    SkipSpaceUnique(rest, 0, c);
    SkipSpaceUnique(rest, c + 1, k);
    assert rest[k..] == val;
  }

  /** Where each part of blanks, ':', blanks and a value sits in the concatenation. */
  lemma LayoutIndex(sp1: string, sp2: string, val: string)
    ensures var rest := sp1 + ":" + sp2 + val;
            && |rest| == |sp1| + 1 + |sp2| + |val|
            && (forall i :: 0 <= i < |sp1| ==> rest[i] == sp1[i])
            && rest[|sp1|] == ':'
            && (forall i :: 0 <= i < |sp2| ==> rest[|sp1| + 1 + i] == sp2[i])
            && (forall i :: 0 <= i < |val| ==> rest[|sp1| + 1 + |sp2| + i] == val[i])
  {
  }

  /** On every build, a name without '/' is stored unchanged. */
  lemma FileNameWithoutSlash(val: string, windows: bool)
    requires forall i :: 0 <= i < |val| ==> val[i] != '/'
    ensures ParseFileName(val, windows) == ParseText(val)
  {
    var r := ParseFileName(val, windows).value;
    assert r == val;
  }

  /** Rewriting the slashes of an already rewritten name changes nothing. */
  lemma FileNameIdempotent(val: string, windows: bool)
    ensures ParseFileName(ParseFileName(val, windows).value, windows) == ParseFileName(val, windows)
  {
    var once := ParseFileName(val, windows).value;
    if windows {
      FileNameWithoutSlash(once, windows);
    } else {
      assert once == val;
    }
  }

  /** A value text that starts with neither a blank nor ':' is refused by `parse_param`. */
  lemma ColonMustFollowBlanks(rest: string)
    requires |rest| > 0 && rest[0] != ':' && !IsSpace(rest[0])
    ensures !HasColon(rest)
  {
    forall n | 0 <= n < |rest| && rest[n] == ':'
      ensures !(forall i :: 0 <= i < n ==> IsSpace(rest[i]))
    {
      assert n > 0 && !IsSpace(rest[0]);
    }
  }

  /** `data_rate_in_gbps` given "1.5" stores 1.5. */
  lemma DataRateWithFraction(env: Env, staleNul: bool, s: Spec)
    ensures ApplyValue(env, staleNul, s, DataRateInGbps, "1.5").ok
    ensures Get(ApplyValue(env, staleNul, s, DataRateInGbps, "1.5").spec, DataRateInGbps) == RealVal(1.5)
  {
    var val := "1.5";
    assert val[..1] == "1" && val[2..] == "5";
    assert Numbers.DotAt(val, 1);
    assert Numbers.FixedPoint("1", "5") == 1.5 by {
      assert Numbers.DecimalValue("1") == 1 && Numbers.DecimalValue("5") == 5;
      assert Numbers.Pow10(1) == 10;
    }
  }

  /** `parse_int` refuses a number above 0x7ffffff (after wrap-around) and the field is not written. */
  lemma IntOutOfRange(env: Env, staleNul: bool, s: Spec, f: Field, val: string)
    requires ParserOf(f) == IntParser && NulFree(val) && AllDigits(val)
    requires Numbers.DecimalValue(val) % TWO_64 > Numbers.INT_CAP
    ensures ApplyValue(env, staleNul, s, f, val) == Step(false, s)
  {
  }
}
