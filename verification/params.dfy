/**
 The parameter table `params[]` and the first-match classification the line
 driver performs with it.
 */
module ParamTable {
  import opened CText
  import opened SimSpec

  /** One `spec_param_t` row: the field tag, the keyword, and its stored length `p_len`. */
  datatype Param = Param(tag: Field, name: string, len: nat)

  /** `params[]`, in table order. */
  const Params: seq<Param> := [
    Param(MainStartTime, "main_start_time", 15),
    Param(MainTargetTime, "main_target_time", 16),
    Param(BackgroundStartTime, "background_start_time", 21),
    Param(MainScenarioText, "main_scenario_text", 18),
    Param(BackgroundScenarioText, "background_scenario_text", 24),
    Param(MainCcAlgo, "main_cc_algo", 12),
    Param(MainCcOptions, "main_cc_options", 15),
    Param(BackgroundCcAlgo, "background_cc_algo", 18),
    Param(BackgroundCcOptions, "background_cc_options", 21),
    Param(NbConnections, "nb_connections", 14),
    Param(DataRateInGbps, "data_rate_in_gbps", 17),
    Param(Latency, "latency", 7),
    Param(Jitter, "jitter", 6),
    Param(QueueDelayMax, "queue_delay_max", 15),
    Param(L4sMax, "l4s_max", 7),
    Param(Icid, "icid", 4),
    Param(QlogDir, "qlog_dir", 8),
    Param(QperfLog, "qperf_log", 9),
    Param(MediaStatsStart, "media_stats_start", 17),
    Param(MediaExcluded, "media_excluded", 14),
    Param(MediaLatencyAverage, "media_latency_average", 21),
    Param(MediaLatencyMax, "media_latency_max", 17)
  ]

  /** The driver's test for a row: `len > p_len && strncmp(line, p_name, p_len) == 0`. */
  predicate Matches(p: Param, line: string) {
    |line| > p.len && p.len <= |p.name| && line[..p.len] == p.name[..p.len]
  }

  /** `name` is a proper prefix of `line`. */
  predicate StrictPrefix(name: string, line: string) {
    |name| < |line| && line[..|name|] == name
  }

  /** The first row, from index `i` on, that matches `line`. */
  function ClassifyFrom(line: string, i: nat): (r: Option<Param>)
    requires i <= |Params|
    ensures r.Some? ==> r.value in Params[i..] && Matches(r.value, line)
    ensures r.None? ==> forall k :: i <= k < |Params| ==> !Matches(Params[k], line)
    decreases |Params| - i
  {
    if i == |Params| then None
    else if Matches(Params[i], line) then Some(Params[i])
    else ClassifyFrom(line, i + 1)
  }

  /** The `for` loop over `params[]` in `parse_spec_file`: the first matching row, if any. */
  function Classify(line: string): (r: Option<Param>)
    ensures r.Some? ==> r.value in Params && Matches(r.value, line)
    ensures r.None? ==> forall k :: 0 <= k < |Params| ==> !Matches(Params[k], line)
  {
    ClassifyFrom(line, 0)
  }

  /** `a[i..]` is a prefix of `b[i..]`: a character-by-character prefix test. */
  predicate PrefixFrom(a: string, b: string, i: nat)
    decreases |a| - i
  {
    i >= |a| || (i < |b| && a[i] == b[i] && PrefixFrom(a, b, i + 1))
  }

  /** Where each field's row sits in `params[]`. */
  function RowOf(f: Field): (k: nat)
    ensures k < |Params|
  {
    match f
    case MainStartTime => 0
    case MainTargetTime => 1
    case BackgroundStartTime => 2
    case MainScenarioText => 3
    case BackgroundScenarioText => 4
    case MainCcAlgo => 5
    case MainCcOptions => 6
    case BackgroundCcAlgo => 7
    case BackgroundCcOptions => 8
    case NbConnections => 9
    case DataRateInGbps => 10
    case Latency => 11
    case Jitter => 12
    case QueueDelayMax => 13
    case L4sMax => 14
    case Icid => 15
    case QlogDir => 16
    case QperfLog => 17
    case MediaStatsStart => 18
    case MediaExcluded => 19
    case MediaLatencyAverage => 20
    case MediaLatencyMax => 21
  }

  /* ---------------------------------------------------------------- lemmas */

  /** Every stored `p_len` is the length of its keyword. */
  lemma LengthsAreExact()
    ensures forall k :: 0 <= k < |Params| ==> Params[k].len == |Params[k].name|
  {
  }

  /** Each field has exactly one row, the one at RowOf. */
  lemma EachFieldHasOneRow(f: Field)
    ensures Params[RowOf(f)].tag == f
    ensures forall k :: 0 <= k < |Params| && Params[k].tag == f ==> k == RowOf(f)
  {
    RowOfIndexesTable(RowOf(f));
    RowOfInjective(Params[RowOf(f)].tag, f);
    forall k | 0 <= k < |Params| && Params[k].tag == f
      ensures k == RowOf(f)
    {
      RowOfIndexesTable(k);
    }
  }

  lemma RowOfInjective(f: Field, g: Field)
    requires RowOf(f) == RowOf(g)
    ensures f == g
  {
  }

  lemma RowOfIndexesTable(k: nat)
    requires k < |Params|
    ensures RowOf(Params[k].tag) == k
  {
    if k < 6 { RowOfRows0To5(k); }
    else if k < 11 { RowOfRows6To10(k); }
    else if k < 17 { RowOfRows11To16(k); }
    else { RowOfRows17To21(k); }
  }

  lemma RowOfRows0To5(k: nat)
    requires k < 6
    ensures RowOf(Params[k].tag) == k
  {
    if k == 0 {} else if k == 1 {} else if k == 2 {} else if k == 3 {} else if k == 4 {} else if k == 5 {}
  }

  lemma RowOfRows6To10(k: nat)
    requires 6 <= k < 11
    ensures RowOf(Params[k].tag) == k
  {
    if k == 6 {} else if k == 7 {} else if k == 8 {} else if k == 9 {} else if k == 10 {}
  }

  lemma RowOfRows11To16(k: nat)
    requires 11 <= k < 17
    ensures RowOf(Params[k].tag) == k
  {
    if k == 11 {} else if k == 12 {} else if k == 13 {} else if k == 14 {} else if k == 15 {} else if k == 16 {}
  }

  lemma RowOfRows17To21(k: nat)
    requires 17 <= k < 22
    ensures RowOf(Params[k].tag) == k
  {
    if k == 17 {} else if k == 18 {} else if k == 19 {} else if k == 20 {} else if k == 21 {}
  }

  /** The character test agrees with Dafny's prefix relation. */
  lemma {:induction false} PrefixFromIsPrefix(a: string, b: string, i: nat)
    requires i <= |a| && i <= |b| && a[..i] == b[..i]
    ensures PrefixFrom(a, b, i) <==> a <= b
    decreases |a| - i
  {
    if i < |a| && i < |b| && a[i] == b[i] {
      assert a[..i + 1] == a[..i] + [a[i]] && b[..i + 1] == b[..i] + [b[i]];
      PrefixFromIsPrefix(a, b, i + 1);
    } else if i < |a| && i < |b| {
      assert a[..i + 1][i] != b[..i + 1][i];
    }
  }

  /** A successful test from `i` is also successful from any later `k`. */
  lemma {:induction false} PrefixFromLater(a: string, b: string, i: nat, k: nat)
    requires i <= k && PrefixFrom(a, b, i)
    ensures PrefixFrom(a, b, k)
    decreases k - i
  {
    if i < k && i < |a| {
      PrefixFromLater(a, b, i + 1, k);
    }
  }

  /** Two keywords that differ at some position before either ends are not prefixes of each other. */
  lemma CharDiffers(a: string, b: string, j: nat)
    requires j < |a| && j < |b| && a[j] != b[j]
    ensures !PrefixFrom(a, b, 0)
  {
    if PrefixFrom(a, b, 0) {
      PrefixFromLater(a, b, 0, j);
    }
  }

  /** The `main_` rows, which all part at the ninth character. */
  lemma MainRows(a: nat, b: nat)
    requires a in {0, 1, 3, 5, 6} && b in {0, 1, 3, 5, 6} && a != b
    ensures !PrefixFrom(Params[a].name, Params[b].name, 0)
  {
    CharDiffers(Params[a].name, Params[b].name, 8);
  }

  /** The `media_` rows, except the two `media_latency_` rows against each other: they part at the seventh character. */
  lemma MediaRows(a: nat, b: nat)
    requires a in {18, 19, 20, 21} && b in {18, 19, 20, 21} && a != b
    requires !(a in {20, 21} && b in {20, 21})
    ensures !PrefixFrom(Params[a].name, Params[b].name, 0)
  {
    CharDiffers(Params[a].name, Params[b].name, 6);
  }

  /** The two `media_latency_` rows, which share fourteen characters and part at the fifteenth. */
  lemma MediaLatencyRows(a: nat, b: nat)
    requires a in {20, 21} && b in {20, 21} && a != b
    ensures !PrefixFrom(Params[a].name, Params[b].name, 0)
  {
    CharDiffers(Params[a].name, Params[b].name, 14);
  }

  /** The `background_` rows, which share eleven characters and part at the fifteenth. */
  lemma BackgroundRows(a: nat, b: nat)
    requires a in {2, 4, 7, 8} && b in {2, 4, 7, 8} && a != b
    ensures !PrefixFrom(Params[a].name, Params[b].name, 0)
  {
    CharDiffers(Params[a].name, Params[b].name, 14);
  }

  /** The remaining rows with a shared first letter, 'l' and 'q', which part at the second. */
  lemma LAndQRows(a: nat, b: nat)
    requires ((a in {11, 14} && b in {11, 14}) || (a in {13, 16, 17} && b in {13, 16, 17})) && a != b
    ensures !PrefixFrom(Params[a].name, Params[b].name, 0)
  {
    CharDiffers(Params[a].name, Params[b].name, 1);
  }

  /** The first letter of each row's keyword. */
  lemma Initial(k: nat)
    requires k < |Params|
    ensures |Params[k].name| >= 4
    ensures Params[k].name[0] ==
      if k in {0, 1, 3, 5, 6, 18, 19, 20, 21} then 'm'
      else if k in {2, 4, 7, 8} then 'b'
      else if k in {11, 14} then 'l'
      else if k in {13, 16, 17} then 'q'
      else if k == 9 then 'n' else if k == 10 then 'd' else if k == 12 then 'j' else 'i'
    ensures k in {0, 1, 3, 5, 6} ==> Params[k].name[1] == 'a'
    ensures k in {18, 19, 20, 21} ==> Params[k].name[1] == 'e'
    ensures k in {2, 4, 7, 8, 11} ==> Params[k].name[1] == 'a'
    ensures k == 14 ==> Params[k].name[1] == '4'
  {
    if k < 11 {
      if k == 0 {} else if k == 1 {} else if k == 2 {} else if k == 3 {} else if k == 4 {} else if k == 5 {}
      else if k == 6 {} else if k == 7 {} else if k == 8 {} else if k == 9 {} else if k == 10 {}
    } else {
      if k == 11 {} else if k == 12 {} else if k == 13 {} else if k == 14 {} else if k == 15 {} else if k == 16 {}
      else if k == 17 {} else if k == 18 {} else if k == 19 {} else if k == 20 {} else if k == 21 {}
    }
  }

  /** A `main_` row against every other row. */
  lemma MainRowDiffers(a: nat, b: nat)
    requires a in {0, 1, 3, 5, 6} && b < |Params| && a != b
    ensures !PrefixFrom(Params[a].name, Params[b].name, 0)
  {
    Initial(a);
    Initial(b);
    if b in {0, 1, 3, 5, 6} {
      MainRows(a, b);
    } else if b in {18, 19, 20, 21} {
      CharDiffers(Params[a].name, Params[b].name, 1);
    } else {
      CharDiffers(Params[a].name, Params[b].name, 0);
    }
  }

  /** A `media_` row against every other row. */
  lemma MediaRowDiffers(a: nat, b: nat)
    requires a in {18, 19, 20, 21} && b < |Params| && a != b
    ensures !PrefixFrom(Params[a].name, Params[b].name, 0)
  {
    Initial(a);
    Initial(b);
    if a in {20, 21} && b in {20, 21} {
      MediaLatencyRows(a, b);
    } else if b in {18, 19, 20, 21} {
      MediaRows(a, b);
    } else if b in {0, 1, 3, 5, 6} {
      CharDiffers(Params[a].name, Params[b].name, 1);
    } else {
      CharDiffers(Params[a].name, Params[b].name, 0);
    }
  }

  /** Any other row against every other row. */
  lemma OtherRowDiffers(a: nat, b: nat)
    requires a < |Params| && b < |Params| && a != b
    requires a !in {0, 1, 3, 5, 6, 18, 19, 20, 21}
    ensures !PrefixFrom(Params[a].name, Params[b].name, 0)
  {
    Initial(a);
    Initial(b);
    if a in {2, 4, 7, 8} && b in {2, 4, 7, 8} {
      BackgroundRows(a, b);
    } else if (a in {11, 14} && b in {11, 14}) || (a in {13, 16, 17} && b in {13, 16, 17}) {
      LAndQRows(a, b);
    } else {
      CharDiffers(Params[a].name, Params[b].name, 0);
    }
  }

  /** The character test fails for every pair of distinct rows. */
  lemma RowsDiffer(a: nat, b: nat)
    requires a < |Params| && b < |Params| && a != b
    ensures !PrefixFrom(Params[a].name, Params[b].name, 0)
  {
    if a in {0, 1, 3, 5, 6} {
      MainRowDiffers(a, b);
    } else if a in {18, 19, 20, 21} {
      MediaRowDiffers(a, b);
    } else {
      OtherRowDiffers(a, b);
    }
  }

  /** Keywords hold no NUL. */
  lemma KeywordIsNulFree(k: nat)
    requires k < |Params|
    ensures NulFree(Params[k].name)
  {
    if k < 11 {
      if k == 0 { NulFreeRow0(); } else if k == 1 { NulFreeRow1(); } else if k == 2 { NulFreeRow2(); }
      else if k == 3 { NulFreeRow3(); } else if k == 4 { NulFreeRow4(); } else if k == 5 { NulFreeRow5(); }
      else if k == 6 { NulFreeRow6(); } else if k == 7 { NulFreeRow7(); } else if k == 8 { NulFreeRow8(); }
      else if k == 9 { NulFreeRow9(); } else { NulFreeRow10(); }
    } else {
      if k == 11 { NulFreeRow11(); } else if k == 12 { NulFreeRow12(); } else if k == 13 { NulFreeRow13(); }
      else if k == 14 { NulFreeRow14(); } else if k == 15 { NulFreeRow15(); } else if k == 16 { NulFreeRow16(); }
      else if k == 17 { NulFreeRow17(); } else if k == 18 { NulFreeRow18(); } else if k == 19 { NulFreeRow19(); }
      else if k == 20 { NulFreeRow20(); } else { NulFreeRow21(); }
    }
  }

  /* One lemma per row keeps each literal lookup in a proof of its own. */
  lemma NulFreeRow0() ensures NulFree(Params[0].name) { assert Params[0].name == "main_start_time"; }
  lemma NulFreeRow1() ensures NulFree(Params[1].name) { assert Params[1].name == "main_target_time"; }
  lemma NulFreeRow2() ensures NulFree(Params[2].name) { assert Params[2].name == "background_start_time"; }
  lemma NulFreeRow3() ensures NulFree(Params[3].name) { assert Params[3].name == "main_scenario_text"; }
  lemma NulFreeRow4() ensures NulFree(Params[4].name) { assert Params[4].name == "background_scenario_text"; }
  lemma NulFreeRow5() ensures NulFree(Params[5].name) { assert Params[5].name == "main_cc_algo"; }
  lemma NulFreeRow6() ensures NulFree(Params[6].name) { assert Params[6].name == "main_cc_options"; }
  lemma NulFreeRow7() ensures NulFree(Params[7].name) { assert Params[7].name == "background_cc_algo"; }
  lemma NulFreeRow8() ensures NulFree(Params[8].name) { assert Params[8].name == "background_cc_options"; }
  lemma NulFreeRow9() ensures NulFree(Params[9].name) { assert Params[9].name == "nb_connections"; }
  lemma NulFreeRow10() ensures NulFree(Params[10].name) { assert Params[10].name == "data_rate_in_gbps"; }
  lemma NulFreeRow11() ensures NulFree(Params[11].name) { assert Params[11].name == "latency"; }
  lemma NulFreeRow12() ensures NulFree(Params[12].name) { assert Params[12].name == "jitter"; }
  lemma NulFreeRow13() ensures NulFree(Params[13].name) { assert Params[13].name == "queue_delay_max"; }
  lemma NulFreeRow14() ensures NulFree(Params[14].name) { assert Params[14].name == "l4s_max"; }
  lemma NulFreeRow15() ensures NulFree(Params[15].name) { assert Params[15].name == "icid"; }
  lemma NulFreeRow16() ensures NulFree(Params[16].name) { assert Params[16].name == "qlog_dir"; }
  lemma NulFreeRow17() ensures NulFree(Params[17].name) { assert Params[17].name == "qperf_log"; }
  lemma NulFreeRow18() ensures NulFree(Params[18].name) { assert Params[18].name == "media_stats_start"; }
  lemma NulFreeRow19() ensures NulFree(Params[19].name) { assert Params[19].name == "media_excluded"; }
  lemma NulFreeRow20() ensures NulFree(Params[20].name) { assert Params[20].name == "media_latency_average"; }
  lemma NulFreeRow21() ensures NulFree(Params[21].name) { assert Params[21].name == "media_latency_max"; }

  /** Row `a`'s keyword is not a prefix of row `b`'s. */
  lemma RowsNotPrefix(a: nat, b: nat)
    requires a < |Params| && b < |Params| && a != b
    ensures !(Params[a].name <= Params[b].name)
  {
    RowsDiffer(a, b);
    PrefixFromIsPrefix(Params[a].name, Params[b].name, 0);
  }

  /** No keyword is a prefix of another row's keyword. */
  lemma NoKeywordIsPrefixOfAnother()
    ensures forall a, b :: 0 <= a < |Params| && 0 <= b < |Params| && a != b ==>
              !(Params[a].name <= Params[b].name)
  {
    forall a, b | 0 <= a < |Params| && 0 <= b < |Params| && a != b
      ensures !(Params[a].name <= Params[b].name)
    {
      RowsNotPrefix(a, b);
    }
  }

  /** With exact lengths, a row matches exactly when its keyword is a proper prefix of the line. */
  lemma MatchesIsStrictPrefix(p: Param, line: string)
    requires p in Params
    ensures Matches(p, line) <==> StrictPrefix(p.name, line)
  {
    LengthsAreExact();
  }

  /** Two prefixes of the same line are prefixes of each other, one way or the other. */
  lemma PrefixesOfOneLine(a: string, b: string, line: string)
    requires a <= line && b <= line
    ensures a <= b || b <= a
  {
    if |a| <= |b| {
      assert a == line[..|a|] == b[..|a|];
    } else {
      assert b == line[..|b|] == a[..|b|];
    }
  }

  /** The scan from `i` reaches row `b` when `b`'s keyword is a proper prefix of the line. */
  lemma {:induction false} ClassifyFromFinds(line: string, i: nat, b: nat)
    requires i <= b < |Params| && StrictPrefix(Params[b].name, line)
    ensures ClassifyFrom(line, i) == Some(Params[b])
    decreases b - i
  {
    if i < b {
      EarlierRowMisses(line, i, b);
      ClassifyFromFinds(line, i + 1, b);
    } else {
      MatchesIsStrictPrefix(Params[b], line);
    }
  }

  /** A row other than `b` cannot match a line that `b`'s keyword is a proper prefix of. */
  lemma EarlierRowMisses(line: string, i: nat, b: nat)
    requires i < |Params| && b < |Params| && i != b && StrictPrefix(Params[b].name, line)
    ensures !Matches(Params[i], line)
  {
    MatchesIsStrictPrefix(Params[i], line);
    if StrictPrefix(Params[i].name, line) {
      assert Params[i].name <= line && Params[b].name <= line;
      PrefixesOfOneLine(Params[i].name, Params[b].name, line);
      RowsNotPrefix(i, b);
      RowsNotPrefix(b, i);
    }
  }

  /** Because no keyword is a prefix of another, table order does not matter:
      a line is classified to a row exactly when that row's keyword is a proper prefix of it. */
  lemma ClassifyIsOrderFree(line: string, p: Param)
    ensures Classify(line) == Some(p) <==> p in Params && StrictPrefix(p.name, line)
  {
    if p in Params && StrictPrefix(p.name, line) {
      var b :| 0 <= b < |Params| && Params[b] == p;
      ClassifyFromFinds(line, 0, b);
    }
    if Classify(line) == Some(p) {
      MatchesIsStrictPrefix(p, line);
    }
  }
}
