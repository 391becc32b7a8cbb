/**
 `parse_spec_file`: zero the record, then for each line drop the trailing
 blanks, skip it if nothing is left, classify it with the first matching row
 of `params[]`, and hand the rest of the line to `parse_param`; the first
 failure ends the file.

 The file is given as the sequence of buffers `fgets` returns, each
 possibly holding an embedded NUL.
 */
module Driver {
  import opened CText
  import opened SimSpec
  import opened ParamTable
  import opened Dispatch
  import Numbers

  /** `ret == 0` after the whole file, or the (zero-based) line whose step returned -1. */
  datatype Status = Done | FailedAt(line: nat)

  datatype Outcome = Outcome(spec: Spec, status: Status)

  /** The line the driver works on: the C string in the buffer, without trailing `isspace`. */
  function Line(raw: string): (r: string)
    ensures NulFree(r) && |r| <= |raw|
  {
    TrimEnd(CString(raw))
  }

  /** Some row's keyword is a proper prefix of `line` and that row sets `g`. */
  predicate Names(line: string, g: Field) {
    exists p :: p in Params && p.tag == g && StrictPrefix(p.name, line)
  }

  /** No line of the file names field `g`. */
  predicate NamedNowhere(lines: seq<string>, g: Field)
    decreases |lines|
  {
    |lines| == 0 || (!Names(Line(lines[0]), g) && NamedNowhere(lines[1..], g))
  }

  /** One pass of the `while` loop, for the line at index `idx`. */
  function ProcessLine(env: Env, idx: nat, s: Spec, raw: string): Step {
    var line := Line(raw);
    if |line| == 0 then
      Step(true, s)
    else
      match Classify(line)
      case None => Step(false, s)
      case Some(p) =>
        LengthsAreExact();
        ParseParam(env, env.staleNul(idx), s, p.tag, line[p.len..])
  }

  /** What one pass of the loop does to the record, given the line's index and buffer. */
  type LineStep = (nat, Spec, string) -> Step

  /** The pass of `parse_spec_file` under the given environment. */
  function StepOf(env: Env): LineStep {
    (idx: nat, s: Spec, raw: string) => ProcessLine(env, idx, s, raw)
  }

  /** The loop from line `idx` on, stopping at the first failure. */
  function Run(step: LineStep, s: Spec, lines: seq<string>, idx: nat): (r: Outcome)
    ensures r.status.FailedAt? ==> idx <= r.status.line < idx + |lines|
    decreases |lines|
  {
    if |lines| == 0 then
      Outcome(s, Done)
    else
      var st := step(idx, s, lines[0]);
      if st.ok then Run(step, st.spec, lines[1..], idx + 1) else Outcome(st.spec, FailedAt(idx))
  }

  /** `parse_spec_file` on a whole file. */
  function ParseSpecFile(env: Env, lines: seq<string>): (r: Outcome)
    ensures r.status.FailedAt? ==> r.status.line < |lines|
    ensures forall g :: NamedNowhere(lines, g) ==> IsZeroValue(Get(r.spec, g))
  {
    var r := Run(StepOf(env), Zero, lines, 0);
    forall g | NamedNowhere(lines, g)
      ensures IsZeroValue(Get(r.spec, g))
    {
      RunKeepsUnnamedFields(env, Zero, lines, 0, g);
      ZeroIsAllZero(g);
    }
    r
  }

  /* ---------------------------------------------------------------- lemmas */

  /** Running two pieces of a file one after the other is running the file. */
  lemma {:induction false} RunAppend(step: LineStep, s: Spec, a: seq<string>, b: seq<string>, idx: nat)
    ensures Run(step, s, a + b, idx) ==
              var first := Run(step, s, a, idx);
              if first.status.Done? then Run(step, first.spec, b, idx + |a|) else first
    decreases |a|
  {
    if |a| > 0 {
      assert (a + b)[0] == a[0] && (a + b)[1..] == a[1..] + b;
      var st := step(idx, s, a[0]);
      if st.ok {
        RunAppend(step, st.spec, a[1..], b, idx + 1);
      }
    } else {
      assert a + b == b;
    }
  }

  /** A blank line succeeds without change; a line naming no field fails without change;
      either way, a field the line does not name keeps its value. */
  lemma ProcessLineEffect(env: Env, idx: nat, s: Spec, raw: string)
    ensures |Line(raw)| == 0 ==> ProcessLine(env, idx, s, raw) == Step(true, s)
    ensures (forall g :: !Names(Line(raw), g)) && |Line(raw)| > 0 ==> ProcessLine(env, idx, s, raw) == Step(false, s)
    ensures forall g :: !Names(Line(raw), g) ==> Get(ProcessLine(env, idx, s, raw).spec, g) == Get(s, g)
  {
    var line := Line(raw);
    if |line| > 0 && Classify(line).Some? {
      var p := Classify(line).value;
      ClassifyIsOrderFree(line, p);
      assert Names(line, p.tag);
    }
  }

  /** A field that no line of the file names keeps its value. */
  lemma {:induction false} RunKeepsUnnamedFields(env: Env, s: Spec, lines: seq<string>, idx: nat, g: Field)
    requires NamedNowhere(lines, g)
    ensures Get(Run(StepOf(env), s, lines, idx).spec, g) == Get(s, g)
    decreases |lines|
  {
    if |lines| > 0 {
      var st := StepOf(env)(idx, s, lines[0]);
      assert Get(st.spec, g) == Get(s, g) by {
        ProcessLineEffect(env, idx, s, lines[0]);
      }
      if st.ok {
        RunKeepsUnnamedFields(env, st.spec, lines[1..], idx + 1, g);
      }
    }
  }

  /** Once a line fails, nothing after it is read. */
  lemma StopsAtFirstFailure(step: LineStep, s: Spec, a: seq<string>, b: seq<string>, idx: nat)
    requires Run(step, s, a, idx).status.FailedAt?
    ensures Run(step, s, a + b, idx) == Run(step, s, a, idx)
  {
    RunAppend(step, s, a, b, idx);
  }

  /** A line of blanks (or one whose buffer starts with NUL) changes nothing. */
  lemma BlankLineSkipped(env: Env, s: Spec, raw: string, rest: seq<string>, idx: nat)
    requires |Line(raw)| == 0
    ensures Run(StepOf(env), s, [raw] + rest, idx) == Run(StepOf(env), s, rest, idx + 1)
  {
    ProcessLineEffect(env, idx, s, raw);
    assert ([raw] + rest)[1..] == rest;
  }

  /** A buffer without NUL whose last character is not blank is its own line. */
  lemma LineOfPlainText(raw: string)
    requires NulFree(raw) && |raw| > 0 && !IsSpace(raw[|raw| - 1])
    ensures Line(raw) == raw
  {
  }

  /** A line `keyword blanks ':' blanks value` sets the keyword's field from the value. */
  lemma KeyValueLine(env: Env, idx: nat, s: Spec, p: Param, sp1: string, sp2: string, val: string)
    requires p in Params
    requires forall i :: 0 <= i < |sp1| ==> IsSpace(sp1[i])
    requires forall i :: 0 <= i < |sp2| ==> IsSpace(sp2[i])
    requires NulFree(p.name + sp1 + ":" + sp2 + val)
    requires |val| == 0 ==> |sp2| == 0
    requires |val| == 0 || (!IsSpace(val[0]) && !IsSpace(val[|val| - 1]))
    ensures NulFree(val)
    ensures ProcessLine(env, idx, s, p.name + sp1 + ":" + sp2 + val) ==
              ApplyValue(env, env.staleNul(idx), s, p.tag, val)
  {
    var rest := sp1 + ":" + sp2 + val;
    KeyThenRest(p.name, sp1, sp2, val);
    KeyValueShape(p.name, sp1, sp2, val);
    ClassifiedLine(env, idx, s, p, rest);
    ParamLayout(sp1, sp2, val);
    ParamOfValue(env, env.staleNul(idx), s, p.tag, rest, val);
  }

  lemma KeyThenRest(name: string, sp1: string, sp2: string, val: string)
    ensures name + sp1 + ":" + sp2 + val == name + (sp1 + ":" + sp2 + val)
  {
  }

  /** `parse_param` hands the value text it finds to the field's parser. */
  lemma ParamOfValue(env: Env, staleNul: bool, s: Spec, f: Field, rest: string, val: string)
    requires NulFree(rest) && NulFree(val) && ValueText(rest) == Some(val)
    ensures ParseParam(env, staleNul, s, f, rest) == ApplyValue(env, staleNul, s, f, val)
  {
  }

  lemma KeyValueShape(name: string, sp1: string, sp2: string, val: string)
    requires NulFree(name + sp1 + ":" + sp2 + val)
    requires |val| == 0 ==> |sp2| == 0
    requires |val| == 0 || !IsSpace(val[|val| - 1])
    ensures NulFree(val) && NulFree(sp1 + ":" + sp2 + val)
    ensures Line(name + sp1 + ":" + sp2 + val) == name + sp1 + ":" + sp2 + val
  {
    var raw := name + sp1 + ":" + sp2 + val;
    assert val == raw[|raw| - |val|..];
    assert sp1 + ":" + sp2 + val == raw[|name|..];
    assert raw[|raw| - 1] == if |val| > 0 then val[|val| - 1] else ':';
    LineOfPlainText(raw);
  }

  /** A line made of a keyword and more text goes to that keyword's `parse_param` with the rest. */
  lemma ClassifiedLine(env: Env, idx: nat, s: Spec, p: Param, rest: string)
    requires p in Params && |rest| > 0 && Line(p.name + rest) == p.name + rest
    ensures NulFree(rest)
    ensures ProcessLine(env, idx, s, p.name + rest) == ParseParam(env, env.staleNul(idx), s, p.tag, rest)
  {
    var raw := p.name + rest;
    assert rest == raw[|p.name|..];
    assert raw[..|p.name|] == p.name;
    LengthsAreExact();
    ClassifyIsOrderFree(raw, p);
  }

  /** A line that starts with a keyword but not with `isspace* ':'` after it fails and changes nothing. */
  lemma KeyWithoutColon(env: Env, idx: nat, s: Spec, p: Param, rest: string)
    requires p in Params && NulFree(p.name + rest) && Line(p.name + rest) == p.name + rest
    requires !HasColon(rest)
    requires |rest| > 0
    ensures ProcessLine(env, idx, s, p.name + rest) == Step(false, s)
  {
    ClassifiedLine(env, idx, s, p, rest);
  }

  /** The line's first two characters begin no keyword. */
  predicate UnknownStart(line: string) {
    |line| > 0 &&
    (line[0] !in {'m', 'b', 'n', 'd', 'l', 'j', 'q', 'i'} ||
     (|line| > 1 && line[0] in {'b', 'l'} && line[1] !in {'a', '4'}))
  }

  /** A line whose first characters begin no keyword fails and changes nothing. */
  lemma UnknownStartRejected(env: Env, idx: nat, s: Spec, raw: string)
    requires UnknownStart(Line(raw))
    ensures ProcessLine(env, idx, s, raw) == Step(false, s)
  {
    NoRowNamesLine(Line(raw));
    ProcessLineEffect(env, idx, s, raw);
  }

  lemma NoRowNamesLine(line: string)
    requires UnknownStart(line)
    ensures forall g :: !Names(line, g)
  {
    forall p | p in Params
      ensures !StrictPrefix(p.name, line)
    {
      RowMissesUnknownStart(line, p);
    }
  }

  /** No keyword begins with the first two characters of such a line. */
  lemma RowMissesUnknownStart(line: string, p: Param)
    requires UnknownStart(line) && p in Params
    ensures !StrictPrefix(p.name, line)
  {
    var k :| 0 <= k < |Params| && Params[k] == p;
    Initial(k);
  }

  /** Of two lines setting the same counter, the later one wins. */
  lemma LastValueWins(env: Env, s: Spec, p: Param, m: nat, n: nat, idx: nat)
    requires p in Params && ParserOf(p.tag) == U64Parser
    ensures Run(StepOf(env), s, [p.name + ":" + Numbers.ToDecimal(m), p.name + ":" + Numbers.ToDecimal(n)], idx) ==
              Outcome(With(s, p.tag, U64Val(n % TWO_64)), Done)
  {
    var l1, l2 := p.name + ":" + Numbers.ToDecimal(m), p.name + ":" + Numbers.ToDecimal(n);
    var mid := With(s, p.tag, U64Val(m % TWO_64));
    var last := With(mid, p.tag, U64Val(n % TWO_64));
    ValueLine(env, idx, s, p, m);
    ValueLine(env, idx + 1, mid, p, n);
    assert Run(StepOf(env), mid, [l2], idx + 1) == Outcome(last, Done) by {
      assert [l2][1..] == [];
    }
    assert [l1, l2][1..] == [l2];
    WithTwice(s, p.tag, U64Val(m % TWO_64), U64Val(n % TWO_64));
  }

  /** `keyword:digits` for a 64-bit counter stores the number modulo 2^64. */
  lemma ValueLine(env: Env, idx: nat, s: Spec, p: Param, n: nat)
    requires p in Params && ParserOf(p.tag) == U64Parser
    ensures ProcessLine(env, idx, s, p.name + ":" + Numbers.ToDecimal(n)) ==
              Step(true, With(s, p.tag, U64Val(n % TWO_64)))
  {
    var val := Numbers.ToDecimal(n);
    DigitsAreNotBlank(val);
    KeywordsAreNulFree(p, val);
    assert p.name + ":" + val == p.name + "" + ":" + "" + val;
    KeyValueLine(env, idx, s, p, "", "", val);
    Numbers.ToDecimalValue(n);
  }

  lemma DigitsAreNotBlank(val: string)
    requires |val| > 0 && AllDigits(val)
    ensures !IsSpace(val[0]) && !IsSpace(val[|val| - 1])
  {
  }

  /** Every keyword, followed by ':' and a NUL-free value, is NUL-free. */
  lemma KeywordsAreNulFree(p: Param, val: string)
    requires p in Params && NulFree(val)
    ensures NulFree(p.name + ":" + val)
  {
    var k :| 0 <= k < |Params| && Params[k] == p;
    KeywordIsNulFree(k);
    var line := p.name + ":" + val;
    forall i | 0 <= i < |line| ensures line[i] != NUL {
      if i > |p.name| {
        assert line[i] == val[i - |p.name| - 1];
      }
    }
  }

  /* ------------------------------------------------------ example lines */

  /** A file of one successful line yields what that line does to the zeroed record. */
  lemma OneLineFile(env: Env, raw: string, t: Spec)
    requires ProcessLine(env, 0, Zero, raw) == Step(true, t)
    ensures ParseSpecFile(env, [raw]) == Outcome(t, Done)
  {
    assert [raw][1..] == [];
    assert Run(StepOf(env), Zero, [raw], 0) == Run(StepOf(env), t, [], 1);
  }

  /** A file holding one `keyword:digits` line for a counter yields the zeroed record with that counter set. */
  lemma CounterFile(env: Env, p: Param, n: nat)
    requires p in Params && ParserOf(p.tag) == U64Parser
    ensures ParseSpecFile(env, [p.name + ":" + Numbers.ToDecimal(n)]) ==
              Outcome(With(Zero, p.tag, U64Val(n % TWO_64)), Done)
  {
    ValueLine(env, 0, Zero, p, n);
    OneLineFile(env, p.name + ":" + Numbers.ToDecimal(n), With(Zero, p.tag, U64Val(n % TWO_64)));
  }

  /** `keyword:` with nothing after it is accepted by the counter parser and stores 0. */
  lemma EmptyCounterIsZero(env: Env, idx: nat, s: Spec, p: Param)
    requires p in Params && ParserOf(p.tag) == U64Parser
    ensures ProcessLine(env, idx, s, p.name + ":") == Step(true, With(s, p.tag, U64Val(0)))
  {
    var empty := "";
    KeywordsAreNulFree(p, empty);
    assert p.name + ":" == p.name + ":" + empty == p.name + empty + ":" + empty + empty;
    KeyValueLine(env, idx, s, p, empty, empty, empty);
  }

  /** `keyword:digits` for an `int` field is refused, without change, when the number
      taken modulo 2^64 exceeds 0x7ffffff. */
  lemma IntLineTooLarge(env: Env, idx: nat, s: Spec, p: Param, n: nat)
    requires p in Params && ParserOf(p.tag) == IntParser
    requires n % TWO_64 > Numbers.INT_CAP
    ensures ProcessLine(env, idx, s, p.name + ":" + Numbers.ToDecimal(n)) == Step(false, s)
  {
    var val := Numbers.ToDecimal(n);
    DigitsAreNotBlank(val);
    KeywordsAreNulFree(p, val);
    assert p.name + ":" + val == p.name + "" + ":" + "" + val;
    KeyValueLine(env, idx, s, p, "", "", val);
    Numbers.ToDecimalValue(n);
    IntOutOfRange(env, env.staleNul(idx), s, p.tag, val);
  }

  /** Leading blanks are not skipped: a line that starts with one classifies to no row. */
  lemma LeadingBlankRejected(env: Env, idx: nat, s: Spec, raw: string)
    requires |Line(raw)| > 0 && IsSpace(Line(raw)[0])
    ensures ProcessLine(env, idx, s, raw) == Step(false, s)
  {
    UnknownStartRejected(env, idx, s, raw);
  }

  /** The table has no `link_scenario` row, so such a line is refused. */
  lemma LinkScenarioRejected(env: Env, idx: nat, s: Spec, raw: string)
    requires raw == "link_scenario:1"
    ensures ProcessLine(env, idx, s, raw) == Step(false, s)
  {
    LineOfPlainText(raw);
    UnknownStartRejected(env, idx, s, raw);
  }

  /** A word that is not in the table is refused. */
  lemma BogusParamRejected(env: Env, idx: nat, s: Spec, raw: string)
    requires raw == "bogus_param:1"
    ensures ProcessLine(env, idx, s, raw) == Step(false, s)
  {
    LineOfPlainText(raw);
    UnknownStartRejected(env, idx, s, raw);
  }

  /** `latencyX:5` matches the `latency` row, whose separator test then fails on 'X'. */
  lemma LatencyRunOnRejected(env: Env, idx: nat, s: Spec, raw: string)
    requires raw == "latencyX:5"
    ensures ProcessLine(env, idx, s, raw) == Step(false, s)
  {
    var p := Params[11];
    assert p.name == "latency";
    assert raw == p.name + "X:5";
    LineOfPlainText(raw);
    KeywordRunOnRejected(env, idx, s, p, "X:5");
  }

  /** A keyword followed directly by a character that is neither blank nor ':' matches
      its row, then fails the colon test. */
  lemma KeywordRunOnRejected(env: Env, idx: nat, s: Spec, p: Param, rest: string)
    requires p in Params && |rest| > 0 && rest[0] != ':' && !IsSpace(rest[0])
    requires Line(p.name + rest) == p.name + rest
    ensures ProcessLine(env, idx, s, p.name + rest) == Step(false, s)
  {
    ColonMustFollowBlanks(rest);
    KeyWithoutColon(env, idx, s, p, rest);
  }
}
