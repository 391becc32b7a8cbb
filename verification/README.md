# pico_sim simulation-spec parser

This project models the reader of pico_sim simulation specifications in
`src/pico_sim.c`. A specification file is plain text with one
`keyword: value` line per setting.

`parse_spec_file` works as follows:
1. It zeroes a `picoquic_ns_spec_t`.
2. For each line it drops the trailing blanks and skips lines that end up empty.
3. It finds the first row of the `params[]` table whose keyword is a proper prefix of the line.
4. It hands the rest of the line to `parse_param`.
5. `parse_param` checks the `isspace* ':' isspace*` separator and calls the value parser for the field's C type:
   - `parse_u64`, `parse_int` and `parse_double` for numbers;
   - `parse_text` and `parse_file_name` for owned strings;
   - `parse_cc_algo` for a congestion-control algorithm;
   - `parse_cid` for a connection id.

   The first failing line ends the file.

`release_spec_data` frees the owned strings of the record through `release_text`.

Modules, one per concern of the C file:

| module | file | covers |
|---|---|---|
| `CText` | `ctext.dfy` | C-locale `isspace`/`isdigit`, NUL-terminated strings, `uint64_t` and `uint8_t` as subset types, the trailing-blank trim, the leading-blank skip |
| `Numbers` | `numbers.dfy` | `parse_u64`, `parse_int`, `parse_double` |
| `ConnectionId` | `cid.dfy` | `hexdigit`, `parse_cid` |
| `SimSpec` | `spec_record.dfy` | the record, the `spec_param_enum` tags, a uniform field accessor `Get`/`With` |
| `ParamTable` | `params.dfy` | `params[]` and the first-match classification loop |
| `Dispatch` | `dispatch.dfy` | `parse_param`, `parse_text`, `parse_file_name`, `parse_cc_algo` |
| `Driver` | `driver.dfy` | `parse_spec_file` |
| `Release` | `release.dfy` | `release_text`, `release_spec_data` |

How the model stands in for things outside the parser:
- The congestion-control registry (`picoquic_get_congestion_algorithm`) is a lookup function passed in through `Dispatch.Env`.
- The `_WINDOWS` build choice is a boolean in `Dispatch.Env`.
- `parse_cid` reads a byte past the terminator of a short identifier. That byte's value is unknown, so it is a per-line oracle `staleNul` in `Dispatch.Env`.
- The file is given as the sequence of buffers `fgets` returns.
- Every parser returns its C return code (`ok` is `ret == 0`) together with the record as the C code leaves it. So a step that fails keeps what it wrote before failing.

Behaviour of the code worth knowing, all of it stated by the contracts:
- The table has 22 keywords. Any other word, `link_scenario` among them, fails the line (`Driver.LinkScenarioRejected`, `Driver.BogusParamRejected`).
- An empty numeric value is accepted as 0 (`Driver.EmptyCounterIsZero`, `Numbers.DoubleAcceptsExamples`).
- `parse_u64` wraps modulo 2^64 without any overflow error.
- `parse_int` compares the wrapped value with 0x7ffffff (2^27 - 1).
- `hexdigit` maps every ASCII letter, in either case, so `G`..`Z` give 16..35.
- `parse_cid` behaves as follows:
  - It accepts exactly eight characters, or fewer when the stale byte happens to be NUL.
  - It rejects 9 to 16 characters after writing them.
  - For an even length below 16 it leaves the byte after the last pair untouched.
- A failed `parse_cc_algo` stores NULL in the algorithm field.
- `release_spec_data` does not free the two `*_cc_options` strings.

## Model

| member | source | states |
|---|---|---|
| CText.CString | src/pico_sim.c:166 | the line is the buffer's prefix up to its first NUL, is NUL-free, and stops at a NUL when shorter than the buffer |
| CText.TrimEnd | src/pico_sim.c:168-172 | the trimmed line is a prefix of the line, ends in a non-blank (or is empty), and only blanks were dropped |
| CText.SkipSpace | src/pico_sim.c:212-214 | the skip stops at the first non-blank at or after the start and passes only blanks |
| CText.SkipSpaceUnique | src/pico_sim.c:212-214 | any index with those properties is where the skip stops (independent characterisation) |
| CText.DigitRunUnique | src/pico_sim.c:317-321 | the `isdigit` scan stops exactly at the end of the leading digit run |
| Numbers.ParseU64 | src/pico_sim.c:311-329 | succeeds exactly on all-digit text (the empty text included) and yields the exact decimal value modulo 2^64 |
| Numbers.WrapHorner | src/pico_sim.c:317-321 | the digit loop with a `uint64_t` accumulator that wraps at every step; Numbers.WrapHornerIsModulo relates it to the exact value |
| Numbers.WrapHornerIsModulo | src/pico_sim.c:317-321 | the `uint64_t` accumulator that wraps at every step ends at the exact value modulo 2^64 |
| Numbers.U64RoundTrip | src/pico_sim.c:311-329 | parsing the decimal rendering of n gives n modulo 2^64 back |
| Numbers.ParseInt | src/pico_sim.c:331-345 | succeeds exactly on digit text whose wrapped value is at most 0x7ffffff, and yields that value |
| Numbers.IntRoundTrip | src/pico_sim.c:331-345 | a rendered n is accepted exactly when n mod 2^64 is within the cap, and then parses to it |
| Numbers.IntCapBoundary | src/pico_sim.c:337-342 | every 64-bit number up to 0x7ffffff parses to itself and every larger one is refused |
| Numbers.IntAcceptsWrappedValue | src/pico_sim.c:333-338 | 2^64 + n is accepted as n, because the cap is tested after the wrap |
| Numbers.ParseDouble | src/pico_sim.c:347-374 | succeeds exactly on `digit* ('.' digit*)?`; its value is the integer part plus the fraction's digits over 10^length |
| Numbers.FracSumIsScaledValue | src/pico_sim.c:358-366 | the fraction loop's sum of digit times shrinking place value equals the fraction's decimal value scaled by 10^-length |
| Numbers.DotAtUnique | src/pico_sim.c:353-358 | the only place a decimal text can split at '.' is where the digit run stops |
| Numbers.DoubleAcceptsExamples | src/pico_sim.c:347-374 | "", ".", "5." and "0.25" are accepted as 0, 0, 5 and 0.25 |
| Numbers.DoubleRejectsExamples | src/pico_sim.c:367-369 | a sign, an exponent and a second '.' are refused |
| Numbers.ToDecimalValue | src/pico_sim.c:317-321 | the digit value of the decimal rendering of n is n |
| ConnectionId.HexDigit | src/pico_sim.c:387-401 | the result is -1 exactly for characters that are not ASCII letters or digits and lies in -1..35 |
| ConnectionId.HexDigitOnHex | src/pico_sim.c:387-401 | on 0-9, A-F and a-f it agrees with an independent table of standard hex values |
| ConnectionId.HexDigitBeyondF | src/pico_sim.c:394-399 | upper and lower case give the same value, and letters past F keep counting ('G' is 16, 'z' is 35) |
| ConnectionId.ScanStop | src/pico_sim.c:412-421 | the scan consumes the longest alphanumeric prefix, capped at sixteen characters |
| ConnectionId.CidLoopStep | src/pico_sim.c:412-437 | one loop turn takes the closed-form state after i characters to the state after i + 1 |
| ConnectionId.CidLoopReaches | src/pico_sim.c:412-437 | the loop passes through the closed-form state after every character it consumes |
| ConnectionId.CidLoop | src/pico_sim.c:412-437 | the `while (val[i] != 0)` loop as written, with its `j`, `k`, `u8` state; ConnectionId.CidLoopLayout gives its closed-form outcome |
| ConnectionId.CidLoopLayout | src/pico_sim.c:412-437 | the loop ends without a `break` exactly for alphanumeric text of at most sixteen characters, in the closed-form state |
| ConnectionId.ParseCid | src/pico_sim.c:403-451 | accepts exactly alphanumeric text of length 8 (or below 8 when the stale byte is NUL); the bytes left are pairs, a pending nibble, the old byte and zero fill, or the partial scan on a `break` |
| ConnectionId.CidSixteenRejected | src/pico_sim.c:438-449 | sixteen characters fill all eight bytes and set id_len to 8, yet are refused |
| ConnectionId.CidEvenLengthKeepsByte | src/pico_sim.c:438-443 | an even length below sixteen leaves byte length/2 as it was |
| SimSpec.With | src/pico_sim.c:223-289 | storing into one field sets that field and leaves every other field as it was |
| SimSpec.WithTwice | src/pico_sim.c:223-289 | a later store to a field overrides an earlier one |
| SimSpec.ZeroIsAllZero | src/pico_sim.c:161 | after the `memset` every field holds its type's zero |
| ParamTable.ClassifyFrom | src/pico_sim.c:175-183 | the row found matches the line and comes from the rest of the table; no row matches when nothing is found |
| ParamTable.LengthsAreExact | src/pico_sim.c:127-150 | every stored `p_len` is the length of its keyword |
| ParamTable.EachFieldHasOneRow | src/pico_sim.c:127-150 | each field tag has exactly one row |
| ParamTable.NoKeywordIsPrefixOfAnother | src/pico_sim.c:127-150 | no keyword is a prefix of another row's keyword |
| ParamTable.MatchesIsStrictPrefix | src/pico_sim.c:176-177 | the `len > p_len && strncmp` test holds exactly when the keyword is a proper prefix of the line |
| ParamTable.Classify | src/pico_sim.c:175-183 | the row picked is a row of the table that matches the line, and nothing is picked only when no row matches; ParamTable.ClassifyIsOrderFree characterises it by keyword prefixes |
| ParamTable.ClassifyIsOrderFree | src/pico_sim.c:175-183 | the first-match loop picks a row exactly when that row's keyword is a proper prefix of the line, so table order does not matter |
| ParamTable.KeywordIsNulFree | src/pico_sim.c:127-150 | no keyword holds a NUL |
| Dispatch.ParseText | src/pico_sim.c:453-470 | the copy is never NULL (the empty value included) and has the value's length and characters |
| Dispatch.WhackAll | src/pico_sim.c:476-488 | the Windows copy has the same length, no '/', '/' became '\\' and everything else is kept; other builds copy unchanged |
| Dispatch.ParseFileName | src/pico_sim.c:472-493 | the stored name has the value's length, equals the text copy off Windows and holds no '/' on Windows |
| Dispatch.FileNameWithoutSlash | src/pico_sim.c:472-493 | on every build a name without '/' is stored unchanged |
| Dispatch.FileNameIdempotent | src/pico_sim.c:479-488 | rewriting an already rewritten name changes nothing |
| Dispatch.ApplyValue | src/pico_sim.c:223-293 | only the line's field changes; per C type: digits-only counters store the value mod 2^64; ints obey the cap; doubles accept the decimal language and store the integer part plus the fraction over 10^length; texts are copied; file names are copied with '/' turned into '\\' on Windows; a cc lookup failure stores NULL and fails; a cid field receives the bytes `parse_cid` leaves; a failure of a number parser keeps the record |
| Dispatch.DataRateWithFraction | src/pico_sim.c:254-255 | `data_rate_in_gbps` given "1.5" succeeds and stores 1.5 |
| Dispatch.ValueText | src/pico_sim.c:212-222 | the text handed on is a proper suffix of the text after the keyword and starts with a non-blank; Dispatch.ValueTextIffColon says when there is one |
| Dispatch.ValueTextIffColon | src/pico_sim.c:212-222 | a value is found exactly when the text after the keyword is blanks then ':' |
| Dispatch.ParamLayout | src/pico_sim.c:212-222 | after blanks, ':' and blanks, the text handed on is exactly the value |
| Dispatch.ParseParam | src/pico_sim.c:207-222 | text without `isspace* ':'` after the keyword fails and leaves the record alone; any other field than the line's is never touched |
| Dispatch.ColonMustFollowBlanks | src/pico_sim.c:215-217 | a keyword followed by a character that is neither blank nor ':' has no separator |
| Dispatch.IntOutOfRange | src/pico_sim.c:251-252 | an `int` field given digits whose wrapped value exceeds the cap fails and is not written |
| Driver.Line | src/pico_sim.c:166-172 | the line the driver inspects is NUL-free and no longer than the buffer |
| Driver.ParseSpecFile | src/pico_sim.c:156-196 | a failure is reported at a line of the file, and every field that no line names holds its zero |
| Driver.Run | src/pico_sim.c:163-194 | a reported failure lies within the lines processed |
| Driver.RunAppend | src/pico_sim.c:163 | processing a file in two pieces is processing it whole: the second piece is read only if the first succeeded |
| Driver.StopsAtFirstFailure | src/pico_sim.c:163 | once a line fails nothing after it is read |
| Driver.ProcessLine | src/pico_sim.c:164-193 | one pass of the loop: trim, skip a blank line, classify, refuse an unknown line, else `parse_param` on the rest; Driver.ProcessLineEffect and Driver.KeyValueLine state its effect |
| Driver.ProcessLineEffect | src/pico_sim.c:174-192 | a blank line succeeds without change, a line naming no field fails without change, and an unnamed field keeps its value |
| Driver.RunKeepsUnnamedFields | src/pico_sim.c:163-194 | a field no line names keeps its value through the whole loop |
| Driver.BlankLineSkipped | src/pico_sim.c:168-174 | a line of blanks, or one whose buffer starts with NUL, is skipped |
| Driver.LineOfPlainText | src/pico_sim.c:166-172 | a NUL-free buffer ending in a non-blank is its own line |
| Driver.KeyValueLine | src/pico_sim.c:174-222 | `keyword blanks ':' blanks value` reaches the keyword's value parser with exactly that value |
| Driver.ClassifiedLine | src/pico_sim.c:175-191 | a keyword followed by more text goes to that keyword's `parse_param` with the rest |
| Driver.KeyWithoutColon | src/pico_sim.c:215-217 | a keyword without the separator fails the line without change |
| Driver.UnknownStartRejected | src/pico_sim.c:185-189 | a line whose first characters begin no keyword fails without change |
| Driver.LeadingBlankRejected | src/pico_sim.c:174-189 | leading blanks are not skipped: such a line fails without change |
| Driver.LinkScenarioRejected | src/pico_sim.c:127-150 | `link_scenario:1` is refused, since no row has that keyword |
| Driver.BogusParamRejected | src/pico_sim.c:185-189 | `bogus_param:1` names no row and is refused without change |
| Driver.LatencyRunOnRejected | src/pico_sim.c:212-217 | `latencyX:5` matches the `latency` row and then fails the separator test without change |
| Driver.KeywordRunOnRejected | src/pico_sim.c:176-177 | a keyword run on into other text matches its row, then fails the separator test |
| Driver.ValueLine | src/pico_sim.c:224-225 | `keyword:digits` for a 64-bit counter stores the number modulo 2^64 |
| Driver.LastValueWins | src/pico_sim.c:163-192 | of two lines setting the same counter, the later one wins |
| Driver.CounterFile | src/pico_sim.c:156-196 | a one-line file `keyword:digits` yields the zeroed record with that counter set |
| Driver.EmptyCounterIsZero | src/pico_sim.c:311-329 | `keyword:` with no value stores 0 into a counter |
| Driver.IntLineTooLarge | src/pico_sim.c:331-345 | `nb_connections:` with a wrapped value above the cap fails the line without change |
| Release.ReleaseText | src/pico_sim.c:495-501 | the slot is NULL afterwards; a string is freed exactly when the slot was not NULL |
| Release.ReleaseFields | src/pico_sim.c:302-309 | the released fields become NULL, others are kept, and what is freed is exactly what those fields owned, in order |
| Release.ReleaseSpecData | src/pico_sim.c:302-309 | the five released fields become NULL, every other field is kept, and the strings freed are exactly those they owned |
| Release.TextRoundTrip | src/pico_sim.c:453-470 | a text made by `parse_text` is freed exactly once by `release_text` |
| Release.ReleaseIdempotent | src/pico_sim.c:302-309 | a second release frees nothing and changes nothing |
| Release.NothingFreedIffNull | src/pico_sim.c:302-309 | the release frees nothing exactly when the five released fields are all NULL |
| Release.NothingOwnedWhenNull | src/pico_sim.c:495-501 | fields own nothing exactly when they all hold NULL |
| Release.OptionsAreNotReleased | src/pico_sim.c:302-309 | the two `*_cc_options` strings are the only owned texts the release leaves in place |

## Left out

- `main`, the command line and opening or closing the file are not modelled: the file arrives as its sequence of line buffers.
- The 1024-byte `fgets` buffer is not modelled. A line longer than 1023 characters would be split into several buffers, and the model takes the buffers as given.
- The 1024-character cap of the Windows `parse_file_name` is not modelled. A line from a 1024-byte buffer can never reach it.
- Dispatch.ApplyValue: for `double` fields the value is the exact rational, not the IEEE-754 sum with its rounding, because floating point is outside the model.
- Dispatch.ApplyValue: the `default: ret = -1` branch is not modelled, because every tag of the table has a case.
- `malloc` failure in `parse_text` is not modelled: allocation always succeeds. A slot overwritten by a second line leaks in C, and the model does not track leaks.
- The `fprintf(stderr, …)` diagnostics are not modelled; they have no effect on the result.
- `picoquic_get_congestion_algorithm` and the congestion-control registry are not part of this model; the lookup is a parameter.
- The byte `parse_cid` reads past the end of an identifier shorter than eight characters is a parameter (`staleNul`), because its value depends on memory the parser does not own.
- `picoquic_connection_id_t` has room for 20 bytes. Only the first eight are modelled, because `parse_cid` touches no others.
- A Dafny `char` stands for one C `char` byte, and lengths count those characters. Characters above 0xFF have no C counterpart, and the multi-byte encoding of text is not modelled.
- The qlog post-processing scripts and the simulator itself are not part of this model.
