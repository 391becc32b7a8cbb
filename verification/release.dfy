/**
 `release_text` and `release_spec_data`: freeing the record's owned strings.

 A freed string is recorded in `freed`, in the order of the `free` calls, so
 that the contracts can say what was released and what was kept.
 */
module Release {
  import opened CText
  import opened SimSpec
  import Dispatch

  /** A text slot after `release_text`, and what that call freed. */
  datatype TextRelease = TextRelease(text: Text, freed: seq<string>)

  /** The record after `release_spec_data`, and the strings it freed. */
  datatype Released = Released(spec: Spec, freed: seq<string>)

  /** `release_text`: free a non-NULL text and set the slot to NULL. */
  function ReleaseText(t: Text): (r: TextRelease)
    ensures r.text.None?
    ensures t.None? <==> r.freed == []
    ensures t.Some? ==> r.freed == [t.value]
  {
    match t
    case None => TextRelease(None, [])
    case Some(v) => TextRelease(None, [v])
  }

  /** The fields `release_spec_data` passes to `release_text`, in call order. */
  const ReleasedFields: seq<Field> := [MainScenarioText, BackgroundScenarioText, QlogDir, QperfLog, MediaExcluded]

  /** The fields of ReleasedFields, as a test on the field tag. */
  predicate IsReleasedField(f: Field) {
    f == MainScenarioText || f == BackgroundScenarioText || f == QlogDir || f == QperfLog || f == MediaExcluded
  }

  predicate Distinct(fs: seq<Field>) {
    forall i, j :: 0 <= i < j < |fs| ==> fs[i] != fs[j]
  }

  /** The strings the record owns in fields `fs`, in the order of `fs`. */
  function Owned(s: Spec, fs: seq<Field>): seq<string>
    requires forall i :: 0 <= i < |fs| ==> IsTextField(fs[i])
  {
    if |fs| == 0 then []
    else
      TextFieldHoldsText(s, fs[0]);
      var t := Get(s, fs[0]).t;
      (if t.Some? then [t.value] else []) + Owned(s, fs[1..])
  }

  /** `release_text` on each field of `fs` in turn. */
  function ReleaseFields(s: Spec, fs: seq<Field>): (r: Released)
    requires forall i :: 0 <= i < |fs| ==> IsTextField(fs[i])
    requires Distinct(fs)
    ensures forall f :: f in fs ==> Get(r.spec, f) == TextVal(None)
    ensures forall f :: f !in fs ==> Get(r.spec, f) == Get(s, f)
    ensures r.freed == Owned(s, fs)
    decreases |fs|
  {
    if |fs| == 0 then
      Released(s, [])
    else
      var f := fs[0];
      TextFieldHoldsText(s, f);
      var one := ReleaseText(Get(s, f).t);
      var next := With(s, f, TextVal(one.text));
      var rest := ReleaseFields(next, fs[1..]);
      assert fs == [f] + fs[1..];
      OwnedIgnoresOtherFields(s, next, fs[1..], f);
      Released(rest.spec, one.freed + rest.freed)
  }

  /** `release_spec_data`. */
  function ReleaseSpecData(s: Spec): (r: Released)
    ensures forall f :: IsReleasedField(f) ==> Get(r.spec, f) == TextVal(None)
    ensures forall f :: !IsReleasedField(f) ==> Get(r.spec, f) == Get(s, f)
    ensures r.freed == Owned(s, ReleasedFields)
  {
    ReleasedFieldsAreText();
    ReleasedFieldsExactly();
    ReleaseFields(s, ReleasedFields)
  }

  /* ---------------------------------------------------------------- lemmas */

  lemma ReleasedFieldsExactly()
    ensures forall f :: f in ReleasedFields <==> IsReleasedField(f)
  {
  }

  lemma ReleasedFieldsAreText()
    ensures forall i :: 0 <= i < |ReleasedFields| ==> IsTextField(ReleasedFields[i])
    ensures Distinct(ReleasedFields)
  {
  }

  /** What is owned in `fs` depends only on the fields in `fs`. */
  lemma {:induction false} OwnedIgnoresOtherFields(s: Spec, t: Spec, fs: seq<Field>, f: Field)
    requires forall i :: 0 <= i < |fs| ==> IsTextField(fs[i])
    requires f !in fs && forall g :: g != f ==> Get(t, g) == Get(s, g)
    ensures Owned(t, fs) == Owned(s, fs)
    decreases |fs|
  {
    if |fs| > 0 {
      OwnedIgnoresOtherFields(s, t, fs[1..], f);
    }
  }

  /** Nothing is owned in fields that all hold NULL. */
  lemma {:induction false} NothingOwnedWhenNull(s: Spec, fs: seq<Field>)
    requires forall i :: 0 <= i < |fs| ==> IsTextField(fs[i])
    ensures Owned(s, fs) == [] <==> forall i :: 0 <= i < |fs| ==> Get(s, fs[i]) == TextVal(None)
    decreases |fs|
  {
    if |fs| > 0 {
      NothingOwnedWhenNull(s, fs[1..]);
      assert forall i :: 1 <= i < |fs| ==> fs[i] == fs[1..][i - 1];
    }
  }

  /** Releasing fields that already hold NULL frees nothing and changes nothing. */
  lemma {:induction false} ReleaseFieldsOnNull(s: Spec, fs: seq<Field>)
    requires forall i :: 0 <= i < |fs| ==> IsTextField(fs[i])
    requires Distinct(fs)
    requires forall i :: 0 <= i < |fs| ==> Get(s, fs[i]) == TextVal(None)
    ensures ReleaseFields(s, fs) == Released(s, [])
    decreases |fs|
  {
    if |fs| > 0 {
      WithSame(s, fs[0]);
      assert forall i :: 0 <= i < |fs| - 1 ==> fs[1..][i] == fs[i + 1];
      ReleaseFieldsOnNull(s, fs[1..]);
    }
  }

  /** Releasing twice frees nothing the second time and changes nothing more. */
  lemma ReleaseIdempotent(s: Spec)
    ensures var once := ReleaseSpecData(s).spec;
            ReleaseSpecData(once) == Released(once, [])
  {
    var once := ReleaseSpecData(s).spec;
    ReleasedFieldsAreText();
    NullAtEachReleasedField(once);
    ReleaseFieldsOnNull(once, ReleasedFields);
  }

  lemma NullAtEachReleasedField(s: Spec)
    requires forall f :: IsReleasedField(f) ==> Get(s, f) == TextVal(None)
    ensures forall i :: 0 <= i < |ReleasedFields| ==> Get(s, ReleasedFields[i]) == TextVal(None)
  {
    ReleasedFieldsExactly();
  }

  /** The release frees nothing exactly when the five released fields are all NULL. */
  lemma NothingFreedIffNull(s: Spec)
    ensures ReleaseSpecData(s).freed == [] <==> forall f :: IsReleasedField(f) ==> Get(s, f) == TextVal(None)
  {
    ReleasedFieldsAreText();
    NothingOwnedWhenNull(s, ReleasedFields);
    if forall f :: IsReleasedField(f) ==> Get(s, f) == TextVal(None) {
      NullAtEachReleasedField(s);
    }
    if forall i :: 0 <= i < |ReleasedFields| ==> Get(s, ReleasedFields[i]) == TextVal(None) {
      NullAtReleasedFields(s);
    }
  }

  lemma NullAtReleasedFields(s: Spec)
    requires forall i :: 0 <= i < |ReleasedFields| ==> Get(s, ReleasedFields[i]) == TextVal(None)
    ensures forall f :: IsReleasedField(f) ==> Get(s, f) == TextVal(None)
  {
    assert ReleasedFields[0] == MainScenarioText && ReleasedFields[1] == BackgroundScenarioText;
    assert ReleasedFields[2] == QlogDir && ReleasedFields[3] == QperfLog && ReleasedFields[4] == MediaExcluded;
  }

  /** A text made by `parse_text` is freed exactly once by `release_text`. */
  lemma TextRoundTrip(val: string)
    ensures ReleaseText(Dispatch.ParseText(val)) == TextRelease(None, [val])
  {
  }

  /** The two option strings are the only owned texts that the release leaves in place. */
  lemma OptionsAreNotReleased()
    ensures forall f :: IsTextField(f) && !IsReleasedField(f) <==> f == MainCcOptions || f == BackgroundCcOptions
  {
  }
}
