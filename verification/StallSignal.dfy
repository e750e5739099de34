/** The signal under which the convergence controller compares two failing checks: the
    key of a check's fingerprints or else of its reasons. */
module StallSignal {
  import opened Text
  import opened Wrappers
  import opened SignalLists
  import opened SignalKey

  const REASON := "reason:"

  function Prefixed(list: seq<string>): seq<string> {
    seq(|list|, i requires 0 <= i < |list| => REASON + list[i])
  }

  function KeyInputs(fingerprints: Option<seq<string>>, reasons: Option<seq<string>>): Option<seq<string>> {
    var f := Normalized(fingerprints, MAX_ITEMS);
    var r := Normalized(reasons, MAX_ITEMS);
    if f.Some? then f
    else if r.Some? then Some(Prefixed(r.value))
    else None
  }

  function StallKey(fingerprints: Option<seq<string>>, reasons: Option<seq<string>>): Option<string> {
    var inputs := KeyInputs(fingerprints, reasons);
    if inputs.None? then None else Some(HashStrings(inputs.value))
  }

  predicate HasItems(list: Option<seq<string>>) {
    list.Some? && exists i :: 0 <= i < |list.value| && Trim(list.value[i]) != ""
  }

  /** `s` is one of the first forty items of the list that are not blank, trimmed and cut. */
  ghost predicate IsItem(list: seq<string>, s: string) {
    exists i: nat :: Keeps(list, 40, i) && s == Cut(Trim(list[i]))
  }

  /** What a check is known by: its fingerprints, or without any its reasons, marked as
      such; or nothing. */
  lemma InputsExactly(fingerprints: Option<seq<string>>, reasons: Option<seq<string>>, s: string)
    ensures KeyInputs(fingerprints, reasons).Some? <==> HasItems(fingerprints) || HasItems(reasons)
    ensures HasItems(fingerprints) ==>
      (s in KeyInputs(fingerprints, reasons).value <==> IsItem(fingerprints.value, s))
    ensures !HasItems(fingerprints) && HasItems(reasons) ==>
      ("reason:" + s in KeyInputs(fingerprints, reasons).value <==> IsItem(reasons.value, s))
    ensures !HasItems(fingerprints) && HasItems(reasons) ==>
      forall x :: x in KeyInputs(fingerprints, reasons).value ==> "reason:" <= x
  {
    if fingerprints.Some? {
      NormalizedExactly(fingerprints.value, 40, s);
    }
    if reasons.Some? {
      NormalizedExactly(reasons.value, 40, s);
    }
    if !HasItems(fingerprints) && HasItems(reasons) {
      var kept := Normalized(reasons, 40).value;
      assert KeyInputs(fingerprints, reasons) == Some(Prefixed(kept));
      PrefixedMember(kept, s);
    }
  }

  lemma PrefixedMember(list: seq<string>, s: string)
    ensures REASON + s in Prefixed(list) <==> s in list
  {
    if REASON + s in Prefixed(list) {
      var i :| 0 <= i < |list| && REASON + list[i] == REASON + s;
      assert s == (REASON + s)[|REASON|..] == (REASON + list[i])[|REASON|..] == list[i];
    }
    if s in list {
      var i :| 0 <= i < |list| && list[i] == s;
      assert Prefixed(list)[i] == REASON + s;
    }
  }

  /** The lines a check's signal spells; no signal spells none. */
  function SignalLines(fingerprints: Option<seq<string>>, reasons: Option<seq<string>>): Option<seq<string>> {
    var inputs := KeyInputs(fingerprints, reasons);
    if inputs.None? then None else Some(Spelled(Canonical(inputs.value)))
  }

  /** Two checks count as the same failure exactly when what their lists come to spells the
      same lines. */
  lemma SignalExactly(f0: Option<seq<string>>, r0: Option<seq<string>>,
                      f1: Option<seq<string>>, r1: Option<seq<string>>)
    ensures StallKey(f0, r0) == StallKey(f1, r1) <==> SignalLines(f0, r0) == SignalLines(f1, r1)
  {
    var k0, k1 := KeyInputs(f0, r0), KeyInputs(f1, r1);
    if k0.Some? && k1.Some? {
      KeyExactly(k0.value, k1.value);
    }
  }

  ghost predicate OneLineInputs(inputs: Option<seq<string>>) {
    inputs.Some? ==> forall s :: s in TrimSet(inputs.value) ==> OneLine(s)
  }

  /** Both have inputs, with the same set, or neither has. */
  ghost predicate SameSet(a: Option<seq<string>>, b: Option<seq<string>>) {
    && (a.Some? <==> b.Some?)
    && (a.Some? && b.Some? ==> TrimSet(a.value) == TrimSet(b.value))
  }

  /** For items of one line: exactly when the inputs are the same set. */
  lemma SignalIsExact(f0: Option<seq<string>>, r0: Option<seq<string>>,
                      f1: Option<seq<string>>, r1: Option<seq<string>>)
    requires OneLineInputs(KeyInputs(f0, r0)) && OneLineInputs(KeyInputs(f1, r1))
    ensures StallKey(f0, r0) == StallKey(f1, r1) <==> SameSet(KeyInputs(f0, r0), KeyInputs(f1, r1))
  {
    var k0, k1 := KeyInputs(f0, r0), KeyInputs(f1, r1);
    if k0.Some? && k1.Some? {
      KeyIsExact(k0.value, k1.value);
    }
  }

  lemma OneItem(x: string)
    requires Trim(x) == x != "" && |UnitsOf(x)| <= MAX_LENGTH
    ensures Normalized(Some([x]), MAX_ITEMS) == Some([x]) && Meaning(Some([x])) == {x}
  {
    assert [x][1..] == [] && [x][..0] == [];
    CutShort(x);
    CleanOne(x);
    assert Dedup([x]) == [x];
    assert x in [x] && x in Meaning(Some([x]));
  }

  lemma {:induction false} TrimmedEnd(s: string)
    ensures TrimEnd(s) != [] ==> !IsSpace(TrimEnd(s)[|TrimEnd(s)| - 1])
  {
    if s != [] && IsSpace(s[|s| - 1]) {
      TrimmedEnd(s[..|s| - 1]);
    }
  }

  lemma PrefixedIsTrimmed(prefix: string, x: string)
    requires prefix != "" && !IsSpace(prefix[0]) && Trim(x) == x != ""
    ensures Trim(prefix + x) == prefix + x
  {
    TrimmedEnd(TrimStart(x));
  }

  /** A fingerprint can look like a reason: a check with the one and a check with the other
      have different lists, line breaks or not, and share a signal. */
  lemma FingerprintMeetsReason(x: string)
    requires Trim(x) == x != "" && |UnitsOf(REASON + x)| <= MAX_LENGTH
    ensures StallKey(Some([REASON + x]), None) == StallKey(None, Some([x]))
    ensures Meaning(Some([REASON + x])) == {REASON + x} && Meaning(Some([x])) == {x}
  {
    PrefixedIsTrimmed(REASON, x);
    UnitsAdd(REASON, x);
    OneItem(REASON + x);
    OneItem(x);
    assert Prefixed([x]) == [REASON + x];
  }

  /** Two checks whose lists mean the same sets have the same signal, whatever the
      order, repetition or surrounding white space. */
  lemma SignalOfSets(f0: Option<seq<string>>, r0: Option<seq<string>>,
                     f1: Option<seq<string>>, r1: Option<seq<string>>)
    requires WithinLimit(f0) && WithinLimit(r0) && WithinLimit(f1) && WithinLimit(r1)
    requires Meaning(f0) == Meaning(f1)
    requires Meaning(f0) == {} ==> Meaning(r0) == Meaning(r1)
    ensures StallKey(f0, r0) == StallKey(f1, r1)
  {
    NormalizedMembers(f0);
    NormalizedMembers(f1);
    NormalizedMembers(r0);
    NormalizedMembers(r1);
    var k0, k1 := KeyInputs(f0, r0), KeyInputs(f1, r1);
    if k0.Some? {
      forall s | s in k0.value ensures s in k1.value {
        InputMember(f0, r0, f1, r1, s);
      }
      forall s | s in k1.value ensures s in k0.value {
        InputMember(f1, r1, f0, r0, s);
      }
      KeyOfSet(k0.value, k1.value);
    }
  }

  lemma InputMember(f0: Option<seq<string>>, r0: Option<seq<string>>,
                    f1: Option<seq<string>>, r1: Option<seq<string>>, s: string)
    requires WithinLimit(f0) && WithinLimit(r0) && WithinLimit(f1) && WithinLimit(r1)
    requires Meaning(f0) == Meaning(f1)
    requires Meaning(f0) == {} ==> Meaning(r0) == Meaning(r1)
    requires KeyInputs(f0, r0).Some? && s in KeyInputs(f0, r0).value
    ensures KeyInputs(f1, r1).Some? && s in KeyInputs(f1, r1).value
  {
    NormalizedMembers(f0);
    NormalizedMembers(f1);
    NormalizedMembers(r0);
    NormalizedMembers(r1);
    if Meaning(f0) == {} {
      var a := Normalized(r0, MAX_ITEMS).value;
      var b := Normalized(r1, MAX_ITEMS).value;
      var i :| 0 <= i < |a| && s == REASON + a[i];
      assert a[i] in b;
      var j :| 0 <= j < |b| && b[j] == a[i];
      assert KeyInputs(f1, r1).value[j] == s;
    }
  }
}
