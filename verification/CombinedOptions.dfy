/** Resolving one phrase per attribute (whatsapp-combined-options.ts). The text arrives already
    normalised and split; `normalize` is the source's lower-casing and accent stripping. */
module CombinedOptions {
  import opened Options
  import opened Sequences

  datatype Attribute = Attribute(attributeName: string, options: seq<string>)
  datatype Choice = Choice(attributeName: string, attributeValue: string)
  datatype Candidate = Candidate(index: nat, value: string)

  type Normalizer = string -> string

  /** The four spellings that name an option. */
  predicate Names(part: string, attributeName: string, value: string, normalize: Normalizer) {
    var option := normalize(value);
    part in [option, "con " + option, "en " + option, normalize(attributeName) + ": " + option]
  }

  function OptionsNamed(part: string, attribute: Attribute, index: nat, options: seq<string>,
                        normalize: Normalizer): seq<Candidate>
  {
    if options == [] then []
    else (if Names(part, attribute.attributeName, options[0], normalize) then [Candidate(index, options[0])] else [])
         + OptionsNamed(part, attribute, index, options[1..], normalize)
  }

  /** Every option, of any attribute, that `part` names, counted with repetition. */
  function Candidates(part: string, attributes: seq<Attribute>, from: nat, normalize: Normalizer): seq<Candidate>
    requires from <= |attributes|
    decreases |attributes| - from
  {
    if from == |attributes| then []
    else OptionsNamed(part, attributes[from], from, attributes[from].options, normalize)
         + Candidates(part, attributes, from + 1, normalize)
  }

  lemma {:induction false} OptionsNamedMeaning(part: string, attribute: Attribute, index: nat, options: seq<string>,
                                               normalize: Normalizer, c: Candidate)
    ensures c in OptionsNamed(part, attribute, index, options, normalize) <==>
            c.index == index && c.value in options && Names(part, attribute.attributeName, c.value, normalize)
    decreases |options|
  {
    if options != [] {
      OptionsNamedMeaning(part, attribute, index, options[1..], normalize, c);
      assert options == [options[0]] + options[1..];
    }
  }

  /** The candidates are exactly the options spelled by the part. */
  lemma {:induction false} CandidatesMeaning(part: string, attributes: seq<Attribute>, from: nat,
                                             normalize: Normalizer, c: Candidate)
    requires from <= |attributes|
    ensures c in Candidates(part, attributes, from, normalize) <==>
            && from <= c.index < |attributes| && c.value in attributes[c.index].options
            && Names(part, attributes[c.index].attributeName, c.value, normalize)
    decreases |attributes| - from
  {
    if from < |attributes| {
      OptionsNamedMeaning(part, attributes[from], from, attributes[from].options, normalize, c);
      CandidatesMeaning(part, attributes, from + 1, normalize, c);
      var here, later := OptionsNamed(part, attributes[from], from, attributes[from].options, normalize),
                         Candidates(part, attributes, from + 1, normalize);
      assert Candidates(part, attributes, from, normalize) == here + later;
      assert c in here + later <==> c in here || c in later;
    }
  }

  /** The option a part stands for, when it names exactly one. */
  function Target(part: string, attributes: seq<Attribute>, normalize: Normalizer): Option<Candidate> {
    var candidates := Candidates(part, attributes, 0, normalize);
    if |candidates| == 1 then Some(candidates[0]) else None
  }

  function TargetOf(attributes: seq<Attribute>, normalize: Normalizer): string -> Option<Candidate> {
    part => Target(part, attributes, normalize)
  }

  function Targets(parts: seq<string>, attributes: seq<Attribute>, normalize: Normalizer): seq<Option<Candidate>> {
    Map(TargetOf(attributes, normalize), parts)
  }

  /** Every part stands for one option, and no two parts choose the same attribute. */
  predicate Distinct(ts: seq<Option<Candidate>>) {
    && (forall i :: 0 <= i < |ts| ==> ts[i].Some?)
    && forall i, j :: 0 <= i < j < |ts| ==> ts[i].value.index != ts[j].value.index
  }

  /** When the method answers. */
  predicate Complete(parts: seq<string>, attributes: seq<Attribute>, normalize: Normalizer) {
    && 2 <= |attributes| <= 8 && |parts| == |attributes| && "" !in parts
    && Distinct(Targets(parts, attributes, normalize))
  }

  /** `r` has one choice per attribute, an option of its own that one of the parts stands for. */
  ghost predicate Answers(r: seq<Choice>, ts: seq<Option<Candidate>>, attributes: seq<Attribute>) {
    && |r| == |attributes|
    && forall i :: 0 <= i < |r| ==>
         && r[i].attributeName == attributes[i].attributeName
         && r[i].attributeValue in attributes[i].options
         && Some(Candidate(i, r[i].attributeValue)) in ts
  }

  // ---------- Pigeonhole ----------

  lemma {:induction false} SubsetOfRange(s: set<nat>, n: nat)
    requires forall x <- s :: x < n
    ensures |s| <= n
    ensures |s| == n ==> forall x: nat | x < n :: x in s
  {
    if n == 0 {
      assert s == {};
    } else {
      SubsetOfRange(s - {n - 1}, n - 1);
    }
  }

  /** `selected` records the targets read so far, one entry each. */
  ghost predicate Recorded(selected: map<nat, string>, ts: seq<Option<Candidate>>) {
    && |selected| == |ts|
    && Distinct(ts)
    && (forall i :: 0 <= i < |ts| ==> ts[i].value.index in selected)
    && forall x <- selected :: Some(Candidate(x, selected[x])) in ts
  }

  ghost predicate InBounds(ts: seq<Option<Candidate>>, attributes: seq<Attribute>) {
    forall i :: 0 <= i < |ts| && ts[i].Some? ==>
      ts[i].value.index < |attributes| && ts[i].value.value in attributes[ts[i].value.index].options
  }

  /** As many distinct attributes as there are: none is missing. */
  lemma EveryAttributeSelected(selected: map<nat, string>, ts: seq<Option<Candidate>>, attributes: seq<Attribute>)
    requires Recorded(selected, ts) && InBounds(ts, attributes) && |ts| == |attributes|
    ensures forall i: nat | i < |attributes| :: i in selected && selected[i] in attributes[i].options
  {
    SubsetOfRange(selected.Keys, |attributes|);
  }

  lemma {:induction false} TargetsInBounds(parts: seq<string>, attributes: seq<Attribute>, normalize: Normalizer)
    ensures InBounds(Targets(parts, attributes, normalize), attributes)
  {
    forall i | 0 <= i < |parts| && Target(parts[i], attributes, normalize).Some?
      ensures var c := Target(parts[i], attributes, normalize).value;
              c.index < |attributes| && c.value in attributes[c.index].options
    {
      CandidatesMeaning(parts[i], attributes, 0, normalize, Candidates(parts[i], attributes, 0, normalize)[0]);
    }
  }

  lemma RecordStep(selected: map<nat, string>, ts: seq<Option<Candidate>>, k: nat)
    requires k < |ts| && Recorded(selected, ts[..k])
    ensures ts[k].None? || ts[k].value.index in selected ==> !Distinct(ts)
    ensures ts[k].Some? && ts[k].value.index !in selected ==>
              Recorded(selected[ts[k].value.index := ts[k].value.value], ts[..k + 1])
  {
    assert ts[..k + 1] == ts[..k] + [ts[k]];
    if ts[k].Some? && ts[k].value.index in selected {
      var i :| 0 <= i < k && ts[i] == Some(Candidate(ts[k].value.index, selected[ts[k].value.index]));
    }
  }

  // ---------- The method ----------

  /** The loop over the parts. */
  method Select(parts: seq<string>, attributes: seq<Attribute>, normalize: Normalizer)
      returns (r: Option<map<nat, string>>)
    ensures r.Some? <==> Distinct(Targets(parts, attributes, normalize))
    ensures r.Some? ==> Recorded(r.value, Targets(parts, attributes, normalize))
  {
    ghost var ts := Targets(parts, attributes, normalize);
    var selected: map<nat, string> := map[];
    for k := 0 to |parts|
      invariant Recorded(selected, ts[..k])
    {
      var target := Target(parts[k], attributes, normalize);
      RecordStep(selected, ts, k);
      if target.None? || target.value.index in selected { return None; }
      selected := selected[target.value.index := target.value.value];
    }
    assert ts[..|parts|] == ts;
    return Some(selected);
  }

  /** The final map over the attributes. */
  method Choices(attributes: seq<Attribute>, selected: map<nat, string>) returns (choices: seq<Choice>)
    requires forall i: nat | i < |attributes| :: i in selected
    ensures |choices| == |attributes|
    ensures forall i: nat | i < |attributes| :: choices[i] == Choice(attributes[i].attributeName, selected[i])
  {
    choices := [];
    for i := 0 to |attributes|
      invariant |choices| == i
      invariant forall x: nat :: x < i ==> choices[x] == Choice(attributes[x].attributeName, selected[x])
    {
      choices := choices + [Choice(attributes[i].attributeName, selected[i])];
    }
  }

  /** An answer exists exactly when the parts are complete, and then every `selected` lookup is defined. */
  method ParseCombinedOptions(parts: seq<string>, attributes: seq<Attribute>, normalize: Normalizer)
    returns (r: Option<seq<Choice>>)
    ensures r.Some? <==> Complete(parts, attributes, normalize)
    ensures r.Some? ==> Answers(r.value, Targets(parts, attributes, normalize), attributes)
  {
    if |attributes| < 2 || |attributes| > 8 { return None; }
    if |parts| != |attributes| || "" in parts { return None; }
    var selected := Select(parts, attributes, normalize);
    if selected.None? { return None; }
    TargetsInBounds(parts, attributes, normalize);
    EveryAttributeSelected(selected.value, Targets(parts, attributes, normalize), attributes);
    var choices := Choices(attributes, selected.value);
    return Some(choices);
  }

  // ---------- What a part stands for ----------

  /** The part spells option `j` of attribute `i`. */
  predicate Spells(part: string, attributes: seq<Attribute>, i: nat, j: nat, normalize: Normalizer) {
    i < |attributes| && j < |attributes[i].options|
    && Names(part, attributes[i].attributeName, attributes[i].options[j], normalize)
  }

  /** ... and no other option of any attribute. */
  ghost predicate StandsFor(part: string, attributes: seq<Attribute>, from: nat, i: nat, j: nat,
      normalize: Normalizer) {
    && from <= i && Spells(part, attributes, i, j, normalize)
    && forall k: nat, l: nat :: from <= k && Spells(part, attributes, k, l, normalize) ==> k == i && l == j
  }

  lemma {:induction false} NoneNamed(part: string, a: Attribute, index: nat, options: seq<string>,
      normalize: Normalizer)
    ensures OptionsNamed(part, a, index, options, normalize) == [] <==>
            forall j: nat :: j < |options| ==> !Names(part, a.attributeName, options[j], normalize)
    decreases |options|
  {
    if options != [] {
      NoneNamed(part, a, index, options[1..], normalize);
      if forall j: nat :: j < |options[1..]| ==> !Names(part, a.attributeName, options[1..][j], normalize) {
        forall j: nat | 0 < j < |options| ensures !Names(part, a.attributeName, options[j], normalize) {
          assert options[j] == options[1..][j - 1];
        }
      }
    }
  }

  lemma {:induction false} OneNamed(part: string, a: Attribute, index: nat, options: seq<string>, j: nat,
      normalize: Normalizer)
    requires j < |options| && Names(part, a.attributeName, options[j], normalize)
    requires forall l: nat :: l < |options| && l != j ==> !Names(part, a.attributeName, options[l], normalize)
    ensures OptionsNamed(part, a, index, options, normalize) == [Candidate(index, options[j])]
    decreases |options|
  {
    if j == 0 {
      forall l: nat | l < |options[1..]| ensures !Names(part, a.attributeName, options[1..][l], normalize) {
        assert options[1..][l] == options[l + 1];
      }
      NoneNamed(part, a, index, options[1..], normalize);
    } else {
      forall l: nat | l < |options[1..]| && l != j - 1
        ensures !Names(part, a.attributeName, options[1..][l], normalize)
      {
        assert options[1..][l] == options[l + 1];
      }
      OneNamed(part, a, index, options[1..], j - 1, normalize);
    }
  }

  lemma {:induction false} TheNamedOne(part: string, a: Attribute, index: nat, options: seq<string>,
      normalize: Normalizer) returns (j: nat)
    requires |OptionsNamed(part, a, index, options, normalize)| == 1
    ensures j < |options| && Names(part, a.attributeName, options[j], normalize)
    ensures forall l: nat :: l < |options| && l != j ==> !Names(part, a.attributeName, options[l], normalize)
    decreases |options|
  {
    if Names(part, a.attributeName, options[0], normalize) {
      j := 0;
      NoneNamed(part, a, index, options[1..], normalize);
      forall l: nat | 0 < l < |options| ensures !Names(part, a.attributeName, options[l], normalize) {
        assert options[l] == options[1..][l - 1];
      }
    } else {
      var k := TheNamedOne(part, a, index, options[1..], normalize);
      j := k + 1;
      forall l: nat | l < |options| && l != j ensures !Names(part, a.attributeName, options[l], normalize) {
        if l > 0 { assert options[l] == options[1..][l - 1]; }
      }
    }
  }

  ghost predicate NoneIn(part: string, attributes: seq<Attribute>, i: nat, normalize: Normalizer) {
    forall j: nat :: !Spells(part, attributes, i, j, normalize)
  }

  lemma NoneInExactlyWhen(part: string, attributes: seq<Attribute>, i: nat, normalize: Normalizer)
    requires i < |attributes|
    ensures NoneIn(part, attributes, i, normalize) <==>
            OptionsNamed(part, attributes[i], i, attributes[i].options, normalize) == []
  {
    NoneNamed(part, attributes[i], i, attributes[i].options, normalize);
    forall j: nat | j < |attributes[i].options|
      ensures Spells(part, attributes, i, j, normalize) <==>
              Names(part, attributes[i].attributeName, attributes[i].options[j], normalize)
    {
    }
  }

  lemma {:induction false} NoCandidates(part: string, attributes: seq<Attribute>, from: nat, normalize: Normalizer)
    requires from <= |attributes|
    ensures Candidates(part, attributes, from, normalize) == [] <==>
            forall i: nat | from <= i :: NoneIn(part, attributes, i, normalize)
    decreases |attributes| - from
  {
    if from < |attributes| {
      NoCandidates(part, attributes, from + 1, normalize);
      NoneInExactlyWhen(part, attributes, from, normalize);
    }
  }

  lemma {:induction false} OneCandidate(part: string, attributes: seq<Attribute>, from: nat, i: nat, j: nat,
      normalize: Normalizer)
    requires from <= |attributes| && StandsFor(part, attributes, from, i, j, normalize)
    ensures Candidates(part, attributes, from, normalize) == [Candidate(i, attributes[i].options[j])]
    decreases |attributes| - from
  {
    var a := attributes[from];
    assert forall l: nat :: l < |a.options| ==>
        (Spells(part, attributes, from, l, normalize) <==> Names(part, a.attributeName, a.options[l], normalize));
    if i == from {
      OneNamed(part, a, from, a.options, j, normalize);
      assert forall k: nat | from + 1 <= k :: NoneIn(part, attributes, k, normalize);
      NoCandidates(part, attributes, from + 1, normalize);
    } else {
      NoneNamed(part, a, from, a.options, normalize);
      OneCandidate(part, attributes, from + 1, i, j, normalize);
    }
  }

  lemma {:induction false} TheCandidate(part: string, attributes: seq<Attribute>, from: nat, normalize: Normalizer)
      returns (i: nat, j: nat)
    requires from <= |attributes| && |Candidates(part, attributes, from, normalize)| == 1
    ensures StandsFor(part, attributes, from, i, j, normalize)
    decreases |attributes| - from
  {
    var a := attributes[from];
    assert forall l: nat :: l < |a.options| ==>
        (Spells(part, attributes, from, l, normalize) <==> Names(part, a.attributeName, a.options[l], normalize));
    if OptionsNamed(part, a, from, a.options, normalize) == [] {
      NoneNamed(part, a, from, a.options, normalize);
      i, j := TheCandidate(part, attributes, from + 1, normalize);
    } else {
      i := from;
      j := TheNamedOne(part, a, from, a.options, normalize);
      NoCandidates(part, attributes, from + 1, normalize);
      forall k: nat, l: nat | from <= k && Spells(part, attributes, k, l, normalize) ensures k == from && l == j {
        assert from < k ==> NoneIn(part, attributes, k, normalize);
      }
    }
  }

  /** A part has a target exactly when it spells one option and no other, counted with repetition. */
  lemma TargetExactlyWhen(part: string, attributes: seq<Attribute>, i: nat, j: nat, normalize: Normalizer)
    requires Spells(part, attributes, i, j, normalize)
    ensures Target(part, attributes, normalize).Some? <==> StandsFor(part, attributes, 0, i, j, normalize)
    ensures StandsFor(part, attributes, 0, i, j, normalize) ==>
            Target(part, attributes, normalize) == Some(Candidate(i, attributes[i].options[j]))
  {
    if StandsFor(part, attributes, 0, i, j, normalize) { OneCandidate(part, attributes, 0, i, j, normalize); }
    if Target(part, attributes, normalize).Some? {
      var k, l := TheCandidate(part, attributes, 0, normalize);
    }
  }

  /** An answer exists exactly for 2 to 8 attributes, as many parts, none of them empty, that each stand for one
      option, of different attributes. */
  lemma CompleteExactlyWhen(parts: seq<string>, attributes: seq<Attribute>, normalize: Normalizer)
    ensures Complete(parts, attributes, normalize) <==>
            && 2 <= |attributes| <= 8 && |parts| == |attributes| && "" !in parts
            && (forall k :: 0 <= k < |parts| ==> IsClear(parts[k], attributes, normalize))
            && forall k, l :: 0 <= k < l < |parts| ==> ChooseApart(parts[k], parts[l], attributes, normalize)
  {
    forall k | 0 <= k < |parts|
      ensures Target(parts[k], attributes, normalize).Some? <==> IsClear(parts[k], attributes, normalize)
    {
      ClearHasTarget(parts[k], attributes, normalize);
    }
    forall k, l | 0 <= k < l < |parts| && IsClear(parts[k], attributes, normalize)
                  && IsClear(parts[l], attributes, normalize)
      ensures ChooseApart(parts[k], parts[l], attributes, normalize) <==>
              Target(parts[k], attributes, normalize).value.index != Target(parts[l], attributes, normalize).value.index
    {
      ApartTargets(parts[k], parts[l], attributes, normalize);
    }
  }

  /** The part stands for some option. */
  ghost predicate IsClear(part: string, attributes: seq<Attribute>, normalize: Normalizer) {
    exists i: nat, j: nat :: StandsFor(part, attributes, 0, i, j, normalize)
  }

  /** What the two parts stand for belongs to different attributes. */
  ghost predicate ChooseApart(p: string, q: string, attributes: seq<Attribute>, normalize: Normalizer) {
    forall i: nat, j: nat, k: nat, l: nat ::
      StandsFor(p, attributes, 0, i, j, normalize) && StandsFor(q, attributes, 0, k, l, normalize) ==> i != k
  }

  lemma ClearHasTarget(part: string, attributes: seq<Attribute>, normalize: Normalizer)
    ensures Target(part, attributes, normalize).Some? <==> IsClear(part, attributes, normalize)
  {
    if Target(part, attributes, normalize).Some? {
      var i, j := TheCandidate(part, attributes, 0, normalize);
    }
    if i: nat, j: nat :| StandsFor(part, attributes, 0, i, j, normalize) {
      OneCandidate(part, attributes, 0, i, j, normalize);
    }
  }

  lemma ApartTargets(p: string, q: string, attributes: seq<Attribute>, normalize: Normalizer)
    requires IsClear(p, attributes, normalize) && IsClear(q, attributes, normalize)
    ensures Target(p, attributes, normalize).Some? && Target(q, attributes, normalize).Some?
    ensures ChooseApart(p, q, attributes, normalize) <==>
            Target(p, attributes, normalize).value.index != Target(q, attributes, normalize).value.index
  {
    var i: nat, j: nat :| StandsFor(p, attributes, 0, i, j, normalize);
    var k: nat, l: nat :| StandsFor(q, attributes, 0, k, l, normalize);
    OneCandidate(p, attributes, 0, i, j, normalize);
    OneCandidate(q, attributes, 0, k, l, normalize);
  }

  // ---------- The order of the parts does not matter ----------

  lemma {:induction false} TwoPositions<T>(s: seq<T>, p: T)
    requires multiset(s)[p] > 1
    ensures exists i, j :: 0 <= i < j < |s| && s[i] == p && s[j] == p
    decreases |s|
  {
    assert s == [s[0]] + s[1..];
    if s[0] == p {
      assert p in multiset(s[1..]);
      var j :| 0 <= j < |s[1..]| && s[1..][j] == p;
      assert s[j + 1] == p;
    } else {
      TwoPositions(s[1..], p);
      var i, j :| 0 <= i < j < |s[1..]| && s[1..][i] == p && s[1..][j] == p;
      assert s[i + 1] == p && s[j + 1] == p;
    }
  }

  lemma DistinctPermutes(ts: seq<Option<Candidate>>, us: seq<Option<Candidate>>)
    requires multiset(ts) == multiset(us) && Distinct(ts)
    ensures Distinct(us)
  {
    forall k | 0 <= k < |us| ensures us[k] in ts && us[k].Some? {
      assert us[k] in multiset(us);
    }
    forall i, j | 0 <= i < j < |us| ensures us[i].value.index != us[j].value.index {
      assert us[i] in ts && us[j] in ts;
      if us[i] == us[j] {
        assert us == us[..i] + [us[i]] + us[i + 1..j] + [us[j]] + us[j + 1..];
        assert multiset(us)[us[i]] >= 2;
        TwoPositions(ts, us[i]);
      }
    }
  }

  /** Any answer for the parts is the answer for every reordering of them, and there is only one. */
  lemma OrderOfPartsIrrelevant(parts: seq<string>, other: seq<string>, attributes: seq<Attribute>,
                               normalize: Normalizer, r: seq<Choice>, s: seq<Choice>)
    requires multiset(parts) == multiset(other)
    ensures Complete(parts, attributes, normalize) <==> Complete(other, attributes, normalize)
    ensures (Complete(parts, attributes, normalize)
             && Answers(r, Targets(parts, attributes, normalize), attributes)
             && Answers(s, Targets(other, attributes, normalize), attributes)) ==> r == s
  {
    var ts, us := Targets(parts, attributes, normalize), Targets(other, attributes, normalize);
    MapPermutes(TargetOf(attributes, normalize), parts, other);
    assert |multiset(parts)| == |parts| && |multiset(other)| == |other|;
    assert "" in multiset(parts) <==> "" in multiset(other);
    if Distinct(ts) { DistinctPermutes(ts, us); }
    if Distinct(us) { DistinctPermutes(us, ts); }
    if Distinct(ts) && Answers(r, ts, attributes) && Answers(s, us, attributes) {
      OneAnswer(ts, us, attributes, r, s);
    }
  }

  lemma OneAnswer(ts: seq<Option<Candidate>>, us: seq<Option<Candidate>>, attributes: seq<Attribute>, r: seq<Choice>,
      s: seq<Choice>)
    requires multiset(ts) == multiset(us) && Distinct(ts) && Answers(r, ts, attributes) && Answers(s, us, attributes)
    ensures r == s
  {
    forall i | 0 <= i < |r| ensures r[i] == s[i] {
      assert Some(Candidate(i, s[i].attributeValue)) in multiset(us);
      assert Some(Candidate(i, s[i].attributeValue)) in ts;
    }
  }
}
