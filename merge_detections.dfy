/** The detection merge (src/ai/flows/merge-detections-from-multiple-images.ts).
    The source hands the merge to a language model whose prompt states the
    rule: detections with the same label are duplicates, and of duplicates
    the one with the highest confidence is kept. Here that rule is the
    predicate `IsMergeOf`, and `Merge` is a deterministic reference merge
    proved to satisfy it. Nothing here claims that the model obeys the rule. */
module MergeDetections {
  import opened Types
  import opened SeqUtil

  /** `MergeDetectionsInputSchema`: one detection list per image. */
  datatype MergeDetectionsInput = MergeDetectionsInput(imageDetections: seq<seq<ObjectDetection>>)

  /** `MergeDetectionsOutputSchema`. The explanation is free text. */
  datatype MergeDetectionsOutput = MergeDetectionsOutput(mergedDetections: seq<ObjectDetection>, explanation: string)

  /** All detections of all images, image by image. */
  function Flatten(groups: seq<seq<ObjectDetection>>): seq<ObjectDetection> {
    if groups == [] then [] else groups[0] + Flatten(groups[1..])
  }

  /** The merge rule, on the flattened input `all`:
      labels are pairwise distinct; every kept detection is one of the
      inputs (nothing is invented); no input with the same label has a
      higher confidence; and every input label survives. */
  predicate IsMergeOf(all: seq<ObjectDetection>, merged: seq<ObjectDetection>) {
    && NoDup(Labels(merged))
    && (forall d :: d in merged ==> d in all)
    && (forall d, e :: d in merged && e in all && e.labelId == d.labelId ==> e.confidence <= d.confidence)
    && (forall e :: e in all ==> e.labelId in Labels(merged))
  }

  /** Position of the detection with this label, or -1. */
  function LabelIndex(acc: seq<ObjectDetection>, id: string): (i: int)
    ensures -1 <= i < |acc|
    ensures i >= 0 ==> acc[i].labelId == id
    ensures i < 0 <==> id !in Labels(acc)
  {
    if acc == [] then -1
    else if acc[0].labelId == id then 0
    else
      var k := LabelIndex(acc[1..], id);
      assert Labels(acc) == [acc[0].labelId] + Labels(acc[1..]);
      if k < 0 then -1 else k + 1
  }

  /** Adds one detection to a merged list: a new label is appended; a known
      label is replaced only by a strictly higher confidence, so of equal
      confidences the first one seen stays. */
  function Upsert(acc: seq<ObjectDetection>, d: ObjectDetection): seq<ObjectDetection> {
    var i := LabelIndex(acc, d.labelId);
    if i < 0 then acc + [d]
    else if d.confidence > acc[i].confidence then acc[i := d]
    else acc
  }

  function MergeAll(all: seq<ObjectDetection>): seq<ObjectDetection> {
    if all == [] then [] else Upsert(MergeAll(all[..|all| - 1]), all[|all| - 1])
  }

  /** The reference merge of the images' detection lists. */
  function Merge(groups: seq<seq<ObjectDetection>>): (merged: seq<ObjectDetection>)
    ensures IsMergeOf(Flatten(groups), merged)
    ensures Labels(merged) == Dedupe(Labels(Flatten(groups)))
  {
    MergeAllIsMerge(Flatten(groups));
    MergeAllLabelOrder(Flatten(groups));
    MergeAll(Flatten(groups))
  }

  // ----- Proofs -----

  lemma UpsertLabels(acc: seq<ObjectDetection>, d: ObjectDetection)
    ensures Labels(Upsert(acc, d))
         == if d.labelId in Labels(acc) then Labels(acc) else Labels(acc) + [d.labelId]
  {
    var i := LabelIndex(acc, d.labelId);
    if i >= 0 && d.confidence > acc[i].confidence {
      assert Labels(acc[i := d]) == Labels(acc);
    }
  }

  /** One step of the merge keeps the rule. */
  lemma UpsertKeepsRule(init: seq<ObjectDetection>, acc: seq<ObjectDetection>, d: ObjectDetection)
    requires IsMergeOf(init, acc)
    ensures IsMergeOf(init + [d], Upsert(acc, d))
  {
    var i := LabelIndex(acc, d.labelId);
    if i < 0 {
      AppendKeepsRule(init, acc, d);
    } else if d.confidence > acc[i].confidence {
      ReplaceKeepsRule(init, acc, d, i);
    } else {
      DropKeepsRule(init, acc, d, i);
    }
  }

  /** A new label: the detection is appended. */
  lemma AppendKeepsRule(init: seq<ObjectDetection>, acc: seq<ObjectDetection>, d: ObjectDetection)
    requires IsMergeOf(init, acc)
    requires d.labelId !in Labels(acc)
    ensures IsMergeOf(init + [d], acc + [d])
  {
    var all := init + [d];
    var r := acc + [d];
    assert Labels(r) == Labels(acc) + [d.labelId];
    NoDupConcat(Labels(acc), [d.labelId]);
    forall x, e | x in r && e in all && e.labelId == x.labelId
      ensures e.confidence <= x.confidence
    {
      assert e == d || e in init;
    }
  }

  /** A known label with a strictly higher confidence: the survivor is replaced. */
  lemma ReplaceKeepsRule(init: seq<ObjectDetection>, acc: seq<ObjectDetection>, d: ObjectDetection, i: nat)
    requires IsMergeOf(init, acc)
    requires i < |acc| && acc[i].labelId == d.labelId && d.confidence > acc[i].confidence
    ensures IsMergeOf(init + [d], acc[i := d])
  {
    var all := init + [d];
    var r := acc[i := d];
    assert Labels(r) == Labels(acc);
    forall x | x in r ensures x in all {
      var j :| 0 <= j < |r| && r[j] == x;
      if j != i { assert x == acc[j]; }
    }
    forall x, e | x in r && e in all && e.labelId == x.labelId
      ensures e.confidence <= x.confidence
    {
      var j :| 0 <= j < |r| && r[j] == x;
      if j == i {
        if e != d { assert e in init && acc[i].labelId == e.labelId; }
      } else {
        assert x == acc[j];
        assert Labels(acc)[j] != Labels(acc)[i];
      }
    }
    forall e | e in all ensures e.labelId in Labels(r) {
      if e != d { assert e in init; }
    }
  }

  /** A known label without a higher confidence: nothing changes. */
  lemma DropKeepsRule(init: seq<ObjectDetection>, acc: seq<ObjectDetection>, d: ObjectDetection, i: nat)
    requires IsMergeOf(init, acc)
    requires i < |acc| && acc[i].labelId == d.labelId && d.confidence <= acc[i].confidence
    ensures IsMergeOf(init + [d], acc)
  {
    var all := init + [d];
    forall x, e | x in acc && e in all && e.labelId == x.labelId
      ensures e.confidence <= x.confidence
    {
      if e == d {
        var j :| 0 <= j < |acc| && acc[j] == x;
        assert Labels(acc)[j] == Labels(acc)[i];
      } else {
        assert e in init;
      }
    }
    forall e | e in all ensures e.labelId in Labels(acc) {
      if e != d { assert e in init; } else { assert Labels(acc)[i] == d.labelId; }
    }
  }

  lemma {:induction false} MergeAllIsMerge(all: seq<ObjectDetection>)
    ensures IsMergeOf(all, MergeAll(all))
  {
    if all != [] {
      var init := all[..|all| - 1];
      MergeAllIsMerge(init);
      UpsertKeepsRule(init, MergeAll(init), all[|all| - 1]);
      assert all == init + [all[|all| - 1]];
    }
  }

  /** The reference merge lists labels in order of first appearance. */
  lemma {:induction false} MergeAllLabelOrder(all: seq<ObjectDetection>)
    ensures Labels(MergeAll(all)) == Dedupe(Labels(all))
  {
    if all != [] {
      var init := all[..|all| - 1];
      var d := all[|all| - 1];
      var labels := Labels(all);
      MergeAllLabelOrder(init);
      UpsertLabels(MergeAll(init), d);
      assert labels[..|labels| - 1] == Labels(init) && labels[|labels| - 1] == d.labelId;
      assert Dedupe(labels) == if d.labelId in Dedupe(Labels(init)) then Dedupe(Labels(init))
                               else Dedupe(Labels(init)) + [d.labelId];
    }
  }

  /** The rule determines the merged detections up to order: two lists that
      both obey it hold the same detections. */
  lemma MergeRuleDeterminesResult(all: seq<ObjectDetection>, a: seq<ObjectDetection>, b: seq<ObjectDetection>)
    requires IsMergeOf(all, a) && IsMergeOf(all, b)
    ensures forall d :: d in a <==> d in b
  {
    forall d | d in a ensures d in b { SameSurvivor(all, a, b, d); }
    forall d | d in b ensures d in a { SameSurvivor(all, b, a, d); }
  }

  lemma SameSurvivor(all: seq<ObjectDetection>, a: seq<ObjectDetection>, b: seq<ObjectDetection>, d: ObjectDetection)
    requires IsMergeOf(all, a) && IsMergeOf(all, b) && d in a
    ensures d in b
  {
    assert d.labelId in Labels(b);
    var j :| 0 <= j < |b| && Labels(b)[j] == d.labelId;
    var x := b[j];
    assert x in all;
    assert x.confidence <= d.confidence && d.confidence <= x.confidence;
    assert x == d;
  }

  /** Merging no images, or images with no detections, yields nothing. */
  lemma MergeOfNothingIsEmpty(groups: seq<seq<ObjectDetection>>, merged: seq<ObjectDetection>)
    requires forall k :: 0 <= k < |groups| ==> groups[k] == []
    requires IsMergeOf(Flatten(groups), merged)
    ensures merged == []
  {
    FlattenOfEmptyImages(groups);
    assert forall d :: d in merged ==> d in [];
  }

  lemma {:induction false} FlattenOfEmptyImages(groups: seq<seq<ObjectDetection>>)
    requires forall k :: 0 <= k < |groups| ==> groups[k] == []
    ensures Flatten(groups) == []
  {
    if groups != [] {
      FlattenOfEmptyImages(groups[1..]);
    }
  }

  /** A detection is in the flattened input exactly when some image holds it. */
  lemma {:induction false} FlattenMembership(groups: seq<seq<ObjectDetection>>, e: ObjectDetection)
    ensures e in Flatten(groups) <==> exists k :: 0 <= k < |groups| && e in groups[k]
  {
    if groups != [] {
      FlattenMembership(groups[1..], e);
      if e in groups[0] { }
      forall k | 1 <= k < |groups| ensures groups[k] == groups[1..][k - 1] { }
    }
  }
}
