/**
 * The pipeline builder: the ordered list of steps the user has picked
 * (`Step`, `addStep` and `removeStep` in app/page.tsx). Both operations
 * build a new list from the old one, so they are functions here.
 */
module Pipeline {

  import opened Catalog

  /** The most steps a pipeline may hold. */
  const MaxSteps: nat := 4

  /** One pipeline element; `prompt` is the instruction sent with this step. */
  datatype Step = Step(id: string, kind: StepKind, labelText: string, prompt: string)

  /** No two steps of the pipeline share an id. */
  ghost predicate UniqueIds(steps: seq<Step>)
  {
    forall i, j :: 0 <= i < j < |steps| ==> steps[i].id != steps[j].id
  }

  /** The invariant the builder keeps: bounded length and distinct ids. */
  ghost predicate ValidPipeline(steps: seq<Step>)
  {
    |steps| <= MaxSteps && UniqueIds(steps)
  }

  /** Some step of the pipeline carries this id. */
  ghost predicate HasId(steps: seq<Step>, id: string)
  {
    exists i :: 0 <= i < |steps| && steps[i].id == id
  }

  /**
   * Appends a step of the given kind, labelled and prompted from the catalog,
   * unless the pipeline is already full. The random id of the source is the
   * parameter `freshId`.
   */
  function AddStep(steps: seq<Step>, kind: StepKind, freshId: string): (r: seq<Step>)
    ensures |steps| >= MaxSteps ==> r == steps
    ensures |steps| < MaxSteps ==> |r| == |steps| + 1 && r[..|steps|] == steps
    ensures |steps| < MaxSteps ==>
      var added := r[|steps|];
      added.id == freshId && added.kind == kind &&
      added.labelText == Lookup(kind).labelText && added.prompt == Lookup(kind).defaultPrompt
    ensures |r| <= MaxSteps || r == steps
  {
    if |steps| >= MaxSteps then steps
    else
      var def := Lookup(kind);
      steps + [Step(freshId, kind, def.labelText, def.defaultPrompt)]
  }

  /** Keeps the steps whose id differs from `id`, in their original order. */
  function RemoveStep(steps: seq<Step>, id: string): (r: seq<Step>)
    ensures |r| <= |steps|
    ensures !HasId(r, id)
    ensures !HasId(steps, id) ==> r == steps
  {
    if steps == [] then []
    else
      var rest := RemoveStep(steps[1..], id);
      assert !HasId(steps, id) ==> !HasId(steps[1..], id) && steps[0].id != id by {
        if !HasId(steps, id) {
          forall i | 0 <= i < |steps[1..]| ensures steps[1..][i].id != id {
            assert steps[1..][i] == steps[i + 1];
          }
        }
      }
      if steps[0].id == id then rest else [steps[0]] + rest
  }

  /** Removal keeps exactly the steps whose id differs. */
  lemma {:induction false} RemoveStepKeepsOthers(steps: seq<Step>, id: string, s: Step)
    ensures s in RemoveStep(steps, id) <==> s in steps && s.id != id
  {
    if steps != [] {
      RemoveStepKeepsOthers(steps[1..], id, s);
      assert steps == [steps[0]] + steps[1..];
    }
  }

  /** Removal works element by element: it distributes over concatenation, so relative order is kept. */
  lemma {:induction false} RemoveStepDistributes(a: seq<Step>, b: seq<Step>, id: string)
    ensures RemoveStep(a + b, id) == RemoveStep(a, id) + RemoveStep(b, id)
  {
    if a == [] {
      assert a + b == b;
    } else {
      assert (a + b)[1..] == a[1..] + b;
      RemoveStepDistributes(a[1..], b, id);
    }
  }

  /** With distinct ids, removing the id of the step at position k drops exactly that step; the rest shift up. */
  lemma RemoveStepAt(steps: seq<Step>, k: nat)
    requires UniqueIds(steps) && k < |steps|
    ensures RemoveStep(steps, steps[k].id) == steps[..k] + steps[k + 1..]
  {
    var id, pre, post := steps[k].id, steps[..k], steps[k + 1..];
    var tail := steps[k..];
    IdOccursOnce(steps, k);
    assert tail[0].id == id && tail[1..] == post;
    assert steps == pre + tail;
    calc {
      RemoveStep(steps, id);
      { RemoveStepDistributes(pre, tail, id); }
      RemoveStep(pre, id) + RemoveStep(tail, id);
      pre + RemoveStep(post, id);
      pre + post;
    }
  }

  /** With distinct ids, the id of the step at position k occurs neither before nor after it. */
  lemma IdOccursOnce(steps: seq<Step>, k: nat)
    requires UniqueIds(steps) && k < |steps|
    ensures !HasId(steps[..k], steps[k].id) && !HasId(steps[k + 1..], steps[k].id)
  {
    var id, pre, post := steps[k].id, steps[..k], steps[k + 1..];
    forall i | 0 <= i < |pre| ensures pre[i].id != id {
      assert pre[i] == steps[i];
    }
    forall i | 0 <= i < |post| ensures post[i].id != id {
      assert post[i] == steps[k + 1 + i];
    }
  }

  /** Adding a step with an id not yet in use keeps the builder's invariant. */
  lemma AddStepKeepsValid(steps: seq<Step>, kind: StepKind, freshId: string)
    requires ValidPipeline(steps) && !HasId(steps, freshId)
    ensures ValidPipeline(AddStep(steps, kind, freshId))
  {
    var r := AddStep(steps, kind, freshId);
    if |steps| < MaxSteps {
      forall i, j | 0 <= i < j < |r| ensures r[i].id != r[j].id {
        if j == |steps| {
          assert r[i] == steps[i];
        } else {
          assert r[i] == steps[i] && r[j] == steps[j];
        }
      }
    }
  }

  /** Removing a step keeps the builder's invariant. */
  lemma {:induction false} RemoveStepKeepsValid(steps: seq<Step>, id: string)
    requires ValidPipeline(steps)
    ensures ValidPipeline(RemoveStep(steps, id))
  {
    if steps != [] {
      var rest := RemoveStep(steps[1..], id);
      assert ValidPipeline(steps[1..]) by {
        forall i, j | 0 <= i < j < |steps[1..]| ensures steps[1..][i].id != steps[1..][j].id {
          assert steps[1..][i] == steps[i + 1] && steps[1..][j] == steps[j + 1];
        }
      }
      RemoveStepKeepsValid(steps[1..], id);
      if steps[0].id != id {
        var r := [steps[0]] + rest;
        forall i, j | 0 <= i < j < |r| ensures r[i].id != r[j].id {
          if i == 0 {
            assert r[j] in rest;
            RemoveStepKeepsOthers(steps[1..], id, r[j]);
            var m :| 0 <= m < |steps[1..]| && steps[1..][m] == r[j];
            assert steps[m + 1] == r[j];
          } else {
            assert r[i] == rest[i - 1] && r[j] == rest[j - 1];
          }
        }
      }
    }
  }

  /**
   * Once the pipeline is full, a further add changes nothing: five adds
   * from the empty pipeline give the same four steps as the first four.
   */
  lemma FifthAddIsNoOp(k1: StepKind, k2: StepKind, k3: StepKind, k4: StepKind, k5: StepKind,
                       id1: string, id2: string, id3: string, id4: string, id5: string)
    ensures var p4 := AddStep(AddStep(AddStep(AddStep([], k1, id1), k2, id2), k3, id3), k4, id4);
            |p4| == MaxSteps && AddStep(p4, k5, id5) == p4 &&
            p4[0].kind == k1 && p4[1].kind == k2 && p4[2].kind == k3 && p4[3].kind == k4
  {
    var p1 := AddStep([], k1, id1);
    var p2 := AddStep(p1, k2, id2);
    assert p2[0] == p2[..1][0] == p1[0];
    var p3 := AddStep(p2, k3, id3);
    assert p3[0] == p3[..2][0] == p2[0] && p3[1] == p3[..2][1] == p2[1];
    var p4 := AddStep(p3, k4, id4);
    assert p4[0] == p4[..3][0] == p3[0] && p4[1] == p4[..3][1] == p3[1] && p4[2] == p4[..3][2] == p3[2];
  }
}
