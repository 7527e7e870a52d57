/**
 * A pass made of awaited steps inside one `try` block: the steps run in
 * order, and the first step that throws skips every later one. Both the
 * main update loop and the indexer run their collaborators this way.
 */
module StepTrace {

  /** Every step outcome is a success. */
  predicate AllOk(ok: seq<bool>) {
    forall i :: 0 <= i < |ok| ==> ok[i]
  }

  /**
   * The steps that are started when step `steps[i]` succeeds exactly when
   * `ok[i]` holds: a prefix of `steps` that stops right after the first
   * failing step.
   */
  function Attempted<T>(steps: seq<T>, ok: seq<bool>): (r: seq<T>)
    requires |steps| == |ok|
    ensures |r| <= |steps| && r == steps[..|r|]
    ensures steps != [] ==> 0 < |r|
    ensures forall i :: 0 <= i < |r| - 1 ==> ok[i]
    ensures 0 < |r| < |steps| ==> !ok[|r| - 1]
    decreases |steps|
  {
    if steps == [] then []
    else if ok[0] then [steps[0]] + Attempted(steps[1..], ok[1..])
    else [steps[0]]
  }

  /** A pass succeeds exactly when every step was started and none threw. */
  lemma {:induction false} AttemptedAllOk<T>(steps: seq<T>, ok: seq<bool>)
    requires |steps| == |ok|
    ensures AllOk(ok) <==> (Attempted(steps, ok) == steps && (steps == [] || ok[|steps| - 1]))
  {
    var r := Attempted(steps, ok);
    if r == steps && steps != [] && ok[|steps| - 1] {
      forall i | 0 <= i < |ok| ensures ok[i] {
        if i < |r| - 1 { } else { assert i == |steps| - 1; }
      }
    }
  }

  /** A failing step is the last one started. */
  lemma FailureSkipsLater<T>(steps: seq<T>, ok: seq<bool>, i: nat)
    requires |steps| == |ok| && i < |ok| && !ok[i]
    ensures |Attempted(steps, ok)| <= i + 1
  {
  }
}
