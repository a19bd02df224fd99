/**
 * The progress list App.tsx shows while it searches for an address: four
 * fixed stages, each updated with `prev.map(s => s.id === id ? {...s, status} : s)`.
 */
module Steps {

  datatype Status = Pending | InProgress | Done

  datatype Step = Step(id: string, caption: string, status: Status)

  /** The list `takePhoto` starts every run with. */
  const InitialSteps: seq<Step> := [
    Step("loc", "getting location", InProgress),
    Step("dir", "getting direction", Pending),
    Step("calc", "calculated coords", Pending),
    Step("osm", "sending coords to OSM", Pending)
  ]

  /**
   * Sets the status of every entry whose id is `id`. The list keeps its
   * length, order, ids and captions (the `label` field), and only the matching entries change.
   */
  function SetStatus(steps: seq<Step>, id: string, status: Status): (r: seq<Step>)
    ensures |r| == |steps|
    ensures forall i :: 0 <= i < |r| ==> r[i].id == steps[i].id && r[i].caption == steps[i].caption
    ensures forall i :: 0 <= i < |r| && steps[i].id == id ==> r[i].status == status
    ensures forall i :: 0 <= i < |r| && steps[i].id != id ==> r[i] == steps[i]
  {
    if |steps| == 0 then []
    else
      var head := if steps[0].id == id then steps[0].(status := status) else steps[0];
      [head] + SetStatus(steps[1..], id, status)
  }

  /** Setting the same status twice is the same as setting it once. */
  lemma SetStatusIdempotent(steps: seq<Step>, id: string, status: Status)
    ensures SetStatus(SetStatus(steps, id, status), id, status) == SetStatus(steps, id, status)
  {
  }

  /** Updates of two different ids do not interfere: their order does not matter. */
  lemma SetStatusCommutes(steps: seq<Step>, id1: string, s1: Status, id2: string, s2: Status)
    requires id1 != id2
    ensures SetStatus(SetStatus(steps, id1, s1), id2, s2) == SetStatus(SetStatus(steps, id2, s2), id1, s1)
  {
  }

  /**
   * The list after one probe of the search: location, direction and
   * coordinates done, and the geocode stage done exactly when the reply
   * carried an address (otherwise it stays in progress).
   */
  function ProbedSteps(addressed: bool): seq<Step> {
    [
      Step("loc", "getting location", Done),
      Step("dir", "getting direction", Done),
      Step("calc", "calculated coords", Done),
      Step("osm", "sending coords to OSM", if addressed then Done else InProgress)
    ]
  }

  /** The four stage entries, in order, with their captions and any statuses. */
  ghost predicate Staged(steps: seq<Step>) {
    && |steps| == 4
    && (forall i :: 0 <= i < 4 ==> steps[i].id == InitialSteps[i].id && steps[i].caption == InitialSteps[i].caption)
  }

  /**
   * The updates one call of `computeEndCoordinates` makes, applied to any
   * staged list, give `ProbedSteps`: whatever the earlier probes left behind
   * is overwritten.
   */
  lemma ProbeUpdatesSteps(steps: seq<Step>, addressed: bool)
    requires Staged(steps)
    ensures var s := SetStatus(SetStatus(SetStatus(SetStatus(steps, "loc", Done), "dir", Done), "calc", Done), "osm", InProgress);
            (if addressed then SetStatus(s, "osm", Done) else s) == ProbedSteps(addressed)
  {
  }
}
