/** Places in a JSON value. */
module JsonPaths {
  import opened Texts
  import opened JsonValues

  datatype Step = Item(index: nat) | Key(key: Text)

  /** What one step leads to. */
  function Into(v: Json, step: Step): Option<Json> {
    match (v, step)
    case (Arr(items), Item(i)) => if i < |items| then Some(items[i]) else None
    case (Obj(fields), Key(key)) => Get(fields, key)
    case _ => None
  }

  /** The value at a place, if there is one. */
  function At(v: Json, path: seq<Step>): Option<Json>
    decreases |path|
  {
    if path == [] then Some(v)
    else
      var next := Into(v, path[0]);
      if next.None? then None else At(next.value, path[1..])
  }

  lemma IntoWellFormed(v: Json, step: Step)
    requires WellFormed(v) && Into(v, step).Some?
    ensures WellFormed(Into(v, step).value)
  {
    if step.Key? && v.Obj? {
      assert Field(step.key, Into(v, step).value) in v.fields;
    }
  }

  /** The value behind the last step is found by that step from the value before it. */
  lemma {:induction false} AtLast(v: Json, path: seq<Step>, step: Step)
    ensures At(v, path + [step]) == if At(v, path).None? then None else Into(At(v, path).value, step)
    decreases |path|
  {
    if path == [] {
      assert (path + [step])[1..] == [];
    } else {
      var next := Into(v, path[0]);
      assert (path + [step])[1..] == path[1..] + [step];
      if next.Some? {
        AtLast(next.value, path[1..], step);
      }
    }
  }
}
