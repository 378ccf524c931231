/** Closed records as the schema of the frame reader sees them: looking up members, and building records that fit. */
module FrameRecords {
  import opened Wrappers
  import opened Preflight

  predicate Distinct(j: Json)
    requires j.Obj?
  {
    forall i, k :: 0 <= i < k < |j.fields| ==> j.fields[i].key != j.fields[k].key
  }

  predicate Has(j: Json, key: Key) {
    j.Obj? && exists i :: 0 <= i < |j.fields| && j.fields[i].key == key
  }

  /** The reader's unchecked member access. */
  function Get(j: Json, key: Key): (v: Json)
    requires Has(j, key)
    ensures exists i :: 0 <= i < |j.fields| && j.fields[i] == Field(key, v)
  {
    GetFrom(j, key, 0)
  }

  function GetFrom(j: Json, key: Key, i: nat): (v: Json)
    requires j.Obj? && i <= |j.fields| && exists k :: i <= k < |j.fields| && j.fields[k].key == key
    ensures exists k :: 0 <= k < |j.fields| && j.fields[k] == Field(key, v)
    decreases |j.fields| - i
  {
    if j.fields[i].key == key then
      assert j.fields[i] == Field(key, j.fields[i].value);
      j.fields[i].value
    else GetFrom(j, key, i + 1)
  }

  lemma GetAt(j: Json, i: nat)
    requires j.Obj? && Distinct(j) && i < |j.fields|
    ensures Has(j, j.fields[i].key) && Get(j, j.fields[i].key) == j.fields[i].value
  {
    var key := j.fields[i].key;
    assert Has(j, key);
    var k :| 0 <= k < |j.fields| && j.fields[k] == Field(key, Get(j, key));
    assert k == i;
  }

  lemma {:induction false} KeysAre(j: Json, i: nat)
    requires j.Obj? && i <= |j.fields|
    ensures |Keys(j, i)| == i && forall k :: 0 <= k < i ==> Keys(j, i)[k] == j.fields[k].key
  {
    if i > 0 {
      KeysAre(j, i - 1);
    }
  }

  lemma {:induction false} FieldFits(role: Role, j: Json, i: nat, k: nat)
    requires j.Obj? && i <= k < |j.fields| && FieldsFit(role, j, i)
    ensures Allowed(role, j.fields[k].key) && Fits(role, Some(j.fields[k].key), j.fields[k].value)
    ensures j.fields[k].key !in Keys(j, k)
    decreases k - i
  {
    hide Fits, Allowed;
    if i < k {
      FieldFits(role, j, i + 1, k);
    }
  }

  /** A record that fits has every member its variant names, and the member's value fits: reading it needs no check. */
  lemma Member(role: Role, j: Json, required: seq<Key>, key: Key)
    requires j.Obj? && FieldsFit(role, j, 0) && Exact(Keys(j, |j.fields|), required) && key in required
    ensures Has(j, key) && Fits(role, Some(key), Get(j, key))
  {
    hide Fits, FieldsFit, Allowed;
    KeysAre(j, |j.fields|);
    var r :| 0 <= r < |required| && required[r] == key;
    var k :| 0 <= k < |j.fields| && Keys(j, |j.fields|)[k] == key;
    assert j.fields[k].key == key;
    var i :| 0 <= i < |j.fields| && j.fields[i] == Field(key, Get(j, key));
    FieldFits(role, j, 0, i);
  }

  // ----- building records -----

  lemma {:induction false} RecordBuilt(role: Role, j: Json, i: nat)
    requires j.Obj? && i <= |j.fields| && Distinct(j)
    requires forall k :: 0 <= k < |j.fields| ==>
               Allowed(role, j.fields[k].key) && Fits(role, Some(j.fields[k].key), j.fields[k].value)
    ensures FieldsFit(role, j, i)
    decreases |j.fields| - i
  {
    hide Fits, Allowed;
    if i < |j.fields| {
      KeysAre(j, i);
      RecordBuilt(role, j, i + 1);
    }
  }

  /** A record whose members are exactly the required ones, in order. */
  lemma ExactlyRequired(j: Json, required: seq<Key>)
    requires j.Obj? && |j.fields| == |required| && forall k :: 0 <= k < |required| ==> j.fields[k].key == required[k]
    ensures Exact(Keys(j, |j.fields|), required)
  {
    KeysAre(j, |j.fields|);
    forall k | 0 <= k < |required|
      ensures required[k] in Keys(j, |j.fields|)
    {
      assert Keys(j, |j.fields|)[k] == required[k];
    }
  }

  lemma {:induction false} DiscriminatorAt(role: Role, j: Json, d: nat, i: nat)
    requires j.Obj? && d < i <= |j.fields| && Discriminates(role, Some(j.fields[d].key)) && j.fields[d].value.Str?
    requires forall k :: d < k < |j.fields| ==> !Discriminates(role, Some(j.fields[k].key))
    ensures Discriminator(role, j, i) == j.fields[d].value.text
  {
    if d + 1 < i {
      DiscriminatorAt(role, j, d, i - 1);
    }
  }

  function WeightAt(role: Role, j: Json, i: nat): nat
    requires j.Obj?
  {
    if i < |j.fields| then Weight(role, Some(j.fields[i].key), j.fields[i].value) else 0
  }

  function NodesAt(j: Json, i: nat): nat
    requires j.Obj?
  {
    if i < |j.fields| then Nodes(j.fields[i].value) else 0
  }

  function WeightFrom(role: Role, j: Json, i: nat): nat
    requires j.Obj?
  {
    if i < |j.fields| then FieldWeight(role, j, i) else 0
  }

  function NodesFrom(j: Json, i: nat): nat
    requires j.Obj?
  {
    if i < |j.fields| then FieldNodes(j, i) else 0
  }

  lemma SumStep(role: Role, j: Json, i: nat)
    requires j.Obj?
    ensures WeightFrom(role, j, i) == WeightAt(role, j, i) + WeightFrom(role, j, i + 1)
    ensures NodesFrom(j, i) == NodesAt(j, i) + NodesFrom(j, i + 1)
  {
    hide Weight, Nodes;
    if i < |j.fields| {
      assert FieldWeight(role, j, i) == WeightAt(role, j, i) + FieldWeight(role, j, i + 1);
      assert FieldNodes(j, i) == NodesAt(j, i) + FieldNodes(j, i + 1);
      NothingLeft(role, j);
    }
  }

  lemma NothingLeft(role: Role, j: Json)
    requires j.Obj?
    ensures FieldWeight(role, j, |j.fields|) == 0 && FieldNodes(j, |j.fields|) == 0
  {
  }

  /** The sums over a record of at most ten members, written out. */
  lemma SumsOf(role: Role, j: Json)
    requires j.Obj? && |j.fields| <= 10
    ensures FieldWeight(role, j, 0)
         == WeightAt(role, j, 0) + WeightAt(role, j, 1) + WeightAt(role, j, 2) + WeightAt(role, j, 3)
             + WeightAt(role, j, 4)
            + WeightAt(role, j, 5) + WeightAt(role, j, 6) + WeightAt(role, j, 7) + WeightAt(role, j, 8)
                + WeightAt(role, j, 9)
    ensures FieldNodes(j, 0)
         == NodesAt(j, 0) + NodesAt(j, 1) + NodesAt(j, 2) + NodesAt(j, 3) + NodesAt(j, 4)
            + NodesAt(j, 5) + NodesAt(j, 6) + NodesAt(j, 7) + NodesAt(j, 8) + NodesAt(j, 9)
  {
    hide WeightFrom, NodesFrom, WeightAt, NodesAt, FieldWeight, FieldNodes;
    SumEnds(role, j);
    SumStep(role, j, 0);
    SumStep(role, j, 1);
    SumStep(role, j, 2);
    SumStep(role, j, 3);
    SumStep(role, j, 4);
    SumStep(role, j, 5);
    SumStep(role, j, 6);
    SumStep(role, j, 7);
    SumStep(role, j, 8);
    SumStep(role, j, 9);
  }

  lemma SumEnds(role: Role, j: Json)
    requires j.Obj? && |j.fields| <= 10
    ensures FieldWeight(role, j, 0) == WeightFrom(role, j, 0) && FieldNodes(j, 0) == NodesFrom(j, 0)
    ensures WeightFrom(role, j, 10) == 0 && NodesFrom(j, 10) == 0
  {
  }
}
