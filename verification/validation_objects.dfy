/**
 The chassis's list of validation objects and the per-entry-point intercept
 vectors that hold the same objects. A validation object can take itself
 out of the chassis (or all objects can be taken out) while the device stays
 alive: removed objects are parked in an aborted list rather than deleted.
 */
module ValidationObjects {
  import opened Handles

  /** A validation object, identified by `id`, of a layer object type. */
  datatype ValidationObject = ValidationObject(id: nat, containerType: nat)

  datatype Chassis = Chassis(objectDispatch: seq<ValidationObject>,
                             interceptVectors: seq<seq<ValidationObject>>,
                             aborted: seq<ValidationObject>)

  /** The index of the first object of type `t`. */
  function FirstOfType(objs: seq<ValidationObject>, t: nat): (r: Option<nat>)
    ensures r.None? <==> forall k :: 0 <= k < |objs| ==> objs[k].containerType != t
    ensures r.Some? ==> r.value < |objs| && objs[r.value].containerType == t &&
                        forall k :: 0 <= k < r.value ==> objs[k].containerType != t
    decreases |objs|
  {
    if |objs| == 0 then None
    else if objs[0].containerType == t then Some(0)
    else
      match FirstOfType(objs[1..], t)
      case None => None
      case Some(k) => Some(k + 1)
  }

  /** The index of the first occurrence of `x`. */
  function IndexOf(v: seq<ValidationObject>, x: ValidationObject): (r: Option<nat>)
    ensures r.None? <==> x !in v
    ensures r.Some? ==> r.value < |v| && v[r.value] == x
    ensures r.Some? ==> forall j :: 0 <= j < r.value ==> v[j] != x
    decreases |v|
  {
    if |v| == 0 then None
    else if v[0] == x then Some(0)
    else
      match IndexOf(v[1..], x)
      case None => None
      case Some(k) => Some(k + 1)
  }

  /** `v` without its first occurrence of `x` (unchanged if absent). */
  function RemoveFirst(v: seq<ValidationObject>, x: ValidationObject): (r: seq<ValidationObject>)
    ensures x !in v ==> r == v
    ensures x in v ==> var k := IndexOf(v, x).value; r == v[..k] + v[k + 1..]
  {
    match IndexOf(v, x)
    case None => v
    case Some(k) => v[..k] + v[k + 1..]
  }

  /** GetValidationObject: the first object of the given type, if any. */
  function GetValidationObject(c: Chassis, t: nat): (r: Option<ValidationObject>)
    ensures r.None? <==> forall k :: 0 <= k < |c.objectDispatch| ==> c.objectDispatch[k].containerType != t
    ensures r.Some? ==> exists k :: 0 <= k < |c.objectDispatch| && c.objectDispatch[k] == r.value && r.value.containerType == t &&
                                    forall m :: 0 <= m < k ==> c.objectDispatch[m].containerType != t
  {
    match FirstOfType(c.objectDispatch, t)
    case None => None
    case Some(k) => Some(c.objectDispatch[k])
  }

  /** ReleaseDeviceValidationObject: the first object of the type leaves the
      object list and (its first occurrence) every intercept vector, and is
      appended to the aborted list. Without such an object nothing changes. */
  function ReleaseDeviceValidationObject(c: Chassis, t: nat): (r: Chassis)
    ensures FirstOfType(c.objectDispatch, t).None? ==> r == c
    ensures FirstOfType(c.objectDispatch, t).Some? ==>
              var k := FirstOfType(c.objectDispatch, t).value;
              var obj := c.objectDispatch[k];
              && r.objectDispatch == c.objectDispatch[..k] + c.objectDispatch[k + 1..]
              && |r.interceptVectors| == |c.interceptVectors|
              && (forall i :: 0 <= i < |c.interceptVectors| ==> r.interceptVectors[i] == RemoveFirst(c.interceptVectors[i], obj))
              && r.aborted == c.aborted + [obj]
  {
    match FirstOfType(c.objectDispatch, t)
    case None => c
    case Some(k) =>
      var obj := c.objectDispatch[k];
      Chassis(c.objectDispatch[..k] + c.objectDispatch[k + 1..],
              seq(|c.interceptVectors|, i requires 0 <= i < |c.interceptVectors| => RemoveFirst(c.interceptVectors[i], obj)),
              c.aborted + [obj])
  }

  /** ReleaseAllValidationObjects: every intercept vector is emptied and
      every object moves, in order, to the aborted list. */
  function ReleaseAllValidationObjects(c: Chassis): (r: Chassis)
    ensures r.objectDispatch == []
    ensures |r.interceptVectors| == |c.interceptVectors| && forall i :: 0 <= i < |r.interceptVectors| ==> r.interceptVectors[i] == []
    ensures r.aborted == c.aborted + c.objectDispatch
  {
    Chassis([], seq(|c.interceptVectors|, i => []), c.aborted + c.objectDispatch)
  }

  /** Releasing moves exactly one object: nothing is lost or duplicated
      across the object list and the aborted list, and the remaining objects
      keep their relative order. */
  lemma ReleaseConservesObjects(c: Chassis, t: nat)
    requires FirstOfType(c.objectDispatch, t).Some?
    ensures var r := ReleaseDeviceValidationObject(c, t);
            && multiset(r.objectDispatch) + multiset(r.aborted) == multiset(c.objectDispatch) + multiset(c.aborted)
            && |r.objectDispatch| == |c.objectDispatch| - 1
  {
    var k := FirstOfType(c.objectDispatch, t).value;
    var od := c.objectDispatch;
    assert od == od[..k] + [od[k]] + od[k + 1..];
  }

  /** With two objects of a type, releasing that type once makes the second
      one what GetValidationObject finds; releasing every object leaves
      nothing to find. */
  lemma ReleaseExposesNext(c: Chassis, t: nat, k2: nat)
    requires FirstOfType(c.objectDispatch, t).Some?
    requires FirstOfType(c.objectDispatch, t).value < k2 < |c.objectDispatch| && c.objectDispatch[k2].containerType == t
    requires forall m :: FirstOfType(c.objectDispatch, t).value < m < k2 ==> c.objectDispatch[m].containerType != t
    ensures GetValidationObject(ReleaseDeviceValidationObject(c, t), t) == Some(c.objectDispatch[k2])
    ensures GetValidationObject(ReleaseAllValidationObjects(c), t).None?
  {
    var k := FirstOfType(c.objectDispatch, t).value;
    var r := ReleaseDeviceValidationObject(c, t);
    var od := c.objectDispatch;
    assert r.objectDispatch[k2 - 1] == od[k2];
    assert forall m :: 0 <= m < k2 - 1 ==> r.objectDispatch[m] == (if m < k then od[m] else od[m + 1]);
    var g := FirstOfType(r.objectDispatch, t);
    assert g == Some(k2 - 1);
  }
}
