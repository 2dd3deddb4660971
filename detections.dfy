/** What run_inference does with the service's answer: normalise every
    returned category, number the distinct names, and walk the objects in
    order to fill the arrays handed to the annotators and the JSON summary. */
module Detections {
  import opened Wrappers
  import opened PyText

  /** One entry of the answer's "objects" list. The box, the run-length
      encoded mask and the score are carried through without being looked at,
      so their types are parameters. */
  datatype RawObject<B, M, S> = RawObject(category: string, bbox: B, mask: M, score: S)

  /** The task result; its "objects" key may be missing. */
  datatype TaskResult<B, M, S> = TaskResult(objects: Option<seq<RawObject<B, M, S>>>)

  /** One entry of the JSON "detections" list. */
  datatype Detection<B, S> = Detection(bbox: B, categoryName: string, categoryId: int, score: S)

  /** The JSON summary returned beside the image. */
  datatype JsonResult<B, S> = JsonResult(detections: seq<Detection<B, S>>)

  /** `result.get("objects", [])`. */
  function Objects<B, M, S>(result: TaskResult<B, M, S>): seq<RawObject<B, M, S>> {
    result.objects.GetOr([])
  }

  /** The list `classes`: every object's category, normalised by `norm`. */
  function Classes<B, M, S>(objects: seq<RawObject<B, M, S>>, norm: string -> string): seq<string> {
    seq(|objects|, i requires 0 <= i < |objects| => norm(objects[i].category))
  }

  /** `set(classes)`: the distinct normalised names. */
  function DistinctClasses<B, M, S>(objects: seq<RawObject<B, M, S>>, norm: string -> string): set<string> {
    set name | name in Classes(objects, norm)
  }

  /** Every object's normalised category is one of the distinct names, and
      every distinct name is the normalised category of some object. */
  lemma DistinctClassesExact<B, M, S>(objects: seq<RawObject<B, M, S>>, norm: string -> string)
    ensures forall i :: 0 <= i < |objects| ==> norm(objects[i].category) in DistinctClasses(objects, norm)
    ensures forall name :: name in DistinctClasses(objects, norm) ==>
      exists i :: 0 <= i < |objects| && norm(objects[i].category) == name
  {
    var classes := Classes(objects, norm);
    forall i | 0 <= i < |objects| ensures norm(objects[i].category) in DistinctClasses(objects, norm) {
      assert classes[i] == norm(objects[i].category);
    }
    forall name | name in DistinctClasses(objects, norm)
      ensures exists i :: 0 <= i < |objects| && norm(objects[i].category) == name
    {
      var i :| 0 <= i < |classes| && classes[i] == name;
      assert norm(objects[i].category) == name;
    }
  }

  /** No name occurs twice. */
  predicate Distinct(order: seq<string>) {
    forall i, j :: 0 <= i < j < |order| ==> order[i] != order[j]
  }

  /** `order` lists the elements of `names` once each: one of the orders in
      which Python may iterate over the set. */
  ghost predicate IsEnumeration(order: seq<string>, names: set<string>) {
    Distinct(order) && forall name :: name in order <==> name in names
  }

  /** Iterating a Python set: every name comes out once, in an order the
      language leaves open (the choice below may pick any element). */
  method IterateSet(names: set<string>) returns (order: seq<string>)
    ensures IsEnumeration(order, names)
  {
    order := [];
    var rest := names;
    while rest != {}
      invariant rest <= names
      invariant Distinct(order)
      invariant forall name :: name in order <==> name in names && name !in rest
      decreases |rest|
    {
      var name :| name in rest;
      order := order + [name];
      rest := rest - {name};
    }
  }

  /** An enumeration has exactly as many entries as the set has elements. */
  lemma {:induction false} EnumerationSize(order: seq<string>, names: set<string>)
    requires IsEnumeration(order, names)
    ensures |order| == |names|
    decreases |order|
  {
    if order != [] {
      var rest := order[1..];
      assert forall i :: 0 <= i < |rest| ==> rest[i] == order[i + 1];
      assert order[0] !in rest;
      assert IsEnumeration(rest, names - {order[0]});
      EnumerationSize(rest, names - {order[0]});
    } else {
      assert forall name :: name !in names;
      assert names == {};
    }
  }

  /** `{name: idx for idx, name in enumerate(order)}`: each name maps to its
      position in the iteration order, and each key is a listed name. */
  function ClassNameToId(order: seq<string>): (m: map<string, int>)
    requires Distinct(order)
    ensures forall name :: name in m <==> name in order
    ensures forall i :: 0 <= i < |order| ==> m[order[i]] == i
    ensures forall name :: name in m ==> 0 <= m[name] < |order| && order[m[name]] == name
  {
    map i | 0 <= i < |order| :: order[i] := i
  }

  /** The mapping that run_inference (app.py) builds from the set is a bijection from the distinct
      normalised names onto 0..k-1, k being the number of distinct names,
      whatever order Python iterates the set in. */
  lemma ClassIdsBijective<B, M, S>(objects: seq<RawObject<B, M, S>>, norm: string -> string, order: seq<string>)
    requires IsEnumeration(order, DistinctClasses(objects, norm))
    ensures var m := ClassNameToId(order);
      && m.Keys == DistinctClasses(objects, norm)
      && (forall id :: id in m.Values <==> 0 <= id < |DistinctClasses(objects, norm)|)
      && forall a, b :: a in m && b in m && m[a] == m[b] ==> a == b
  {
    var m := ClassNameToId(order);
    EnumerationSize(order, DistinctClasses(objects, norm));
    forall id | 0 <= id < |order| ensures id in m.Values {
      assert m[order[id]] == id;
    }
  }

  /** Ids looked up by name lie in 0..|order|-1 and agree exactly when the
      names agree. */
  lemma IdsFollowNames(order: seq<string>, classNames: seq<string>, classIds: seq<int>)
    requires Distinct(order)
    requires |classNames| == |classIds|
    requires forall k :: 0 <= k < |classIds| ==>
      classNames[k] in ClassNameToId(order) && classIds[k] == ClassNameToId(order)[classNames[k]]
    ensures forall i :: 0 <= i < |classIds| ==> 0 <= classIds[i] < |order|
    ensures forall i, j :: 0 <= i < |classIds| && 0 <= j < |classIds| ==>
      (classIds[i] == classIds[j] <==> classNames[i] == classNames[j])
  {
    var m := ClassNameToId(order);
    forall i, j | 0 <= i < |classIds| && 0 <= j < |classIds| && classIds[i] == classIds[j]
      ensures classNames[i] == classNames[j]
    {
      assert order[m[classNames[i]]] == classNames[i];
      assert order[m[classNames[j]]] == classNames[j];
    }
  }

  /** The loop of run_inference (app.py): walks the objects in order and appends to the
      five lists and to the JSON detections. Every normalised category must be
      a key of the mapping (the lookup would fail otherwise). */
  method AssembleDetections<B, M, G, S>(objects: seq<RawObject<B, M, S>>, norm: string -> string,
                                        classNameToId: map<string, int>, decode: M -> G)
    returns (boxes: seq<B>, masks: seq<G>, confidences: seq<S>, classNames: seq<string>,
             classIds: seq<int>, detections: seq<Detection<B, S>>)
    requires forall k :: 0 <= k < |objects| ==> norm(objects[k].category) in classNameToId
    ensures |boxes| == |masks| == |confidences| == |classNames| == |classIds| == |objects|
    ensures |detections| == |objects|
    ensures forall i :: 0 <= i < |objects| ==> boxes[i] == objects[i].bbox
    ensures forall i :: 0 <= i < |objects| ==> masks[i] == decode(objects[i].mask)
    ensures forall i :: 0 <= i < |objects| ==> confidences[i] == objects[i].score
    ensures forall i :: 0 <= i < |objects| ==> classNames[i] == norm(objects[i].category)
    ensures forall i :: 0 <= i < |objects| ==>
      classNames[i] in classNameToId && classIds[i] == classNameToId[classNames[i]]
    ensures forall i :: 0 <= i < |objects| ==>
      detections[i] == Detection(objects[i].bbox, classNames[i], classIds[i], objects[i].score)
  {
    boxes, masks, confidences, classNames, classIds := [], [], [], [], [];
    detections := [];
    for i := 0 to |objects|
      invariant |boxes| == |masks| == |confidences| == |classNames| == |classIds| == i
      invariant |detections| == i
      invariant forall k :: 0 <= k < i ==> boxes[k] == objects[k].bbox
      invariant forall k :: 0 <= k < i ==> masks[k] == decode(objects[k].mask)
      invariant forall k :: 0 <= k < i ==> confidences[k] == objects[k].score
      invariant forall k :: 0 <= k < i ==> classNames[k] == norm(objects[k].category)
      invariant forall k :: 0 <= k < i ==>
        classNames[k] in classNameToId && classIds[k] == classNameToId[classNames[k]]
      invariant forall k :: 0 <= k < i ==>
        detections[k] == Detection(objects[k].bbox, classNames[k], classIds[k], objects[k].score)
    {
      var obj := objects[i];
      boxes := boxes + [obj.bbox];
      masks := masks + [decode(obj.mask)];
      confidences := confidences + [obj.score];
      var clsName := norm(obj.category);
      classNames := classNames + [clsName];
      classIds := classIds + [classNameToId[clsName]];
      detections := detections + [Detection(obj.bbox, clsName, classNameToId[clsName], obj.score)];
    }
  }

  /** run_inference from the answer onwards, for a given normalisation
      `norm`; `decode` stands for the mask decoder. The distinct names are
      numbered in whatever order the set yields them, so the mapping is
      specified only as a bijection onto 0..k-1. Returns the five lists, the
      mapping, the JSON summary and whether the annotators run at all. */
  method Postprocess<B, M, G, S>(result: TaskResult<B, M, S>, norm: string -> string, decode: M -> G)
    returns (boxes: seq<B>, masks: seq<G>, confidences: seq<S>, classNames: seq<string>,
             classIds: seq<int>, classNameToId: map<string, int>, json: JsonResult<B, S>,
             annotate: bool)
    ensures var names := DistinctClasses(Objects(result), norm);
      && classNameToId.Keys == names
      && (forall id :: id in classNameToId.Values <==> 0 <= id < |names|)
      && (forall a, b :: a in classNameToId && b in classNameToId && classNameToId[a] == classNameToId[b] ==> a == b)
    ensures var objects := Objects(result);
      && |boxes| == |masks| == |confidences| == |classNames| == |classIds| == |objects|
      && |json.detections| == |objects|
    ensures var objects := Objects(result);
      forall i :: 0 <= i < |objects| ==>
        && boxes[i] == objects[i].bbox
        && masks[i] == decode(objects[i].mask)
        && confidences[i] == objects[i].score
        && classNames[i] == norm(objects[i].category)
        && classNames[i] in classNameToId
        && classIds[i] == classNameToId[classNames[i]]
    ensures var objects := Objects(result);
      forall i :: 0 <= i < |objects| ==>
        && json.detections[i].bbox == objects[i].bbox
        && json.detections[i].categoryName == classNames[i]
        && json.detections[i].categoryId == classIds[i]
        && json.detections[i].score == objects[i].score
    ensures forall i :: 0 <= i < |classIds| ==>
      0 <= classIds[i] < |DistinctClasses(Objects(result), norm)|
    ensures forall i, j :: 0 <= i < |classIds| && 0 <= j < |classIds| ==>
      (classIds[i] == classIds[j] <==> classNames[i] == classNames[j])
    ensures annotate <==> Objects(result) != []
  {
    var objects := result.objects.GetOr([]);
    var order := IterateSet(DistinctClasses(objects, norm));
    classNameToId := ClassNameToId(order);
    ClassIdsBijective(objects, norm, order);
    DistinctClassesExact(objects, norm);
    var detections;
    boxes, masks, confidences, classNames, classIds, detections :=
      AssembleDetections(objects, norm, classNameToId, decode);
    json := JsonResult(detections);
    annotate := |boxes| != 0;
    IdsFollowNames(order, classNames, classIds);
    EnumerationSize(order, DistinctClasses(objects, norm));
  }
}
