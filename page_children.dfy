/**
 * The children of a Page: sorting them into the four named slots
 * (`getChildrenObject`), deciding whether there is a tail, and the prop-type
 * validator that admits only the four allowed child components.
 */
module PageChildren {
  import opened Wrappers

  /**
   * One entry of the flattened `children` prop.
   * - `Empty`: `null`, `undefined` or a boolean, which React drops from
   *   `Children.toArray`; `truthy` only for `true`.
   * - `Primitive`: a string or a number, which React keeps; `truthy` unless it
   *   is `""` or `0`. It has no `type`, so reading `child.type.displayName`
   *   throws a TypeError.
   * - `Element`: a React element whose component type has the given
   *   `displayName` (`None` when it has none); `id` stands for the element's
   *   identity and props.
   */
  datatype Child =
    | Empty(truthy: bool)
    | Primitive(truthy: bool)
    | Element(displayName: Option<string>, id: nat)
  {
    /** JavaScript truthiness of the child (every element object is truthy). */
    predicate Truthy() {
      Element? || truthy
    }
  }

  /** The named slots of the children object. */
  datatype Slot = PageHeader | PageContent | PageFixedContent | PageTail

  /** The slot a display name is sorted into, if any. */
  function SlotOf(displayName: Option<string>): Option<Slot> {
    match displayName
    case None => None
    case Some(name) =>
      if name == "Page.Header" then Some(PageHeader)
      else if name == "Page.Content" then Some(PageContent)
      else if name == "Page.FixedContent" then Some(PageFixedContent)
      else if name == "Page.Tail" then Some(PageTail)
      else None
  }

  /** `child` is an element that the classifier puts into `slot`. */
  predicate Fills(child: Child, slot: Slot) {
    child.Element? && SlotOf(child.displayName) == Some(slot)
  }

  /** `cs[i]` is the last child that fills `slot`. */
  ghost predicate IsLastFilling(cs: seq<Child>, i: int, slot: Slot) {
    && 0 <= i < |cs|
    && Fills(cs[i], slot)
    && forall j :: i < j < |cs| ==> !Fills(cs[j], slot)
  }

  /**
   * One step of the `reduce`: an empty child was already dropped by
   * `toArray`, a primitive throws (`None`), an element with a recognised
   * display name overwrites its slot, any other element is ignored.
   */
  function ClassifyStep(acc: map<Slot, Child>, child: Child): Option<map<Slot, Child>> {
    match child
    case Empty(_) => Some(acc)
    case Primitive(_) => None
    case Element(name, _) =>
      match SlotOf(name)
      case None => Some(acc)
      case Some(slot) => Some(acc[slot := child])
  }

  /**
   * `getChildrenObject`: fails (a thrown TypeError) exactly when a primitive
   * child is present; otherwise a slot is filled exactly when some child fills
   * it, and it holds the last such child.
   */
  function ChildrenObject(cs: seq<Child>): (r: Option<map<Slot, Child>>)
    decreases |cs|
    ensures r.None? <==> exists i :: 0 <= i < |cs| && cs[i].Primitive?
    ensures r.Some? ==> forall slot :: slot in r.value <==> exists i :: 0 <= i < |cs| && Fills(cs[i], slot)
    ensures r.Some? ==> forall slot :: slot in r.value ==> exists i :: IsLastFilling(cs, i, slot) && r.value[slot] == cs[i]
  {
    if cs == [] then Some(map[])
    else
      var init := cs[..|cs| - 1];
      var last := cs[|cs| - 1];
      assert forall i :: 0 <= i < |init| ==> init[i] == cs[i];
      match ChildrenObject(init)
      case None => None
      case Some(acc) =>
        var r := ClassifyStep(acc, last);
        assert r.Some? ==> forall slot :: slot in r.value ==> exists i :: IsLastFilling(cs, i, slot) && r.value[slot] == cs[i] by {
          if r.Some? {
            forall slot | slot in r.value
              ensures exists i :: IsLastFilling(cs, i, slot) && r.value[slot] == cs[i]
            {
              if Fills(last, slot) {
                assert IsLastFilling(cs, |cs| - 1, slot);
              } else {
                var i :| IsLastFilling(init, i, slot) && acc[slot] == init[i];
                assert IsLastFilling(cs, i, slot);
              }
            }
          }
        }
        r
  }

  /**
   * `_hasTail`: whether the children object has its tail slot filled, which
   * is exactly when some child is a `Page.Tail` element. `None` when sorting
   * the children throws.
   */
  function HasTail(cs: seq<Child>): (r: Option<bool>)
    ensures r.None? <==> ChildrenObject(cs).None?
    ensures r.Some? ==> (r.value <==> exists i :: 0 <= i < |cs| && Fills(cs[i], PageTail))
  {
    match ChildrenObject(cs)
    case None => None
    case Some(slots) => Some(PageTail in slots)
  }

  /** The display names of `Page.Header`, `Page.Content`, `Page.FixedContent` and `Page.Tail`. */
  const AllowedDisplayNames: seq<string> := ["Page.Header", "Page.Content", "Page.FixedContent", "Page.Tail"]

  /** What the children validator reports for one child. */
  datatype Verdict = Accepted | Rejected | TypeError

  /**
   * The validator for one child: falsy children pass; a truthy non-element
   * throws on `child.type.displayName`; an element is rejected exactly when
   * the classifier would ignore it, that is, when its display name is not
   * one of the four allowed ones.
   */
  function ValidateChild(child: Child): (v: Verdict)
    ensures v == TypeError <==> child.Truthy() && !child.Element?
    ensures v == Rejected <==> child.Element? && SlotOf(child.displayName).None?
    ensures v == Accepted <==> !child.Truthy() || exists slot :: Fills(child, slot)
  {
    if !child.Truthy() then Accepted
    else if !child.Element? then TypeError
    else if child.displayName.Some? && child.displayName.value in AllowedDisplayNames then
      assert Fills(child, SlotOf(child.displayName).value);
      Accepted
    else Rejected
  }

  /**
   * The array validator applies the one-child validator in order and stops
   * at the first child that does not pass; the result is its index.
   */
  function FirstInvalidChild(cs: seq<Child>): (r: Option<nat>)
    ensures r.None? <==> forall i :: 0 <= i < |cs| ==> ValidateChild(cs[i]) == Accepted
    ensures r.Some? ==> r.value < |cs| && ValidateChild(cs[r.value]) != Accepted
    ensures r.Some? ==> forall j :: 0 <= j < r.value ==> ValidateChild(cs[j]) == Accepted
  {
    if cs == [] then None
    else if ValidateChild(cs[0]) != Accepted then Some(0)
    else
      match FirstInvalidChild(cs[1..])
      case None =>
        assert forall i :: 1 <= i < |cs| ==> cs[i] == cs[1..][i - 1];
        None
      case Some(k) => Some(k + 1)
  }

  /**
   * Children that pass validation leave nothing out: every element among them
   * fills a slot of the children object.
   */
  lemma {:induction false} ValidChildrenAreAllSlotted(cs: seq<Child>)
    requires FirstInvalidChild(cs).None?
    ensures forall i :: 0 <= i < |cs| && cs[i].Element? ==> SlotOf(cs[i].displayName).Some?
  {
    forall i | 0 <= i < |cs| && cs[i].Element?
      ensures SlotOf(cs[i].displayName).Some?
    {
      assert ValidateChild(cs[i]) == Accepted;
    }
  }

  /**
   * The validator lets a falsy primitive such as `0` or `""` through, while
   * `getChildrenObject` throws on it.
   */
  lemma FalsyPrimitivePassesValidatorButNotClassifier(header: Child)
    requires Fills(header, PageHeader)
    ensures FirstInvalidChild([header, Primitive(false)]).None?
    ensures ChildrenObject([header, Primitive(false)]).None?
  {
    var cs := [header, Primitive(false)];
    assert cs[1].Primitive?;
  }
}
