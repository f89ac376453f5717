/** Container derivation for a packaging project object (`_createContainer`, `addContainer`). */
module ExportContainers {
  import opened Wrappers
  import opened Carpenters
  import opened ExportTypes

  /** The container of an object that has no archival container: one "Item" level. */
  function ItemContainer(index: int): Container
  {
    Container(None, Some("Item"), Some(index), None, None, None, None)
  }

  /** How many of the three levels have a truthy type. */
  function LevelCount(c: Container): nat
  {
    (if Truthy(c.type1) then 1 else 0) + (if Truthy(c.type2) then 1 else 0) + (if Truthy(c.type3) then 1 else 0)
  }

  /**
   * `addContainer`: the first level whose type is falsy becomes "Item" with
   * the object's index; every other field is kept, and a container with all
   * three types set comes back unchanged.
   */
  function AddContainer(c: Container, index: int): (r: Container)
    ensures !Truthy(c.type1) ==> r == c.(type1 := Some("Item"), indicator1 := Some(index))
    ensures Truthy(c.type1) && !Truthy(c.type2) ==> r == c.(type2 := Some("Item"), indicator2 := Some(index))
    ensures Truthy(c.type1) && Truthy(c.type2) && !Truthy(c.type3) ==> r == c.(type3 := Some("Item"), indicator3 := Some(index))
    ensures LevelCount(c) == 3 ==> r == c
    ensures LevelCount(r) == if LevelCount(c) == 3 then 3 else LevelCount(c) + 1
    ensures Truthy(r.type1)
  {
    if !Truthy(c.type1) then c.(type1 := Some("Item"), indicator1 := Some(index))
    else if !Truthy(c.type2) then c.(type2 := Some("Item"), indicator2 := Some(index))
    else if !Truthy(c.type3) then c.(type3 := Some("Item"), indicator3 := Some(index))
    else c
  }

  /** The instances `_createContainer` considers: those with a sub-container that names a top container. */
  function Registered(instances: seq<Instance>): (r: seq<SubContainer>)
    ensures forall s :: s in r ==> s.topContainer.Some?
    ensures |r| == 0 <==> forall i :: i in instances ==> i.subContainer.None? || i.subContainer.value.topContainer.None?
    decreases |instances|
  {
    if |instances| == 0 then []
    else
      var rest := Registered(instances[1..]);
      assert forall i :: i in instances ==> i == instances[0] || i in instances[1..];
      var i := instances[0];
      if i.subContainer.Some? && i.subContainer.value.topContainer.Some? then [i.subContainer.value] + rest else rest
  }

  /**
   * `_createContainer`: a single "Item" level for a non-archival project or
   * an archival object without a registered instance; no container without
   * an archival object; otherwise the first registered instance's levels, the
   * first level from its resolved top container, each type capitalized, with
   * "Item" added in the first free level. A rejected top-container lookup
   * rejects.
   */
  function CreateContainer(h: Helpers, services: Services, projectType: ProjectType, index: int, ao: Option<ArchivalObject>)
    : (r: Result<Option<Container>, Failure>)
    ensures projectType == NonArchival ==> r == Ok(Some(ItemContainer(index)))
    ensures projectType == Archival && ao.None? ==> r == Ok(None)
    ensures projectType == Archival && ao.Some? && |Registered(ao.value.instances)| == 0 ==> r == Ok(Some(ItemContainer(index)))
    ensures r.Ok? && r.value.Some? ==> Truthy(r.value.value.type1)
    ensures r.Err? ==> exists e :: r == Err(Rejected(e)) && services.topContainer(Registered(ao.value.instances)[0].topContainer.value) == Err(e)
    ensures projectType == Archival && ao.Some? && |Registered(ao.value.instances)| > 0 ==>
      var sub := Registered(ao.value.instances)[0];
      r == match services.topContainer(sub.topContainer.value)
        case Err(e) => Err(Rejected(e))
        case Ok(top) => Ok(Some(AddContainer(Container(sub.topContainer, h.capitalize(top.containerType), top.indicator,
          h.capitalize(sub.type2), sub.indicator2, h.capitalize(sub.type3), sub.indicator3), index)))
  {
    if projectType == NonArchival then Ok(Some(ItemContainer(index)))
    else if ao.None? then Ok(None)
    else
      var registered := Registered(ao.value.instances);
      if |registered| == 0 then Ok(Some(ItemContainer(index)))
      else
        var sub := registered[0];
        var ref := sub.topContainer.value;
        match services.topContainer(ref)
        case Err(e) => Err(Rejected(e))
        case Ok(top) =>
          Ok(Some(AddContainer(
            Container(Some(ref), h.capitalize(top.containerType), top.indicator,
              h.capitalize(sub.type2), sub.indicator2, h.capitalize(sub.type3), sub.indicator3),
            index)))
  }

  /** A registered instance whose levels are all set keeps them as they are, under its top container. */
  lemma FullContainerKept(h: Helpers, services: Services, index: int, ao: ArchivalObject, top: TopContainer)
    requires |Registered(ao.instances)| > 0
    requires var sub := Registered(ao.instances)[0];
      services.topContainer(sub.topContainer.value) == Ok(top) &&
      Truthy(h.capitalize(top.containerType)) && Truthy(h.capitalize(sub.type2)) && Truthy(h.capitalize(sub.type3))
    ensures var sub := Registered(ao.instances)[0];
      CreateContainer(h, services, Archival, index, Some(ao)) ==
        Ok(Some(Container(sub.topContainer, h.capitalize(top.containerType), top.indicator,
          h.capitalize(sub.type2), sub.indicator2, h.capitalize(sub.type3), sub.indicator3)))
  {
  }
}
