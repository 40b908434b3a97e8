/** The route status entry of this controller: found by controller name and parent reference,
    its conditions updated one by one, written only when something changed. */
module RouteStatus {
  import opened Text

  // ------------------------------------------------------------------- data

  /** `lastTransitionTime` is set by the update; conditions handed to it carry none. */
  datatype Condition = Condition(
    ctype: string,
    status: string,
    reason: string,
    message: string,
    observedGeneration: int,
    lastTransitionTime: int)

  datatype ParentReference = ParentReference(
    group: Option<string>,
    kind: Option<string>,
    namespace: Option<string>,
    name: string,
    sectionName: Option<string>,
    port: Option<int>)

  /** A Go slice: a nil slice and an empty one differ under reflect.DeepEqual. */
  datatype Slice = NilSlice | Slice(items: seq<Condition>)

  function Items(s: Slice): seq<Condition> {
    if s.NilSlice? then [] else s.items
  }

  /** What appending to a nil slice gives. */
  function Appended(items: seq<Condition>): Slice {
    if items == [] then NilSlice else Slice(items)
  }

  datatype RouteParentStatus = RouteParentStatus(
    parentRef: ParentReference,
    controllerName: string,
    conditions: Slice)

  function PtrEqual<T(==)>(a: Option<T>, b: Option<T>): bool {
    if a.None? || b.None? then a.None? && b.None? else a.value == b.value
  }

  predicate ParentRefEqual(a: ParentReference, b: ParentReference) {
    && PtrEqual(a.group, b.group)
    && PtrEqual(a.kind, b.kind)
    && PtrEqual(a.namespace, b.namespace)
    && a.name == b.name
    && PtrEqual(a.sectionName, b.sectionName)
    && PtrEqual(a.port, b.port)
  }

  // ----------------------------------------------------- one condition at a time

  function FirstOfType(conditions: seq<Condition>, ctype: string): (i: nat)
    ensures i <= |conditions|
    ensures i < |conditions| ==> conditions[i].ctype == ctype
    ensures forall j | 0 <= j < i :: conditions[j].ctype != ctype
  {
    if conditions == [] then 0
    else if conditions[0].ctype == ctype then 0
    else 1 + FirstOfType(conditions[1..], ctype)
  }

  /** An existing condition takes over everything but, unless the status changes, the time. */
  function Merge(old_c: Condition, c: Condition, now: int): Condition {
    c.(lastTransitionTime := if old_c.status != c.status then now else old_c.lastTransitionTime)
  }

  /** apiMeta.SetStatusCondition. */
  function SetCondition(conditions: seq<Condition>, c: Condition, now: int): seq<Condition> {
    var i := FirstOfType(conditions, c.ctype);
    if i < |conditions| then conditions[i := Merge(conditions[i], c, now)]
    else conditions + [c.(lastTransitionTime := now)]
  }

  function SetConditions(existing: seq<Condition>, conditions: seq<Condition>, generation: int, now: int)
    : seq<Condition>
  {
    if conditions == [] then existing
    else
      var n := |conditions| - 1;
      SetCondition(SetConditions(existing, conditions[..n], generation, now),
                   conditions[n].(observedGeneration := generation), now)
  }

  /** One update, in full: the first condition of the type takes over the new content, and its
      time is that of the pass unless its status stays; a type not yet present is appended
      with the time of the pass; nothing else changes. */
  lemma SetConditionIsExact(conditions: seq<Condition>, c: Condition, now: int)
    ensures var after := SetCondition(conditions, c, now);
            if exists i :: 0 <= i < |conditions| && conditions[i].ctype == c.ctype then
              exists i ::
                && 0 <= i < |conditions| && conditions[i].ctype == c.ctype
                && (forall j | 0 <= j < i :: conditions[j].ctype != c.ctype)
                && |after| == |conditions| && (forall j | 0 <= j < |conditions| && j != i :: after[j] == conditions[j])
                && after[i].ctype == c.ctype && after[i].status == c.status && after[i].reason == c.reason
                && after[i].message == c.message && after[i].observedGeneration == c.observedGeneration
                && after[i].lastTransitionTime ==
                   (if conditions[i].status == c.status then conditions[i].lastTransitionTime else now)
            else after == conditions + [Condition(c.ctype, c.status, c.reason, c.message, c.observedGeneration, now)]
  {
    var i := FirstOfType(conditions, c.ctype);
    if i < |conditions| {
      assert conditions[i].ctype == c.ctype;
    }
  }

  // --------------------------------------------------------------- the upsert

  predicate Ours(p: RouteParentStatus, controller: string, ref: ParentReference) {
    p.controllerName == controller && ParentRefEqual(p.parentRef, ref)
  }

  function FirstOurs(parents: seq<RouteParentStatus>, controller: string, ref: ParentReference): (i: nat)
    ensures i <= |parents|
    ensures i < |parents| ==> Ours(parents[i], controller, ref)
    ensures forall j | 0 <= j < i :: !Ours(parents[j], controller, ref)
  {
    if parents == [] then 0
    else if Ours(parents[0], controller, ref) then 0
    else 1 + FirstOurs(parents[1..], controller, ref)
  }

  /** The entry the call wants to see for (controller, ref). */
  function Wanted(
    parents: seq<RouteParentStatus>, controller: string, ref: ParentReference, generation: int,
    conditions: seq<Condition>, now: int): RouteParentStatus
  {
    var i := FirstOurs(parents, controller, ref);
    var existing := if i < |parents| then Items(parents[i].conditions) else [];
    RouteParentStatus(ref, controller, Appended(SetConditions(existing, conditions, generation, now)))
  }

  function Upserted(
    parents: seq<RouteParentStatus>, controller: string, ref: ParentReference, generation: int,
    conditions: seq<Condition>, now: int): seq<RouteParentStatus>
  {
    var i := FirstOurs(parents, controller, ref);
    var wanted := Wanted(parents, controller, ref, generation, conditions, now);
    if i < |parents| then parents[i := wanted] else parents + [wanted]
  }

  class Status {
    var parents: seq<RouteParentStatus>

    constructor (parents: seq<RouteParentStatus>)
      ensures this.parents == parents
    {
      this.parents := parents;
    }

    /** Tells whether the list changed, and writes it only then. */
    method SetOurRouteParentStatus(
      controller: string, ref: ParentReference, generation: int, conditions: seq<Condition>, now: int)
      returns (changed: bool)
      modifies this
      ensures parents == Upserted(old(parents), controller, ref, generation, conditions, now)
      ensures changed <==> parents != old(parents)
    {
      var idx := -1;
      var i := 0;
      while i < |parents| && idx < 0
        invariant 0 <= i <= |parents|
        invariant idx < 0 ==> forall j | 0 <= j < i :: !Ours(parents[j], controller, ref)
        invariant idx >= 0 ==> idx < |parents| && FirstOurs(parents, controller, ref) == idx
        decreases |parents| - i, -idx
      {
        if parents[i].controllerName == controller && ParentRefEqual(parents[i].parentRef, ref) {
          idx := i;
        }
        i := i + 1;
      }
      var conds: seq<Condition> := [];
      if idx >= 0 {
        conds := conds + Items(parents[idx].conditions);
      }
      ghost var existing := conds;
      for k := 0 to |conditions|
        invariant conds == SetConditions(existing, conditions[..k], generation, now)
      {
        assert conditions[..k + 1][..k] == conditions[..k];
        conds := SetCondition(conds, conditions[k].(observedGeneration := generation), now);
      }
      assert conditions[..|conditions|] == conditions;
      var parent := RouteParentStatus(ref, controller, Appended(conds));
      if idx >= 0 {
        assert existing == Items(parents[idx].conditions);
        assert parent == Wanted(parents, controller, ref, generation, conditions, now);
        if parents[idx] == parent {
          assert parents[idx := parent] == parents;
          return false;
        }
        parents := parents[idx := parent];
        return true;
      }
      parents := parents + [parent];
      return true;
    }
  }

  // --------------------------------------------------------------- properties

  lemma ParentRefEqualIsEquality(a: ParentReference, b: ParentReference)
    ensures ParentRefEqual(a, b) <==> a == b
  {
  }

  /** Entries of other controllers, and for other parents, keep their place and content. */
  lemma OthersUntouched(
    parents: seq<RouteParentStatus>, controller: string, ref: ParentReference, generation: int,
    conditions: seq<Condition>, now: int, k: nat)
    requires k < |parents| && !Ours(parents[k], controller, ref)
    ensures var after := Upserted(parents, controller, ref, generation, conditions, now);
            k < |after| && after[k] == parents[k]
  {
  }

  ghost predicate AtMostOneOurs(parents: seq<RouteParentStatus>, controller: string, ref: ParentReference) {
    forall i, j | 0 <= i < j < |parents| :: !(Ours(parents[i], controller, ref) && Ours(parents[j], controller, ref))
  }

  /** A list with at most one entry per (controller, parent) keeps at most one for every pair,
      and has exactly one for the pair just written. */
  lemma StaysUnique(
    parents: seq<RouteParentStatus>, controller: string, ref: ParentReference, generation: int,
    conditions: seq<Condition>, now: int, otherController: string, otherRef: ParentReference)
    requires AtMostOneOurs(parents, otherController, otherRef)
    ensures var after := Upserted(parents, controller, ref, generation, conditions, now);
            && AtMostOneOurs(after, otherController, otherRef)
            && exists k :: 0 <= k < |after| && Ours(after[k], controller, ref)
  {
    var after := Upserted(parents, controller, ref, generation, conditions, now);
    var i := FirstOurs(parents, controller, ref);
    ParentRefEqualIsEquality(ref, ref);
    assert Ours(after[i], controller, ref);
    ParentRefEqualIsEquality(ref, otherRef);
    if i < |parents| {
      ParentRefEqualIsEquality(parents[i].parentRef, ref);
    }
  }

  // -------------------------------------------------------------- idempotence

  /** The last condition of a type in a list. */
  function LastOfType(conditions: seq<Condition>, ctype: string): Option<Condition> {
    if conditions == [] then None
    else if conditions[|conditions| - 1].ctype == ctype then Some(conditions[|conditions| - 1])
    else LastOfType(conditions[..|conditions| - 1], ctype)
  }

  /** No two conditions of this type ask for different statuses. */
  ghost predicate ConsistentFor(conditions: seq<Condition>, ctype: string) {
    forall i, j | 0 <= i < |conditions| && 0 <= j < |conditions|
                  && conditions[i].ctype == ctype && conditions[j].ctype == ctype ::
      conditions[i].status == conditions[j].status
  }

  ghost predicate Consistent(conditions: seq<Condition>) {
    forall i, j | 0 <= i < |conditions| && 0 <= j < |conditions| && conditions[i].ctype == conditions[j].ctype ::
      conditions[i].status == conditions[j].status
  }

  /** What a whole pass does to one existing condition that is the first of its type. */
  function Evolve(c: Condition, conditions: seq<Condition>, generation: int, now: int): Condition {
    if conditions == [] then c
    else
      var n := |conditions| - 1;
      var before := Evolve(c, conditions[..n], generation, now);
      if conditions[n].ctype != c.ctype then before
      else Merge(before, conditions[n].(observedGeneration := generation), now)
  }

  /** A condition as a pass leaves it: the content of the last one of its type, and the time
      of the pass if the types' statuses disagree. */
  ghost predicate Settled(c: Condition, conditions: seq<Condition>, generation: int, now: int) {
    var last := LastOfType(conditions, c.ctype);
    && last.Some?
    && c == last.value.(observedGeneration := generation, lastTransitionTime := c.lastTransitionTime)
    && (!ConsistentFor(conditions, c.ctype) ==> c.lastTransitionTime == now)
  }

  lemma {:induction false} LastOfTypeExact(conditions: seq<Condition>, ctype: string)
    ensures LastOfType(conditions, ctype).None? <==> forall i | 0 <= i < |conditions| :: conditions[i].ctype != ctype
    ensures LastOfType(conditions, ctype).Some? ==>
              exists i :: 0 <= i < |conditions| && conditions[i] == LastOfType(conditions, ctype).value
                          && conditions[i].ctype == ctype
  {
    if conditions != [] {
      var n := |conditions| - 1;
      LastOfTypeExact(conditions[..n], ctype);
      assert forall i | 0 <= i < n :: conditions[..n][i] == conditions[i];
    }
  }

  /** Adding one condition of a type to a list in which that type occurs. */
  lemma ConsistencyGrows(conditions: seq<Condition>, ctype: string)
    requires conditions != []
    ensures var n := |conditions| - 1;
            ConsistentFor(conditions, ctype) <==>
              && ConsistentFor(conditions[..n], ctype)
              && (conditions[n].ctype == ctype && LastOfType(conditions[..n], ctype).Some? ==>
                    LastOfType(conditions[..n], ctype).value.status == conditions[n].status)
  {
    var n := |conditions| - 1;
    assert forall i | 0 <= i < n :: conditions[..n][i] == conditions[i];
    LastOfTypeExact(conditions[..n], ctype);
  }

  /** After a pass, each first condition of a type named in it is settled. */
  lemma {:induction false} PassSettles(
    existing: seq<Condition>, conditions: seq<Condition>, generation: int, now: int, i: nat)
    requires var after := SetConditions(existing, conditions, generation, now);
             i < |after| && FirstOfType(after, after[i].ctype) == i
             && LastOfType(conditions, after[i].ctype).Some?
    ensures Settled(SetConditions(existing, conditions, generation, now)[i], conditions, generation, now)
  {
    var n := |conditions| - 1;
    var before := SetConditions(existing, conditions[..n], generation, now);
    var c := conditions[n].(observedGeneration := generation);
    var after := SetCondition(before, c, now);
    ConsistencyGrows(conditions, after[i].ctype);
    SetConditionTypes(before, c, now);
    if i < |before| {
      FirstAgrees(before, after, i);
      if LastOfType(conditions[..n], after[i].ctype).Some? {
        PassSettles(existing, conditions[..n], generation, now, i);
      } else {
        LastOfTypeExact(conditions[..n], after[i].ctype);
      }
    } else {
      PassNamesTypes(existing, conditions[..n], generation, now, c.ctype);
      LastOfTypeExact(conditions[..n], c.ctype);
    }
  }

  /** Updating a condition keeps the types in place; a new type goes to the end. */
  lemma SetConditionTypes(conditions: seq<Condition>, c: Condition, now: int)
    ensures var after := SetCondition(conditions, c, now);
            && |conditions| <= |after| <= |conditions| + 1
            && (forall i | 0 <= i < |conditions| :: after[i].ctype == conditions[i].ctype)
            && (|after| > |conditions| ==> after[|conditions|].ctype == c.ctype)
            && (|after| > |conditions| <==> FirstOfType(conditions, c.ctype) == |conditions|)
  {
  }

  lemma {:induction false} FirstAgrees(before: seq<Condition>, after: seq<Condition>, i: nat)
    requires |before| <= |after| && i < |before|
    requires forall k | 0 <= k < |before| :: after[k].ctype == before[k].ctype
    ensures FirstOfType(before, after[i].ctype) == i <==> FirstOfType(after, after[i].ctype) == i
  {
    var t := after[i].ctype;
    var a, b := FirstOfType(after, t), FirstOfType(before, t);
    assert a <= i && b <= i;
  }

  /** After a pass every type named in it is present. */
  lemma {:induction false} PassNamesTypes(
    existing: seq<Condition>, conditions: seq<Condition>, generation: int, now: int, ctype: string)
    ensures var after := SetConditions(existing, conditions, generation, now);
            && |existing| <= |after|
            && (forall k | 0 <= k < |existing| :: after[k].ctype == existing[k].ctype)
            && (LastOfType(conditions, ctype).Some? ==> FirstOfType(after, ctype) < |after|)
            && (FirstOfType(existing, ctype) < |existing| ==> FirstOfType(after, ctype) < |after|)
  {
    if conditions != [] {
      var n := |conditions| - 1;
      PassNamesTypes(existing, conditions[..n], generation, now, ctype);
      var before := SetConditions(existing, conditions[..n], generation, now);
      SetConditionTypes(before, conditions[n].(observedGeneration := generation), now);
      var after := SetConditions(existing, conditions, generation, now);
      if FirstOfType(before, ctype) < |before| {
        assert after[FirstOfType(before, ctype)].ctype == ctype;
      } else if conditions[n].ctype == ctype {
        assert after[|before|].ctype == ctype;
      }
    }
  }

  /** A pass over a list that names all its types works on each condition by itself. */
  lemma {:induction false} PassIsPointwise(
    existing: seq<Condition>, conditions: seq<Condition>, generation: int, now: int)
    requires forall k | 0 <= k < |conditions| :: FirstOfType(existing, conditions[k].ctype) < |existing|
    ensures var after := SetConditions(existing, conditions, generation, now);
            && |after| == |existing|
            && (forall i | 0 <= i < |existing| ::
                  after[i] == if FirstOfType(existing, existing[i].ctype) == i
                              then Evolve(existing[i], conditions, generation, now) else existing[i])
  {
    if conditions != [] {
      var n := |conditions| - 1;
      assert forall k | 0 <= k < n :: conditions[..n][k] == conditions[k];
      PassIsPointwise(existing, conditions[..n], generation, now);
      var before := SetConditions(existing, conditions[..n], generation, now);
      var c := conditions[n].(observedGeneration := generation);
      forall i | 0 <= i < |existing| ensures before[i].ctype == existing[i].ctype {
        EvolveType(existing[i], conditions[..n], generation, now);
      }
      var k := FirstOfType(existing, c.ctype);
      FirstAgrees(existing, before, k);
      assert FirstOfType(before, c.ctype) == k;
    }
  }

  lemma {:induction false} EvolveType(c: Condition, conditions: seq<Condition>, generation: int, now: int)
    ensures Evolve(c, conditions, generation, now).ctype == c.ctype
  {
    if conditions != [] {
      EvolveType(c, conditions[..|conditions| - 1], generation, now);
    }
  }

  /** A pass over a settled condition: the content stays, and the time moves exactly when the
      statuses asked for disagree. */
  lemma {:induction false} EvolveSettled(c: Condition, conditions: seq<Condition>, generation: int, now: int)
    requires LastOfType(conditions, c.ctype).Some?
    ensures var e := Evolve(c, conditions, generation, now);
            && e == LastOfType(conditions, c.ctype).value.(
                      observedGeneration := generation, lastTransitionTime := e.lastTransitionTime)
            && (ConsistentFor(conditions, c.ctype) && LastOfType(conditions, c.ctype).value.status == c.status ==>
                  e.lastTransitionTime == c.lastTransitionTime)
            && (!ConsistentFor(conditions, c.ctype) ==> e.lastTransitionTime == now)
  {
    var n := |conditions| - 1;
    EvolveType(c, conditions[..n], generation, now);
    ConsistencyGrows(conditions, c.ctype);
    if LastOfType(conditions[..n], c.ctype).Some? {
      EvolveSettled(c, conditions[..n], generation, now);
    } else {
      EvolveUnnamed(c, conditions[..n], generation, now);
      LastOfTypeExact(conditions[..n], c.ctype);
    }
  }

  lemma {:induction false} EvolveUnnamed(c: Condition, conditions: seq<Condition>, generation: int, now: int)
    requires LastOfType(conditions, c.ctype).None?
    ensures Evolve(c, conditions, generation, now) == c
  {
    if conditions != [] {
      EvolveUnnamed(c, conditions[..|conditions| - 1], generation, now);
    }
  }

  /** Two passes with the same conditions at different times give the same result exactly
      when no type is asked for with two different statuses. */
  lemma SecondPass(existing: seq<Condition>, conditions: seq<Condition>, generation: int, now: int, later: int)
    requires now != later
    ensures var once := SetConditions(existing, conditions, generation, now);
            SetConditions(once, conditions, generation, later) == once <==> Consistent(conditions)
  {
    var once := SetConditions(existing, conditions, generation, now);
    forall k | 0 <= k < |conditions| ensures FirstOfType(once, conditions[k].ctype) < |once| {
      LastOfTypeExact(conditions, conditions[k].ctype);
      PassNamesTypes(existing, conditions, generation, now, conditions[k].ctype);
    }
    PassIsPointwise(once, conditions, generation, later);
    var twice := SetConditions(once, conditions, generation, later);
    forall i | 0 <= i < |once| && FirstOfType(once, once[i].ctype) == i
      ensures twice[i] == once[i] <==> ConsistentFor(conditions, once[i].ctype)
    {
      if LastOfType(conditions, once[i].ctype).Some? {
        PassSettles(existing, conditions, generation, now, i);
        EvolveSettled(once[i], conditions, generation, later);
      } else {
        EvolveUnnamed(once[i], conditions, generation, later);
        LastOfTypeExact(conditions, once[i].ctype);
      }
    }
    if twice == once {
      forall i, j | 0 <= i < |conditions| && 0 <= j < |conditions| && conditions[i].ctype == conditions[j].ctype
        ensures conditions[i].status == conditions[j].status
      {
        assert ConsistentFor(conditions, once[FirstOfType(once, conditions[i].ctype)].ctype);
      }
    }
  }

  /** A second call with the same arguments, later: nothing is written if and only if the
      conditions do not contradict each other. */
  lemma SecondCallIsIdle(
    parents: seq<RouteParentStatus>, controller: string, ref: ParentReference, generation: int,
    conditions: seq<Condition>, now: int, later: int)
    requires now != later
    ensures var after := Upserted(parents, controller, ref, generation, conditions, now);
            Upserted(after, controller, ref, generation, conditions, later) == after <==> Consistent(conditions)
  {
    var i := FirstOurs(parents, controller, ref);
    var after := Upserted(parents, controller, ref, generation, conditions, now);
    var existing := if i < |parents| then Items(parents[i].conditions) else [];
    ParentRefEqualIsEquality(ref, ref);
    assert Ours(after[i], controller, ref);
    assert forall j | 0 <= j < i :: after[j] == parents[j];
    assert FirstOurs(after, controller, ref) == i;
    SecondPass(existing, conditions, generation, now, later);
    assert Items(after[i].conditions) == SetConditions(existing, conditions, generation, now);
  }

  /** The entry that is written carries, for each condition of the call, one of its type with
      the content of the last such condition and the generation of the call. */
  lemma WrittenEntryIsExact(
    parents: seq<RouteParentStatus>, controller: string, ref: ParentReference, generation: int,
    conditions: seq<Condition>, now: int, k: nat)
    requires k < |conditions| && forall j | k < j < |conditions| :: conditions[j].ctype != conditions[k].ctype
    ensures var after := Upserted(parents, controller, ref, generation, conditions, now);
            exists e, i ::
              && 0 <= e < |after| && after[e].parentRef == ref && after[e].controllerName == controller
              && 0 <= i < |Items(after[e].conditions)|
              && Items(after[e].conditions)[i] ==
                 conditions[k].(observedGeneration := generation,
                                lastTransitionTime := Items(after[e].conditions)[i].lastTransitionTime)
  {
    var e := FirstOurs(parents, controller, ref);
    var after := Upserted(parents, controller, ref, generation, conditions, now);
    var existing := if e < |parents| then Items(parents[e].conditions) else [];
    var items := SetConditions(existing, conditions, generation, now);
    var t := conditions[k].ctype;
    LastOfTypeAt(conditions, k);
    PassNamesTypes(existing, conditions, generation, now, t);
    var i := FirstOfType(items, t);
    PassSettles(existing, conditions, generation, now, i);
    assert Items(after[e].conditions) == items;
  }

  lemma {:induction false} LastOfTypeAt(conditions: seq<Condition>, k: nat)
    requires k < |conditions| && forall j | k < j < |conditions| :: conditions[j].ctype != conditions[k].ctype
    ensures LastOfType(conditions, conditions[k].ctype) == Some(conditions[k])
  {
    if k < |conditions| - 1 {
      LastOfTypeAt(conditions[..|conditions| - 1], k);
    }
  }

  /** The conditions the controller writes never contradict each other. */
  const ACCEPTED: seq<Condition> := [
    Condition("Accepted", "True", "Accepted", "Route accepted", 0, 0),
    Condition("ResolvedRefs", "True", "ResolvedRefs", "All references resolved", 0, 0)
  ]

  function Pending(message: string): seq<Condition> {
    [Condition("Accepted", "False", "Pending", message, 0, 0)]
  }

  lemma WrittenConditionsConsistent(message: string)
    ensures Consistent(ACCEPTED) && Consistent(Pending(message))
  {
  }
}
