/**
 The comparison of a deployment's configuration items with those of its template. Items are compared
 by their printed form, and a missing item prints like null.
 */
module TemplateDiff {
  import opened Results
  import opened ConfigSet

  datatype Diff = Diff(field: Name, deployValue: Json, templateValue: Json)

  predicate Differs(own: Members, template: Members, field: Name, show: Json -> Name) {
    if field in own then show(own[field]) != show(Member(template, field)) else field in template
  }

  /** One entry for each field that differs, with both values; the deployment's own fields come first. */
  ghost predicate IsDiff(own: Members, template: Members, show: Json -> Name, ds: seq<Diff>) {
    && (forall i, j | 0 <= i < j < |ds| :: ds[i].field != ds[j].field)
    && (forall i | 0 <= i < |ds| :: Differs(own, template, ds[i].field, show)
          && ds[i] == Diff(ds[i].field, Member(own, ds[i].field), Member(template, ds[i].field)))
    && (forall f | Differs(own, template, f, show) :: exists i :: 0 <= i < |ds| && ds[i].field == f)
    && (forall i, j | 0 <= i < j < |ds| :: ds[j].field in own ==> ds[i].field in own)
  }

  /** Nothing differs exactly when the template has no further field and every field prints alike. */
  lemma EmptyIff(own: Members, template: Members, show: Json -> Name, ds: seq<Diff>)
    requires IsDiff(own, template, show, ds)
    ensures ds == [] <==> (forall f | f in template :: f in own) && forall f | f in own :: show(own[f]) == show(Member(template, f))
  {
    if ds != [] {
      assert Differs(own, template, ds[0].field, show);
    } else {
      assert forall f :: !Differs(own, template, f, show);
      assert forall f | f in template :: f in own by {
        forall f | f in template
          ensures f in own
        {
          assert !Differs(own, template, f, show);
        }
      }
      forall f | f in own
        ensures show(own[f]) == show(Member(template, f))
      {
        assert !Differs(own, template, f, show);
      }
    }
  }

  /** Takes the template's value for every field listed; a null value removes the field. */
  function Applied(items: Members, ds: seq<Diff>): Members
    decreases |ds|
  {
    if ds == [] then items
    else Applied(if ds[0].templateValue == Null then items - {ds[0].field} else items[ds[0].field := ds[0].templateValue], ds[1..])
  }

  lemma {:induction false} AppliedAt(items: Members, ds: seq<Diff>, f: Name)
    requires forall i, j | 0 <= i < j < |ds| :: ds[i].field != ds[j].field
    ensures (forall i | 0 <= i < |ds| :: ds[i].field != f) ==> Lookup(Applied(items, ds), f) == Lookup(items, f)
    ensures forall i | 0 <= i < |ds| && ds[i].field == f ::
              Lookup(Applied(items, ds), f) == if ds[i].templateValue == Null then None else Some(ds[i].templateValue)
    decreases |ds|
  {
    if ds != [] {
      var next := if ds[0].templateValue == Null then items - {ds[0].field} else items[ds[0].field := ds[0].templateValue];
      AppliedAt(next, ds[1..], f);
      assert forall i | 0 < i < |ds| :: ds[i] == ds[1..][i - 1];
      assert forall i | 0 <= i < |ds| - 1 :: ds[1..][i] == ds[i + 1];
    }
  }

  /** Applied to the old items, the differences give items that print like the template's, field by field. */
  lemma AppliedPrintsLikeTemplate(own: Members, template: Members, show: Json -> Name, ds: seq<Diff>, f: Name)
    requires IsDiff(own, template, show, ds) && forall g | g in template :: template[g] != Null
    ensures show(Member(Applied(own, ds), f)) == show(Member(template, f))
    ensures Lookup(Applied(own, ds), f) == if Differs(own, template, f, show) then Lookup(template, f) else Lookup(own, f)
  {
    AppliedAt(own, ds, f);
    if Differs(own, template, f, show) {
      var i :| 0 <= i < |ds| && ds[i].field == f;
    }
  }

  /** They give the template's items themselves exactly when printing keeps apart the items it has to. */
  lemma AppliedIsTemplateIff(own: Members, template: Members, show: Json -> Name, ds: seq<Diff>)
    requires IsDiff(own, template, show, ds) && forall g | g in template :: template[g] != Null
    ensures Applied(own, ds) == template <==>
            forall f | f in own && show(own[f]) == show(Member(template, f)) :: f in template && own[f] == template[f]
  {
    forall f
      ensures Lookup(Applied(own, ds), f) == if Differs(own, template, f, show) then Lookup(template, f) else Lookup(own, f)
    {
      AppliedPrintsLikeTemplate(own, template, show, ds, f);
    }
    if forall f | f in own && show(own[f]) == show(Member(template, f)) :: f in template && own[f] == template[f] {
      SameMembers(Applied(own, ds), template);
    } else {
      var f :| f in own && show(own[f]) == show(Member(template, f)) && !(f in template && own[f] == template[f]);
      assert Lookup(Applied(own, ds), f) == Lookup(own, f) != Lookup(template, f);
    }
  }

  /** The fields of both maps are visited in orders that are not fixed. */
  method ComputeConfigSetDiffs(own: Members, template: Members, show: Json -> Name) returns (ds: seq<Diff>)
    ensures IsDiff(own, template, show, ds)
  {
    ds := [];
    var seen: set<Name> := {};
    var left := own.Keys;
    while left != {}
      invariant left <= own.Keys && seen == own.Keys - left
      invariant forall i, j | 0 <= i < j < |ds| :: ds[i].field != ds[j].field
      invariant forall i | 0 <= i < |ds| :: ds[i].field in seen && Differs(own, template, ds[i].field, show)
                  && ds[i] == Diff(ds[i].field, Member(own, ds[i].field), Member(template, ds[i].field))
      invariant forall f | f in seen && Differs(own, template, f, show) :: exists i :: 0 <= i < |ds| && ds[i].field == f
      decreases left
    {
      assert (forall f :: f !in left) ==> left == {};
      var field :| field in left;
      seen := seen + {field};
      if show(own[field]) != show(Member(template, field)) {
        ghost var before := ds;
        ds := ds + [Diff(field, own[field], Member(template, field))];
        assert forall i | 0 <= i < |before| :: ds[i] == before[i];
        assert ds[|before|].field == field;
      }
      left := left - {field};
    }
    left := template.Keys;
    ghost var ownCount := |ds|;
    while left != {}
      invariant left <= template.Keys && seen == own.Keys && ownCount <= |ds|
      invariant forall i, j | 0 <= i < j < |ds| :: ds[i].field != ds[j].field
      invariant forall i | 0 <= i < |ds| :: Differs(own, template, ds[i].field, show) && ds[i].field !in (left - seen)
                  && ds[i] == Diff(ds[i].field, Member(own, ds[i].field), Member(template, ds[i].field))
      invariant forall i | 0 <= i < |ds| :: ds[i].field in own <==> i < ownCount
      invariant forall f | f !in (left - seen) && Differs(own, template, f, show) :: exists i :: 0 <= i < |ds| && ds[i].field == f
      decreases left
    {
      assert (forall f :: f !in left) ==> left == {};
      var field :| field in left;
      if field !in seen {
        ghost var before := ds;
        ds := ds + [Diff(field, Null, template[field])];
        assert forall i | 0 <= i < |before| :: ds[i] == before[i];
        assert ds[|before|].field == field;
      }
      left := left - {field};
    }
  }

  // ------------------------------------------------------------------------------------------
  // Synchronising with the template
  // ------------------------------------------------------------------------------------------

  datatype Strategy = PreserveOverrides | ResetToTemplate

  /** The items the handler stores, and the fields it says it changed. */
  method SyncWithTemplate(own: Members, template: Members, show: Json -> Name, strategy: Strategy)
    returns (items: Members, changed: seq<Name>, ghost ds: seq<Diff>)
    ensures IsDiff(own, template, show, ds)
    ensures items == template
    ensures |changed| == |ds| && forall i | 0 <= i < |ds| :: changed[i] == ds[i].field
  {
    var diffs := ComputeConfigSetDiffs(own, template, show);
    ds := diffs;
    changed := [];
    for i := 0 to |diffs|
      invariant |changed| == i && forall k | 0 <= k < i :: changed[k] == diffs[k].field
    {
      // A difference never counts as a conflict or as the user's own, so neither strategy skips it.
      var conflict, userModified := false, false;
      if conflict || (strategy == PreserveOverrides && userModified) {
        continue;
      }
      changed := changed + [diffs[i].field];
    }
    items := template;
  }

  /** The report of a sync tells the truth about what it stored exactly when printing loses nothing. */
  lemma SyncReportsAllIff(own: Members, template: Members, show: Json -> Name, ds: seq<Diff>)
    requires IsDiff(own, template, show, ds)
    ensures (forall f | Lookup(own, f) != Lookup(template, f) :: exists i :: 0 <= i < |ds| && ds[i].field == f) <==>
            forall f | f in own && show(own[f]) == show(Member(template, f)) :: f in template && own[f] == template[f]
  {
    if forall f | f in own && show(own[f]) == show(Member(template, f)) :: f in template && own[f] == template[f] {
      forall f | Lookup(own, f) != Lookup(template, f)
        ensures exists i :: 0 <= i < |ds| && ds[i].field == f
      {
        assert Differs(own, template, f, show);
      }
    } else {
      var f :| f in own && show(own[f]) == show(Member(template, f)) && !(f in template && own[f] == template[f]);
      assert !Differs(own, template, f, show) && Lookup(own, f) != Lookup(template, f);
    }
  }
}
