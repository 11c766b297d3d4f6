/** When two writes of a configuration set may change places: exactly, for every set and any two writes. */
module OverlappingWrites {
  import opened Results
  import opened ConfigSet

  predicate Present(o: Option<Json>) {
    o.Some? && o.value.Object?
  }

  /** A merge would be made inside the default, which stands in for a missing value. */
  predicate DefaultStandsIn(item: Members) {
    var tier := ObjectOr(Lookup(item, VALUE), map[]);
    Member(tier, EFFECTIVE_VALUE) == Null && Member(tier, DEFAULT_VALUE).Object?
  }

  function DefaultVariables(item: Members): Members
    requires DefaultStandsIn(item)
  {
    ObjectOr(Lookup(item, VALUE), map[])[DEFAULT_VALUE].members
  }

  function ItemOr(o: Option<Json>): Members {
    ObjectOr(o, NewItem(RUNTIME_ENV))
  }

  /** Nothing is lost or added when `more` is merged into `env`. */
  predicate Absorbs(env: Members, more: Members) {
    env + more == env
  }

  /** The condition for two writes of one code, for the item they meet. */
  predicate MayChangePlaces(o: Option<Json>, v: Write, w: Write) {
    match (v, w)
    case (PutValue(_, a), PutValue(_, b)) => a == b
    case (PutEnabled(_, a), PutEnabled(_, b)) => a == b
    case (PutEnabled(_, a), _) => a && Present(o)
    case (_, PutEnabled(_, b)) => b && Present(o)
    case (PutValue(_, a), MergeEnv(env)) => MergeIsIdle(o, a, env)
    case (MergeEnv(env), PutValue(_, b)) => MergeIsIdle(o, b, env)
    case (MergeEnv(a), MergeEnv(b)) =>
      if DefaultStandsIn(ItemOr(o)) then DefaultVariables(ItemOr(o)) + a == DefaultVariables(ItemOr(o)) + b else a + b == b + a
  }

  /** The value put holds the merged variables already, and so does a default that would be merged into. */
  predicate MergeIsIdle(o: Option<Json>, value: Json, env: Members) {
    && value.Object? && Absorbs(value.members, env)
    && (DefaultStandsIn(ItemOr(o)) ==> Absorbs(DefaultVariables(ItemOr(o)), env))
  }

  // ------------------------------------------------------------------------------------------
  // What can be told from an item
  // ------------------------------------------------------------------------------------------

  function Tier(o: Json, tier: Name): Members {
    if o.Object? then ObjectOr(Lookup(o.members, tier), map[]) else map[]
  }

  function Both(o: Option<Json>, v: Write, w: Write, who: Owner, x: Texts): Json {
    Touch(Some(Touch(o, v, who, x)), w, who, x)
  }

  lemma SwitchAfter(o: Option<Json>, w: Write, who: Owner, x: Texts)
    ensures Touch(o, w, who, x).Object?
    ensures Member(Tier(Touch(o, w, who, x), STATE), ENABLED) == Bool(if w.PutEnabled? then w.enabled else true)
  {
  }

  lemma ValueAfter(o: Option<Json>, w: Write, who: Owner, x: Texts)
    requires !w.PutEnabled?
    ensures Member(Tier(Touch(o, w, who, x), VALUE), EFFECTIVE_VALUE) ==
            if w.PutValue? then w.value else Object(EnvObject(TierValue(ItemOr(o)), x) + w.env)
  {
  }

  lemma SameObject(a: Json, b: Json)
    requires a.Object? && b.Object? && forall n :: Lookup(a.members, n) == Lookup(b.members, n)
    ensures a == b
  {
    SameMembers(a.members, b.members);
  }

  // ------------------------------------------------------------------------------------------
  // Switches
  // ------------------------------------------------------------------------------------------

  lemma SwitchesTwice(o: Option<Json>, v: Write, w: Write, who: Owner, x: Texts)
    requires Target(v) == Target(w) && v.PutEnabled? && w.PutEnabled?
    ensures Both(o, v, w, who, x) == Both(o, w, v, who, x) <==> v.enabled == w.enabled
  {
    SwitchAfter(Some(Touch(o, v, who, x)), w, who, x);
    SwitchAfter(Some(Touch(o, w, who, x)), v, who, x);
  }

  /** A value written to a missing item brings a schema; a switch does not. */
  lemma SchemaTells(o: Option<Json>, v: Write, w: Write, who: Owner, x: Texts)
    requires Target(v) == Target(w) && v.PutEnabled? && !w.PutEnabled? && !Present(o)
    ensures Both(o, v, w, who, x) != Both(o, w, v, who, x)
  {
    assert Lookup(Both(o, v, w, who, x).members, SCHEMA) == None;
    assert SCHEMA in Both(o, w, v, who, x).members;
  }

  lemma OnTwice(state: Members)
    ensures (state + map[ENABLED := Bool(true)]) + map[ENABLED := Bool(true)] == state + map[ENABLED := Bool(true)]
  {
  }

  lemma StateAfter(item: Members, w: Write, who: Owner, x: Texts)
    requires !w.PutEnabled?
    ensures var after := Touch(Some(Object(item)), w, who, x);
      after.Object? && Lookup(after.members, STATE) == Some(Object(Tier(Object(item), STATE) + map[ENABLED := Bool(true)]))
  {
  }

  lemma OnAfter(item: Members, w: Write, who: Owner, x: Texts)
    requires !w.PutEnabled?
    ensures var after := Touch(Some(Object(item)), w, who, x);
      after.Object? && Object(WithEnabled(after.members, true)) == after
  {
    var after := Touch(Some(Object(item)), w, who, x);
    OnTwice(Tier(Object(item), STATE));
    StateAfter(item, w, who, x);
    SameObject(Object(WithEnabled(after.members, true)), after);
  }

  // ------------------------------------------------------------------------------------------
  // Values and merges
  // ------------------------------------------------------------------------------------------

  function DefaultOf(item: Members): Option<Json> {
    Lookup(Tier(Object(item), VALUE), DEFAULT_VALUE)
  }

  function Signed(who: Owner): Members {
    map[VALUE_SOURCE := Str(who.layer), LAST_VALUE_LAYER := Str(who.layer), LAST_VALUE_OWNER_ID := Str(who.ref)]
  }

  lemma ValueTiers(item: Members, v: Json, who: Owner, name: Name)
    ensures Lookup(WithValue(item, v, who), name) ==
            if name == VALUE then Some(Object(Tier(Object(item), VALUE) + map[LOCAL_VALUE := v, EFFECTIVE_VALUE := v]))
            else if name == STATE then Some(Object(Tier(Object(item), STATE) + map[ENABLED := Bool(true)]))
            else if name == PROVENANCE then Some(Object(Tier(Object(item), PROVENANCE) + Signed(who)))
            else Lookup(item, name)
  {
  }

  lemma PutTwice(tier: Members, a: Json, b: Json)
    ensures tier + map[LOCAL_VALUE := a, EFFECTIVE_VALUE := a] + map[LOCAL_VALUE := b, EFFECTIVE_VALUE := b]
            == tier + map[LOCAL_VALUE := b, EFFECTIVE_VALUE := b]
  {
  }

  lemma SignTwice(tier: Members, who: Owner)
    ensures tier + Signed(who) + Signed(who) == tier + Signed(who)
  {
  }

  /** The last value written decides. */
  lemma ValueTwice(item: Members, a: Json, b: Json, who: Owner)
    ensures WithValue(WithValue(item, a, who), b, who) == WithValue(item, b, who)
  {
    var once := WithValue(item, a, who);
    PutTwice(Tier(Object(item), VALUE), a, b);
    OnTwice(Tier(Object(item), STATE));
    SignTwice(Tier(Object(item), PROVENANCE), who);
    forall name
      ensures Lookup(WithValue(once, b, who), name) == Lookup(WithValue(item, b, who), name)
    {
      ValueTiers(item, a, who, name);
      ValueTiers(once, b, who, name);
      ValueTiers(item, b, who, name);
    }
    SameMembers(WithValue(once, b, who), WithValue(item, b, who));
  }

  lemma OnThenValue(item: Members, v: Json, who: Owner)
    ensures WithValue(WithEnabled(item, true), v, who) == WithValue(item, v, who)
  {
    var on := WithEnabled(item, true);
    OnTwice(Tier(Object(item), STATE));
    forall name
      ensures Lookup(WithValue(on, v, who), name) == Lookup(WithValue(item, v, who), name)
    {
      ValueTiers(item, v, who, name);
      ValueTiers(on, v, who, name);
    }
    SameMembers(WithValue(on, v, who), WithValue(item, v, who));
  }

  lemma OnThenMerge(item: Members, env: Members, x: Texts)
    ensures MergeInto(WithEnabled(item, true), env, x) == WithEnabled(MergeInto(item, env, x), true)
    ensures TierValue(WithEnabled(item, true)) == TierValue(item)
  {
    assert Lookup(WithEnabled(item, true), VALUE) == Lookup(item, VALUE);
    SameMembers(MergeInto(WithEnabled(item, true), env, x), WithEnabled(MergeInto(item, env, x), true));
  }

  /** Switching on before a value is written leaves what writing it leaves. */
  lemma OnBefore(item: Members, w: Write, who: Owner, x: Texts)
    requires !w.PutEnabled?
    ensures Touch(Some(Object(WithEnabled(item, true))), w, who, x) == Touch(Some(Object(item)), w, who, x)
  {
    if w.PutValue? {
      OnThenValue(item, w.value, who);
    } else {
      OnThenMerge(item, w.env, x);
      OnThenValue(MergeInto(item, w.env, x), Object(EnvObject(TierValue(item), x) + w.env), who);
    }
  }

  lemma SwitchAndValue(o: Option<Json>, v: Write, w: Write, who: Owner, x: Texts)
    requires Target(v) == Target(w) && v.PutEnabled? && !w.PutEnabled? && Present(o)
    ensures Both(o, v, w, who, x) == Both(o, w, v, who, x) <==> v.enabled
  {
    SwitchAfter(Some(Touch(o, v, who, x)), w, who, x);
    SwitchAfter(Some(Touch(o, w, who, x)), v, who, x);
    if v.enabled {
      OnBefore(o.value.members, w, who, x);
      OnAfter(o.value.members, w, who, x);
    }
  }

  lemma DefaultStays(item: Members, v: Json, who: Owner)
    ensures DefaultOf(WithValue(item, v, who)) == DefaultOf(item)
    ensures TierValue(WithValue(item, v, who)) == if v != Null then v else DefaultOf(item).GetOr(Null)
  {
  }

  lemma MergedDefault(item: Members, env: Members, x: Texts)
    ensures DefaultOf(MergeInto(item, env, x)) ==
            if DefaultStandsIn(item) then Some(Object(DefaultVariables(item) + env)) else DefaultOf(item)
    ensures DefaultStandsIn(item) ==> EnvObject(TierValue(item), x) == DefaultVariables(item)
  {
  }

  lemma IdleMerge(item: Members, env: Members, x: Texts)
    requires DefaultStandsIn(item) ==> Absorbs(DefaultVariables(item), env)
    ensures MergeInto(item, env, x) == item
  {
    if DefaultStandsIn(item) {
      var tier := Tier(Object(item), VALUE);
      assert tier + map[DEFAULT_VALUE := Object(DefaultVariables(item))] == tier;
      SameMembers(MergeInto(item, env, x), item);
    }
  }

  lemma PutThenMerge(item: Members, v: Json, env: Members, who: Owner, x: Texts)
    requires v != Null
    ensures Touch(Some(Object(WithValue(item, v, who))), MergeEnv(env), who, x) == Object(WithValue(item, Object(EnvObject(v, x) + env), who))
  {
    DefaultStays(item, v, who);
    ValueTwice(item, v, Object(EnvObject(v, x) + env), who);
  }

  lemma ValueThenMerge(o: Option<Json>, put: Write, merge: Write, who: Owner, x: Texts)
    requires Target(put) == Target(merge) && put.PutValue? && merge.MergeEnv? && put.value.Object?
    ensures Both(o, put, merge, who, x) == Object(WithValue(ItemOr(o), Object(put.value.members + merge.env), who))
    ensures Both(o, merge, put, who, x) == Object(WithValue(MergeInto(ItemOr(o), merge.env, x), put.value, who))
  {
    var item := ItemOr(o);
    PutThenMerge(item, put.value, merge.env, who, x);
    ValueTwice(MergeInto(item, merge.env, x), Object(EnvObject(TierValue(item), x) + merge.env), put.value, who);
  }

  lemma ObjectAndMerge(item: Members, value: Members, env: Members, who: Owner, x: Texts)
    ensures WithValue(item, Object(value + env), who) == WithValue(MergeInto(item, env, x), Object(value), who) <==>
            Absorbs(value, env) && (DefaultStandsIn(item) ==> Absorbs(DefaultVariables(item), env))
  {
    var merged := MergeInto(item, env, x);
    DefaultStays(item, Object(value + env), who);
    DefaultStays(merged, Object(value), who);
    MergedDefault(item, env, x);
    if DefaultStandsIn(item) ==> Absorbs(DefaultVariables(item), env) {
      IdleMerge(item, env, x);
    }
  }

  lemma ValueAndMerge(o: Option<Json>, put: Write, merge: Write, who: Owner, x: Texts)
    requires Target(put) == Target(merge) && put.PutValue? && merge.MergeEnv?
    ensures Both(o, put, merge, who, x) == Both(o, merge, put, who, x) <==> MergeIsIdle(o, put.value, merge.env)
  {
    if put.value.Object? {
      ValueThenMerge(o, put, merge, who, x);
      ObjectAndMerge(ItemOr(o), put.value.members, merge.env, who, x);
    } else {
      ValueAfter(Some(Touch(o, put, who, x)), merge, who, x);
      ValueAfter(Some(Touch(o, merge, who, x)), put, who, x);
    }
  }

  lemma MergesCommute(env: Members, a: Members, b: Members)
    ensures env + a + b == env + b + a <==> a + b == b + a
    ensures env + a == env + b ==> env + a + b == env + b + a
  {
    if env + a + b == env + b + a {
      forall n | n in a && n in b
        ensures a[n] == b[n]
      {
        assert (env + a + b)[n] == b[n] && (env + b + a)[n] == a[n];
      }
      SameMembers(a + b, b + a);
    }
    if a + b == b + a {
      forall n | n in a && n in b
        ensures a[n] == b[n]
      {
        assert (a + b)[n] == b[n] && (b + a)[n] == a[n];
      }
      SameMembers(env + a + b, env + b + a);
    }
    if env + a == env + b {
      forall n | n in a && n in b
        ensures a[n] == b[n]
      {
        assert (env + a)[n] == a[n] && (env + b)[n] == b[n];
      }
      SameMembers(env + a + b, env + b + a);
    }
  }

  lemma MergeTwice(o: Option<Json>, v: Write, w: Write, who: Owner, x: Texts)
    requires v.MergeEnv? && w.MergeEnv?
    ensures var item := ItemOr(o);
      Both(o, v, w, who, x) == Object(WithValue(MergeInto(item, v.env, x), Object(EnvObject(TierValue(item), x) + v.env + w.env), who))
  {
    var item := ItemOr(o);
    PutThenMerge(MergeInto(item, v.env, x), Object(EnvObject(TierValue(item), x) + v.env), w.env, who, x);
  }

  lemma MergeAndMerge(o: Option<Json>, v: Write, w: Write, who: Owner, x: Texts)
    requires v.MergeEnv? && w.MergeEnv?
    ensures Both(o, v, w, who, x) == Both(o, w, v, who, x) <==> MayChangePlaces(o, v, w)
  {
    var item := ItemOr(o);
    var env := EnvObject(TierValue(item), x);
    MergeTwice(o, v, w, who, x);
    MergeTwice(o, w, v, who, x);
    DefaultStays(MergeInto(item, v.env, x), Object(env + v.env + w.env), who);
    DefaultStays(MergeInto(item, w.env, x), Object(env + w.env + v.env), who);
    MergedDefault(item, v.env, x);
    MergedDefault(item, w.env, x);
    MergesCommute(env, v.env, w.env);
  }

  lemma PutAndPut(o: Option<Json>, v: Write, w: Write, who: Owner, x: Texts)
    requires Target(v) == Target(w) && v.PutValue? && w.PutValue?
    ensures Both(o, v, w, who, x) == Both(o, w, v, who, x) <==> v.value == w.value
  {
    ValueAfter(Some(Touch(o, v, who, x)), w, who, x);
    ValueAfter(Some(Touch(o, w, who, x)), v, who, x);
  }

  // ------------------------------------------------------------------------------------------
  // Two writes of a set
  // ------------------------------------------------------------------------------------------

  lemma TouchesCommuteIff(o: Option<Json>, v: Write, w: Write, who: Owner, x: Texts)
    requires Target(v) == Target(w)
    ensures Both(o, v, w, who, x) == Both(o, w, v, who, x) <==> MayChangePlaces(o, v, w)
  {
    match (v, w)
    case (PutValue(_, _), PutValue(_, _)) => PutAndPut(o, v, w, who, x);
    case (PutEnabled(_, _), PutEnabled(_, _)) => SwitchesTwice(o, v, w, who, x);
    case (PutEnabled(_, _), _) => SwitchAndOther(o, v, w, who, x);
    case (_, PutEnabled(_, _)) => SwitchAndOther(o, w, v, who, x);
    case (PutValue(_, _), MergeEnv(_)) => ValueAndMerge(o, v, w, who, x);
    case (MergeEnv(_), PutValue(_, _)) => ValueAndMerge(o, w, v, who, x);
    case (MergeEnv(_), MergeEnv(_)) => MergeAndMerge(o, v, w, who, x);
  }

  lemma SwitchAndOther(o: Option<Json>, v: Write, w: Write, who: Owner, x: Texts)
    requires Target(v) == Target(w) && v.PutEnabled? && !w.PutEnabled?
    ensures Both(o, v, w, who, x) == Both(o, w, v, who, x) <==> v.enabled && Present(o)
  {
    if Present(o) {
      SwitchAndValue(o, v, w, who, x);
    } else {
      SchemaTells(o, v, w, who, x);
    }
  }

  lemma TwoTouches(items: Members, v: Write, w: Write, code: Name, who: Owner, x: Texts)
    ensures Lookup(ApplyItems(items, [v, w], who, x), code) ==
            if Target(v) == code && Target(w) == code then Some(Both(Lookup(items, code), v, w, who, x))
            else if Target(v) == code then Some(Touch(Lookup(items, code), v, who, x))
            else if Target(w) == code then Some(Touch(Lookup(items, code), w, who, x)) else Lookup(items, code)
  {
    var once := items[Target(v) := Touch(Lookup(items, Target(v)), v, who, x)];
    assert [v, w][1..] == [w] && [w][1..] == [];
    assert ApplyItems(items, [v, w], who, x) == ApplyItems(once, [w], who, x);
    var twice := once[Target(w) := Touch(Lookup(once, Target(w)), w, who, x)];
    assert ApplyItems(once, [w], who, x) == ApplyItems(twice, [], who, x) == twice;
  }

  /** Two writes leave the same set in both orders exactly when they write different codes or may change places on the item of their code. */
  lemma WritesCommuteIff(s: Members, v: Write, w: Write, who: Owner, x: Texts)
    ensures ApplyWrites(s, [v, w], who, x) == ApplyWrites(s, [w, v], who, x) <==>
            Target(v) != Target(w) || MayChangePlaces(Lookup(ItemsOf(s), Target(v)), v, w)
  {
    var items := ItemsOf(s);
    var one, two := ApplyItems(items, [v, w], who, x), ApplyItems(items, [w, v], who, x);
    assert ItemsOf(ApplyWrites(s, [v, w], who, x)) == one && ItemsOf(ApplyWrites(s, [w, v], who, x)) == two;
    TwoTouches(items, v, w, Target(v), who, x);
    TwoTouches(items, w, v, Target(v), who, x);
    if Target(v) == Target(w) {
      TouchesCommuteIff(Lookup(items, Target(v)), v, w, who, x);
    }
    if Target(v) != Target(w) || MayChangePlaces(Lookup(items, Target(v)), v, w) {
      forall code
        ensures Lookup(one, code) == Lookup(two, code)
      {
        TwoTouches(items, v, w, code, who, x);
        TwoTouches(items, w, v, code, who, x);
      }
      SameMembers(one, two);
    }
  }
}
