/**
 What the overrides of a request do to the codes they name, whatever order the Go map is visited in: which
 value is read afterwards, and whether the code is enabled.
 */
module OverrideEffects {
  import opened Results
  import opened ConfigSet

  /** The set the overrides leave when their entries are visited in this order. */
  function Overridden(s: Members, overrides: Members, order: seq<Name>, who: Owner, x: Texts): Members
    requires forall k | k in order :: k in overrides
  {
    ApplyWrites(s, OrderedWrites(overrides, order, x), who, x)
  }

  ghost predicate IsItem(s: Members, code: Name, item: Members) {
    Lookup(s, ITEMS).Some? && s[ITEMS].Object? && Lookup(s[ITEMS].members, code) == Some(Object(item))
  }

  /** The state tier says true. */
  ghost predicate SaysEnabled(item: Members) {
    STATE in item && item[STATE].Object? && Lookup(item[STATE].members, ENABLED) == Some(Bool(true))
  }

  ghost predicate EnabledAfter(s: Members, code: Name, enabled: bool) {
    exists item :: IsItem(s, code, item) && (SaysEnabled(item) <==> enabled)
  }

  // ------------------------------------------------------------------------------------------
  // The writes that reach a code
  // ------------------------------------------------------------------------------------------

  /** Only the entry that writes the code reaches it. */
  lemma EntryReaches(overrides: Members, order: seq<Name>, k: Name, w: Write, x: Texts)
    requires Visits(overrides, order) && Disjoint(overrides, x) && k in overrides && w in EntryWrites(k, overrides[k], x)
    ensures Project(OrderedWrites(overrides, order, x), Target(w)) == Project(EntryWrites(k, overrides[k], x), Target(w))
  {
    forall l | l in overrides && l != k
      ensures Project(EntryWrites(l, overrides[l], x), Target(w)) == []
    {
      ProjectNothing(EntryWrites(l, overrides[l], x), Target(w));
    }
    OneEntryPerCode(overrides, order, k, Target(w), x);
  }

  lemma {:induction false} ListHolds(raws: seq<Json>, i: nat, parameters: bool, w: Write, x: Texts)
    requires i < |raws| && w in (if parameters then ParameterWrites(raws[i], x) else DisabledWrites(raws[i], x))
    ensures w in ListWrites(raws, parameters, x)
  {
    if i > 0 {
      ListHolds(raws[1..], i - 1, parameters, w, x);
    }
  }

  lemma {:induction false} OnlyDisables(raws: seq<Json>, x: Texts)
    ensures forall w | w in ListWrites(raws, false, x) :: w.PutEnabled? && !w.enabled
  {
    if raws != [] {
      OnlyDisables(raws[1..], x);
    }
  }

  /** Among the parameters one alone writes the code. */
  lemma {:induction false} OneParameter(raws: seq<Json>, i: nat, code: Name, x: Texts)
    requires i < |raws| && forall j | 0 <= j < |raws| && j != i :: Project(ParameterWrites(raws[j], x), code) == []
    ensures Project(ListWrites(raws, true, x), code) == Project(ParameterWrites(raws[i], x), code)
  {
    ProjectConcat(ParameterWrites(raws[0], x), ListWrites(raws[1..], true, x), code);
    if i > 0 {
      OneParameter(raws[1..], i - 1, code, x);
    } else {
      NoParameter(raws[1..], code, x);
    }
  }

  lemma {:induction false} NoParameter(raws: seq<Json>, code: Name, x: Texts)
    requires forall j | 0 <= j < |raws| :: Project(ParameterWrites(raws[j], x), code) == []
    ensures Project(ListWrites(raws, true, x), code) == []
  {
    if raws != [] {
      ProjectConcat(ParameterWrites(raws[0], x), ListWrites(raws[1..], true, x), code);
      NoParameter(raws[1..], code, x);
    }
  }

  // ------------------------------------------------------------------------------------------
  // What they leave
  // ------------------------------------------------------------------------------------------

  lemma LastTouch(o: Option<Json>, ws: seq<Write>, who: Owner, x: Texts)
    requires ws != []
    ensures var z := TouchAll(o, ws, who, x);
      z.Some? && z.value.Object? && (SaysEnabled(z.value.members) <==> (ws[|ws| - 1].PutEnabled? ==> ws[|ws| - 1].enabled))
  {
    var n := |ws| - 1;
    var met := TouchAll(o, ws[..n], who, x);
    assert ws == ws[..n] + [ws[n]] && [ws[n]][1..] == [];
    TouchAllConcat(o, ws[..n], [ws[n]], who, x);
    assert TouchAll(o, ws, who, x) == Some(Touch(met, ws[n], who, x));
  }

  /** The last of the writes that reach a code switches it, on when it is a value. */
  lemma LastWriteSwitches(s: Members, ws: seq<Write>, code: Name, who: Owner, x: Texts)
    requires Project(ws, code) != []
    ensures var last := Project(ws, code)[|Project(ws, code)| - 1];
      EnabledAfter(ApplyWrites(s, ws, who, x), code, last.PutEnabled? ==> last.enabled)
  {
    ItemAfter(s, ws, code, who, x);
    LastTouch(Lookup(ItemsOf(s), code), Project(ws, code), who, x);
    assert IsItem(ApplyWrites(s, ws, who, x), code, TouchAll(Lookup(ItemsOf(s), code), Project(ws, code), who, x).value.members);
  }

  lemma SwitchesLeaveValue(s: Members, ws: seq<Write>, code: Name, default: Json, who: Owner, x: Texts)
    requires forall w | w in Project(ws, code) :: w.PutEnabled?
    ensures ConfigValue(ApplyWrites(s, ws, who, x), code, default) == ConfigValue(s, code, default)
  {
    ItemAfter(s, ws, code, who, x);
    SwitchesKeepValue(Lookup(ItemsOf(s), code), Project(ws, code), who, x);
  }

  function Printed(entry: Members, name: Name, x: Texts): Name {
    x.render(if name in entry then entry[name] else Null)
  }

  /** The code of an entry of disabled_parameters: its key, or its code if the key prints blank. */
  predicate NamesDisabled(raw: Json, code: Name, x: Texts) {
    raw.Object? && code != EMPTY
    && (Printed(raw.members, KEY, x) == code || (Printed(raw.members, KEY, x) == EMPTY && Printed(raw.members, CODE, x) == code))
  }

  /** The code of an entry of parameter_values: the first of key, code, name and cli_name that does not print blank. */
  predicate NamesParameter(raw: Json, code: Name, x: Texts) {
    raw.Object? && code != EMPTY
    && (Printed(raw.members, KEY, x) == code
        || (Printed(raw.members, KEY, x) == EMPTY
            && (Printed(raw.members, CODE, x) == code
                || (Printed(raw.members, CODE, x) == EMPTY
                    && (Printed(raw.members, NAME, x) == code
                        || (Printed(raw.members, NAME, x) == EMPTY && Printed(raw.members, CLI_NAME, x) == code))))))
  }

  lemma CodesAre(raw: Json, code: Name, x: Texts)
    requires raw.Object? && code != EMPTY
    ensures CodeOf(raw.members, [KEY, CODE], x) == code <==> NamesDisabled(raw, code, x)
    ensures CodeOf(raw.members, [KEY, CODE, NAME, CLI_NAME], x) == code <==> NamesParameter(raw, code, x)
  {
    var names := [KEY, CODE, NAME, CLI_NAME];
    assert names[1..] == [CODE, NAME, CLI_NAME] && names[1..][1..] == [NAME, CLI_NAME] && names[1..][1..][1..] == [CLI_NAME];
    assert [KEY, CODE][1..] == [CODE] && [CODE][1..] == [] && [CLI_NAME][1..] == [];
    var c3 := CodeOf(raw.members, [CLI_NAME], x);
    var c2 := CodeOf(raw.members, [NAME, CLI_NAME], x);
    var c1 := CodeOf(raw.members, [CODE, NAME, CLI_NAME], x);
    assert CodeOf(raw.members, [CODE], x) == Printed(raw.members, CODE, x);
  }

  /** A code under disabled_parameters ends up disabled, and keeps its value. */
  lemma DisabledIsDisabled(s: Members, overrides: Members, order: seq<Name>, raws: seq<Json>, i: nat, code: Name, default: Json, who: Owner, x: Texts)
    requires Visits(overrides, order) && Disjoint(overrides, x)
    requires Lookup(overrides, DISABLED_PARAMETERS) == Some(List(raws)) && i < |raws|
    requires NamesDisabled(raws[i], code, x)
    ensures EnabledAfter(Overridden(s, overrides, order, who, x), code, false)
    ensures ConfigValue(Overridden(s, overrides, order, who, x), code, default) == ConfigValue(s, code, default)
  {
    var w := PutEnabled(code, false);
    var own := EntryWrites(DISABLED_PARAMETERS, List(raws), x);
    CodesAre(raws[i], code, x);
    assert DisabledWrites(raws[i], x) == [w];
    ListHolds(raws, i, false, w, x);
    OnlyDisables(raws, x);
    EntryReaches(overrides, order, DISABLED_PARAMETERS, w, x);
    ProjectIsPart(own, code);
    var reached := Project(OrderedWrites(overrides, order, x), code);
    assert w in reached && reached[|reached| - 1] in reached;
    LastWriteSwitches(s, OrderedWrites(overrides, order, x), code, who, x);
    SwitchesLeaveValue(s, OrderedWrites(overrides, order, x), code, default, who, x);
  }

  /** One entry of the list alone names the code. */
  ghost predicate ListedOnce(raws: seq<Json>, i: nat, code: Name, x: Texts) {
    i < |raws| && NamesParameter(raws[i], code, x) && forall j | 0 <= j < |raws| && j != i :: !NamesParameter(raws[j], code, x)
  }

  lemma ParameterShape(raw: Json, code: Name, x: Texts)
    requires NamesParameter(raw, code, x)
    ensures ParameterWrites(raw, x)
            == (if VALUE in raw.members then [PutValue(code, raw.members[VALUE])] else []) + EnabledWrite(code, raw.members)
    ensures forall w | w in ParameterWrites(raw, x) :: Target(w) == code
  {
    CodesAre(raw, code, x);
  }

  lemma OthersMiss(raw: Json, code: Name, x: Texts)
    requires !NamesParameter(raw, code, x) && code != EMPTY
    ensures Project(ParameterWrites(raw, x), code) == []
  {
    if raw.Object? {
      CodesAre(raw, code, x);
    }
    ProjectNothing(ParameterWrites(raw, x), code);
  }

  lemma ParameterReaches(overrides: Members, order: seq<Name>, raws: seq<Json>, i: nat, code: Name, x: Texts)
    requires Visits(overrides, order) && Disjoint(overrides, x)
    requires Lookup(overrides, PARAMETER_VALUES) == Some(List(raws)) && ListedOnce(raws, i, code, x) && ParameterWrites(raws[i], x) != []
    ensures Project(OrderedWrites(overrides, order, x), code) == ParameterWrites(raws[i], x)
  {
    var ws := ParameterWrites(raws[i], x);
    ParameterShape(raws[i], code, x);
    ProjectAll(ws, code);
    ListHolds(raws, i, true, ws[0], x);
    EntryReaches(overrides, order, PARAMETER_VALUES, ws[0], x);
    forall j | 0 <= j < |raws| && j != i
      ensures Project(ParameterWrites(raws[j], x), code) == []
    {
      OthersMiss(raws[j], code, x);
    }
    OneParameter(raws, i, code, x);
  }

  /** Its "enabled" says false. */
  predicate SwitchedOff(entry: Members) {
    ENABLED in entry && entry[ENABLED] == Bool(false)
  }

  /** A value written to a code, and then at most switched. */
  lemma PutReadsBack(s: Members, ws: seq<Write>, k: Name, v: Json, switches: seq<Write>, default: Json, who: Owner, x: Texts)
    requires Project(ws, k) == [PutValue(k, v)] + switches && forall w | w in switches :: w.PutEnabled?
    ensures v != Null ==> ConfigValue(ApplyWrites(s, ws, who, x), k, default) == v
    ensures EnabledAfter(ApplyWrites(s, ws, who, x), k, switches == [] || switches[|switches| - 1].enabled)
  {
    LastWriteSwitches(s, ws, k, who, x);
    if v != Null {
      ItemAfter(s, ws, k, who, x);
      PutThenSwitch(Lookup(ItemsOf(s), k), k, v, switches, who, x);
    }
  }

  /**
   A code listed once in parameter_values with a value is read with it, unless that is null, and is enabled
   unless its entry says otherwise.
   */
  lemma ParameterReadsBack(s: Members, overrides: Members, order: seq<Name>, raws: seq<Json>, i: nat, code: Name, default: Json, who: Owner, x: Texts)
    requires Visits(overrides, order) && Disjoint(overrides, x)
    requires Lookup(overrides, PARAMETER_VALUES) == Some(List(raws)) && ListedOnce(raws, i, code, x) && VALUE in raws[i].members
    ensures raws[i].members[VALUE] != Null ==>
              ConfigValue(Overridden(s, overrides, order, who, x), code, default) == raws[i].members[VALUE]
    ensures EnabledAfter(Overridden(s, overrides, order, who, x), code, !SwitchedOff(raws[i].members))
  {
    var entry := raws[i].members;
    ParameterShape(raws[i], code, x);
    ParameterReaches(overrides, order, raws, i, code, x);
    PutReadsBack(s, OrderedWrites(overrides, order, x), code, entry[VALUE], EnabledWrite(code, entry), default, who, x);
  }

  /** Without a value it keeps the one it had, and only its switch counts. */
  lemma ParameterSwitches(s: Members, overrides: Members, order: seq<Name>, raws: seq<Json>, i: nat, code: Name, on: bool, default: Json, who: Owner, x: Texts)
    requires Visits(overrides, order) && Disjoint(overrides, x)
    requires Lookup(overrides, PARAMETER_VALUES) == Some(List(raws)) && ListedOnce(raws, i, code, x)
    requires VALUE !in raws[i].members && Lookup(raws[i].members, ENABLED) == Some(Bool(on))
    ensures EnabledAfter(Overridden(s, overrides, order, who, x), code, on)
    ensures ConfigValue(Overridden(s, overrides, order, who, x), code, default) == ConfigValue(s, code, default)
  {
    var ws := OrderedWrites(overrides, order, x);
    ParameterShape(raws[i], code, x);
    ParameterReaches(overrides, order, raws, i, code, x);
    assert Project(ws, code) == [PutEnabled(code, on)];
    LastWriteSwitches(s, ws, code, who, x);
    SwitchesLeaveValue(s, ws, code, default, who, x);
  }

  /** The value an entry of its own gives to a code. */
  predicate GivesValue(entry: Json, v: Json) {
    if entry.Object? && VALUE in entry.members then v == entry.members[VALUE] else v == entry
  }

  function SwitchOf(k: Name, entry: Json): seq<Write> {
    if entry.Object? && VALUE in entry.members then EnabledWrite(k, entry.members) else []
  }

  lemma EntryShape(overrides: Members, order: seq<Name>, k: Name, v: Json, x: Texts)
    requires Visits(overrides, order) && Disjoint(overrides, x) && k in overrides && GivesValue(overrides[k], v)
    requires k != PARAMETER_VALUES && k != DISABLED_PARAMETERS && k != ENV
    ensures Project(OrderedWrites(overrides, order, x), k) == [PutValue(k, v)] + SwitchOf(k, overrides[k])
  {
    var own := EntryWrites(k, overrides[k], x);
    assert own == [PutValue(k, v)] + SwitchOf(k, overrides[k]);
    EntryReaches(overrides, order, k, own[0], x);
    ProjectAll(own, k);
  }

  /** An entry of its own gives a code its value, and enables it unless it says otherwise. */
  lemma EntryReadsBack(s: Members, overrides: Members, order: seq<Name>, k: Name, v: Json, default: Json, who: Owner, x: Texts)
    requires Visits(overrides, order) && Disjoint(overrides, x) && k in overrides && GivesValue(overrides[k], v)
    requires k != PARAMETER_VALUES && k != DISABLED_PARAMETERS && k != ENV
    ensures v != Null ==> ConfigValue(Overridden(s, overrides, order, who, x), k, default) == v
    ensures EnabledAfter(Overridden(s, overrides, order, who, x), k,
              !(overrides[k].Object? && VALUE in overrides[k].members && SwitchedOff(overrides[k].members)))
  {
    EntryShape(overrides, order, k, v, x);
    PutReadsBack(s, OrderedWrites(overrides, order, x), k, v, SwitchOf(k, overrides[k]), default, who, x);
  }

  /** A string is read as the object it spells; anything else that is no object holds no variables. */
  ghost predicate HoldsVariables(v: Json, env: Members, x: Texts) {
    v == Object(env) || (v.Str? && x.parse(v.s) == Some(env)) || (v.Str? && x.parse(v.s) == None && env == map[])
    || (!v.Object? && !v.Str? && env == map[])
  }

  lemma EnvEntry(v: Json, given: Members, x: Texts)
    requires HoldsVariables(v, given, x)
    ensures EntryWrites(ENV, v, x) == [MergeEnv(given)]
  {
  }

  lemma OneTouch(o: Option<Json>, w: Write, who: Owner, x: Texts)
    ensures TouchAll(o, [w], who, x) == Some(Touch(o, w, who, x))
  {
    assert [w][1..] == [];
  }

  lemma MergedValue(o: Option<Json>, had: Members, given: Members, who: Owner, x: Texts)
    requires HoldsVariables(TierValue(ObjectOr(o, map[])), had, x)
    ensures TierValue(Touch(o, MergeEnv(given), who, x).members) == Object(had + given)
  {
    TouchedValue(o, MergeEnv(given), who, x);
  }

  /** The variables under env are added to those the set had, and win over them. */
  lemma EnvironmentReadsBack(s: Members, overrides: Members, order: seq<Name>, had: Members, given: Members, who: Owner, x: Texts)
    requires Visits(overrides, order) && Disjoint(overrides, x) && ENV in overrides && HoldsVariables(overrides[ENV], given, x)
    requires HoldsVariables(ConfigValue(s, RUNTIME_ENV, Null), had, x)
    ensures ConfigValue(Overridden(s, overrides, order, who, x), RUNTIME_ENV, Null) == Object(had + given)
    ensures EnabledAfter(Overridden(s, overrides, order, who, x), RUNTIME_ENV, true)
  {
    var ws, w := OrderedWrites(overrides, order, x), MergeEnv(given);
    EnvEntry(overrides[ENV], given, x);
    EntryReaches(overrides, order, ENV, w, x);
    ProjectAll([w], RUNTIME_ENV);
    LastWriteSwitches(s, ws, RUNTIME_ENV, who, x);
    ItemAfter(s, ws, RUNTIME_ENV, who, x);
    OneTouch(Lookup(ItemsOf(s), RUNTIME_ENV), w, who, x);
    MergedValue(Lookup(ItemsOf(s), RUNTIME_ENV), had, given, who, x);
  }

  /** The entry names the code: as its own, in one of the two lists, or as the environment. */
  ghost predicate EntryNames(k: Name, v: Json, code: Name, x: Texts) {
    if k == PARAMETER_VALUES then v.List? && exists i :: 0 <= i < |v.elems| && NamesParameter(v.elems[i], code, x)
    else if k == DISABLED_PARAMETERS then v.List? && exists i :: 0 <= i < |v.elems| && NamesDisabled(v.elems[i], code, x)
    else if k == ENV then code == RUNTIME_ENV
    else code == k
  }

  lemma {:induction false} UnnamedInList(raws: seq<Json>, parameters: bool, code: Name, x: Texts)
    requires forall i | 0 <= i < |raws| :: if parameters then !NamesParameter(raws[i], code, x) else !NamesDisabled(raws[i], code, x)
    ensures forall w | w in ListWrites(raws, parameters, x) :: Target(w) != code
  {
    if raws != [] {
      var raw := raws[0];
      UnnamedInList(raws[1..], parameters, code, x);
      if raw.Object? && code != EMPTY {
        CodesAre(raw, code, x);
      }
    }
  }

  lemma UnnamedByEntry(k: Name, v: Json, code: Name, x: Texts)
    requires !EntryNames(k, v, code, x)
    ensures forall w | w in EntryWrites(k, v, x) :: Target(w) != code
  {
    if v.List? && (k == PARAMETER_VALUES || k == DISABLED_PARAMETERS) {
      UnnamedInList(v.elems, k == PARAMETER_VALUES, code, x);
    }
  }

  lemma {:induction false} UnnamedInOrder(overrides: Members, order: seq<Name>, code: Name, x: Texts)
    requires forall k | k in order :: k in overrides && !EntryNames(k, overrides[k], code, x)
    ensures forall w | w in OrderedWrites(overrides, order, x) :: Target(w) != code
  {
    if order != [] {
      UnnamedByEntry(order[0], overrides[order[0]], code, x);
      UnnamedInOrder(overrides, order[1..], code, x);
    }
  }

  /** A code no entry names keeps its item, and nothing but the items changes. */
  lemma UnnamedIsKept(s: Members, overrides: Members, order: seq<Name>, code: Name, who: Owner, x: Texts)
    requires Visits(overrides, order) && forall k | k in overrides :: !EntryNames(k, overrides[k], code, x)
    ensures Lookup(ItemsOf(Overridden(s, overrides, order, who, x)), code) == Lookup(ItemsOf(s), code)
    ensures forall n | n != ITEMS :: Lookup(Overridden(s, overrides, order, who, x), n) == Lookup(s, n)
  {
    UnnamedInOrder(overrides, order, code, x);
    OthersAreKept(s, OrderedWrites(overrides, order, x), who, x);
  }

  // ------------------------------------------------------------------------------------------
  // The tiers
  // ------------------------------------------------------------------------------------------

  /** The tier is an object that holds these members. */
  ghost predicate TierHolds(item: Members, tier: Name, members: Members) {
    tier in item && item[tier].Object? && forall n | n in members :: Lookup(item[tier].members, n) == Some(members[n])
  }

  ghost predicate ValueFilled(item: Members, v: Json, who: Owner) {
    && TierHolds(item, VALUE, map[LOCAL_VALUE := v, EFFECTIVE_VALUE := v])
    && TierHolds(item, STATE, map[ENABLED := Bool(true)])
    && TierHolds(item, PROVENANCE, map[VALUE_SOURCE := Str(who.layer), LAST_VALUE_LAYER := Str(who.layer), LAST_VALUE_OWNER_ID := Str(who.ref)])
  }

  lemma TouchFills(o: Option<Json>, code: Name, v: Json, who: Owner, x: Texts)
    ensures ValueFilled(Touch(o, PutValue(code, v), who, x).members, v, who)
  {
  }

  /** Writing a value fills the local and the effective value, enables, and tells the layer and the owner; a new item gets its key. */
  lemma ValueFillsTiers(s: Members, code: Name, v: Json, who: Owner, x: Texts)
    ensures exists item :: IsItem(ApplyWrites(s, [PutValue(code, v)], who, x), code, item) && ValueFilled(item, v, who)
              && ((forall before :: !IsItem(s, code, before)) ==> Lookup(item, SCHEMA) == Some(Object(map[KEY := Str(code)])))
  {
    ApplyOne(s, PutValue(code, v), who, x);
    TouchFills(Lookup(ItemsOf(s), code), code, v, who, x);
    if code in ItemsOf(s) && ItemsOf(s)[code].Object? {
      assert IsItem(s, code, ItemsOf(s)[code].members);
    }
    var item := Touch(Lookup(ItemsOf(s), code), PutValue(code, v), who, x).members;
    assert IsItem(ApplyWrites(s, [PutValue(code, v)], who, x), code, item);
  }

  /** An item reads as enabled exactly when its state tier says true. */
  lemma EnabledReadIs(item: Members)
    ensures ItemEnabled(item) <==> SaysEnabled(item)
  {
  }

  /** The value read is the effective one, failing that the default one of the item, failing that the default given. */
  lemma ValueReadIs(s: Members, code: Name, item: Members, tier: Members, default: Json)
    requires IsItem(s, code, item) && Lookup(item, VALUE) == Some(Object(tier))
    ensures var effective, own := Lookup(tier, EFFECTIVE_VALUE), Lookup(tier, DEFAULT_VALUE);
      ConfigValue(s, code, default) == if effective.Some? && effective.value != Null then effective.value
                                       else if own.Some? && own.value != Null then own.value else default
  {
  }
}
