/**
 The tiered configuration set and the overrides applied to it. A set is a JSON object whose "items"
 member maps a code to an item; an item keeps its value, its state and its provenance in tiers.
 Overrides arrive as a Go map, so the order in which its entries are applied is not fixed.
 */
module ConfigSet {
  import opened Results

  /** Member names, codes and strings are only ever compared. */
  type Name = int

  const EMPTY: Name := 0
  const ITEMS: Name := 1
  const SCHEMA: Name := 2
  const VALUE: Name := 3
  const STATE: Name := 4
  const PROVENANCE: Name := 5
  const KEY: Name := 6
  const CODE: Name := 7
  const NAME: Name := 8
  const CLI_NAME: Name := 9
  const ENABLED: Name := 10
  const DEFAULT_VALUE: Name := 11
  const LOCAL_VALUE: Name := 12
  const EFFECTIVE_VALUE: Name := 13
  const REQUIRED: Name := 14
  const ENABLED_FIELDS: Name := 15
  const VALUE_SOURCE: Name := 16
  const LAST_VALUE_LAYER: Name := 17
  const LAST_VALUE_OWNER_ID: Name := 18
  const PARAMETER_VALUES: Name := 19
  const DISABLED_PARAMETERS: Name := 20
  const ENV: Name := 21
  const RUNTIME_ENV: Name := 22
  const NIL_TEXT: Name := 23

  datatype Json =
    | Null
    | Bool(b: bool)
    | Number(n: int)
    | Str(s: Name)
    | List(elems: seq<Json>)
    | Object(members: map<Name, Json>)

  type Members = map<Name, Json>

  /** Printing a value and trimming the result, and reading a string as a JSON object. */
  datatype Texts = Texts(render: Json -> Name, parse: Name -> Option<Members>)

  /** A missing member prints as "<nil>", which is not blank. */
  ghost predicate NilPrints(x: Texts) {
    x.render(Null) == NIL_TEXT
  }

  datatype Owner = Owner(layer: Name, ref: Name)

  function Member(m: Members, name: Name): Json {
    if name in m then m[name] else Null
  }

  function ObjectOr(o: Option<Json>, default: Members): Members {
    if o.Some? && o.value.Object? then o.value.members else default
  }

  function Lookup(m: Members, name: Name): Option<Json> {
    if name in m then Some(m[name]) else None
  }

  function ItemsOf(s: Members): Members {
    ObjectOr(Lookup(s, ITEMS), map[])
  }

  // ------------------------------------------------------------------------------------------
  // Reading
  // ------------------------------------------------------------------------------------------

  /** The value of an item that counts: the effective one unless it is null, then the default one. */
  function TierValue(item: Members): Json {
    var tier := ObjectOr(Lookup(item, VALUE), map[]);
    if Member(tier, EFFECTIVE_VALUE) != Null then tier[EFFECTIVE_VALUE] else Member(tier, DEFAULT_VALUE)
  }

  function ConfigValue(s: Members, code: Name, default: Json): Json {
    var v := TierValue(ObjectOr(Lookup(ItemsOf(s), code), map[]));
    if v == Null then default else v
  }

  function ItemEnabled(item: Members): bool {
    Member(ObjectOr(Lookup(item, STATE), map[]), ENABLED) == Bool(true)
  }

  predicate ValidItem(o: Json) {
    && o.Object?
    && CODE !in o.members && ENABLED !in o.members && DEFAULT_VALUE !in o.members
    && REQUIRED !in o.members && ENABLED_FIELDS !in o.members
    && Member(o.members, SCHEMA).Object? && Member(o.members, VALUE).Object? && Member(o.members, STATE).Object?
  }

  predicate ValidSet(s: Members) {
    forall code | code in ItemsOf(s) :: ValidItem(ItemsOf(s)[code])
  }

  // ------------------------------------------------------------------------------------------
  // Writing one item
  // ------------------------------------------------------------------------------------------

  datatype Write = PutValue(code: Name, value: Json) | PutEnabled(code: Name, enabled: bool) | MergeEnv(env: Members)

  function Target(w: Write): Name {
    if w.MergeEnv? then RUNTIME_ENV else w.code
  }

  /** Writes into a tier that is an object; anything else in its place is replaced. */
  function WriteTier(item: Members, tier: Name, written: Members): Members {
    item[tier := Object(ObjectOr(Lookup(item, tier), map[]) + written)]
  }

  function NewItem(code: Name): Members {
    map[SCHEMA := Object(map[KEY := Str(code)]), VALUE := Object(map[]), STATE := Object(map[])]
  }

  function WithEnabled(item: Members, enabled: bool): Members {
    WriteTier(item, STATE, map[ENABLED := Bool(enabled)])
  }

  function WithValue(item: Members, v: Json, who: Owner): Members {
    WriteTier(WithEnabled(WriteTier(item, VALUE, map[LOCAL_VALUE := v, EFFECTIVE_VALUE := v]), true), PROVENANCE,
      map[VALUE_SOURCE := Str(who.layer), LAST_VALUE_LAYER := Str(who.layer), LAST_VALUE_OWNER_ID := Str(who.ref)])
  }

  /** A value read as an object of environment variables. */
  function EnvObject(v: Json, x: Texts): Members {
    match v
    case Object(members) => members
    case Str(s) => x.parse(s).GetOr(map[])
    case _ => map[]
  }

  /** The merge happens inside the object it read: a default that served as the value changes with it. */
  function MergeInto(item: Members, env: Members, x: Texts): Members {
    var tier := ObjectOr(Lookup(item, VALUE), map[]);
    if Member(tier, EFFECTIVE_VALUE) == Null && Member(tier, DEFAULT_VALUE).Object? then
      WriteTier(item, VALUE, map[DEFAULT_VALUE := Object(tier[DEFAULT_VALUE].members + env)])
    else item
  }

  function Touch(o: Option<Json>, w: Write, who: Owner, x: Texts): Json {
    match w
    case PutValue(code, v) => Object(WithValue(ObjectOr(o, NewItem(code)), v, who))
    case PutEnabled(_, enabled) => Object(WithEnabled(ObjectOr(o, map[]), enabled))
    case MergeEnv(env) =>
      var item := ObjectOr(o, NewItem(RUNTIME_ENV));
      Object(WithValue(MergeInto(item, env, x), Object(EnvObject(TierValue(item), x) + env), who))
  }

  function ApplyItems(items: Members, ws: seq<Write>, who: Owner, x: Texts): Members
    decreases |ws|
  {
    if ws == [] then items
    else ApplyItems(items[Target(ws[0]) := Touch(Lookup(items, Target(ws[0])), ws[0], who, x)], ws[1..], who, x)
  }

  function ApplyWrites(s: Members, ws: seq<Write>, who: Owner, x: Texts): Members {
    if ws == [] then s else s[ITEMS := Object(ApplyItems(ItemsOf(s), ws, who, x))]
  }

  // ------------------------------------------------------------------------------------------
  // Overrides as writes
  // ------------------------------------------------------------------------------------------

  /** The first of the members whose printed form is not blank. */
  function CodeOf(entry: Members, names: seq<Name>, x: Texts): Name {
    if names == [] then EMPTY
    else
      var code := x.render(Member(entry, names[0]));
      if code != EMPTY then code else CodeOf(entry, names[1..], x)
  }

  function EnabledWrite(code: Name, entry: Members): seq<Write> {
    if Member(entry, ENABLED).Bool? then [PutEnabled(code, entry[ENABLED].b)] else []
  }

  function ParameterWrites(raw: Json, x: Texts): seq<Write> {
    var code := if raw.Object? then CodeOf(raw.members, [KEY, CODE, NAME, CLI_NAME], x) else EMPTY;
    if code == EMPTY then []
    else (if VALUE in raw.members then [PutValue(code, raw.members[VALUE])] else []) + EnabledWrite(code, raw.members)
  }

  function DisabledWrites(raw: Json, x: Texts): seq<Write> {
    var code := if raw.Object? then CodeOf(raw.members, [KEY, CODE], x) else EMPTY;
    if code == EMPTY then [] else [PutEnabled(code, false)]
  }

  function ListWrites(raws: seq<Json>, parameters: bool, x: Texts): seq<Write> {
    if raws == [] then []
    else (if parameters then ParameterWrites(raws[0], x) else DisabledWrites(raws[0], x)) + ListWrites(raws[1..], parameters, x)
  }

  /** The writes one override entry makes, in order. */
  function EntryWrites(key: Name, value: Json, x: Texts): seq<Write> {
    if key == PARAMETER_VALUES || key == DISABLED_PARAMETERS then
      if value.List? then ListWrites(value.elems, key == PARAMETER_VALUES, x) else []
    else if key == ENV then [MergeEnv(EnvObject(value, x))]
    else if value.Object? && VALUE in value.members then
      [PutValue(key, value.members[VALUE])] + EnabledWrite(key, value.members)
    else [PutValue(key, value)]
  }

  function OrderedWrites(overrides: Members, order: seq<Name>, x: Texts): seq<Write>
    requires forall k | k in order :: k in overrides
  {
    if order == [] then []
    else EntryWrites(order[0], overrides[order[0]], x) + OrderedWrites(overrides, order[1..], x)
  }

  /** An order in which the entries of the map may be visited. */
  ghost predicate Visits(overrides: Members, order: seq<Name>) {
    && (forall i | 0 <= i < |order| :: order[i] in overrides) && (forall k | k in overrides :: k in order)
    && (forall i, j | 0 <= i < j < |order| :: order[i] != order[j])
  }

  // ------------------------------------------------------------------------------------------
  // One code at a time
  // ------------------------------------------------------------------------------------------

  function Project(ws: seq<Write>, code: Name): seq<Write> {
    if ws == [] then []
    else if Target(ws[0]) == code then [ws[0]] + Project(ws[1..], code)
    else Project(ws[1..], code)
  }

  function TouchAll(o: Option<Json>, ws: seq<Write>, who: Owner, x: Texts): Option<Json>
    decreases |ws|
  {
    if ws == [] then o else TouchAll(Some(Touch(o, ws[0], who, x)), ws[1..], who, x)
  }

  /** What a code's item becomes depends on that item and on the writes to that code alone. */
  lemma {:induction false} ItemsAreIndependent(items: Members, ws: seq<Write>, code: Name, who: Owner, x: Texts)
    ensures Lookup(ApplyItems(items, ws, who, x), code) == TouchAll(Lookup(items, code), Project(ws, code), who, x)
    decreases |ws|
  {
    if ws != [] {
      var w := ws[0];
      var next := items[Target(w) := Touch(Lookup(items, Target(w)), w, who, x)];
      ItemsAreIndependent(next, ws[1..], code, who, x);
      var more := Project(ws[1..], code);
      if Target(w) == code {
        assert Project(ws, code)[0] == w && Project(ws, code)[1..] == more;
      } else {
        assert Project(ws, code) == more;
      }
    }
  }

  // ------------------------------------------------------------------------------------------
  // Order independence
  // ------------------------------------------------------------------------------------------

  /** No code is written by two entries. */
  ghost predicate Disjoint(overrides: Members, x: Texts) {
    forall k, l, v, w | k in overrides && l in overrides && k != l
      && v in EntryWrites(k, overrides[k], x) && w in EntryWrites(l, overrides[l], x) :: Target(v) != Target(w)
  }

  lemma {:induction false} ProjectConcat(xs: seq<Write>, ys: seq<Write>, code: Name)
    ensures Project(xs + ys, code) == Project(xs, code) + Project(ys, code)
  {
    if xs == [] {
      assert xs + ys == ys;
    } else {
      var w, more := xs[0], xs[1..];
      assert (xs + ys)[0] == w && (xs + ys)[1..] == more + ys;
      ProjectConcat(more, ys, code);
      var left, right := Project(more, code), Project(ys, code);
      assert [w] + (left + right) == ([w] + left) + right;
    }
  }

  lemma {:induction false} ProjectNothing(ws: seq<Write>, code: Name)
    ensures Project(ws, code) == [] <==> forall w | w in ws :: Target(w) != code
  {
    if ws != [] {
      ProjectNothing(ws[1..], code);
      assert ws == [ws[0]] + ws[1..];
    }
  }

  /** With disjoint entries, what reaches a code is what the one entry that writes it writes. */
  lemma {:induction false} OneEntryPerCode(overrides: Members, order: seq<Name>, k: Name, code: Name, x: Texts)
    requires (forall l | l in order :: l in overrides) && forall i, j | 0 <= i < j < |order| :: order[i] != order[j]
    requires k in overrides
    requires forall l | l in overrides && l != k :: Project(EntryWrites(l, overrides[l], x), code) == []
    ensures Project(OrderedWrites(overrides, order, x), code)
            == if k in order then Project(EntryWrites(k, overrides[k], x), code) else []
  {
    if order != [] {
      var first := EntryWrites(order[0], overrides[order[0]], x);
      ProjectConcat(first, OrderedWrites(overrides, order[1..], x), code);
      OneEntryPerCode(overrides, order[1..], k, code, x);
    }
  }

  /** The one entry that writes the code, or any entry when none does. */
  lemma WriterOf(overrides: Members, some: Name, code: Name, x: Texts) returns (k: Name)
    requires some in overrides && Disjoint(overrides, x)
    ensures k in overrides
    ensures forall l | l in overrides && l != k :: Project(EntryWrites(l, overrides[l], x), code) == []
  {
    k := some;
    if l :| l in overrides && Project(EntryWrites(l, overrides[l], x), code) != [] {
      k := l;
    }
    forall l | l in overrides && l != k
      ensures Project(EntryWrites(l, overrides[l], x), code) == []
    {
      ProjectNothing(EntryWrites(l, overrides[l], x), code);
      ProjectNothing(EntryWrites(k, overrides[k], x), code);
    }
  }

  lemma SameProjections(overrides: Members, order: seq<Name>, other: seq<Name>, code: Name, x: Texts)
    requires Visits(overrides, order) && Visits(overrides, other) && Disjoint(overrides, x)
    ensures Project(OrderedWrites(overrides, order, x), code) == Project(OrderedWrites(overrides, other, x), code)
  {
    if order != [] {
      assert order[0] in overrides;
      var k := WriterOf(overrides, order[0], code, x);
      OneEntryPerCode(overrides, order, k, code, x);
      OneEntryPerCode(overrides, other, k, code, x);
    } else {
      assert forall k :: k !in overrides;
    }
  }

  lemma SameMembers(a: Members, b: Members)
    requires forall n :: Lookup(a, n) == Lookup(b, n)
    ensures a == b
  {
    assert forall n :: n in a <==> n in b by {
      forall n
        ensures n in a <==> n in b
      {
        assert Lookup(a, n) == Lookup(b, n);
      }
    }
    forall n | n in a
      ensures a[n] == b[n]
    {
      assert Lookup(a, n) == Lookup(b, n);
    }
    assert (forall n :: n in a.Keys <==> n in b.Keys) ==> a.Keys == b.Keys;
    assert (forall n :: n in a ==> a[n] == b[n]) ==> a == b;
  }

  /** Overrides that write disjoint codes leave the same set whatever order the entries come in. */
  lemma OrderIndependence(s: Members, overrides: Members, order: seq<Name>, other: seq<Name>, who: Owner, x: Texts)
    requires Visits(overrides, order) && Visits(overrides, other) && Disjoint(overrides, x)
    ensures ApplyWrites(s, OrderedWrites(overrides, order, x), who, x)
            == ApplyWrites(s, OrderedWrites(overrides, other, x), who, x)
  {
    var ws, vs := OrderedWrites(overrides, order, x), OrderedWrites(overrides, other, x);
    var items := ItemsOf(s);
    forall code
      ensures Project(ws, code) == Project(vs, code)
      ensures Lookup(ApplyItems(items, ws, who, x), code) == Lookup(ApplyItems(items, vs, who, x), code)
    {
      SameProjections(overrides, order, other, code, x);
      ItemsAreIndependent(items, ws, code, who, x);
      ItemsAreIndependent(items, vs, code, who, x);
    }
    SameMembers(ApplyItems(items, ws, who, x), ApplyItems(items, vs, who, x));
    SameEmptiness(ws, vs);
  }

  lemma SameEmptiness(ws: seq<Write>, vs: seq<Write>)
    requires forall code :: Project(ws, code) == Project(vs, code)
    ensures ws == [] <==> vs == []
  {
    if ws != [] {
      assert Project(ws, Target(ws[0])) != [];
      assert Project(vs, Target(ws[0])) != [];
    }
    if vs != [] {
      assert Project(vs, Target(vs[0])) != [];
      assert Project(ws, Target(vs[0])) != [];
    }
  }

  // ------------------------------------------------------------------------------------------
  // Reading back
  // ------------------------------------------------------------------------------------------

  /** Codes no write targets keep their item, and the members beside "items" are kept. */
  lemma OthersAreKept(s: Members, ws: seq<Write>, who: Owner, x: Texts)
    ensures forall n | n != ITEMS :: Lookup(ApplyWrites(s, ws, who, x), n) == Lookup(s, n)
    ensures forall code | (forall w | w in ws :: Target(w) != code) ::
              Lookup(ItemsOf(ApplyWrites(s, ws, who, x)), code) == Lookup(ItemsOf(s), code)
  {
    forall code | forall w | w in ws :: Target(w) != code
      ensures Lookup(ItemsOf(ApplyWrites(s, ws, who, x)), code) == Lookup(ItemsOf(s), code)
    {
      ProjectNothing(ws, code);
      ItemsAreIndependent(ItemsOf(s), ws, code, who, x);
    }
  }

  lemma {:induction false} TouchAllConcat(o: Option<Json>, xs: seq<Write>, ys: seq<Write>, who: Owner, x: Texts)
    ensures TouchAll(o, xs + ys, who, x) == TouchAll(TouchAll(o, xs, who, x), ys, who, x)
    decreases |xs|
  {
    if xs == [] {
      assert xs + ys == ys;
    } else {
      assert (xs + ys)[1..] == xs[1..] + ys;
      TouchAllConcat(Some(Touch(o, xs[0], who, x)), xs[1..], ys, who, x);
    }
  }

  lemma SwitchKeepsValue(o: Option<Json>, enabled: bool)
    ensures TierValue(WithEnabled(ObjectOr(o, map[]), enabled)) == TierValue(ObjectOr(o, map[]))
  {
    var item := ObjectOr(o, map[]);
    assert Lookup(WithEnabled(item, enabled), VALUE) == Lookup(item, VALUE);
  }

  /** Enabling and disabling leave the value alone. */
  lemma {:induction false} SwitchesKeepValue(o: Option<Json>, ws: seq<Write>, who: Owner, x: Texts)
    requires forall w | w in ws :: w.PutEnabled?
    ensures TierValue(ObjectOr(TouchAll(o, ws, who, x), map[])) == TierValue(ObjectOr(o, map[]))
    decreases |ws|
  {
    if ws != [] {
      assert ws[0] in ws;
      SwitchKeepsValue(o, ws[0].enabled);
      SwitchesKeepValue(Some(Touch(o, ws[0], who, x)), ws[1..], who, x);
    }
  }

  lemma {:induction false} ProjectIsPart(ws: seq<Write>, code: Name)
    ensures forall w :: w in Project(ws, code) <==> w in ws && Target(w) == code
  {
    if ws != [] {
      ProjectIsPart(ws[1..], code);
      assert ws == [ws[0]] + ws[1..];
    }
  }

  lemma ItemAfter(s: Members, ws: seq<Write>, code: Name, who: Owner, x: Texts)
    ensures Lookup(ItemsOf(ApplyWrites(s, ws, who, x)), code) == TouchAll(Lookup(ItemsOf(s), code), Project(ws, code), who, x)
  {
    ItemsAreIndependent(ItemsOf(s), ws, code, who, x);
  }

  lemma ProjectAround(before: seq<Write>, w: Write, after: seq<Write>)
    ensures Project(before + ([w] + after), Target(w)) == Project(before, Target(w)) + ([w] + Project(after, Target(w)))
  {
    ProjectConcat(before, [w] + after, Target(w));
    assert ([w] + after)[1..] == after;
  }

  lemma SplitAtIndex(ws: seq<Write>, i: nat)
    requires i < |ws|
    ensures ws == ws[..i] + ([ws[i]] + ws[i + 1..])
  {
  }

  /** The item of a code after writes of which `w` is one, in terms of the item that `w` met. */
  lemma ItemAround(s: Members, ws: seq<Write>, i: nat, who: Owner, x: Texts)
    requires i < |ws|
    ensures var code := Target(ws[i]);
      Lookup(ItemsOf(ApplyWrites(s, ws, who, x)), code)
      == TouchAll(Some(Touch(Lookup(ItemsOf(ApplyWrites(s, ws[..i], who, x)), code), ws[i], who, x)), Project(ws[i + 1..], code), who, x)
  {
    var code := Target(ws[i]);
    ItemAfter(s, ws, code, who, x);
    ItemAfter(s, ws[..i], code, who, x);
    SplitAtIndex(ws, i);
    ProjectAround(ws[..i], ws[i], ws[i + 1..]);
    TouchedAround(Lookup(ItemsOf(s), code), Project(ws[..i], code), ws[i], Project(ws[i + 1..], code), who, x);
  }

  lemma TouchedAround(o: Option<Json>, before: seq<Write>, w: Write, after: seq<Write>, who: Owner, x: Texts)
    ensures TouchAll(o, before + ([w] + after), who, x)
            == TouchAll(Some(Touch(TouchAll(o, before, who, x), w, who, x)), after, who, x)
  {
    TouchAllConcat(o, before, [w] + after, who, x);
    assert ([w] + after)[1..] == after;
  }

  /** A non-null value written last is the value read, and a merge is read as the merged variables. */
  lemma LastValueReadsBack(s: Members, ws: seq<Write>, i: nat, default: Json, who: Owner, x: Texts)
    requires i < |ws| && !ws[i].PutEnabled?
    requires forall j | i < j < |ws| && Target(ws[j]) == Target(ws[i]) :: ws[j].PutEnabled?
    ensures var v := ConfigValue(ApplyWrites(s, ws, who, x), Target(ws[i]), default);
      match ws[i]
      case PutValue(_, written) => written != Null ==> v == written
      case MergeEnv(env) =>
        v == Object(EnvObject(ConfigValue(ApplyWrites(s, ws[..i], who, x), RUNTIME_ENV, Null), x) + env)
      case PutEnabled(_, _) => true
  {
    var code := Target(ws[i]);
    var met := Lookup(ItemsOf(ApplyWrites(s, ws[..i], who, x)), code);
    ItemAround(s, ws, i, who, x);
    ProjectIsPart(ws[i + 1..], code);
    SwitchesKeepValue(Some(Touch(met, ws[i], who, x)), Project(ws[i + 1..], code), who, x);
    TouchedValue(met, ws[i], who, x);
  }

  lemma TouchedValue(o: Option<Json>, w: Write, who: Owner, x: Texts)
    requires !w.PutEnabled?
    ensures var v := TierValue(Touch(o, w, who, x).members);
      match w
      case PutValue(_, written) => written != Null ==> v == written
      case MergeEnv(env) => v == Object(EnvObject(TierValue(ObjectOr(o, map[])), x) + env)
      case PutEnabled(_, _) => true
  {
  }

  lemma PutThenSwitch(o: Option<Json>, k: Name, v: Json, switches: seq<Write>, who: Owner, x: Texts)
    requires v != Null && forall w | w in switches :: w.PutEnabled?
    ensures TierValue(ObjectOr(TouchAll(o, [PutValue(k, v)] + switches, who, x), map[])) == v
  {
    var put := PutValue(k, v);
    assert ([put] + switches)[1..] == switches;
    SwitchesKeepValue(Some(Touch(o, put, who, x)), switches, who, x);
    TouchedValue(o, put, who, x);
  }

  lemma {:induction false} ProjectAll(ws: seq<Write>, code: Name)
    requires forall w | w in ws :: Target(w) == code
    ensures Project(ws, code) == ws
  {
    if ws != [] {
      ProjectAll(ws[1..], code);
    }
  }

  /** The last write of a code decides whether it is enabled; writing a value enables it. */
  lemma LastWriteDecidesEnabled(s: Members, ws: seq<Write>, i: nat, who: Owner, x: Texts)
    requires i < |ws| && forall j | i < j < |ws| :: Target(ws[j]) != Target(ws[i])
    ensures var o := Lookup(ItemsOf(ApplyWrites(s, ws, who, x)), Target(ws[i]));
      o.Some? && o.value.Object? && (ItemEnabled(o.value.members) <==> ws[i].PutEnabled? ==> ws[i].enabled)
  {
    ItemAround(s, ws, i, who, x);
    ProjectNothing(ws[i + 1..], Target(ws[i]));
  }

  // ------------------------------------------------------------------------------------------
  // Validity
  // ------------------------------------------------------------------------------------------

  lemma TouchKeepsValid(o: Option<Json>, w: Write, who: Owner, x: Texts)
    requires if o.Some? then ValidItem(o.value) else !w.PutEnabled?
    ensures ValidItem(Touch(o, w, who, x))
  {
  }

  lemma {:induction false} TouchAllKeepsValid(o: Option<Json>, ws: seq<Write>, who: Owner, x: Texts)
    requires if o.Some? then ValidItem(o.value) else ws != [] && !ws[0].PutEnabled?
    ensures TouchAll(o, ws, who, x).Some? && ValidItem(TouchAll(o, ws, who, x).value)
    decreases |ws|
  {
    if ws != [] {
      TouchKeepsValid(o, ws[0], who, x);
      TouchAllKeepsValid(Some(Touch(o, ws[0], who, x)), ws[1..], who, x);
    }
  }

  /** No write adds the schema an item lacks. */
  lemma {:induction false} SchemaStaysMissing(o: Json, ws: seq<Write>, who: Owner, x: Texts)
    requires o.Object? && SCHEMA !in o.members
    ensures TouchAll(Some(o), ws, who, x).Some? && !ValidItem(TouchAll(Some(o), ws, who, x).value)
    decreases |ws|
  {
    if ws != [] {
      SchemaStaysMissing(Touch(Some(o), ws[0], who, x), ws[1..], who, x);
    }
  }

  /** A valid set stays valid exactly when no code that has no item yet is first only enabled or disabled. */
  lemma ValidityIff(s: Members, ws: seq<Write>, who: Owner, x: Texts)
    requires ValidSet(s)
    ensures ValidSet(ApplyWrites(s, ws, who, x)) <==>
            forall code | code !in ItemsOf(s) && Project(ws, code) != [] :: !Project(ws, code)[0].PutEnabled?
  {
    var items, after := ItemsOf(s), ItemsOf(ApplyWrites(s, ws, who, x));
    forall code
      ensures Lookup(after, code) == TouchAll(Lookup(items, code), Project(ws, code), who, x)
      ensures (code in after ==> ValidItem(after[code])) <==>
              (code !in items && Project(ws, code) != [] ==> !Project(ws, code)[0].PutEnabled?)
    {
      ItemsAreIndependent(items, ws, code, who, x);
      var touches := Project(ws, code);
      if code in items || (touches != [] && !touches[0].PutEnabled?) {
        TouchAllKeepsValid(Lookup(items, code), touches, who, x);
      } else if touches != [] {
        SchemaStaysMissing(Touch(None, touches[0], who, x), touches[1..], who, x);
      }
    }
  }

  // ------------------------------------------------------------------------------------------
  // Limits of the above
  // ------------------------------------------------------------------------------------------

  /** The other names of a parameter are tried only when its key is present and prints blank. */
  lemma FallbackNeedsBlankKey(entry: Members, names: seq<Name>, x: Texts)
    requires NilPrints(x)
    ensures KEY !in entry ==> CodeOf(entry, [KEY] + names, x) == NIL_TEXT
    ensures KEY in entry && x.render(entry[KEY]) != EMPTY ==> CodeOf(entry, [KEY] + names, x) == x.render(entry[KEY])
    ensures KEY in entry && x.render(entry[KEY]) == EMPTY ==> CodeOf(entry, [KEY] + names, x) == CodeOf(entry, names, x)
  {
    assert ([KEY] + names)[0] == KEY && ([KEY] + names)[1..] == names;
  }

  lemma TwoEntries(overrides: Members, k: Name, l: Name, x: Texts)
    requires k in overrides && l in overrides
    ensures OrderedWrites(overrides, [k, l], x) == EntryWrites(k, overrides[k], x) + EntryWrites(l, overrides[l], x)
  {
    OrderedWritesNext(overrides, [], k, x);
    OrderedWritesNext(overrides, [k], l, x);
    assert [] + [k] == [k] && [k] + [l] == [k, l];
  }

  lemma PutAndMerge(s: Members, one: Members, two: Members, who: Owner, x: Texts)
    ensures var put, merge := PutValue(RUNTIME_ENV, Object(one)), MergeEnv(two);
      && ConfigValue(ApplyWrites(s, [put, merge], who, x), RUNTIME_ENV, Null) == Object(one + two)
      && ConfigValue(ApplyWrites(s, [merge, put], who, x), RUNTIME_ENV, Null) == Object(one)
  {
    var put, merge := PutValue(RUNTIME_ENV, Object(one)), MergeEnv(two);
    LastValueReadsBack(s, [put, merge], 1, Null, who, x);
    assert [put, merge][..1] == [put];
    LastValueReadsBack(s, [put], 0, Null, who, x);
    LastValueReadsBack(s, [merge, put], 1, Null, who, x);
  }

  function BothWays(one: Members, two: Members): Members {
    map[RUNTIME_ENV := Object(one), ENV := Object(two)]
  }

  lemma BothOrders(one: Members, two: Members, x: Texts)
    requires VALUE !in one
    ensures var put, merge := PutValue(RUNTIME_ENV, Object(one)), MergeEnv(two);
      && OrderedWrites(BothWays(one, two), [RUNTIME_ENV, ENV], x) == [put, merge]
      && OrderedWrites(BothWays(one, two), [ENV, RUNTIME_ENV], x) == [merge, put]
  {
    var put, merge := PutValue(RUNTIME_ENV, Object(one)), MergeEnv(two);
    TwoEntries(BothWays(one, two), RUNTIME_ENV, ENV, x);
    TwoEntries(BothWays(one, two), ENV, RUNTIME_ENV, x);
    assert [put] + [merge] == [put, merge] && [merge] + [put] == [merge, put];
  }

  lemma BothAreVisited(one: Members, two: Members)
    ensures Visits(BothWays(one, two), [RUNTIME_ENV, ENV]) && Visits(BothWays(one, two), [ENV, RUNTIME_ENV])
  {
  }

  /** Variables given both ways are merged or replaced depending on the order, unless merging adds nothing. */
  lemma OverlapDependsOnOrder(s: Members, one: Members, two: Members, who: Owner, x: Texts)
    requires VALUE !in one
    ensures var overrides := BothWays(one, two);
      && Visits(overrides, [RUNTIME_ENV, ENV]) && Visits(overrides, [ENV, RUNTIME_ENV])
      && ConfigValue(ApplyWrites(s, OrderedWrites(overrides, [RUNTIME_ENV, ENV], x), who, x), RUNTIME_ENV, Null) == Object(one + two)
      && ConfigValue(ApplyWrites(s, OrderedWrites(overrides, [ENV, RUNTIME_ENV], x), who, x), RUNTIME_ENV, Null) == Object(one)
  {
    BothAreVisited(one, two);
    BothOrders(one, two, x);
    PutAndMerge(s, one, two, who, x);
  }

  // ------------------------------------------------------------------------------------------
  // The functions of the program, on a set they update in place
  // ------------------------------------------------------------------------------------------

  lemma {:induction false} ApplyItemsConcat(items: Members, xs: seq<Write>, ys: seq<Write>, who: Owner, x: Texts)
    ensures ApplyItems(items, xs + ys, who, x) == ApplyItems(ApplyItems(items, xs, who, x), ys, who, x)
    decreases |xs|
  {
    if xs == [] {
      assert xs + ys == ys;
    } else {
      assert (xs + ys)[1..] == xs[1..] + ys;
      var w := xs[0];
      ApplyItemsConcat(items[Target(w) := Touch(Lookup(items, Target(w)), w, who, x)], xs[1..], ys, who, x);
    }
  }

  lemma ApplyConcat(s: Members, xs: seq<Write>, ys: seq<Write>, who: Owner, x: Texts)
    ensures ApplyWrites(s, xs + ys, who, x) == ApplyWrites(ApplyWrites(s, xs, who, x), ys, who, x)
  {
    if xs == [] {
      assert xs + ys == ys;
    } else if ys == [] {
      assert xs + ys == xs;
    } else {
      ApplyItemsConcat(ItemsOf(s), xs, ys, who, x);
    }
  }

  lemma {:induction false} OrderedWritesNext(overrides: Members, order: seq<Name>, k: Name, x: Texts)
    requires (forall l | l in order :: l in overrides) && k in overrides
    ensures OrderedWrites(overrides, order + [k], x) == OrderedWrites(overrides, order, x) + EntryWrites(k, overrides[k], x)
  {
    if order == [] {
      assert [k][1..] == [];
    } else {
      assert (order + [k])[1..] == order[1..] + [k];
      OrderedWritesNext(overrides, order[1..], k, x);
    }
  }

  lemma ListWritesNext(raws: seq<Json>, i: nat, parameters: bool, x: Texts)
    requires i < |raws|
    ensures ListWrites(raws[i..], parameters, x)
            == (if parameters then ParameterWrites(raws[i], x) else DisabledWrites(raws[i], x)) + ListWrites(raws[i + 1..], parameters, x)
  {
    assert raws[i..][0] == raws[i] && raws[i..][1..] == raws[i + 1..];
  }

  lemma ApplyOne(s: Members, w: Write, who: Owner, x: Texts)
    ensures ApplyWrites(s, [w], who, x)
            == s[ITEMS := Object(ItemsOf(s)[Target(w) := Touch(Lookup(ItemsOf(s), Target(w)), w, who, x)])]
  {
    var items := ItemsOf(s)[Target(w) := Touch(Lookup(ItemsOf(s), Target(w)), w, who, x)];
    assert [w][1..] == [];
    assert ApplyItems(ItemsOf(s), [w], who, x) == ApplyItems(items, [], who, x);
  }

  class ConfigDocument {
    const texts: Texts
    var members: Members

    constructor (texts: Texts, members: Members)
      ensures this.texts == texts && this.members == members
    {
      this.texts, this.members := texts, members;
    }

    ghost function After(ws: seq<Write>, who: Owner): Members
      reads this
    {
      ApplyWrites(members, ws, who, texts)
    }

    method SetConfigValue(code: Name, value: Json, who: Owner)
      modifies this
      ensures members == old(After([PutValue(code, value)], who))
    {
      ApplyOne(members, PutValue(code, value), who, texts);
      var items := ItemsOf(members);
      var item := if code in items && items[code].Object? then items[code].members else NewItem(code);
      item := WriteTier(item, VALUE, map[LOCAL_VALUE := value, EFFECTIVE_VALUE := value]);
      item := WriteTier(item, STATE, map[ENABLED := Bool(true)]);
      item := WriteTier(item, PROVENANCE,
        map[VALUE_SOURCE := Str(who.layer), LAST_VALUE_LAYER := Str(who.layer), LAST_VALUE_OWNER_ID := Str(who.ref)]);
      items := items[code := Object(item)];
      members := members[ITEMS := Object(items)];
    }

    method SetConfigEnabled(code: Name, enabled: bool, who: Owner)
      modifies this
      ensures members == old(After([PutEnabled(code, enabled)], who))
    {
      ApplyOne(members, PutEnabled(code, enabled), who, texts);
      var items := ItemsOf(members);
      var item := if code in items && items[code].Object? then items[code].members else map[];
      item := WriteTier(item, STATE, map[ENABLED := Bool(enabled)]);
      items := items[code := Object(item)];
      members := members[ITEMS := Object(items)];
    }

    /** The variables read, merged in place and written back as the value. */
    method MergeEnvironment(env: Members, who: Owner)
      modifies this
      ensures members == old(After([MergeEnv(env)], who))
    {
      ApplyOne(members, MergeEnv(env), who, texts);
      var items := ItemsOf(members);
      var item := if RUNTIME_ENV in items && items[RUNTIME_ENV].Object? then items[RUNTIME_ENV].members else NewItem(RUNTIME_ENV);
      var current := EnvObject(TierValue(item), texts) + env;
      item := MergeInto(item, env, texts);
      item := WithValue(item, Object(current), who);
      items := items[RUNTIME_ENV := Object(item)];
      members := members[ITEMS := Object(items)];
    }

    method SetParameter(entry: Members, code: Name, who: Owner)
      modifies this
      ensures members == old(After((if VALUE in entry then [PutValue(code, entry[VALUE])] else []) + EnabledWrite(code, entry), who))
    {
      ghost var put := if VALUE in entry then [PutValue(code, entry[VALUE])] else [];
      ApplyConcat(members, put, EnabledWrite(code, entry), who, texts);
      if VALUE in entry {
        SetConfigValue(code, entry[VALUE], who);
      }
      if Member(entry, ENABLED).Bool? {
        SetConfigEnabled(code, entry[ENABLED].b, who);
      }
    }

    method ApplyList(raws: seq<Json>, parameters: bool, who: Owner)
      modifies this
      ensures members == old(After(ListWrites(raws, parameters, texts), who))
    {
      assert raws[0..] == raws;
      for i := 0 to |raws|
        invariant After(ListWrites(raws[i..], parameters, texts), who) == old(After(ListWrites(raws, parameters, texts), who))
      {
        ListWritesNext(raws, i, parameters, texts);
        ghost var now := if parameters then ParameterWrites(raws[i], texts) else DisabledWrites(raws[i], texts);
        ApplyConcat(members, now, ListWrites(raws[i + 1..], parameters, texts), who, texts);
        if raws[i].Object? {
          var code := CodeOf(raws[i].members, if parameters then [KEY, CODE, NAME, CLI_NAME] else [KEY, CODE], texts);
          if code != EMPTY {
            if parameters {
              SetParameter(raws[i].members, code, who);
            } else {
              SetConfigEnabled(code, false, who);
            }
          }
        }
      }
    }

    method ApplyEntry(key: Name, value: Json, who: Owner)
      modifies this
      ensures members == old(After(EntryWrites(key, value, texts), who))
    {
      if key == PARAMETER_VALUES || key == DISABLED_PARAMETERS {
        if value.List? {
          ApplyList(value.elems, key == PARAMETER_VALUES, who);
        }
      } else if key == ENV {
        MergeEnvironment(EnvObject(value, texts), who);
      } else if value.Object? && VALUE in value.members {
        SetParameter(value.members, key, who);
      } else {
        SetConfigValue(key, value, who);
      }
    }

    /** Visits the entries in an order of the map's choosing; the order is returned for the proof. */
    method ApplyConfigOverrides(overrides: Members, who: Owner) returns (ghost order: seq<Name>)
      modifies this
      ensures Visits(overrides, order) && members == old(After(OrderedWrites(overrides, order, texts), who))
      ensures Disjoint(overrides, texts) ==> forall other | Visits(overrides, other) ::
                members == old(After(OrderedWrites(overrides, other, texts), who))
    {
      order := [];
      var left := overrides.Keys;
      while left != {}
        invariant left <= overrides.Keys
        invariant forall k | k in order :: k in overrides && k !in left
        invariant forall k | k in overrides && k !in left :: k in order
        invariant forall i, j | 0 <= i < j < |order| :: order[i] != order[j]
        invariant members == old(After(OrderedWrites(overrides, order, texts), who))
        decreases left
      {
        assert (forall k :: k !in left) ==> left == {};
        var key :| key in left;
        ghost var sofar := OrderedWrites(overrides, order, texts);
        OrderedWritesNext(overrides, order, key, texts);
        ApplyConcat(old(members), sofar, EntryWrites(key, overrides[key], texts), who, texts);
        ApplyEntry(key, overrides[key], who);
        order := order + [key];
        left := left - {key};
      }
      if Disjoint(overrides, texts) {
        forall other | Visits(overrides, other)
          ensures members == old(After(OrderedWrites(overrides, other, texts), who))
        {
          OrderIndependence(old(members), overrides, order, other, who, texts);
        }
      }
    }
  }
}
