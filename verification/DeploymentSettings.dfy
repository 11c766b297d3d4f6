/**
 The settings a deployment stores: the configuration copied from its node backend runtime with the image
 reference written into it, then the overrides of the request, its edited form, and the values taken over
 from the older request fields.
 */
module DeploymentSettings {
  import opened Results
  import opened ConfigSet
  import opened OverrideEffects

  type Config = Members

  /** A missing text, and the text of an empty object. */
  const NO_CONFIG: Config := map[]

  type Image = Name
  const NO_IMAGE: Image := EMPTY

  const LAUNCHER_IMAGE: Name := 24
  const PORT_BINDING: Name := 25
  const HOST_PORT: Name := 26
  const CONTAINER_PORT: Name := 27
  const SERVED_MODEL_NAME: Name := 28
  const DEVICE_BINDING: Name := 29
  const NODE_BACKEND_RUNTIME: Name := 30
  const DEPLOYMENT: Name := 31
  const DEPLOYMENT_LAYER: Name := 32

  /** Values made from the service and the placement of a request; None where nothing is written. */
  datatype Compat = Compat(portBinding: Option<Json>, hostPort: Option<Json>, containerPort: Option<Json>,
                           servedModelName: Option<Json>, deviceBinding: Option<Json>)

  /** The writes of the overrides in the order they were applied, and the set the edited form left, if there was one. */
  datatype Request = Request(writes: seq<Write>, edited: Option<Config>, compat: Compat, texts: Texts)

  function Copied(config: Config, image: Image, x: Texts): Config {
    if image == NO_IMAGE then config
    else ApplyWrites(config, [PutValue(LAUNCHER_IMAGE, Str(image))], Owner(NODE_BACKEND_RUNTIME, EMPTY), x)
  }

  function Edited(config: Config, image: Image, id: Name, q: Request): Config {
    q.edited.GetOr(ApplyWrites(Copied(config, image, q.texts), q.writes, Owner(DEPLOYMENT, id), q.texts))
  }

  function PutSome(code: Name, value: Option<Json>): seq<Write> {
    if value.Some? then [PutValue(code, value.value)] else []
  }

  function CompatWrites(c: Compat): seq<Write> {
    PutSome(PORT_BINDING, c.portBinding) + PutSome(HOST_PORT, c.hostPort) + PutSome(CONTAINER_PORT, c.containerPort)
    + PutSome(SERVED_MODEL_NAME, c.servedModelName) + PutSome(DEVICE_BINDING, c.deviceBinding)
  }

  function Stored(config: Config, image: Image, id: Name, q: Request): Config {
    ApplyWrites(Edited(config, image, id, q), CompatWrites(q.compat), Owner(DEPLOYMENT_LAYER, id), q.texts)
  }

  // ------------------------------------------------------------------------------------------
  // The image among the settings
  // ------------------------------------------------------------------------------------------

  /** The image a start of the deployment reads. */
  function ImageSetting(config: Config): Json {
    ConfigValue(config, LAUNCHER_IMAGE, Null)
  }

  function ImageItem(config: Config): Members {
    ObjectOr(Lookup(ItemsOf(config), LAUNCHER_IMAGE), map[])
  }

  function DefaultImage(config: Config): Json {
    Member(ObjectOr(Lookup(ImageItem(config), VALUE), map[]), DEFAULT_VALUE)
  }

  /** The value the writes last put for the image. */
  function LastPut(ws: seq<Write>): Option<Json> {
    if ws == [] then None
    else
      var last := ws[|ws| - 1];
      if last.PutValue? && last.code == LAUNCHER_IMAGE then Some(last.value) else LastPut(ws[..|ws| - 1])
  }

  function AfterPut(put: Option<Json>, before: Json, default: Json): Json {
    match put
    case None => before
    case Some(v) => if v == Null then default else v
  }

  lemma OneWrite(s: Config, w: Write, who: Owner, x: Texts)
    ensures ImageSetting(ApplyWrites(s, [w], who, x)) == AfterPut(LastPut([w]), ImageSetting(s), DefaultImage(s))
    ensures DefaultImage(ApplyWrites(s, [w], who, x)) == DefaultImage(s)
  {
    ApplyOne(s, w, who, x);
    assert Target(w) == LAUNCHER_IMAGE ==> !w.MergeEnv?;
    if w.PutEnabled? && w.code == LAUNCHER_IMAGE {
      SwitchKeepsValue(Lookup(ItemsOf(s), LAUNCHER_IMAGE), w.enabled);
      assert Lookup(WithEnabled(ImageItem(s), w.enabled), VALUE) == Lookup(ImageItem(s), VALUE);
    }
    assert [w][..0] == [];
  }

  lemma {:induction false} WritesToImage(s: Config, ws: seq<Write>, who: Owner, x: Texts)
    ensures ImageSetting(ApplyWrites(s, ws, who, x)) == AfterPut(LastPut(ws), ImageSetting(s), DefaultImage(s))
    ensures DefaultImage(ApplyWrites(s, ws, who, x)) == DefaultImage(s)
  {
    if ws != [] {
      var n := |ws| - 1;
      var before := ApplyWrites(s, ws[..n], who, x);
      assert ws == ws[..n] + [ws[n]];
      ApplyConcat(s, ws[..n], [ws[n]], who, x);
      WritesToImage(s, ws[..n], who, x);
      OneWrite(before, ws[n], who, x);
      assert [ws[n]][..0] == [];
    }
  }

  lemma CompatLeavesImage(c: Compat)
    ensures LastPut(CompatWrites(c)) == None
  {
    NoPut(CompatWrites(c));
  }

  lemma {:induction false} NoPut(ws: seq<Write>)
    requires forall w | w in ws :: Target(w) != LAUNCHER_IMAGE
    ensures LastPut(ws) == None
  {
    if ws != [] {
      assert ws[|ws| - 1] in ws;
      NoPut(ws[..|ws| - 1]);
    }
  }

  /** The deployment keeps `image` as its image: nothing replaces the reference, or what replaces it is that image. */
  predicate KeepsImage(config: Config, ref: Image, q: Request, image: Image) {
    match q.edited
    case Some(edited) => ImageSetting(edited) == Str(image)
    case None =>
      match LastPut(q.writes)
      case None => if ref == NO_IMAGE then ImageSetting(config) == Str(image) else ref == image
      case Some(v) => v == Str(image) || (v == Null && DefaultImage(config) == Str(image))
  }

  /** Which image is stored is decided by the request, the reference and the copied configuration in turn. */
  lemma StoredImageIff(config: Config, ref: Image, id: Name, q: Request, image: Image)
    ensures ImageSetting(Stored(config, ref, id, q)) == Str(image) <==> KeepsImage(config, ref, q, image)
  {
    var who, x := Owner(DEPLOYMENT, id), q.texts;
    WritesToImage(Edited(config, ref, id, q), CompatWrites(q.compat), Owner(DEPLOYMENT_LAYER, id), x);
    CompatLeavesImage(q.compat);
    WritesToImage(Copied(config, ref, x), q.writes, who, x);
    if ref != NO_IMAGE {
      OneWrite(config, PutValue(LAUNCHER_IMAGE, Str(ref)), Owner(NODE_BACKEND_RUNTIME, EMPTY), x);
    }
  }

  // ------------------------------------------------------------------------------------------
  // The values taken over from the older fields
  // ------------------------------------------------------------------------------------------

  /** The value a request gives to a code by one of the older fields. */
  function GivenFor(c: Compat, code: Name): Option<Json> {
    if code == PORT_BINDING then c.portBinding
    else if code == HOST_PORT then c.hostPort
    else if code == CONTAINER_PORT then c.containerPort
    else if code == SERVED_MODEL_NAME then c.servedModelName
    else if code == DEVICE_BINDING then c.deviceBinding
    else None
  }

  lemma ProjectSome(one: Name, value: Option<Json>, code: Name)
    ensures Project(PutSome(one, value), code) == if one == code then PutSome(code, value) else []
  {
    if value.Some? {
      assert [PutValue(one, value.value)][1..] == [];
    }
  }

  lemma CompatReaches(c: Compat, code: Name)
    ensures Project(CompatWrites(c), code) == match GivenFor(c, code)
      case None => []
      case Some(v) => [PutValue(code, v)]
  {
    var w1, w2, w3 := PutSome(PORT_BINDING, c.portBinding), PutSome(HOST_PORT, c.hostPort), PutSome(CONTAINER_PORT, c.containerPort);
    var w4, w5 := PutSome(SERVED_MODEL_NAME, c.servedModelName), PutSome(DEVICE_BINDING, c.deviceBinding);
    ProjectConcat(w1, w2, code);
    ProjectConcat(w1 + w2, w3, code);
    ProjectConcat(w1 + w2 + w3, w4, code);
    ProjectConcat(w1 + w2 + w3 + w4, w5, code);
    ProjectSome(PORT_BINDING, c.portBinding, code);
    ProjectSome(HOST_PORT, c.hostPort, code);
    ProjectSome(CONTAINER_PORT, c.containerPort, code);
    ProjectSome(SERVED_MODEL_NAME, c.servedModelName, code);
    ProjectSome(DEVICE_BINDING, c.deviceBinding, code);
  }

  /** Every value given by an older field is read under its own code; every other code reads as before. */
  lemma CompatReadsBack(config: Config, image: Image, id: Name, q: Request, code: Name, default: Json)
    ensures match GivenFor(q.compat, code)
      case Some(v) => v != Null ==> ConfigValue(Stored(config, image, id, q), code, default) == v
      case None => ConfigValue(Stored(config, image, id, q), code, default) == ConfigValue(Edited(config, image, id, q), code, default)
    ensures q.edited.Some? ==> Edited(config, image, id, q) == q.edited.value
  {
    var before, ws, who := Edited(config, image, id, q), CompatWrites(q.compat), Owner(DEPLOYMENT_LAYER, id);
    CompatReaches(q.compat, code);
    match GivenFor(q.compat, code)
    case Some(v) =>
      assert [PutValue(code, v)] + [] == [PutValue(code, v)];
      PutReadsBack(before, ws, code, v, [], default, who, q.texts);
    case None => SwitchesLeaveValue(before, ws, code, default, who, q.texts);
  }

  // ------------------------------------------------------------------------------------------
  // Storing the settings
  // ------------------------------------------------------------------------------------------

  method PutIfPresent(doc: ConfigDocument, code: Name, value: Option<Json>, who: Owner)
    modifies doc
    ensures doc.members == old(doc.After(PutSome(code, value), who))
  {
    if value.Some? {
      doc.SetConfigValue(code, value.value, who);
    }
  }

  method MaterializeCompat(doc: ConfigDocument, c: Compat, who: Owner)
    modifies doc
    ensures doc.members == old(doc.After(CompatWrites(c), who))
  {
    ghost var set0, x := doc.members, doc.texts;
    ghost var ws1 := PutSome(PORT_BINDING, c.portBinding);
    ghost var ws2 := ws1 + PutSome(HOST_PORT, c.hostPort);
    ghost var ws3 := ws2 + PutSome(CONTAINER_PORT, c.containerPort);
    ghost var ws4 := ws3 + PutSome(SERVED_MODEL_NAME, c.servedModelName);
    ApplyConcat(set0, ws1, PutSome(HOST_PORT, c.hostPort), who, x);
    ApplyConcat(set0, ws2, PutSome(CONTAINER_PORT, c.containerPort), who, x);
    ApplyConcat(set0, ws3, PutSome(SERVED_MODEL_NAME, c.servedModelName), who, x);
    ApplyConcat(set0, ws4, PutSome(DEVICE_BINDING, c.deviceBinding), who, x);
    PutIfPresent(doc, PORT_BINDING, c.portBinding, who);
    PutIfPresent(doc, HOST_PORT, c.hostPort, who);
    PutIfPresent(doc, CONTAINER_PORT, c.containerPort, who);
    PutIfPresent(doc, SERVED_MODEL_NAME, c.servedModelName, who);
    PutIfPresent(doc, DEVICE_BINDING, c.deviceBinding, who);
  }

  /** Copy, overrides, edited form and older fields, one after the other. */
  method StoreSettings(config: Config, image: Image, id: Name, overrides: Members, edited: Option<Config>, compat: Compat, texts: Texts)
    returns (stored: Config, ghost order: seq<Name>)
    ensures Visits(overrides, order)
    ensures stored == Stored(config, image, id, Request(OrderedWrites(overrides, order, texts), edited, compat, texts))
  {
    var doc := new ConfigDocument(texts, config);
    if image != NO_IMAGE {
      doc.SetConfigValue(LAUNCHER_IMAGE, Str(image), Owner(NODE_BACKEND_RUNTIME, EMPTY));
    }
    order := doc.ApplyConfigOverrides(overrides, Owner(DEPLOYMENT, id));
    if edited.Some? {
      doc.members := edited.value;
    }
    MaterializeCompat(doc, compat, Owner(DEPLOYMENT_LAYER, id));
    stored := doc.members;
  }
}
