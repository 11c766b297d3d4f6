/**
 What the handlers of node backend runtimes do, told by the rows before and after: which answer of the
 agent gives which status, what enabling and patching leave, and when a row or a template may not go.
 */
module ReadinessOutcomes {
  import opened Results
  import opened DeploymentSettings
  import opened Readiness

  /** The agent could be asked for its images, and answered. */
  predicate Answered(p: Probe) {
    p.hasAddress && p.port != 0 && p.hasClient && p.listAnswered
  }

  /** The agent inspected the image and found it. */
  predicate Found(p: Probe, image: Image) {
    Answered(p) && image != NO_IMAGE && p.port > 0 && p.inspect == ImageFound
  }

  /** Which status a check gives, for every way the agent may answer. */
  ghost predicate StatusTells(st: Status, p: Probe, image: Image) {
    && (st == AgentUnreachable <==> !p.hasAddress || p.port == 0 || (p.hasClient && !p.listAnswered))
    && (st == DockerError <==> p.hasAddress && p.port != 0 && !p.hasClient)
    && (st == EvidenceMissing <==> Answered(p) && image == NO_IMAGE)
    && (st == MissingImage <==> Answered(p) && image != NO_IMAGE && p.port > 0 && p.inspect == ImageNotFound)
    && (st == InspectFailed <==> Answered(p) && image != NO_IMAGE && (p.port < 0 || p.inspect == NoAnswer))
    && (st == Mismatch <==> Found(p, image) && p.backendMatch == ConfirmedMismatch)
    && (st == ReadyWithWarnings <==> Found(p, image) && p.backendMatch == DoubtfulMatch)
    && (st == Ready <==> Found(p, image) && p.backendMatch == OtherMatch)
  }

  /** The list names the image, or the inspection found it. */
  predicate Seen(p: Probe, image: Image) {
    image != NO_IMAGE && p.hasAddress && p.hasClient
    && ((p.port != 0 && p.listAnswered && p.listHasImage) || (p.port > 0 && p.inspect == ImageFound))
  }

  /** A check writes the status its answers tell, and what they say of Docker and of the image, and nothing else. */
  lemma CheckOutcome(s: State, check: Id, p: Probe)
    requires check in s.checks
    ensures var r := Apply(s, FinishCheck(check, p)); var q := s.checks[check];
      && r.templates == s.templates && r.deployments == s.deployments && r.checks == s.checks - {check}
      && r.rows.Keys == s.rows.Keys && (forall i | i in s.rows && i != q.row :: r.rows[i] == s.rows[i])
      && (q.row in s.rows ==> var z := r.rows[q.row];
            && z == s.rows[q.row].(imagePresent := z.imagePresent, dockerAvailable := z.dockerAvailable, status := z.status)
            && StatusTells(z.status, p, q.image) && (z.dockerAvailable <==> Answered(p))
            && (z.imagePresent <==> Seen(p, q.image)))
  {
  }

  /** A check asks about the image of the row, or of its template where the row names none. */
  lemma AskOutcome(s: State, check: Id, node: Id, id: Id)
    ensures var r := Apply(s, BeginCheck(check, node, id));
      if check !in s.checks && id in s.rows && s.rows[id].node == node && s.rows[id].runtime in s.templates then
        r == s.(checks := s.checks[check := Inquiry(id,
               if s.rows[id].imageRef != NO_IMAGE then s.rows[id].imageRef else s.templates[s.rows[id].runtime])])
      else r == s
  {
  }

  /** What the server itself knows decides the status of a runtime that is enabled. */
  ghost predicate EnabledAs(st: Status, v: NodeView) {
    && (st == NodeOffline <==> !v.online) && (st == TemplateOnly <==> v.online && v.templateOnly)
    && (st == UnsupportedDevice <==> v.online && !v.templateOnly && !v.cpu && !v.hasVendorGpu)
    && (st == NeedsCheck <==> v.online && !v.templateOnly && (v.cpu || v.hasVendorGpu))
  }

  ghost predicate Blank(r: Row, v: NodeView) {
    !r.imagePresent && !r.dockerAvailable && EnabledAs(r.status, v)
  }

  /** Enabling resets the row of the node and the runtime, or inserts one with the image of the template unless one is given. */
  lemma EnableOutcome(s: State, e: Event)
    requires e.Enable?
    ensures var r := Apply(s, e);
      && r.templates == s.templates && r.deployments == s.deployments && r.checks == s.checks
      && if e.runtime !in s.templates then r == s
         else if exists i :: i in s.rows && s.rows[i].node == e.node && s.rows[i].runtime == e.runtime then
           && r.rows.Keys == s.rows.Keys
           && forall i | i in s.rows :: if s.rows[i].node == e.node && s.rows[i].runtime == e.runtime
                then Blank(r.rows[i], e.view) && r.rows[i] == s.rows[i].(imagePresent := false, dockerAvailable := false, status := r.rows[i].status)
                else r.rows[i] == s.rows[i]
         else if e.config == None || e.id in s.rows then r == s
         else
           && r.rows.Keys == s.rows.Keys + {e.id} && (forall i | i in s.rows :: r.rows[i] == s.rows[i])
           && Blank(r.rows[e.id], e.view) && r.rows[e.id].node == e.node && r.rows[e.id].runtime == e.runtime
           && r.rows[e.id].config == e.config.value
           && r.rows[e.id].imageRef == if e.imageRef.Some? then e.imageRef.value else s.templates[e.runtime]
  {
  }

  /** A patch that claims evidence or blanks the name is refused; any other sets what it gives, and may ask for a check. */
  lemma PatchOutcome(s: State, id: Id, p: Patch)
    ensures var r := Apply(s, PatchRow(id, p));
      if id in s.rows && !p.claimsEvidence && !p.blankName then
        var a := s.rows[id];
        r == s.(rows := s.rows[id := Row(a.node, a.runtime, if p.imageRef.Some? then p.imageRef.value else a.imageRef,
               if p.configSetJson.Some? then p.configSetJson.value else if p.configSet.Some? then p.configSet.value else a.config,
               a.imagePresent, a.dockerAvailable,
               if p.disable then Disabled
               else if p.imageRef == None && !p.imageFacts && p.configSet == None && p.configSetJson == None then a.status else NeedsCheck)])
      else r == s
  {
  }

  /** An edit of the configuration stores it, asks for a new check, and touches nothing else. */
  lemma EditOutcome(s: State, id: Id, text: Config)
    ensures Apply(s, EditConfig(id, text)) ==
            if id in s.rows then s.(rows := s.rows[id := s.rows[id].(config := text, status := NeedsCheck)]) else s
  {
  }

  /** A row goes unless a deployment or an active instance uses it, a template unless a row does. */
  lemma RemovalOutcome(s: State, id: Id, active: bool, runtime: Id)
    ensures Apply(s, DeleteRow(id, active)) ==
            if active || exists d :: d in s.deployments && s.deployments[d].source == id then s else s.(rows := s.rows - {id})
    ensures Apply(s, DeleteTemplate(runtime)) ==
            if exists i :: i in s.rows && s.rows[i].runtime == runtime then s else s.(templates := s.templates - {runtime})
  {
    if id !in s.rows {
      assert s.rows - {id} == s.rows;
    }
  }

  /** A deployment is created from a row that is ready, with or without warnings, and has a configuration; nothing else changes. */
  lemma CreateOutcome(s: State, d: Id, id: Id, otherChecks: bool, q: Request)
    ensures var r := Apply(s, CreateDeployment(d, id, otherChecks, q));
      if id in s.rows && (s.rows[id].status == Ready || s.rows[id].status == ReadyWithWarnings) && s.rows[id].config != map[]
         && otherChecks && d !in s.deployments then
        r == s.(deployments := s.deployments[d := Deployment(id, Stored(s.rows[id].config, s.rows[id].imageRef, d, q))])
      else r == s
  {
  }
}
