/**
 What a deployable row and a deployment say about the check they rest on, over all runs. A check is two
 steps, so other handlers may change the row, or the template its image comes from, while it is under way.
 */
module ReadinessRuns {
  import opened Results
  import opened ConfigSet
  import opened DeploymentSettings
  import opened Readiness

  lemma RunNext(events: seq<Event>, e: Event)
    ensures Run(events + [e]) == Apply(Run(events), e)
  {
    assert (events + [e])[..|events|] == events;
  }

  lemma RunPrefix(events: seq<Event>, j: nat)
    requires j < |events|
    ensures Run(events[..j + 1]) == Apply(Run(events[..j]), events[j])
  {
    assert events[..j + 1] == events[..j] + [events[j]];
    RunNext(events[..j], events[j]);
  }

  // ------------------------------------------------------------------------------------------
  // The check behind a deployable row
  // ------------------------------------------------------------------------------------------

  /** The b-th event begins a check of the row, which is accepted. */
  ghost predicate Begins(events: seq<Event>, id: Id, b: nat) {
    b < |events| && events[b].BeginCheck? && events[b].id == id && CheckAccepted(Run(events[..b]), events[b].check, events[b].node, id)
  }

  /** The image the agent is asked about by the check that begins there. */
  ghost function Inspected(events: seq<Event>, id: Id, b: nat): Image
    requires Begins(events, id, b)
  {
    EffectiveImage(Run(events[..b]), Run(events[..b]).rows[id])
  }

  ghost predicate Asked(s: State, check: Id, q: Inquiry) {
    check in s.checks && s.checks[check] == q
  }

  ghost predicate AskedAt(events: seq<Event>, check: Id, q: Inquiry, j: nat) {
    j <= |events| && Asked(Run(events[..j]), check, q)
  }

  ghost predicate UnderWay(events: seq<Event>, id: Id, b: nat, f: nat)
    requires Begins(events, id, b)
  {
    f <= |events| && forall j: nat | b < j <= f :: AskedAt(events, events[b].check, Inquiry(id, Inspected(events, id, b)), j)
  }

  ghost predicate KeptAt(events: seq<Event>, id: Id, j: nat) {
    j <= |events| && SameSource(Run(events[..j]), Run(events), id)
  }

  ghost predicate KeptSince(events: seq<Event>, id: Id, f: nat) {
    forall j: nat | f <= j <= |events| :: KeptAt(events, id, j)
  }

  /** The check from the b-th to the f-th event confirmed the image it asked about, and the row's source is unchanged since. */
  ghost predicate ConfirmedBy(events: seq<Event>, id: Id, b: nat, f: nat) {
    && Begins(events, id, b) && b < f < |events| && UnderWay(events, id, b, f)
    && events[f].FinishCheck? && events[f].check == events[b].check && Confirms(events[f].probe, Inspected(events, id, b))
    && KeptSince(events, id, f)
  }

  lemma BeginsLonger(events: seq<Event>, more: seq<Event>, id: Id, b: nat)
    requires Begins(events, id, b)
    ensures Begins(events + more, id, b) && Inspected(events + more, id, b) == Inspected(events, id, b)
  {
    assert (events + more)[..b] == events[..b];
  }

  lemma AskedLonger(events: seq<Event>, more: seq<Event>, check: Id, q: Inquiry, j: nat)
    requires AskedAt(events, check, q, j)
    ensures AskedAt(events + more, check, q, j)
  {
    assert (events + more)[..j] == events[..j];
  }

  lemma UnderWayLonger(events: seq<Event>, more: seq<Event>, id: Id, b: nat, f: nat)
    requires Begins(events, id, b) && UnderWay(events, id, b, f)
    ensures Begins(events + more, id, b) && UnderWay(events + more, id, b, f)
  {
    BeginsLonger(events, more, id, b);
    forall j: nat | b < j <= f
      ensures AskedAt(events + more, events[b].check, Inquiry(id, Inspected(events, id, b)), j)
    {
      AskedLonger(events, more, events[b].check, Inquiry(id, Inspected(events, id, b)), j);
    }
  }

  lemma InquiryStep(s: State, e: Event, check: Id)
    requires check in Apply(s, e).checks
    ensures if check in s.checks then Apply(s, e).checks[check] == s.checks[check]
            else e.BeginCheck? && e.check == check && CheckAccepted(s, check, e.node, e.id)
                 && Apply(s, e).checks[check] == Inquiry(e.id, EffectiveImage(s, s.rows[e.id]))
  {
  }

  lemma AskedStays(s: State, e: Event, check: Id, q: Inquiry)
    requires Asked(s, check, q) && check in Apply(s, e).checks
    ensures Asked(Apply(s, e), check, q)
  {
    InquiryStep(s, e, check);
  }

  lemma AskedLast(events: seq<Event>, check: Id, q: Inquiry)
    ensures AskedAt(events, check, q, |events|) <==> Asked(Run(events), check, q)
  {
    assert events[..|events|] == events;
  }

  lemma AskedNextAt(before: seq<Event>, e: Event, check: Id, q: Inquiry, j: nat)
    requires j <= |before| ==> AskedAt(before, check, q, j)
    requires j <= |before| + 1 && Asked(Run(before + [e]), check, q)
    ensures AskedAt(before + [e], check, q, j)
  {
    if j <= |before| {
      AskedLonger(before, [e], check, q, j);
    } else {
      AskedLast(before + [e], check, q);
    }
  }

  lemma UnderWayNext(before: seq<Event>, e: Event, id: Id, b: nat)
    requires Begins(before, id, b) && UnderWay(before, id, b, |before|)
    requires Asked(Run(before + [e]), before[b].check, Inquiry(id, Inspected(before, id, b)))
    ensures Begins(before + [e], id, b) && UnderWay(before + [e], id, b, |before| + 1)
  {
    var check, q := before[b].check, Inquiry(id, Inspected(before, id, b));
    BeginsLonger(before, [e], id, b);
    forall j: nat | b < j <= |before| + 1
      ensures AskedAt(before + [e], check, q, j)
    {
      AskedNextAt(before, e, check, q, j);
    }
  }

  lemma UnderWayFirst(before: seq<Event>, e: Event, id: Id)
    requires e.BeginCheck? && e.id == id && CheckAccepted(Run(before), e.check, e.node, id)
    ensures Begins(before + [e], id, |before|) && UnderWay(before + [e], id, |before|, |before| + 1)
  {
    assert (before + [e])[..|before|] == before;
    RunNext(before, e);
    AskedLast(before + [e], e.check, Inquiry(id, EffectiveImage(Run(before), Run(before).rows[id])));
  }

  /** An inquiry under way was begun by some event. */
  lemma {:induction false} InquiryBegan(events: seq<Event>, check: Id) returns (b: nat)
    requires check in Run(events).checks
    ensures Begins(events, Run(events).checks[check].row, b) && events[b].check == check
    ensures Run(events).checks[check] == Inquiry(Run(events).checks[check].row, Inspected(events, Run(events).checks[check].row, b))
    ensures UnderWay(events, Run(events).checks[check].row, b, |events|)
  {
    var n := |events| - 1;
    var before, e := events[..n], events[n];
    var id := Run(events).checks[check].row;
    assert events == before + [e];
    RunNext(before, e);
    InquiryStep(Run(before), e, check);
    if check in Run(before).checks {
      b := InquiryBegan(before, check);
      BeginsLonger(before, [e], id, b);
      UnderWayNext(before, e, id, b);
    } else {
      b := n;
      UnderWayFirst(before, e, id);
    }
  }

  lemma KeptLast(events: seq<Event>, id: Id)
    requires id in Run(events).rows
    ensures KeptAt(events, id, |events|)
  {
    assert events[..|events|] == events;
  }

  lemma KeptBefore(before: seq<Event>, e: Event, id: Id, j: nat)
    requires KeptAt(before, id, j) && SameSource(Run(before), Run(before + [e]), id)
    ensures KeptAt(before + [e], id, j)
  {
    assert (before + [e])[..j] == before[..j];
  }

  lemma KeptNextAt(before: seq<Event>, e: Event, id: Id, j: nat)
    requires j <= |before| ==> KeptAt(before, id, j)
    requires j <= |before| + 1 && SameSource(Run(before), Run(before + [e]), id)
    ensures KeptAt(before + [e], id, j)
  {
    if j <= |before| {
      KeptBefore(before, e, id, j);
    } else {
      KeptLast(before + [e], id);
    }
  }

  lemma KeptNext(before: seq<Event>, e: Event, id: Id, f: nat)
    requires f <= |before| && SameSource(Run(before), Run(before + [e]), id) && KeptSince(before, id, f)
    ensures KeptSince(before + [e], id, f)
  {
    forall j: nat | f <= j <= |before + [e]|
      ensures KeptAt(before + [e], id, j)
    {
      KeptNextAt(before, e, id, j);
    }
  }

  lemma KeptFromNow(before: seq<Event>, e: Event, id: Id)
    requires SameSource(Run(before), Run(before + [e]), id)
    ensures KeptSince(before + [e], id, |before|)
  {
    KeptLast(before, id);
    KeptNext(before, e, id, |before|);
  }

  lemma ConfirmedNow(before: seq<Event>, e: Event, id: Id)
    requires Confirming(Run(before), e, id) && SameSource(Run(before), Run(before + [e]), id)
    ensures exists b: nat, f: nat :: ConfirmedBy(before + [e], id, b, f)
  {
    var n := |before|;
    var b := InquiryBegan(before, e.check);
    BeginsLonger(before, [e], id, b);
    UnderWayLonger(before, [e], id, b, n);
    KeptFromNow(before, e, id);
    assert ConfirmedBy(before + [e], id, b, n);
  }

  lemma ConfirmedStill(before: seq<Event>, e: Event, id: Id, b: nat, f: nat)
    requires ConfirmedBy(before, id, b, f) && SameSource(Run(before), Run(before + [e]), id)
    ensures ConfirmedBy(before + [e], id, b, f)
  {
    UnderWayLonger(before, [e], id, b, f);
    BeginsLonger(before, [e], id, b);
    KeptNext(before, e, id, f);
  }

  /** In every reachable state a deployable row was confirmed by a check, and its image reference and configuration kept since. */
  lemma {:induction false} DeployableWasConfirmed(events: seq<Event>, id: Id)
    requires id in Run(events).rows && Deployable(Run(events).rows[id].status)
    ensures exists b: nat, f: nat :: ConfirmedBy(events, id, b, f)
  {
    var n := |events| - 1;
    var before, e := events[..n], events[n];
    assert events == before + [e];
    RunNext(before, e);
    DeployableStep(Run(before), e, id);
    if Confirming(Run(before), e, id) {
      ConfirmedNow(before, e, id);
    } else {
      DeployableWasConfirmed(before, id);
      var b: nat, f: nat :| ConfirmedBy(before, id, b, f);
      ConfirmedStill(before, e, id, b, f);
    }
  }

  // ------------------------------------------------------------------------------------------
  // Changes while a check is under way
  // ------------------------------------------------------------------------------------------

  /** The event changes what a check of the row reads: image reference, configuration, or the template's image standing in for a blank reference. */
  ghost predicate Disturbs(s: State, e: Event, id: Id)
    requires id in s.rows && s.rows[id].runtime in s.templates
  {
    var r := s.rows[id];
    match e
    case PatchRow(i, p) =>
      && i == id && !p.claimsEvidence && !p.blankName
      && (p.imageRef.GetOr(r.imageRef) != r.imageRef || p.configSetJson.GetOr(p.configSet.GetOr(r.config)) != r.config)
    case EditConfig(i, text) => i == id && text != r.config
    case DeleteRow(i, active) => i == id && !active && !Referenced(s, id)
    case SetTemplate(runtime, image) => r.imageRef == NO_IMAGE && runtime == r.runtime && image != s.templates[runtime]
    case _ => false
  }

  /** The row holds in both states what a check of it reads. */
  ghost predicate SameInput(s: State, t: State, id: Id) {
    && SameSource(s, t, id) && s.rows[id].runtime in s.templates && t.rows[id].runtime in t.templates
    && EffectiveImage(s, s.rows[id]) == EffectiveImage(t, t.rows[id])
  }

  lemma EnableKeepsInput(s: State, node: Id, runtime: Id, i: Id, imageRef: Option<Image>, config: Option<Config>, view: NodeView, id: Id)
    requires Valid(s) && id in s.rows
    ensures var t := EnableStep(s, node, runtime, i, imageRef, config, view);
      SameInput(s, t, id) && t.rows[id].runtime == s.rows[id].runtime
  {
  }

  lemma FinishKeepsInput(s: State, check: Id, p: Probe, id: Id)
    requires Valid(s) && id in s.rows
    ensures var t := FinishStep(s, check, p); SameInput(s, t, id) && t.rows[id].runtime == s.rows[id].runtime
  {
  }

  lemma UpdateDisturbsIff(s: State, i: Id, row: Row, id: Id)
    requires Valid(s) && id in s.rows && i in s.rows && row.runtime == s.rows[i].runtime
    ensures var t := s.(rows := s.rows[i := row]);
      && t.rows[id].runtime == s.rows[id].runtime
      && (SameInput(s, t, id) <==> i == id ==> row.imageRef == s.rows[id].imageRef && row.config == s.rows[id].config)
  {
  }

  lemma StepDisturbsIff(s: State, e: Event, id: Id)
    requires Valid(s) && id in s.rows
    ensures SameInput(s, Apply(s, e), id) <==> !Disturbs(s, e, id)
    ensures id in Apply(s, e).rows ==> Apply(s, e).rows[id].runtime == s.rows[id].runtime
  {
    match e
    case Enable(node, runtime, i, imageRef, config, view) => EnableKeepsInput(s, node, runtime, i, imageRef, config, view, id);
    case FinishCheck(check, p) => FinishKeepsInput(s, check, p, id);
    case PatchRow(i, patch) =>
      if i in s.rows {
        UpdateDisturbsIff(s, i, Patched(s.rows[i], patch), id);
      }
    case EditConfig(i, text) =>
      if i in s.rows {
        UpdateDisturbsIff(s, i, s.rows[i].(config := text, status := NeedsCheck), id);
      }
    case _ =>
  }

  ghost predicate QuietAt(events: seq<Event>, id: Id, j: nat)
    requires j < |events|
  {
    var s := Run(events[..j]);
    id in s.rows && s.rows[id].runtime in s.templates && !Disturbs(s, events[j], id)
  }

  ghost predicate Quiet(events: seq<Event>, id: Id, b: nat, m: nat)
    requires m <= |events|
  {
    forall j: nat | b <= j < m :: QuietAt(events, id, j)
  }

  ghost predicate Unchanged(events: seq<Event>, id: Id, b: nat, m: nat)
    requires b <= m <= |events|
  {
    forall j | b <= j <= m :: SameInput(Run(events[..b]), Run(events[..j]), id)
  }

  lemma {:induction false} SameAllAlong(states: seq<State>, quiet: seq<bool>, id: Id, b: nat, m: nat)
    requires b <= m < |states| && m <= |quiet| && SameInput(states[b], states[b], id)
    requires forall j | b <= j < m && id in states[j].rows :: SameInput(states[j], states[j + 1], id) <==> quiet[j]
    ensures (forall j | b <= j <= m :: SameInput(states[b], states[j], id)) <==> forall j | b <= j < m :: id in states[j].rows && quiet[j]
  {
    if b < m {
      SameAllAlong(states, quiet, id, b, m - 1);
      var last := m - 1;
      if SameInput(states[b], states[last], id) {
        assert SameInput(states[last], states[m], id) <==> quiet[last];
        assert SameInput(states[b], states[m], id) <==> SameInput(states[last], states[m], id);
      }
    }
  }

  lemma QuietStep(events: seq<Event>, id: Id, j: nat)
    requires j < |events| && id in Run(events[..j]).rows
    ensures SameInput(Run(events[..j]), Run(events[..j + 1]), id) <==> QuietAt(events, id, j)
  {
    RunIsValid(events[..j]);
    RunPrefix(events, j);
    StepDisturbsIff(Run(events[..j]), events[j], id);
  }

  /** What a check reads stays as it was exactly as long as no event disturbs it. */
  lemma UnchangedIffQuiet(events: seq<Event>, id: Id, b: nat, m: nat)
    requires b <= m <= |events| && id in Run(events[..b]).rows
    ensures Unchanged(events, id, b, m) <==> Quiet(events, id, b, m)
  {
    var states := seq(|events| + 1, j requires 0 <= j <= |events| => Run(events[..j]));
    var quiet := seq(|events|, j requires 0 <= j < |events| => QuietAt(events, id, j));
    forall j | b <= j < m && id in states[j].rows
      ensures SameInput(states[j], states[j + 1], id) <==> quiet[j]
    {
      QuietStep(events, id, j);
    }
    RunIsValid(events[..b]);
    SameAllAlong(states, quiet, id, b, m);
    assert forall j: nat | b <= j <= m :: states[j] == Run(events[..j]);
    assert forall j: nat | b <= j < m :: quiet[j] == QuietAt(events, id, j);
    if Quiet(events, id, b, m) {
      assert forall j: nat | b <= j < m :: QuietAt(events, id, j) ==> id in states[j].rows && quiet[j];
    }
    if Unchanged(events, id, b, m) {
      assert forall j: nat | b <= j <= m :: SameInput(states[b], states[j], id);
    }
  }

  ghost predicate TemplateKeptAt(events: seq<Event>, id: Id, j: nat)
    requires j < |events|
  {
    var s, e := Run(events[..j]), events[j];
    e.SetTemplate? && id in s.rows && e.runtime == s.rows[id].runtime && e.runtime in s.templates ==> e.image == s.templates[e.runtime]
  }

  /** No event changes the image of the row's template. */
  ghost predicate TemplateKept(events: seq<Event>, id: Id, f: nat) {
    forall j: nat | f <= j < |events| :: TemplateKeptAt(events, id, j)
  }

  lemma OnlyTemplateDisturbs(s: State, t: State, e: Event, id: Id, ref: Image)
    requires Valid(s) && id in s.rows && t == Apply(s, e) && SameSource(s, t, id) && s.rows[id].imageRef == ref
    ensures s.rows[id].runtime in s.templates
    ensures Disturbs(s, e, id) <==>
            ref == NO_IMAGE && e.SetTemplate? && e.runtime == s.rows[id].runtime && e.image != s.templates[e.runtime]
  {
    StepDisturbsIff(s, e, id);
  }

  lemma OnlyTemplateDisturbsAt(events: seq<Event>, id: Id, b: nat, f: nat, j: nat)
    requires id in Run(events).rows && ConfirmedBy(events, id, b, f) && f <= j < |events|
    ensures QuietAt(events, id, j) <==> Run(events).rows[id].imageRef == NO_IMAGE ==> TemplateKeptAt(events, id, j)
  {
    RunIsValid(events[..j]);
    RunPrefix(events, j);
    assert KeptAt(events, id, j) && KeptAt(events, id, j + 1);
    OnlyTemplateDisturbs(Run(events[..j]), Run(events[..j + 1]), events[j], id, Run(events).rows[id].imageRef);
  }

  /** While the row stays deployable its source is kept, so all that can disturb it is its template. */
  lemma QuietAfter(events: seq<Event>, id: Id, b: nat, f: nat)
    requires id in Run(events).rows && ConfirmedBy(events, id, b, f)
    ensures Quiet(events, id, f, |events|) <==> Run(events).rows[id].imageRef == NO_IMAGE ==> TemplateKept(events, id, f)
  {
    forall j: nat | f <= j < |events|
      ensures QuietAt(events, id, j) <==> Run(events).rows[id].imageRef == NO_IMAGE ==> TemplateKeptAt(events, id, j)
    {
      OnlyTemplateDisturbsAt(events, id, b, f, j);
    }
  }

  /**
   A deployable row still is what its check inspected exactly when no event disturbed it while the check
   was under way and, for a blank image reference, its template was kept afterwards.
   */
  lemma FreshIffUndisturbed(events: seq<Event>, id: Id, b: nat, f: nat)
    requires id in Run(events).rows && ConfirmedBy(events, id, b, f)
    ensures Unchanged(events, id, b, |events|) <==>
            Quiet(events, id, b, f) && (Run(events).rows[id].imageRef == NO_IMAGE ==> TemplateKept(events, id, f))
  {
    UnchangedIffQuiet(events, id, b, |events|);
    QuietAfter(events, id, b, f);
    assert Quiet(events, id, b, |events|) <==> Quiet(events, id, b, f) && Quiet(events, id, f, |events|);
  }

  ghost predicate EndsNext(events: seq<Event>, j: nat)
    requires j < |events| && events[j].BeginCheck?
  {
    j + 1 < |events| ==> events[j + 1].FinishCheck? && events[j + 1].check == events[j].check
  }

  /** Nothing happens between the two steps of a check. */
  ghost predicate ChecksUninterrupted(events: seq<Event>) {
    forall j: nat | j < |events| && events[j].BeginCheck? :: EndsNext(events, j)
  }

  lemma BeginKeepsRows(events: seq<Event>, b: nat)
    requires b < |events| && events[b].BeginCheck?
    ensures Run(events[..b + 1]).rows == Run(events[..b]).rows
  {
    RunPrefix(events, b);
  }

  lemma FinishEnds(events: seq<Event>, f: nat)
    requires f < |events| && events[f].FinishCheck?
    ensures events[f].check !in Run(events[..f + 1]).checks
  {
    RunPrefix(events, f);
  }

  lemma OverNext(events: seq<Event>, id: Id, b: nat, f: nat)
    requires ConfirmedBy(events, id, b, f) && EndsNext(events, b)
    ensures f == b + 1 && SameSource(Run(events[..b]), Run(events), id)
  {
    BeginKeepsRows(events, b);
    FinishEnds(events, b + 1);
    assert !AskedAt(events, events[b].check, Inquiry(id, Inspected(events, id, b)), b + 2);
    assert KeptAt(events, id, f);
  }

  /** If no check is interrupted, a deployable row still has the image reference and the configuration that a check confirmed. */
  lemma UninterruptedIsFresh(events: seq<Event>, id: Id)
    requires id in Run(events).rows && Deployable(Run(events).rows[id].status) && ChecksUninterrupted(events)
    ensures exists b: nat :: ConfirmedBy(events, id, b, b + 1) && SameSource(Run(events[..b]), Run(events), id)
  {
    DeployableWasConfirmed(events, id);
    var b: nat, f: nat :| ConfirmedBy(events, id, b, f);
    assert EndsNext(events, b);
    OverNext(events, id, b, f);
    assert ConfirmedBy(events, id, b, b + 1);
  }

  // ------------------------------------------------------------------------------------------
  // Deployments
  // ------------------------------------------------------------------------------------------

  ghost predicate ChangesSettings(e: Event, d: Id) {
    e.ChangeDeployment? && e.deployment == d
  }

  /** The deployment was created by the k-th event, with the settings of its row and its request, and holds them until they are changed. */
  ghost predicate CreatedAt(events: seq<Event>, d: Id, k: nat) {
    && k < |events| && events[k].CreateDeployment? && events[k].deployment == d && d in Run(events).deployments
    && var s, e := Run(events[..k]), events[k];
       && CreateAccepted(s, d, e.id, true) && Run(events).deployments[d].source == e.id
       && ((forall j | k < j < |events| :: !ChangesSettings(events[j], d)) ==>
           Run(events).deployments[d].config == Stored(s.rows[e.id].config, s.rows[e.id].imageRef, d, e.request))
  }

  lemma DeploymentStep(s: State, e: Event, d: Id)
    requires d in Apply(s, e).deployments
    ensures if e.CreateDeployment? && e.deployment == d && CreateAccepted(s, d, e.id, e.otherChecks) then
              Apply(s, e).deployments[d] == Deployment(e.id, Stored(s.rows[e.id].config, s.rows[e.id].imageRef, d, e.request))
            else
              && d in s.deployments && Apply(s, e).deployments[d].source == s.deployments[d].source
              && (!ChangesSettings(e, d) ==> Apply(s, e).deployments[d] == s.deployments[d])
  {
  }

  lemma CreatedNow(before: seq<Event>, e: Event, d: Id)
    requires e.CreateDeployment? && e.deployment == d && CreateAccepted(Run(before), d, e.id, e.otherChecks)
    requires d in Run(before + [e]).deployments
    requires Run(before + [e]).deployments[d] ==
             Deployment(e.id, Stored(Run(before).rows[e.id].config, Run(before).rows[e.id].imageRef, d, e.request))
    ensures CreatedAt(before + [e], d, |before|)
  {
    assert (before + [e])[..|before|] == before;
  }

  lemma CreatedBefore(before: seq<Event>, e: Event, d: Id, k: nat)
    requires CreatedAt(before, d, k) && d in Run(before + [e]).deployments
    requires Run(before + [e]).deployments[d].source == Run(before).deployments[d].source
    requires !ChangesSettings(e, d) ==> Run(before + [e]).deployments[d] == Run(before).deployments[d]
    ensures CreatedAt(before + [e], d, k)
  {
    var all := before + [e];
    assert all[..k] == before[..k] && all[k] == before[k];
    if forall j | k < j < |all| :: !ChangesSettings(all[j], d) {
      assert !ChangesSettings(all[|before|], d);
      assert forall j | k < j < |before| :: all[j] == before[j];
    }
  }

  lemma {:induction false} DeploymentWasCreated(events: seq<Event>, d: Id)
    requires d in Run(events).deployments
    ensures exists k: nat :: CreatedAt(events, d, k)
  {
    var n := |events| - 1;
    var before, e := events[..n], events[n];
    assert events == before + [e];
    RunNext(before, e);
    DeploymentStep(Run(before), e, d);
    if e.CreateDeployment? && e.deployment == d && CreateAccepted(Run(before), d, e.id, e.otherChecks) {
      CreatedNow(before, e, d);
    } else {
      DeploymentWasCreated(before, d);
      var k: nat :| CreatedAt(before, d, k);
      CreatedBefore(before, e, d, k);
    }
  }

  /** Every deployment was created from a row that was deployable, so a check had confirmed that row before. */
  lemma DeploymentsAreFresh(events: seq<Event>, d: Id)
    requires d in Run(events).deployments
    ensures Run(events).deployments[d].source in Run(events).rows
    ensures exists k: nat, b: nat, f: nat :: CreatedAt(events, d, k) && ConfirmedBy(events[..k], Run(events).deployments[d].source, b, f)
  {
    RunIsValid(events);
    DeploymentWasCreated(events, d);
    var k: nat :| CreatedAt(events, d, k);
    DeployableWasConfirmed(events[..k], events[k].id);
    var b: nat, f: nat :| ConfirmedBy(events[..k], events[k].id, b, f);
  }

  /** For a row with an image reference that was not disturbed during its check, that reference is the image inspected. */
  lemma ReferenceIsInspected(events: seq<Event>, id: Id, b: nat, f: nat)
    requires id in Run(events).rows && ConfirmedBy(events, id, b, f) && Quiet(events, id, b, f)
    ensures Run(events).rows[id].imageRef != NO_IMAGE ==> Inspected(events, id, b) == Run(events).rows[id].imageRef
  {
    UnchangedIffQuiet(events, id, b, f);
    assert SameInput(Run(events[..b]), Run(events[..f]), id) && KeptAt(events, id, f);
  }

  /**
   The settings a deployment is created with name the inspected image exactly when the request, the row's
   reference and its configuration keep it. A request that leaves the image alone keeps it for a row with a
   reference that was not disturbed during its check.
   */
  lemma DeployedImageIff(events: seq<Event>, d: Id, k: nat, b: nat, f: nat)
    requires CreatedAt(events, d, k) && ConfirmedBy(events[..k], events[k].id, b, f)
    ensures var row, q, image := Run(events[..k]).rows[events[k].id], events[k].request, Inspected(events[..k], events[k].id, b);
      && (ImageSetting(Stored(row.config, row.imageRef, d, q)) == Str(image) <==> KeepsImage(row.config, row.imageRef, q, image))
      && (Quiet(events[..k], events[k].id, b, f) && row.imageRef != NO_IMAGE && q.edited == None && LastPut(q.writes) == None ==>
            KeepsImage(row.config, row.imageRef, q, image))
  {
    var row, id := Run(events[..k]).rows[events[k].id], events[k].id;
    if Quiet(events[..k], id, b, f) {
      ReferenceIsInspected(events[..k], id, b, f);
    }
    StoredImageIff(row.config, row.imageRef, d, events[k].request, Inspected(events[..k], id, b));
  }

  // ------------------------------------------------------------------------------------------
  // Runs that leave a row or a deployment with what no check inspected
  // ------------------------------------------------------------------------------------------

  /** Whatever disturbs a row during a check, short of its deletion, goes unnoticed if the check confirms. */
  lemma DisturbanceUnnoticed(s: State, check: Id, id: Id, e: Event, p: Probe)
    requires Valid(s) && id in s.rows && check !in s.checks && Confirms(p, EffectiveImage(s, s.rows[id]))
    requires Disturbs(s, e, id) && !e.DeleteRow?
    ensures var begun := Apply(s, BeginCheck(check, s.rows[id].node, id));
      var done := Apply(Apply(begun, e), FinishCheck(check, p));
      id in done.rows && Deployable(done.rows[id].status) && !SameInput(s, done, id)
  {
    var begun := Apply(s, BeginCheck(check, s.rows[id].node, id));
    assert Disturbs(begun, e, id);
    var changed := Apply(begun, e);
    StepDisturbsIff(begun, e, id);
    CheckDecides(changed.rows[id], p, EffectiveImage(s, s.rows[id]));
  }

  const ITEM: Members := map[VALUE := Object(map[EFFECTIVE_VALUE := Str(40)])]
  const CONFIG: Config := map[ITEMS := Object(map[LAUNCHER_IMAGE := Object(ITEM)])]
  const VIEW := NodeView(true, false, true, false)
  const GOOD := Probe(true, 1, true, true, true, ImageFound, OtherMatch)

  /** A template with image 40 and a row of it with the given reference. */
  function NewRow(ref: Image): seq<Event> {
    [SetTemplate(1, 40)] + [Enable(2, 1, 3, Some(ref), Some(CONFIG), VIEW)]
  }

  lemma NewRowIs(ref: Image)
    ensures Run(NewRow(ref)) == State(map[1 := 40], map[3 := Row(2, 1, ref, CONFIG, false, false, NeedsCheck)], map[], map[])
    ensures CONFIG != NO_CONFIG && ImageSetting(CONFIG) == Str(40)
  {
    RunNext([], SetTemplate(1, 40));
    RunNext([SetTemplate(1, 40)], Enable(2, 1, 3, Some(ref), Some(CONFIG), VIEW));
    assert [] + [SetTemplate(1, 40)] == [SetTemplate(1, 40)];
    assert ITEMS in CONFIG;
  }

  lemma RunLast(all: seq<Event>, before: seq<Event>, e: Event)
    requires all == before + [e]
    ensures Run(all) == Apply(Run(before), e)
  {
    RunNext(before, e);
  }

  lemma RunTwo(events: seq<Event>, e1: Event, e2: Event)
    ensures Run(events + [e1, e2]) == Apply(Run(events + [e1]), e2)
    ensures Run(events + [e1]) == Apply(Run(events), e1)
  {
    RunLast(events + [e1], events, e1);
    RunLast(events + [e1, e2], events + [e1], e2);
  }

  lemma RunThree(events: seq<Event>, e1: Event, e2: Event, e3: Event)
    ensures Run(events + [e1, e2, e3]) == Apply(Run(events + [e1, e2]), e3)
    ensures Run(events + [e1, e2]) == Apply(Run(events + [e1]), e2)
    ensures Run(events + [e1]) == Apply(Run(events), e1)
  {
    RunTwo(events, e1, e2);
    RunLast(events + [e1, e2, e3], events + [e1, e2], e3);
  }

  /** Every disturbance of a new row during its first check leaves it deployable as something not inspected. */
  lemma DisturbedRun(ref: Image, e: Event)
    requires 3 in Run(NewRow(ref)).rows && Run(NewRow(ref)).rows[3].runtime in Run(NewRow(ref)).templates
    requires Disturbs(Run(NewRow(ref)), e, 3) && !e.DeleteRow?
    ensures var before, after := Run(NewRow(ref)), Run(NewRow(ref) + [BeginCheck(4, 2, 3), e, FinishCheck(4, GOOD)]);
      3 in after.rows && Deployable(after.rows[3].status) && !SameInput(before, after, 3)
  {
    NewRowIs(ref);
    RunIsValid(NewRow(ref));
    RunThree(NewRow(ref), BeginCheck(4, 2, 3), e, FinishCheck(4, GOOD));
    DisturbanceUnnoticed(Run(NewRow(ref)), 4, 3, e, GOOD);
  }

  const SAME := Patch(false, false, None, false, None, None, false)

  /** The reference patched, the configuration patched or edited, and the template changed behind a blank reference. */
  lemma DisturbingEvents()
    ensures forall ref | ref in {41, NO_IMAGE} ::
              3 in Run(NewRow(ref)).rows && Run(NewRow(ref)).rows[3].runtime in Run(NewRow(ref)).templates
    ensures Disturbs(Run(NewRow(41)), PatchRow(3, SAME.(imageRef := Some(42))), 3)
    ensures Disturbs(Run(NewRow(41)), PatchRow(3, SAME.(configSet := Some(NO_CONFIG))), 3)
    ensures Disturbs(Run(NewRow(41)), EditConfig(3, NO_CONFIG), 3)
    ensures Disturbs(Run(NewRow(NO_IMAGE)), SetTemplate(1, 42), 3)
  {
    NewRowIs(41);
    NewRowIs(NO_IMAGE);
  }

  lemma ReplacedRow(e: Event)
    requires e == Enable(2, 1, 3, Some(42), Some(CONFIG), VIEW)
    ensures Run(NewRow(41) + [BeginCheck(4, 2, 3), DeleteRow(3, false), e]) ==
            State(map[1 := 40], map[3 := Row(2, 1, 42, CONFIG, false, false, NeedsCheck)], map[], map[4 := Inquiry(3, 41)])
  {
    NewRowIs(41);
    RunThree(NewRow(41), BeginCheck(4, 2, 3), DeleteRow(3, false), e);
  }

  /** A row deleted and enabled anew under its id during a check is deployable without any check of it. */
  lemma ReplacedDuringCheck(e: Event)
    requires e == Enable(2, 1, 3, Some(42), Some(CONFIG), VIEW)
    ensures var done := Run(NewRow(41) + [BeginCheck(4, 2, 3), DeleteRow(3, false), e] + [FinishCheck(4, GOOD)]);
      3 in done.rows && Deployable(done.rows[3].status) && done.rows[3].imageRef == 42
    ensures Run(NewRow(41) + [BeginCheck(4, 2, 3), DeleteRow(3, false), e]).checks == map[4 := Inquiry(3, 41)]
  {
    ReplacedRow(e);
    RunNext(NewRow(41) + [BeginCheck(4, 2, 3), DeleteRow(3, false), e], FinishCheck(4, GOOD));
    CheckDecides(Row(2, 1, 42, CONFIG, false, false, NeedsCheck), GOOD, 41);
  }

  /** Checked and deployed at once. */
  lemma DeployChecked(events: seq<Event>, id: Id, d: Id, q: Request) returns (all: seq<Event>)
    requires var s := Run(events);
      && id in s.rows && 4 !in s.checks && s.rows[id].runtime in s.templates && s.rows[id].config != NO_CONFIG
      && d !in s.deployments && EffectiveImage(s, s.rows[id]) != NO_IMAGE
    ensures var s := Run(events);
      && all == events + [BeginCheck(4, s.rows[id].node, id), FinishCheck(4, GOOD), CreateDeployment(d, id, true, q)]
      && d in Run(all).deployments && Run(all).deployments[d].config == Stored(s.rows[id].config, s.rows[id].imageRef, d, q)
  {
    var s := Run(events);
    RunThree(events, BeginCheck(4, s.rows[id].node, id), FinishCheck(4, GOOD), CreateDeployment(d, id, true, q));
    all := events + [BeginCheck(4, s.rows[id].node, id), FinishCheck(4, GOOD), CreateDeployment(d, id, true, q)];
    CheckDecides(s.rows[id], GOOD, EffectiveImage(s, s.rows[id]));
  }

  function Plain(writes: seq<Write>, x: Texts): Request {
    Request(writes, None, Compat(None, None, None, None, None), x)
  }

  /** An override of the image is deployed in place of the inspected one. */
  lemma OverriddenImage(x: Texts) returns (events: seq<Event>)
    ensures 5 in Run(events).deployments && ImageSetting(Run(events).deployments[5].config) == Str(42)
    ensures Begins(events, 3, 2) && Inspected(events, 3, 2) == 41
  {
    NewRowIs(41);
    var q := Plain([PutValue(LAUNCHER_IMAGE, Str(42))], x);
    events := DeployChecked(NewRow(41), 3, 5, q);
    assert events[..2] == NewRow(41);
    StoredImageIff(CONFIG, 41, 5, q, 42);
  }

  /** Behind a blank reference the template's image is inspected, and the image the row copied earlier is deployed. */
  lemma BlankReference(x: Texts) returns (events: seq<Event>)
    ensures 5 in Run(events).deployments && ImageSetting(Run(events).deployments[5].config) == Str(40)
    ensures Begins(events, 3, 3) && Inspected(events, 3, 3) == 42
  {
    NewRowIs(NO_IMAGE);
    var start := NewRow(NO_IMAGE) + [SetTemplate(1, 42)];
    RunNext(NewRow(NO_IMAGE), SetTemplate(1, 42));
    events := DeployChecked(start, 3, 5, Plain([], x));
    assert events[..3] == start;
    StoredImageIff(CONFIG, NO_IMAGE, 5, Plain([], x), 40);
  }
}
