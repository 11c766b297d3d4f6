/**
 Which tasks a heartbeat hands to its agent. The rows just claimed are read back by their timestamp,
 oldest first and ten at most, so rows the agent claimed before under the same timestamp compete.
 */
module HandOff {
  import opened Collections
  import opened Results
  import opened Protocol
  import opened ProtocolInvariants
  import opened LeaseLedger
  import opened TaskLifeCycle
  import opened SweepAndClaim
  import opened ControlPlaneServer

  // ------------------------------------------------------------------------------------------
  // Who may be among the ten oldest
  // ------------------------------------------------------------------------------------------

  ghost function Older(tasks: map<Id, Task>, candidates: set<Id>, t: Id): set<Id>
    requires candidates <= tasks.Keys && t in tasks
  {
    set c | c in candidates && tasks[c].createdAt < tasks[t].createdAt
  }

  ghost function AsOld(tasks: map<Id, Task>, candidates: set<Id>, t: Id): set<Id>
    requires candidates <= tasks.Keys && t in tasks
  {
    set c | c in candidates && c != t && tasks[c].createdAt <= tasks[t].createdAt
  }

  /** Fewer than ten others are as old: every answer lists the row. */
  lemma ListedSurely(tasks: map<Id, Task>, candidates: set<Id>, rows: seq<Id>, t: Id)
    requires candidates <= tasks.Keys && FirstTen(tasks, candidates, rows) && t in candidates
    requires |AsOld(tasks, candidates, t)| < MAX_CLAIM
    ensures t in rows
  {
    if t !in rows {
      DistinctRows(rows, AsOld(tasks, candidates, t));
    }
  }

  lemma OlderAreListed(tasks: map<Id, Task>, candidates: set<Id>, rows: seq<Id>, t: Id)
    requires candidates <= tasks.Keys && FirstTen(tasks, candidates, rows) && t in rows
    ensures forall c | c in candidates && tasks[c].createdAt < tasks[t].createdAt :: c in rows
  {
    var i :| 0 <= i < |rows| && rows[i] == t;
    forall c | c in candidates && c !in rows
      ensures tasks[t].createdAt <= tasks[c].createdAt
    {
      assert tasks[rows[i]].createdAt <= tasks[c].createdAt;
    }
  }

  /** Ten others are older: no answer lists the row. */
  lemma NeverListed(tasks: map<Id, Task>, candidates: set<Id>, rows: seq<Id>, t: Id)
    requires candidates <= tasks.Keys && FirstTen(tasks, candidates, rows) && t in candidates
    requires |Older(tasks, candidates, t)| >= MAX_CLAIM
    ensures t !in rows
  {
    if t in rows {
      var listed := set r | r in rows && r != t;
      OlderAreListed(tasks, candidates, rows, t);
      assert forall c | c in Older(tasks, candidates, t) :: c in listed;
      PickedCount(rows);
      assert (set r | r in rows) == listed + {t};
      SubsetSize(Older(tasks, candidates, t), listed);
    }
  }

  /** Among rows of one creation time `t` comes first, or last. */
  function Rank(c: Id, t: Id, first: bool): int {
    if c != t then 1 else if first then 0 else 2
  }

  ghost predicate Before(tasks: map<Id, Task>, t: Id, first: bool, a: Id, b: Id)
    requires a in tasks && b in tasks
  {
    tasks[a].createdAt < tasks[b].createdAt
    || (tasks[a].createdAt == tasks[b].createdAt && Rank(a, t, first) < Rank(b, t, first))
  }

  lemma Least(tasks: map<Id, Task>, candidates: set<Id>, t: Id, first: bool) returns (m: Id)
    requires candidates <= tasks.Keys && candidates != {}
    ensures m in candidates && forall c | c in candidates :: !Before(tasks, t, first, c, m)
    decreases candidates
  {
    NonEmpty(candidates);
    var any :| any in candidates;
    m := any;
    var rest := candidates - {any};
    if rest != {} {
      var n := Least(tasks, rest, t, first);
      if Before(tasks, t, first, n, any) {
        m := n;
      }
    }
    forall c | c in candidates
      ensures !Before(tasks, t, first, c, m)
    {
      assert c == any || c in rest;
    }
  }

  ghost predicate Arranged(tasks: map<Id, Task>, t: Id, first: bool, candidates: set<Id>, all: seq<Id>)
    requires candidates <= tasks.Keys
  {
    && (forall k | 0 <= k < |all| :: all[k] in candidates) && (forall c | c in candidates :: c in all)
    && forall j, k | 0 <= j < k < |all| :: all[j] != all[k] && all[j] in tasks && all[k] in tasks && !Before(tasks, t, first, all[k], all[j])
  }

  lemma Arrange(tasks: map<Id, Task>, candidates: set<Id>, t: Id, first: bool) returns (all: seq<Id>)
    requires candidates <= tasks.Keys
    ensures Arranged(tasks, t, first, candidates, all)
    decreases candidates
  {
    if candidates == {} {
      all := [];
    } else {
      var m := Least(tasks, candidates, t, first);
      var rest := Arrange(tasks, candidates - {m}, t, first);
      all := [m] + rest;
    }
  }

  function Ten(all: seq<Id>): seq<Id> {
    if |all| <= MAX_CLAIM then all else all[..MAX_CLAIM]
  }

  lemma FirstOfTen(all: seq<Id>)
    ensures forall i | 0 <= i < |all| && i < MAX_CLAIM :: all[i] in Ten(all)
  {
    assert forall i | 0 <= i < |Ten(all)| :: Ten(all)[i] == all[i];
  }

  lemma TenOfArranged(tasks: map<Id, Task>, candidates: set<Id>, t: Id, first: bool, all: seq<Id>)
    requires candidates <= tasks.Keys && Arranged(tasks, t, first, candidates, all)
    ensures FirstTen(tasks, candidates, Ten(all))
  {
    FirstOfTen(all);
    forall c | c in candidates && c !in Ten(all)
      ensures |Ten(all)| == MAX_CLAIM && forall k | 0 <= k < |Ten(all)| :: tasks[Ten(all)[k]].createdAt <= tasks[c].createdAt
    {
      var i :| 0 <= i < |all| && all[i] == c;
    }
  }

  /** Fewer than ten others are older: some answer lists the row. */
  lemma ListedPossibly(tasks: map<Id, Task>, candidates: set<Id>, t: Id)
    requires candidates <= tasks.Keys && t in candidates && |Older(tasks, candidates, t)| < MAX_CLAIM
    ensures exists rows :: FirstTen(tasks, candidates, rows) && t in rows
  {
    var all := Arrange(tasks, candidates, t, true);
    TenOfArranged(tasks, candidates, t, true, all);
    var i :| 0 <= i < |all| && all[i] == t;
    DistinctRows(all[..i], Older(tasks, candidates, t));
    assert Ten(all)[i] == t;
  }

  /** In an arrangement that puts `t` last among its equals, all rows as old come before it. */
  lemma AsOldComeFirst(tasks: map<Id, Task>, candidates: set<Id>, t: Id, all: seq<Id>, i: nat)
    requires candidates <= tasks.Keys && t in candidates && Arranged(tasks, t, false, candidates, all) && i < |all| && all[i] == t
    ensures |AsOld(tasks, candidates, t)| <= i
  {
    var earlier := set r | r in all[..i];
    forall c | c in AsOld(tasks, candidates, t)
      ensures c in earlier
    {
      var j :| 0 <= j < |all| && all[j] == c;
      assert j < i;
      assert all[..i][j] == c;
    }
    SubsetSize(AsOld(tasks, candidates, t), earlier);
    PickedCount(all[..i]);
  }

  /** Ten others are as old: some answer leaves the row out. */
  lemma UnlistedPossibly(tasks: map<Id, Task>, candidates: set<Id>, t: Id)
    requires candidates <= tasks.Keys && t in candidates && |AsOld(tasks, candidates, t)| >= MAX_CLAIM
    ensures exists rows :: FirstTen(tasks, candidates, rows) && t !in rows
  {
    var all := Arrange(tasks, candidates, t, false);
    TenOfArranged(tasks, candidates, t, false, all);
    var i :| 0 <= i < |all| && all[i] == t;
    AsOldComeFirst(tasks, candidates, t, all, i);
    assert forall k | 0 <= k < |Ten(all)| :: Ten(all)[k] == all[k] && k < i;
  }

  // ------------------------------------------------------------------------------------------
  // What a heartbeat may return
  // ------------------------------------------------------------------------------------------

  ghost predicate AcceptedBeat(s: State, e: Event) {
    Inv(s) && Allowed(s, e) && e.Heartbeat? && HeartbeatAccepted(s, e.node, e.agent)
  }

  /** The rows that compete for the answer: those just claimed, and those claimed before under the timestamp. */
  ghost function Competing(s: State, e: Event): set<Id>
    requires e.Heartbeat? && e.node in s.nodes
  {
    (set t | t in e.picked) + ClaimedBefore(s, e)
  }

  lemma CompetingRows(s: State, e: Event)
    requires AcceptedBeat(s, e)
    ensures Competing(s, e) <= s.tasks.Keys
    ensures forall t | t in Competing(s, e) :: t in Apply(s, e).tasks && Apply(s, e).tasks[t].createdAt == s.tasks[t].createdAt
    ensures ClaimedAt(Apply(s, e).tasks, e.node, e.agent, e.now) == Competing(s, e)
  {
    ReadBackCandidates(s, e);
    HeartbeatRows(s, e.node, e.agent, e.now, e.picked);
  }

  /** The heartbeat with another answer of the read-back. */
  ghost function Answering(e: Event, rows: seq<Id>): Event
    requires e.Heartbeat?
  {
    e.(returned := rows)
  }

  /** Exactly the ten-oldest answers over the competing rows are possible. */
  lemma AnswersAllowed(s: State, e: Event, rows: seq<Id>)
    requires AcceptedBeat(s, e)
    ensures Competing(s, e) <= s.tasks.Keys
    ensures Allowed(s, Answering(e, rows)) <==> FirstTen(s.tasks, Competing(s, e), rows)
    ensures Apply(s, Answering(e, rows)) == Apply(s, e)
  {
    CompetingRows(s, e);
    var after, candidates := Apply(s, e).tasks, Competing(s, e);
    if FirstTen(s.tasks, candidates, rows) {
      SameAges(s.tasks, after, candidates, rows);
    }
    if FirstTen(after, candidates, rows) {
      SameAges(after, s.tasks, candidates, rows);
    }
  }

  lemma SameAges(tasks: map<Id, Task>, after: map<Id, Task>, candidates: set<Id>, rows: seq<Id>)
    requires candidates <= tasks.Keys && candidates <= after.Keys && FirstTen(tasks, candidates, rows)
    requires forall t | t in candidates :: after[t].createdAt == tasks[t].createdAt
    ensures FirstTen(after, candidates, rows)
  {
    forall k | 0 <= k < |rows|
      ensures after[rows[k]].createdAt == tasks[rows[k]].createdAt
    {
      var r := rows[k];
      assert r in candidates;
      assert after[r].createdAt == tasks[r].createdAt;
    }
  }

  /** The task can be in the answer exactly when fewer than ten competing rows are older. */
  lemma MayBeHandedOutIff(s: State, e: Event, t: Id)
    requires AcceptedBeat(s, e)
    ensures Competing(s, e) <= s.tasks.Keys
    ensures (exists rows :: Allowed(s, Answering(e, rows)) && t in rows) <==>
            t in Competing(s, e) && |Older(s.tasks, Competing(s, e), t)| < MAX_CLAIM
  {
    CompetingRows(s, e);
    var candidates := Competing(s, e);
    forall rows | Allowed(s, Answering(e, rows)) && t in rows
      ensures t in candidates && |Older(s.tasks, candidates, t)| < MAX_CLAIM
    {
      AnswersAllowed(s, e, rows);
      if |Older(s.tasks, candidates, t)| >= MAX_CLAIM {
        NeverListed(s.tasks, candidates, rows, t);
      }
    }
    if t in candidates && |Older(s.tasks, candidates, t)| < MAX_CLAIM {
      ListedPossibly(s.tasks, candidates, t);
      var rows :| FirstTen(s.tasks, candidates, rows) && t in rows;
      AnswersAllowed(s, e, rows);
    }
  }

  /** The task is in every answer exactly when fewer than ten other competing rows are as old. */
  lemma MustBeHandedOutIff(s: State, e: Event, t: Id)
    requires AcceptedBeat(s, e) && t in Competing(s, e)
    ensures Competing(s, e) <= s.tasks.Keys
    ensures (forall rows :: Allowed(s, Answering(e, rows)) ==> t in rows) <==>
            |AsOld(s.tasks, Competing(s, e), t)| < MAX_CLAIM
  {
    CompetingRows(s, e);
    var candidates := Competing(s, e);
    if |AsOld(s.tasks, candidates, t)| < MAX_CLAIM {
      forall rows | Allowed(s, Answering(e, rows))
        ensures t in rows
      {
        AnswersAllowed(s, e, rows);
        ListedSurely(s.tasks, candidates, rows, t);
      }
    } else {
      UnlistedPossibly(s.tasks, candidates, t);
      var rows :| FirstTen(s.tasks, candidates, rows) && t !in rows;
      AnswersAllowed(s, e, rows);
    }
  }

  // ------------------------------------------------------------------------------------------
  // Exact hand-off
  // ------------------------------------------------------------------------------------------

  ghost predicate SameRows(a: seq<Id>, b: seq<Id>) {
    forall t :: t in a <==> t in b
  }

  function Members(rows: seq<Id>): set<Id> {
    set t | t in rows
  }

  /** Rows just claimed, oldest first, and other rows claimed before. */
  ghost predicate Batch(tasks: map<Id, Task>, picked: seq<Id>, before: set<Id>) {
    && before <= tasks.Keys && Members(picked) <= tasks.Keys && Members(picked) !! before && |picked| <= MAX_CLAIM
    && forall j, k | 0 <= j < k < |picked| :: picked[j] != picked[k] && tasks[picked[j]].createdAt <= tasks[picked[k]].createdAt
  }

  /** Ten rows were claimed, and none claimed before is older (or, strictly, as old) as one of them. */
  ghost predicate FullFirst(tasks: map<Id, Task>, picked: seq<Id>, before: set<Id>, strictly: bool) {
    |picked| == MAX_CLAIM && forall b, p | b in before && p in picked && b in tasks && p in tasks ::
      tasks[p].createdAt < tasks[b].createdAt || (!strictly && tasks[p].createdAt == tasks[b].createdAt)
  }

  lemma ExactIsFullOrAlone(tasks: map<Id, Task>, picked: seq<Id>, before: set<Id>, rows: seq<Id>)
    requires Batch(tasks, picked, before) && FirstTen(tasks, Members(picked) + before, rows) && SameRows(rows, picked)
    ensures before == {} || FullFirst(tasks, picked, before, false)
  {
    if before != {} {
      NonEmpty(before);
      var b :| b in before;
      assert b !in rows;
      DistinctRows(rows, Members(picked));
      PickedCount(picked);
      forall b, p | b in before && p in picked
        ensures tasks[p].createdAt <= tasks[b].createdAt
      {
        assert b !in rows && p in rows;
        OlderAreListed(tasks, Members(picked) + before, rows, p);
      }
    }
  }

  lemma PickedAnswers(tasks: map<Id, Task>, picked: seq<Id>, before: set<Id>)
    requires Batch(tasks, picked, before) && (before == {} || FullFirst(tasks, picked, before, false))
    ensures FirstTen(tasks, Members(picked) + before, picked)
  {
    assert forall k | 0 <= k < |picked| :: picked[k] in Members(picked);
  }

  lemma StrictBatchIsHandedOut(tasks: map<Id, Task>, picked: seq<Id>, before: set<Id>, rows: seq<Id>)
    requires Batch(tasks, picked, before) && FirstTen(tasks, Members(picked) + before, rows)
    requires before == {} || FullFirst(tasks, picked, before, true)
    ensures SameRows(rows, picked)
  {
    PickedCount(picked);
    if before == {} {
      assert Members(picked) + before == Members(picked);
      FewAreAllListed(tasks, Members(picked), rows);
    } else {
      forall p | p in picked
        ensures p in rows
      {
        var asOld := AsOld(tasks, Members(picked) + before, p);
        assert forall c | c in asOld :: c in Members(picked) - {p};
        SubsetSize(asOld, Members(picked) - {p});
        ListedSurely(tasks, Members(picked) + before, rows, p);
      }
      TenAreAll(picked, rows);
    }
  }

  /** Ten different rows in an answer of at most ten are all of it. */
  lemma TenAreAll(picked: seq<Id>, rows: seq<Id>)
    requires |picked| == MAX_CLAIM && |rows| <= MAX_CLAIM && forall p | p in picked :: p in rows
    requires forall j, k | 0 <= j < k < |picked| :: picked[j] != picked[k]
    ensures SameRows(rows, picked)
  {
    PickedCount(rows);
    forall k | 0 <= k < |picked|
      ensures picked[k] in Members(rows)
    {
      assert picked[k] in picked;
    }
    DistinctRows(picked, Members(rows));
  }

  lemma OldestOf(tasks: map<Id, Task>, candidates: set<Id>) returns (b: Id)
    requires candidates <= tasks.Keys && candidates != {}
    ensures b in candidates && forall c | c in candidates :: tasks[b].createdAt <= tasks[c].createdAt
  {
    b := Least(tasks, candidates, NO_ID, false);
    forall c | c in candidates
      ensures tasks[b].createdAt <= tasks[c].createdAt
    {
      assert !Before(tasks, NO_ID, false, c, b);
    }
  }

  /** Fewer than ten competing rows are older than the oldest one claimed before. */
  lemma OldestHasRoom(tasks: map<Id, Task>, picked: seq<Id>, before: set<Id>) returns (b: Id)
    requires Batch(tasks, picked, before) && before != {} && !FullFirst(tasks, picked, before, true)
    ensures b in before && |Older(tasks, Members(picked) + before, b)| < MAX_CLAIM
  {
    b := OldestOf(tasks, before);
    var older := Older(tasks, Members(picked) + before, b);
    assert forall c | c in older :: c in Members(picked);
    PickedCount(picked);
    if |picked| == MAX_CLAIM {
      var c, p :| c in before && p in picked && tasks[c].createdAt <= tasks[p].createdAt;
      assert p !in older;
      SubsetSize(older, Members(picked) - {p});
    } else {
      SubsetSize(older, Members(picked));
    }
  }

  /** Otherwise some answer holds a row claimed before: the oldest of them. */
  lemma OtherAnswer(tasks: map<Id, Task>, picked: seq<Id>, before: set<Id>) returns (rows: seq<Id>)
    requires Batch(tasks, picked, before) && before != {} && !FullFirst(tasks, picked, before, true)
    ensures FirstTen(tasks, Members(picked) + before, rows) && !SameRows(rows, picked)
  {
    var b := OldestHasRoom(tasks, picked, before);
    ListedPossibly(tasks, Members(picked) + before, b);
    rows :| FirstTen(tasks, Members(picked) + before, rows) && b in rows;
    assert b !in picked;
  }

  /** Ten rows were claimed, and none claimed before under the timestamp is older (or, strictly, as old) as one of them. */
  ghost predicate FullBatchFirst(s: State, e: Event, strictly: bool)
    requires e.Heartbeat? && e.node in s.nodes
  {
    FullFirst(s.tasks, e.picked, ClaimedBefore(s, e), strictly)
  }

  lemma BatchOf(s: State, e: Event)
    requires AcceptedBeat(s, e)
    ensures Competing(s, e) == Members(e.picked) + ClaimedBefore(s, e) && Competing(s, e) <= s.tasks.Keys
    ensures Batch(s.tasks, e.picked, ClaimedBefore(s, e))
  {
    CompetingRows(s, e);
    ReadBackCandidates(s, e);
    PickedInOrder(s, e);
  }

  lemma PickedInOrder(s: State, e: Event)
    requires AcceptedBeat(s, e)
    ensures |e.picked| <= MAX_CLAIM && forall k | 0 <= k < |e.picked| :: e.picked[k] in s.tasks
    ensures forall j, k | 0 <= j < k < |e.picked| ::
              e.picked[j] != e.picked[k] && s.tasks[e.picked[j]].createdAt <= s.tasks[e.picked[k]].createdAt
  {
    var swept := Swept(s, e.node, e.now);
    assert FirstTen(swept.tasks, PendingOn(swept.tasks, e.node), e.picked);
    forall k | 0 <= k < |e.picked|
      ensures e.picked[k] in s.tasks && swept.tasks[e.picked[k]].createdAt == s.tasks[e.picked[k]].createdAt
    {
      PickedRow(s, e.node, e.now, e.picked, e.picked[k]);
    }
  }

  /** The agent may be handed exactly the tasks it just claimed if and only if none claimed before competes, or ten no newer ones were claimed. */
  lemma MayHandOffExactlyIff(s: State, e: Event)
    requires AcceptedBeat(s, e)
    ensures (exists rows :: Allowed(s, Answering(e, rows)) && SameRows(rows, e.picked)) <==>
            ClaimedBefore(s, e) == {} || FullBatchFirst(s, e, false)
  {
    BatchOf(s, e);
    forall rows | Allowed(s, Answering(e, rows)) && SameRows(rows, e.picked)
      ensures ClaimedBefore(s, e) == {} || FullBatchFirst(s, e, false)
    {
      AnswersAllowed(s, e, rows);
      ExactIsFullOrAlone(s.tasks, e.picked, ClaimedBefore(s, e), rows);
    }
    if ClaimedBefore(s, e) == {} || FullBatchFirst(s, e, false) {
      PickedAnswers(s.tasks, e.picked, ClaimedBefore(s, e));
      AnswersAllowed(s, e, e.picked);
    }
  }

  /** Every possible answer is exactly the tasks just claimed if and only if none claimed before competes, or ten older ones were claimed. */
  lemma MustHandOffExactlyIff(s: State, e: Event)
    requires AcceptedBeat(s, e)
    ensures (forall rows :: Allowed(s, Answering(e, rows)) ==> SameRows(rows, e.picked)) <==>
            ClaimedBefore(s, e) == {} || FullBatchFirst(s, e, true)
  {
    BatchOf(s, e);
    if ClaimedBefore(s, e) == {} || FullBatchFirst(s, e, true) {
      forall rows | Allowed(s, Answering(e, rows))
        ensures SameRows(rows, e.picked)
      {
        AnswersAllowed(s, e, rows);
        StrictBatchIsHandedOut(s.tasks, e.picked, ClaimedBefore(s, e), rows);
      }
    } else {
      var rows := OtherAnswer(s.tasks, e.picked, ClaimedBefore(s, e));
      AnswersAllowed(s, e, rows);
    }
  }

  /** A heartbeat that is accepted has some answer. */
  lemma SomeBeat(s: State, node: Id, agent: Id, now: int) returns (e: Event)
    requires Inv(s) && HeartbeatAccepted(s, node, agent)
    ensures e.Heartbeat? && e.node == node && e.agent == agent && e.now == now && Allowed(s, e)
  {
    var swept := Swept(s, node, now);
    var pending := Arrange(swept.tasks, PendingOn(swept.tasks, node), NO_ID, true);
    TenOfArranged(swept.tasks, PendingOn(swept.tasks, node), NO_ID, true, pending);
    var after := Claim(swept, agent, now, Ten(pending)).tasks;
    var claimed := Arrange(after, ClaimedAt(after, node, agent, now), NO_ID, true);
    TenOfArranged(after, ClaimedAt(after, node, agent, now), NO_ID, true, claimed);
    e := Heartbeat(node, agent, now, Ten(pending), Ten(claimed));
  }

  /** A task its agent claimed in this very second competes again unless it timed out. */
  lemma StillCompetes(s: State, e: Event, t: Id)
    requires AcceptedBeat(s, e) && t in s.tasks && s.tasks[t].status == TaskClaimed && s.tasks[t].node == e.node
    requires s.tasks[t].agent == e.agent && s.tasks[t].claimedAt == Some(e.now) && !Overdue(s.tasks[t], e.now)
    ensures t in ClaimedBefore(s, e) && t in Competing(s, e)
  {
    SweepRows(MarkOnline(s, e.node), e.node, e.now);
    assert Swept(s, e.node, e.now).tasks[t] == s.tasks[t];
  }

  /** With ten rows in the table at most, it is handed out again. */
  lemma HandedOutAgain(s: State, e: Event, t: Id)
    requires AcceptedBeat(s, e) && t in Competing(s, e) && |s.tasks.Keys| <= MAX_CLAIM
    ensures t in e.returned
  {
    CompetingRows(s, e);
    AnswersAllowed(s, e, e.returned);
    assert Answering(e, e.returned) == e;
    var asOld := AsOld(s.tasks, Competing(s, e), t);
    SubsetSize(asOld, s.tasks.Keys - {t});
    ListedSurely(s.tasks, Competing(s, e), e.returned, t);
  }

  /** A pending task in time is claimed if fewer than ten others of its node are pending. */
  lemma PickedSurely(s: State, e: Event, t: Id, others: set<Id>)
    requires AcceptedBeat(s, e) && t in s.tasks && s.tasks[t].status == TaskPending && s.tasks[t].node == e.node
    requires !Overdue(s.tasks[t], e.now) && |others| < MAX_CLAIM
    requires forall u | u in s.tasks && u != t && s.tasks[u].status == TaskPending && s.tasks[u].node == e.node :: u in others
    ensures t in e.picked && Apply(s, e).tasks[t] == ClaimTask(s.tasks[t], e.agent, e.now)
  {
    var swept := Swept(s, e.node, e.now);
    SweepRows(MarkOnline(s, e.node), e.node, e.now);
    assert swept.tasks[t] == s.tasks[t];
    forall u | u in AsOld(swept.tasks, PendingOn(swept.tasks, e.node), t)
      ensures u in others
    {
      assert swept.tasks[u] == SweepTask(s.tasks[u], e.node, e.now);
    }
    SubsetSize(AsOld(swept.tasks, PendingOn(swept.tasks, e.node), t), others);
    ListedSurely(swept.tasks, PendingOn(swept.tasks, e.node), e.picked, t);
  }

  /** Ten older tasks claimed before under the timestamp keep a task that was just claimed out of the answer. */
  lemma CrowdedOut(s: State, e: Event, t: Id, crowd: set<Id>)
    requires AcceptedBeat(s, e) && t in e.picked && t in s.tasks && |crowd| >= MAX_CLAIM
    requires forall u | u in crowd :: u in ClaimedBefore(s, e) && u in s.tasks && s.tasks[u].createdAt < s.tasks[t].createdAt
    ensures t !in e.returned
  {
    CompetingRows(s, e);
    forall u | u in crowd
      ensures u in Older(s.tasks, Competing(s, e), t)
    {
    }
    SubsetSize(crowd, Older(s.tasks, Competing(s, e), t));
    AnswersAllowed(s, e, e.returned);
    assert Answering(e, e.returned) == e;
    NeverListed(s.tasks, Competing(s, e), e.returned, t);
  }

  // ------------------------------------------------------------------------------------------
  // Tasks that are claimed and never handed out
  // ------------------------------------------------------------------------------------------

  /** The agent's heartbeats of the run do not carry the timestamp. */
  ghost predicate StampUnused(events: seq<Event>, agent: Id, stamp: int) {
    forall k | 0 <= k < |events| && events[k].Heartbeat? && events[k].agent == agent :: events[k].now != stamp
  }

  /** Claimed under the timestamp, or past being claimed. */
  ghost predicate ClaimedOrOver(s: State, t: Id, agent: Id, stamp: int) {
    if t in s.tasks then
      Terminal(s.tasks[t].status)
      || (s.tasks[t].status == TaskClaimed && s.tasks[t].agent == agent && s.tasks[t].claimedAt == Some(stamp))
    else t in s.issued
  }

  lemma StaysClaimedOrOver(s: State, e: Event, t: Id, agent: Id, stamp: int)
    requires Inv(s) && Allowed(s, e) && ClaimedOrOver(s, t, agent, stamp)
    ensures ClaimedOrOver(Apply(s, e), t, agent, stamp)
    ensures e.Heartbeat? && t in e.returned ==> e.agent == agent && e.now == stamp
  {
    if t in s.tasks {
      TaskStep(s, e, t);
      assert t in s.issued;
    } else {
      TaskGoneStep(s, e, t);
    }
    IssuedGrows(s, e);
    if e.Heartbeat? && t in e.returned {
      HandedOutInTime(s, e, t);
    }
  }

  /** A task not handed out when it was claimed never is, once its agent uses another timestamp. */
  lemma {:induction false} NeverHandedOutLater(s: State, events: seq<Event>, t: Id, agent: Id, stamp: int)
    requires Inv(s) && Legal(s, events) && ClaimedOrOver(s, t, agent, stamp) && StampUnused(events, agent, stamp)
    ensures Returns(events, t) == 0
    decreases |events|
  {
    if events != [] {
      var e := events[0];
      StaysClaimedOrOver(s, e, t, agent, stamp);
      InvStep(s, e);
      assert forall k | 0 <= k < |events[1..]| :: events[1..][k] == events[k + 1];
      NeverHandedOutLater(Apply(s, e), events[1..], t, agent, stamp);
    }
  }

  ghost predicate NoResultFor(events: seq<Event>, t: Id) {
    forall k | 0 <= k < |events| && events[k].TaskResult? :: events[k].task != t
  }

  ghost predicate ClaimedOrTimedOut(s: State, t: Id) {
    t in s.tasks ==> s.tasks[t].status == TaskClaimed || s.tasks[t].status == TaskTimedOut
  }

  lemma {:induction false} WaitsForNothing(s: State, events: seq<Event>, t: Id)
    requires Inv(s) && Legal(s, events) && t in s.issued && ClaimedOrTimedOut(s, t) && NoResultFor(events, t)
    ensures ClaimedOrTimedOut(Run(s, events), t)
    ensures t in s.tasks && t in Run(s, events).tasks ==>
              Run(s, events).tasks[t].(status := TaskPending) == s.tasks[t].(status := TaskPending)
    ensures t !in s.tasks ==> t !in Run(s, events).tasks
    decreases |events|
  {
    if events != [] {
      var e := events[0];
      if t in s.tasks {
        TaskStep(s, e, t);
      } else {
        TaskGoneStep(s, e, t);
      }
      IssuedGrows(s, e);
      InvStep(s, e);
      assert forall k | 0 <= k < |events[1..]| :: events[1..][k] == events[k + 1];
      WaitsForNothing(Apply(s, e), events[1..], t);
    }
  }

  /** An overdue task that is unfinished, or timed out already, fails its instance at the next heartbeat of its node. */
  lemma OverdueFailsInstance(s: State, beat: Event, t: Id)
    requires AcceptedBeat(s, beat) && t in s.tasks && beat.node == s.tasks[t].node && Overdue(s.tasks[t], beat.now)
    requires Unfinished(s.tasks[t].status) || s.tasks[t].status == TaskTimedOut
    ensures var r := Apply(s, beat);
      && t in r.tasks && r.tasks[t] == s.tasks[t].(status := TaskTimedOut)
      && s.tasks[t].instance in r.instances && r.instances[s.tasks[t].instance].actual == InstanceFailed
  {
    OverdueTimesOut(s, beat, t);
    SweepFailsInstance(s, beat.node, beat.now, t);
  }

  lemma OverdueTimesOut(s: State, beat: Event, t: Id)
    requires AcceptedBeat(s, beat) && t in s.tasks && beat.node == s.tasks[t].node && Overdue(s.tasks[t], beat.now)
    requires Unfinished(s.tasks[t].status) || s.tasks[t].status == TaskTimedOut
    ensures t in Apply(s, beat).tasks && Apply(s, beat).tasks[t] == s.tasks[t].(status := TaskTimedOut)
  {
    HeartbeatRows(s, beat.node, beat.agent, beat.now, beat.picked);
    OverdueIsNotPicked(s, beat, t);
  }

  lemma OverdueIsNotPicked(s: State, beat: Event, t: Id)
    requires AcceptedBeat(s, beat) && t in s.tasks && Overdue(s.tasks[t], beat.now)
    ensures t !in beat.picked
  {
    if t in beat.picked {
      PickedRow(s, beat.node, beat.now, beat.picked, t);
    }
  }

  lemma SweepFailsInstance(s: State, node: Id, now: int, t: Id)
    requires Inv(s) && node in s.nodes && t in s.tasks && node == s.tasks[t].node && Overdue(s.tasks[t], now)
    requires Unfinished(s.tasks[t].status) || s.tasks[t].status == TaskTimedOut
    ensures var r := Swept(s, node, now);
      && t in r.tasks && r.tasks[t] == s.tasks[t].(status := TaskTimedOut)
      && s.tasks[t].instance in r.instances && r.instances[s.tasks[t].instance].actual == InstanceFailed
  {
    var online := MarkOnline(s, node);
    SweepRows(online, node, now);
    SweepCloses(online, node, now);
    assert Swept(s, node, now).tasks[t].status == TaskTimedOut;
    assert BelongsTo(s.instances, s.deployments.Keys, s.tasks[t].instance, s.tasks[t].deployment);
  }

  /** A claimed task no result comes for times out at the first late heartbeat of its node, and its instance is failed with it. */
  lemma LostTaskFailsInstance(s: State, events: seq<Event>, t: Id, beat: Event)
    requires Inv(s) && Legal(s, events) && t in s.tasks && s.tasks[t].status == TaskClaimed && NoResultFor(events, t)
    requires t in Run(s, events).tasks && beat.Heartbeat? && beat.node == s.tasks[t].node && Overdue(s.tasks[t], beat.now)
    requires Allowed(Run(s, events), beat) && HeartbeatAccepted(Run(s, events), beat.node, beat.agent)
    ensures var r := Apply(Run(s, events), beat);
      && t in r.tasks && r.tasks[t].status == TaskTimedOut
      && s.tasks[t].instance in r.instances && r.instances[s.tasks[t].instance].actual == InstanceFailed
  {
    InvRun(s, events);
    WaitsForNothing(s, events, t);
    OverdueFailsInstance(Run(s, events), beat, t);
  }
}
