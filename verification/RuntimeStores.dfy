/** The runtime store twice: as maps in memory, which is what callers expect, and as files that
    are only appended to, where the last matching record counts. */
module RuntimeStores {
  import opened Tasks
  import opened PolicyDecisions
  import opened Plans
  import opened PlanJson
  import opened JsonLines

  /** Which values the secret check lets through. */
  datatype Guard = Guard(items: seq<Item> -> bool, tree: Json -> bool)

  // ---------- goals without their budget ----------

  const DEFAULT_BUDGET := Budget(None, None, None, None, None, None, None, Critical)

  function GoalToDict(g: Goal): Result<Json> {
    var j :- SerializeGoal(g);
    Ok(JObject(j.fields - {KBudget}))
  }

  function GoalStatusAt(j: Json): Result<GoalStatus> {
    var name :- TextAt(j, KStatus, Some("created"));
    Known(MemberOf(GOAL_STATUSES, GoalStatusName, name))
  }

  function GoalFromDict(j: Json): Result<Goal> {
    var description :- TextAt(j, KDescription, None);
    var successCriteria :- TextsAt(j, KSuccessCriteria);
    var criteriaItems :- ItemsAt(j, KCriteria);
    var criteria :- All(DeserializeCriterion, criteriaItems);
    var constraints :- TextsAt(j, KConstraints);
    var stopConditions :- TextsAt(j, KStopConditions);
    var priority :- (match Get(j, KPriority) case Some(JInt(i)) => Ok(i) case None => Ok(5) case _ => Err);
    var goalId :- TextAt(j, KGoalId, None);
    var owner :- OptionalText(j, KOwner);
    var deadline :- OptionalReal(j, KDeadline);
    var status :- GoalStatusAt(j);
    Ok(Goal(description, successCriteria, criteria, constraints, stopConditions, priority, goalId, owner, deadline, DEFAULT_BUDGET, status))
  }

  /** The goal as it comes back: with the default budget and lists in place of tuples. */
  function GoalAsStored(g: Goal): Goal { ListedGoal(g).(budget := DEFAULT_BUDGET) }

  lemma WithoutBudget(j: Json)
    requires j.JObject?
    ensures forall key :: key != KBudget ==> Get(JObject(j.fields - {KBudget}), key) == Get(j, key)
  {
  }

  lemma SameTexts(a: Json, b: Json, key: Key)
    requires Get(a, key) == Get(b, key)
    ensures TextsAt(a, key) == TextsAt(b, key)
  {
  }

  lemma SameItems(a: Json, b: Json, key: Key)
    requires Get(a, key) == Get(b, key)
    ensures ItemsAt(a, key) == ItemsAt(b, key)
  {
  }

  lemma SameOptions(a: Json, b: Json, key: Key)
    requires Get(a, key) == Get(b, key)
    ensures OptionalText(a, key) == OptionalText(b, key) && OptionalReal(a, key) == OptionalReal(b, key)
  {
  }

  lemma GoalDictFields(g: Goal, full: Json, j: Json)
    requires SerializeGoal(g) == Ok(full) && j == JObject(full.fields - {KBudget})
    ensures TextAt(j, KDescription, None) == Ok(g.description) && TextAt(j, KGoalId, None) == Ok(g.goalId)
    ensures TextAt(j, KStatus, Some("created")) == Ok(GoalStatusName(g.status)) && Get(j, KPriority) == Some(JInt(g.priority))
    ensures TextsAt(j, KSuccessCriteria) == Ok(g.successCriteria)
    ensures TextsAt(j, KConstraints) == Ok(g.constraints) && TextsAt(j, KStopConditions) == Ok(g.stopConditions)
    ensures OptionalText(j, KOwner) == Ok(g.owner) && OptionalReal(j, KDeadline) == Ok(g.deadline)
    ensures All(SerializeCriterion, g.criteria).Ok? && ItemsAt(j, KCriteria) == Ok(All(SerializeCriterion, g.criteria).value)
    ensures Get(j, KGoalId) == Some(JStr(g.goalId))
  {
    GoalObject(g, full);
    GoalFieldsBack(g, full);
    WithoutBudget(full);
    hide SerializeGoal, Get, TextsAt, OptionalText, OptionalReal, All, SerializeCriterion, GoalStatusName, JTexts, OrNull, ItemsAt;
    SameTexts(j, full, KSuccessCriteria);
    SameTexts(j, full, KConstraints);
    SameTexts(j, full, KStopConditions);
    SameOptions(j, full, KOwner);
    SameOptions(j, full, KDeadline);
    SameItems(j, full, KCriteria);
  }

  lemma GoalDictBack(g: Goal)
    requires ValidGoal(g)
    ensures GoalToDict(g).Ok? <==> ExpressibleGoal(g)
    ensures GoalToDict(g).Ok? ==> IsRecord(GoalToDict(g).value) && IdOf(KGoalId, GoalToDict(g).value) == Some(g.goalId)
    ensures GoalToDict(g).Ok? ==> GoalFromDict(GoalToDict(g).value) == Ok(GoalAsStored(g))
  {
    GoalBack(g);
    if SerializeGoal(g).Ok? {
      GoalDictFields(g, SerializeGoal(g).value, GoalToDict(g).value);
      CriteriaBack(g.criteria);
      GoalStatusBack(g.status);
      hide SerializeGoal, DeserializeGoal, Get, TextsAt, OptionalText, OptionalReal, All, Each, MemberOf, GoalStatusName, ItemsAt, ValidGoal;
    }
  }

  /** The identifier of a record, as the scans compare it. */
  function IdOf(key: Key, j: Json): Option<string> {
    match Get(j, key) case Some(JStr(id)) => Some(id) case _ => None
  }

  // ---------- the two stores as values ----------

  /** Events and checkpoint values are dictionaries with any keys. */
  datatype Maps = Maps(
    goals: map<string, Goal>,
    plans: map<string, Plan>,
    events: seq<seq<Item>>,
    checkpoints: map<string, seq<Item>>)

  datatype Log = Log(goals: seq<Json>, plans: seq<Json>, events: seq<Json>, checkpoints: map<string, seq<JItem>>)

  datatype Save =
    | SaveGoal(goal: Goal)
    | SavePlan(plan: Plan)
    | AppendEvent(event: seq<Item>)
    | SaveCheckpoint(key: string, value: seq<Item>)

  /** In memory, only events and checkpoints are checked for secrets. */
  function SaveInMaps(guard: Guard, m: Maps, save: Save): Result<Maps> {
    match save
    case SaveGoal(g) => Ok(m.(goals := m.goals[g.goalId := g]))
    case SavePlan(p) => Ok(m.(plans := m.plans[p.planId := p]))
    case AppendEvent(e) => if guard.items(e) then Ok(m.(events := m.events + [e])) else Err
    case SaveCheckpoint(key, value) => if guard.items(value) then Ok(m.(checkpoints := m.checkpoints[key := value])) else Err
  }

  function Checked(guard: Guard, j: Json): Result<Json> {
    if guard.tree(j) then Ok(j) else Err
  }

  function SaveInLog(guard: Guard, l: Log, save: Save): Result<Log> {
    match save
    case SaveGoal(g) =>
      var dict :- GoalToDict(g);
      var j :- Checked(guard, dict);
      Ok(l.(goals := l.goals + [j]))
    case SavePlan(p) =>
      var tree :- SerializePlan(p);
      var j :- Checked(guard, tree);
      Ok(l.(plans := l.plans + [j]))
    case AppendEvent(e) =>
      if !guard.items(e) then Err
      else
        var entries :- ToJsonEntries(e);
        Ok(l.(events := l.events + [JDict(entries)]))
    case SaveCheckpoint(key, value) =>
      if !guard.items(value) then Err
      else
        var entries :- ToJsonEntries(value);
        Ok(l.(checkpoints := l.checkpoints[key := entries]))
  }

  /** The last record with the identifier, read; every match before it is read too. */
  function Scan<T>(records: seq<Json>, key: Key, id: string, parse: Json -> Result<T>): Result<Option<T>> {
    if records == [] then Ok(None)
    else
      var n := |records| - 1;
      var before :- Scan(records[..n], key, id, parse);
      if IdOf(key, records[n]) == Some(id) then
        var found :- parse(records[n]);
        Ok(Some(found))
      else Ok(before)
  }

  function Entry(entries: seq<Item>, key: string): Value {
    if entries == [] then Null else if entries[0].key == key then entries[0].value else Entry(entries[1..], key)
  }

  /** The events of a goal, or all of them, in order. */
  function EventsOf(events: seq<seq<Item>>, goalId: Option<string>): seq<seq<Item>> {
    if events == [] then []
    else EventsOf(events[..|events| - 1], goalId)
         + if goalId.None? || Entry(events[|events| - 1], "goal_id") == Str(goalId.value) then [events[|events| - 1]] else []
  }

  function DictOf(j: Json): seq<Item> {
    match j case JDict(entries) => FromJsonEntries(entries) case _ => []
  }

  /** What the queries answer from the log. */
  function LoadGoal(records: seq<Json>, id: string): Result<Option<Goal>> { Scan(records, KGoalId, id, GoalFromDict) }

  function LoadPlan(records: seq<Json>, id: string, now: real): Result<Option<Plan>> {
    Scan(records, KPlanId, id, PlanReader(now))
  }

  function PlanReader(now: real): Json -> Result<Plan> {
    j => DeserializePlan(j, now)
  }

  function ListEvents(records: seq<Json>, goalId: Option<string>): seq<seq<Item>> { EventsOf(Each(DictOf, records), goalId) }

  function LoadCheckpoint(checkpoints: map<string, seq<JItem>>, key: string): Option<seq<Item>> {
    if key in checkpoints then Some(FromJsonEntries(checkpoints[key])) else None
  }

  /** What they answer from the maps, in the form in which things are stored. */
  function GoalIn(goals: map<string, Goal>, id: string): Option<Goal> {
    if id in goals then Some(GoalAsStored(goals[id])) else None
  }

  function PlanIn(plans: map<string, Plan>, id: string, now: real): Option<Plan> {
    if id in plans then Some(Restored(plans[id], now)) else None
  }

  function CheckpointIn(checkpoints: map<string, seq<Item>>, key: string): Option<seq<Item>> {
    if key in checkpoints then Some(ListedEntries(checkpoints[key])) else None
  }

  ghost predicate GoalsAgree(records: seq<Json>, goals: map<string, Goal>) {
    forall id :: LoadGoal(records, id) == Ok(GoalIn(goals, id))
  }

  ghost predicate PlansAgree(records: seq<Json>, plans: map<string, Plan>) {
    forall id, now :: LoadPlan(records, id, now) == Ok(PlanIn(plans, id, now))
  }

  ghost predicate EventsAgree(records: seq<Json>, events: seq<seq<Item>>) {
    forall goalId :: ListEvents(records, goalId) == Each(ListedEntries, EventsOf(events, goalId))
  }

  ghost predicate CheckpointsAgree(a: map<string, seq<JItem>>, b: map<string, seq<Item>>) {
    forall key :: LoadCheckpoint(a, key) == CheckpointIn(b, key)
  }

  /** Every query gives, from the log, what it gives from the maps. */
  ghost predicate Refines(l: Log, m: Maps) {
    && GoalsAgree(l.goals, m.goals) && PlansAgree(l.plans, m.plans)
    && EventsAgree(l.events, m.events) && CheckpointsAgree(l.checkpoints, m.checkpoints)
  }

  // ---------- the log refines the maps ----------

  predicate ValidSave(save: Save) {
    match save
    case SaveGoal(g) => ValidGoal(g)
    case SavePlan(p) => ValidPlan(p)
    case _ => true
  }

  predicate ExpressibleSave(save: Save) {
    match save
    case SaveGoal(g) => ExpressibleGoal(g)
    case SavePlan(p) => ExpressiblePlan(p)
    case AppendEvent(e) => ExpressibleEntries(e)
    case SaveCheckpoint(_, value) => ExpressibleEntries(value)
  }

  /** The log takes what JSON can express and the secret check lets through; the maps take more. */
  lemma AcceptedIff(guard: Guard, l: Log, m: Maps, save: Save)
    requires ValidSave(save)
    ensures SaveInLog(guard, l, save).Ok? ==> SaveInMaps(guard, m, save).Ok?
    ensures (forall j :: guard.tree(j)) ==>
      (SaveInLog(guard, l, save).Ok? <==> SaveInMaps(guard, m, save).Ok? && ExpressibleSave(save))
  {
    match save
    case SaveGoal(g) => GoalDictBack(g);
    case SavePlan(p) => PlanRoundTrip(p, 0.0);
    case AppendEvent(e) => EntriesBack(e);
    case SaveCheckpoint(_, value) => EntriesBack(value);
  }

  lemma ScanAppend<T>(records: seq<Json>, j: Json, key: Key, id: string, parse: Json -> Result<T>)
    ensures Scan(records + [j], key, id, parse) ==
      match Scan(records, key, id, parse)
      case Err => Err
      case Ok(before) =>
        if IdOf(key, j) != Some(id) then Ok(before)
        else match parse(j) case Err => Err case Ok(v) => Ok(Some(v))
  {
    assert (records + [j])[..|records|] == records;
  }

  lemma {:induction false} EachAppend<A, B>(f: A -> B, s: seq<A>, x: A)
    ensures Each(f, s + [x]) == Each(f, s) + [f(x)]
  {
    if s == [] {
      assert [] + [x] == [x] && [x][1..] == [];
    } else {
      assert (s + [x])[1..] == s[1..] + [x];
      EachAppend(f, s[1..], x);
    }
  }

  lemma EventsAppend(events: seq<seq<Item>>, e: seq<Item>, goalId: Option<string>)
    ensures EventsOf(events + [e], goalId)
         == EventsOf(events, goalId) + if goalId.None? || Entry(e, "goal_id") == Str(goalId.value) then [e] else []
  {
    assert (events + [e])[..|events|] == events;
  }

  /** No key comes twice, as in any dictionary. */
  predicate DistinctKeys(e: seq<Item>) {
    forall i, j :: 0 <= i < j < |e| ==> e[i].key != e[j].key
  }

  lemma {:induction false} EntryIs(e: seq<Item>, key: string, id: string)
    requires DistinctKeys(e)
    ensures Entry(e, key) == Str(id) <==> exists i :: 0 <= i < |e| && e[i].key == key && e[i].value == Str(id)
  {
    if e != [] {
      var rest := e[1..];
      assert forall i :: 0 <= i < |rest| ==> rest[i] == e[i + 1];
      EntryIs(rest, key, id);
      if e[0].key == key {
        assert forall i :: 0 < i < |e| ==> e[i].key != key;
      } else {
        assert forall i :: 0 < i < |e| ==> e[i] == rest[i - 1];
        if Entry(rest, key) == Str(id) {
          var i :| 0 <= i < |rest| && rest[i].key == key && rest[i].value == Str(id);
          var n := i + 1;
          assert e[n] == rest[i];
        }
      }
    }
  }

  /** Which events are listed for a goal: one by one, those with an entry "goal_id" of this value. */
  lemma {:induction false} ListedForGoal(events: seq<seq<Item>>, goalId: string, e: seq<Item>)
    requires forall x :: x in events ==> DistinctKeys(x)
    ensures e in EventsOf(events, Some(goalId))
      <==> e in events && exists i :: 0 <= i < |e| && e[i].key == "goal_id" && e[i].value == Str(goalId)
  {
    if events != [] {
      var before, last := events[..|events| - 1], events[|events| - 1];
      assert events == before + [last] && last in events;
      assert forall x :: x in before ==> x in events;
      ListedForGoal(before, goalId, e);
      EntryIs(last, "goal_id", goalId);
      hide Entry;
    }
  }

  /** In the order in which they were appended. */
  lemma ListedInOrder(events: seq<seq<Item>>, goalId: Option<string>, e: seq<Item>)
    requires DistinctKeys(e)
    ensures EventsOf([], goalId) == []
    ensures EventsOf(events + [e], goalId) == EventsOf(events, goalId)
      + if goalId.None? || exists i :: 0 <= i < |e| && e[i].key == "goal_id" && e[i].value == Str(goalId.value) then [e] else []
  {
    EventsAppend(events, e, goalId);
    if goalId.Some? {
      EntryIs(e, "goal_id", goalId.value);
    }
    hide Entry, EventsOf;
  }

  lemma {:induction false} EntryListed(e: seq<Item>, key: string)
    ensures Entry(ListedEntries(e), key) == Listed(Entry(e, key))
    decreases e
  {
    if e != [] && e[0].key != key {
      EntryListed(e[1..], key);
      assert ListedEntries(e)[1..] == ListedEntries(e[1..]);
    }
  }

  lemma GoalSaved(records: seq<Json>, goals: map<string, Goal>, g: Goal, j: Json, id: string)
    requires ValidGoal(g) && GoalToDict(g) == Ok(j) && LoadGoal(records, id) == Ok(GoalIn(goals, id))
    ensures LoadGoal(records + [j], id) == Ok(GoalIn(goals[g.goalId := g], id))
  {
    GoalDictBack(g);
    ScanAppend(records, j, KGoalId, id, GoalFromDict);
    hide GoalToDict, GoalFromDict, GoalAsStored, Scan;
  }

  lemma PlanSaved(records: seq<Json>, plans: map<string, Plan>, p: Plan, j: Json, id: string, now: real)
    requires ValidPlan(p) && SerializePlan(p) == Ok(j) && LoadPlan(records, id, now) == Ok(PlanIn(plans, id, now))
    ensures LoadPlan(records + [j], id, now) == Ok(PlanIn(plans[p.planId := p], id, now))
  {
    PlanRoundTrip(p, now);
    assert IdOf(KPlanId, j) == Some(p.planId);
    ScanPlanAppend(records, j, id, now);
    hide SerializePlan, DeserializePlan, Restored, LoadPlan, IdOf;
  }

  lemma ScanPlanAppend(records: seq<Json>, j: Json, id: string, now: real)
    requires LoadPlan(records, id, now).Ok?
    ensures IdOf(KPlanId, j) != Some(id) ==> LoadPlan(records + [j], id, now) == LoadPlan(records, id, now)
    ensures IdOf(KPlanId, j) == Some(id) && DeserializePlan(j, now).Ok? ==>
      LoadPlan(records + [j], id, now) == Ok(Some(DeserializePlan(j, now).value))
  {
    assert (records + [j])[..|records|] == records;
    hide DeserializePlan, IdOf;
  }

  lemma EventSaved(records: seq<Json>, events: seq<seq<Item>>, e: seq<Item>, entries: seq<JItem>, goalId: Option<string>)
    requires ToJsonEntries(e) == Ok(entries)
    requires ListEvents(records, goalId) == Each(ListedEntries, EventsOf(events, goalId))
    ensures ListEvents(records + [JDict(entries)], goalId) == Each(ListedEntries, EventsOf(events + [e], goalId))
  {
    EntriesBack(e);
    assert DictOf(JDict(entries)) == ListedEntries(e);
    EntryListed(e, "goal_id");
    hide ToJsonEntries, FromJsonEntries, ListedEntries, EventsOf, Each, DictOf, Entry;
    EachAppend(DictOf, records, JDict(entries));
    EventsAppend(events, e, goalId);
    EventsAppend(Each(DictOf, records), ListedEntries(e), goalId);
    if goalId.None? || Entry(e, "goal_id") == Str(goalId.value) {
      EachAppend(ListedEntries, EventsOf(events, goalId), e);
    } else {
      assert EventsOf(events, goalId) + [] == EventsOf(events, goalId);
      assert ListEvents(records, goalId) + [] == ListEvents(records, goalId);
    }
  }

  lemma CheckpointSaved(a: map<string, seq<JItem>>, b: map<string, seq<Item>>, key: string, value: seq<Item>, entries: seq<JItem>)
    requires ToJsonEntries(value) == Ok(entries) && CheckpointsAgree(a, b)
    ensures CheckpointsAgree(a[key := entries], b[key := value])
  {
    EntriesBack(value);
    var a1, b1 := a[key := entries], b[key := value];
    forall other
      ensures LoadCheckpoint(a1, other) == CheckpointIn(b1, other)
    {
      assert LoadCheckpoint(a, other) == CheckpointIn(b, other);
    }
  }

  /** A save that the log accepts, the maps accept too, and the two still agree. */
  lemma SaveKeepsRefinement(guard: Guard, l: Log, m: Maps, save: Save)
    requires ValidSave(save) && Refines(l, m) && SaveInLog(guard, l, save).Ok?
    ensures SaveInMaps(guard, m, save).Ok?
    ensures Refines(SaveInLog(guard, l, save).value, SaveInMaps(guard, m, save).value)
  {
    match save
    case SaveGoal(g) =>
      forall id: string
        ensures LoadGoal(l.goals + [GoalToDict(g).value], id) == Ok(GoalIn(m.goals[g.goalId := g], id))
      {
        GoalSaved(l.goals, m.goals, g, GoalToDict(g).value, id);
      }
    case SavePlan(p) =>
      forall id: string, now: real
        ensures LoadPlan(l.plans + [SerializePlan(p).value], id, now) == Ok(PlanIn(m.plans[p.planId := p], id, now))
      {
        PlanSaved(l.plans, m.plans, p, SerializePlan(p).value, id, now);
      }
    case AppendEvent(e) =>
      forall goalId: Option<string>
        ensures ListEvents(l.events + [JDict(ToJsonEntries(e).value)], goalId) == Each(ListedEntries, EventsOf(m.events + [e], goalId))
      {
        EventSaved(l.events, m.events, e, ToJsonEntries(e).value, goalId);
      }
    case SaveCheckpoint(key, value) =>
      CheckpointSaved(l.checkpoints, m.checkpoints, key, value, ToJsonEntries(value).value);
    hide LoadGoal, LoadPlan, ListEvents, GoalIn, PlanIn, EventsOf, Each, GoalToDict, SerializePlan, ToJsonEntries;
  }

  // ---------- whole runs ----------

  const NO_MAPS := Maps(map[], map[], [], map[])

  const NO_LOG := Log([], [], [], map[])

  function RunMaps(guard: Guard, saves: seq<Save>): Result<Maps> {
    if saves == [] then Ok(NO_MAPS)
    else
      var before :- RunMaps(guard, saves[..|saves| - 1]);
      SaveInMaps(guard, before, saves[|saves| - 1])
  }

  function RunLog(guard: Guard, saves: seq<Save>): Result<Log> {
    if saves == [] then Ok(NO_LOG)
    else
      var before :- RunLog(guard, saves[..|saves| - 1]);
      SaveInLog(guard, before, saves[|saves| - 1])
  }

  /** After any run of saves that the log accepts, it answers every query as the maps do. */
  lemma {:induction false} LogRefinesMaps(guard: Guard, saves: seq<Save>)
    requires (forall i :: 0 <= i < |saves| ==> ValidSave(saves[i])) && RunLog(guard, saves).Ok?
    ensures RunMaps(guard, saves).Ok? && Refines(RunLog(guard, saves).value, RunMaps(guard, saves).value)
  {
    if saves != [] {
      var before := saves[..|saves| - 1];
      LogRefinesMaps(guard, before);
      SaveKeepsRefinement(guard, RunLog(guard, before).value, RunMaps(guard, before).value, saves[|saves| - 1]);
      hide SaveInLog, SaveInMaps, Refines, ValidSave;
    } else {
      assert Refines(NO_LOG, NO_MAPS);
    }
  }

  // ---------- runs with refusals ----------

  /** What the maps hold under a save's own name, in stored form. */
  function Held(m: Maps, save: Save): bool {
    match save
    case SaveGoal(g) => g.goalId in m.goals && GoalAsStored(m.goals[g.goalId]) == GoalAsStored(g)
    case SavePlan(p) => p.planId in m.plans && Restored(m.plans[p.planId], 0.0) == Restored(p, 0.0)
    case AppendEvent(_) => false
    case SaveCheckpoint(key, value) => key in m.checkpoints && ListedEntries(m.checkpoints[key]) == ListedEntries(value)
  }

  /** A caller that goes on after a refusal finds the store as it was. */
  function GoOn<S>(was: S, r: Result<S>): S {
    if r.Ok? then r.value else was
  }

  lemma GoalHeldIff(records: seq<Json>, goals: map<string, Goal>, g: Goal)
    requires GoalsAgree(records, goals)
    ensures GoalsAgree(records, goals[g.goalId := g]) <==> g.goalId in goals && GoalAsStored(goals[g.goalId]) == GoalAsStored(g)
  {
    var goals1 := goals[g.goalId := g];
    assert LoadGoal(records, g.goalId) == Ok(GoalIn(goals, g.goalId));
    if g.goalId in goals && GoalAsStored(goals[g.goalId]) == GoalAsStored(g) {
      forall id
        ensures LoadGoal(records, id) == Ok(GoalIn(goals1, id))
      {
        assert LoadGoal(records, id) == Ok(GoalIn(goals, id));
      }
    } else {
      assert GoalIn(goals1, g.goalId) != GoalIn(goals, g.goalId);
    }
  }

  lemma RestoredAtAnyTime(p: Plan, q: Plan, t: real, u: real)
    ensures Restored(p, t) == Restored(q, t) <==> Restored(p, u) == Restored(q, u)
  {
  }

  lemma PlanHeldIff(records: seq<Json>, plans: map<string, Plan>, p: Plan)
    requires PlansAgree(records, plans)
    ensures PlansAgree(records, plans[p.planId := p])
       <==> p.planId in plans && Restored(plans[p.planId], 0.0) == Restored(p, 0.0)
  {
    var plans1 := plans[p.planId := p];
    assert LoadPlan(records, p.planId, 0.0) == Ok(PlanIn(plans, p.planId, 0.0));
    if p.planId in plans && Restored(plans[p.planId], 0.0) == Restored(p, 0.0) {
      forall id, now
        ensures LoadPlan(records, id, now) == Ok(PlanIn(plans1, id, now))
      {
        assert LoadPlan(records, id, now) == Ok(PlanIn(plans, id, now));
        RestoredAtAnyTime(plans[p.planId], p, 0.0, now);
      }
    } else {
      assert PlanIn(plans1, p.planId, 0.0) != PlanIn(plans, p.planId, 0.0);
    }
  }

  lemma CheckpointHeldIff(a: map<string, seq<JItem>>, b: map<string, seq<Item>>, key: string, value: seq<Item>)
    requires CheckpointsAgree(a, b)
    ensures CheckpointsAgree(a, b[key := value]) <==> key in b && ListedEntries(b[key]) == ListedEntries(value)
  {
    var b1 := b[key := value];
    assert LoadCheckpoint(a, key) == CheckpointIn(b, key);
    if key in b && ListedEntries(b[key]) == ListedEntries(value) {
      forall other
        ensures LoadCheckpoint(a, other) == CheckpointIn(b1, other)
      {
        assert LoadCheckpoint(a, other) == CheckpointIn(b, other);
      }
    } else {
      assert CheckpointIn(b1, key) != CheckpointIn(b, key);
    }
  }

  lemma {:induction false} AllEvents(events: seq<seq<Item>>)
    ensures EventsOf(events, None) == events
  {
    if events != [] {
      AllEvents(events[..|events| - 1]);
      assert events == events[..|events| - 1] + [events[|events| - 1]];
    }
  }

  lemma {:induction false} EachLength<A, B>(f: A -> B, s: seq<A>)
    ensures |Each(f, s)| == |s|
  {
    if s != [] {
      EachLength(f, s[1..]);
    }
  }

  lemma EventIsSeen(records: seq<Json>, events: seq<seq<Item>>, e: seq<Item>)
    requires EventsAgree(records, events)
    ensures !EventsAgree(records, events + [e])
  {
    AllEvents(events);
    AllEvents(events + [e]);
    EachLength(ListedEntries, events);
    EachLength(ListedEntries, events + [e]);
    assert ListEvents(records, None) == Each(ListedEntries, EventsOf(events, None));
    assert |ListEvents(records, None)| == |events|;
  }

  /** When the log refuses a save and the caller goes on, the stores still agree iff the maps
      refuse it too or already hold the same under its name. */
  lemma RefusalAgreesIff(guard: Guard, l: Log, m: Maps, save: Save)
    requires Refines(l, m) && SaveInLog(guard, l, save).Err?
    ensures Refines(l, GoOn(m, SaveInMaps(guard, m, save))) <==> SaveInMaps(guard, m, save).Err? || Held(m, save)
  {
    match save
    case SaveGoal(g) => GoalHeldIff(l.goals, m.goals, g);
    case SavePlan(p) => PlanHeldIff(l.plans, m.plans, p);
    case AppendEvent(e) => EventIsSeen(l.events, m.events, e);
    case SaveCheckpoint(key, value) => CheckpointHeldIff(l.checkpoints, m.checkpoints, key, value);
    hide GoalsAgree, PlansAgree, EventsAgree, CheckpointsAgree, SaveInLog, GoalAsStored, Restored, ListedEntries;
  }

  function RunMapsOn(guard: Guard, saves: seq<Save>): Maps {
    if saves == [] then NO_MAPS
    else var m := RunMapsOn(guard, saves[..|saves| - 1]); GoOn(m, SaveInMaps(guard, m, saves[|saves| - 1]))
  }

  function RunLogOn(guard: Guard, saves: seq<Save>): Log {
    if saves == [] then NO_LOG
    else var l := RunLogOn(guard, saves[..|saves| - 1]); GoOn(l, SaveInLog(guard, l, saves[|saves| - 1]))
  }

  /** The stores agreed after every save of the run. */
  ghost predicate AlwaysRefines(guard: Guard, saves: seq<Save>) {
    Refines(RunLogOn(guard, saves), RunMapsOn(guard, saves)) && (saves == [] || AlwaysRefines(guard, saves[..|saves| - 1]))
  }

  /** No save was taken by the maps and refused by the log, unless the maps held the same. */
  predicate RefusalsHarmless(guard: Guard, saves: seq<Save>) {
    saves == []
    || (var before, save := saves[..|saves| - 1], saves[|saves| - 1];
        var m := RunMapsOn(guard, before);
        && RefusalsHarmless(guard, before)
        && (SaveInLog(guard, RunLogOn(guard, before), save).Ok? || SaveInMaps(guard, m, save).Err? || Held(m, save)))
  }

  /** In runs whose callers go on after refusals, the stores agree all along iff every refusal was
      harmless. */
  lemma {:induction false} AlwaysRefinesIff(guard: Guard, saves: seq<Save>)
    requires forall i :: 0 <= i < |saves| ==> ValidSave(saves[i])
    ensures AlwaysRefines(guard, saves) <==> RefusalsHarmless(guard, saves)
  {
    hide Refines, SaveInLog, SaveInMaps, Held, ValidSave;
    if saves == [] {
      NothingRefinesNothing();
    } else {
      var before, save := saves[..|saves| - 1], saves[|saves| - 1];
      var l, m := RunLogOn(guard, before), RunMapsOn(guard, before);
      AlwaysRefinesIff(guard, before);
      if AlwaysRefines(guard, before) {
        if SaveInLog(guard, l, save).Ok? {
          SaveKeepsRefinement(guard, l, m, save);
        } else {
          RefusalAgreesIff(guard, l, m, save);
        }
      }
    }
  }

  lemma NothingRefinesNothing()
    ensures Refines(NO_LOG, NO_MAPS)
  {
  }
}
