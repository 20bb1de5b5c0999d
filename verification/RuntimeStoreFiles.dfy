/** The two runtime stores as they run. The file store keeps text; a ghost field says which
    records the text was written from. */
module RuntimeStoreFiles {
  import opened Tasks
  import opened Plans
  import opened PlanJson
  import opened JsonLines
  import S = RuntimeStores

  class InMemoryRuntimeStore {
    const guard: S.Guard
    var goals: map<string, Goal>
    var plans: map<string, Plan>
    var events: seq<seq<Item>>
    var checkpoints: map<string, seq<Item>>

    ghost function State(): S.Maps
      reads this
    {
      S.Maps(goals, plans, events, checkpoints)
    }

    constructor (guard: S.Guard)
      ensures State() == S.NO_MAPS && this.guard == guard
    {
      this.guard := guard;
      goals, plans, events, checkpoints := map[], map[], [], map[];
    }

    method SaveGoal(goal: Goal)
      modifies this`goals
      ensures Ok(State()) == S.SaveInMaps(guard, old(State()), S.SaveGoal(goal))
    {
      goals := goals[goal.goalId := goal];
    }

    method SavePlan(plan: Plan)
      modifies this`plans
      ensures Ok(State()) == S.SaveInMaps(guard, old(State()), S.SavePlan(plan))
    {
      plans := plans[plan.planId := plan];
    }

    method AppendRuntimeEvent(event: seq<Item>) returns (ok: bool)
      modifies this`events
      ensures S.SaveInMaps(guard, old(State()), S.AppendEvent(event)) == if ok then Ok(State()) else Err
      ensures !ok ==> State() == old(State())
    {
      ok := guard.items(event);
      if ok {
        events := events + [event];
      }
    }

    method SaveCheckpoint(key: string, value: seq<Item>) returns (ok: bool)
      modifies this`checkpoints
      ensures S.SaveInMaps(guard, old(State()), S.SaveCheckpoint(key, value)) == if ok then Ok(State()) else Err
      ensures !ok ==> State() == old(State())
    {
      ok := guard.items(value);
      if ok {
        checkpoints := checkpoints[key := value];
      }
    }

    method ListRuntimeEvents(goalId: Option<string>) returns (found: seq<seq<Item>>)
      ensures found == S.EventsOf(events, goalId)
      ensures goalId == None ==> found == events
      ensures goalId != None && (forall e :: e in events ==> S.DistinctKeys(e)) ==>
        forall e: seq<Item> :: e in found <==> e in events && exists i :: 0 <= i < |e| && e[i].key == "goal_id" && e[i].value == Str(goalId.value)
    {
      found := SelectEvents(events, goalId);
    }
  }

  method SelectEvents(events: seq<seq<Item>>, goalId: Option<string>) returns (found: seq<seq<Item>>)
    ensures found == S.EventsOf(events, goalId)
    ensures goalId == None ==> found == events
    ensures goalId != None && (forall e :: e in events ==> S.DistinctKeys(e)) ==>
      forall e: seq<Item> :: e in found <==> e in events && exists i :: 0 <= i < |e| && e[i].key == "goal_id" && e[i].value == Str(goalId.value)
  {
    found := [];
    for i := 0 to |events|
      invariant found == S.EventsOf(events[..i], goalId)
    {
      assert events[..i + 1][..i] == events[..i];
      if goalId.None? || S.Entry(events[i], "goal_id") == Str(goalId.value) {
        found := found + [events[i]];
      }
    }
    assert events[..|events|] == events;
    if goalId.None? {
      S.AllEvents(events);
    } else if forall e :: e in events ==> S.DistinctKeys(e) {
      forall e: seq<Item>
        ensures e in found <==> e in events && exists i :: 0 <= i < |e| && e[i].key == "goal_id" && e[i].value == Str(goalId.value)
      {
        S.ListedForGoal(events, goalId.value, e);
      }
    }
    hide S.EventsOf;
  }

  /** One encoder writes all three files; what a text is read as depends on the file it is in. */
  class JsonlRuntimeStore {
    const goalsCodec: Codec
    const plansCodec: Codec
    const eventsCodec: Codec
    const guard: S.Guard
    var goalsText: string
    var plansText: string
    var eventsText: string
    var checkpoints: map<string, seq<JItem>>
    ghost var log: S.Log

    ghost predicate Valid()
      reads this
    {
      && goalsText == Written(goalsCodec, log.goals) && plansText == Written(plansCodec, log.plans)
      && eventsText == Written(eventsCodec, log.events) && checkpoints == log.checkpoints
      && (forall j :: j in log.goals ==> IsRecord(j)) && (forall j :: j in log.plans ==> IsRecord(j))
      && (forall j :: j in log.events ==> IsRecord(j))
    }

    constructor (goalsCodec: Codec, plansCodec: Codec, eventsCodec: Codec, guard: S.Guard)
      ensures Valid() && log == S.NO_LOG && this.guard == guard
      ensures this.goalsCodec == goalsCodec && this.plansCodec == plansCodec && this.eventsCodec == eventsCodec
    {
      this.goalsCodec, this.plansCodec, this.eventsCodec, this.guard := goalsCodec, plansCodec, eventsCodec, guard;
      goalsText, plansText, eventsText, checkpoints := "", "", "", map[];
      log := S.NO_LOG;
    }

    method SaveGoal(goal: Goal) returns (ok: bool)
      requires Valid()
      modifies this`goalsText, this`log
      ensures Valid() && (!ok ==> log == old(log))
      ensures S.SaveInLog(guard, old(log), S.SaveGoal(goal)) == if ok then Ok(log) else Err
    {
      var dict := S.GoalToDict(goal);
      if dict.Err? || !guard.tree(dict.value) {
        return false;
      }
      WrittenAppend(goalsCodec, log.goals, dict.value);
      goalsText := goalsText + (goalsCodec.dump(dict.value) + "\n");
      log := log.(goals := log.goals + [dict.value]);
      return true;
    }

    method SavePlan(plan: Plan) returns (ok: bool)
      requires Valid()
      modifies this`plansText, this`log
      ensures Valid() && (!ok ==> log == old(log))
      ensures S.SaveInLog(guard, old(log), S.SavePlan(plan)) == if ok then Ok(log) else Err
    {
      var tree := SerializePlan(plan);
      if tree.Err? || !guard.tree(tree.value) {
        return false;
      }
      WrittenAppend(plansCodec, log.plans, tree.value);
      plansText := plansText + (plansCodec.dump(tree.value) + "\n");
      log := log.(plans := log.plans + [tree.value]);
      return true;
    }

    method AppendRuntimeEvent(event: seq<Item>) returns (ok: bool)
      requires Valid()
      modifies this`eventsText, this`log
      ensures Valid() && (!ok ==> log == old(log))
      ensures S.SaveInLog(guard, old(log), S.AppendEvent(event)) == if ok then Ok(log) else Err
    {
      var entries := ToJsonEntries(event);
      if !guard.items(event) || entries.Err? {
        return false;
      }
      var record := JDict(entries.value);
      WrittenAppend(eventsCodec, log.events, record);
      eventsText := eventsText + (eventsCodec.dump(record) + "\n");
      log := log.(events := log.events + [record]);
      return true;
    }

    method SaveCheckpoint(key: string, value: seq<Item>) returns (ok: bool)
      requires Valid()
      modifies this`checkpoints, this`log
      ensures Valid() && (!ok ==> log == old(log))
      ensures S.SaveInLog(guard, old(log), S.SaveCheckpoint(key, value)) == if ok then Ok(log) else Err
    {
      var entries := ToJsonEntries(value);
      if !guard.items(value) || entries.Err? {
        return false;
      }
      checkpoints := checkpoints[key := entries.value];
      log := log.(checkpoints := checkpoints);
      return true;
    }

    method LoadGoal(id: string) returns (goal: Result<Option<Goal>>)
      requires Valid()
      ensures goal == match Read(goalsCodec, goalsText) case None => Err case Some(records) => S.LoadGoal(records, id)
      ensures AllFaithful(goalsCodec, log.goals) ==>
        goal == if AllBreakFree(goalsCodec, log.goals) then S.LoadGoal(log.goals, id) else Err
    {
      Recalls(goalsCodec, goalsText, log.goals);
      hide Read, Written, AllFaithful, AllBreakFree;
      var records := ReadJsonl(goalsCodec, goalsText);
      if records.None? {
        return Err;
      }
      goal := LastGoal(records.value, id);
    }

    method LoadPlan(id: string, now: real) returns (plan: Result<Option<Plan>>)
      requires Valid()
      ensures plan == match Read(plansCodec, plansText) case None => Err case Some(records) => S.LoadPlan(records, id, now)
      ensures AllFaithful(plansCodec, log.plans) ==>
        plan == if AllBreakFree(plansCodec, log.plans) then S.LoadPlan(log.plans, id, now) else Err
    {
      Recalls(plansCodec, plansText, log.plans);
      hide Read, Written, AllFaithful, AllBreakFree;
      var records := ReadJsonl(plansCodec, plansText);
      if records.None? {
        return Err;
      }
      plan := LastPlan(records.value, id, now);
    }

    /** The events that the file holds, or an error if one of them has a line separator in it. */
    method ListRuntimeEvents(goalId: Option<string>) returns (events: Option<seq<seq<Item>>>)
      requires Valid()
      ensures events == match Read(eventsCodec, eventsText) case None => None case Some(records) => Some(S.ListEvents(records, goalId))
      ensures AllFaithful(eventsCodec, log.events) ==>
        events == if AllBreakFree(eventsCodec, log.events) then Some(S.ListEvents(log.events, goalId)) else None
    {
      Recalls(eventsCodec, eventsText, log.events);
      hide Read, Written, AllFaithful, AllBreakFree;
      var records := ReadJsonl(eventsCodec, eventsText);
      if records.None? {
        return None;
      }
      var found := SelectEvents(Each(S.DictOf, records.value), goalId);
      return Some(found);
    }
  }

  /** None where the source raises. */
  method ReadJsonl(codec: Codec, text: string) returns (records: Option<seq<Json>>)
    ensures records == Read(codec, text)
  {
    var lines := SplitLines(text);
    var found: seq<Json> := [];
    assert lines[0..] == lines;
    for i := 0 to |lines|
      invariant ReadLines(codec, lines) == Prefixed(found, ReadLines(codec, lines[i..]))
    {
      assert lines[i..][0] == lines[i] && lines[i..][1..] == lines[i + 1..];
      if Blank(lines[i]) {
        continue;
      }
      var record := codec.load(lines[i]);
      if record.None? || !IsRecord(record.value) {
        return None;
      }
      if ReadLines(codec, lines[i + 1..]).Some? {
        Regrouped(found, record.value, ReadLines(codec, lines[i + 1..]));
      }
      found := found + [record.value];
    }
    assert found + [] == found;
    return Some(found);
  }

  /** The last match counts, but every match is parsed. */
  method LastGoal(records: seq<Json>, id: string) returns (goal: Result<Option<Goal>>)
    ensures goal == S.LoadGoal(records, id)
  {
    var found: Option<Goal> := None;
    for i := 0 to |records|
      invariant S.LoadGoal(records[..i], id) == Ok(found)
    {
      assert records[..i + 1][..i] == records[..i];
      if S.IdOf(KGoalId, records[i]) == Some(id) {
        var parsed := S.GoalFromDict(records[i]);
        if parsed.Err? {
          ScanStops(records, KGoalId, id, S.GoalFromDict, i);
          return Err;
        }
        found := Some(parsed.value);
      }
    }
    assert records[..|records|] == records;
    return Ok(found);
  }

  method LastPlan(records: seq<Json>, id: string, now: real) returns (plan: Result<Option<Plan>>)
    ensures plan == S.LoadPlan(records, id, now)
  {
    var found: Option<Plan> := None;
    for i := 0 to |records|
      invariant S.LoadPlan(records[..i], id, now) == Ok(found)
    {
      assert records[..i + 1][..i] == records[..i];
      if S.IdOf(KPlanId, records[i]) == Some(id) {
        var parsed := DeserializePlan(records[i], now);
        if parsed.Err? {
          ScanStops(records, KPlanId, id, S.PlanReader(now), i);
          return Err;
        }
        found := Some(parsed.value);
      }
    }
    assert records[..|records|] == records;
    return Ok(found);
  }

  lemma Recalls(codec: Codec, text: string, records: seq<Json>)
    requires text == Written(codec, records) && forall j :: j in records ==> IsRecord(j)
    ensures AllFaithful(codec, records) ==> Read(codec, text) == if AllBreakFree(codec, records) then Some(records) else None
  {
    if AllFaithful(codec, records) {
      ReadBackIff(codec, records);
    }
  }

  lemma Regrouped(found: seq<Json>, j: Json, rest: Option<seq<Json>>)
    requires rest.Some?
    ensures Prefixed(found, Some([j] + rest.value)) == Prefixed(found + [j], rest)
  {
    assert found + ([j] + rest.value) == found + [j] + rest.value;
  }

  /** A match that cannot be parsed ends the scan, whatever follows. */
  lemma {:induction false} ScanStops<T>(records: seq<Json>, key: Key, id: string, parse: Json -> Result<T>, i: nat)
    requires i < |records| && S.IdOf(key, records[i]) == Some(id) && parse(records[i]).Err?
    ensures S.Scan(records, key, id, parse).Err?
  {
    var n := |records| - 1;
    if i < n {
      ScanStops(records[..n], key, id, parse, i);
    }
  }
}
