/** The persistent memory store: a list of records, an index of it by key, and a file. */
module MemoryStores {
  import opened Tasks

  datatype MemoryType = Preference | Fact | Procedure | Failure | PolicyNote | Hypothesis | SecretRef

  datatype Sensitivity = Public | Internal | Sensitive | SecretValue

  datatype MemoryRecord = MemoryRecord(
    key: string,
    value: string,
    confidence: real,
    memoryType: MemoryType,
    sensitivity: Sensitivity,
    scope: string,
    ttl: Option<real>,
    createdAt: real)

  /** What the record's constructor accepts; it raises on everything else. */
  predicate Accepted(r: MemoryRecord) {
    && 0.0 <= r.confidence <= 1.0
    && (r.ttl.Some? ==> r.ttl.value >= 0.0)
    && (r.sensitivity == SecretValue ==> r.memoryType == SecretRef)
  }

  predicate Expired(r: MemoryRecord, now: real) {
    r.ttl.Some? && now >= r.createdAt + r.ttl.value
  }

  /** What a caller asks for; `asOf` is None when expired records are wanted too. */
  datatype Query = Query(key: string, scope: Option<string>, memoryType: Option<MemoryType>, asOf: Option<real>)

  predicate Matches(r: MemoryRecord, q: Query) {
    && r.key == q.key
    && (q.scope.Some? ==> r.scope == q.scope.value)
    && (q.memoryType.Some? ==> r.memoryType == q.memoryType.value)
    && (q.asOf.Some? ==> !Expired(r, q.asOf.value))
  }

  // ---------- the list, filtered ----------

  /** The matching records, in order. */
  function Filter(items: seq<MemoryRecord>, q: Query): (r: seq<MemoryRecord>)
    ensures forall x :: x in r <==> x in items && Matches(x, q)
  {
    if items == [] then []
    else
      var n := |items| - 1;
      assert items == items[..n] + [items[n]];
      Filter(items[..n], q) + if Matches(items[n], q) then [items[n]] else []
  }

  function KeyQuery(key: string): Query { Query(key, None, None, None) }

  lemma {:induction false} FilterTwice(items: seq<MemoryRecord>, q: Query)
    ensures Filter(Filter(items, KeyQuery(q.key)), q) == Filter(items, q)
  {
    if items != [] {
      var n := |items| - 1;
      FilterTwice(items[..n], q);
      FilterAppend(Filter(items[..n], KeyQuery(q.key)), items[n], q);
    }
  }

  lemma FilterAppend(items: seq<MemoryRecord>, r: MemoryRecord, q: Query)
    ensures Filter(items + [r], q) == Filter(items, q) + if Matches(r, q) then [r] else []
    ensures items + [] == items
  {
    assert (items + [r])[..|items|] == items;
  }

  /** Matching records are found in the order of the list: those of the key, the scope and the type
      asked for that have not expired. */
  lemma {:induction false} FoundInOrder(items: seq<MemoryRecord>, r: MemoryRecord, q: Query)
    ensures Filter([], q) == []
    ensures Filter(items + [r], q) == Filter(items, q) +
      if r.key == q.key && (q.scope == None || r.scope == q.scope.value) && (q.memoryType == None || r.memoryType == q.memoryType.value)
         && (q.asOf == None || r.ttl == None || q.asOf.value < r.createdAt + r.ttl.value) then [r] else []
  {
    assert Filter([], q) == [];
    FilterAppend(items, r, q);
    hide Filter;
  }

  // ---------- purging ----------

  /** The records that purging keeps; `clock(i)` is the reading taken for record `i`. */
  function Kept(items: seq<MemoryRecord>, clock: nat -> real): seq<MemoryRecord> {
    if items == [] then []
    else
      var n := |items| - 1;
      Kept(items[..n], clock) + if Expired(items[n], clock(n)) then [] else [items[n]]
  }

  /** Purging keeps, in order, the records that have no time to live or have not reached it. */
  lemma {:induction false} KeptInOrder(items: seq<MemoryRecord>, r: MemoryRecord, clock: nat -> real)
    ensures Kept([], clock) == []
    ensures Kept(items + [r], clock)
      == Kept(items, clock) + if r.ttl == None || clock(|items|) < r.createdAt + r.ttl.value then [r] else []
  {
    assert (items + [r])[..|items|] == items;
  }

  lemma {:induction false} KeptHas(items: seq<MemoryRecord>, clock: nat -> real)
    ensures forall i :: 0 <= i < |items| && !Expired(items[i], clock(i)) ==> items[i] in Kept(items, clock)
    ensures forall r :: r in Kept(items, clock) ==> exists i :: 0 <= i < |items| && items[i] == r && !Expired(r, clock(i))
  {
    if items != [] {
      var n := |items| - 1;
      KeptHas(items[..n], clock);
      forall r | r in Kept(items, clock)
        ensures exists i :: 0 <= i < |items| && items[i] == r && !Expired(r, clock(i))
      {
        if r in Kept(items[..n], clock) {
          var i :| 0 <= i < n && items[..n][i] == r && !Expired(r, clock(i));
          assert items[i] == r;
        } else {
          assert items[n] == r;
        }
      }
      forall i | 0 <= i < |items| && !Expired(items[i], clock(i))
        ensures items[i] in Kept(items, clock)
      {
        assert i < n ==> items[..n][i] == items[i];
      }
    }
  }

  ghost predicate LosesMatch(items: seq<MemoryRecord>, clock: nat -> real, q: Query) {
    exists i :: 0 <= i < |items| && Expired(items[i], clock(i)) && Matches(items[i], q)
  }

  lemma LosesMatchStep(items: seq<MemoryRecord>, clock: nat -> real, q: Query)
    requires items != []
    ensures var n := |items| - 1;
      LosesMatch(items, clock, q) <==> LosesMatch(items[..n], clock, q) || (Expired(items[n], clock(n)) && Matches(items[n], q))
  {
    var n := |items| - 1;
    if LosesMatch(items, clock, q) {
      var i :| 0 <= i < |items| && Expired(items[i], clock(i)) && Matches(items[i], q);
      assert i < n ==> items[..n][i] == items[i];
    }
    if LosesMatch(items[..n], clock, q) {
      var i :| 0 <= i < n && Expired(items[..n][i], clock(i)) && Matches(items[..n][i], q);
      assert items[i] == items[..n][i];
    }
  }

  /** Purging leaves a query's answer alone iff none of the records it removes is in it. */
  lemma {:induction false} PurgeIsSeenIff(items: seq<MemoryRecord>, clock: nat -> real, q: Query)
    ensures |Filter(Kept(items, clock), q)| <= |Filter(items, q)|
    ensures Filter(Kept(items, clock), q) == Filter(items, q) <==> !LosesMatch(items, clock, q)
    ensures LosesMatch(items, clock, q) ==> |Filter(Kept(items, clock), q)| < |Filter(items, q)|
  {
    if items != [] {
      var n := |items| - 1;
      PurgeIsSeenIff(items[..n], clock, q);
      LosesMatchStep(items, clock, q);
      FilterAppend(Kept(items[..n], clock), items[n], q);
    }
  }

  // ---------- whole runs ----------

  datatype MemoryOp = Remember(record: MemoryRecord) | Purge(clock: nat -> real)

  function Apply(items: seq<MemoryRecord>, op: MemoryOp): seq<MemoryRecord> {
    match op
    case Remember(r) => if Accepted(r) then items + [r] else items
    case Purge(clock) => Kept(items, clock)
  }

  function Run(ops: seq<MemoryOp>): seq<MemoryRecord> {
    if ops == [] then [] else Apply(Run(ops[..|ops| - 1]), ops[|ops| - 1])
  }

  /** Everything ever remembered, purged or not. */
  function Remembered(ops: seq<MemoryOp>): seq<MemoryRecord> {
    if ops == [] then []
    else Remembered(ops[..|ops| - 1])
         + if ops[|ops| - 1].Remember? && Accepted(ops[|ops| - 1].record) then [ops[|ops| - 1].record] else []
  }

  /** Every clock reading of the run's purges was taken by `now`. */
  ghost predicate PurgedBy(ops: seq<MemoryOp>, now: real) {
    forall i, k: nat :: 0 <= i < |ops| && ops[i].Purge? ==> ops[i].clock(k) <= now
  }

  /** Purging is invisible to recall: at any time from the last purge on, asking for what has
      not expired gives what a store that never purges would give. */
  lemma {:induction false} RecallForgetsNothing(ops: seq<MemoryOp>, q: Query)
    requires q.asOf.Some? && PurgedBy(ops, q.asOf.value)
    ensures Filter(Run(ops), q) == Filter(Remembered(ops), q)
  {
    if ops != [] {
      var before, op := ops[..|ops| - 1], ops[|ops| - 1];
      RecallForgetsNothing(before, q);
      match op
      case Remember(r) =>
        FilterAppend(Run(before), r, q);
        FilterAppend(Remembered(before), r, q);
      case Purge(clock) =>
        assert Remembered(ops) == Remembered(before);
        PurgeIsSeenIff(Run(before), clock, q);
    }
  }

  // ---------- the store ----------

  /** The answer of the index: nothing under a key it does not hold. */
  function Lookup(index: map<string, seq<MemoryRecord>>, key: string): seq<MemoryRecord> {
    if key in index then index[key] else []
  }

  ghost predicate IndexOf(index: map<string, seq<MemoryRecord>>, items: seq<MemoryRecord>) {
    forall key :: Lookup(index, key) == Filter(items, KeyQuery(key))
  }

  class MemoryStore {
    const persistent: bool
    var items: seq<MemoryRecord>
    var index: map<string, seq<MemoryRecord>>
    /** What the file holds; None while there is no file. */
    var file: Option<seq<MemoryRecord>>

    /** The index is the list by key, and a reload of the file gives the list. */
    ghost predicate Valid()
      reads this
    {
      && IndexOf(index, items)
      && (forall r :: r in items ==> Accepted(r))
      && (persistent ==> items == if file.Some? then file.value else [])
    }

    constructor (persistent: bool, file: Option<seq<MemoryRecord>>)
      requires persistent && file.Some? ==> forall r :: r in file.value ==> Accepted(r)
      ensures Valid() && this.persistent == persistent && this.file == file
      ensures items == if persistent && file.Some? then file.value else []
    {
      this.persistent := persistent;
      this.file := file;
      items := if persistent && file.Some? then file.value else [];
      index := map[];
      new;
      Reindex();
    }

    static method Add(index: map<string, seq<MemoryRecord>>, item: MemoryRecord, ghost items: seq<MemoryRecord>)
      returns (r: map<string, seq<MemoryRecord>>)
      requires IndexOf(index, items)
      ensures IndexOf(r, items + [item])
    {
      r := index[item.key := (if item.key in index then index[item.key] else []) + [item]];
      forall key
        ensures Lookup(r, key) == Filter(items + [item], KeyQuery(key))
      {
        FilterAppend(items, item, KeyQuery(key));
        assert Lookup(index, key) == Filter(items, KeyQuery(key));
      }
    }

    method Reindex()
      modifies this`index
      ensures IndexOf(index, items)
    {
      var built: map<string, seq<MemoryRecord>> := map[];
      for i := 0 to |items|
        invariant IndexOf(built, items[..i])
      {
        built := Add(built, items[i], items[..i]);
        assert items[..i] + [items[i]] == items[..i + 1];
      }
      assert items[..|items|] == items;
      index := built;
    }

    /** False when the record is refused. */
    method Remember(record: MemoryRecord) returns (ok: bool)
      requires Valid()
      modifies this`items, this`index, this`file
      ensures Valid() && ok == Accepted(record) && items == Apply(old(items), MemoryOp.Remember(record))
      ensures ok <==>
        && 0.0 <= record.confidence <= 1.0 && (record.ttl == None || record.ttl.value >= 0.0)
        && (record.sensitivity != SecretValue || record.memoryType == SecretRef)
      ensures items == old(items) + if ok then [record] else []
      ensures file == if ok && persistent then Some(items) else old(file)
    {
      if !Accepted(record) {
        return false;
      }
      index := Add(index, record, items);
      items := items + [record];
      Persist();
      return true;
    }

    method Recall(q: Query) returns (records: seq<MemoryRecord>)
      requires Valid()
      ensures records == Filter(items, q)
      ensures forall r :: r in records <==>
        && r in items && r.key == q.key && (q.scope == None || r.scope == q.scope.value)
        && (q.memoryType == None || r.memoryType == q.memoryType.value)
        && (q.asOf == None || r.ttl == None || q.asOf.value < r.createdAt + r.ttl.value)
    {
      var candidates := if q.key in index then index[q.key] else [];
      assert candidates == Lookup(index, q.key);
      records := Select(candidates, q);
      FilterTwice(items, q);
    }

    static method Select(candidates: seq<MemoryRecord>, q: Query) returns (records: seq<MemoryRecord>)
      requires forall r :: r in candidates ==> r.key == q.key
      ensures records == Filter(candidates, q)
    {
      records := [];
      for i := 0 to |candidates|
        invariant records == Filter(candidates[..i], q)
      {
        var item := candidates[i];
        assert candidates[..i + 1][..i] == candidates[..i];
        if q.scope.Some? && item.scope != q.scope.value {
          continue;
        }
        if q.memoryType.Some? && item.memoryType != q.memoryType.value {
          continue;
        }
        if q.asOf.Some? && Expired(item, q.asOf.value) {
          continue;
        }
        records := records + [item];
      }
      assert candidates[..|candidates|] == candidates;
    }

    method Unexpired(clock: nat -> real) returns (kept: seq<MemoryRecord>)
      ensures kept == Kept(items, clock) && |kept| <= |items| && forall r :: r in kept ==> r in items
      ensures |kept| == |items| ==> kept == items
    {
      kept := [];
      for i := 0 to |items|
        invariant kept == Kept(items[..i], clock) && |kept| <= i && forall r :: r in kept ==> r in items
        invariant |kept| == i ==> kept == items[..i]
      {
        assert items[..i + 1][..i] == items[..i];
        if !Expired(items[i], clock(i)) {
          kept := kept + [items[i]];
        }
      }
      assert items[..|items|] == items;
    }

    method PurgeExpired(clock: nat -> real) returns (removed: nat)
      requires Valid()
      modifies this`items, this`index, this`file
      ensures Valid() && items == Apply(old(items), Purge(clock)) && removed == |old(items)| - |items|
      ensures forall i :: 0 <= i < |old(items)| ==>
        (var r := old(items)[i]; r.ttl == None || clock(i) < r.createdAt + r.ttl.value ==> r in items)
      ensures forall r :: r in items ==>
        (exists i :: 0 <= i < |old(items)| && old(items)[i] == r && (r.ttl == None || clock(i) < r.createdAt + r.ttl.value))
      ensures file == if removed > 0 && persistent then Some(items) else old(file)
    {
      var kept := Unexpired(clock);
      KeptHas(items, clock);
      hide Kept, IndexOf;
      removed := |items| - |kept|;
      items := kept;
      Reindex();
      if removed > 0 {
        Persist();
      }
    }

    method Persist()
      modifies this`file
      ensures file == if persistent then Some(items) else old(file)
    {
      if persistent {
        file := Some(items);
      }
    }

    /** Loading a file raises when it holds a record that is not accepted. */
    static method Open(persistent: bool, file: Option<seq<MemoryRecord>>) returns (store: MemoryStore?)
      ensures store == null <==> persistent && file.Some? && exists r :: r in file.value && !Accepted(r)
      ensures store != null ==> store.Valid() && store.items == if persistent && file.Some? then file.value else []
    {
      if persistent && file.Some? {
        for i := 0 to |file.value|
          invariant forall k :: 0 <= k < i ==> Accepted(file.value[k])
        {
          if !Accepted(file.value[i]) {
            return null;
          }
        }
      }
      store := new MemoryStore(persistent, file);
    }

    /** Opening the file again gives a store with the same records. */
    method Reopen() returns (again: MemoryStore?)
      requires Valid() && persistent
      ensures again != null && again.Valid() && again.items == items
    {
      again := Open(true, file);
    }
  }
}
