/** The sanitizer that values pass on their way to logs and files, in its two modes. Which
    strings look like secrets is a parameter. */
module Sanitizer {
  import opened Tasks

  /** Python values, as far as the sanitizer tells them apart. A mapping is its items in order,
      with keys already turned into strings; an enum member may hold any value. */
  datatype Value =
    | Secret
    | Handle(id: string, scope: string, createdAt: real, expiresAt: Option<real>)
    | EnumMember(member: Value)
    | PathName(path: string)
    | Bytes(length: nat)
    | Text(text: string)
    | Number(number: real)
    | Flag(flag: bool)
    | Nothing
    | Mapping(entries: seq<Entry>)
    | Sequence(items: seq<Value>)
    | Record(fields: seq<Entry>)
    | Other(typeName: string)

  datatype Entry = Entry(key: string, value: Value)

  datatype Mode = Reject | Redact

  const MARKER := "<secret>"

  const REDACTED := "[REDACTED]"

  type Screen = string -> bool

  /** The strings the sanitizer itself writes: only its secret marker looks like a secret. */
  predicate Sane(leaky: Screen) {
    && leaky(MARKER) && !leaky(REDACTED)
    && !leaky("type") && !leaky("bytes") && !leaky("length")
    && !leaky("handle_id") && !leaky("scope") && !leaky("created_at") && !leaky("expires_at")
  }

  // ---------- the sanitizer ----------

  function ScreenText(leaky: Screen, mode: Mode, s: string): Option<string> {
    if !leaky(s) then Some(s) else if mode == Reject then None else Some(REDACTED)
  }

  /** Assigning to a key of a dictionary keeps the place of a key that is there. */
  function Put(d: seq<Entry>, key: string, value: Value): seq<Entry> {
    if d == [] then [Entry(key, value)]
    else if d[0].key == key then [Entry(key, value)] + d[1..]
    else [d[0]] + Put(d[1..], key, value)
  }

  /** None where the source raises. */
  function Sanitize(leaky: Screen, mode: Mode, v: Value): (r: Option<Value>)
    ensures mode == Redact ==> r.Some?
    decreases v
  {
    match v
    case Secret => if mode == Reject then None else Some(Text(MARKER))
    case Handle(id, scope, createdAt, expiresAt) =>
      Some(Mapping([Entry("handle_id", Text(id)), Entry("scope", Text(scope)), Entry("created_at", Number(createdAt)),
                    Entry("expires_at", if expiresAt.Some? then Number(expiresAt.value) else Nothing)]))
    case EnumMember(member) => Some(member)
    case PathName(path) => (match ScreenText(leaky, mode, path) case None => None case Some(s) => Some(Text(s)))
    case Bytes(length) => Some(Mapping([Entry("type", Text("bytes")), Entry("length", Number(length as real))]))
    case Text(text) => (match ScreenText(leaky, mode, text) case None => None case Some(s) => Some(Text(s)))
    case Number(_) => Some(v)
    case Flag(_) => Some(v)
    case Nothing => Some(v)
    case Mapping(entries) =>
      (match SanitizeEntries(leaky, mode, [], entries) case None => None case Some(d) => Some(Mapping(d)))
    case Sequence(items) =>
      (match SanitizeItems(leaky, mode, items) case None => None case Some(s) => Some(Sequence(s)))
    case Record(fields) =>
      (match SanitizeFields(leaky, mode, fields) case None => None case Some(d) => Some(Mapping(d)))
    case Other(typeName) => Some(Mapping([Entry("type", Text(typeName))]))
  }

  function SanitizeEntries(leaky: Screen, mode: Mode, d: seq<Entry>, entries: seq<Entry>): (r: Option<seq<Entry>>)
    ensures mode == Redact ==> r.Some?
    decreases entries
  {
    if entries == [] then Some(d)
    else match (ScreenText(leaky, mode, entries[0].key), Sanitize(leaky, mode, entries[0].value))
      case (Some(key), Some(value)) => SanitizeEntries(leaky, mode, Put(d, key, value), entries[1..])
      case _ => None
  }

  function SanitizeItems(leaky: Screen, mode: Mode, items: seq<Value>): (r: Option<seq<Value>>)
    ensures mode == Redact ==> r.Some?
    ensures r.Some? ==> |r.value| == |items|
    decreases items
  {
    if items == [] then Some([])
    else match (Sanitize(leaky, mode, items[0]), SanitizeItems(leaky, mode, items[1..]))
      case (Some(first), Some(rest)) => Some([first] + rest)
      case _ => None
  }

  /** The names of a dataclass's fields are distinct, and are not screened. */
  function SanitizeFields(leaky: Screen, mode: Mode, fields: seq<Entry>): (r: Option<seq<Entry>>)
    ensures mode == Redact ==> r.Some?
    ensures r.Some? ==> |r.value| == |fields|
    decreases fields
  {
    if fields == [] then Some([])
    else match (Sanitize(leaky, mode, fields[0].value), SanitizeFields(leaky, mode, fields[1..]))
      case (Some(first), Some(rest)) => Some([Entry(fields[0].key, first)] + rest)
      case _ => None
  }

  function Redacted(leaky: Screen, v: Value): Value {
    Sanitize(leaky, Redact, v).value
  }

  // ---------- clean values ----------

  predicate HasKey(d: seq<Entry>, key: string) {
    d != [] && (d[0].key == key || HasKey(d[1..], key))
  }

  /** Every key once, and none that looks like a secret. */
  predicate SafeDict(leaky: Screen, d: seq<Entry>) {
    d == [] || (!leaky(d[0].key) && !HasKey(d[1..], d[0].key) && SafeDict(leaky, d[1..]))
  }

  /** JSON-like through and through, and nothing in it looks like a secret. */
  predicate Clean(leaky: Screen, v: Value)
    decreases v
  {
    match v
    case Text(text) => !leaky(text)
    case Number(_) => true
    case Flag(_) => true
    case Nothing => true
    case Sequence(items) => forall i :: 0 <= i < |items| ==> Clean(leaky, items[i])
    case Mapping(entries) =>
      SafeDict(leaky, entries) && forall i :: 0 <= i < |entries| ==> Clean(leaky, entries[i].value)
    case _ => false
  }

  // ---------- a value that is not refused is not altered ----------

  /** What passes the rejecting boundary is what the redacting one would have written. */
  lemma {:induction false} RejectAgreesWithRedact(leaky: Screen, v: Value)
    requires Sanitize(leaky, Reject, v).Some?
    ensures Sanitize(leaky, Reject, v) == Sanitize(leaky, Redact, v)
    decreases v
  {
    match v
    case Mapping(entries) => EntriesAgree(leaky, [], entries);
    case Sequence(items) => ItemsAgree(leaky, items);
    case Record(fields) => FieldsAgree(leaky, fields);
    case _ =>
  }

  lemma {:induction false} EntriesAgree(leaky: Screen, d: seq<Entry>, entries: seq<Entry>)
    requires SanitizeEntries(leaky, Reject, d, entries).Some?
    ensures SanitizeEntries(leaky, Reject, d, entries) == SanitizeEntries(leaky, Redact, d, entries)
    decreases entries
  {
    if entries != [] {
      RejectAgreesWithRedact(leaky, entries[0].value);
      EntriesAgree(leaky, Put(d, entries[0].key, Redacted(leaky, entries[0].value)), entries[1..]);
    }
  }

  lemma {:induction false} ItemsAgree(leaky: Screen, items: seq<Value>)
    requires SanitizeItems(leaky, Reject, items).Some?
    ensures SanitizeItems(leaky, Reject, items) == SanitizeItems(leaky, Redact, items)
    decreases items
  {
    if items != [] {
      RejectAgreesWithRedact(leaky, items[0]);
      ItemsAgree(leaky, items[1..]);
    }
  }

  lemma {:induction false} FieldsAgree(leaky: Screen, fields: seq<Entry>)
    requires SanitizeFields(leaky, Reject, fields).Some?
    ensures SanitizeFields(leaky, Reject, fields) == SanitizeFields(leaky, Redact, fields)
    decreases fields
  {
    if fields != [] {
      RejectAgreesWithRedact(leaky, fields[0].value);
      FieldsAgree(leaky, fields[1..]);
    }
  }

  // ---------- containers, place by place ----------

  lemma {:induction false} ItemAt(leaky: Screen, items: seq<Value>, i: nat)
    requires i < |items|
    ensures SanitizeItems(leaky, Redact, items).value[i] == Redacted(leaky, items[i])
    decreases items
  {
    if i > 0 {
      ItemAt(leaky, items[1..], i - 1);
    }
  }

  lemma {:induction false} FieldAt(leaky: Screen, fields: seq<Entry>, i: nat)
    requires i < |fields|
    ensures SanitizeFields(leaky, Redact, fields).value[i] == Entry(fields[i].key, Redacted(leaky, fields[i].value))
    decreases fields
  {
    if i > 0 {
      FieldAt(leaky, fields[1..], i - 1);
    }
  }

  function SafeKey(leaky: Screen, key: string): string { if leaky(key) then REDACTED else key }

  /** No key of `entries` is a key of `d`. */
  predicate Apart(d: seq<Entry>, entries: seq<Entry>) {
    entries == [] || (!HasKey(d, entries[0].key) && Apart(d, entries[1..]))
  }

  lemma {:induction false} HasKeyAppend(d: seq<Entry>, e: Entry, key: string)
    ensures HasKey(d + [e], key) <==> HasKey(d, key) || e.key == key
  {
    if d == [] {
      assert [] + [e] == [e] && [e][1..] == [];
    } else {
      assert (d + [e])[1..] == d[1..] + [e];
      HasKeyAppend(d[1..], e, key);
    }
  }

  lemma {:induction false} ApartAppend(d: seq<Entry>, e: Entry, entries: seq<Entry>)
    requires Apart(d, entries) && !HasKey(entries, e.key)
    ensures Apart(d + [e], entries)
  {
    if entries != [] {
      HasKeyAppend(d, e, entries[0].key);
      ApartAppend(d, e, entries[1..]);
    }
  }

  lemma {:induction false} ApartFromNone(entries: seq<Entry>)
    ensures Apart([], entries)
  {
    if entries != [] {
      ApartFromNone(entries[1..]);
    }
  }

  lemma {:induction false} PutAbsent(d: seq<Entry>, key: string, value: Value)
    requires !HasKey(d, key)
    ensures Put(d, key, value) == d + [Entry(key, value)]
  {
    if d != [] {
      PutAbsent(d[1..], key, value);
      assert d == [d[0]] + d[1..];
    }
  }

  lemma {:induction false} PutHasKey(d: seq<Entry>, key: string, value: Value, other: string)
    ensures HasKey(Put(d, key, value), other) <==> HasKey(d, other) || other == key
  {
    if d == [] {
      assert Put(d, key, value)[1..] == [];
    } else if d[0].key == key {
      assert Put(d, key, value)[1..] == d[1..];
    } else {
      PutHasKey(d[1..], key, value, other);
      assert Put(d, key, value)[1..] == Put(d[1..], key, value);
    }
  }

  lemma {:induction false} PutKeepsSafe(leaky: Screen, d: seq<Entry>, key: string, value: Value)
    requires SafeDict(leaky, d) && !leaky(key)
    ensures SafeDict(leaky, Put(d, key, value))
  {
    var put := Put(d, key, value);
    if d == [] {
      assert put[1..] == [];
    } else if d[0].key == key {
      assert put[1..] == d[1..];
    } else {
      PutKeepsSafe(leaky, d[1..], key, value);
      PutHasKey(d[1..], key, value, d[0].key);
      assert put[1..] == Put(d[1..], key, value) && put[0] == d[0];
    }
  }

  lemma {:induction false} NoKeyNoEntry(d: seq<Entry>, e: Entry)
    requires e in d
    ensures HasKey(d, e.key)
  {
    if d[0] != e {
      NoKeyNoEntry(d[1..], e);
    }
  }

  lemma {:induction false} PutHolds(leaky: Screen, d: seq<Entry>, key: string, value: Value, e: Entry)
    requires SafeDict(leaky, d)
    ensures e in Put(d, key, value) <==> e == Entry(key, value) || (e in d && e.key != key)
  {
    if d != [] {
      assert d == [d[0]] + d[1..];
      if d[0].key == key {
        if e in d[1..] {
          NoKeyNoEntry(d[1..], e);
        }
      } else {
        PutHolds(leaky, d[1..], key, value, e);
      }
    }
  }

  /** One assignment of the loop that fills a dictionary. */
  lemma EntriesStep(leaky: Screen, mode: Mode, d: seq<Entry>, entries: seq<Entry>, value: Value)
    requires entries != [] && Sanitize(leaky, mode, entries[0].value) == Some(value)
    requires mode == Redact || !leaky(entries[0].key)
    ensures SanitizeEntries(leaky, mode, d, entries)
         == SanitizeEntries(leaky, mode, Put(d, SafeKey(leaky, entries[0].key), value), entries[1..])
  {
  }

  lemma {:induction false} DictIsSafe(leaky: Screen, d: seq<Entry>, entries: seq<Entry>)
    requires Sane(leaky) && SafeDict(leaky, d)
    ensures SafeDict(leaky, SanitizeEntries(leaky, Redact, d, entries).value)
    decreases entries
  {
    if entries != [] {
      var key, value := SafeKey(leaky, entries[0].key), Redacted(leaky, entries[0].value);
      PutKeepsSafe(leaky, d, key, value);
      DictIsSafe(leaky, Put(d, key, value), entries[1..]);
    }
  }

  lemma Regroup(d: seq<Entry>, e: Entry, rest: seq<Entry>)
    ensures d + [e] + rest == d + ([e] + rest)
  {
  }

  /** Safe, distinct keys are kept in place. */
  lemma {:induction false} SafeEntriesStay(leaky: Screen, d: seq<Entry>, entries: seq<Entry>)
    requires SafeDict(leaky, entries) && Apart(d, entries)
    ensures SanitizeEntries(leaky, Redact, d, entries) == Some(d + SanitizeFields(leaky, Redact, entries).value)
    decreases entries
  {
    if entries == [] {
      assert d + [] == d;
    } else {
      var head := Entry(entries[0].key, Redacted(leaky, entries[0].value));
      PutAbsent(d, head.key, head.value);
      ApartAppend(d, head, entries[1..]);
      EntriesStep(leaky, Redact, d, entries, head.value);
      SafeEntriesStay(leaky, d + [head], entries[1..]);
      assert SanitizeFields(leaky, Redact, entries).value == [head] + SanitizeFields(leaky, Redact, entries[1..]).value;
      Regroup(d, head, SanitizeFields(leaky, Redact, entries[1..]).value);
    }
  }

  /** The entry's key is not taken again further on. */
  ghost predicate Survives(leaky: Screen, entries: seq<Entry>, i: nat)
    requires i < |entries|
  {
    forall j :: i < j < |entries| ==> SafeKey(leaky, entries[j].key) != SafeKey(leaky, entries[i].key)
  }

  ghost predicate Taken(leaky: Screen, entries: seq<Entry>, key: string) {
    exists j :: 0 <= j < |entries| && SafeKey(leaky, entries[j].key) == key
  }

  ghost predicate AllGood(d: seq<Entry>, good: Value -> bool) {
    forall e :: e in d ==> good(e.value)
  }

  ghost predicate SurvivorsGood(leaky: Screen, entries: seq<Entry>, good: Value -> bool) {
    forall i: nat :: i < |entries| && Survives(leaky, entries, i) ==> good(Redacted(leaky, entries[i].value))
  }

  /** What the finished dictionary holds: the last value under each key. */
  lemma {:induction false} LastValueStays(leaky: Screen, d: seq<Entry>, entries: seq<Entry>, good: Value -> bool)
    requires Sane(leaky) && SafeDict(leaky, d)
    ensures AllGood(SanitizeEntries(leaky, Redact, d, entries).value, good)
      <==> (forall e :: e in d ==> good(e.value) || Taken(leaky, entries, e.key)) && SurvivorsGood(leaky, entries, good)
    decreases entries
  {
    if entries != [] {
      var key, value := SafeKey(leaky, entries[0].key), Redacted(leaky, entries[0].value);
      PutKeepsSafe(leaky, d, key, value);
      LastValueStays(leaky, Put(d, key, value), entries[1..], good);
      forall k: string
        ensures Taken(leaky, entries, k) <==> k == key || Taken(leaky, entries[1..], k)
      {
        TakenStep(leaky, entries, k);
      }
      SurvivorsStep(leaky, entries, good);
      forall e: Entry
        ensures e in Put(d, key, value) <==> e == Entry(key, value) || (e in d && e.key != key)
      {
        PutHolds(leaky, d, key, value, e);
      }
      assert Entry(key, value) in Put(d, key, value);
    }
  }

  lemma TakenStep(leaky: Screen, entries: seq<Entry>, key: string)
    requires entries != []
    ensures Taken(leaky, entries, key) <==> key == SafeKey(leaky, entries[0].key) || Taken(leaky, entries[1..], key)
  {
    if Taken(leaky, entries, key) {
      var j :| 0 <= j < |entries| && SafeKey(leaky, entries[j].key) == key;
      assert j > 0 ==> entries[1..][j - 1] == entries[j];
    }
    if Taken(leaky, entries[1..], key) {
      var j :| 0 <= j < |entries[1..]| && SafeKey(leaky, entries[1..][j].key) == key;
      assert entries[j + 1] == entries[1..][j];
    }
  }

  lemma SurvivorsStep(leaky: Screen, entries: seq<Entry>, good: Value -> bool)
    requires entries != []
    ensures SurvivorsGood(leaky, entries, good)
      <==> (good(Redacted(leaky, entries[0].value)) || Taken(leaky, entries[1..], SafeKey(leaky, entries[0].key)))
           && SurvivorsGood(leaky, entries[1..], good)
  {
    var rest := entries[1..];
    assert Survives(leaky, entries, 0) <==> !Taken(leaky, rest, SafeKey(leaky, entries[0].key)) by {
      if j :| 0 < j < |entries| && SafeKey(leaky, entries[j].key) == SafeKey(leaky, entries[0].key) {
        assert rest[j - 1] == entries[j];
      }
      if j :| 0 <= j < |rest| && SafeKey(leaky, rest[j].key) == SafeKey(leaky, entries[0].key) {
        assert rest[j] == entries[j + 1];
      }
    }
    forall i: nat | i < |rest|
      ensures Survives(leaky, rest, i) <==> Survives(leaky, entries, i + 1)
    {
      if Survives(leaky, rest, i) {
        forall j | i + 1 < j < |entries|
          ensures SafeKey(leaky, entries[j].key) != SafeKey(leaky, entries[i + 1].key)
        {
          assert rest[j - 1] == entries[j];
        }
      }
    }
    if SurvivorsGood(leaky, rest, good) {
      forall i: nat | 0 < i < |entries| && Survives(leaky, entries, i)
        ensures good(Redacted(leaky, entries[i].value))
      {
        assert rest[i - 1] == entries[i] && Survives(leaky, rest, i - 1);
      }
    }
    if SurvivorsGood(leaky, entries, good) {
      forall i: nat | i < |rest| && Survives(leaky, rest, i)
        ensures good(Redacted(leaky, rest[i].value))
      {
        assert rest[i] == entries[i + 1] && Survives(leaky, entries, i + 1);
      }
    }
  }

  // ---------- fixed points ----------

  lemma {:induction false} CleanIsFixed(leaky: Screen, v: Value)
    requires Clean(leaky, v)
    ensures Sanitize(leaky, Reject, v) == Some(v) && Redacted(leaky, v) == v
    decreases v
  {
    match v
    case Sequence(items) => CleanItems(leaky, items);
    case Mapping(entries) =>
      ApartFromNone(entries);
      CleanEntries(leaky, [], entries);
      assert [] + entries == entries;
    case _ =>
  }

  lemma {:induction false} CleanItems(leaky: Screen, items: seq<Value>)
    requires forall i :: 0 <= i < |items| ==> Clean(leaky, items[i])
    ensures SanitizeItems(leaky, Reject, items) == Some(items) == SanitizeItems(leaky, Redact, items)
    decreases items
  {
    if items != [] {
      CleanIsFixed(leaky, items[0]);
      CleanItems(leaky, items[1..]);
      assert items == [items[0]] + items[1..];
    }
  }

  lemma {:induction false} CleanEntries(leaky: Screen, d: seq<Entry>, entries: seq<Entry>)
    requires SafeDict(leaky, entries) && forall i :: 0 <= i < |entries| ==> Clean(leaky, entries[i].value)
    requires Apart(d, entries)
    ensures SanitizeEntries(leaky, Reject, d, entries) == Some(d + entries) == SanitizeEntries(leaky, Redact, d, entries)
    decreases entries
  {
    if entries == [] {
      assert d + [] == d;
    } else {
      CleanIsFixed(leaky, entries[0].value);
      PutAbsent(d, entries[0].key, entries[0].value);
      ApartAppend(d, entries[0], entries[1..]);
      EntriesStep(leaky, Reject, d, entries, entries[0].value);
      EntriesStep(leaky, Redact, d, entries, entries[0].value);
      CleanEntries(leaky, d + [entries[0]], entries[1..]);
      Regroup(d, entries[0], entries[1..]);
      assert entries == [entries[0]] + entries[1..];
    }
  }

  lemma {:induction false} FixedIsClean(leaky: Screen, v: Value)
    requires Sane(leaky) && Redacted(leaky, v) == v
    ensures Clean(leaky, v)
    decreases v
  {
    match v
    case Sequence(items) =>
      forall i | 0 <= i < |items|
        ensures Clean(leaky, items[i])
      {
        ItemAt(leaky, items, i);
        FixedIsClean(leaky, items[i]);
      }
    case Mapping(entries) =>
      DictIsSafe(leaky, [], entries);
      ApartFromNone(entries);
      SafeEntriesStay(leaky, [], entries);
      forall i | 0 <= i < |entries|
        ensures Clean(leaky, entries[i].value)
      {
        FieldAt(leaky, entries, i);
        FixedIsClean(leaky, entries[i].value);
      }
    case EnumMember(member) => NotItsOwnMember(member);
    case _ =>
  }

  lemma NotItsOwnMember(member: Value)
    ensures EnumMember(member) != member
  {
    assert member < EnumMember(member);
  }

  /** Redaction leaves alone exactly the clean values, and so does the rejecting mode. */
  lemma FixedPointsAreClean(leaky: Screen, v: Value)
    requires Sane(leaky)
    ensures Redacted(leaky, v) == v <==> Clean(leaky, v)
    ensures Sanitize(leaky, Reject, v) == Some(v) <==> Clean(leaky, v)
  {
    if Clean(leaky, v) {
      CleanIsFixed(leaky, v);
    }
    if Sanitize(leaky, Reject, v) == Some(v) {
      RejectAgreesWithRedact(leaky, v);
    }
    if Redacted(leaky, v) == v {
      FixedIsClean(leaky, v);
    }
  }

  // ---------- how many passes a value needs ----------

  /** One pass is enough: nothing is wrapped in a secret, and what a pass copies without looking
      (enum values, the text of handles, field and type names) is clean already. */
  ghost predicate OncePasses(leaky: Screen, v: Value)
    decreases v
  {
    match v
    case Secret => false
    case Handle(id, scope, _, _) => !leaky(id) && !leaky(scope)
    case EnumMember(member) => Clean(leaky, member)
    case Other(typeName) => !leaky(typeName)
    case Sequence(items) => forall i :: 0 <= i < |items| ==> OncePasses(leaky, items[i])
    case Mapping(entries) =>
      forall i: nat :: i < |entries| && Survives(leaky, entries, i) ==> OncePasses(leaky, entries[i].value)
    case Record(fields) => SafeDict(leaky, fields) && forall i :: 0 <= i < |fields| ==> OncePasses(leaky, fields[i].value)
    case _ => true
  }

  /** Two passes are enough: only an enum member can hide something for longer. */
  ghost predicate TwicePasses(leaky: Screen, v: Value)
    decreases v
  {
    match v
    case EnumMember(member) => OncePasses(leaky, member)
    case Sequence(items) => forall i :: 0 <= i < |items| ==> TwicePasses(leaky, items[i])
    case Mapping(entries) =>
      forall i: nat :: i < |entries| && Survives(leaky, entries, i) ==> TwicePasses(leaky, entries[i].value)
    case Record(fields) =>
      forall i: nat :: i < |fields| && Survives(leaky, fields, i) ==> TwicePasses(leaky, fields[i].value)
    case _ => true
  }

  /** A dictionary that was built is clean iff its values are. */
  lemma BuiltIsClean(leaky: Screen, d: seq<Entry>)
    requires SafeDict(leaky, d)
    ensures Clean(leaky, Mapping(d)) <==> AllGood(d, v => Clean(leaky, v))
  {
    if Clean(leaky, Mapping(d)) {
      forall e | e in d
        ensures Clean(leaky, e.value)
      {
        var i :| 0 <= i < |d| && d[i] == e;
      }
    }
  }

  lemma {:induction false} SameKeysSafe(leaky: Screen, a: seq<Entry>, b: seq<Entry>)
    requires |a| == |b| && forall i :: 0 <= i < |a| ==> a[i].key == b[i].key
    ensures SafeDict(leaky, a) <==> SafeDict(leaky, b)
  {
    if a != [] {
      SameKeysSafe(leaky, a[1..], b[1..]);
      SameKeysHave(a[1..], b[1..], a[0].key);
    }
  }

  lemma {:induction false} SameKeysHave(a: seq<Entry>, b: seq<Entry>, key: string)
    requires |a| == |b| && forall i :: 0 <= i < |a| ==> a[i].key == b[i].key
    ensures HasKey(a, key) <==> HasKey(b, key)
  {
    if a != [] {
      SameKeysHave(a[1..], b[1..], key);
    }
  }

  lemma {:induction false} OncePassesIff(leaky: Screen, v: Value)
    requires Sane(leaky)
    ensures Clean(leaky, Redacted(leaky, v)) <==> OncePasses(leaky, v)
    decreases v
  {
    match v
    case Sequence(items) =>
      forall i | 0 <= i < |items|
        ensures Clean(leaky, SanitizeItems(leaky, Redact, items).value[i]) <==> OncePasses(leaky, items[i])
      {
        ItemAt(leaky, items, i);
        OncePassesIff(leaky, items[i]);
      }
    case Mapping(entries) =>
      var d := SanitizeEntries(leaky, Redact, [], entries).value;
      DictIsSafe(leaky, [], entries);
      BuiltIsClean(leaky, d);
      LastValueStays(leaky, [], entries, w => Clean(leaky, w));
      forall i | 0 <= i < |entries|
        ensures Clean(leaky, Redacted(leaky, entries[i].value)) <==> OncePasses(leaky, entries[i].value)
      {
        OncePassesIff(leaky, entries[i].value);
      }
    case Record(fields) =>
      var d := SanitizeFields(leaky, Redact, fields).value;
      forall i | 0 <= i < |fields|
        ensures d[i].key == fields[i].key && (Clean(leaky, d[i].value) <==> OncePasses(leaky, fields[i].value))
      {
        FieldAt(leaky, fields, i);
        OncePassesIff(leaky, fields[i].value);
      }
      SameKeysSafe(leaky, d, fields);
    case Handle(id, scope, createdAt, expiresAt) => HandleIsClean(leaky, v);
    case Bytes(_) => SmallDictIsClean(leaky, v);
    case Other(_) => SmallDictIsClean(leaky, v);
    case _ =>
  }

  lemma SmallDictIsClean(leaky: Screen, v: Value)
    requires Sane(leaky) && (v.Bytes? || v.Other?)
    ensures Clean(leaky, Redacted(leaky, v)) <==> v.Bytes? || !leaky(v.typeName)
  {
    var d := Redacted(leaky, v).entries;
    assert "type"[0] == 't' && "length"[0] == 'l';
    if v.Bytes? {
      Prepend(leaky, d[1], []);
      Prepend(leaky, d[0], [d[1]]);
      assert d == [d[0]] + [d[1]];
    } else {
      Prepend(leaky, d[0], []);
      assert d[0].value == Text(v.typeName);
    }
  }

  lemma Prepend(leaky: Screen, e: Entry, d: seq<Entry>)
    requires SafeDict(leaky, d) && !leaky(e.key) && !HasKey(d, e.key)
    ensures SafeDict(leaky, [e] + d)
    ensures d == [] ==> [e] + d == [e]
    ensures forall key :: HasKey([e] + d, key) <==> e.key == key || HasKey(d, key)
  {
    assert ([e] + d)[1..] == d;
  }

  lemma HandleKeysAreSafe(leaky: Screen, a: Entry, b: Entry, c: Entry, d: Entry)
    requires Sane(leaky) && a.key == "handle_id" && b.key == "scope" && c.key == "created_at" && d.key == "expires_at"
    ensures SafeDict(leaky, [a, b, c, d])
  {
    assert "handle_id"[0] == 'h' && "scope"[0] == 's' && "created_at"[0] == 'c' && "expires_at"[0] == 'e';
    Prepend(leaky, d, []);
    Prepend(leaky, c, [d]);
    Prepend(leaky, b, [c] + [d]);
    Prepend(leaky, a, [b] + ([c] + [d]));
    assert [a, b, c, d] == [a] + ([b] + ([c] + [d]));
  }

  lemma HandleIsClean(leaky: Screen, v: Value)
    requires Sane(leaky) && v.Handle?
    ensures Clean(leaky, Redacted(leaky, v)) <==> !leaky(v.id) && !leaky(v.scope)
  {
    var d := Redacted(leaky, v).entries;
    HandleKeysAreSafe(leaky, d[0], d[1], d[2], d[3]);
    assert d == [d[0], d[1], d[2], d[3]];
    hide SafeDict, HasKey;
    assert d[0].value == Text(v.id) && d[1].value == Text(v.scope);
  }

  lemma {:induction false} SafeKeysSurvive(leaky: Screen, d: seq<Entry>, i: nat)
    requires SafeDict(leaky, d) && i < |d|
    ensures !leaky(d[i].key) && Survives(leaky, d, i)
  {
    if i > 0 {
      SafeKeysSurvive(leaky, d[1..], i - 1);
      forall j | i < j < |d|
        ensures SafeKey(leaky, d[j].key) != SafeKey(leaky, d[i].key)
      {
        assert d[1..][j - 1] == d[j];
      }
    } else {
      forall j: nat | 0 < j < |d|
        ensures SafeKey(leaky, d[j].key) != d[0].key
      {
        SafeKeysSurvive(leaky, d[1..], j - 1);
        assert d[1..][j - 1] == d[j] && d[j] in d[1..];
        NoKeyNoEntry(d[1..], d[j]);
      }
    }
  }

  lemma SafeDictOnce(leaky: Screen, d: seq<Entry>)
    requires SafeDict(leaky, d)
    ensures OncePasses(leaky, Mapping(d)) <==> AllGood(d, w => OncePasses(leaky, w))
  {
    forall i: nat | i < |d|
      ensures Survives(leaky, d, i) && d[i] in d
    {
      SafeKeysSurvive(leaky, d, i);
    }
  }

  lemma WrittenDictOnce(leaky: Screen, v: Value)
    requires v.Handle? || v.Bytes? || v.Other?
    ensures OncePasses(leaky, Redacted(leaky, v))
  {
  }

  lemma TwiceItems(leaky: Screen, items: seq<Value>)
    requires forall i :: 0 <= i < |items| ==> (OncePasses(leaky, Redacted(leaky, items[i])) <==> TwicePasses(leaky, items[i]))
    ensures OncePasses(leaky, Redacted(leaky, Sequence(items))) <==> TwicePasses(leaky, Sequence(items))
  {
    var d := SanitizeItems(leaky, Redact, items).value;
    assert Redacted(leaky, Sequence(items)) == Sequence(d);
    forall i | 0 <= i < |items|
      ensures OncePasses(leaky, d[i]) <==> TwicePasses(leaky, items[i])
    {
      ItemAt(leaky, items, i);
    }
    assert OncePasses(leaky, Sequence(d)) <==> forall i :: 0 <= i < |d| ==> OncePasses(leaky, d[i]);
  }

  lemma TwiceEntries(leaky: Screen, entries: seq<Entry>)
    requires Sane(leaky)
    requires forall i :: 0 <= i < |entries| ==>
      (OncePasses(leaky, Redacted(leaky, entries[i].value)) <==> TwicePasses(leaky, entries[i].value))
    ensures OncePasses(leaky, Redacted(leaky, Mapping(entries))) <==> TwicePasses(leaky, Mapping(entries))
  {
    DictIsSafe(leaky, [], entries);
    SafeDictOnce(leaky, SanitizeEntries(leaky, Redact, [], entries).value);
    LastValueStays(leaky, [], entries, w => OncePasses(leaky, w));
  }

  lemma TwiceFields(leaky: Screen, fields: seq<Entry>)
    requires forall i :: 0 <= i < |fields| ==>
      (OncePasses(leaky, Redacted(leaky, fields[i].value)) <==> TwicePasses(leaky, fields[i].value))
    ensures OncePasses(leaky, Redacted(leaky, Record(fields))) <==> TwicePasses(leaky, Record(fields))
  {
    var d := SanitizeFields(leaky, Redact, fields).value;
    forall i | 0 <= i < |fields|
      ensures d[i].key == fields[i].key && (OncePasses(leaky, d[i].value) <==> TwicePasses(leaky, fields[i].value))
    {
      FieldAt(leaky, fields, i);
    }
    assert forall i: nat :: i < |fields| ==> (Survives(leaky, d, i) <==> Survives(leaky, fields, i));
  }

  lemma {:induction false} TwicePassesStep(leaky: Screen, v: Value)
    requires Sane(leaky)
    ensures OncePasses(leaky, Redacted(leaky, v)) <==> TwicePasses(leaky, v)
    decreases v
  {
    match v
    case Sequence(items) =>
      forall i | 0 <= i < |items|
        ensures OncePasses(leaky, Redacted(leaky, items[i])) <==> TwicePasses(leaky, items[i])
      {
        TwicePassesStep(leaky, items[i]);
      }
      TwiceItems(leaky, items);
    case Mapping(entries) =>
      forall i | 0 <= i < |entries|
        ensures OncePasses(leaky, Redacted(leaky, entries[i].value)) <==> TwicePasses(leaky, entries[i].value)
      {
        TwicePassesStep(leaky, entries[i].value);
      }
      TwiceEntries(leaky, entries);
    case Record(fields) =>
      forall i | 0 <= i < |fields|
        ensures OncePasses(leaky, Redacted(leaky, fields[i].value)) <==> TwicePasses(leaky, fields[i].value)
      {
        TwicePassesStep(leaky, fields[i].value);
      }
      TwiceFields(leaky, fields);
    case Handle(_, _, _, _) => WrittenDictOnce(leaky, v);
    case Bytes(_) => WrittenDictOnce(leaky, v);
    case Other(_) => WrittenDictOnce(leaky, v);
    case _ =>
  }

  /** Two redactions reach a fixed point, which the rejecting mode accepts, iff no enum member
      holds something that one redaction does not settle. */
  lemma TwoPassesSettleIff(leaky: Screen, v: Value)
    requires Sane(leaky)
    ensures var w := Redacted(leaky, Redacted(leaky, v));
      && (Redacted(leaky, w) == w <==> TwicePasses(leaky, v))
      && (Sanitize(leaky, Reject, w) == Some(w) <==> TwicePasses(leaky, v))
  {
    TwicePassesStep(leaky, v);
    OncePassesIff(leaky, Redacted(leaky, v));
    FixedPointsAreClean(leaky, Redacted(leaky, Redacted(leaky, v)));
  }

  /** Enum members hold strings, numbers, flags or nothing, as all of this program's do. */
  predicate PlainEnums(v: Value)
    decreases v
  {
    match v
    case EnumMember(member) => member.Text? || member.Number? || member.Flag? || member.Nothing?
    case Sequence(items) => forall i :: 0 <= i < |items| ==> PlainEnums(items[i])
    case Mapping(entries) => forall i :: 0 <= i < |entries| ==> PlainEnums(entries[i].value)
    case Record(fields) => forall i :: 0 <= i < |fields| ==> PlainEnums(fields[i].value)
    case _ => true
  }

  lemma {:induction false} PlainEnumsSettle(leaky: Screen, v: Value)
    requires PlainEnums(v)
    ensures TwicePasses(leaky, v)
    decreases v
  {
    match v
    case Sequence(items) =>
      forall i | 0 <= i < |items|
        ensures TwicePasses(leaky, items[i])
      {
        PlainEnumsSettle(leaky, items[i]);
      }
    case Mapping(entries) =>
      forall i | 0 <= i < |entries|
        ensures TwicePasses(leaky, entries[i].value)
      {
        PlainEnumsSettle(leaky, entries[i].value);
      }
    case Record(fields) =>
      forall i | 0 <= i < |fields|
        ensures TwicePasses(leaky, fields[i].value)
      {
        PlainEnumsSettle(leaky, fields[i].value);
      }
    case _ =>
  }

  /** A secret needs two passes, and one inside an enum member needs three. */
  lemma SecretsNeedMore(leaky: Screen)
    requires Sane(leaky)
    ensures Redacted(leaky, Redacted(leaky, Secret)) == Text(REDACTED) != Redacted(leaky, Secret)
    ensures !TwicePasses(leaky, EnumMember(Secret))
  {
  }

  // ---------- the sanitizer as it runs ----------

  /** The dictionaries are filled in loops; None where the source raises. */
  method SanitizeForBoundary(leaky: Screen, mode: Mode, v: Value) returns (r: Option<Value>)
    ensures r == Sanitize(leaky, mode, v)
    decreases v
  {
    match v
    case Mapping(entries) =>
      var safe: seq<Entry> := [];
      for i := 0 to |entries|
        invariant SanitizeEntries(leaky, mode, [], entries) == SanitizeEntries(leaky, mode, safe, entries[i..])
      {
        var key := ScreenText(leaky, mode, entries[i].key);
        if key.None? {
          return None;
        }
        var value := SanitizeForBoundary(leaky, mode, entries[i].value);
        if value.None? {
          return None;
        }
        safe := Put(safe, key.value, value.value);
      }
      return Some(Mapping(safe));
    case Record(fields) =>
      var safe: seq<Entry> := [];
      assert fields[0..] == fields;
      for i := 0 to |fields|
        invariant SanitizeFields(leaky, mode, fields) == Prefixed(safe, SanitizeFields(leaky, mode, fields[i..]))
      {
        var value := SanitizeForBoundary(leaky, mode, fields[i].value);
        if value.None? {
          return None;
        }
        AfterStep(leaky, mode, safe, fields[i..], value.value);
        assert fields[i..][1..] == fields[i + 1..];
        safe := safe + [Entry(fields[i].key, value.value)];
      }
      assert safe + [] == safe;
      return Some(Mapping(safe));
    case _ => return Sanitize(leaky, mode, v);
  }

  lemma AfterStep(leaky: Screen, mode: Mode, done: seq<Entry>, fields: seq<Entry>, value: Value)
    requires fields != [] && Sanitize(leaky, mode, fields[0].value) == Some(value)
    ensures Prefixed(done, SanitizeFields(leaky, mode, fields))
         == Prefixed(done + [Entry(fields[0].key, value)], SanitizeFields(leaky, mode, fields[1..]))
  {
    match SanitizeFields(leaky, mode, fields[1..])
    case None =>
    case Some(rest) => Regroup(done, Entry(fields[0].key, value), rest);
  }
}
