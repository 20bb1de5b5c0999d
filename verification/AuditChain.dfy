/** The append-only audit log: events chained by hashes, and the verifier of such chains.
    The hash is a parameter, a function from record bodies to digests; no theorem assumes
    more of it than that equal bodies have equal digests. */
module AuditChain {
  import opened Tasks

  datatype Value = Text(text: string) | Number(number: int) | Null

  /** What a caller records. `payload` is None when a raw record's payload is not a mapping. */
  datatype Entry = Entry(eventType: string, message: string, payload: Option<map<string, Value>>)

  /** A raw record, as read back from a file: the chain fields may be missing. */
  datatype AuditRecord = AuditRecord(
    entry: Entry,
    createdAt: real,
    eventId: string,
    sequence: Option<int>,
    previousHash: Option<string>,
    eventHash: Option<string>)

  /** Everything that is hashed: all fields but the hash itself. */
  datatype Body = Body(
    entry: Entry, createdAt: real, eventId: string, sequence: Option<int>, previousHash: Option<string>)

  type Hash = Body -> string

  const GENESIS_HASH := "0000000000000000000000000000000000000000000000000000000000000000"

  function BodyOf(r: AuditRecord): Body {
    Body(r.entry, r.createdAt, r.eventId, r.sequence, r.previousHash)
  }

  datatype Issue =
    | SequenceMismatch(index: nat, expectedSequence: int, observedSequence: Option<int>)
    | PreviousHashMismatch(index: nat, expected: string, observed: Option<string>)
    | EventHashMismatch(index: nat, expected: string, observed: Option<string>)

  // ---------- the chain property ----------

  /** The hash that record `i` must name as its predecessor. */
  function Link(records: seq<AuditRecord>, i: nat): string
    requires i <= |records|
  {
    if i == 0 then GENESIS_HASH
    else match records[i - 1].eventHash case Some(h) => h case None => ""
  }

  predicate Linked(h: Hash, records: seq<AuditRecord>, i: nat)
    requires i < |records|
  {
    && records[i].sequence == Some(i + 1)
    && records[i].previousHash == Some(Link(records, i))
    && records[i].eventHash == Some(h(BodyOf(records[i])))
  }

  ghost predicate Chain(h: Hash, records: seq<AuditRecord>) {
    forall i :: 0 <= i < |records| ==> Linked(h, records, i)
  }

  /** The issue names a record that breaks the chain the way it says. */
  predicate IsReal(h: Hash, records: seq<AuditRecord>, issue: Issue)
    requires issue.index < |records|
  {
    var r := records[issue.index];
    match issue
    case SequenceMismatch(i, expected, observed) => expected == i + 1 && observed == r.sequence && observed != Some(expected)
    case PreviousHashMismatch(i, expected, observed) =>
      expected == Link(records, i) && observed == r.previousHash && observed != Some(expected)
    case EventHashMismatch(i, expected, observed) =>
      expected == h(BodyOf(r)) && observed == r.eventHash && observed != Some(expected)
  }

  /** `verify_event_records`: it accepts exactly the chains, and every issue it lists is real. */
  method VerifyEventRecords(h: Hash, records: seq<AuditRecord>) returns (issues: seq<Issue>)
    ensures issues == [] <==> Chain(h, records)
    ensures forall issue :: issue in issues ==> issue.index < |records| && IsReal(h, records, issue)
  {
    issues := [];
    var expectedSequence, expectedPreviousHash := 1, GENESIS_HASH;
    for index := 0 to |records|
      invariant expectedSequence == index + 1 && expectedPreviousHash == Link(records, index)
      invariant issues == [] <==> forall i :: 0 <= i < index ==> Linked(h, records, i)
      invariant forall issue :: issue in issues ==> issue.index < index && IsReal(h, records, issue)
    {
      ghost var before := issues;
      var r := records[index];
      var computedHash := h(BodyOf(r));
      if r.sequence != Some(expectedSequence) {
        issues := issues + [SequenceMismatch(index, expectedSequence, r.sequence)];
      }
      if r.previousHash != Some(expectedPreviousHash) {
        issues := issues + [PreviousHashMismatch(index, expectedPreviousHash, r.previousHash)];
      }
      if r.eventHash != Some(computedHash) {
        issues := issues + [EventHashMismatch(index, computedHash, r.eventHash)];
      }
      assert issues == [] <==> before == [] && Linked(h, records, index);
      expectedSequence := expectedSequence + 1;
      expectedPreviousHash := if r.eventHash.Some? then r.eventHash.value else "";
    }
  }

  // ---------- what acceptance guarantees ----------

  /** `_append_event`: the next record after `events`. */
  function NextRecord(h: Hash, events: seq<AuditRecord>, entry: Entry, createdAt: real, eventId: string): AuditRecord {
    var sequence, previous := Some(|events| + 1), Some(Link(events, |events|));
    AuditRecord(entry, createdAt, eventId, sequence, previous, Some(h(Body(entry, createdAt, eventId, sequence, previous))))
  }

  lemma AppendKeepsChain(h: Hash, events: seq<AuditRecord>, entry: Entry, createdAt: real, eventId: string)
    requires Chain(h, events)
    ensures Chain(h, events + [NextRecord(h, events, entry, createdAt, eventId)])
  {
    var r := NextRecord(h, events, entry, createdAt, eventId);
    forall i | 0 <= i < |events + [r]| ensures Linked(h, events + [r], i) {
      assert i < |events| ==> Linked(h, events, i);
    }
  }

  /** Acceptance is prefix-closed: the chain alone cannot show that its tail was cut off. */
  lemma PrefixIsChain(h: Hash, records: seq<AuditRecord>, n: nat)
    requires Chain(h, records) && n <= |records|
    ensures Chain(h, records[..n])
  {
    forall i | 0 <= i < n ensures Linked(h, records[..n], i) {
      assert Linked(h, records, i);
    }
  }

  /** A record of each log, with different bodies that share a digest. */
  ghost predicate Collide(h: Hash, a: seq<AuditRecord>, b: seq<AuditRecord>, i: nat, j: nat) {
    i < |a| && j < |b| && BodyOf(a[i]) != BodyOf(b[j]) && h(BodyOf(a[i])) == h(BodyOf(b[j]))
  }

  lemma {:induction false} SameTailSameLog(h: Hash, a: seq<AuditRecord>, b: seq<AuditRecord>, n: nat)
    requires Chain(h, a) && Chain(h, b) && 0 < n <= |a| && n <= |b|
    requires a[n - 1].eventHash == b[n - 1].eventHash
    ensures a[..n] == b[..n] || exists i, j :: Collide(h, a, b, i, j)
  {
    assert Linked(h, a, n - 1) && Linked(h, b, n - 1);
    if BodyOf(a[n - 1]) != BodyOf(b[n - 1]) {
      assert Collide(h, a, b, n - 1, n - 1);
    } else {
      assert a[n - 1] == b[n - 1];
      if n > 1 {
        assert Linked(h, a, n - 2) && Linked(h, b, n - 2);
        SameTailSameLog(h, a, b, n - 1);
      }
      assert a[..n] == a[..n - 1] + [a[n - 1]] && b[..n] == b[..n - 1] + [b[n - 1]];
    }
  }

  /** Tamper evidence: the last hash of an accepted log pins down the whole log. Two accepted
      logs with the same last hash are identical, unless they exhibit a collision of the hash. */
  lemma LastHashPinsTheLog(h: Hash, a: seq<AuditRecord>, b: seq<AuditRecord>)
    requires Chain(h, a) && Chain(h, b) && a != [] && b != []
    requires a[|a| - 1].eventHash == b[|b| - 1].eventHash
    ensures a == b || exists i, j :: Collide(h, a, b, i, j)
  {
    assert Linked(h, a, |a| - 1) && Linked(h, b, |b| - 1);
    if BodyOf(a[|a| - 1]) == BodyOf(b[|b| - 1]) {
      SameTailSameLog(h, a, b, |a|);
      assert a[..|a|] == a && b[..|b|] == b;
    } else {
      assert Collide(h, a, b, |a| - 1, |b| - 1);
    }
  }

  // ---------- the log object ----------

  predicate LeaksAt(secretLike: string -> bool, key: string, value: Value) {
    secretLike(key) || (value.Text? && secretLike(value.text))
  }

  /** The strings a REJECT-mode boundary looks at in a message and a flat payload. */
  predicate Leaks(secretLike: string -> bool, entry: Entry) {
    || secretLike(entry.message)
    || (entry.payload.Some? && exists k :: k in entry.payload.value && LeaksAt(secretLike, k, entry.payload.value[k]))
  }

  const BLOCKED := "audit.secret_blocked"

  /** `record` replaces an entry that would leak by a notice of its type. */
  function Screened(secretLike: string -> bool, entry: Entry): Entry {
    if Leaks(secretLike, entry) then
      Entry(BLOCKED, "Audit payload contained secret-like value and was blocked",
            Some(map["original_event_type" := Text(entry.eventType), "error_type" := Text("SanitizationError")]))
    else entry
  }

  /** What is recorded: the entry, or a notice in its place iff its message, a key of its payload or
      a text in it is secret-like. */
  lemma ScreenedMeans(secretLike: string -> bool, entry: Entry, notice: Entry)
    requires notice == Entry("audit.secret_blocked", "Audit payload contained secret-like value and was blocked",
      Some(map["original_event_type" := Text(entry.eventType), "error_type" := Text("SanitizationError")]))
    ensures Screened(secretLike, entry) == (if Leaks(secretLike, entry) then notice else entry)
    ensures Leaks(secretLike, entry) <==>
      || secretLike(entry.message)
      || (entry.payload.Some? && exists k :: k in entry.payload.value && secretLike(k))
      || (entry.payload.Some? && exists k :: k in entry.payload.value && entry.payload.value[k].Text? && secretLike(entry.payload.value[k].text))
  {
  }

  function EntriesOf(events: seq<AuditRecord>): seq<Entry> {
    seq(|events|, i requires 0 <= i < |events| => events[i].entry)
  }

  class AuditLog {
    const hash: Hash
    const secretLike: string -> bool
    var events: seq<AuditRecord>

    ghost predicate Valid()
      reads this
    {
      Chain(hash, events)
    }

    ghost function Entries(): seq<Entry>
      reads this
    {
      EntriesOf(events)
    }

    constructor (hash: Hash, secretLike: string -> bool)
      ensures Valid() && events == [] && this.hash == hash && this.secretLike == secretLike
    {
      this.hash := hash;
      this.secretLike := secretLike;
      events := [];
    }

    method AppendEvent(entry: Entry, createdAt: real, eventId: string)
      requires Valid()
      modifies this
      ensures Valid()
      ensures events == old(events) + [NextRecord(hash, old(events), entry, createdAt, eventId)]
      ensures Entries() == old(Entries()) + [entry]
      ensures var previous := if old(events) == [] then Some(GENESIS_HASH) else old(events)[|old(events)| - 1].eventHash;
        var r := events[|old(events)|];
        && r.entry == entry && r.createdAt == createdAt && r.eventId == eventId
        && r.sequence == Some(|events|) && r.previousHash == previous
        && r.eventHash == Some(hash(Body(entry, createdAt, eventId, Some(|events|), previous)))
    {
      AppendKeepsChain(hash, events, entry, createdAt, eventId);
      var previousHash := GENESIS_HASH;
      if events != [] {
        assert Linked(hash, events, |events| - 1);
        previousHash := events[|events| - 1].eventHash.value;
      }
      var body := Body(entry, createdAt, eventId, Some(|events| + 1), Some(previousHash));
      events := events + [AuditRecord(entry, createdAt, eventId, body.sequence, body.previousHash, Some(hash(body)))];
    }

    /** Whatever is recorded, the log stays a chain that the verifier accepts. */
    method Record(entry: Entry)
      requires Valid()
      modifies this
      ensures Valid()
      ensures Entries() == old(Entries()) + [Screened(secretLike, entry)]
    {
      var createdAt: real := *; // time.time()
      var eventId: string := *; // uuid4()
      AppendEvent(Screened(secretLike, entry), createdAt, eventId);
    }
  }
}
