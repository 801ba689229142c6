/** The audit log: one hash chain per organization, interleaved in one table
    (apps/api/app/audit.py). Hashing the canonical JSON is a parameter. */
module Audit {
  import opened Common

  /** None is the scope of system-level events. */
  datatype Fields = Fields(
    actor: Option<nat>, org: Option<nat>, action: string, entityType: string, entityId: Option<nat>,
    payload: map<string, string>, occurredAt: int)

  datatype Event = Event(fields: Fields, prev: Option<string>, entry: string)

  type Hash = (Fields, Option<string>) -> string

  /** No two different (fields, previous hash) pairs share a hash. */
  ghost predicate Injective(hash: Hash) {
    forall a, p, b, q :: hash(a, p) == hash(b, q) ==> a == b && p == q
  }

  /** The organization's events, in sequence order. */
  function ChainOf(events: seq<Event>, org: Option<nat>): (chain: seq<Event>) {
    if events == [] then []
    else
      var k := |events| - 1;
      ChainOf(events[..k], org) + if events[k].fields.org == org then [events[k]] else []
  }

  function LastHash(chain: seq<Event>): (last: Option<string>) {
    if chain == [] then None else Some(chain[|chain| - 1].entry)
  }

  /** The organization's event with the highest sequence number. */
  function Latest(events: seq<Event>, org: Option<nat>): (r: Option<Event>)
    ensures LastHash(ChainOf(events, org)) == if r.Some? then Some(r.value.entry) else None
  {
    if events == [] then None
    else
      var k := |events| - 1;
      if events[k].fields.org == org then Some(events[k]) else Latest(events[..k], org)
  }

  function Recorded(hash: Hash, events: seq<Event>, fields: Fields): (events': seq<Event>) {
    var last := Latest(events, fields.org);
    var prev := if last.Some? then Some(last.value.entry) else None;
    events + [Event(fields, prev, hash(fields, prev))]
  }

  class AuditLog {
    const hash: Hash
    var events: seq<Event>

    constructor (hash: Hash)
      ensures this.hash == hash && events == []
    {
      this.hash := hash;
      events := [];
    }

    method RecordEvent(fields: Fields) returns (event: Event)
      modifies this
      ensures events == Recorded(hash, old(events), fields) && event == events[|events| - 1]
    {
      var last := Latest(events, fields.org);
      var prev := if last.Some? then Some(last.value.entry) else None;
      event := Event(fields, prev, hash(fields, prev));
      events := events + [event];
    }
  }

  // ----- verification -----

  predicate LinkHolds(hash: Hash, chain: seq<Event>, i: nat)
    requires i < |chain|
  {
    && chain[i].prev == LastHash(chain[..i])
    && chain[i].entry == hash(chain[i].fields, chain[i].prev)
  }

  predicate Verified(hash: Hash, chain: seq<Event>) {
    forall i | 0 <= i < |chain| :: LinkHolds(hash, chain, i)
  }

  method VerifyChain(hash: Hash, events: seq<Event>) returns (ok: bool)
    ensures ok <==> Verified(hash, events)
  {
    for index := 0 to |events|
      invariant forall i | 0 <= i < index :: LinkHolds(hash, events, i)
    {
      var expectedPrev := if index > 0 then Some(events[index - 1].entry) else None;
      assert expectedPrev == LastHash(events[..index]);
      if events[index].prev != expectedPrev {
        assert !LinkHolds(hash, events, index);
        return false;
      }
      if hash(events[index].fields, events[index].prev) != events[index].entry {
        assert !LinkHolds(hash, events, index);
        return false;
      }
    }
    ok := true;
  }

  lemma VerifiedAppend(hash: Hash, chain: seq<Event>, event: Event)
    ensures Verified(hash, chain + [event])
       <==> Verified(hash, chain) && event.prev == LastHash(chain) && event.entry == hash(event.fields, event.prev)
  {
    var longer := chain + [event];
    assert longer[..|chain|] == chain;
    forall i | 0 <= i < |chain| ensures LinkHolds(hash, longer, i) <==> LinkHolds(hash, chain, i) {
      assert longer[..i] == chain[..i];
    }
    assert LinkHolds(hash, longer, |chain|)
      <==> event.prev == LastHash(chain) && event.entry == hash(event.fields, event.prev);
  }

  function Log(hash: Hash, records: seq<Fields>): (events: seq<Event>) {
    if records == [] then []
    else Recorded(hash, Log(hash, records[..|records| - 1]), records[|records| - 1])
  }

  function FieldsOf(records: seq<Fields>, org: Option<nat>): (own: seq<Fields>) {
    if records == [] then []
    else
      var k := |records| - 1;
      FieldsOf(records[..k], org) + if records[k].org == org then [records[k]] else []
  }

  function Contents(chain: seq<Event>): (fields: seq<Fields>) {
    seq(|chain|, i requires 0 <= i < |chain| => chain[i].fields)
  }

  /** Recording extends the organization's own chain by one event that fits, and no other chain. */
  lemma RecordExtends(hash: Hash, events: seq<Event>, fields: Fields, org: Option<nat>)
    ensures var chain, chain' := ChainOf(events, org), ChainOf(Recorded(hash, events, fields), org);
            && (fields.org != org ==> chain' == chain)
            && (fields.org == org ==>
                  chain' == chain + [Event(fields, LastHash(chain), hash(fields, LastHash(chain)))])
  {
    var after := Recorded(hash, events, fields);
    assert after[..|events|] == events;
  }

  /** However recordings of all organizations interleave, each organization's own events verify, and
      are its recordings in order. */
  lemma {:induction false} EveryChainVerifies(hash: Hash, records: seq<Fields>, org: Option<nat>)
    ensures Verified(hash, ChainOf(Log(hash, records), org))
    ensures Contents(ChainOf(Log(hash, records), org)) == FieldsOf(records, org)
  {
    if records != [] {
      var k := |records| - 1;
      EveryChainVerifies(hash, records[..k], org);
      var before := Log(hash, records[..k]);
      RecordExtends(hash, before, records[k], org);
      if records[k].org == org {
        var chain := ChainOf(before, org);
        var event := Event(records[k], LastHash(chain), hash(records[k], LastHash(chain)));
        VerifiedAppend(hash, chain, event);
        assert Contents(chain + [event]) == Contents(chain) + [event.fields];
      }
    }
  }

  /** The last hash fixes the whole chain: two chains that verify and end in one hash are equal, in
      length and in every event. */
  lemma {:induction false} LastHashFixesChain(hash: Hash, a: seq<Event>, b: seq<Event>)
    requires Injective(hash) && Verified(hash, a) && Verified(hash, b)
    requires LastHash(a) == LastHash(b)
    ensures a == b
  {
    if a != [] && b != [] {
      var m, n := |a| - 1, |b| - 1;
      assert LinkHolds(hash, a, m) && LinkHolds(hash, b, n);
      assert a == a[..m] + [a[m]] && b == b[..n] + [b[n]];
      VerifiedAppend(hash, a[..m], a[m]);
      VerifiedAppend(hash, b[..n], b[n]);
      LastHashFixesChain(hash, a[..m], b[..n]);
    }
  }

  /** Rewriting any part of a recorded chain is detected, or changes its last hash. */
  lemma TamperingShows(hash: Hash, records: seq<Fields>, org: Option<nat>, altered: seq<Event>)
    requires Injective(hash)
    ensures var chain := ChainOf(Log(hash, records), org);
            altered != chain ==> !Verified(hash, altered) || LastHash(altered) != LastHash(chain)
  {
    EveryChainVerifies(hash, records, org);
    var chain := ChainOf(Log(hash, records), org);
    if Verified(hash, altered) && LastHash(altered) == LastHash(chain) {
      LastHashFixesChain(hash, altered, chain);
    }
  }
}
