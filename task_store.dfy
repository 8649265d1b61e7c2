/** The `tasks` collection the API routes read and write
    (app/api/tasks/route.ts, `find` and `insertOne`), as an in-memory
    sequence of records in insertion order. A record inserted without an
    `_id` receives a fresh one, rendered as lower-case hexadecimal; a
    record that brings its own `_id` keeps it unless the id is taken, in
    which case the insert fails as a duplicate key. */
module TaskStore {
  import opened TaskTypes
  import Seqs
  import Text

  /** The query document handed to `find`: a constraint is present only when needed. */
  datatype Query = Query(retailer: Option<string>, day: Option<string>)

  /** `{}`: no constraint at all. */
  const EmptyQuery: Query := Query(None, None)

  /** A record satisfies every constraint present: a case-insensitive
      pattern match on `retailer` and on `day`. */
  predicate Matches(q: Query, t: Task) {
    && (q.retailer.None? || Text.ContainsIgnoreCase(t.retailer, q.retailer.value))
    && (q.day.None? || Text.ContainsIgnoreCase(t.day, q.day.value))
  }

  /** `find(query).toArray()`: the matching records in store order. */
  function FindIn(docs: seq<Task>, q: Query): (found: seq<Task>)
    ensures |found| <= |docs|
    ensures forall t :: t in found ==> t in docs && Matches(q, t)
  {
    Seqs.Filter(t => Matches(q, t), docs)
  }

  /** The result is a subsequence of the store holding exactly the matching
      records, none invented or duplicated. */
  lemma FindInSpec(docs: seq<Task>, q: Query)
    ensures Seqs.IsSubsequence(FindIn(docs, q), docs)
    ensures forall t :: t in FindIn(docs, q) <==> t in docs && Matches(q, t)
    ensures forall t :: multiset(FindIn(docs, q))[t] == if Matches(q, t) then multiset(docs)[t] else 0
  {
    var p := t => Matches(q, t);
    Seqs.FilterIsSubsequence(p, docs);
    forall t ensures t in Seqs.Filter(p, docs) <==> t in docs && p(t) {
      Seqs.FilterMembership(p, docs, t);
    }
    forall t ensures multiset(Seqs.Filter(p, docs))[t] == if p(t) then multiset(docs)[t] else 0 {
      Seqs.FilterCount(p, docs, t);
    }
  }

  /** The empty query returns the whole store, in order. */
  lemma EmptyQueryFindsAll(docs: seq<Task>)
    ensures FindIn(docs, EmptyQuery) == docs
  {
    Seqs.FilterKeepsAll(t => Matches(EmptyQuery, t), docs);
  }

  /** Records found in a store with distinct ids have distinct ids. */
  lemma FindInDistinctIds(docs: seq<Task>, q: Query)
    requires HasIds(docs) && DistinctIds(docs)
    ensures HasIds(FindIn(docs, q)) && DistinctIds(FindIn(docs, q))
  {
    FindInSpec(docs, q);
    assert multiset(FindIn(docs, q)) <= multiset(docs);
    DistinctIdsOfSubMultiset(docs, FindIn(docs, q));
  }

  // ---------------------------------------------------------------------
  // Identifiers
  // ---------------------------------------------------------------------

  function HexDigit(d: nat): (c: char)
    requires d < 16
  {
    if d < 10 then ('0' as int + d) as char else ('a' as int + d - 10) as char
  }

  /** The value of a hexadecimal digit; any other character counts as zero. */
  function DigitValue(c: char): (v: nat)
    ensures v < 16
  {
    if '0' <= c <= '9' then c as int - '0' as int
    else if 'a' <= c <= 'f' then c as int - 'a' as int + 10
    else 0
  }

  /** The id generated from counter value `n`: its hexadecimal rendering. */
  function HexId(n: nat): (s: string)
    ensures |s| > 0
    decreases n
  {
    if n < 16 then [HexDigit(n)] else HexId(n / 16) + [HexDigit(n % 16)]
  }

  /** Reads a string as a hexadecimal number. */
  function HexValue(s: string): nat
    decreases |s|
  {
    if s == [] then 0 else HexValue(s[..|s| - 1]) * 16 + DigitValue(s[|s| - 1])
  }

  lemma {:induction false} HexRoundTrip(n: nat)
    ensures HexValue(HexId(n)) == n
    decreases n
  {
    if n >= 16 {
      HexRoundTrip(n / 16);
      var s := HexId(n / 16) + [HexDigit(n % 16)];
      assert s[..|s| - 1] == HexId(n / 16);
    }
  }

  /** Distinct counter values give distinct ids. */
  lemma HexIdInjective(m: nat, n: nat)
    ensures HexId(m) == HexId(n) ==> m == n
  {
    HexRoundTrip(m);
    HexRoundTrip(n);
  }

  class TaskCollection {
    var docs: seq<Task>
    var nextId: nat

    /** Every stored record has an id, no id is stored twice, and the
        counter is past the value of every stored id. */
    ghost predicate Valid()
      reads this
    {
      && HasIds(docs)
      && DistinctIds(docs)
      && forall i :: 0 <= i < |docs| ==> HexValue(docs[i].id.value) < nextId
    }

    constructor ()
      ensures Valid()
      ensures docs == []
    {
      docs := [];
      nextId := 0;
    }

    /** `insertOne(doc)`: on success the store holds exactly one more record,
        whose id was not present before; a duplicate id leaves it unchanged. */
    method InsertOne(doc: Task) returns (insertedId: Option<string>)
      requires Valid()
      modifies this
      ensures Valid()
      ensures doc.id.Some? && doc.id.value in old(IdSet(docs)) ==> insertedId == None
      ensures doc.id.Some? && doc.id.value !in old(IdSet(docs)) ==> insertedId == doc.id
      ensures doc.id.None? ==> insertedId == Some(HexId(old(nextId)))
      ensures insertedId.None? ==> docs == old(docs)
      ensures insertedId.Some? ==>
                && insertedId.value !in old(IdSet(docs))
                && docs == old(docs) + [doc.(id := insertedId)]
    {
      if doc.id.Some? {
        if doc.id.value in IdSet(docs) {
          insertedId := None;
          return;
        }
        insertedId := doc.id;
        if nextId <= HexValue(doc.id.value) {
          nextId := HexValue(doc.id.value) + 1;
        }
      } else {
        HexRoundTrip(nextId);
        insertedId := Some(HexId(nextId));
        assert insertedId.value !in IdSet(docs);
        nextId := nextId + 1;
      }
      docs := docs + [doc.(id := insertedId)];
    }
  }
}
