/** The Ollama enrichment stage: the model's output is cut down to the text
    from its first '[' to its last ']', parsed, and merged into the endpoint records by the key
    (upper-cased method, path). The merge writes into the original records. */
module Ollama {
  import opened Types
  import opened Text

  type Key = (string, string)

  /** `_key`: the upper-cased method and the path, absent fields read as "". */
  function KeyOf(httpMethod: Option<string>, path: Option<string>): Key {
    (Upper(httpMethod.GetOr("")), path.GetOr(""))
  }

  function EndpointKey(ep: Endpoint): Key {
    KeyOf(ep.httpMethod, ep.path)
  }

  /** The key does not depend on the case of the method. */
  lemma {:induction false} KeyIgnoresCase(m: string, p: Option<string>)
    ensures KeyOf(Some(Upper(m)), p) == KeyOf(Some(m), p)
    ensures KeyOf(Some(m), p).0 == Upper(KeyOf(Some(m), p).0)
  {
    UpperIdempotent(m);
  }

  /** One element of the parsed JSON array: an object with the fields the
      merge reads, or any other JSON value. */
  datatype EnrichedItem =
    | EnrichedRecord(httpMethod: Option<string>, path: Option<string>,
                     summary: Option<string>, description: Option<string>)
    | NotARecord

  // ---------------------------------------------------------------------
  // The dictionary `base = { _key(ep): ep for ep in original }`
  // ---------------------------------------------------------------------

  /** The dictionary built from the first `n` records, as key -> position of
      the record it holds. */
  function Slots(s: seq<Endpoint>, n: nat): map<Key, nat>
    requires n <= |s|
  {
    if n == 0 then map[] else Slots(s, n - 1)[EndpointKey(s[n - 1]) := n - 1]
  }

  /** The dictionary's keys in insertion order. */
  function KeyOrder(s: seq<Endpoint>, n: nat): seq<Key>
    requires n <= |s|
  {
    if n == 0 then []
    else
      var k := EndpointKey(s[n - 1]);
      KeyOrder(s, n - 1) + (if k in Slots(s, n - 1) then [] else [k])
  }

  /** Each key of the dictionary holds the last record with that key, and
      every record's key is in it. */
  lemma {:induction false} SlotsHold(s: seq<Endpoint>, n: nat)
    requires n <= |s|
    ensures forall k :: k in Slots(s, n) ==> Slots(s, n)[k] < n && EndpointKey(s[Slots(s, n)[k]]) == k
    ensures forall i :: 0 <= i < n ==> EndpointKey(s[i]) in Slots(s, n)
    ensures forall i :: 0 <= i < n ==> i <= Slots(s, n)[EndpointKey(s[i])]
  {
    if n > 0 {
      SlotsHold(s, n - 1);
    }
  }

  /** The key order lists exactly the dictionary's keys, each once. */
  lemma {:induction false} KeyOrderHolds(s: seq<Endpoint>, n: nat)
    requires n <= |s|
    ensures |KeyOrder(s, n)| <= n
    ensures forall j :: 0 <= j < |KeyOrder(s, n)| ==> KeyOrder(s, n)[j] in Slots(s, n)
    ensures forall k :: k in Slots(s, n) ==> k in KeyOrder(s, n)
    ensures forall j, j' :: 0 <= j < j' < |KeyOrder(s, n)| ==> KeyOrder(s, n)[j] != KeyOrder(s, n)[j']
  {
    if n > 0 {
      KeyOrderHolds(s, n - 1);
    }
  }

  /** A key is placed where its first record occurs: the key of record `i`,
      when no earlier record has it, sits at position |KeyOrder(s, i)|, so
      keys appear in the order of their first occurrence. */
  lemma {:induction false} KeyOrderFirstOccurrence(s: seq<Endpoint>, i: nat, n: nat)
    requires i < n <= |s|
    requires EndpointKey(s[i]) !in Slots(s, i)
    ensures |KeyOrder(s, i)| < |KeyOrder(s, n)|
    ensures KeyOrder(s, n)[|KeyOrder(s, i)|] == EndpointKey(s[i])
  {
    if n > i + 1 {
      KeyOrderFirstOccurrence(s, i, n - 1);
    }
  }

  /** `list(base.values())`: the records the dictionary holds, key by key. */
  function Values(a: seq<Endpoint>, slots: map<Key, nat>, order: seq<Key>): seq<Endpoint>
  {
    if |order| == 0 then []
    else
      var rest := Values(a, slots, order[1..]);
      if order[0] in slots && slots[order[0]] < |a| then [a[slots[order[0]]]] + rest else rest
  }

  lemma {:induction false} ValuesAt(a: seq<Endpoint>, slots: map<Key, nat>, order: seq<Key>)
    requires forall j :: 0 <= j < |order| ==> order[j] in slots && slots[order[j]] < |a|
    ensures |Values(a, slots, order)| == |order|
    ensures forall j :: 0 <= j < |order| ==> Values(a, slots, order)[j] == a[slots[order[j]]]
  {
    if |order| > 0 {
      ValuesAt(a, slots, order[1..]);
    }
  }

  // ---------------------------------------------------------------------
  // Applying the enriched entries
  // ---------------------------------------------------------------------

  /** Number of leading entries that are objects: `_key(e)` raises on the
      first entry that is not. */
  function LeadingRecords(es: seq<EnrichedItem>): (n: nat)
    ensures n <= |es|
    ensures forall j :: 0 <= j < n ==> es[j].EnrichedRecord?
    ensures n < |es| ==> es[n].NotARecord?
  {
    if |es| == 0 || es[0].NotARecord? then 0 else 1 + LeadingRecords(es[1..])
  }

  /** Overwrites summary and description with the entry's values when these
      are truthy. */
  function Apply(ep: Endpoint, e: EnrichedItem): Endpoint
    requires e.EnrichedRecord?
  {
    ep.(summary := if Truthy(e.summary) then e.summary else ep.summary,
        description := if Truthy(e.description) then e.description else ep.description)
  }

  /** Every key of the dictionary names a record with that key. */
  ghost predicate SlotsFit(a: seq<Endpoint>, slots: map<Key, nat>) {
    forall k :: k in slots ==> slots[k] < |a| && EndpointKey(a[slots[k]]) == k
  }

  function ApplyEntry(a: seq<Endpoint>, slots: map<Key, nat>, e: EnrichedItem): seq<Endpoint>
    requires e.EnrichedRecord?
  {
    var k := KeyOf(e.httpMethod, e.path);
    if k in slots && slots[k] < |a| then a[slots[k] := Apply(a[slots[k]], e)] else a
  }

  /** The records after the loop over the first `n` entries. */
  function ApplyEntries(a: seq<Endpoint>, slots: map<Key, nat>, es: seq<EnrichedItem>, n: nat): seq<Endpoint>
    requires n <= |es|
    requires forall j :: 0 <= j < n ==> es[j].EnrichedRecord?
  {
    if n == 0 then a else ApplyEntry(ApplyEntries(a, slots, es, n - 1), slots, es[n - 1])
  }

  /** What `_merge` leaves in the original records, and what it returns
      (None when it raises on an entry that is not an object). */
  function MergeSpec(s: seq<Endpoint>, es: seq<EnrichedItem>): (seq<Endpoint>, Option<seq<Endpoint>>)
  {
    var n := LeadingRecords(es);
    var slots := Slots(s, |s|);
    var a := ApplyEntries(s, slots, es, n);
    (a, if n < |es| then None else Some(Values(a, slots, KeyOrder(s, |s|))))
  }

  /** The first loop of `_merge`: the dictionary of the original records by
      key, and its keys in insertion order. */
  method IndexByKey(original: array<Endpoint>) returns (slots: map<Key, nat>, order: seq<Key>)
    ensures slots == Slots(original[..], original.Length)
    ensures order == KeyOrder(original[..], original.Length)
  {
    slots := map[];
    order := [];
    for i := 0 to original.Length
      invariant slots == Slots(original[..], i) && order == KeyOrder(original[..], i)
    {
      var k := EndpointKey(original[i]);
      if k !in slots {
        order := order + [k];
      }
      slots := slots[k := i];
    }
  }

  /** `_merge`, updating the original records in place. */
  method Merge(original: array<Endpoint>, enriched: seq<EnrichedItem>) returns (merged: Option<seq<Endpoint>>)
    modifies original
    ensures (original[..], merged) == MergeSpec(old(original[..]), enriched)
  {
    ghost var s := original[..];
    var slots, order := IndexByKey(original);
    assert forall k :: k in slots ==> slots[k] < original.Length by {
      SlotsHold(s, |s|);
    }
    for j := 0 to |enriched|
      invariant forall t :: 0 <= t < j ==> enriched[t].EnrichedRecord?
      invariant original[..] == ApplyEntries(s, slots, enriched, j)
    {
      var e := enriched[j];
      if e.NotARecord? {
        assert LeadingRecords(enriched) == j;
        return None;
      }
      ghost var before := original[..];
      var k := KeyOf(e.httpMethod, e.path);
      if k in slots {
        var idx := slots[k];
        if Truthy(e.summary) {
          original[idx] := original[idx].(summary := e.summary);
        }
        if Truthy(e.description) {
          original[idx] := original[idx].(description := e.description);
        }
        assert original[..] == before[idx := Apply(before[idx], e)];
      }
      assert original[..] == ApplyEntry(before, slots, e);
    }
    assert LeadingRecords(enriched) == |enriched|;
    merged := Some(Values(original[..], slots, order));
  }

  // ---------------------------------------------------------------------
  // What the merge does to each record
  // ---------------------------------------------------------------------

  datatype Field = Summary | Description

  function FieldOf(e: EnrichedItem, f: Field): Option<string>
    requires e.EnrichedRecord?
  {
    match f
    case Summary => e.summary
    case Description => e.description
  }

  /** The value a field ends with: the last truthy value among the first `n`
      entries with key `k`, or `orig` when there is none. */
  function LastTruthy(orig: Option<string>, es: seq<EnrichedItem>, n: nat, k: Key, f: Field): Option<string>
    requires n <= |es|
  {
    if n == 0 then orig
    else
      var e := es[n - 1];
      if e.EnrichedRecord? && KeyOf(e.httpMethod, e.path) == k && Truthy(FieldOf(e, f)) then FieldOf(e, f)
      else LastTruthy(orig, es, n - 1, k, f)
  }

  /** The record after all `n` entries have been applied to it. */
  function Updated(ep: Endpoint, es: seq<EnrichedItem>, n: nat): Endpoint
    requires n <= |es|
  {
    ep.(summary := LastTruthy(ep.summary, es, n, EndpointKey(ep), Summary),
        description := LastTruthy(ep.description, es, n, EndpointKey(ep), Description))
  }

  /** Record `i` is the one the dictionary holds for its key. */
  predicate IsSlot(a: seq<Endpoint>, slots: map<Key, nat>, i: nat)
    requires i < |a|
  {
    EndpointKey(a[i]) in slots && slots[EndpointKey(a[i])] == i
  }

  lemma {:induction false} ApplyEntriesKeepsKeys(a: seq<Endpoint>, slots: map<Key, nat>, es: seq<EnrichedItem>, n: nat)
    requires n <= |es|
    requires forall j :: 0 <= j < n ==> es[j].EnrichedRecord?
    ensures |ApplyEntries(a, slots, es, n)| == |a|
    ensures forall i :: 0 <= i < |a| ==> EndpointKey(ApplyEntries(a, slots, es, n)[i]) == EndpointKey(a[i])
  {
    if n > 0 {
      ApplyEntriesKeepsKeys(a, slots, es, n - 1);
    }
  }

  /** Only the record the dictionary holds for a key is written, and it ends
      with the last truthy summary and description of the entries with its
      key; every other record is left as it was. */
  lemma {:induction false} ApplyEntriesAt(a: seq<Endpoint>, slots: map<Key, nat>, es: seq<EnrichedItem>, n: nat, i: nat)
    requires SlotsFit(a, slots)
    requires n <= |es|
    requires forall j :: 0 <= j < n ==> es[j].EnrichedRecord?
    requires i < |a|
    ensures |ApplyEntries(a, slots, es, n)| == |a|
    ensures ApplyEntries(a, slots, es, n)[i] == if IsSlot(a, slots, i) then Updated(a[i], es, n) else a[i]
  {
    ApplyEntriesKeepsKeys(a, slots, es, n);
    if n > 0 {
      ApplyEntriesAt(a, slots, es, n - 1, i);
      var e := es[n - 1];
      var k := KeyOf(e.httpMethod, e.path);
      if k in slots && slots[k] == i {
        assert EndpointKey(a[i]) == k;
      }
    }
  }

  lemma {:induction false} LastTruthyIdempotent(orig: Option<string>, es: seq<EnrichedItem>, n: nat, k: Key, f: Field)
    requires n <= |es|
    ensures LastTruthy(LastTruthy(orig, es, n, k, f), es, n, k, f) == LastTruthy(orig, es, n, k, f)
  {
    if n > 0 {
      var e := es[n - 1];
      if !(e.EnrichedRecord? && KeyOf(e.httpMethod, e.path) == k && Truthy(FieldOf(e, f))) {
        LastTruthyIdempotent(orig, es, n - 1, k, f);
      }
    }
  }

  /** With no entry of key `k`, a field keeps its original value. */
  lemma {:induction false} LastTruthyUnmatched(orig: Option<string>, es: seq<EnrichedItem>, n: nat, k: Key, f: Field)
    requires n <= |es|
    requires forall j :: 0 <= j < n && es[j].EnrichedRecord? ==> KeyOf(es[j].httpMethod, es[j].path) != k
    ensures LastTruthy(orig, es, n, k, f) == orig
  {
    if n > 0 {
      LastTruthyUnmatched(orig, es, n - 1, k, f);
    }
  }

  // ---------------------------------------------------------------------
  // Properties of the merge
  // ---------------------------------------------------------------------

  /** The merge never changes the length of the original list nor any field
      but summary and description, and it returns a list exactly when every
      entry is an object. */
  lemma {:induction false} MergeKeepsProvenance(s: seq<Endpoint>, es: seq<EnrichedItem>)
    ensures var (a, merged) := MergeSpec(s, es);
      && |a| == |s|
      && (forall i :: 0 <= i < |s| ==>
            a[i].(summary := s[i].summary, description := s[i].description) == s[i])
      && (merged.Some? <==> forall j :: 0 <= j < |es| ==> es[j].EnrichedRecord?)
  {
    var n := LeadingRecords(es);
    var slots := Slots(s, |s|);
    SlotsHold(s, |s|);
    ApplyEntriesKeepsKeys(s, slots, es, n);
    var a := MergeSpec(s, es).0;
    forall i | 0 <= i < |s|
      ensures a[i].(summary := s[i].summary, description := s[i].description) == s[i]
    {
      ApplyEntriesAt(s, slots, es, n, i);
    }
  }

  /** The returned list holds one record per distinct key of the original
      list, in order of first occurrence, each the last original record with
      its key after the entries were applied. */
  lemma {:induction false} MergeOnePerKey(s: seq<Endpoint>, es: seq<EnrichedItem>)
    requires forall j :: 0 <= j < |es| ==> es[j].EnrichedRecord?
    ensures var merged := MergeSpec(s, es).1;
      var order := KeyOrder(s, |s|);
      && merged.Some?
      && |merged.value| == |order| <= |s|
      && (forall j :: 0 <= j < |order| ==>
            order[j] in Slots(s, |s|) && Slots(s, |s|)[order[j]] < |s|
            && merged.value[j] == Updated(s[Slots(s, |s|)[order[j]]], es, |es|)
            && EndpointKey(merged.value[j]) == order[j])
      && (forall i :: 0 <= i < |s| ==> EndpointKey(s[i]) in order)
  {
    var n := LeadingRecords(es);
    var slots := Slots(s, |s|);
    SlotsHold(s, |s|);
    KeyOrderHolds(s, |s|);
    ApplyEntriesKeepsKeys(s, slots, es, n);
    var a := MergeSpec(s, es).0;
    var merged := MergeSpec(s, es).1;
    var order := KeyOrder(s, |s|);
    ValuesAt(a, slots, order);
    forall j | 0 <= j < |order|
      ensures merged.value[j] == Updated(s[slots[order[j]]], es, |es|)
    {
      ApplyEntriesAt(s, slots, es, n, slots[order[j]]);
    }
  }

  /** A record is left exactly as it was when no entry carries its key, or
      when a later record with the same key shadows it in the dictionary. */
  lemma {:induction false} MergeLeavesUnmatched(s: seq<Endpoint>, es: seq<EnrichedItem>, i: nat)
    requires i < |s|
    requires !IsSlot(s, Slots(s, |s|), i)
             || forall j :: 0 <= j < |es| && es[j].EnrichedRecord? ==> KeyOf(es[j].httpMethod, es[j].path) != EndpointKey(s[i])
    ensures |MergeSpec(s, es).0| == |s| && MergeSpec(s, es).0[i] == s[i]
  {
    var n := LeadingRecords(es);
    ApplyEntriesKeepsKeys(s, Slots(s, |s|), es, n);
    SlotsHold(s, |s|);
    ApplyEntriesAt(s, Slots(s, |s|), es, n, i);
    if IsSlot(s, Slots(s, |s|), i) {
      LastTruthyUnmatched(s[i].summary, es, n, EndpointKey(s[i]), Summary);
      LastTruthyUnmatched(s[i].description, es, n, EndpointKey(s[i]), Description);
    }
  }

  lemma {:induction false} SlotsOfSameKeys(s: seq<Endpoint>, t: seq<Endpoint>, n: nat)
    requires n <= |s| == |t|
    requires forall i :: 0 <= i < |s| ==> EndpointKey(s[i]) == EndpointKey(t[i])
    ensures Slots(s, n) == Slots(t, n) && KeyOrder(s, n) == KeyOrder(t, n)
  {
    if n > 0 {
      SlotsOfSameKeys(s, t, n - 1);
    }
  }

  /** Merging the same entries a second time changes nothing. */
  lemma {:induction false} MergeIdempotent(s: seq<Endpoint>, es: seq<EnrichedItem>)
    ensures MergeSpec(MergeSpec(s, es).0, es) == MergeSpec(s, es)
  {
    var n := LeadingRecords(es);
    var slots := Slots(s, |s|);
    var a := MergeSpec(s, es).0;
    SlotsHold(s, |s|);
    ApplyEntriesKeepsKeys(s, slots, es, n);
    SlotsOfSameKeys(s, a, |s|);
    var b := MergeSpec(a, es).0;
    ApplyEntriesKeepsKeys(a, slots, es, n);
    forall i | 0 <= i < |s|
      ensures b[i] == a[i]
    {
      ApplyEntriesAt(s, slots, es, n, i);
      ApplyEntriesAt(a, slots, es, n, i);
      if IsSlot(s, slots, i) {
        LastTruthyIdempotent(s[i].summary, es, n, EndpointKey(s[i]), Summary);
        LastTruthyIdempotent(s[i].description, es, n, EndpointKey(s[i]), Description);
      }
    }
    assert b == a;
  }

  // ---------------------------------------------------------------------
  // enhance_with_ollama
  // ---------------------------------------------------------------------

  /** The result of running `ollama run <model>`: the program is missing, or
      it ran and wrote this (decoded) standard output. */
  datatype RunOutcome = NotInstalled | Finished(stdout: string)

  /** The result of `json.loads` on the array candidate. */
  datatype Parsed = ParseError | NotAList | AList(items: seq<EnrichedItem>)

  /** `text[start:end+1]` between the first '[' and the last ']', or None when
      either is missing or `end <= start`. */
  function ArrayCandidate(text: string): Option<string>
  {
    var start := Find(text, '[');
    var end := RFind(text, ']');
    if start == -1 || end == -1 || end <= start then None else Some(text[start..end + 1])
  }

  /** A candidate exists exactly when some '[' comes before some ']'. */
  lemma ArrayCandidateExists(text: string)
    ensures ArrayCandidate(text).Some?
            <==> exists i, j :: 0 <= i < j < |text| && text[i] == '[' && text[j] == ']'
  {
    FindSpec(text, '[');
    RFindSpec(text, ']');
    if exists i, j :: 0 <= i < j < |text| && text[i] == '[' && text[j] == ']' {
      var i, j :| 0 <= i < j < |text| && text[i] == '[' && text[j] == ']';
      assert text[i] in text && text[j] in text;
    }
  }

  /** A candidate runs from the first '[' of the text to its last ']'. */
  lemma ArrayCandidateShape(text: string)
    requires ArrayCandidate(text).Some?
    ensures var c := ArrayCandidate(text).value;
            && 2 <= |c| && c[0] == '[' && c[|c| - 1] == ']'
            && exists i :: 0 <= i < |text| && text[i] == '[' && i + |c| <= |text| && text[i..i + |c|] == c
                           && (forall k :: 0 <= k < i ==> text[k] != '[')
                           && (forall k :: i + |c| <= k < |text| ==> text[k] != ']')
  {
    FindSpec(text, '[');
    RFindSpec(text, ']');
    var start := Find(text, '[');
    var c := ArrayCandidate(text).value;
    assert text[start..start + |c|] == c;
  }

  /** `enhance_with_ollama`: the records are changed in place only when the
      output holds a parsable JSON list; the returned list is the merge
      result, or the input list itself on every failure path. */
  method EnhanceWithOllama(endpoints: array<Endpoint>, run: RunOutcome, parse: string -> Parsed)
    returns (result: seq<Endpoint>)
    modifies endpoints
    ensures run.NotInstalled? ==> endpoints[..] == old(endpoints[..]) && result == endpoints[..]
    ensures run.Finished? ==>
      var candidate := ArrayCandidate(Strip(run.stdout, Whitespace));
      && (candidate.None? || !parse(candidate.value).AList? ==>
            endpoints[..] == old(endpoints[..]) && result == endpoints[..])
      && (candidate.Some? && parse(candidate.value).AList? ==>
            var (after, merged) := MergeSpec(old(endpoints[..]), parse(candidate.value).items);
            endpoints[..] == after && result == if merged.Some? then merged.value else after)
  {
    if run.NotInstalled? {
      return endpoints[..];
    }
    var candidate := ArrayCandidate(Strip(run.stdout, Whitespace));
    if candidate.None? {
      return endpoints[..];
    }
    var parsed := parse(candidate.value);
    if parsed.AList? {
      var merged := Merge(endpoints, parsed.items);
      if merged.Some? {
        return merged.value;
      }
    }
    return endpoints[..];
  }
}
