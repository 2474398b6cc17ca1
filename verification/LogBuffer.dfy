/**
 The web UI's log ring buffer (otelcol/extensions/statuscfgextension/logbuffer.go).
 The ghost field `log` is the plain log the ring stands for: everything pushed since
 the last clear. Case folding is the platform's, so it is a parameter.
 */
module LogBuffer {
  import opened Sequences
  import opened Text

  const LOG_BUFFER_CAPACITY := 500

  datatype LogEntry = LogEntry(
    timestamp: int,
    severity: string,
    body: string,
    attributes: map<string, string>,
    resource: map<string, string>)

  const ZERO_ENTRY := LogEntry(0, "", "", map[], map[])

  /** strings.ToLower and strings.EqualFold. */
  datatype Folding = Folding(lower: string -> string, equalFold: (string, string) -> bool)

  /** Snapshot's four arguments. */
  datatype Filter = Filter(query: string, severity: string, attrKey: string, attrValue: string)

  /** Indexing a Go map: a missing key reads as the empty string. */
  function Lookup(m: map<string, string>, key: string): string {
    if key in m then m[key] else ""
  }

  predicate AnyPairContains(m: map<string, string>, query: string, lower: string -> string) {
    exists k :: k in m && (Contains(lower(k), query) || Contains(lower(m[k]), query))
  }

  predicate Meets(e: LogEntry, f: Filter, fold: Folding) {
    && (f.severity == "" || fold.equalFold(e.severity, f.severity))
    && (f.attrKey == ""
        || Lookup(e.attributes, f.attrKey) == f.attrValue || Lookup(e.resource, f.attrKey) == f.attrValue)
    && (var query := fold.lower(f.query);
        query == "" || Contains(fold.lower(e.body), query)
        || AnyPairContains(e.attributes, query, fold.lower) || AnyPairContains(e.resource, query, fold.lower))
  }

  /** Everything of an entry that is searched. */
  function Texts(e: LogEntry): set<string> {
    {e.body} + e.attributes.Keys + e.attributes.Values + e.resource.Keys + e.resource.Values
  }

  /** The map has this value under the key, or lacks the key and nothing is asked for. */
  predicate Carries(m: map<string, string>, key: string, value: string) {
    (key in m ==> m[key] == value) && (key !in m ==> value == "")
  }

  /** An entry is shown if it meets each filter that is set: its severity, an attribute of its
      own or of its resource, and the query in any of its texts. */
  lemma MeetsIff(e: LogEntry, f: Filter, fold: Folding)
    ensures Meets(e, f, fold) <==>
            && (f.severity != "" ==> fold.equalFold(e.severity, f.severity))
            && (f.attrKey != "" ==> exists m :: m in {e.attributes, e.resource} && Carries(m, f.attrKey, f.attrValue))
            && exists text :: text in Texts(e) && Contains(fold.lower(text), fold.lower(f.query))
  {
    hide Contains;
    var query := fold.lower(f.query);
    assert f.attrKey != "" ==>
           ((exists m :: m in {e.attributes, e.resource} && Carries(m, f.attrKey, f.attrValue)) <==>
            Carries(e.attributes, f.attrKey, f.attrValue) || Carries(e.resource, f.attrKey, f.attrValue));
    PairContainsIff(e.attributes, query, fold.lower);
    PairContainsIff(e.resource, query, fold.lower);
    if query == "" {
      EmptyIsContained(fold.lower(e.body));
      assert e.body in Texts(e);
    }
  }

  lemma PairContainsIff(m: map<string, string>, query: string, lower: string -> string)
    ensures AnyPairContains(m, query, lower) <==>
            exists text :: text in m.Keys + m.Values && Contains(lower(text), query)
  {
    hide Contains;
    if k :| k in m && (Contains(lower(k), query) || Contains(lower(m[k]), query)) {
      assert k in m.Keys + m.Values && m[k] in m.Keys + m.Values;
    }
  }

  lemma EmptyIsContained(s: string)
    ensures Contains(s, "")
  {
    assert "" <= s[0..];
  }

  function Selected(s: seq<LogEntry>, f: Filter, fold: Folding): seq<LogEntry> {
    if s == [] then []
    else
      var front, last := Selected(s[..|s| - 1], f, fold), s[|s| - 1];
      if Meets(last, f, fold) then front + [last] else front
  }

  /** A filtered view is a subsequence: the entries at the increasing positions `at`, which
      are exactly the positions of the entries meeting the filter. */
  lemma {:induction false} SelectedIsSubsequence(s: seq<LogEntry>, f: Filter, fold: Folding) returns (at: seq<nat>)
    ensures |at| == |Selected(s, f, fold)|
    ensures forall k :: 0 <= k < |at| ==> at[k] < |s| && s[at[k]] == Selected(s, f, fold)[k]
    ensures forall j, k :: 0 <= j < k < |at| ==> at[j] < at[k]
    ensures forall i :: 0 <= i < |s| ==> (i in at <==> Meets(s[i], f, fold))
  {
    at := [];
    if s != [] {
      at := SelectedIsSubsequence(s[..|s| - 1], f, fold);
      if Meets(s[|s| - 1], f, fold) { at := at + [|s| - 1]; }
    }
  }

  /** The ring holds the last entries of the log, each in its slot. */
  ghost predicate Mirrors(ring: seq<LogEntry>, log: seq<LogEntry>) {
    && |ring| == LOG_BUFFER_CAPACITY
    && forall i :: 0 <= i < |log| && |log| - LOG_BUFFER_CAPACITY <= i ==> ring[i % LOG_BUFFER_CAPACITY] == log[i]
  }

  lemma PushedMirrors(ring: seq<LogEntry>, log: seq<LogEntry>, e: LogEntry)
    requires Mirrors(ring, log)
    ensures Mirrors(ring[|log| % LOG_BUFFER_CAPACITY := e], log + [e])
  {
    var n := |log|;
    forall i | 0 <= i <= n && n + 1 - LOG_BUFFER_CAPACITY <= i
      ensures ring[n % LOG_BUFFER_CAPACITY := e][i % LOG_BUFFER_CAPACITY] == (log + [e])[i]
    {
      if i < n { DistinctSlots(i, n); }
    }
  }

  class LogBuffer {
    var entries: array<LogEntry>
    var next: nat
    var full: bool
    ghost var log: seq<LogEntry>

    ghost predicate Valid()
      reads this, entries
    {
      && entries.Length == LOG_BUFFER_CAPACITY
      && next == |log| % LOG_BUFFER_CAPACITY
      && (full <==> |log| >= LOG_BUFFER_CAPACITY)
      && Mirrors(entries[..], log)
    }

    constructor ()
      ensures Valid() && fresh(entries) && log == []
    {
      entries := new LogEntry[LOG_BUFFER_CAPACITY](_ => ZERO_ENTRY);
      next, full := 0, false;
      log := [];
    }

    method Push(batch: seq<LogEntry>)
      requires Valid()
      modifies this, entries
      ensures Valid() && entries == old(entries)
      ensures log == old(log) + batch
    {
      for k := 0 to |batch|
        invariant Valid() && entries == old(entries)
        invariant log == old(log) + batch[..k]
      {
        PushOne(batch[k]);
        assert batch[..k + 1] == batch[..k] + [batch[k]];
      }
      assert batch[..|batch|] == batch;
    }

    /** The body of Push's loop. */
    method PushOne(e: LogEntry)
      requires Valid()
      modifies this, entries
      ensures Valid() && entries == old(entries)
      ensures log == old(log) + [e]
    {
      hide Mirrors;
      PushedMirrors(entries[..], log, e);
      entries[next] := e;
      next := (next + 1) % LOG_BUFFER_CAPACITY;
      if next == 0 {
        full := true;
      }
      log := log + [e];
    }

    method Clear()
      requires Valid()
      modifies this
      ensures Valid() && fresh(entries)
      ensures log == []
    {
      entries := new LogEntry[LOG_BUFFER_CAPACITY](_ => ZERO_ENTRY);
      next := 0;
      full := false;
      log := [];
    }

    /** The last 500 entries pushed since the last clear, oldest first; of these, the ones
        meeting the filter. */
    method Snapshot(f: Filter, fold: Folding) returns (out: seq<LogEntry>)
      requires Valid()
      requires fold.lower("") == ""
      ensures out == Selected(LastN(log, 500), f, fold)
      ensures f.query == "" && f.severity == "" && f.attrKey == "" ==> out == LastN(log, 500)
    {
      var ordered := Ordered();
      if f.query == "" && f.severity == "" && f.attrKey == "" {
        NoFilterSelectsAll(ordered, f, fold);
        return ordered;
      }
      out := Select(ordered, f, fold);
    }

    /** Snapshot's first half: the ring read around from its oldest entry. */
    method Ordered() returns (ordered: seq<LogEntry>)
      requires Valid()
      ensures ordered == LastN(log, LOG_BUFFER_CAPACITY)
    {
      ordered := [];
      if full {
        ordered := ordered + entries[next..];
        ordered := ordered + entries[..next];
        Unrolled(log, entries[..], next);
        assert ordered == entries[..][next..] + entries[..][..next];
      } else {
        ordered := ordered + entries[..next];
        assert ordered == log;
      }
    }
  }

  /** Snapshot's second half. */
  method Select(ordered: seq<LogEntry>, f: Filter, fold: Folding) returns (out: seq<LogEntry>)
    ensures out == Selected(ordered, f, fold)
  {
    var query := fold.lower(f.query);
    out := [];
    for k := 0 to |ordered|
      invariant out == Selected(ordered[..k], f, fold)
    {
      assert ordered[..k + 1][..k] == ordered[..k];
      var kept := Passes(ordered[k], f, query, fold);
      if kept {
        out := out + [ordered[k]];
      }
    }
    assert ordered[..|ordered|] == ordered;
  }

  /** The three `continue`s of Snapshot's loop. */
  method Passes(e: LogEntry, f: Filter, query: string, fold: Folding) returns (kept: bool)
    requires query == fold.lower(f.query)
    ensures kept <==> Meets(e, f, fold)
  {
    if f.severity != "" && !fold.equalFold(e.severity, f.severity) {
      return false;
    }
    if f.attrKey != "" && Lookup(e.attributes, f.attrKey) != f.attrValue
      && Lookup(e.resource, f.attrKey) != f.attrValue {
      return false;
    }
    if query == "" || Contains(fold.lower(e.body), query) {
      return true;
    }
    kept := MapContains(e.attributes, query, fold.lower);
    if !kept {
      kept := MapContains(e.resource, query, fold.lower);
    }
  }

  method MapContains(m: map<string, string>, query: string, lower: string -> string) returns (found: bool)
    ensures found <==> AnyPairContains(m, query, lower)
  {
    var todo := m.Keys;
    while todo != {}
      invariant todo <= m.Keys
      invariant forall k :: k in m.Keys - todo ==> !Contains(lower(k), query) && !Contains(lower(m[k]), query)
      decreases |todo|
    {
      var k :| k in todo;
      if Contains(lower(k), query) || Contains(lower(m[k]), query) {
        return true;
      }
      todo := todo - {k};
    }
    found := false;
  }

  /** Positions less than a capacity apart use different slots of the ring. */
  lemma DistinctSlots(i: nat, n: nat)
    requires i < n < i + LOG_BUFFER_CAPACITY
    ensures i % LOG_BUFFER_CAPACITY != n % LOG_BUFFER_CAPACITY
  {
  }

  /** The slot of the k-th oldest entry kept after n pushes. */
  lemma AroundTheRing(n: nat, k: nat)
    requires n >= LOG_BUFFER_CAPACITY && k < LOG_BUFFER_CAPACITY
    ensures var next := n % LOG_BUFFER_CAPACITY;
            (n - LOG_BUFFER_CAPACITY + k) % LOG_BUFFER_CAPACITY == if next + k < LOG_BUFFER_CAPACITY then next + k
              else next + k - LOG_BUFFER_CAPACITY
  {
  }

  /** Reading a full ring from `next` around gives the last entries in push order. */
  lemma Unrolled(log: seq<LogEntry>, ring: seq<LogEntry>, next: nat)
    requires |log| >= LOG_BUFFER_CAPACITY && next == |log| % LOG_BUFFER_CAPACITY && Mirrors(ring, log)
    ensures ring[next..] + ring[..next] == LastN(log, LOG_BUFFER_CAPACITY)
  {
    var start := |log| - LOG_BUFFER_CAPACITY;
    forall k | 0 <= k < LOG_BUFFER_CAPACITY ensures (ring[next..] + ring[..next])[k] == log[start + k] {
      var slot := if next + k < LOG_BUFFER_CAPACITY then next + k else next + k - LOG_BUFFER_CAPACITY;
      AroundTheRing(|log|, k);
      assert ring[slot] == log[start + k];
    }
  }

  lemma {:induction false} NoFilterSelectsAll(s: seq<LogEntry>, f: Filter, fold: Folding)
    requires f.query == "" && f.severity == "" && f.attrKey == "" && fold.lower("") == ""
    ensures Selected(s, f, fold) == s
  {
    if s != [] {
      NoFilterSelectsAll(s[..|s| - 1], f, fold);
      assert s == s[..|s| - 1] + [s[|s| - 1]];
    }
  }
}
