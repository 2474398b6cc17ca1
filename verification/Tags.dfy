/** Operator tags: normalised on the way in, stored as one comma-separated column. */
module Tags {
  import opened Options
  import opened Text

  /** handleSetTags's normalisation: lower-cased, trimmed, blanks dropped, the first of
      equal tags kept; nothing at all if a tag holds the storage delimiter. */
  function Normalized(raw: seq<string>, lower: string -> string): Option<seq<string>> {
    if raw == [] then Some([])
    else
      match Normalized(raw[..|raw| - 1], lower)
      case None => None
      case Some(tags) =>
        var t := lower(Trim(raw[|raw| - 1]));
        if t == "" then Some(tags)
        else if !Plain(t, ',') then None
        else if t in tags then Some(tags)
        else Some(tags + [t])
  }

  /** A request is refused exactly when some cleaned tag holds the storage delimiter. */
  lemma {:induction false} RefusedIff(raw: seq<string>, lower: string -> string)
    ensures Normalized(raw, lower).None? <==> exists i :: 0 <= i < |raw| && !Plain(lower(Trim(raw[i])), ',')
  {
    hide Trim;
    if raw != [] {
      var front := raw[..|raw| - 1];
      RefusedIff(front, lower);
      if i :| 0 <= i < |front| && !Plain(lower(Trim(front[i])), ',') {
        assert !Plain(lower(Trim(raw[i])), ',');
      }
      assert forall i :: 0 <= i < |front| ==> raw[i] == front[i];
    }
  }

  /** What is accepted: the distinct non-blank cleaned tags, each once, none with a comma. */
  lemma {:induction false} NormalizedMeaning(raw: seq<string>, lower: string -> string)
    requires Normalized(raw, lower).Some?
    ensures forall t :: t in Normalized(raw, lower).value <==>
                        t != "" && exists i :: 0 <= i < |raw| && lower(Trim(raw[i])) == t
    ensures var tags := Normalized(raw, lower).value; forall i, j :: 0 <= i < j < |tags| ==> tags[i] != tags[j]
    ensures forall t :: t in Normalized(raw, lower).value ==> Plain(t, ',')
  {
    hide Trim;
    if raw != [] {
      var front := raw[..|raw| - 1];
      NormalizedMeaning(front, lower);
      var before := Normalized(front, lower).value;
      forall t
        ensures t in Normalized(raw, lower).value <==>
                t != "" && exists i :: 0 <= i < |raw| && lower(Trim(raw[i])) == t
      {
        if t in before {
          var i :| 0 <= i < |front| && lower(Trim(front[i])) == t;
          assert lower(Trim(raw[i])) == t;
        }
        if t != "" && t !in before {
          assert forall i :: 0 <= i < |front| ==> lower(Trim(front[i])) != t && raw[i] == front[i];
        }
      }
    }
  }

  predicate FirstAt(raw: seq<string>, i: nat, lower: string -> string, t: string) {
    i < |raw| && lower(Trim(raw[i])) == t && forall j :: 0 <= j < i ==> lower(Trim(raw[j])) != t
  }

  /** Accepted tags stand in the order in which each was first given. */
  lemma {:induction false} NormalizedKeepsOrder(raw: seq<string>, lower: string -> string) returns (at: seq<nat>)
    requires Normalized(raw, lower).Some?
    ensures |at| == |Normalized(raw, lower).value|
    ensures forall k :: 0 <= k < |at| ==> FirstAt(raw, at[k], lower, Normalized(raw, lower).value[k])
    ensures forall j, k :: 0 <= j < k < |at| ==> at[j] < at[k]
  {
    hide Trim;
    at := [];
    if raw != [] {
      var n := |raw| - 1;
      at := NormalizedKeepsOrder(raw[..n], lower);
      var before, t := Normalized(raw[..n], lower).value, lower(Trim(raw[n]));
      assert forall k :: 0 <= k < |at| ==> FirstAt(raw[..n], at[k], lower, before[k]);
      forall k | 0 <= k < |at| ensures FirstAt(raw, at[k], lower, before[k]) {
        assert raw[..n][at[k]] == raw[at[k]];
      }
      if t != "" && t !in before {
        NormalizedMeaning(raw[..n], lower);
        forall j | 0 <= j < n ensures lower(Trim(raw[j])) != t { assert raw[..n][j] == raw[j]; }
        at := at + [n];
      }
    }
  }

  /** Reading the stored column back gives the accepted tags, in order. */
  lemma TagsSurviveStorage(raw: seq<string>, lower: string -> string)
    requires Normalized(raw, lower).Some?
    ensures ParseList(Join(Normalized(raw, lower).value, ",")) == Normalized(raw, lower).value
  {
    NormalizedMeaning(raw, lower);
    ParseJoined(Normalized(raw, lower).value);
  }
}
