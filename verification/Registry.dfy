/**
 The registry of live agent connections (fleet/sgcia-fleet-server/opampserver.go).
 A connection is whatever the OpAMP library hands the callbacks; only its identity
 matters, so it is a number here.
 */
module Registry {
  import opened Options

  type Conn = nat

  class ConnRegistry {
    var byID: map<string, Conn>

    constructor ()
      ensures byID == map[]
    {
      byID := map[];
    }

    method Register(id: string, conn: Conn)
      modifies this
      ensures byID == old(byID)[id := conn]
    {
      byID := byID[id := conn];
    }

    /** The close callback knows the connection but not its id: scan, in the map's own
        unspecified order, and delete the first entry that holds it. */
    method Unregister(conn: Conn)
      modifies this
      ensures Unregistered(old(byID), conn, byID)
    {
      var todo := byID.Keys;
      while todo != {}
        invariant byID == old(byID) && todo <= byID.Keys
        invariant forall id :: id in byID.Keys - todo ==> byID[id] != conn
        decreases |todo|
      {
        var id :| id in todo;
        if byID[id] == conn {
          byID := byID - {id};
          return;
        }
        todo := todo - {id};
      }
    }

    method Get(id: string) returns (c: Option<Conn>)
      ensures c == Entry(byID, id)
    {
      if id in byID {
        c := Some(byID[id]);
      } else {
        c := None;
      }
    }
  }

  function Entry(m: map<string, Conn>, id: string): Option<Conn> {
    if id in m then Some(m[id]) else None
  }

  /** The possible outcomes of a close: one entry of the connection goes, if it has any. */
  ghost predicate Unregistered(before: map<string, Conn>, conn: Conn, after: map<string, Conn>) {
    || (after == before && forall id :: id in before ==> before[id] != conn)
    || (exists id :: id in before && before[id] == conn && after == before - {id})
  }

  // --- Whole histories

  datatype Event = Message(id: string, conn: Conn) | Close(conn: Conn)

  ghost predicate Next(before: map<string, Conn>, e: Event, after: map<string, Conn>) {
    match e
    case Message(id, conn) => after == before[id := conn]
    case Close(conn) => Unregistered(before, conn, after)
  }

  /** states[k] is the registry after the first k events. */
  ghost predicate History(es: seq<Event>, states: seq<map<string, Conn>>) {
    && |states| == |es| + 1 && states[0] == map[]
    && forall k :: 0 <= k < |es| ==> Next(states[k], es[k], states[k + 1])
  }

  /** The connection the latest message for `id` came over. */
  function Latest(es: seq<Event>, id: string): Option<Conn> {
    if es == [] then None
    else
      var e := es[|es| - 1];
      if e.Message? && e.id == id then Some(e.conn) else Latest(es[..|es| - 1], id)
  }

  /** That connection has been closed since. */
  predicate ClosedSince(es: seq<Event>, id: string) {
    es != [] &&
    var front, e := es[..|es| - 1], es[|es| - 1];
    match e
    case Message(i, _) => i != id && ClosedSince(front, id)
    case Close(c) => Latest(front, id) == Some(c) || ClosedSince(front, id)
  }

  /** Every connection carries messages of one agent only. */
  ghost predicate OneIdEach(es: seq<Event>) {
    forall i, j :: 0 <= i < |es| && 0 <= j < |es| && es[i].Message? && es[j].Message? && es[i].conn == es[j].conn
      ==> es[i].id == es[j].id
  }

  lemma {:induction false} LatestIsMessage(es: seq<Event>, id: string)
    requires Latest(es, id).Some?
    ensures exists k :: 0 <= k < |es| && es[k] == Message(id, Latest(es, id).value)
  {
    var n := |es| - 1;
    if !(es[n].Message? && es[n].id == id) {
      LatestIsMessage(es[..n], id);
      var k :| 0 <= k < n && es[..n][k] == Message(id, Latest(es, id).value);
      assert es[k] == Message(id, Latest(es, id).value);
    } else {
      assert es[n] == Message(id, Latest(es, id).value);
    }
  }

  /** Without any assumption: an entry is never anything but the latest connection of its
      agent, and only closing that connection removes it; so a late close of a superseded
      connection never removes its successor. */
  lemma {:induction false} EntryIsLatest(es: seq<Event>, states: seq<map<string, Conn>>, id: string)
    requires History(es, states)
    ensures Entry(states[|es|], id).Some? ==> Entry(states[|es|], id) == Latest(es, id)
    ensures Latest(es, id).Some? && !ClosedSince(es, id) ==> Entry(states[|es|], id) == Latest(es, id)
    ensures Latest(es, id).None? ==> !ClosedSince(es, id)
  {
    if es != [] {
      var n := |es| - 1;
      assert History(es[..n], states[..n + 1]);
      EntryIsLatest(es[..n], states[..n + 1], id);
      assert Next(states[n], es[n], states[n + 1]);
    }
  }

  /** What get(id) should answer: the latest connection, unless it has closed. */
  function Live(es: seq<Event>, id: string): Option<Conn> {
    if ClosedSince(es, id) then None else Latest(es, id)
  }

  /** Some close comes over a connection that is the live one of two agents. */
  ghost predicate ClosesShared(es: seq<Event>) {
    exists i :: 0 <= i < |es| && es[i].Close? && IsShared(es[..i], es[i].conn)
  }

  ghost predicate IsShared(es: seq<Event>, c: Conn) {
    exists a, b :: a != b && Live(es, a) == Some(c) && Live(es, b) == Some(c)
  }

  ghost predicate TracksAt(es: seq<Event>, m: map<string, Conn>) {
    forall id :: Entry(m, id) == Live(es, id)
  }

  lemma LiveStep(es: seq<Event>, e: Event, id: string)
    ensures Live(es + [e], id) ==
            match e
            case Message(i, c) => if i == id then Some(c) else Live(es, id)
            case Close(c) => if Live(es, id) == Some(c) then None else Live(es, id)
  {
    assert (es + [e])[..|es|] == es;
    NeverHeardIsNotClosed(es, id);
  }

  lemma {:induction false} NeverHeardIsNotClosed(es: seq<Event>, id: string)
    ensures Latest(es, id).None? ==> !ClosedSince(es, id)
  {
    if es != [] { NeverHeardIsNotClosed(es[..|es| - 1], id); }
  }

  /** A step keeps track exactly unless it closes a shared connection. */
  lemma TrackStepIff(es: seq<Event>, e: Event, before: map<string, Conn>, after: map<string, Conn>)
    requires TracksAt(es, before) && Next(before, e, after)
    ensures TracksAt(es + [e], after) <==> !(e.Close? && IsShared(es, e.conn))
  {
    forall id ensures Live(es + [e], id) ==
                      match e
                      case Message(i, c) => if i == id then Some(c) else Live(es, id)
                      case Close(c) => if Live(es, id) == Some(c) then None else Live(es, id)
    {
      LiveStep(es, e, id);
    }
    if e.Close? {
      CloseTracksIff(es, e.conn, before, after);
    }
  }

  lemma CloseTracksIff(es: seq<Event>, c: Conn, before: map<string, Conn>, after: map<string, Conn>)
    requires TracksAt(es, before) && Unregistered(before, c, after)
    requires forall id :: Live(es + [Close(c)], id) == if Live(es, id) == Some(c) then None else Live(es, id)
    ensures TracksAt(es + [Close(c)], after) <==> !IsShared(es, c)
  {
    hide Live;
    if after == before && forall id :: id in before ==> before[id] != c {
      assert forall id :: Entry(before, id) != Some(c);
    } else {
      var gone :| gone in before && before[gone] == c && after == before - {gone};
      assert Entry(before, gone) == Some(c);
      if IsShared(es, c) {
        var a, b :| a != b && Live(es, a) == Some(c) && Live(es, b) == Some(c);
        var kept := if a == gone then b else a;
        assert Entry(before, kept) == Some(c) && Entry(after, kept) == Some(c);
        assert Live(es + [Close(c)], kept) == None;
      } else {
        forall id ensures Entry(after, id) == Live(es + [Close(c)], id) {
          assert Entry(before, id) == Live(es, id);
          assert id != gone && Live(es, id) == Some(c) && Live(es, gone) == Some(c) ==> IsShared(es, c);
        }
      }
    }
  }

  /** The registry tracks live connections -- at every moment, every agent's entry is the
      connection of its latest message unless that one has closed, and then none -- exactly
      if no connection is closed while it is the live one of two agents. */
  lemma {:induction false} TracksIff(es: seq<Event>, states: seq<map<string, Conn>>)
    requires History(es, states)
    ensures (forall k :: 0 <= k <= |es| ==> TracksAt(es[..k], states[k])) <==> !ClosesShared(es)
  {
    hide Live, TracksAt, IsShared, Next;
    if es == [] {
      NothingHeard();
    } else {
      var n := |es| - 1;
      var front := es[..n];
      assert History(front, states[..n + 1]);
      TracksIff(front, states[..n + 1]);
      assert forall k :: 0 <= k <= n ==> front[..k] == es[..k];
      assert es[..|es|] == front + [es[n]] && es[..n] == front;
      if TracksAt(front, states[n]) { TrackStepIff(front, es[n], states[n], states[n + 1]); }
      SharedInFront(es);
      if forall k :: 0 <= k <= |es| ==> TracksAt(es[..k], states[k]) {
        assert TracksAt(es[..n], states[n]) && TracksAt(es[..|es|], states[|es|]);
        forall k | 0 <= k <= n ensures TracksAt(front[..k], states[..n + 1][k]) { assert TracksAt(es[..k], states[k]); }
      } else if !ClosesShared(es) {
        forall k | 0 <= k <= |es| ensures TracksAt(es[..k], states[k]) {
          if k <= n { assert TracksAt(front[..k], states[..n + 1][k]); }
          assert TracksAt(front[..n], states[..n + 1][n]) && front[..n] == front;
        }
      }
    }
  }

  lemma NothingHeard()
    ensures TracksAt([], map[])
  {
  }

  lemma SharedInFront(es: seq<Event>)
    requires es != []
    ensures var front, last := es[..|es| - 1], es[|es| - 1];
            ClosesShared(es) <==> ClosesShared(front) || (last.Close? && IsShared(front, last.conn))
  {
    hide IsShared;
    var n := |es| - 1;
    var front := es[..n];
    assert forall i :: 0 <= i <= n ==> front[..i] == es[..i];
    if ClosesShared(front) {
      var i :| 0 <= i < n && front[i].Close? && IsShared(front[..i], front[i].conn);
      assert es[i].Close? && IsShared(es[..i], es[i].conn);
    }
    if es[n].Close? && IsShared(front, es[n].conn) { assert IsShared(es[..n], es[n].conn); }
    if ClosesShared(es) {
      var i :| 0 <= i < |es| && es[i].Close? && IsShared(es[..i], es[i].conn);
      if i < n { assert front[i].Close? && IsShared(front[..i], front[i].conn); }
    }
  }

  /** If every connection speaks for one agent, as OpAMP clients do, the registry tracks. */
  lemma RegistryTracksConnections(es: seq<Event>, states: seq<map<string, Conn>>, id: string)
    requires History(es, states) && OneIdEach(es)
    ensures Entry(states[|es|], id) == if ClosedSince(es, id) then None else Latest(es, id)
  {
    hide TracksAt;
    TracksIff(es, states);
    if ClosesShared(es) {
      var i :| 0 <= i < |es| && es[i].Close? && IsShared(es[..i], es[i].conn);
      var a, b :| a != b && Live(es[..i], a) == Some(es[i].conn) && Live(es[..i], b) == Some(es[i].conn);
      SameConnSameId(es, i, a, b);
    }
    assert es[..|es|] == es;
    TracksMeans(es, states[|es|], id);
  }

  lemma TracksMeans(es: seq<Event>, m: map<string, Conn>, id: string)
    requires TracksAt(es, m)
    ensures Entry(m, id) == Live(es, id)
  {
  }

  lemma SameConnSameId(es: seq<Event>, i: nat, a: string, b: string)
    requires OneIdEach(es) && i <= |es| && Latest(es[..i], a).Some? && Latest(es[..i], a) == Latest(es[..i], b)
    ensures a == b
  {
    LatestIsMessage(es[..i], a);
    LatestIsMessage(es[..i], b);
    var j :| 0 <= j < i && es[..i][j] == Message(a, Latest(es[..i], a).value);
    var k :| 0 <= k < i && es[..i][k] == Message(b, Latest(es[..i], b).value);
    assert es[j].conn == es[k].conn;
  }

  /** The assumption is needed: a connection that spoke for two agents leaves one of the
      two entries behind when it closes, whichever the scan meets first. */
  lemma SharedConnectionLeaks(a: string, b: string, c: Conn, after: map<string, Conn>)
    requires a != b
    requires Unregistered(map[a := c, b := c], c, after)
    ensures var es := [Message(a, c), Message(b, c), Close(c)];
            && ClosedSince(es, a) && ClosedSince(es, b)
            && History(es, [map[], map[a := c], map[a := c, b := c], after])
            && (Entry(after, a) == Some(c) || Entry(after, b) == Some(c))
  {
    var es := [Message(a, c), Message(b, c), Close(c)];
    assert es[..2] == [Message(a, c), Message(b, c)] && es[..2][..1] == [Message(a, c)];
    assert map[a := c][b := c] == map[a := c, b := c];
    var m: map<string, Conn> := map[];
    assert m[a := c] == map[a := c];
    assert a in map[a := c, b := c] && b in map[a := c, b := c];
  }
}
