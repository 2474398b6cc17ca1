/**
 Config pushes at any time: nothing in the server stops an operator from pushing again while
 an earlier push is unanswered. One agent is followed here, with its offers, taken up in any
 order, and its answers, received in order; an answer names the config it is about by its
 hash, which the server never looks at. Whether the agent agrees with the server depends on
 exactly that check.
 */
module OverlappingPushes {
  import opened Options
  import opened FleetRows
  import ConfigRollout

  datatype Answer = Answer(hash: Digest, status: Status)

  datatype Link = Link(table: Table, live: Bytes, offers: seq<ConfigRef>, answers: seq<Answer>)

  datatype Event =
    | Push(body: Bytes, delivered: bool)
    | Rollback(delivered: bool)
    | OfferLost(k: nat)
    | Take(k: nat, valid: bool)                   // each offer is taken up by a goroutine of its own
    | GetAnswer
    | GetOther(sender: string, m: AgentMessage)   // whatever else any agent sends
    | HandEdit(body: Bytes)
    | DeleteRow

  function Offer(w: Link, id: string, body: Bytes, delivered: bool): Link {
    var r := ConfigRef(body, Sha256(body));
    w.(table := SetPendingConfig(w.table, id, r), offers := if delivered then w.offers + [r] else w.offers)
  }

  predicate Enabled(w: Link, id: string, e: Event) {
    match e
    case Push(body, _) => body != ""
    case OfferLost(k) => k < |w.offers|
    case Take(k, _) => k < |w.offers|
    case GetAnswer => w.answers != []
    case GetOther(sender, m) => sender != id || m.configStatus.None?
    case _ => true
  }

  function Step(w: Link, id: string, e: Event): Link
    requires Enabled(w, id, e)
  {
    match e
    case Push(body, delivered) => Offer(w, id, body, delivered)
    case Rollback(delivered) =>
      var good := RowOf(w.table, id).config.lastGood.body;
      if good != "" then Offer(w, id, good, delivered) else w
    case OfferLost(k) => w.(offers := w.offers[..k] + w.offers[k + 1..])
    case Take(k, valid) =>
      var r := w.offers[k];
      w.(live := if valid then r.body else w.live, offers := w.offers[..k] + w.offers[k + 1..],
         answers := w.answers + [Answer(r.hash, if valid then Applied else Failed("rejected"))])
    case GetAnswer =>
      w.(table := HandleMessage(w.table, id, HEARTBEAT.(configStatus := Some(w.answers[0].status))),
         answers := w.answers[1..])
    case GetOther(sender, m) => w.(table := HandleMessage(w.table, sender, m))
    case HandEdit(body) => w.(live := body)
    case DeleteRow => w.(table := Delete(w.table, id))
  }

  predicate Legal(w: Link, id: string, es: seq<Event>)
    decreases |es|, 0
  {
    es == [] || (Legal(w, id, es[..|es| - 1]) && Enabled(Run(w, id, es[..|es| - 1]), id, es[|es| - 1]))
  }

  function Run(w: Link, id: string, es: seq<Event>): Link
    requires Legal(w, id, es)
    decreases |es|, 1
  {
    if es == [] then w else Step(Run(w, id, es[..|es| - 1]), id, es[|es| - 1])
  }

  predicate Initial(w: Link) {
    w.table == map[] && w.offers == [] && w.answers == []
  }

  // --- What happened in a run

  /** The file was edited by hand after the last push the agent accepted. */
  predicate Edited(es: seq<Event>) {
    es != [] && EditedBy(Edited(es[..|es| - 1]), es[|es| - 1])
  }

  predicate EditedBy(before: bool, e: Event) {
    e.HandEdit? || (before && !(e.Take? && e.valid))
  }

  /** Whether the answer that last promoted was about the config it promoted; None if none
      has, in the row there is. */
  function Matched(w: Link, id: string, es: seq<Event>): Option<bool>
    requires Legal(w, id, es)
  {
    if es == [] then None else
      MatchedBy(Matched(w, id, es[..|es| - 1]), Run(w, id, es[..|es| - 1]), id, es[|es| - 1])
  }

  function MatchedBy(before: Option<bool>, w: Link, id: string, e: Event): Option<bool>
    requires Enabled(w, id, e)
  {
    match e
    case DeleteRow => None
    case GetAnswer =>
      if w.answers[0].status == Applied then Some(w.answers[0].hash == RowOf(w.table, id).config.pending.hash)
        else before
    case _ => before
  }

  /** The config the agent last accepted, if that answer is still on its way. */
  function LastAccepted(answers: seq<Answer>): Option<Digest> {
    if answers == [] then None else
      var last := answers[|answers| - 1];
      if last.status == Applied then Some(last.hash) else LastAccepted(answers[..|answers| - 1])
  }

  lemma {:induction false} LastAcceptedOfRest(answers: seq<Answer>)
    requires answers != []
    ensures LastAccepted(answers) == match LastAccepted(answers[1..])
                                     case Some(h) => Some(h)
                                     case None => if answers[0].status == Applied then Some(answers[0].hash) else None
  {
    if |answers| > 1 {
      LastAcceptedOfRest(answers[..|answers| - 1]);
      assert answers[1..][..|answers| - 2] == answers[..|answers| - 1][1..];
    } else {
      assert answers[..0] == [];
    }
  }

  lemma LastAcceptedOfMore(answers: seq<Answer>, last: Answer)
    ensures LastAccepted(answers + [last]) == if last.status == Applied then Some(last.hash) else LastAccepted(answers)
  {
    assert (answers + [last])[..|answers|] == answers;
  }

  // --- The invariant

  ghost predicate Inv(w: Link, id: string, edited: bool, matched: Option<bool>) {
    var s := RowOf(w.table, id).config;
    && ConfigRollout.Coherent(s.pending) && ConfigRollout.Coherent(s.lastGood)
    && (forall i :: 0 <= i < |w.offers| ==> w.offers[i].hash == Sha256(w.offers[i].body))
    && (forall i :: 0 <= i < |w.answers| ==> w.answers[i].hash != NoDigest && w.answers[i].status != InProgress)
    && (!edited ==>
          match LastAccepted(w.answers)
          case Some(h) => h == Sha256(w.live)
          case None => s.lastGood != NO_CONFIG ==> matched == Some(s.lastGood.hash == Sha256(w.live)))
  }

  lemma SlotsStep(w: Link, id: string, e: Event)
    requires Enabled(w, id, e)
    ensures var s, s' := RowOf(w.table, id).config, RowOf(Step(w, id, e).table, id).config;
            match e
            case Push(body, _) => s' == s.Offer(ConfigRef(body, Sha256(body)))
            case Rollback(_) => s' == (if s.lastGood.body == "" then s
                                       else s.Offer(ConfigRef(s.lastGood.body, Sha256(s.lastGood.body))))
            case GetAnswer => s' == Settled(s, NO_CONFIG, w.answers[0].status)
            case DeleteRow => s' == FRESH_ROW.config
            case _ => s' == s
  {
    match e
    case GetAnswer => HandleMessageEffect(w.table, id, HEARTBEAT.(configStatus := Some(w.answers[0].status)));
    case GetOther(sender, m) => HandleMessageEffect(w.table, sender, m);
    case _ =>
  }

  lemma InvStep(w: Link, id: string, e: Event, edited: bool, matched: Option<bool>)
    requires Enabled(w, id, e) && Inv(w, id, edited, matched)
    ensures Inv(Step(w, id, e), id, EditedBy(edited, e), MatchedBy(matched, w, id, e))
  {
    hide RowOf, HandleMessage, SetPendingConfig, Delete, LastAccepted;
    SlotsStep(w, id, e);
    match e
    case GetAnswer => LastAcceptedOfRest(w.answers);
    case Take(k, valid) =>
      LastAcceptedOfMore(w.answers, Answer(w.offers[k].hash, if valid then Applied else Failed("rejected")));
    case _ =>
  }

  lemma {:induction false} Invariant(w: Link, id: string, es: seq<Event>)
    requires Initial(w) && Legal(w, id, es)
    ensures Inv(Run(w, id, es), id, Edited(es), Matched(w, id, es))
  {
    hide Inv, Step;
    if es != [] {
      var front := es[..|es| - 1];
      Invariant(w, id, front);
      InvStep(Run(w, id, front), id, es[|es| - 1], Edited(front), Matched(w, id, front));
    } else {
      InitialInv(w, id);
    }
  }

  lemma InitialInv(w: Link, id: string)
    requires Initial(w)
    ensures Inv(w, id, false, None)
  {
  }

  /** Pushes at any time: whenever no acceptance is on its way and there is a last-known-good
      config, the unedited live file is that config exactly if the answer that last promoted
      one was about the config then pending, the comparison the server does not make. */
  lemma AgreementIffAnswerMatched(w: Link, id: string, es: seq<Event>)
    requires Initial(w) && Legal(w, id, es)
    requires LastAccepted(Run(w, id, es).answers).None? && !Edited(es)
    requires RowOf(Run(w, id, es).table, id).config.lastGood != NO_CONFIG
    ensures Run(w, id, es).live == RowOf(Run(w, id, es).table, id).config.lastGood.body <==>
            Matched(w, id, es) == Some(true)
  {
    Invariant(w, id, es);
  }

  // --- Orderly pushes always match

  /** Every push waits until nothing is in flight. */
  predicate Orderly(w: Link, id: string, es: seq<Event>)
    requires Legal(w, id, es)
  {
    es != [] ==>
      && Orderly(w, id, es[..|es| - 1])
      && (es[|es| - 1].Push? || es[|es| - 1].Rollback? ==>
            Run(w, id, es[..|es| - 1]).offers == [] && Run(w, id, es[..|es| - 1]).answers == [])
  }

  predicate InStep(w: Link, id: string, matched: Option<bool>) {
    var s := RowOf(w.table, id).config;
    && |w.offers| + |w.answers| <= 1
    && (w.offers != [] && (s.pending != NO_CONFIG || s.lastGood != NO_CONFIG) ==> s.pending == w.offers[0])
    && (w.answers != [] && (s.pending != NO_CONFIG || s.lastGood != NO_CONFIG) ==> s.pending.hash == w.answers[0].hash)
    && (s.lastGood != NO_CONFIG ==> matched == Some(true))
  }

  lemma InStepStep(w: Link, id: string, e: Event, matched: Option<bool>)
    requires Enabled(w, id, e) && InStep(w, id, matched)
    requires e.Push? || e.Rollback? ==> w.offers == [] && w.answers == []
    ensures InStep(Step(w, id, e), id, MatchedBy(matched, w, id, e))
  {
    hide RowOf, HandleMessage, SetPendingConfig, Delete;
    SlotsStep(w, id, e);
  }

  /** If pushes wait for the answer, the last promoting answer always matched, so the agent
      agrees with the server. */
  lemma {:induction false} OrderlyPushesMatch(w: Link, id: string, es: seq<Event>)
    requires Initial(w) && Legal(w, id, es) && Orderly(w, id, es)
    ensures InStep(Run(w, id, es), id, Matched(w, id, es))
    ensures RowOf(Run(w, id, es).table, id).config.lastGood != NO_CONFIG ==> Matched(w, id, es) == Some(true)
  {
    hide Step;
    if es != [] {
      var front := es[..|es| - 1];
      OrderlyPushesMatch(w, id, front);
      InStepStep(Run(w, id, front), id, es[|es| - 1], Matched(w, id, front));
    }
  }
}
