/**
 Configuration rollout over whole runs: the agent's live file, the server's
 last-known-good slot, and where the protocol's silent assumptions bite.
 */
module ConfigRollout {
  import opened Options
  import opened FleetRows
  import opened Rollout

  function EditedAfter(before: bool, e: Event, id: string): bool {
    match e
    case HandEdit(i, _) => i == id || before
    case AgentTakesConfig(i, valid) => !(i == id && valid) && before
    case _ => before
  }

  /** The live file was changed by hand after the last push the agent accepted. */
  predicate EditedSinceAccept(es: seq<Event>, id: string) {
    es != [] && EditedAfter(EditedSinceAccept(Front(es), id), Last(es), id)
  }

  predicate Coherent(r: ConfigRef) {
    r == NO_CONFIG || (r.body != "" && r.hash == Sha256(r.body))
  }

  predicate Agrees(s: Slots<ConfigRef>, a: AgentState, edited: bool) {
    s.lastGood.body != "" && !edited ==> a.live == s.lastGood.body
  }

  /** What holds of one agent's slots, live file and wire between any two steps. */
  predicate ConfigInv(s: Slots<ConfigRef>, a: AgentState, edited: bool) {
    && Coherent(s.pending) && Coherent(s.lastGood)
    && !(a.configOffer.Some? && a.configAck.Some?)
    && match a.configAck {
         case None => Agrees(s, a, edited)
         case Some(Applied) =>
           || (s.pending == NO_CONFIG && s.lastGood == NO_CONFIG)
           || (s.pending != NO_CONFIG && (!edited ==> a.live == s.pending.body))
         case Some(_) => Agrees(s, a, edited)
       }
    && match a.configOffer {
         case None => true
         case Some(r) =>
           && r != NO_CONFIG && Coherent(r)
           && (s.pending == r || (s.pending == NO_CONFIG && s.lastGood == NO_CONFIG))
       }
  }

  ghost predicate ConfigInvAt(w: World, es: seq<Event>, id: string)
    requires Legal(w, es) && id in w.agents
  {
    ConfigInv(RowOf(Run(w, es).table, id).config, Run(w, es).agents[id], EditedSinceAccept(es, id))
  }

  /** The events that touch an agent's config slots, live file or config messages. */
  predicate ConcernsConfig(e: Event, id: string) {
    && (e.PushConfig? || e.RollbackConfig? || e.ConfigOfferLost? || e.AgentTakesConfig?
        || e.ServerGetsConfigAck? || e.HandEdit? || e.DeleteRow?)
    && e.id == id
  }

  lemma ConfigFrame(w: World, e: Event, id: string)
    requires Enabled(w, e) && id in w.agents && !ConcernsConfig(e, id)
    ensures RowOf(Step(w, e).table, id).config == RowOf(w.table, id).config
    ensures var a, b := w.agents[id], Step(w, e).agents[id];
            b.live == a.live && b.configOffer == a.configOffer && b.configAck == a.configAck
  {
    if Received(w, e).Some? { ReceivedRow(w, e, id); }
  }

  lemma ConfigStep(w: World, e: Event, id: string, edited: bool)
    requires Enabled(w, e) && id in w.agents
    requires ConfigInv(RowOf(w.table, id).config, w.agents[id], edited)
    ensures ConfigInv(RowOf(Step(w, e).table, id).config, Step(w, e).agents[id], EditedAfter(edited, e, id))
  {
    if !ConcernsConfig(e, id) {
      ConfigFrame(w, e, id);
    } else if e.ServerGetsConfigAck? {
      ReceivedRow(w, e, id);
    }
  }

  lemma {:induction false} ConfigInvariant(w: World, es: seq<Event>, id: string)
    requires Initial(w) && Legal(w, es) && id in w.agents
    ensures ConfigInvAt(w, es, id)
  {
    if es != [] {
      ConfigInvariant(w, Front(es), id);
      ConfigStep(Run(w, Front(es)), Last(es), id, EditedSinceAccept(Front(es), id));
    }
  }

  /** Agreement: whenever nothing is in flight for an agent and it has a last-known-good
      config, its live file is that config, unless someone edited the file by hand since
      the last accepted push. */
  lemma ConfigAgreement(w: World, es: seq<Event>, id: string)
    requires Initial(w) && Legal(w, es) && id in w.agents
    ensures var a, s := Run(w, es).agents[id], RowOf(Run(w, es).table, id).config;
            ConfigIdle(a) && s.lastGood.body != "" && !EditedSinceAccept(es, id) ==> a.live == s.lastGood.body
  {
    ConfigInvariant(w, es, id);
  }

  /** Every stored (config, hash) pair is empty or carries the hash of its config. */
  lemma StoredHashesMatch(w: World, es: seq<Event>, id: string)
    requires Initial(w) && Legal(w, es) && id in w.agents
    ensures Coherent(RowOf(Run(w, es).table, id).config.pending)
    ensures Coherent(RowOf(Run(w, es).table, id).config.lastGood)
  {
    ConfigInvariant(w, es, id);
  }

  // --- Where a last-known-good config comes from

  /** The one step that fills the slot, and the one that empties it; no failure, push or
      rollback ever writes it. */
  lemma LastGoodStep(w: World, e: Event, id: string)
    requires Enabled(w, e) && id in w.agents
    ensures var s, s' := RowOf(w.table, id).config, RowOf(Step(w, e).table, id).config;
            s'.lastGood == if e == ServerGetsConfigAck(id) && w.agents[id].configAck == Some(Applied) then s.pending
                           else if e == DeleteRow(id) then NO_CONFIG
                           else s.lastGood
  {
    if !ConcernsConfig(e, id) {
      ConfigFrame(w, e, id);
    } else if e.ServerGetsConfigAck? {
      ReceivedRow(w, e, id);
    }
  }

  /** Every last-known-good config was this agent's pending config at an earlier point
      of the run. */
  lemma {:induction false} LastGoodWasPending(w: World, es: seq<Event>, id: string) returns (k: nat)
    requires Initial(w) && Legal(w, es) && id in w.agents
    ensures k <= |es| && Legal(w, es[..k])
    ensures RowOf(Run(w, es).table, id).config.lastGood != NO_CONFIG ==>
              RowOf(Run(w, es[..k]).table, id).config.pending == RowOf(Run(w, es).table, id).config.lastGood
  {
    k := |es|;
    assert es[..k] == es;
    if es != [] {
      LastGoodStep(Run(w, Front(es)), Last(es), id);
      var before := RowOf(Run(w, Front(es)).table, id).config;
      if RowOf(Run(w, es).table, id).config.lastGood == before.pending {
        k := |es| - 1;
      } else {
        k := LastGoodWasPending(w, Front(es), id);
        assert Front(es)[..k] == es[..k];
      }
    }
  }

  /** A rejected push leaves the live file and the last-known-good config as they were,
      and clears the pending slot. */
  lemma RejectionChangesNothing(w: World, es: seq<Event>, id: string)
    requires Initial(w) && Legal(w, es) && id in w.agents
    requires Run(w, es).agents[id].configOffer.Some?
    ensures var rejected := es + [AgentTakesConfig(id, false)];
            && Legal(w, rejected) && Legal(w, rejected + [ServerGetsConfigAck(id)])
            && var before, after := Run(w, es), Run(w, rejected + [ServerGetsConfigAck(id)]);
            && after.agents[id].live == before.agents[id].live
            && RowOf(after.table, id).config.lastGood == RowOf(before.table, id).config.lastGood
            && RowOf(after.table, id).config.pending == NO_CONFIG
            && ConfigIdle(after.agents[id])
  {
    RunSnoc(w, es, AgentTakesConfig(id, false));
    var rejected := es + [AgentTakesConfig(id, false)];
    RunSnoc(w, rejected, ServerGetsConfigAck(id));
    ReceivedRow(Run(w, rejected), ServerGetsConfigAck(id), id);
  }

  /** A delivered rollback that the agent accepts puts its live file back to the
      last-known-good config, which stays the last-known-good config. */
  lemma RollbackRestores(w: World, es: seq<Event>, id: string)
    requires Initial(w) && Legal(w, es) && id in w.agents
    requires ConfigIdle(Run(w, es).agents[id])
    requires RowOf(Run(w, es).table, id).config.lastGood != NO_CONFIG
    ensures var taken := es + [RollbackConfig(id, true)] + [AgentTakesConfig(id, true)];
            && Legal(w, taken) && Legal(w, taken + [ServerGetsConfigAck(id)])
            && var good, after := RowOf(Run(w, es).table, id).config.lastGood,
              Run(w, taken + [ServerGetsConfigAck(id)]);
            && after.agents[id].live == good.body
            && RowOf(after.table, id).config.lastGood == good
            && ConfigIdle(after.agents[id])
  {
    ConfigInvariant(w, es, id);
    RunSnoc(w, es, RollbackConfig(id, true));
    var offered := es + [RollbackConfig(id, true)];
    RunSnoc(w, offered, AgentTakesConfig(id, true));
    var taken := offered + [AgentTakesConfig(id, true)];
    RunSnoc(w, taken, ServerGetsConfigAck(id));
    ReceivedRow(Run(w, taken), ServerGetsConfigAck(id), id);
  }

  // --- What the unstated assumptions buy

  /** A push made while the previous one is unanswered is promoted by the previous
      one's acknowledgement: promotion takes whatever is pending. */
  lemma OverlappingPushBreaksAgreement(w: World, id: string)
    requires Initial(w) && id in w.agents
    ensures var e1 := PushConfig(id, "A", true);
            && Enabled(w, e1)
            && var w1 := Step(w, e1);
            && id in w1.agents && !Enabled(w1, PushConfig(id, "B", false))
            && var w2 := OfferConfig(w1, id, "B", false);
            && Enabled(w2, AgentTakesConfig(id, true))
            && var w3 := Step(w2, AgentTakesConfig(id, true));
            && Enabled(w3, ServerGetsConfigAck(id))
            && var w4 := Step(w3, ServerGetsConfigAck(id));
            && ConfigIdle(w4.agents[id])
            && w4.agents[id].live == "A" && RowOf(w4.table, id).config.lastGood.body == "B"
  {
    var w2 := OfferConfig(Step(w, PushConfig(id, "A", true)), id, "B", false);
    var w3 := Step(w2, AgentTakesConfig(id, true));
    ReceivedRow(w3, ServerGetsConfigAck(id), id);
  }

  /** An acknowledgement received a second time erases the last-known-good config, so
      no rollback target is left, whatever the row held before. */
  lemma RepeatedAckErasesLastGood(t: Table, id: string)
    ensures var ack := HEARTBEAT.(configStatus := Some(Applied));
            var t' := HandleMessage(HandleMessage(t, id, ack), id, ack);
            id in t' && t'[id].config.lastGood == NO_CONFIG
  {
    var ack := HEARTBEAT.(configStatus := Some(Applied));
    HandleMessageEffect(t, id, ack);
    HandleMessageEffect(HandleMessage(t, id, ack), id, ack);
  }

  /** One message keeps a last-known-good config exactly when it does not promote an
      empty pending slot. */
  lemma LastGoodSurvivesIff(t: Table, id: string, m: AgentMessage)
    requires RowOf(t, id).config.lastGood != NO_CONFIG
    ensures RowOf(HandleMessage(t, id, m), id).config.lastGood != NO_CONFIG
       <==> !(m.configStatus == Some(Applied) && RowOf(t, id).config.pending == NO_CONFIG)
  {
    HandleMessageEffect(t, id, m);
  }
}
