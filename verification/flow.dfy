/**
  The whole path of one inbound emote: the effects the translator or a menu
  answer requests, with every call to processEmote expanded into the
  deliveries the broadcast fan-out makes.
 */
module EmoteFlow {
  import opened EmoteModel
  import Broadcast
  import EmoteTranslator
  import EmoteMenu

  /**
    The deliveries made by the calls to processEmote among `effects`, in order.
    `vetoed` is the outcome of the emote event each of those calls fires; one
    value serves them all, which is exact because no handler's effects hold
    more than one such call.
   */
  function Deliveries(effects: seq<Effect>, vetoed: bool, emitter: Session, sessions: seq<Session>): seq<Delivery>
    decreases |effects|
  {
    if |effects| == 0 then []
    else
      (if effects[0].Propagate? then Broadcast.ProcessEmote(vetoed, emitter, sessions, effects[0].packet) else [])
      + Deliveries(effects[1..], vetoed, emitter, sessions)
  }

  /** Effects without a call to processEmote deliver nothing to anyone. */
  lemma {:induction false} NoPropagationNoDeliveries(effects: seq<Effect>, vetoed: bool, emitter: Session, sessions: seq<Session>)
    requires forall e <- effects :: !e.Propagate?
    ensures Deliveries(effects, vetoed, emitter, sessions) == []
    decreases |effects|
  {
    if |effects| > 0 {
      assert effects[0] in effects;
      NoPropagationNoDeliveries(effects[1..], vetoed, emitter, sessions);
    }
  }

  /** A cancelled emote event silences every call to processEmote, whatever the effects. */
  lemma {:induction false} VetoSilencesAll(effects: seq<Effect>, emitter: Session, sessions: seq<Session>)
    ensures Deliveries(effects, true, emitter, sessions) == []
    decreases |effects|
  {
    if |effects| > 0 {
      VetoSilencesAll(effects[1..], emitter, sessions);
    }
  }

  /** Effects whose only call to processEmote is for `packet` deliver what that one call delivers. */
  lemma {:induction false} OnePropagation(effects: seq<Effect>, packet: EmotePacket, vetoed: bool, emitter: Session, sessions: seq<Session>)
    requires forall e <- effects :: e.Propagate? ==> e == Propagate(packet)
    requires multiset(effects)[Propagate(packet)] == 1
    ensures Deliveries(effects, vetoed, emitter, sessions) == Broadcast.ProcessEmote(vetoed, emitter, sessions, packet)
    decreases |effects|
  {
    assert effects == [effects[0]] + effects[1..];
    assert multiset(effects) == multiset{effects[0]} + multiset(effects[1..]);
    if effects[0] == Propagate(packet) {
      assert multiset(effects[1..])[Propagate(packet)] == 0;
      NoPropagationNoDeliveries(effects[1..], vetoed, emitter, sessions);
    } else {
      assert !effects[0].Propagate?;
      OnePropagation(effects[1..], packet, vetoed, emitter, sessions);
    }
  }

  /**
    What translate delivers, per workaround mode: MENU and NO_EMOTES deliver
    nothing directly; DISABLED and the swap-and-emote mode deliver exactly the
    fan-out of the packet.
   */
  lemma TranslateDeliveries(mode: Mode, packet: EmotePacket, vetoed: bool, emitter: Session, sessions: seq<Session>)
    ensures Deliveries(EmoteTranslator.Translate(mode, packet), vetoed, emitter, sessions)
      == if mode == Menu || mode == NoEmotes then [] else Broadcast.ProcessEmote(vetoed, emitter, sessions, packet)
  {
    var r := EmoteTranslator.Translate(mode, packet);
    if mode == Menu || mode == NoEmotes {
      NoPropagationNoDeliveries(r, vetoed, emitter, sessions);
    } else {
      OnePropagation(r, packet, vetoed, emitter, sessions);
    }
  }

  /** The inline menu delivers the emote only for a button outside 1..6, and then exactly its fan-out. */
  lemma MenuResponseDeliveries(session: Session, packet: EmotePacket, response: SimpleFormResponse, vetoed: bool, sessions: seq<Session>)
    ensures Deliveries(EmoteTranslator.MenuResponse(session, packet, response), vetoed, session, sessions)
      == if response.ButtonClicked? && !(1 <= response.buttonId <= 6)
         then Broadcast.ProcessEmote(vetoed, session, sessions, packet) else []
  {
    var r := EmoteTranslator.MenuResponse(session, packet, response);
    if response.ButtonClicked? && !(1 <= response.buttonId <= 6) {
      assert r == [Propagate(packet)];
      assert Deliveries(r, vetoed, session, sessions) == Broadcast.ProcessEmote(vetoed, session, sessions, packet) + [];
    } else {
      NoPropagationNoDeliveries(r, vetoed, session, sessions);
    }
  }

  /** The gated menu delivers the emote only for a button outside 1..6, and then exactly its fan-out. */
  lemma EmoteFormDeliveries(platform: PlatformType, session: Session, packet: EmotePacket, response: SimpleFormResponse, vetoed: bool, sessions: seq<Session>)
    ensures Deliveries(EmoteMenu.EmoteFormResponse(platform, session, packet, response), vetoed, session, sessions)
      == if response.ButtonClicked? && !(1 <= response.buttonId <= 6)
         then Broadcast.ProcessEmote(vetoed, session, sessions, packet) else []
  {
    var r := EmoteMenu.EmoteFormResponse(platform, session, packet, response);
    if response.ButtonClicked? && !(1 <= response.buttonId <= 6) {
      assert r == [Propagate(packet)];
      assert Deliveries(r, vetoed, session, sessions) == Broadcast.ProcessEmote(vetoed, session, sessions, packet) + [];
    } else {
      NoPropagationNoDeliveries(r, vetoed, session, sessions);
    }
  }

  /** Neither answer to the command form delivers the emote. */
  lemma CommandFormDeliversNothing(packet: EmotePacket, response: CustomFormResponse, vetoed: bool, session: Session, sessions: seq<Session>)
    ensures Deliveries(EmoteMenu.CommandFormResponse(packet, response), vetoed, session, sessions) == []
  {
    NoPropagationNoDeliveries(EmoteMenu.CommandFormResponse(packet, response), vetoed, session, sessions);
  }

  /**
    On a STANDALONE proxy every permission check passes, so the gated menu
    answers like the inline one on every button but 5, where the gated menu
    opens the command form and the inline one runs its fixed command.
   */
  lemma StandaloneMatchesInlineMenu(session: Session, packet: EmotePacket, response: SimpleFormResponse)
    ensures response != ButtonClicked(5) ==>
      EmoteMenu.EmoteFormResponse(Standalone, session, packet, response) == EmoteTranslator.MenuResponse(session, packet, response)
    ensures response == ButtonClicked(5) ==>
      EmoteMenu.EmoteFormResponse(Standalone, session, packet, response) == [ShowForm(CommandEntry(packet))]
      && EmoteTranslator.MenuResponse(session, packet, response) == [SendCommand(EmoteTranslator.GiveDiamondCommand)]
  {
  }

  /**
    Emitter E emotes "wave" with the workaround disabled while A is open and
    B has just closed: only A receives it, under A's own runtime id for E.
   */
  lemma WaveScenario()
    ensures
      var e := Session(0, false, 7, "xuid-e", false, {}, map[]);
      var a := Session(1, false, 3, "xuid-a", false, {}, map[7 := Entity(42, true)]);
      var b := Session(2, true, 5, "xuid-b", false, {}, map[7 := Entity(43, true)]);
      Deliveries(EmoteTranslator.Translate(Disabled, EmotePacket("wave")), false, e, [e, a, b])
        == [Delivery(1, OutboundEmote(42, "xuid-e", "", "wave"))]
  {
    var e := Session(0, false, 7, "xuid-e", false, {}, map[]);
    var a := Session(1, false, 3, "xuid-a", false, {}, map[7 := Entity(42, true)]);
    var b := Session(2, true, 5, "xuid-b", false, {}, map[7 := Entity(43, true)]);
    TranslateDeliveries(Disabled, EmotePacket("wave"), false, e, [e, a, b]);
    assert [e, a, b][1..] == [a, b] && [a, b][1..] == [b] && [b][1..] == [];
    assert Broadcast.Audience([b], 0) == [];
    assert Broadcast.Audience([a, b], 0) == [a];
    assert Broadcast.Audience([e, a, b], 0) == [a];
    assert [a][1..] == [];
    assert Broadcast.PlayAll([a], 7, "xuid-e", "wave") == [Delivery(1, OutboundEmote(42, "xuid-e", "", "wave"))];
  }

  /**
    In MENU mode, clicking button 1 of the menu translate sends (or, with the
    offhand permission, of the gated menu) swaps the offhand once and nobody
    receives the emote.
   */
  lemma MenuSwapScenario(session: Session, packet: EmotePacket, vetoed: bool, sessions: seq<Session>)
    requires "geyser.command.offhand" in session.permissions
    ensures EmoteTranslator.Translate(Menu, packet) == [ShowForm(TranslatorEmoteMenu(packet))]
    ensures EmoteTranslator.MenuResponse(session, packet, ButtonClicked(1)) == [OffhandSwap]
    ensures Deliveries(EmoteTranslator.MenuResponse(session, packet, ButtonClicked(1)), vetoed, session, sessions) == []
    ensures EmoteMenu.EmoteFormResponse(Plugin, session, packet, ButtonClicked(1)) == [OffhandSwap]
    ensures Deliveries(EmoteMenu.EmoteFormResponse(Plugin, session, packet, ButtonClicked(1)), vetoed, session, sessions) == []
  {
    MenuResponseDeliveries(session, packet, ButtonClicked(1), vetoed, sessions);
    EmoteFormDeliveries(Plugin, session, packet, ButtonClicked(1), vetoed, sessions);
  }
}
