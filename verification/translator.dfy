/**
  The emote packet translator: the workaround-mode dispatch of `translate` and
  the menu it builds inline (no permission checks) when the mode is MENU.
 */
module EmoteTranslator {
  import opened EmoteModel

  /** The four outcomes the workaround mode can select for one inbound emote. */
  datatype Plan = ShowMenu | SwapAndStop | SwapAndContinue | ContinueOnly

  /** The mode table: MENU defers everything to the menu, DISABLED only propagates,
      NO_EMOTES only swaps, any other mode swaps and then propagates. */
  function Decide(mode: Mode): Plan {
    match mode
    case Menu => ShowMenu
    case Disabled => ContinueOnly
    case NoEmotes => SwapAndStop
    case EmoteAndOffhand => SwapAndContinue
  }

  /** What an outcome asks of the emitting session, in order. */
  function Perform(plan: Plan, packet: EmotePacket): seq<Effect> {
    match plan
    case ShowMenu => [ShowForm(TranslatorEmoteMenu(packet))]
    case SwapAndStop => [OffhandSwap]
    case SwapAndContinue => [OffhandSwap, Propagate(packet)]
    case ContinueOnly => [Propagate(packet)]
  }

  /**
    translate, with its early returns: in MENU mode only the menu is sent; any
    other mode but DISABLED requests an offhand swap, and every mode but
    NO_EMOTES then hands the packet to processEmote.
   */
  function Translate(mode: Mode, packet: EmotePacket): (r: seq<Effect>)
    ensures mode == Menu ==> r == [ShowForm(TranslatorEmoteMenu(packet))]
    ensures multiset(r)[OffhandSwap] == (if mode == Menu || mode == Disabled then 0 else 1)
    ensures multiset(r)[Propagate(packet)] == (if mode == Menu || mode == NoEmotes then 0 else 1)
    ensures forall e <- r :: e.Propagate? ==> e == Propagate(packet)
    ensures forall i, j :: 0 <= i < |r| && 0 <= j < |r| && r[i] == OffhandSwap && r[j].Propagate? ==> i < j
  {
    if mode == Menu then
      [ShowForm(TranslatorEmoteMenu(packet))]
    else
      var swap := if mode != Disabled then [OffhandSwap] else [];
      if mode == NoEmotes then swap else swap + [Propagate(packet)]
  }

  /** translate performs exactly the outcome the mode table selects. */
  lemma TranslateFollowsPlan(mode: Mode, packet: EmotePacket)
    ensures Translate(mode, packet) == Perform(Decide(mode), packet)
  {
  }

  /** The command the inline menu's button 5 runs. */
  const GiveDiamondCommand := "give @p diamond"

  /**
    The inline menu's answer handler: closing does nothing; buttons 1..6 swap
    the offhand, toggle advanced tooltips, show advancements, request
    statistics, run the fixed command "give @p diamond" and open the settings
    form; any other button, 0 included, calls processEmote.
   */
  function MenuResponse(session: Session, packet: EmotePacket, response: SimpleFormResponse): (r: seq<Effect>)
    ensures response.SimpleClosed? ==> r == []
    ensures response.ButtonClicked? ==> r != [] && WithinBranch(r, ButtonAction(response.buttonId))
    ensures Propagate(packet) in r <==> response.ButtonClicked? && !(1 <= response.buttonId <= 6)
    ensures forall e <- r :: e.Propagate? ==> e == Propagate(packet)
    ensures response == ButtonClicked(2) ==> r == ToggleTooltipsEffects(session.advancedTooltips)
  {
    match response
    case SimpleClosed => []
    case ButtonClicked(id) =>
      match id
      case 1 => [OffhandSwap]
      case 2 => ToggleTooltipsEffects(session.advancedTooltips)
      case 3 => [ShowAdvancements]
      case 4 => [SetWaitingForStatistics, RequestStatistics]
      case 5 => [SendCommand(GiveDiamondCommand)]
      case 6 => [ShowForm(SettingsForm)]
      case _ => [Propagate(packet)]
  }

  /** The inline menu swaps the offhand once for button 1 and never otherwise. */
  lemma MenuResponseOffhand(session: Session, packet: EmotePacket, response: SimpleFormResponse)
    ensures multiset(MenuResponse(session, packet, response))[OffhandSwap] == if response == ButtonClicked(1) then 1 else 0
  {
  }

  /**
    Button 2 of the inline menu performs exactly one tooltip toggle: one flag
    write to the negation, one message ("off" when the flag was on, "on"
    otherwise), and one inventory resync after the write.
   */
  lemma MenuResponseToggleMessage(session: Session, packet: EmotePacket)
    ensures TogglesOnce(MenuResponse(session, packet, ButtonClicked(2)), session.advancedTooltips)
  {
    assert MenuResponse(session, packet, ButtonClicked(2)) == ToggleTooltipsEffects(session.advancedTooltips);
    ToggleTooltipsFlipsOnce(session.advancedTooltips);
  }

  /**
    Buttons 3, 4 and 6 of the inline menu each hand over to their collaborator
    once: the advancements menu; the statistics wait flag and then the
    statistics request; the settings form.
   */
  lemma MenuResponseCollaborators(session: Session, packet: EmotePacket)
    ensures MenuResponse(session, packet, ButtonClicked(3)) == [ShowAdvancements]
    ensures MenuResponse(session, packet, ButtonClicked(4)) == [SetWaitingForStatistics, RequestStatistics]
    ensures MenuResponse(session, packet, ButtonClicked(6)) == [ShowForm(SettingsForm)]
  {
  }

  /** Only button 2 of the inline menu changes the advanced-tooltips flag, and it flips it. */
  lemma {:induction false} MenuResponseTooltips(session: Session, packet: EmotePacket, response: SimpleFormResponse)
    ensures TooltipsAfter(session.advancedTooltips, MenuResponse(session, packet, response))
      == (if response == ButtonClicked(2) then !session.advancedTooltips else session.advancedTooltips)
  {
    if response != ButtonClicked(2) {
      assert forall e <- MenuResponse(session, packet, response) :: !e.SetAdvancedTooltips?;
      TooltipsUntouched(session.advancedTooltips, MenuResponse(session, packet, response));
    } else {
      ToggleTooltipsFlipsOnce(session.advancedTooltips);
    }
  }
}
