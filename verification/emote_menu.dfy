/**
  The permission-gated emote menu: the answer handler of the emote form, the
  permission check it uses, and the command-entry form it opens from button 5.
 */
module EmoteMenu {
  import opened EmoteModel

  /** The permission names the menu checks. */
  const OffhandPermission := "geyser.command.offhand"
  const TooltipsPermission := "geyser.command.tooltips"
  const AdvancementsPermission := "geyser.command.advancements"
  const StatisticsPermission := "geyser.command.statistics"
  const SettingsPermission := "geyser.command.settings"

  /** A STANDALONE proxy grants everything; elsewhere the session must hold the permission. */
  function CheckSessionPermission(platform: PlatformType, session: Session, permission: string): (granted: bool)
    ensures platform == Standalone ==> granted
    ensures platform != Standalone ==> (granted <==> permission in session.permissions)
  {
    platform == Standalone || permission in session.permissions
  }

  /** The permission each gated action of the menu needs; the command form and sending the emote need none. */
  function RequiredPermission(action: MenuAction): Option<string> {
    match action
    case SwapOffhand => Some(OffhandPermission)
    case ToggleTooltips => Some(TooltipsPermission)
    case ViewAdvancements => Some(AdvancementsPermission)
    case ViewStatistics => Some(StatisticsPermission)
    case ViewSettings => Some(SettingsPermission)
    case ExecuteCommand => None
    case SendEmote => None
  }

  /** The session may perform `action` from the menu. */
  predicate Allowed(platform: PlatformType, session: Session, action: MenuAction) {
    RequiredPermission(action).None? || CheckSessionPermission(platform, session, RequiredPermission(action).value)
  }

  /**
    The emote form's answer handler: closing does nothing; each of the buttons
    1, 2, 3, 4 and 6 acts only when its own permission check passes and is a
    silent no-op otherwise; button 5 always opens the command form for the same
    packet; any other button, 0 included, calls processEmote.
   */
  function EmoteFormResponse(platform: PlatformType, session: Session, packet: EmotePacket, response: SimpleFormResponse): (r: seq<Effect>)
    ensures response.SimpleClosed? ==> r == []
    ensures response.ButtonClicked? ==> WithinBranch(r, ButtonAction(response.buttonId))
    ensures response.ButtonClicked? ==> (r == [] <==> !Allowed(platform, session, ButtonAction(response.buttonId)))
    ensures Propagate(packet) in r <==> response.ButtonClicked? && !(1 <= response.buttonId <= 6)
    ensures forall e <- r :: e.Propagate? ==> e == Propagate(packet)
    ensures response == ButtonClicked(2) && CheckSessionPermission(platform, session, TooltipsPermission)
      ==> r == ToggleTooltipsEffects(session.advancedTooltips)
  {
    match response
    case SimpleClosed => []
    case ButtonClicked(id) =>
      match id
      case 1 =>
        if CheckSessionPermission(platform, session, OffhandPermission) then [OffhandSwap] else []
      case 2 =>
        if CheckSessionPermission(platform, session, TooltipsPermission) then ToggleTooltipsEffects(session.advancedTooltips) else []
      case 3 =>
        if CheckSessionPermission(platform, session, AdvancementsPermission) then [ShowAdvancements] else []
      case 4 =>
        if CheckSessionPermission(platform, session, StatisticsPermission) then [SetWaitingForStatistics, RequestStatistics] else []
      case 5 =>
        [ShowForm(CommandEntry(packet))]
      case 6 =>
        if CheckSessionPermission(platform, session, SettingsPermission) then [ShowForm(SettingsForm)] else []
      case _ =>
        [Propagate(packet)]
  }

  /** The offhand is swapped once exactly when button 1 is clicked and its permission check passes. */
  lemma EmoteFormOffhand(platform: PlatformType, session: Session, packet: EmotePacket, response: SimpleFormResponse)
    ensures multiset(EmoteFormResponse(platform, session, packet, response))[OffhandSwap]
      == if response == ButtonClicked(1) && CheckSessionPermission(platform, session, OffhandPermission) then 1 else 0
  {
  }

  /** Button 5 opens the command form for the same packet, whatever the permissions. */
  lemma CommandButtonUngated(platform: PlatformType, session: Session, packet: EmotePacket)
    ensures EmoteFormResponse(platform, session, packet, ButtonClicked(5)) == [ShowForm(CommandEntry(packet))]
  {
  }

  /** A granted tooltip toggle flips the flag; every other answer leaves it as it was. */
  lemma {:induction false} EmoteFormTooltips(platform: PlatformType, session: Session, packet: EmotePacket, response: SimpleFormResponse)
    ensures TooltipsAfter(session.advancedTooltips, EmoteFormResponse(platform, session, packet, response))
      == if response == ButtonClicked(2) && CheckSessionPermission(platform, session, TooltipsPermission)
         then !session.advancedTooltips else session.advancedTooltips
  {
    if !(response == ButtonClicked(2) && CheckSessionPermission(platform, session, TooltipsPermission)) {
      var r := EmoteFormResponse(platform, session, packet, response);
      assert forall e <- r :: !e.SetAdvancedTooltips?;
      TooltipsUntouched(session.advancedTooltips, EmoteFormResponse(platform, session, packet, response));
    } else {
      ToggleTooltipsFlipsOnce(session.advancedTooltips);
    }
  }

  /**
    A granted button 2 of the gated menu performs exactly one tooltip toggle:
    one flag write to the negation, one message ("off" when the flag was on,
    "on" otherwise), and one inventory resync after the write.
   */
  lemma EmoteFormToggleMessage(platform: PlatformType, session: Session, packet: EmotePacket)
    requires CheckSessionPermission(platform, session, TooltipsPermission)
    ensures TogglesOnce(EmoteFormResponse(platform, session, packet, ButtonClicked(2)), session.advancedTooltips)
  {
    assert EmoteFormResponse(platform, session, packet, ButtonClicked(2)) == ToggleTooltipsEffects(session.advancedTooltips);
    ToggleTooltipsFlipsOnce(session.advancedTooltips);
  }

  /**
    Granted buttons 3, 4 and 6 of the gated menu each hand over to their
    collaborator once: the advancements menu; the statistics wait flag and then
    the statistics request; the settings form. Denied, they do nothing.
   */
  lemma EmoteFormCollaborators(platform: PlatformType, session: Session, packet: EmotePacket)
    ensures EmoteFormResponse(platform, session, packet, ButtonClicked(3))
      == if CheckSessionPermission(platform, session, AdvancementsPermission) then [ShowAdvancements] else []
    ensures EmoteFormResponse(platform, session, packet, ButtonClicked(4))
      == if CheckSessionPermission(platform, session, StatisticsPermission) then [SetWaitingForStatistics, RequestStatistics] else []
    ensures EmoteFormResponse(platform, session, packet, ButtonClicked(6))
      == if CheckSessionPermission(platform, session, SettingsPermission) then [ShowForm(SettingsForm)] else []
  {
  }

  /** Button 5 and the default branch do not depend on the platform or on any permission. */
  lemma UngatedButtons(p1: PlatformType, s1: Session, p2: PlatformType, s2: Session, packet: EmotePacket, buttonId: int)
    requires buttonId == 5 || !(1 <= buttonId <= 6)
    ensures EmoteFormResponse(p1, s1, packet, ButtonClicked(buttonId)) == EmoteFormResponse(p2, s2, packet, ButtonClicked(buttonId))
  {
  }

  /**
    The command form's answer handler: closing it sends the emote form again
    for the same packet; submitting it runs exactly the entered text as a command.
   */
  function CommandFormResponse(packet: EmotePacket, response: CustomFormResponse): (r: seq<Effect>)
    ensures |r| == 1
    ensures Propagate(packet) !in r
    ensures response.CustomClosed? ==> r[0].ShowForm? && r[0].form == GatedEmoteMenu(packet)
    ensures response.InputSubmitted? ==> r[0] == SendCommand(response.input)
  {
    match response
    case CustomClosed => [ShowForm(GatedEmoteMenu(packet))]
    case InputSubmitted(input) => [SendCommand(input)]
  }

  /**
    Opening the command form from the emote form and closing it comes back to
    the emote form of the same packet, with nothing propagated on the way.
   */
  lemma CommandEntryLoopsBack(platform: PlatformType, session: Session, packet: EmotePacket)
    ensures var shown := EmoteFormResponse(platform, session, packet, ButtonClicked(5));
      && shown == [ShowForm(CommandEntry(packet))]
      && CommandFormResponse(shown[0].form.packet, CustomClosed) == [ShowForm(GatedEmoteMenu(packet))]
  {
  }
}
