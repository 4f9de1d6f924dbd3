/**
  The values the emote-handling core reads and the effects it requests.

  Every operation of the core is a pure function from these values to a
  sequence of `Effect`s performed on the emitting session, or to a sequence of
  `Delivery`s addressed to other sessions. External collaborators (the form
  library, locale lookup, inventory resync, advancements cache, statistics
  request, settings form) appear only as opaque effect tags.
 */
module EmoteModel {

  datatype Option<+T> = None | Some(value: T)

  /** The configured emote offhand workaround. */
  datatype Mode = Disabled | NoEmotes | EmoteAndOffhand | Menu

  /** The platform the proxy runs on; the core only asks whether it is STANDALONE. */
  datatype PlatformType = Standalone | Plugin

  /** One entry of a session's entity cache. */
  datatype Entity = Entity(geyserId: int, isPlayer: bool)

  type SessionId = nat

  /**
    A snapshot of one connected session: its identity, whether it is closed,
    its own player's Java entity id and xuid, its advanced-tooltips flag, the
    permissions it holds, and its entity cache keyed by Java entity id (a
    missing key is a lookup that yields null).
   */
  datatype Session = Session(
    id: SessionId,
    closed: bool,
    javaId: int,
    xuid: string,
    advancedTooltips: bool,
    permissions: set<string>,
    entityCache: map<int, Entity>)

  /** The inbound emote packet, reduced to the one field the core reads. */
  datatype EmotePacket = EmotePacket(emoteId: string)

  /** The emote packet built for one receiving session. */
  datatype OutboundEmote = OutboundEmote(runtimeEntityId: int, xuid: string, platformId: string, emoteId: string)

  /** An outbound emote sent upstream to the session with id `target`. */
  datatype Delivery = Delivery(target: SessionId, packet: OutboundEmote)

  /** The forms the core sends; the two emote menus carry the packet they answer. */
  datatype Form =
    | TranslatorEmoteMenu(packet: EmotePacket)
    | GatedEmoteMenu(packet: EmotePacket)
    | CommandEntry(packet: EmotePacket)
    | SettingsForm

  /** The answer to a simple (button) form. */
  datatype SimpleFormResponse = SimpleClosed | ButtonClicked(buttonId: int)

  /** The answer to the one-input custom form. */
  datatype CustomFormResponse = CustomClosed | InputSubmitted(input: string)

  /** What the core asks of the emitting session. */
  datatype Effect =
    | OffhandSwap
    | SetAdvancedTooltips(enabled: bool)
    | ChatMessage(prefixKey: string, messageKey: string)
    | UpdateInventory
    | ShowAdvancements
    | SetWaitingForStatistics
    | RequestStatistics
    | SendCommand(command: string)
    | ShowForm(form: Form)
    | Propagate(packet: EmotePacket)   // a call to processEmote for this packet

  /** The actions of the emote menu, one per button. */
  datatype MenuAction =
    | SendEmote
    | SwapOffhand
    | ToggleTooltips
    | ViewAdvancements
    | ViewStatistics
    | ExecuteCommand
    | ViewSettings

  /** The emote menu's button list: index 0 sends the emote, 1..6 are the other actions. */
  function ButtonAction(buttonId: int): (a: MenuAction)
    ensures a == SendEmote <==> !(1 <= buttonId <= 6)
  {
    match buttonId
    case 1 => SwapOffhand
    case 2 => ToggleTooltips
    case 3 => ViewAdvancements
    case 4 => ViewStatistics
    case 5 => ExecuteCommand
    case 6 => ViewSettings
    case _ => SendEmote
  }

  /** Each of the buttons 1..6 has an action of its own: the switch cases are exclusive. */
  lemma ButtonActionsDistinct(i: int, j: int)
    requires 1 <= i <= 6 && i != j
    ensures ButtonAction(i) != ButtonAction(j)
  {
  }

  /** The menu action an effect belongs to; the forms that show an emote menu belong to none. */
  function EffectBranch(e: Effect): Option<MenuAction> {
    match e
    case OffhandSwap => Some(SwapOffhand)
    case SetAdvancedTooltips(_) => Some(ToggleTooltips)
    case ChatMessage(_, _) => Some(ToggleTooltips)
    case UpdateInventory => Some(ToggleTooltips)
    case ShowAdvancements => Some(ViewAdvancements)
    case SetWaitingForStatistics => Some(ViewStatistics)
    case RequestStatistics => Some(ViewStatistics)
    case SendCommand(_) => Some(ExecuteCommand)
    case ShowForm(f) =>
      (match f
       case CommandEntry(_) => Some(ExecuteCommand)
       case SettingsForm => Some(ViewSettings)
       case _ => None)
    case Propagate(_) => Some(SendEmote)
  }

  /** All effects of `effects` belong to the branch of `action`. */
  predicate WithinBranch(effects: seq<Effect>, action: MenuAction) {
    forall e <- effects :: EffectBranch(e) == Some(action)
  }

  /** The advanced-tooltips flag after performing `effects`, starting from `enabled`. */
  function TooltipsAfter(enabled: bool, effects: seq<Effect>): bool
    decreases |effects|
  {
    if |effects| == 0 then enabled
    else TooltipsAfter(if effects[0].SetAdvancedTooltips? then effects[0].enabled else enabled, effects[1..])
  }

  /** Effects that leave the advanced-tooltips flag alone leave it alone. */
  lemma {:induction false} TooltipsUntouched(enabled: bool, effects: seq<Effect>)
    requires forall e <- effects :: !e.SetAdvancedTooltips?
    ensures TooltipsAfter(enabled, effects) == enabled
    decreases |effects|
  {
    if |effects| > 0 {
      assert effects[0] in effects;
      TooltipsUntouched(enabled, effects[1..]);
    }
  }

  /** Locale keys of the chat message the tooltip toggle sends: a prefix, then the new state. */
  const DebugPrefixKey := "debug.prefix"
  const TooltipsOffKey := "debug.advanced_tooltips.off"
  const TooltipsOnKey := "debug.advanced_tooltips.on"

  /**
    The tooltip-toggle branch shared by both emote menus: flip the flag, tell
    the player the new state ("off" when it was on, "on" otherwise), and
    resync the inventory so item tooltips are redrawn.
   */
  function ToggleTooltipsEffects(enabled: bool): seq<Effect> {
    var onOrOff := if enabled then TooltipsOffKey else TooltipsOnKey;
    [SetAdvancedTooltips(!enabled), ChatMessage(DebugPrefixKey, onOrOff), UpdateInventory]
  }

  /** The chat message the toggle sends from the old flag value: "off" when it was on, "on" otherwise. */
  function ToggleMessage(enabled: bool): Effect {
    ChatMessage(DebugPrefixKey, if enabled then TooltipsOffKey else TooltipsOnKey)
  }

  /**
    `effects` perform one tooltip toggle from `enabled`: the flag is written
    exactly once, to its negation, and never to its old value; exactly one chat
    message is sent, the one for the old value; the inventory is resynced
    exactly once, after the flag write.
   */
  predicate TogglesOnce(effects: seq<Effect>, enabled: bool) {
    && multiset(effects)[SetAdvancedTooltips(!enabled)] == 1
    && SetAdvancedTooltips(enabled) !in effects
    && multiset(effects)[ToggleMessage(enabled)] == 1
    && (forall e <- effects :: e.ChatMessage? ==> e == ToggleMessage(enabled))
    && multiset(effects)[UpdateInventory] == 1
    && (forall i, j :: 0 <= i < |effects| && 0 <= j < |effects| && effects[i].SetAdvancedTooltips? && effects[j] == UpdateInventory ==> i < j)
  }

  /**
    The shared toggle branch performs one toggle, leaves the flag negated, and
    stays within the menu's tooltip branch.
   */
  lemma ToggleTooltipsFlipsOnce(enabled: bool)
    ensures TooltipsAfter(enabled, ToggleTooltipsEffects(enabled)) == !enabled
    ensures TogglesOnce(ToggleTooltipsEffects(enabled), enabled)
    ensures WithinBranch(ToggleTooltipsEffects(enabled), ToggleTooltips)
  {
    var r := ToggleTooltipsEffects(enabled);
    assert |r| == 3 && r[0].SetAdvancedTooltips? && r[1] == ToggleMessage(enabled) && r[2] == UpdateInventory;
    TooltipsUntouched(!enabled, r[1..]);
  }
}
