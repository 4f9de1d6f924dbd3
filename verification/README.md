# Geyser emote handling, modelled in Dafny

This project models how Geyser handles an emote performed by a Bedrock player:

- the emote offhand workaround chooses what the emote means;
- in MENU mode an emote menu is shown, and each button of the menu is an action;
- otherwise the emote is handed to `processEmote`. It fires a cancellable
  `ClientEmoteEvent` and fans the emote out to every other open session. Each
  such session receives an emote packet only if its own entity cache knows the
  emitter as a player.

Every operation is a pure function. Its result is a sequence of effects
requested of the emitting session (`EmoteModel.Effect`) or a sequence of
deliveries addressed to other sessions (`EmoteModel.Delivery`). The
properties say which effects appear, how many times, and in what order.

Modules:

- `EmoteModel` (model.dfy): sessions, packets, forms, form answers and
  effects. It also holds the menu's button table and the tooltip-toggle
  branch that both menus share.
- `Broadcast` (broadcast.dfy): `processEmote` and `playEmote`, both as a
  reference definition (filter the snapshot, then play to each target) and
  as the loop the translator runs.
- `EmoteTranslator` (translator.dfy): `translate`, and the ungated menu
  it builds inline in MENU mode.
- `EmoteMenu` (emote_menu.dfy): the permission-gated emote form, the
  permission check, and the command-entry form.
- `EmoteFlow` (flow.dfy): expands each `Propagate` effect (a call to
  `processEmote`) into the deliveries that call makes, and proves
  end-to-end facts per mode and per menu answer.

Inputs that the model takes as parameters:

- the configured workaround mode;
- the platform type;
- whether the emote event was cancelled. `EmoteFlow.Deliveries` applies one such boolean to every `processEmote` call in an effect sequence; no handler's sequence holds more than one such call, so this is one boolean per call;
- the session-manager snapshot, as a sequence in iteration order.

Session identity (Java reference equality) is the `id` field. Entity ids and
runtime ids are only copied, never computed with, so they are unbounded
`int`s.

The two source files each keep their own menu switch, and the model keeps both
as written: `EmoteTranslator.MenuResponse` and `EmoteMenu.EmoteFormResponse`.
Both call the same abstract `processEmote` through the `Propagate` effect.
`EmoteFlow.StandaloneMatchesInlineMenu` proves where the two agree and where
they differ.

Two behaviours of the code are worth stating plainly, and the model follows them:

- The gated menu checks a permission of its own for each of the buttons 1, 2, 3, 4 and 6, not only for the offhand and tooltip buttons.
- In MENU mode, `translate` sends the ungated menu it builds itself, not the gated form of `EmoteMenuUtils`. Its button 5 runs the fixed command "give @p diamond".

## Model

| member | source | states |
|---|---|---|
| EmoteModel.ButtonAction | core/src/main/java/org/geysermc/geyser/translator/protocol/bedrock/entity/player/BedrockEmoteTranslator.java:52-60 | Button 0 is "Send Emote" and buttons 1..6 are the other six actions; an index maps to sending the emote exactly when it is outside 1..6 |
| EmoteModel.ButtonActionsDistinct | core/src/main/java/org/geysermc/geyser/util/EmoteMenuUtils.java:55-99 | Each of the buttons 1..6 selects an action no other index selects, so each index triggers exactly one branch |
| EmoteModel.ToggleTooltipsFlipsOnce | core/src/main/java/org/geysermc/geyser/util/EmoteMenuUtils.java:64-69 | The tooltip toggle writes the flag exactly once, to the negation of its old value, and never to the old value; afterwards the flag is flipped. It sends exactly one chat message, whose key ends in "off" when the flag was on and in "on" otherwise. It resyncs the inventory exactly once, after the flag write |
| EmoteTranslator.Translate | core/src/main/java/org/geysermc/geyser/translator/protocol/bedrock/entity/player/BedrockEmoteTranslator.java:49-118 | MENU sends only the menu form. DISABLED requests no swap and one processEmote. NO_EMOTES requests one swap and no processEmote. The remaining mode requests one swap, then one processEmote. The swap always comes before processEmote, and processEmote only ever gets the inbound packet |
| EmoteTranslator.TranslateFollowsPlan | core/src/main/java/org/geysermc/geyser/translator/protocol/bedrock/entity/player/BedrockEmoteTranslator.java:50-117 | translate performs exactly one of the four outcomes (show menu, swap and stop, swap and continue, continue only), the one the mode selects |
| EmoteTranslator.MenuResponse | core/src/main/java/org/geysermc/geyser/translator/protocol/bedrock/entity/player/BedrockEmoteTranslator.java:62-98 | Closing the inline menu has no effect. A clicked button always does something, and every effect belongs to that button's action. processEmote is called exactly for an index outside 1..6, 0 included, and only with the inbound packet. Button 2 gives exactly the shared tooltip toggle for the current flag |
| EmoteTranslator.MenuResponseOffhand | core/src/main/java/org/geysermc/geyser/translator/protocol/bedrock/entity/player/BedrockEmoteTranslator.java:66-68 | The inline menu requests an offhand swap exactly once for button 1 and never for any other answer |
| EmoteTranslator.MenuResponseToggleMessage | core/src/main/java/org/geysermc/geyser/translator/protocol/bedrock/entity/player/BedrockEmoteTranslator.java:70-75 | Button 2 of the inline menu writes the flag exactly once, to its negation. It sends exactly one chat message, whose key ends in "off" when the flag was on and in "on" otherwise. It resyncs the inventory exactly once, after the flag write |
| EmoteTranslator.MenuResponseCollaborators | core/src/main/java/org/geysermc/geyser/translator/protocol/bedrock/entity/player/BedrockEmoteTranslator.java:77-93 | Button 3 shows the advancements menu once. Button 4 sets the statistics wait flag and then sends the statistics request. Button 6 sends the settings form once |
| EmoteTranslator.MenuResponseTooltips | core/src/main/java/org/geysermc/geyser/translator/protocol/bedrock/entity/player/BedrockEmoteTranslator.java:70-75 | Only button 2 of the inline menu changes the advanced-tooltips flag, and it flips it |
| EmoteMenu.CheckSessionPermission | core/src/main/java/org/geysermc/geyser/util/EmoteMenuUtils.java:105-110 | STANDALONE grants every permission; on any other platform a permission is granted exactly when the session holds it |
| EmoteMenu.EmoteFormResponse | core/src/main/java/org/geysermc/geyser/util/EmoteMenuUtils.java:52-99 | Closing the gated form has no effect. A clicked button's effects all belong to that button's action. The result is empty exactly when that action needs a permission the check denies: offhand, tooltips, advancements, statistics or settings. processEmote is called exactly for an index outside 1..6. A granted button 2 gives exactly the shared tooltip toggle for the current flag |
| EmoteMenu.EmoteFormOffhand | core/src/main/java/org/geysermc/geyser/util/EmoteMenuUtils.java:57-61 | The gated form swaps the offhand once exactly when button 1 is clicked and the geyser.command.offhand check passes |
| EmoteMenu.EmoteFormTooltips | core/src/main/java/org/geysermc/geyser/util/EmoteMenuUtils.java:63-70 | The gated form flips the advanced-tooltips flag exactly when button 2 is clicked and the geyser.command.tooltips check passes; otherwise the flag is unchanged |
| EmoteMenu.EmoteFormToggleMessage | core/src/main/java/org/geysermc/geyser/util/EmoteMenuUtils.java:63-70 | A granted button 2 of the gated menu writes the flag exactly once, to its negation. It sends exactly one chat message, whose key ends in "off" when the flag was on and in "on" otherwise. It resyncs the inventory exactly once, after the flag write |
| EmoteMenu.EmoteFormCollaborators | core/src/main/java/org/geysermc/geyser/util/EmoteMenuUtils.java:71-94 | Buttons 3, 4 and 6 each do their work once, in source order, when their own permission check passes: the advancements menu; the statistics wait flag, then the statistics request; the settings form. When the check is denied they do nothing |
| EmoteMenu.CommandButtonUngated | core/src/main/java/org/geysermc/geyser/util/EmoteMenuUtils.java:86-88 | Button 5 opens the command form for the same packet, on any platform and with any permissions |
| EmoteMenu.UngatedButtons | core/src/main/java/org/geysermc/geyser/util/EmoteMenuUtils.java:86-98 | Button 5 and the default branch answer the same whatever the platform and the session's permissions |
| EmoteMenu.CommandFormResponse | core/src/main/java/org/geysermc/geyser/util/EmoteMenuUtils.java:122-126 | Closing the command form re-sends the emote form for the same packet. Submitting it sends exactly the entered text as a command. Neither answer calls processEmote |
| EmoteMenu.CommandEntryLoopsBack | core/src/main/java/org/geysermc/geyser/util/EmoteMenuUtils.java:86-123 | Opening the command form from button 5 and then closing it leads back to the emote form for the same packet |
| Broadcast.PlayEmote | core/src/main/java/org/geysermc/geyser/translator/protocol/bedrock/entity/player/BedrockEmoteTranslator.java:158-168 | A packet is built exactly when the target's cache maps the emitter's Java id to a player entity. The packet goes to that target and carries that entity's geyser id, the emitter's xuid, an empty platform id and the unchanged emote id |
| Broadcast.Audience | core/src/main/java/org/geysermc/geyser/translator/protocol/bedrock/entity/player/BedrockEmoteTranslator.java:137-139 | The filtered snapshot holds exactly the sessions that are neither the emitter nor closed |
| Broadcast.PlayAll | core/src/main/java/org/geysermc/geyser/translator/protocol/bedrock/entity/player/BedrockEmoteTranslator.java:140-144 | Every delivery made to the filtered sessions is one that playEmote builds for one of them |
| Broadcast.ProcessEmote | core/src/main/java/org/geysermc/geyser/translator/protocol/bedrock/entity/player/BedrockEmoteTranslator.java:126-147 | A cancelled event delivers nothing. The emitter never receives its own emote. Each delivery goes to an open, non-emitter session of the snapshot whose cache sees the emitter as a player, and carries that session's runtime id for the emitter, the emitter's xuid, an empty platform id and the emote id |
| Broadcast.ProcessEmoteLoop | core/src/main/java/org/geysermc/geyser/translator/protocol/bedrock/entity/player/BedrockEmoteTranslator.java:126-147 | The loop as written (skip the emitter, skip closed sessions, call playEmote) computes exactly the filter-then-play reference ProcessEmote |
| Broadcast.DeliveredOnceIff | core/src/main/java/org/geysermc/geyser/translator/protocol/bedrock/entity/player/BedrockEmoteTranslator.java:137-167 | When session ids are distinct, each session of the snapshot receives exactly one delivery if the event is not cancelled, the session is not the emitter, it is not closed, and its cache sees the emitter as a player. Otherwise it receives none |
| Broadcast.DeliveriesFollowSnapshotOrder | core/src/main/java/org/geysermc/geyser/translator/protocol/bedrock/entity/player/BedrockEmoteTranslator.java:137-146 | The receiving sessions appear in the snapshot's iteration order |
| Broadcast.NotTargeted | core/src/main/java/org/geysermc/geyser/translator/protocol/bedrock/entity/player/BedrockEmoteTranslator.java:137-146 | A session id that is absent from the snapshot receives nothing |
| EmoteFlow.VetoSilencesAll | core/src/main/java/org/geysermc/geyser/translator/protocol/bedrock/entity/player/BedrockEmoteTranslator.java:128-132 | When the emote event is cancelled, no sequence of effects delivers anything |
| EmoteFlow.TranslateDeliveries | core/src/main/java/org/geysermc/geyser/translator/protocol/bedrock/entity/player/BedrockEmoteTranslator.java:50-117 | MENU and NO_EMOTES deliver nothing directly. DISABLED and the remaining mode deliver exactly the fan-out of the inbound packet |
| EmoteFlow.MenuResponseDeliveries | core/src/main/java/org/geysermc/geyser/translator/protocol/bedrock/entity/player/BedrockEmoteTranslator.java:95-97 | An answer to the inline menu delivers the fan-out of the packet when the index is outside 1..6, and nothing otherwise |
| EmoteFlow.EmoteFormDeliveries | core/src/main/java/org/geysermc/geyser/util/EmoteMenuUtils.java:95-97 | An answer to the gated menu delivers the fan-out of the packet when the index is outside 1..6, and nothing otherwise |
| EmoteFlow.CommandFormDeliversNothing | core/src/main/java/org/geysermc/geyser/util/EmoteMenuUtils.java:122-126 | No answer to the command form delivers the emote |
| EmoteFlow.StandaloneMatchesInlineMenu | core/src/main/java/org/geysermc/geyser/translator/protocol/bedrock/entity/player/BedrockEmoteTranslator.java:65-98 | On STANDALONE the gated menu (EmoteMenuUtils.java lines 55-99) answers like this inline switch on every button but 5. On button 5 the gated menu opens the command form and the inline menu runs "give @p diamond" |
| EmoteFlow.WaveScenario | core/src/main/java/org/geysermc/geyser/translator/protocol/bedrock/entity/player/BedrockEmoteTranslator.java:137-167 | Emitter E emotes "wave" with the workaround disabled; A is open and B is closed. Only A receives the emote, under A's runtime id for E, with E's xuid and an empty platform id |
| EmoteFlow.MenuSwapScenario | core/src/main/java/org/geysermc/geyser/translator/protocol/bedrock/entity/player/BedrockEmoteTranslator.java:66-68 | In MENU mode translate sends only the menu. Button 1 swaps the offhand once, in both menus (with the offhand permission for the gated one), and nobody receives the emote |

## Left out

- Form construction (titles, button labels, icon paths): cosmetic. Only the button order is kept, as `EmoteModel.ButtonAction`.
- Locale lookup and chat formatting: the tooltip message is kept as its two locale keys (`debug.prefix` and `debug.advanced_tooltips.on`/`off`), not as the formatted text.
- Inventory resync, the advancements menu, the statistics request (`setWaitingForStatistics` plus the STATS client command) and the settings form: external collaborators, kept as opaque effect tags.
- The event bus: the outcome of `ClientEmoteEvent` is a boolean input, because its subscribers are not part of this model.
- Event-loop affinity (`inEventLoop` or `executeInEventLoop`): both paths end in the same single `playEmote` for the target. The threading is concurrency and is not modelled.
- The session manager's concurrent map: taken as a sequence snapshot in iteration order.
- The values of `EmoteOffhandWorkaroundOption` other than DISABLED, NO_EMOTES and MENU are collapsed into the one constructor `EmoteAndOffhand` of `Mode`, because `translate` treats them all alike.
- The platforms of `PlatformType` other than STANDALONE are collapsed into the one constructor `Plugin`, because the permission check only compares against STANDALONE.
- `EmoteMenuUtils.java:97` calls `BedrockEmoteTranslator.processEmote` statically, although it is declared private and non-static (`BedrockEmoteTranslator.java:126`). Both menus are modelled as calling the same `processEmote`, and the call is not reconciled further.
- Broadcast.DeliveredOnceIff: requires distinct session ids in the snapshot. The source relies on reference identity, which the model represents by the `id` field.
