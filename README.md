# bipsi-hacks, modelled in Dafny

bipsi-hacks is a set of independent plugins for the bipsi game engine. Most
of each plugin is glue that patches the engine's prototypes, but several of
them keep small sequential state machines and rewrites whose behaviour can be
stated and proved. This project models those pieces, one Dafny module per
plugin file, with the engine's lookups (`FIELD`, `getEventById`,
`roomFromEvent`, `moveEvent`, image and sound resources) taken as maps or
parameters:

- `MoveAnimations` (move animations): facing and moving state, the graphic
  field name they select, the pending-change table with its frame delay, and
  the defaulting of missing animation fields.
- `GamepadInput` (gamepad input): the players table kept by
  `pollconnections`, the button edge flags computed by `update`, the player,
  button, d-pad and axis queries, and the key events `move` dispatches.
- `OneMovePerPress` (one move per press): the held-key set, the movement
  block and the flag watch around the engine's `move`.
- `Markup`: the `@@X@@` and `&&X&&` marker rewriter shared by three plugins,
  the empty-glyph font insertion and the style-value scan over glyphs.
- `DialoguePortraits`, `SpeechPortraits` (portraits in dialogue): marker
  rewriting, sanitising of the style arguments and of the configuration,
  frame discovery, the image cache and the portrait layout arithmetic.
- `SoundDialogue` (sounds in dialogue): the `&&` rewriter, the glyph style
  handling that queues sounds, and the stop rule on page changes.
- `DialogueChoices` (dialogue choices): the choice text, its line count, key
  selection that fires at most once, the proceed gate and result dispatch.
- `ComputedFields` (computed fields): the configured name set, `oneField`,
  `allFields` and `allEventTags`, with the script evaluator left abstract.
- `Importing`, `TiledImport`, `LvllvlImport` (the two map importers): rooms
  and tiles of the project, the 16-wide tileset reformat and tile list, the
  Tiled layer and animation import, and the lvllvl palette and frame import.
- `Sounds`, `SrcSounds` (the two versions of the sounds plugin): the channel
  table kept by playSound, stopSound and setSoundVolume, the sound-end
  listener registry, PLAY_SOUND's attribution and the touch-sound guard.
- `EventBoundImages` (event bound images): the binding registry and image
  placement at cell × TILE_PX plus offset, or off the room.
- `TallCharacter` (tall character): the direction table with its fallback and
  the placement of the head next to the avatar.
- `Host`: the engine constants (TILE_PX 8, ROOM_SIZE 16, ROOM_PX 128), Option
  and Result, and the string and arithmetic helpers the modules share.

State the source changes in place is a class (`MoveAnimator`, `Gamepads`,
`PressTracker`, `Portraits`, `ChoicePlayback`, `Project`, `Playback`,
`SrcPlayback`, `Registry`, `World`, `Image`) whose methods state their new
state through a function of the old one; the properties are proved as lemmas
about those functions. Tile ids are natural numbers where 0 stands for a
missing (falsy) field, and an empty string stands for an absent (falsy) text
argument.

## Model

| member | source | states |
|---|---|---|
| MoveAnimations.NextFacingRule | dist/move-animations.js:117-130 | without smooth move, a move with no dx keeps the facing; otherwise the facing is right for dx > 0, left for dx < 0, and for dx = 0 up when dy < 0 and down otherwise, never unset |
| MoveAnimations.GraphicNameMoving | dist/move-animations.js:152-157 | the graphic field chosen for an event ends in `-move` exactly when the event is moving |
| MoveAnimations.GraphicNameField | dist/move-animations.js:104-115 | an event using alternate tiles selects one of `graphic-move`/`graphic-idle`; otherwise a faced event selects one of the four directional fields, moving or idle as it is |
| MoveAnimations.GraphicNameInjective | dist/move-animations.js:155-157 | two events without alternate tiles selecting the same field have the same facing and moving state, so the name determines the direction |
| MoveAnimations.StagedEffect | dist/move-animations.js:158-163 | the move-state hook cancels the event's pending change when its graphic is already current, otherwise stages the new graphic with TILE_SWAP_DELAY frames, and leaves every other event's pending change untouched |
| MoveAnimations.CommitAfterDelay | dist/move-animations.js:166-177 | a change staged with delay d leaves the event's graphic unchanged for d renders while its frame count runs down to 0, and on render d + 1 installs the graphic and drops the entry |
| MoveAnimations.DefaultFieldFrame | dist/move-animations.js:185-197 | defaulting one field leaves every other field as it was |
| MoveAnimations.DefaultFieldsIndependent | dist/move-animations.js:185-197 | over distinct non-move field names, defaulting the list gives each field what defaulting it alone gives, and changes nothing outside the list |
| MoveAnimations.TwoPhaseDefaults | dist/move-animations.js:185-197 | when an idle field precedes its move field in the list, the idle field gets its own tile or the `graphic` tile, and the move field its own tile or the idle field's defaulted tile; fields outside the list are kept |
| MoveAnimations.PlainDefaults | dist/move-animations.js:181-197 | without smooth move (or with alternate tiles) each used field that is missing gets the `graphic` tile, the rest keep their own, and other fields are untouched |
| MoveAnimations.SmoothDefaults | dist/move-animations.js:185-197 | with smooth move each direction's idle field defaults to `graphic` and its move field to the defaulted idle field; other fields are untouched |
| MoveAnimations.DefaultFieldsConcat | dist/move-animations.js:185 | defaulting a concatenated field list equals defaulting the first part and then the second |
| MoveAnimations.MoveFieldBaseOf | dist/move-animations.js:189 | the pattern `^graphic-([^-]+)-move$` yields the direction of every directional move field |
| MoveAnimations.ShortNotMove | dist/move-animations.js:189 | field names too short to be move fields never match the move pattern |
| MoveAnimations.IdleFieldsWellFormed | dist/move-animations.js:104-113 | the idle and alternate field lists are duplicate-free and none of their fields matches the move pattern |
| MoveAnimations.MoveFieldsWellFormed | dist/move-animations.js:104-112 | the directional move field list is duplicate-free, no move field falls back to another move field, and the k-th move field falls back to the k-th idle field |
| MoveAnimations.InitOnce | dist/move-animations.js:146-150 | the defaults are applied at most once: an initialised event is left alone and initialising twice is the same as once |
| MoveAnimations.RenderOne | dist/move-animations.js:168-177 | one pending entry is either counted down or committed and removed, without touching the entries already handled |
| MoveAnimations.RenderedAll | dist/move-animations.js:167-178 | after every pending entry is handled, the events are the committed ones and the table holds only the counted-down entries |
| MoveAnimations.MoveAnimator.constructor | dist/move-animations.js:106-142 | the swap delay is 1 with smooth move and 0 without, and nothing is pending |
| MoveAnimations.MoveAnimator.FallbackMoveState | dist/move-animations.js:117-130 | sets the moving flag and the facing NextFacing derives, changing no other event or pending entry |
| MoveAnimations.MoveAnimator.InitForEvent | dist/move-animations.js:181-197 | the event's tile fields become the defaulted ones (Defaulted), and nothing else changes |
| MoveAnimations.MoveAnimator.AfterMoveStateUpdate | dist/move-animations.js:145-164 | initialises the event once and updates the pending table as StagedEffect describes |
| MoveAnimations.MoveAnimator.StageGraphic | dist/move-animations.js:151-163 | computes the graphic name the event should show and stages it, or drops the pending change when it is already current; the events are unchanged |
| MoveAnimations.MoveAnimator.UpdateEventsMoveState | dist/move-animations.js:117-164 | a move without smooth move runs the fallback and then the hook, with the combined state |
| MoveAnimations.MoveAnimator.Render | dist/move-animations.js:167-178 | the render hook commits every due change and counts down the others (Committed and Ticked of the old state) |
| GamepadInput.GetPlayer | dist/gamepad-input.js:163-169 | a connected, enabled player is returned as is; any other index gets the idle null gamepad |
| GamepadInput.NullGamepadIsIdle | dist/gamepad-input.js:163-169 | the null gamepad reports no button down, just down or just up, and is not active |
| GamepadInput.EdgesUpToKeepsPad | dist/gamepad-input.js:139-156 | the edge computation changes only the button flags, never the pad, the disabled flag or the previous axes |
| GamepadInput.ButtonStepFlags | dist/gamepad-input.js:141-155 | one button's step sets its down flag to the pressed state, just down on a rise, just up on a fall, and leaves other buttons' flags alone |
| GamepadInput.EdgesUpToFlags | dist/gamepad-input.js:139-156 | after the first n buttons are handled, each of them has the flags its own step gives and the later ones are untouched |
| GamepadInput.EdgesExclusive | dist/gamepad-input.js:139-156 | after update a button is down iff pressed, just down iff pressed and not down before, just up iff released and down before, never both |
| GamepadInput.PollFoldPointwise | dist/gamepad-input.js:87-121 | after polling, an index the browser lists as connected holds its pad (new, or the old player's flags kept and re-enabled), a listed disconnected index is dropped, and an unlisted one stays disabled |
| GamepadInput.LivePad | dist/gamepad-input.js:102-111 | the pad object a player stores shows the list's entry with the player's index, or, when the list has none, the stored pad now disconnected |
| GamepadInput.LiveUpdate | dist/gamepad-input.js:125-157 | without polling, after an update an active player holds the live state of its pad, its previous axes equal its current axes, each button is down exactly when the live pad has it pressed, and its disabled flag is unchanged |
| GamepadInput.QueryMeaning | dist/gamepad-input.js:286-328 | isDown, isJustDown and isJustUp fail without a button, OR the flag over all players without a player index, and read the null gamepad for an inactive player |
| GamepadInput.QueryAfterUpdate | dist/gamepad-input.js:286-314 | after update a player's button reads down exactly when pressed, and never both just down and just up |
| GamepadInput.PlayerDpad | dist/gamepad-input.js:265-279 | a player's d-pad is right minus left and up minus down, each in -1..1 |
| GamepadInput.DpadSumRemove | dist/gamepad-input.js:258-264 | the all-players d-pad is the sum of each player's d-pad |
| GamepadInput.DpadSumBounds | dist/gamepad-input.js:255-280 | the all-players d-pad lies between minus and plus the number of players |
| GamepadInput.AxisPastMeaning | dist/gamepad-input.js:232-241 | axisPast fails on a zero threshold and, without a direction, compares the reading with the threshold in the threshold's own direction |
| GamepadInput.AxisJustPastMeaning | dist/gamepad-input.js:249-250 | axisJustPast holds iff the axis is past now and was not past at the previous reading |
| GamepadInput.AxisJustPastOneWay | dist/gamepad-input.js:232-250 | an axis cannot be just past a threshold in a direction and in the opposite direction at once |
| GamepadInput.Move | dist/gamepad-input.js:360-370 | `move` emits a keydown iff the d-pad or face button is just down or either stick just passed the threshold, a keyup iff one is just up or a stick just passed it backwards, keydown before keyup, at most two events |
| GamepadInput.QuietWithoutPlayers | dist/gamepad-input.js:372-384 | with no players and sticks whose readings did not change since the previous update, the before-update hook dispatches no key event |
| GamepadInput.SteadyNotJustPast | dist/gamepad-input.js:249-250 | a stick whose reading did not change is never just past a threshold |
| GamepadInput.Gamepads.constructor | dist/gamepad-input.js:80-83 | no players and nothing connected at start, with the configured polling mode |
| GamepadInput.Gamepads.PollConnections | dist/gamepad-input.js:87-121 | every player is disabled and then the browser's list is folded in (PollFold); `connected` records whether any pad is connected |
| GamepadInput.Gamepads.DisablePlayers | dist/gamepad-input.js:88-92 | every known player is marked disabled |
| GamepadInput.Gamepads.Update | dist/gamepad-input.js:125-157 | without polling, the stored pads first take the live state of the browser's pads; then every active player's axes are saved, the list is polled when polling every frame, and the button edges of every active player are computed |
| GamepadInput.Gamepads.SaveAllAxes | dist/gamepad-input.js:128-134 | every active player's previous axes become its current axes |
| GamepadInput.Gamepads.UpdateButtons | dist/gamepad-input.js:139-156 | every active player's flags become the edges of its pad's buttons |
| GamepadInput.Gamepads.ButtonEdges | dist/gamepad-input.js:139-156 | the loop over a pad's buttons computes the flags of all of them |
| GamepadInput.Gamepads.GetDpad | dist/gamepad-input.js:255-280 | the d-pad of one player, or the sum over all players without an index |
| OneMovePerPress.Started | dist/one-move-per-press.js:48-51 | the tracker starts consistent, with the flag and the on state equal to `plugin-starts-on` |
| OneMovePerPress.StepsKeepConsistent | dist/one-move-per-press.js:54-108 | key presses, releases and moves keep the tracker consistent (a block implies a key is held) |
| OneMovePerPress.OffPassesThrough | dist/one-move-per-press.js:54-99 | with the flag off every move goes through, the plugin reads as off, and key events change nothing |
| OneMovePerPress.OnMoveRule | dist/one-move-per-press.js:100-108 | with the plugin on a move goes through iff movement is not blocked, and any held key blocks the following moves |
| OneMovePerPress.OneMovePerHeldKey | dist/one-move-per-press.js:54-108 | pressing a key allows exactly one move and blocks the next while it is held |
| OneMovePerPress.ReleaseLastKeyUnblocks | dist/one-move-per-press.js:64-70 | releasing the last held key lets the next move through; releasing one of two held keys does not |
| OneMovePerPress.ReenableResets | dist/one-move-per-press.js:89-95 | after a move the on state follows the flag, and switching the flag on clears the held keys and the block and lets the move through |
| OneMovePerPress.PressTracker.constructor | dist/one-move-per-press.js:48-51 | the tracker's state is Started |
| OneMovePerPress.PressTracker.SetFlag | dist/one-move-per-press.js:89 | the game's flag changes and nothing else |
| OneMovePerPress.PressTracker.KeyDown | dist/one-move-per-press.js:54-61 | the state becomes Press of the key |
| OneMovePerPress.PressTracker.KeyUp | dist/one-move-per-press.js:64-70 | the state becomes Release of the key |
| OneMovePerPress.PressTracker.PointerDown | dist/one-move-per-press.js:73-76 | a pointer press counts as a held key |
| OneMovePerPress.PressTracker.PointerUp | dist/one-move-per-press.js:79-85 | a pointer release releases that key |
| OneMovePerPress.PressTracker.Move | dist/one-move-per-press.js:87-110 | returns whether the engine's move runs and updates the state, both as MoveStep gives |
| Markup.IndexOf | dist/dialogue-portraits.js:278-281 | `indexOf` of the marker from a position gives the first marker there or after, or -1 when there is none |
| Markup.MatchCountPositive | dist/dialogue-portraits.js:273-278 | the global match count is positive exactly when `indexOf` finds a marker |
| Markup.MatchCountSkip | dist/dialogue-portraits.js:273 | a marker-free prefix adds nothing to the match count |
| Markup.TaggedOfFree | dist/dialogue-portraits.js:278-280 | text without a marker is left unchanged |
| Markup.TaggedMarkerFree | dist/dialogue-portraits.js:277-285 | with an even number of markers and no run of three, the rewritten text contains no marker |
| Markup.TaggedIdempotent | dist/dialogue-portraits.js:271-288 | rewriting the rewritten text changes nothing more |
| Markup.TaggedPair | dist/dialogue-portraits.js:281-282 | the first marker pair around `x` becomes the tag `{name=x}` + character + `{-name}`, the text before is kept and the text after is rewritten in turn |
| Markup.PairPartner | dist/dialogue-portraits.js:278-281 | with an even count and no triple, the first marker has a partner found from the next position, and the two account for two of the matches |
| Markup.RewriteStep | dist/dialogue-portraits.js:280-285 | one loop iteration splices the tag, keeps the loop invariant and lowers the count of markers left |
| Markup.RewriteMarkers | dist/dialogue-portraits.js:271-288 | an odd marker count returns the text unchanged; otherwise the result is the tagged text, free of markers, and a marker was replaced iff the count is positive |
| Markup.WithEmptyChar | dist/dialogue-portraits.js:129-133 | fails (a TypeError) exactly when the font has neither character 0 nor 1; otherwise code point 1 is in the font afterwards, existing characters are kept, and a missing one is added with zero size and spacing and character 0's image |
| Markup.EmptyCharIdempotent | dist/dialogue-portraits.js:129-133 | adding the empty character twice is the same as once |
| Markup.Font.constructor | dist/dialogue-portraits.js:129-133 | a font holding the given character table |
| Markup.Font.AddEmptyChar | dist/dialogue-portraits.js:129-133 | reports whether WithEmptyChar succeeds; the table becomes its result, or stays as it was when the call throws |
| Markup.Unstyled | dist/dialogue-portraits.js:150-177 | a handled visible glyph loses the style and keeps all others; a hidden glyph is untouched |
| Markup.StyleValues | dist/dialogue-portraits.js:149-151 | the style values are drawn from the visible glyphs, at most one per glyph |
| Markup.StyleValuesStep | dist/dialogue-portraits.js:149-151 | the values of a page prefix grow by the next glyph's value exactly when it is visible and styled |
| DialoguePortraits.ConfigFrom | dist/dialogue-portraits.js:108-117 | margin and scale are never 0, the default border is a palette index 0..7 and the default side 0 or 1 |
| DialoguePortraits.ConfigFromValues | dist/dialogue-portraits.js:108-117 | valid configured values are taken as written, and a missing configuration gives margin 2, scale 4, border 0, side 0 |
| DialoguePortraits.SanitiseRule | dist/dialogue-portraits.js:151-173 | each argument of the style is used when it parses to a valid side or palette index; otherwise the side falls back to the configured default, fg and bg to the event's colours (3 and 1 without them) and the border to the configured default |
| DialoguePortraits.SanitisedInRange | dist/dialogue-portraits.js:162-173 | with a sane configuration and event colours, every sanitised setting is a side or a palette index |
| DialoguePortraits.IdOfRule | dist/dialogue-portraits.js:152-161 | a positive number is a tile id, `-1` is kept, any lower number and the empty id mean no portrait |
| DialoguePortraits.FindTile | dist/dialogue-portraits.js:195 | the tile found has the id and is in the list; none is found only when no tile has it |
| DialoguePortraits.ShallowArrayEquals | dist/dialogue-portraits.js:182-184 | true exactly when the loaded ids exist and equal the new list |
| DialoguePortraits.EveryEqual | dist/dialogue-portraits.js:183 | element-wise comparison from an index equals equality of the suffixes |
| DialoguePortraits.FrameNameInjective | dist/dialogue-portraits.js:211-222 | distinct frame numbers give distinct field names |
| DialoguePortraits.RunStops | dist/dialogue-portraits.js:217-223 | the frame loop ends, and collects exactly the consecutive numbered fields from the starting number |
| DialoguePortraits.FrameFieldsMeaning | dist/dialogue-portraits.js:211-224 | a field numbered 1 starts a run of numbered frames; without it the unnumbered field alone (or nothing) is used |
| DialoguePortraits.NoIdNoPortrait | dist/dialogue-portraits.js:187-188 | no id, `-1` or an empty name clears the portrait kind and nothing else |
| DialoguePortraits.TileRule | dist/dialogue-portraits.js:190-201 | the same tile as last time only sets the kind; an unknown tile clears it; a found tile sets the kind, its frames and its id and keeps the image data |
| DialoguePortraits.ImageRule | dist/dialogue-portraits.js:204-250 | no frames clears the kind; the same images as last time only set the kind; new ones replace the ids, set the frame count, and the image objects grow to hold them but never shrink |
| DialoguePortraits.ImagesOnlyGrow | dist/dialogue-portraits.js:239-242 | gathering never removes image objects |
| DialoguePortraits.CeilHalf | dist/dialogue-portraits.js:321 | `Math.ceil(x / 2)` is the least r with x <= 2r |
| DialoguePortraits.PortraitAnchor | dist/dialogue-portraits.js:302-304 | a top anchor (0) is moved to the bottom; any other anchor is kept |
| DialoguePortraits.RenderWhen | dist/dialogue-portraits.js:296-312 | a portrait is drawn iff the page has a marker and a portrait was found, and the anchor changes iff the page has a marker and it was 0 |
| DialoguePortraits.PortraitAbovePanel | dist/dialogue-portraits.js:314-332 | the portrait is a square of 12 (tile) or 10 (image) scale units whose bottom edge sits `margin` above the bottom-anchored panel |
| DialoguePortraits.SidesMirror | dist/dialogue-portraits.js:322-331 | left and right portraits sit at the same distance from their edge and at the same height |
| DialoguePortraits.BorderFill | dist/dialogue-portraits.js:334 | border index 0 draws in the panel's colour, any other its palette colour |
| DialoguePortraits.ApplyAllLast | dist/dialogue-portraits.js:149-176 | after the styles of a page, the settings are those of the last styled glyph, and the page flag is unchanged |
| DialoguePortraits.ApplyAllConcat | dist/dialogue-portraits.js:149 | handling styles one after another composes |
| DialoguePortraits.Portraits.constructor | dist/dialogue-portraits.js:93-117 | the plugin starts with side 0, fg 3, bg 1, border 0, no portrait and no marker on the page |
| DialoguePortraits.Portraits.Queue | dist/dialogue-portraits.js:134-144 | throws, changing nothing, exactly when the font has neither character 0 nor 1; otherwise adds the empty character to the font, clears the portrait kind, and returns the rewritten script with the page flag set iff a marker pair was replaced |
| DialoguePortraits.Portraits.DiscoverFrames | dist/dialogue-portraits.js:211-224 | the loop collects FrameFields |
| DialoguePortraits.Portraits.Gather | dist/dialogue-portraits.js:186-268 | the portrait data becomes Gathered of the old data and the settings are untouched |
| DialoguePortraits.Portraits.HandleStyle | dist/dialogue-portraits.js:151-176 | one style value sets the sanitised settings and gathers its portrait (ApplyOne) |
| DialoguePortraits.Portraits.HandleGlyph | dist/dialogue-portraits.js:150-178 | one glyph loses its style and, when it had one, its value is applied; other glyphs are unchanged |
| DialoguePortraits.Portraits.ApplyStyle | dist/dialogue-portraits.js:147-180 | every glyph of the page loses its style and the state is the values applied in page order |
| SpeechPortraits.PrefixKeepsText | src/speech-portraits-from-tiles.js:158-161 | the result always starts with `{portrait=`; the text is kept exactly when it already does; otherwise exactly its first character (none, on empty text) is wrapped in `{portrait=-1}`…`{-portrait}`, the rest kept in order; a second prefix step changes nothing |
| SpeechPortraits.PrefixAsWrittenEmpty | src/speech-portraits-from-tiles.js:159-160 | as written, an empty text becomes a tag around the word `undefined`, which the corrected Prefix does not produce |
| SpeechPortraits.PrefixAgrees | src/speech-portraits-from-tiles.js:159-160 | on every non-empty text the code as written and the corrected Prefix agree |
| SpeechPortraits.PortraitFakedownToTag | src/speech-portraits-from-tiles.js:141-164 | the rewrite loop (tag wrapping the character after the closing marker) followed by the corrected prefix (which does not write `undefined` on empty text); with paired markers no marker is left |
| SpeechPortraits.PrefixFree | src/speech-portraits-from-tiles.js:159-160 | the prefix adds no marker to marker-free text |
| SpeechPortraits.ConfigFrom | src/speech-portraits-from-tiles.js:56-70 | the scale is never 0, the default border is a palette index and the default side 0 or 1 |
| SpeechPortraits.BorderFrom | src/speech-portraits-from-tiles.js:62-66 | the default border is always in 0..7 |
| SpeechPortraits.SideFrom | src/speech-portraits-from-tiles.js:67-70 | the default side is always 0 or 1 |
| SpeechPortraits.ConfigFromDefaults | src/speech-portraits-from-tiles.js:56-70 | a missing configuration gives scale 5, vertical offset 190, border 0, side 0 |
| SpeechPortraits.ConfigFromValues | src/speech-portraits-from-tiles.js:56-70 | valid configured values are taken as written |
| SpeechPortraits.HexBorder | src/speech-portraits-from-tiles.js:62-66 | a default border of `0x7` is 7 here (no radix) and 0 in the dist plugin (base 10) |
| SpeechPortraits.SanitiseRule | src/speech-portraits-from-tiles.js:111-137 | the id is the parsed first argument when it is at least -1 and -1 otherwise; each other argument is used when in range, else the side falls back to the default, fg and bg to the event's colours and the border to the default |
| SpeechPortraits.ApplyAllLast | src/speech-portraits-from-tiles.js:109-139 | after a page the state is the sanitised value of its last portrait style, or unchanged without one |
| SpeechPortraits.PortraitValuesStep | src/speech-portraits-from-tiles.js:109-111 | the portrait values of a page prefix grow by the next glyph's value when it has one |
| SpeechPortraits.ApplyAllSnoc | src/speech-portraits-from-tiles.js:109 | handling one more value is one more ApplyOne |
| SpeechPortraits.RenderNoPortrait | src/speech-portraits-from-tiles.js:174-180 | a negative id draws nothing and keeps the anchor; otherwise the panel is moved to the bottom |
| SpeechPortraits.RenderGeometry | src/speech-portraits-from-tiles.js:186-240 | the border is a 12-unit square ending at the vertical offset, on the left at 24 or ending at 232 on the right; the background (iff bg > 0) is inset by one unit, the sprite (iff fg > 0) by two and mirrored on the right side; border 0 uses the panel colour |
| SpeechPortraits.RenderFrameCycles | src/speech-portraits-from-tiles.js:219-221 | the sprite shows frame `frameCount mod |frames|` of tile id - 1, so the drawing repeats every |frames| frames |
| SpeechPortraits.FrameCycles | src/speech-portraits-from-tiles.js:220-221 | the frame chosen repeats after as many frames as the tile has |
| SpeechPortraits.RenderMissingTile | src/speech-portraits-from-tiles.js:219 | a drawn portrait whose tile id is 0 or past the tile list fails (a TypeError in the source) |
| SpeechPortraits.Portraits.constructor | src/speech-portraits-from-tiles.js:50-53 | starts with no portrait (-1), side 0, fg 3, bg 1, border 0 |
| SpeechPortraits.Portraits.HandleStyle | src/speech-portraits-from-tiles.js:111-137 | one portrait style sets the state to its sanitised value |
| SpeechPortraits.Portraits.ApplyStyle | src/speech-portraits-from-tiles.js:104-140 | the state becomes the page's portrait values applied in order |
| SoundDialogue.SoundTaggedRule | dist/sound-dialogue.js:75-91 | text with an odd `&&` count or none is kept; with paired markers the result has no marker left and rewriting again changes nothing |
| SoundDialogue.MatchCountFree | dist/sound-dialogue.js:77 | marker-free text has a match count of 0 |
| SoundDialogue.Queue | dist/sound-dialogue.js:43-56 | throws with the font unchanged exactly when it has neither character 0 nor 1; otherwise the font gains the empty character and the script is the `&&`-rewritten one |
| SoundDialogue.Plays | dist/sound-dialogue.js:60-71 | at most one sound is played per style value |
| SoundDialogue.PlaysRule | dist/sound-dialogue.js:62-67 | every sound played is on the `dialogue` channel, and its asset is the non-empty library or field asset of one of the page's sound names |
| SoundDialogue.PlaysNothing | dist/sound-dialogue.js:63-65 | empty names and names without an asset play nothing |
| SoundDialogue.PlaysConcat | dist/sound-dialogue.js:60 | the sounds of a page are those of its glyphs in order |
| SoundDialogue.HandleGlyph | dist/sound-dialogue.js:61-70 | one glyph loses its `sound` style and the sound it names is played; other glyphs are untouched |
| SoundDialogue.ApplyStyle | dist/sound-dialogue.js:59-72 | every glyph of the page loses its style, and the sounds played are those of the page's values in order |
| SoundDialogue.StopsAfter | dist/sound-dialogue.js:94-101 | a dialogue event stops at most the `dialogue` channel |
| SoundDialogue.StopsWhenClosed | dist/sound-dialogue.js:94-101 | the `dialogue` channel is stopped exactly when the dialogue is cancelled or a page change leaves no current page |
| DialogueChoices.HandlersFirst | dist/dialogue-choices.js:178-191 | when a custom handler accepts the result, the first one that does handles it; when none does, the native handling runs |
| DialogueChoices.LocationFieldDelegates | dist/dialogue-choices.js:211-214 | a location field (with key and data) unhandled by custom handlers is run as its data would be |
| DialogueChoices.LocationTouches | dist/dialogue-choices.js:199-206 | with the corrected test, a location in any room, room 0 included, that no handler takes touches the event standing there, and does nothing where there is none |
| DialogueChoices.TouchesOnlyEvents | dist/dialogue-choices.js:199-206 | a choice only ever touches an event found at a location of the world |
| DialogueChoices.AsWrittenAgrees | dist/dialogue-choices.js:201 | on results that never name room 0, the truthiness test as written and the corrected location test run the same effect |
| DialogueChoices.RoomZeroIgnored | dist/dialogue-choices.js:201 | as written, a location in room 0 with an event at its position does nothing, where the corrected RunChoice touches the event |
| DialogueChoices.CalculateLineCount | dist/dialogue-choices.js:165-173 | the counting loop returns LineCountOf: 0 for blank text, otherwise the sum over the lines of floor(length × character width / line width) + 1 |
| DialogueChoices.LineTotalBounds | dist/dialogue-choices.js:167-171 | every line takes at least one row, and exactly one for all lines iff each line is narrower than the dialogue width |
| DialogueChoices.LineTotalConcat | dist/dialogue-choices.js:169-171 | the row count of a concatenation of lines is the sum of the counts |
| DialogueChoices.LineRowsWholeQuotient | dist/dialogue-choices.js:170 | when the character width divides the line width, the rows of a line are its length divided by the characters per row, plus one |
| DialogueChoices.LineCountAtLeastLines | dist/dialogue-choices.js:165-173 | blank text counts 0 lines; other text at least one per line of the text |
| DialogueChoices.ChoiceRows | dist/dialogue-choices.js:142-150 | one row per choice, but no more than there are choice keys |
| DialogueChoices.Newlines | dist/dialogue-choices.js:146 | `'\n'.repeat(k)` is k newlines |
| DialogueChoices.ChoiceRowsRoundTrip | dist/dialogue-choices.js:147-150 | splitting the choice text at newlines gives back the rows |
| DialogueChoices.SplitNewlines | dist/dialogue-choices.js:146 | a run of k newlines splits into k empty lines before the rest |
| DialogueChoices.EmptyLinesTotal | dist/dialogue-choices.js:170 | each empty line takes one row |
| DialogueChoices.ReservedLinesFit | dist/dialogue-choices.js:141-146 | when every row fits on one line, the lines reserved in the say style equal the line count of the text shown |
| DialogueChoices.KeydownPicksLowest | dist/dialogue-choices.js:225-233 | a key picks nothing iff no armed choice's key lists it; otherwise it picks the first choice whose key does |
| DialogueChoices.FiresAtMostOnce | dist/dialogue-choices.js:229-230 | a choice disarms the options, so a following key press picks nothing |
| DialogueChoices.ChoicePlayback.constructor | dist/dialogue-choices.js:131-135 | no options are armed and no source event is recorded |
| DialogueChoices.ChoicePlayback.ChoiceText | dist/dialogue-choices.js:146-150 | the loop builds the preamble followed by the choice rows joined by newlines |
| DialogueChoices.ChoicePlayback.SayChoices | dist/dialogue-choices.js:138-157 | no choices say nothing; otherwise the text and style are ChoicesSaid, one result per choice is kept for arming, and the source event is recorded |
| DialogueChoices.ChoicePlayback.ArmOptions | dist/dialogue-choices.js:152-154 | the deferred step arms the choices' results |
| DialogueChoices.ChoicePlayback.Proceed | dist/dialogue-choices.js:241-244 | the dialogue proceeds exactly when no choices are armed |
| DialogueChoices.ChoicePlayback.HandleKeydown | dist/dialogue-choices.js:222-236 | the options and the choice follow KeydownStep, and the dialogue advances exactly when a choice was made |
| ComputedFields.ComputedNamesRule | dist/computed-fields.js:62 | a name is computed iff it is a non-empty line of the `computed-fields` text |
| ComputedFields.ComputedNamesRoundTrip | dist/computed-fields.js:62 | joining non-empty names with newlines and reading them back gives the same set |
| ComputedFields.Find | dist/computed-fields.js:89-93 | `find` returns a field of the event that satisfies the test |
| ComputedFields.FindFirstMatch | dist/computed-fields.js:89-93 | `find` returns nothing iff no field satisfies the test, and otherwise the first one that does |
| ComputedFields.OneFieldNamed | dist/computed-fields.js:86-104 | any field returned carries the requested name and, for a requested type other than `javascript`, that type (a computed result is renamed to the name) |
| ComputedFields.OneFieldNoFallThrough | dist/computed-fields.js:93-101 | when the first candidate is a script whose result is unusable, no field is returned, even if a plain field of the type follows |
| ComputedFields.OneFieldPlainNames | dist/computed-fields.js:88-108 | with the corrected guard, a name outside the computed list (or a javascript lookup) gets the first field of that name and type, found exactly when one exists, whatever the evaluator does |
| ComputedFields.OneFieldWithoutScripts | dist/computed-fields.js:86-104 | on events without script fields of that name, oneField is the plain lookup |
| ComputedFields.NonComputedScriptRuns | dist/computed-fields.js:88 | as written, a script field whose name is not configured as computed is run when no type is requested, and its result returned; the corrected OneField returns the field itself |
| ComputedFields.Filter | dist/computed-fields.js:109 | filtering never grows the list |
| ComputedFields.FilterMembers | dist/computed-fields.js:109 | a field is kept iff it is in the list and passes the test |
| ComputedFields.Collected | dist/computed-fields.js:113-130 | a computed lookup yields at most one field per event field |
| ComputedFields.CollectedNamedTyped | dist/computed-fields.js:113-130 | every field collected carries the name and, when a type is requested, that type |
| ComputedFields.AllFieldsNamedTyped | dist/computed-fields.js:106-131 | every field allFields returns carries the name and the requested type |
| ComputedFields.CollectedKeepsTyped | dist/computed-fields.js:118-120 | every field with the name and a matching type is collected |
| ComputedFields.CollectedWithoutScripts | dist/computed-fields.js:113-130 | on events without script fields of that name, the computed lookup is the plain filter |
| ComputedFields.AllFieldsPlainNoEval | dist/computed-fields.js:108-110 | for a name that is not computed, or a request for scripts, no script is run |
| ComputedFields.CollectFields | dist/computed-fields.js:106-131 | the loop over the event's fields returns AllFields |
| ComputedFields.EventTags | dist/computed-fields.js:133-145 | at most one tag per field |
| ComputedFields.EventTagsMembers | dist/computed-fields.js:133-145 | a key is a tag iff some field with that key is a tag, or a computed script field whose result is a tag |
| Importing.Zeros | src/plugin-import-Tiled.js:61 | a blank room's tile map is a 16 × 16 grid of zeros |
| Importing.BlankRoom | src/plugin-import-Tiled.js:61 | a blank room is well formed and has the given id and palette |
| Importing.Put | src/plugin-import-Tiled.js:68 | writing one cell changes that cell and no other |
| Importing.Project.constructor | src/plugin-import-Tiled.js:52 | the project holds the rooms, tiles and palette it is given |
| Importing.Ensured | src/plugin-import-Tiled.js:60-63 | the room at index k exists afterwards with id k: a missing one is a blank room with the first palette, an existing one keeps its content |
| Importing.ReformatTo16Wide | src/plugin-import-Tiled.js:137-156 | the reformatted image is 16 tiles wide, and the loops copy the input tiles in row-major order, the k-th copy being NthCopy |
| Importing.CopyFromCell | src/plugin-import-Tiled.js:147-152 | the copy numbered x + y × columns reads input cell (x, y) |
| Importing.ReformatPlacement | src/plugin-import-Tiled.js:145-152 | distinct input tiles land in distinct output cells, reading order is kept, and every cell is inside the 16-column output of ceil(tiles / 16) rows |
| Importing.EnsureTilesetFormatRule | src/plugin-import-Tiled.js:125-136 | the format check fails iff a dimension is not a multiple of TILE_PX; a passing image comes out 16 tiles wide with room for all its tiles, and an image already 16 tiles wide is returned unchanged |
| Importing.TileList | src/plugin-import-Tiled.js:112-115 | the loop lists tiles 1..count, tile i + 1 showing frame i |
| Importing.ImportTileset | src/plugin-import-Tiled.js:97-124 | a rejected image changes nothing; otherwise the tiles become one per tileset cell, numbered from 1, and rooms and colours are untouched |
| Importing.TileIds | src/plugin-import-Tiled.js:113-115 | the imported tile ids are distinct, in 1..count, and each tile's only frame is its id - 1 |
| TiledImport.Painted | src/plugin-import-Tiled.js:64-74 | painting a layer's data keeps a 16 × 16 grid |
| TiledImport.PaintedAt | src/plugin-import-Tiled.js:64-74 | the i-th value of a layer lands at row i / width, column i mod width |
| TiledImport.PaintedKeeps | src/plugin-import-Tiled.js:64-74 | cells past the layer's width or past its data keep their old tile |
| TiledImport.CellsDistinct | src/plugin-import-Tiled.js:69-73 | distinct data positions are written to distinct cells |
| TiledImport.CellOf | src/plugin-import-Tiled.js:69-73 | the cell a position is written to gives the position back |
| TiledImport.WriteLayer | src/plugin-import-Tiled.js:64-74 | the cursor loop over the layer's data computes Painted |
| TiledImport.Imported | src/plugin-import-Tiled.js:56-76 | importing the layers keeps every room well formed |
| TiledImport.ImportedRooms | src/plugin-import-Tiled.js:56-76 | room k for each of the n layers is the ensured room painted with layer k; rooms from n on are kept as they were |
| TiledImport.ImportLayer | src/plugin-import-Tiled.js:60-75 | one layer replaces room k by LayerRoom and changes nothing else |
| TiledImport.ImportMap | src/plugin-import-Tiled.js:52-78 | the rooms become Imported of the old rooms; tiles and colours are untouched |
| TiledImport.FrameIds | src/plugin-import-Tiled.js:88 | one frame per animation step |
| TiledImport.Animated | src/plugin-import-Tiled.js:87-89 | a successful animation import keeps the number of tiles |
| TiledImport.AnimStep | src/plugin-import-Tiled.js:88 | one entry succeeds iff it has an animation and names an existing tile position; then that tile takes the entry's frame ids and every other tile is kept |
| TiledImport.AnimatedRule | src/plugin-import-Tiled.js:87-89 | the import succeeds iff every entry names an existing tile position; then each tile keeps its id and takes the frames of the last entry for it, or keeps its own |
| TiledImport.ImportAnimTileset | src/plugin-import-Tiled.js:80-92 | the loop reports success exactly when Animated succeeds and then stores its tiles; on failure the tiles are those left by the entries before the failing one (the import throws there); rooms and colours are untouched |
| TiledImport.AnimatedStops | src/plugin-import-Tiled.js:87-89 | once an entry fails, the whole import fails |
| LvllvlImport.U32ColorToRGBA | src/plugin-import-lvllvl.js:60 | a packed colour gives four bytes, each below 256 |
| LvllvlImport.BytesRoundTrip | src/plugin-import-lvllvl.js:60 | the bytes, read back little-endian, give the colour modulo 2^32 |
| LvllvlImport.HexDigitRoundTrip | src/plugin-import-lvllvl.js:61 | every hexadecimal digit written reads back as its value |
| LvllvlImport.HexValueFixed | src/plugin-import-lvllvl.js:61 | k fixed hex digits of n are hex digits and read back as n mod 16^k |
| LvllvlImport.PadHexFixed | src/plugin-import-lvllvl.js:61 | `("000000" + n.toString(16)).slice(-6)` is n written in exactly six hex digits when n fits |
| LvllvlImport.PadHexLength | src/plugin-import-lvllvl.js:61 | a number below 16^k has at most k hex digits, so the padding is never cut into |
| LvllvlImport.FixedHexSplit | src/plugin-import-lvllvl.js:61 | the hex digits of n are those of n / 256 followed by two digits of n mod 256 |
| LvllvlImport.ColorDigits | src/plugin-import-lvllvl.js:61 | the six digits of r × 256 × 256 + g × 256 + b are two digits for each channel |
| LvllvlImport.ColorTextChannels | src/plugin-import-lvllvl.js:60-61 | the colour text is `#` and six hex digits whose pairs read back as the red, green and blue bytes of the packed colour |
| LvllvlImport.ImportColors | src/plugin-import-lvllvl.js:58-65 | the loop writes PaletteAfter: entries 1 to 7 at most, rooms and tiles untouched |
| LvllvlImport.PaletteStep | src/plugin-import-lvllvl.js:59-64 | each imported colour sets the next palette entry |
| LvllvlImport.PaletteCap | src/plugin-import-lvllvl.js:64 | colours after the seventh are ignored |
| LvllvlImport.PaletteAfterKeeps | src/plugin-import-lvllvl.js:58-65 | entry 0 (transparent) and entries past the imported colours are kept; entry j takes colour j - 1 |
| LvllvlImport.LineCells | src/plugin-import-lvllvl.js:81-86 | a line writes tile, foreground and background + 1 into row y for each of its cells, and leaves every other cell, the id and the palette unchanged |
| LvllvlImport.SetRowStep | src/plugin-import-lvllvl.js:81-86 | the cell loop writes one cell per step |
| LvllvlImport.WriteLine | src/plugin-import-lvllvl.js:80-86 | the cell loop computes LineWritten |
| LvllvlImport.FrameStart | src/plugin-import-lvllvl.js:72-77 | at a frame's start the room under the counter exists with its index as id, and y is 0 |
| LvllvlImport.LinesCursor | src/plugin-import-lvllvl.js:78-92 | after n lines from the top of a room, the counter has advanced n / 16 rooms and y is n mod 16; as written this needs frames of at most 16 lines, and the room set is then unchanged |
| LvllvlImport.LineStepCursor | src/plugin-import-lvllvl.js:79-91 | one line succeeds when its room exists (or is created, corrected), advances y and rolls over to the next room after 16 rows |
| LvllvlImport.LinesStop | src/plugin-import-lvllvl.js:78-92 | once a line fails, the frame fails |
| LvllvlImport.FramesStop | src/plugin-import-lvllvl.js:70-93 | as written, once a frame fails, the whole import fails |
| LvllvlImport.LineStepIndexed | src/plugin-import-lvllvl.js:75-91 | the corrected line step never fails and keeps every room up to the counter at its index |
| LvllvlImport.LinesIndexed | src/plugin-import-lvllvl.js:78-92 | the corrected lines of a frame never fail and keep the rooms indexed |
| LvllvlImport.FramesIndexed | src/plugin-import-lvllvl.js:70-93 | the corrected frames never fail and keep the rooms indexed |
| LvllvlImport.ImportedIndexed | src/plugin-import-lvllvl.js:68-93 | the corrected import never fails, and every room up to the last written has its index as id |
| LvllvlImport.AsWrittenAgrees | src/plugin-import-lvllvl.js:68-93 | for frames of at most 16 lines the loop as written and the corrected one give the same result |
| LvllvlImport.FramesAgree | src/plugin-import-lvllvl.js:70-93 | frame by frame, as written and corrected agree on frames of at most 16 lines |
| LvllvlImport.LinesAgree | src/plugin-import-lvllvl.js:78-92 | line by line, as written and corrected agree within one room |
| LvllvlImport.LineStepAgree | src/plugin-import-lvllvl.js:79-91 | one line as written and corrected agree when its room already exists with its id or it is not the room's first row |
| LvllvlImport.MidFrameAdvanceFails | src/plugin-import-lvllvl.js:88-91 | as written, a frame of more than 16 lines whose 17th line is non-empty fails when room 1 does not exist; corrected, it succeeds and creates room 1 with id 1 |
| LvllvlImport.OneFrame | src/plugin-import-lvllvl.js:70-78 | a single frame is its frame start followed by its lines |
| LvllvlImport.SecondRoomFails | src/plugin-import-lvllvl.js:80-91 | as written, the 17th line of a frame writes into a room that was never created |
| LvllvlImport.CorrectedMakesSecondRoom | src/plugin-import-lvllvl.js:88-91 | corrected, a long frame creates the second room with its id |
| LvllvlImport.ImportLine | src/plugin-import-lvllvl.js:79-91 | one line on the project: the corrected LineStep, keeping the rooms indexed |
| LvllvlImport.ImportFrame | src/plugin-import-lvllvl.js:71-92 | one frame on the project: the corrected frame start and lines |
| LvllvlImport.ImportFrames | src/plugin-import-lvllvl.js:68-93 | the room loop never fails and leaves the rooms Imported gives; tiles and colours are untouched |
| LvllvlImport.ImportMap | src/plugin-import-lvllvl.js:55-95 | the palette becomes PaletteAfter and the rooms those of the corrected import; tiles are untouched |
| Sounds.NewChannel | dist/sounds.js:141-143 | a new channel is a silent, unlooped element with no source, no attribution and no listeners, at the given volume |
| Sounds.ChannelName | dist/sounds.js:140 | the channel name is never empty, and a given name is kept |
| Sounds.Clamp | dist/sounds.js:184 | the volume is in [0, 1]: kept when inside, 0 below, 1 above |
| Sounds.PlayRule | dist/sounds.js:138-155 | an empty sound changes nothing; a missing channel with a default volume outside [0, 1] is stored silent at the element's volume 1 and nothing plays (the volume assignment throws); otherwise the channel (created at the default volume) takes the sound, loop flag and attribution and plays, unless it already loops that sound; volume and listeners kept, other channels untouched |
| Sounds.ReplayLooped | dist/sounds.js:147 | when the first request does not throw, asking twice for the same looped sound is asking once |
| Sounds.ThrowThenPlays | dist/sounds.js:141-154 | after a request that threw on a new channel, the same request plays there at volume 1 |
| Sounds.PlayAudible | dist/sounds.js:141-154 | playing keeps every volume in [0, 1], whatever the default, since an out-of-range default throws before reaching an element |
| Sounds.StopRule | dist/sounds.js:160-173 | stopping never creates a channel, silences the named channel or all of them with volume, attribution and listeners kept, and is idempotent |
| Sounds.VolumeRule | dist/sounds.js:184-198 | the clamped volume goes to the one named channel (created when missing) or to every channel; nothing else changes and volumes stay in [0, 1] |
| Sounds.ListenRoundTrip | dist/sounds.js:204-230 | removing the listener just added restores every channel, except that a channel created for it remains |
| Sounds.AssetId | dist/sounds.js:110-113 | the asset is FIELD_OR_LIBRARY's result or the sound name itself |
| Sounds.AttributionRule | dist/sounds.js:120-133 | the sound is attributed to the current event exactly when it has a file field and no text field; the name is the text field's value, else the sound name |
| Sounds.Playback.Start | dist/sounds.js:232-235 | no channels, the configured default volume (0 when unparsable), and an empty listener registry |
| Sounds.Playback.PlaySound | dist/sounds.js:138-155 | the channel table becomes Played of the old one; the call throws exactly when the channel is new and the default volume is outside [0, 1]; listener ids stay below the counter |
| Sounds.Playback.PlaySoundScript | dist/sounds.js:109-137 | an asset missing from the resources plays nothing; otherwise its URL plays with the attribution, throwing as PlaySound does |
| Sounds.Playback.StopSound | dist/sounds.js:160-173 | the channel table becomes Stopped of the old one; listener ids stay below the counter |
| Sounds.Playback.SetSoundVolume | dist/sounds.js:178-199 | an unparsable volume changes nothing; a number sets VolumeChannels and, for all channels, the default; listener ids stay below the counter |
| Sounds.Playback.AddOnSoundEnd | dist/sounds.js:204-218 | returns a fresh handle on the named channel (created when missing) and registers it there only |
| Sounds.Playback.RemoveOnSoundEnd | dist/sounds.js:223-230 | the handle's listener is removed from its channel, if that channel exists |
| Sounds.TouchSound | dist/sounds.js:237-246 | the behaviour plays `touch-sound` exactly when the event's field of that name is a file or text field with data |
| SrcSounds.NewAudio | src/sounds.js:115-116 | a new element is silent, unlooped, at the given volume, as in the dist version |
| SrcSounds.PlayedAgreesWithDist | src/sounds.js:109-126 | the corrected src rule is the dist rule seen on the audio elements |
| SrcSounds.OneShotNeverLoops | src/sounds.js:119-121 | as written, a one-shot sound still on its channel and then asked for looped is left unlooped; corrected, it loops |
| SrcSounds.PlayedAsWrittenAgrees | src/sounds.js:118-125 | outside that case the rule as written and the corrected one agree |
| SrcSounds.StoppedAgreesWithDist | src/sounds.js:136-151 | stopping is the dist rule seen on the audio elements |
| SrcSounds.NaNVolumeSilencesNewChannel | src/sounds.js:156-176 | as written, an unparsable volume for all channels makes the default NaN, and the next sound on a new channel throws and stays silent; corrected, nothing changes and that sound plays at the default, throwing only when the default is outside [0, 1] |
| SrcSounds.VolumeSetAgrees | src/sounds.js:161-175 | with a number both rules agree and neither throws |
| SrcSounds.VolumeSetFinite | src/sounds.js:156-176 | corrected, the default stays a number, and a number for all channels puts the default and every channel at its clamped value |
| SrcSounds.SrcPlayback.Start | src/sounds.js:104-107 | no channels, and the configured default volume |
| SrcSounds.SrcPlayback.PlaySound | src/sounds.js:109-126 | the table becomes the corrected AudioPlayed of the old one; the call throws exactly when the channel is new and the default volume is outside [0, 1] |
| SrcSounds.SrcPlayback.PlaySoundScript | src/sounds.js:127-134 | the object URL of FIELD_OR_LIBRARY's asset (or the name) is played, with no existence check |
| SrcSounds.SrcPlayback.StopSound | src/sounds.js:136-151 | the table becomes AudioStopped of the old one |
| SrcSounds.SrcPlayback.SetSoundVolume | src/sounds.js:156-176 | table and default become the corrected VolumeSetChecked of the old ones |
| SrcSounds.TouchSound | src/sounds.js:181-197 | plays exactly for a file or text field with data whose text field, if any, names a library field with data, and passes the field's data |
| SrcSounds.TouchSoundStricter | src/sounds.js:181-197 | the src behaviour plays only when the dist one would, and always for a file field |
| EventBoundImages.PlacedRule | dist/event-bound-images.js:76-84 | in the avatar's room the image sits at its event's cell × TILE_PX plus the bound offset; elsewhere x is ROOM_PX and y is kept |
| EventBoundImages.PlacedIdempotent | dist/event-bound-images.js:76-84 | updating twice for the same placement is updating once |
| EventBoundImages.PlacedFollows | dist/event-bound-images.js:76-84 | between two updates in the avatar's room the image moves by exactly its event's displacement × TILE_PX |
| EventBoundImages.Image.constructor | dist/event-bound-images.js:43 | an image at the given position |
| EventBoundImages.Registry.Init | dist/event-bound-images.js:65-67 | no bindings |
| EventBoundImages.Registry.Update | dist/event-bound-images.js:76-84 | the bound image's position becomes Placed of its old one |
| EventBoundImages.Registry.Bind | dist/event-bound-images.js:42-53 | an unknown image id fails and changes nothing; otherwise the binding records the image's position as its offset, replaces any earlier one for the id, and places the image at once |
| EventBoundImages.Registry.HideImage | dist/event-bound-images.js:60-62 | only the hidden id's binding is removed |
| EventBoundImages.Registry.Render | dist/event-bound-images.js:70-73 | every bound image is placed for the avatar's room |
| TallCharacter.DirectionRule | dist/tall-character.js:31-38 | the direction is a unit step along one axis; the four names give their steps and every other text, the empty one included, gives up |
| TallCharacter.MovedRule | dist/tall-character.js:40-50 | the head goes to the avatar's room, one direction step from the avatar; no other event moves, and repeating it changes nothing |
| TallCharacter.World.constructor | dist/tall-character.js:40-43 | the world's event locations |
| TallCharacter.World.PlaceHead | dist/tall-character.js:40-50 | the locations become Moved of the old ones |
| Host.FirstIndex | dist/computed-fields.js:62 | the index found is the first holding the character, or the length when none does |
| Host.FirstRule | dist/computed-fields.js:89 | `Array.prototype.find` finds nothing exactly when no element matches, and otherwise the first element that matches |
| Host.Split | dist/dialogue-choices.js:167 | `split` gives at least one piece and no piece contains the separator |
| Host.JoinSplit | dist/dialogue-choices.js:167 | joining the pieces of a split with the separator gives the text back |
| Host.SplitJoin | dist/computed-fields.js:62 | splitting pieces without the separator, joined with it, gives the pieces back |
| Host.SplitCount | dist/dialogue-choices.js:167 | a text splits into one more piece than it has separators |
| Host.SplitAppend | dist/dialogue-choices.js:167 | splitting `a + sep + b` is splitting a, then b |
| Host.NatToStringInjective | dist/dialogue-portraits.js:211-222 | different numbers have different decimal texts |
| Host.ParseIntOfNat | dist/dialogue-portraits.js:108-114 | `parseInt` reads back the decimal text of a number and of its negation |
| Host.ToNumberOfNat | src/speech-portraits-from-tiles.js:56 | `Number` reads back the decimal text of a number |
| Host.AnyRadixDecimal | src/speech-portraits-from-tiles.js:61 | `parseInt` with no radix is the base-10 parse on text without a `0x` prefix |
| Host.AnyRadixOfNat | src/speech-portraits-from-tiles.js:61 | `parseInt` with no radix reads back the decimal text of a number |
| Host.AnyRadixHex | src/speech-portraits-from-tiles.js:112-116 | with no radix `0x10` is 16 and `-0x1F` is -31, where base 10 reads `0x10` as 0 |

## Left out

- Canvas drawing (portrait blits, borders, tile rendering, image animation) is not modelled: only the geometry and the choice of what is drawn are.
- Browser devices and media are parameters or left out: `navigator.getGamepads`, dispatching `KeyboardEvent`s, audio `play`/`pause` (a `playing` flag stands for them), the calling of `ended`/`seeked` listeners, `FileReader` and `Image` loading in the importers, `setTimeout` (the choice keys are armed by a separate `ArmOptions` step).
- Floating point is not modelled: gamepad axis values and dead zones, volumes as `real`, and `parseFloat` as an optional `real` (`None` for NaN). A configured default sound volume outside [0, 1] is never clamped (dist/sounds.js:234, src/sounds.js:106): the first sound on each new channel then throws, leaving that channel silent at volume 1, and the model says so.
- Dynamic code is a parameter: `runJSSync`/`new Function` (the script evaluator of the computed fields), the `runJS` choice handlers (an `accepts` function), and the rewrite of the engine's `WALK` source text in the move animations.
- Editor user interface (plugin windows, file pickers, the importers' buttons and logs) and `ReadmePlugin.mjs` are not part of this model.
- `makeBlankRoom` is modelled as a room of zero grids: its wall map and events are not modelled.
- TiledImport.ImportLayer: requires that the layer fits the rooms it writes, which the source assumes of Tiled's export.
- LvllvlImport: a line holds at most 16 cells (the source writes past the row otherwise), colours are read little-endian as the browser does on the usual hosts, and the state left behind by a `TypeError` part-way through an import is not modelled (the result is `Err`).
- EventBoundImages.Registry.Bind: requires that the bound event has a placement and that no other id is bound to the same image, which the host's one-image-per-id table guarantees.
- EventBoundImages.Registry.Render: requires a placement for every bound event; an event deleted while bound makes the source throw.
- Sounds.Playback.RemoveOnSoundEnd: a handle that is not an object (the source reports it and then throws on `toStop.channel`) is not modelled.
- TallCharacter.World.PlaceHead: assumes an `is-head` event exists and differs from the avatar; the head is not kept inside the room's bounds, as in the source.
- TallCharacter.DirectionRule: a `direction` text naming an inherited property of a JavaScript object (`constructor`, `toString`) is treated as unknown, where the source would read a function and compute NaN positions.
- Markup: the rewriters require that markers do not overlap in threes, which the source does not check and whose output it does not define.
- DialogueChoices.CalculateLineCount: requires a positive line width; a configured width of 0 makes the source's count infinite or NaN, which is not modelled.
- LineRows: counts `floor(len * C / W) + 1` in exact arithmetic; the source divides in floating point, which for some widths where C does not divide W gives one row fewer (W = 100, C = 6, a 250-character line: 15 rows in the source, 16 here). When C divides W, as 192 and 6 do (the values the configuration fields start with, dist/dialogue-choices.js:120-124), the two agree (LineRowsWholeQuotient). CalculateLineCount and LineCountAtLeastLines inherit this. The length of a line is also counted in characters (Unicode scalar values), where `line.length` counts UTF-16 code units: a character outside the Basic Multilingual Plane, such as an emoji, counts 2 in the source and 1 here.
- Markup.TaggedPair: text is a sequence of characters, where JavaScript's indexing and `slice` count UTF-16 code units. For a style that wraps the next character (`slice(end+2, end+3)`, src/speech-portraits-from-tiles.js:153-154) the source wraps only the first half of a character outside the Basic Multilingual Plane, splitting its surrogate pair, while the model wraps the whole character; Markup.Tagged, Markup.RewriteMarkers and SpeechPortraits.PortraitFakedownToTag inherit this. The dist plugins' styles wrap their own zero-width character and are not affected.
- SpeechPortraits.Prefix: for the same reason `text[0]` and `text.slice(1)` (src/speech-portraits-from-tiles.js:160) split a leading character outside the Basic Multilingual Plane, where the model wraps the whole character; PrefixKeepsText, PrefixAsWritten and PrefixAgrees are stated in characters.
- SideFrom: `Number` is modelled for integer texts only (surrounding whitespace, an optional sign, decimal digits; blank is 0). Other spellings the source reads as 0 or 1 (`1.0`, `1e0`, `0x1`, `0b1`) fall back to side 0 here, where the source keeps them.
- OffsetFrom: the same restriction of `Number`: a decimal, exponent or hexadecimal vertical offset (`190.5`, `1.9e2`, `0xBE`) is NaN (`None`) here, where the source draws at its value.
- ToNumberOfNat: states only that decimal integer texts read back; the rest of `Number`'s grammar (fractions, exponents, `Infinity`, `0x`/`0o`/`0b` prefixes) is not modelled.
- DialogueChoices: arming requires no more choices than option keys; the configuration numbers are parameters. The written defaults (1, 192, 6) never apply: a missing field reads as `parseInt(undefined, 10)`, which is NaN, and `NaN ?? default` is NaN (dist/dialogue-choices.js:133-135). A missing line or character width therefore makes every line count NaN, and a missing separation count adds no blank line but makes the preamble's line count NaN; the model takes the configuration as numbers and does not cover these NaN cases.
- GamepadInput.Gamepads.Update: the browser updating its pad objects in place between frames is modelled as one refresh of the stored pads at the start of each non-polling update, from the list passed in; a pad missing from that list is taken to report itself disconnected. Because the axes are saved from those same live objects, LiveUpdate shows that without polling the previous axes always equal the current ones.
- GamepadInput: the `update` hook writing into the null gamepad when no pad is connected is not modelled; GamepadInput.Move takes a threshold other than 0.
- OneMovePerPress and MoveAnimations: the engine's own `move` and `render` are parameters or left out; only the plugins' hooks around them are modelled.

## Findings

| source | as written | input that shows it | evidently intended | confidence | as-written member | corrected member |
|---|---|---|---|---|---|---|
| src/speech-portraits-from-tiles.js:159-161 | the "no portrait" prefix wraps `text[0]`, which is `undefined` on empty text | the empty text gives `{portrait=-1}undefined{-portrait}` | empty text gains only the two tags | not executed | SpeechPortraits.PrefixAsWrittenEmpty | SpeechPortraits.PrefixKeepsText |
| dist/dialogue-choices.js:201 | a location result is recognised only when `choiceResult.room` is truthy | a choice whose result is room 0, cell (3, 4), where event 7 stands, does nothing | every room id, 0 included, is a room, and the event there is touched | not executed | DialogueChoices.RoomZeroIgnored | DialogueChoices.LocationTouches |
| dist/computed-fields.js:88 | `oneField` takes the plain path only for non-computed names asked for with type `javascript` (`&&`), unlike `allFields` at line 108 (`\|\|`) | a `javascript` field `solid` looked up with no type, with no computed names: its script runs and its result is returned | names outside the list return the plain field, scripts unevaluated | not executed | ComputedFields.NonComputedScriptRuns | ComputedFields.OneFieldPlainNames |
| src/plugin-import-lvllvl.js:88-91 | after 16 lines the room counter advances without creating the next room | one frame of 17 lines whose 17th is non-empty, in a project with only room 0: writing the 17th line throws | the next room is created with its index as id, as at a frame's start | not executed | LvllvlImport.MidFrameAdvanceFails | LvllvlImport.ImportedIndexed |
| src/sounds.js:119 | the looped no-op compares only the source, not whether the element loops | a one-shot sound still on its channel, then asked for looped: it is left unlooped | only a sound already looping is left alone, as in dist/sounds.js:147 | not executed | SrcSounds.OneShotNeverLoops | SrcSounds.PlayedAgreesWithDist |
| src/sounds.js:158-161 | an unparsable volume is only logged, so NaN becomes the default or is assigned to an element | `SET_SOUND_VOLUME("x")` then a sound on a new channel: the default is NaN and the play throws, leaving the channel silent | NaN changes nothing, as in dist/sounds.js:180-183 | not executed | SrcSounds.NaNVolumeSilencesNewChannel | SrcSounds.VolumeSetFinite |
