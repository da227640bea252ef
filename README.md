# Dialogue manager and dialogue trigger, modelled in Dafny

This project models the dialogue system of a small Unity game. It covers two scripts:

- `DialogueManager` plays an Ink story in a dialogue panel. Each line is typed
  out one letter at a time, and the continue key is accepted only once the line
  is fully shown. The manager also interprets the `key:value` tags that come
  with each line (`speaker` sets the name above the box, `portrait` picks the
  portrait animation), and it fills the choice buttons with the current choices.
- `ThirdPersonDialogueTrigger` is a trigger zone. It starts its story when the
  player is in range and no dialogue is playing; the player leaving the zone
  destroys the trigger.

Modules, one per file:

- `Options` (`options.dfy`): an optional value, for nullable references and exceptions.
- `Text` (`text.dfy`): the two .NET string operations the tag parser uses.
  `Split` keeps every piece, empty ones included. `Trim` uses the
  `Char.IsWhiteSpace` character set. The file proves that `Split` and `Join`
  invert each other, and that `Trim` is characterised by white-space padding.
- `Tags` (`tags.dfy`): one tag parsed as `HandleTags` parses it (`ParseTag`), and
  the whole tag loop as a left fold (`ApplyTags`). A tag without `':'` throws;
  this is modelled as a fault outcome that keeps the effect of the earlier tags.
- `InkStory` (`ink_story.dfy`): the Ink story as the manager sees it. It is a
  sequence of lines, each with its tags and choice texts, plus how far
  `Continue()` has gone and a record of `ChooseChoiceIndex` calls.
- `ChoiceSlots` (`choice_slots.dfy`): the value that `DisplayChoices` leaves in
  the choice buttons (`ShowChoices`).
- `Dialogue` (`dialogue_manager.dfy`): `DialogueManager` as a class, with its
  fields updated in place. The choice buttons are two arrays, active flags and
  label texts.
- `Trigger` (`dialogue_trigger.dfy`): `ThirdPersonDialogueTrigger` as a class
  over `playerInRange` and a `destroyed` flag.

How engine behaviour appears in the model:

- **Engine objects:** a GameObject's visibility is a flag, a text widget is a
  string, and the portrait animator is the name of the state last played.
- **The typewriter coroutine:** `DisplayLine` is `StartDisplayLine` plus one
  `TypeStep` per resumption. `StartCoroutine` runs the coroutine up to its
  first wait. So after starting a line, its first letter is already shown or,
  for an empty line, the gate is already open. `DisplayLine` also exists as
  one method whose loop runs every step.
- **The delayed exit:** `ExitDialogueMode` is a counter of scheduled exits
  (`exitsScheduled`) plus a method for its body.
- **Exceptions:** an exception is a returned `Fault`. The state changes made
  before it stay, and nothing after it runs.

What the code does, which the contracts state:

- **Tags are applied one line late.** `ContinueStory` handles
  `currentStory.currentTags` before it calls `Continue()`, so these are the tags
  of the line already on screen. It does so only once a line has been shown
  (`displayLineCoroutine != null`). Each line's tags are therefore handled when
  the player continues past that line. The last line's tags are never handled,
  because continuing past it ends the story; so a one-line story has no tags
  handled at all.
- **A tag with more than one `':'`** is reported, and its first two parts are
  still used.
- **A tag with no `':'`** throws at `splitTag[1]`. The tags before it have taken
  effect, and the ones after it have not. The exception also stops
  `ContinueStory`, so the next line is not shown.
- **More choices than buttons:** `DisplayChoices` labels and activates every
  button and then throws at the first index past the last button. The hiding
  loop therefore does not run.
- **After a dialogue ends,** a player still in range is given the same story
  again from its first line on the next frame.

Both error reports go on past their log call. A tag without `':'` and too many
choices each call `Debug.LogError` (DialogueManager.cs:134 and 184), and the
code then indexes past the end of an array (lines 138 and 192) and throws.

## Model

| member | source | states |
|---|---|---|
| Text.TrimTrims | Assets/Script/DialogueManager.cs:137-138 | The trimmed string is no longer than the input, and neither its first nor its last character is white space. |
| Text.TrimIsInfix | Assets/Script/DialogueManager.cs:137-138 | The input is white space, then the trimmed string, then white space. |
| Text.TrimOfPadded | Assets/Script/DialogueManager.cs:137-138 | Trimming white space + m + white space gives m, whenever m has no white space at either end. This is the converse of TrimIsInfix. |
| Text.TrimKeeps | Assets/Script/DialogueManager.cs:137-138 | Every character of the trimmed string occurs in the input. |
| Text.TrimIdempotent | Assets/Script/DialogueManager.cs:137-138 | Trimming twice is the same as trimming once. |
| Text.Trim | Assets/Script/DialogueManager.cs:137-138 | String.Trim: characterised by TrimTrims and TrimIsInfix (what it removes is white space and what remains has none at either end), by TrimOfPadded (the converse), TrimKeeps and TrimIdempotent. |
| Text.Count | Assets/Script/DialogueManager.cs:130-131 | The number of separators is zero exactly when the separator does not occur, and is at most the length. |
| Text.Split | Assets/Script/DialogueManager.cs:130 | There is always at least one piece: the empty string splits into one empty piece. |
| Text.SplitPieces | Assets/Script/DialogueManager.cs:130 | There is one more piece than there are separators, and no piece contains the separator. |
| Text.Join | Assets/Script/DialogueManager.cs:130 | Joins pieces with the separator; JoinSplit and SplitJoin show it is the inverse of Split. |
| Text.JoinSplit | Assets/Script/DialogueManager.cs:130 | Joining the pieces of a split with the separator gives back the original string. |
| Text.SplitPrefix | Assets/Script/DialogueManager.cs:130 | A separator-free prefix joins the first piece, and the other pieces are those of the rest. |
| Text.SplitJoin | Assets/Script/DialogueManager.cs:130 | Splitting the join of separator-free pieces gives back exactly those pieces. |
| Tags.ParseTag | Assets/Script/DialogueManager.cs:130-138 | One tag as HandleTags parses it; ParseTagShape and ParseTagOfPieces characterise its outcome. |
| Tags.ParseTagShape | Assets/Script/DialogueManager.cs:130-138 | A tag has no value exactly when it has no ':'. It is well formed exactly when it has one ':'. Key and value are free of ':' and trimmed. |
| Tags.ParseTagOfPieces | Assets/Script/DialogueManager.cs:130-138 | "key:value" parses to the trimmed key and value, flagged well formed. "key:value:more..." gives the same key and value, flagged malformed. |
| Tags.ApplyTag | Assets/Script/DialogueManager.cs:140-153 | The switch on a tag key; SpeakerTagSetsName, PortraitTagSetsPortrait and OtherKeysChangeNothing state its three cases. |
| Tags.ApplyTags | Assets/Script/DialogueManager.cs:128-154 | The tag loop as a fold; ApplyTagsFault, ApplyTagsStopsAtFault, ApplyTagsAppend, LastTagWins and UnmentionedKeyUnchanged characterise it. |
| Tags.FirstWithoutColon | Assets/Script/DialogueManager.cs:128-138 | It returns the index of the first tag without ':', or the number of tags when every tag has one. |
| Tags.ApplyTagsFault | Assets/Script/DialogueManager.cs:128-138 | The tag loop faults exactly on the first tag without ':', and does not fault when every tag has one. |
| Tags.ApplyTagsStopsAtFault | Assets/Script/DialogueManager.cs:128-154 | On a fault, the name and portrait are those left by the tags before the faulty one. |
| Tags.ApplyTagsAppend | Assets/Script/DialogueManager.cs:128-154 | Handling a + b is handling a and then b, as long as a does not fault. |
| Tags.ApplyTagsSnoc | Assets/Script/DialogueManager.cs:128-153 | After tags that did not fault, one more tag with ':' applies its key/value switch, and there is no fault. |
| Tags.ApplyTagsFaultAt | Assets/Script/DialogueManager.cs:128-138 | After tags that did not fault, a tag without ':' faults on that tag, whatever follows, and keeps the earlier effect. |
| Tags.LastTagWins | Assets/Script/DialogueManager.cs:128-154 | The last speaker (or portrait) tag decides the displayed name (or portrait), provided no earlier tag faults; later tags with other keys, or even a faulty later tag, do not change it. |
| Tags.UnmentionedKeyUnchanged | Assets/Script/DialogueManager.cs:140-153 | If no tag carries a key, what that key controls is unchanged, even when a tag faults. |
| Tags.OtherKeysChangeNothing | Assets/Script/DialogueManager.cs:149-151 | Tags whose keys are neither speaker nor portrait leave both the name and the portrait unchanged. |
| Tags.SpeakerTagSetsName | Assets/Script/DialogueManager.cs:143-145 | A speaker tag sets the display name to its trimmed value and leaves the portrait unchanged. |
| Tags.PortraitTagSetsPortrait | Assets/Script/DialogueManager.cs:146-148 | A portrait tag plays its trimmed value and leaves the display name unchanged. |
| InkStory.Load | Assets/Script/DialogueManager.cs:85 | A new story holds the given lines, has not been continued, makes no call of ChooseChoiceIndex, has no current tags or choices, and can continue exactly when it has a line. |
| InkStory.Story.CanContinue | Assets/Script/DialogueManager.cs:102 | Story.canContinue: true while lines remain; ContinueInOrder states it after k continues. |
| InkStory.Story.CurrentTags | Assets/Script/DialogueManager.cs:110 | Story.currentTags: the tags of the last line returned; stated by Continue, Load and ContinueInOrder. |
| InkStory.Story.CurrentChoices | Assets/Script/DialogueManager.cs:180 | Story.currentChoices: the choices after the last line returned; stated by Continue, Load and ContinueInOrder. |
| InkStory.Story.ChooseChoiceIndex | Assets/Script/DialogueManager.cs:222-226 | The call is recorded once more, and the current line's tags and choices and canContinue stay as they were. |
| InkStory.ContinueTimes | Assets/Script/DialogueManager.cs:102-113 | k allowed calls of Continue() move the story exactly k lines on and change nothing else. |
| InkStory.ContinueInOrder | Assets/Script/DialogueManager.cs:85-113 | A loaded story hands out its lines in order: the k-th Continue() returns line k - 1, whose tags and choices are then current, and the story can continue exactly while lines remain. |
| InkStory.Story.Continue | Assets/Script/DialogueManager.cs:113 | It returns the next line's text, advances the story by one line, and makes that line's tags and choices current. |
| ChoiceSlots.ShowChoices | Assets/Script/DialogueManager.cs:188-201 | Slot i below the number of choices is active and labelled with choice i. Every later slot is inactive and keeps its label. The number of slots is unchanged. |
| ChoiceSlots.ShowChoicesDetermined | Assets/Script/DialogueManager.cs:188-201 | Any slots meeting that pointwise description are exactly ShowChoices' result. |
| ChoiceSlots.ShowChoicesIdempotent | Assets/Script/DialogueManager.cs:188-201 | Showing the same choices twice leaves the slots as showing them once. |
| Dialogue.DialogueManager.constructor | Assets/Script/DialogueManager.cs:12-38 | The serialized UI state is loaded, every other field is at its C# default, and no labels are collected yet. |
| Dialogue.DialogueManager.Start | Assets/Script/DialogueManager.cs:54-68 | Afterwards dialogue is not playing and the panel is hidden. A fresh label array has one entry per choice button, equal to that button's label, and nothing else changes. |
| Dialogue.DialogueManager.Update | Assets/Script/DialogueManager.cs:70-81 | The story continues exactly when dialogue is playing, the line is fully shown and the key was pressed, with ContinueStory's effect. Otherwise nothing changes. |
| Dialogue.DialogueManager.EnterDialogueMode | Assets/Script/DialogueManager.cs:83-89 | DialogueEntered: dialogue is playing, the panel is shown, a new story holds the given lines, and the name and portrait are unchanged. An empty story only schedules the exit and leaves the typewriter and the buttons as they were. Otherwise the first line starts typing and its choices fill the buttons; there is a fault exactly when they are too many. |
| Dialogue.DialogueManager.ExitDialogueMode | Assets/Script/DialogueManager.cs:94-96 | Dialogue is not playing, the panel is hidden and the text is empty. |
| Dialogue.DialogueManager.ContinueStory | Assets/Script/DialogueManager.cs:100-124 | At the end of the story, one more exit is scheduled and nothing else changes. Otherwise, once a line has been shown, the typewriter stops and the current tags are handled. A faulty tag ends it there. Without a fault, the next line starts typing and its choices are shown. |
| Dialogue.DialogueManager.ContinueAfterShownLine | Assets/Script/DialogueManager.cs:105-114 | ContinueStory's effect when the story can continue and a line has been shown. |
| Dialogue.DialogueManager.ShowNextLine | Assets/Script/DialogueManager.cs:113-114 | The story advances one line, typing of that line begins, and the buttons show its choices; a fault exactly when they are too many. |
| Dialogue.DialogueManager.HandleTags | Assets/Script/DialogueManager.cs:126-156 | The loop over the tags reaches ApplyTags' name and portrait, and faults on the tag ApplyTags faults on. |
| Dialogue.DialogueManager.PlayTag | Assets/Script/DialogueManager.cs:140-153 | The switch on a parsed key has ApplyTag's effect. |
| Dialogue.DialogueManager.StartDisplayLine | Assets/Script/DialogueManager.cs:158-170 | The text is cleared, the gate closes, and the coroutine runs to its first wait. One letter is then shown, or for an empty line the gate is open again. |
| Dialogue.DialogueManager.TypeStep | Assets/Script/DialogueManager.cs:166-173 | One resumption appends the next letter with the gate unchanged; after the last letter it opens the gate and ends. |
| Dialogue.DialogueManager.DisplayLine | Assets/Script/DialogueManager.cs:158-174 | While typing, the text is the first k letters of the line and the gate is closed. At the end the text is the whole line and the gate is open. |
| Dialogue.DialogueManager.DisplayChoices | Assets/Script/DialogueManager.cs:177-202 | The buttons end as ShowChoices of the current choices. There is a TooManyChoices fault exactly when there are more choices than buttons. |
| Dialogue.DialogueManager.MakeChoice | Assets/Script/DialogueManager.cs:217-227 | The index is passed to the story twice when the line is fully shown and once otherwise. Without a story the call faults. |
| Trigger.ThirdPersonDialogueTrigger.constructor | Assets/Script/ThirdPersonDialogueTrigger.cs:11-14 | A trigger holds its story, out of range and not destroyed. |
| Trigger.ThirdPersonDialogueTrigger.Update | Assets/Script/ThirdPersonDialogueTrigger.cs:17-28 | It enters dialogue mode with its story exactly when the player is in range and no dialogue is playing, with EnterDialogueMode's whole effect (DialogueEntered) and its fault. Otherwise nothing changes, and playerInRange is never changed. |
| Trigger.ThirdPersonDialogueTrigger.OnTriggerEnter2D | Assets/Script/ThirdPersonDialogueTrigger.cs:30-36 | A Player collider puts the trigger in range; any other collider changes nothing. |
| Trigger.ThirdPersonDialogueTrigger.OnTriggerExit2D | Assets/Script/ThirdPersonDialogueTrigger.cs:38-46 | A Player collider takes the trigger out of range and destroys it; any other collider changes nothing. |
| Trigger.TwoFramesInRange | Assets/Script/ThirdPersonDialogueTrigger.cs:19-22 | Of two consecutive frames in range, the second never enters dialogue again, because entering sets DialogueIsPlaying. |
| Trigger.ExitWhileInRange | Assets/Script/ThirdPersonDialogueTrigger.cs:19-22 | After the exit body has run, a player still in range restarts the same story from its first line. |

## Left out

- The Ink runtime is a foreign library. It is modelled as a sequence of lines with tags and choice texts. Branching, knots and story-JSON parsing are left out, and the effect of `ChooseChoiceIndex` is only recorded.
- Coroutine timing is not modelled. `WaitForSeconds(typingSpeed)`, the one-second exit delay and `WaitForEndOfFrame` become discrete steps (one `TypeStep` per resumption, and a counter of scheduled exits).
- Interleaving of the engine's frames with a running coroutine is not modelled. For example, a key press between two letters does nothing, because the gate is closed. Each method states one call.
- `SelectFirstChoice` is not modelled. It is EventSystem selection, and its `choices[0]` access faults when the scene has no choice buttons.
- `SetActive`, TextMeshPro, `Animator.Play` of an unknown state, and `Destroy` are engine objects. They appear only as flags and strings. `Destroy` is taken as immediate, and the engine calls no callback on a destroyed trigger.
- `Awake` and `GetInstance` are singleton plumbing. The trigger's `Update` is given the manager as a parameter.
- `Debug.Log`, `LogWarning` and `LogError` are logging only. The parser's `wellFormed` flag stands for the "could not be appropriately parsed" report.
- `Keyboard.current.iKey.wasPressedThisFrame` is input. It is a boolean parameter of `Update`.
- `GetComponentInChildren` returning null is not modelled. A missing label component would fault on the first write.
- UTF-16 is not modelled. Strings are sequences of Unicode characters, and a surrogate pair counts as one letter for the typewriter.
- Nothing of `ContinueStory` is left out, but its two branches are separate methods (`ContinueAfterShownLine` and `ShowNextLine`). They hold exactly the statements of the two C# branches, and the split keeps each proof small.
