/**
 * DialogueManager: plays an Ink story in the dialogue panel. It types each
 * line out one letter per step, applies the line tags to the speaker name and
 * portrait, fills the choice buttons, and advances when the player presses
 * the continue key once the line is fully shown.
 *
 * Engine objects are plain state here: a GameObject's visibility is a flag,
 * a text widget is a string, the portrait animator is the name of the state
 * last played, and the choice buttons are two arrays of the same length
 * (active flags and label texts). Coroutines are explicit state that the
 * engine advances one step at a time (TypeStep for DisplayLine), and the
 * delayed ExitDialogueMode is a counter of scheduled exits plus its body.
 * An exception thrown by the C# code is a returned Fault; the state changes
 * made before it stay.
 */
module Dialogue {
  import opened Options
  import opened Tags
  import opened InkStory
  import opened ChoiceSlots

  /** The exceptions the C# code can throw. */
  datatype Fault =
    | TagWithoutValue(tag: string)            // splitTag[1] on a tag with no ':'
    | TooManyChoices(given: nat, slots: nat)  // choices[index] past the last slot
    | NoStory                                 // currentStory is still null

  /** The dialogue text, the continue gate and the state of the DisplayLine coroutine, taken together. */
  datatype TypewriterState = TypewriterState(
    text: string, gateOpen: bool, started: bool, typing: bool, line: string, typed: nat)

  class DialogueManager {
    // Dialogue UI
    var panelActive: bool       // dialoguePanel is active
    var dialogueText: string    // dialogueText.text
    var displayName: string     // displayNameText.text
    var portraitState: string   // the state last passed to portraitAnimator.Play
    // Choices UI
    const choices: array<bool>     // whether each choice button is active
    const sceneLabels: seq<string> // the label each choice button has in the scene
    var choicesText: array<string> // the label texts of the choice buttons; empty before Start

    var currentStory: Option<Story>
    var DialogueIsPlaying: bool
    var canContinueToNextLine: bool

    // The DisplayLine coroutine
    var lineCoroutineStarted: bool  // displayLineCoroutine != null
    var typing: bool                // the coroutine is running
    var typingLine: string          // the line it types
    var typedCount: nat             // how many letters of it are shown

    var exitsScheduled: nat         // ExitDialogueMode coroutines started

    /** What holds from scene load on. */
    ghost predicate Wired()
      reads this
    {
      && |sceneLabels| == choices.Length
      && typedCount <= |typingLine|
      && (typing ==> !canContinueToNextLine)
      && (DialogueIsPlaying ==> currentStory.Some?)
    }

    /** What holds once Start has run: one label per choice button. */
    ghost predicate Valid()
      reads this
    {
      Wired() && choicesText.Length == choices.Length
    }

    /** The speaker name and portrait, as the tag interpreter sees them. */
    function Shown(): Presentation
      reads this
    {
      Presentation(displayName, portraitState)
    }

    /**
     * Scene load: the serialized UI state, with every non-serialized field at
     * its C# default (false, null).
     */
    constructor (panelShown: bool, text: string, name: string, portrait: string,
                 slotsActive: seq<bool>, slotLabels: seq<string>)
      requires |slotsActive| == |slotLabels|
      ensures Wired()
      ensures panelActive == panelShown && dialogueText == text && displayName == name && portraitState == portrait
      ensures fresh(choices) && fresh(choicesText)
      ensures choices[..] == slotsActive && sceneLabels == slotLabels && choicesText.Length == 0
      ensures currentStory == None && !DialogueIsPlaying && !canContinueToNextLine
      ensures !lineCoroutineStarted && !typing && exitsScheduled == 0
    {
      panelActive, dialogueText, displayName, portraitState := panelShown, text, name, portrait;
      choices := new bool[|slotsActive|](i requires 0 <= i < |slotsActive| => slotsActive[i]);
      sceneLabels := slotLabels;
      choicesText := new string[0];
      currentStory := None;
      DialogueIsPlaying, canContinueToNextLine := false, false;
      lineCoroutineStarted, typing, typingLine, typedCount := false, false, [], 0;
      exitsScheduled := 0;
    }

    /** Start: hide the panel and collect one label per choice button. */
    method Start()
      requires Wired()
      modifies this
      ensures Valid()
      ensures !DialogueIsPlaying && !panelActive
      ensures fresh(choicesText) && choicesText.Length == choices.Length && choicesText[..] == sceneLabels
      ensures dialogueText == old(dialogueText) && Shown() == old(Shown()) && currentStory == old(currentStory)
      ensures canContinueToNextLine == old(canContinueToNextLine) && exitsScheduled == old(exitsScheduled)
      ensures lineCoroutineStarted == old(lineCoroutineStarted) && typing == old(typing)
      ensures typingLine == old(typingLine) && typedCount == old(typedCount)
    {
      DialogueIsPlaying := false;
      panelActive := false;
      choicesText := new string[choices.Length];
      var index := 0;
      while index < choices.Length
        modifies choicesText
        invariant 0 <= index <= choices.Length == choicesText.Length
        invariant forall i :: 0 <= i < index ==> choicesText[i] == sceneLabels[i]
      {
        choicesText[index] := sceneLabels[index];
        index := index + 1;
      }
    }

    /** Update, once per frame: continue the story when playing, the line is done and the key was pressed. */
    method Update(iKeyPressed: bool) returns (continued: bool, fault: Option<Fault>)
      requires Valid()
      modifies this, choices, choicesText
      ensures Valid()
      ensures continued <==> old(DialogueIsPlaying) && old(canContinueToNextLine) && iKeyPressed
      ensures continued ==> StoryContinued(fault)
      ensures !continued ==> fault == None && unchanged(this) && unchanged(choices) && unchanged(choicesText)
    {
      continued, fault := false, None;
      if !DialogueIsPlaying {
        return;
      }
      if canContinueToNextLine && iKeyPressed {
        continued := true;
        fault := ContinueStory();
      }
    }

    /** EnterDialogueMode: load the story, show the panel and display its first line. */
    method EnterDialogueMode(inkJSON: seq<Line>) returns (fault: Option<Fault>)
      requires Valid()
      modifies this, choices, choicesText
      ensures Valid()
      ensures DialogueEntered(inkJSON, fault)
    {
      currentStory := Some(Load(inkJSON));
      DialogueIsPlaying := true;
      panelActive := true;
      fault := ContinueStory();
    }

    /**
     * The effect of EnterDialogueMode(inkJSON): dialogue is playing with the
     * panel shown and a new story holding inkJSON. An empty story only
     * schedules the exit; otherwise its first line starts typing and its
     * choices fill the buttons, with a fault exactly when they are too many.
     * The first line's tags are not handled, and the speaker name and
     * portrait stay as they were.
     */
    twostate predicate DialogueEntered(inkJSON: seq<Line>, new fault: Option<Fault>)
      reads this, choices, choicesText
    {
      && DialogueIsPlaying && panelActive
      && currentStory.Some? && currentStory.value.lines == inkJSON && currentStory.value.chosen == []
      && choicesText == old(choicesText)
      && Shown() == old(Shown())
      && (inkJSON == [] ==>
            && currentStory.value.continued == 0 && exitsScheduled == old(exitsScheduled) + 1 && fault == None
            && Typewriter() == old(Typewriter()) && ChoiceButtons() == old(ChoiceButtons()))
      && (inkJSON != [] ==>
            && currentStory.value.continued == 1 && exitsScheduled == old(exitsScheduled)
            && lineCoroutineStarted && TypingBegun(inkJSON[0].text)
            && |old(choicesText[..])| == choices.Length
            && ChoiceButtons() == ShowChoices(inkJSON[0].choices, old(ChoiceButtons()))
            && fault == (if |inkJSON[0].choices| > choices.Length
                         then Some(TooManyChoices(|inkJSON[0].choices|, choices.Length)) else None))
    }

    /** The body of ExitDialogueMode, run by the engine one second after ContinueStory scheduled it. */
    method ExitDialogueMode()
      requires Valid()
      modifies this`DialogueIsPlaying, this`panelActive, this`dialogueText
      ensures Valid()
      ensures !DialogueIsPlaying && !panelActive && dialogueText == ""
    {
      DialogueIsPlaying := false;
      panelActive := false;
      dialogueText := "";
    }

    /** The typewriter and its gate: the dialogue text and the DisplayLine coroutine. */
    function Typewriter(): TypewriterState
      reads this
    {
      TypewriterState(dialogueText, canContinueToNextLine, lineCoroutineStarted, typing, typingLine, typedCount)
    }

    /** The choice buttons, as slots. */
    function ChoiceButtons(): Slots
      reads this, choices, choicesText
    {
      Slots(choices[..], choicesText[..])
    }

    /**
     * The effect of ContinueStory between the old state and this one. When the
     * story is finished, one more exit is scheduled and nothing else changes.
     * Otherwise, if a line was shown before, the running typewriter stops and
     * the current tags are handled first; note that these are the tags of the
     * line already shown, as Continue() has not been called yet. Then, unless
     * a tag faulted, the next line starts typing and its choices are shown.
     */
    twostate predicate StoryContinued(new fault: Option<Fault>)
      reads this, choices, choicesText
    {
      && old(currentStory).Some?
      && DialogueIsPlaying == old(DialogueIsPlaying) && panelActive == old(panelActive)
      && choicesText == old(choicesText)
      && if !old(currentStory).value.CanContinue() then StoryFinished(fault)
         else if old(lineCoroutineStarted) && ApplyTags(old(currentStory).value.CurrentTags(), old(Shown())).faultTag.Some?
         then TagFaulted(fault)
         else
           && Shown() == (if old(lineCoroutineStarted)
                          then ApplyTags(old(currentStory).value.CurrentTags(), old(Shown())).presentation
                          else old(Shown()))
           && NextLineShown(fault)
    }

    /** ContinueStory at the end of the story: one more exit is scheduled. */
    twostate predicate StoryFinished(new fault: Option<Fault>)
      reads this, choices, choicesText
    {
      && exitsScheduled == old(exitsScheduled) + 1 && fault == None
      && currentStory == old(currentStory) && Shown() == old(Shown())
      && Typewriter() == old(Typewriter()) && ChoiceButtons() == old(ChoiceButtons())
    }

    /** ContinueStory stopped by a tag without ':': the typewriter is stopped and the story does not move. */
    twostate predicate TagFaulted(new fault: Option<Fault>)
      reads this, choices, choicesText
      requires old(currentStory).Some?
    {
      var handled := ApplyTags(old(currentStory).value.CurrentTags(), old(Shown()));
      && handled.faultTag.Some?
      && fault == Some(TagWithoutValue(handled.faultTag.value))
      && Shown() == handled.presentation
      && exitsScheduled == old(exitsScheduled) && currentStory == old(currentStory)
      && Typewriter() == old(Typewriter()).(typing := false)
      && ChoiceButtons() == old(ChoiceButtons())
    }

    /** ContinueStory showing the next line: typing begun, and its choices shown. */
    twostate predicate NextLineShown(new fault: Option<Fault>)
      reads this, choices, choicesText
      requires old(currentStory).Some? && old(currentStory).value.CanContinue()
    {
      var story := old(currentStory).value;
      var next := story.Continue().1;
      var offered := next.CurrentChoices();
      && exitsScheduled == old(exitsScheduled)
      && currentStory == Some(next)
      && lineCoroutineStarted && TypingBegun(story.Continue().0)
      && |old(choicesText[..])| == choices.Length
      && ChoiceButtons() == ShowChoices(offered, old(ChoiceButtons()))
      && fault == (if |offered| > choices.Length then Some(TooManyChoices(|offered|, choices.Length)) else None)
    }

    /** ContinueStory: show the next line of the story, or schedule the exit when there is none. */
    method ContinueStory() returns (fault: Option<Fault>)
      requires Valid() && currentStory.Some?
      modifies this, choices, choicesText
      ensures Valid()
      ensures StoryContinued(fault)
    {
      if !currentStory.value.CanContinue() {
        exitsScheduled := exitsScheduled + 1;  // StartCoroutine(ExitDialogueMode())
        fault := None;
      } else if lineCoroutineStarted {
        fault := ContinueAfterShownLine();
      } else {
        fault := ShowNextLine();
      }
    }

    /**
     * ContinueStory once a line has been shown: stop its typewriter and handle
     * the current tags, then show the next line unless a tag threw.
     */
    method ContinueAfterShownLine() returns (fault: Option<Fault>)
      requires Valid() && currentStory.Some? && currentStory.value.CanContinue() && lineCoroutineStarted
      modifies this, choices, choicesText
      ensures Valid()
      ensures DialogueIsPlaying == old(DialogueIsPlaying) && panelActive == old(panelActive)
      ensures choicesText == old(choicesText)
      ensures old(ApplyTags(currentStory.value.CurrentTags(), Shown())).faultTag.Some? ==> TagFaulted(fault)
      ensures old(ApplyTags(currentStory.value.CurrentTags(), Shown())).faultTag.None? ==>
                && Shown() == old(ApplyTags(currentStory.value.CurrentTags(), Shown())).presentation
                && NextLineShown(fault)
    {
      ghost var handled := ApplyTags(currentStory.value.CurrentTags(), Shown());
      typing := false;  // StopCoroutine(displayLineCoroutine)
      fault := HandleTags(currentStory.value.CurrentTags());
      assert Shown() == handled.presentation;
      if fault.None? {
        assert handled.faultTag.None?;
        assert ChoiceButtons() == old(ChoiceButtons()) && choicesText[..] == old(choicesText[..]);
        assert currentStory == old(currentStory) && exitsScheduled == old(exitsScheduled);
        fault := ShowNextLine();
      } else {
        assert TagFaulted(fault);
      }
    }

    /** The last two statements of ContinueStory: start typing the next line, then show its choices. */
    method ShowNextLine() returns (fault: Option<Fault>)
      requires Valid() && currentStory.Some? && currentStory.value.CanContinue()
      modifies this`currentStory, this`lineCoroutineStarted, this`dialogueText, this`canContinueToNextLine,
               this`typing, this`typingLine, this`typedCount, choices, choicesText
      ensures Valid()
      ensures NextLineShown(fault)
    {
      var (line, next) := currentStory.value.Continue();
      currentStory := Some(next);
      lineCoroutineStarted := true;
      StartDisplayLine(line);
      fault := DisplayChoices();
    }

    /**
     * HandleTags: apply the tags left to right. A speaker tag sets the display
     * name, a portrait tag plays the portrait state, other keys change nothing;
     * the first tag without ':' throws, leaving the later tags unhandled.
     */
    method HandleTags(currentTags: seq<string>) returns (fault: Option<Fault>)
      modifies this`displayName, this`portraitState
      ensures var handled := ApplyTags(currentTags, old(Shown()));
              && Shown() == handled.presentation
              && fault == (if handled.faultTag.Some? then Some(TagWithoutValue(handled.faultTag.value)) else None)
    {
      ghost var start := Shown();
      var index := 0;
      while index < |currentTags|
        invariant 0 <= index <= |currentTags|
        invariant ApplyTags(currentTags[..index], start) == TagsOutcome(Shown(), None)
      {
        var tag := currentTags[index];
        ghost var done := currentTags[..index];
        match ParseTag(tag)
        case MissingValue =>
          ApplyTagsFaultAt(done, tag, currentTags[index + 1..], start);
          Around(currentTags, index);
          return Some(TagWithoutValue(tag));
        case Parsed(t) =>
          ApplyTagsSnoc(done, tag, start);
          PrefixGrows(currentTags, index);
          PlayTag(t);
          index := index + 1;
      }
      assert currentTags[..index] == currentTags;
      fault := None;
    }

    /** The switch on the key of one parsed tag. */
    method PlayTag(t: ParsedTag)
      modifies this`displayName, this`portraitState
      ensures Shown() == ApplyTag(old(Shown()), t)
    {
      if t.key == SpeakerTag {
        displayName := t.value;
      } else if t.key == PortraitTag {
        portraitState := t.value;  // portraitAnimator.Play(tagValue)
      }
    }

    /** The typewriter has just been started on line and has run up to its first wait (or to its end). */
    ghost predicate TypingBegun(line: string)
      reads this
    {
      && typingLine == line
      && if line == [] then
           && !typing && typedCount == 0 && dialogueText == [] && canContinueToNextLine
         else
           && typing && typedCount == 1 && dialogueText == line[..1] && !canContinueToNextLine
    }

    /**
     * StartCoroutine(DisplayLine(line)): clear the text, close the gate and
     * run the coroutine up to its first wait.
     */
    method StartDisplayLine(line: string)
      requires Valid()
      modifies this`dialogueText, this`canContinueToNextLine, this`typing, this`typingLine, this`typedCount
      ensures Valid() && TypingBegun(line)
    {
      dialogueText := "";
      canContinueToNextLine := false;
      typingLine, typedCount, typing := line, 0, true;
      TypeStep();
    }

    /**
     * One resumption of the DisplayLine coroutine: show the next letter, or,
     * once every letter is shown, open the gate and finish.
     */
    method TypeStep()
      requires Valid() && typing
      modifies this`dialogueText, this`canContinueToNextLine, this`typing, this`typedCount
      ensures Valid()
      ensures old(typedCount) < |typingLine| ==>
                && typing && typedCount == old(typedCount) + 1
                && dialogueText == old(dialogueText) + [typingLine[old(typedCount)]]
                && canContinueToNextLine == old(canContinueToNextLine)
      ensures old(typedCount) == |typingLine| ==>
                && !typing && typedCount == old(typedCount)
                && dialogueText == old(dialogueText) && canContinueToNextLine
    {
      if typedCount < |typingLine| {
        dialogueText := dialogueText + [typingLine[typedCount]];
        typedCount := typedCount + 1;
      } else {
        canContinueToNextLine := true;
        typing := false;
      }
    }

    /**
     * DisplayLine run to its end, one loop iteration per step: after k
     * letters the text shows the first k letters of the line and the gate is
     * closed; at the end the text is the whole line and the gate is open.
     */
    method DisplayLine(line: string)
      requires Valid()
      modifies this`dialogueText, this`canContinueToNextLine, this`typing, this`typingLine, this`typedCount
      ensures Valid()
      ensures dialogueText == line && canContinueToNextLine && !typing
    {
      dialogueText := "";
      canContinueToNextLine := false;
      typingLine, typedCount, typing := line, 0, true;
      while typing
        invariant Valid() && typingLine == line
        invariant typing ==> dialogueText == line[..typedCount] && !canContinueToNextLine
        invariant !typing ==> dialogueText == line && canContinueToNextLine
        decreases typing, |line| - typedCount
      {
        TypeStep();
        assert typing ==> line[..typedCount] == line[..typedCount - 1] + [line[typedCount - 1]];
      }
    }

    /**
     * DisplayChoices: activate and label one button per current choice and
     * deactivate the others. With more choices than buttons, the C# code logs
     * an error and then throws at the first index past the last button.
     */
    method DisplayChoices() returns (fault: Option<Fault>)
      requires Valid() && currentStory.Some?
      modifies choices, choicesText
      ensures var offered := currentStory.value.CurrentChoices();
              && Slots(choices[..], choicesText[..]) == ShowChoices(offered, Slots(old(choices[..]), old(choicesText[..])))
              && fault == (if |offered| > choices.Length then Some(TooManyChoices(|offered|, choices.Length)) else None)
    {
      var currentChoices := currentStory.value.CurrentChoices();
      ghost var before := Slots(choices[..], choicesText[..]);
      var index := 0;
      while index < |currentChoices|
        invariant 0 <= index <= |currentChoices| && index <= choices.Length
        invariant forall i :: 0 <= i < index ==> choices[i] && choicesText[i] == currentChoices[i]
        invariant forall i :: index <= i < choices.Length ==> choices[i] == before.active[i] && choicesText[i] == before.labels[i]
      {
        if index == choices.Length {
          ShowChoicesDetermined(currentChoices, before, Slots(choices[..], choicesText[..]));
          return Some(TooManyChoices(|currentChoices|, choices.Length));
        }
        choices[index] := true;
        choicesText[index] := currentChoices[index];
        index := index + 1;
      }
      var i := index;
      while i < choices.Length
        invariant index <= i <= choices.Length
        invariant forall j :: 0 <= j < index ==> choices[j] && choicesText[j] == currentChoices[j]
        invariant forall j :: index <= j < i ==> !choices[j] && choicesText[j] == before.labels[j]
        invariant forall j :: i <= j < choices.Length ==> choices[j] == before.active[j] && choicesText[j] == before.labels[j]
      {
        choices[i] := false;
        i := i + 1;
      }
      ShowChoicesDetermined(currentChoices, before, Slots(choices[..], choicesText[..]));
      fault := None;
    }

    /**
     * MakeChoice, wired to the choice buttons: passes the index to Ink, twice
     * when the current line is fully shown.
     */
    method MakeChoice(choiceIndex: int) returns (fault: Option<Fault>)
      modifies this`currentStory
      ensures old(currentStory).None? ==> fault == Some(NoStory) && currentStory == old(currentStory)
      ensures old(currentStory).Some? ==>
                && fault == None
                && currentStory == Some(old(currentStory).value.(chosen := old(currentStory).value.chosen
                                          + (if canContinueToNextLine then [choiceIndex, choiceIndex] else [choiceIndex])))
    {
      if currentStory.None? {
        return Some(NoStory);
      }
      ghost var story := currentStory.value;
      if canContinueToNextLine {
        currentStory := Some(currentStory.value.ChooseChoiceIndex(choiceIndex));
      }
      currentStory := Some(currentStory.value.ChooseChoiceIndex(choiceIndex));
      assert story.chosen + [choiceIndex] + [choiceIndex] == story.chosen + [choiceIndex, choiceIndex];
      fault := None;
    }
  }
}
