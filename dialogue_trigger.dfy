/**
 * ThirdPersonDialogueTrigger: a trigger zone holding one Ink story. While the
 * player stands in it and no dialogue is playing, it starts its story in the
 * dialogue manager; the player leaving the zone destroys the trigger.
 *
 * The collider reaching a trigger callback is given by its tag, the
 * DialogueManager singleton is passed to Update, and Destroy is a flag:
 * Unity calls no callback of a destroyed object, so each one requires that
 * the flag is still clear.
 */
module Trigger {
  import opened Options
  import opened InkStory
  import opened Dialogue

  /** The tag of the player's GameObject. */
  const PlayerTag: string := "Player"

  class ThirdPersonDialogueTrigger {
    const inkJSON: seq<Line>  // the story asset set in the scene
    var playerInRange: bool
    var destroyed: bool       // Destroy(gameObject) has been called

    constructor (story: seq<Line>)
      ensures inkJSON == story && !playerInRange && !destroyed
    {
      inkJSON := story;
      playerInRange, destroyed := false, false;
    }

    /**
     * Update, once per frame: enter dialogue mode with this trigger's story
     * when the player is in range and no dialogue is playing; otherwise
     * change nothing.
     */
    method Update(manager: DialogueManager) returns (entered: bool, fault: Option<Fault>)
      requires !destroyed && manager.Valid()
      modifies manager, manager.choices, manager.choicesText
      ensures manager.Valid()
      ensures playerInRange == old(playerInRange) && destroyed == old(destroyed)
      ensures entered <==> old(playerInRange) && !old(manager.DialogueIsPlaying)
      ensures entered ==> manager.DialogueEntered(inkJSON, fault)
      ensures !entered ==>
                && fault == None
                && unchanged(manager) && unchanged(manager.choices) && unchanged(manager.choicesText)
    {
      entered, fault := false, None;
      if playerInRange && !manager.DialogueIsPlaying {
        entered := true;
        fault := manager.EnterDialogueMode(inkJSON);
      }
    }

    /** OnTriggerEnter2D: the player entering the zone puts it in range; other colliders change nothing. */
    method OnTriggerEnter2D(colliderTag: string)
      requires !destroyed
      modifies this`playerInRange
      ensures playerInRange == (old(playerInRange) || colliderTag == PlayerTag)
    {
      if colliderTag == PlayerTag {
        playerInRange := true;
      }
    }

    /** OnTriggerExit2D: the player leaving the zone takes it out of range and destroys the trigger. */
    method OnTriggerExit2D(colliderTag: string)
      requires !destroyed
      modifies this`playerInRange, this`destroyed
      ensures colliderTag == PlayerTag ==> !playerInRange && destroyed
      ensures colliderTag != PlayerTag ==> playerInRange == old(playerInRange) && destroyed == old(destroyed)
    {
      if colliderTag == PlayerTag {
        playerInRange := false;
        destroyed := true;
      }
    }
  }

  /**
   * Two frames in a row with the player in range: the first frame may start
   * the story, and the second never restarts it, because entering dialogue
   * mode sets DialogueIsPlaying.
   */
  method TwoFramesInRange(trigger: ThirdPersonDialogueTrigger, manager: DialogueManager)
      returns (first: bool, second: bool)
    requires !trigger.destroyed && manager.Valid()
    modifies manager, manager.choices, manager.choicesText
    ensures first <==> old(trigger.playerInRange) && !old(manager.DialogueIsPlaying)
    ensures !second
  {
    var fault;
    first, fault := trigger.Update(manager);
    second, fault := trigger.Update(manager);
  }

  /**
   * Once the dialogue has ended (the delayed ExitDialogueMode has run), a
   * player still in range gets the same story again from its first line on
   * the next frame.
   */
  method ExitWhileInRange(trigger: ThirdPersonDialogueTrigger, manager: DialogueManager)
      returns (entered: bool)
    requires !trigger.destroyed && manager.Valid() && trigger.playerInRange
    modifies manager, manager.choices, manager.choicesText
    ensures entered
    ensures manager.currentStory.Some? && manager.currentStory.value.lines == trigger.inkJSON
    ensures manager.currentStory.value.continued <= 1 && manager.currentStory.value.chosen == []
  {
    manager.ExitDialogueMode();
    var fault;
    entered, fault := trigger.Update(manager);
  }
}
