/**
 * The Ink story as DialogueManager sees it. The Ink runtime is a foreign
 * library; here a story is the sequence of lines Continue() hands out, each
 * with the tags and the choice texts that come with it, together with how far
 * the story has been continued and the record of ChooseChoiceIndex calls.
 */
module InkStory {

  /** One line of dialogue: its text, its tags and the texts of the choices offered after it. */
  datatype Line = Line(text: string, tags: seq<string>, choices: seq<string>)

  datatype Story = Story(lines: seq<Line>, continued: nat, chosen: seq<int>)
  {
    /** Story.canContinue */
    predicate CanContinue()
    {
      continued < |lines|
    }

    /** Story.currentTags: the tags of the line returned by the last Continue(), none before the first. */
    function CurrentTags(): seq<string>
    {
      if 0 < continued <= |lines| then lines[continued - 1].tags else []
    }

    /** Story.currentChoices: the choices following the line returned by the last Continue(). */
    function CurrentChoices(): seq<string>
    {
      if 0 < continued <= |lines| then lines[continued - 1].choices else []
    }

    /** Story.Continue(): the next line's text, after which that line's tags and choices are current. */
    function Continue(): (r: (string, Story))
      requires CanContinue()
      ensures r.0 == lines[continued].text
      ensures r.1.lines == lines && r.1.chosen == chosen && r.1.continued == continued + 1
      ensures r.1.CurrentTags() == lines[continued].tags
      ensures r.1.CurrentChoices() == lines[continued].choices
    {
      (lines[continued].text, this.(continued := continued + 1))
    }

    /**
     * Story.ChooseChoiceIndex(i), recorded as a call; where the choice leads
     * is left to Ink, so the line on screen and its tags and choices stay current.
     */
    function ChooseChoiceIndex(i: int): (r: Story)
      ensures r.chosen == chosen + [i] && |r.chosen| == |chosen| + 1
      ensures r.CanContinue() == CanContinue()
      ensures r.CurrentTags() == CurrentTags() && r.CurrentChoices() == CurrentChoices()
    {
      this.(chosen := chosen + [i])
    }
  }

  /**
   * new Story(inkJSON.text): a story that has not been continued yet. It has
   * no current tags or choices, and it can continue exactly when it has a line.
   */
  function Load(lines: seq<Line>): (r: Story)
    ensures r.lines == lines && r.continued == 0 && r.chosen == []
    ensures r.CurrentTags() == [] && r.CurrentChoices() == []
    ensures r.CanContinue() <==> lines != []
  {
    Story(lines, 0, [])
  }

  /** The story after k calls of Continue(), each allowed by canContinue: it is k lines further on. */
  function ContinueTimes(s: Story, k: nat): (r: Story)
    requires s.continued + k <= |s.lines|
    ensures r.lines == s.lines && r.chosen == s.chosen && r.continued == s.continued + k
    decreases k
  {
    if k == 0 then s else ContinueTimes(s.Continue().1, k - 1)
  }

  /**
   * A loaded story hands out its lines in order: after k continues the last
   * text returned is line k - 1, its tags and choices are current, and the
   * story can continue exactly while lines remain.
   */
  lemma ContinueInOrder(lines: seq<Line>, k: nat)
    requires 0 < k <= |lines|
    ensures ContinueTimes(Load(lines), k).continued == k
    ensures ContinueTimes(Load(lines), k - 1).Continue().0 == lines[k - 1].text
    ensures ContinueTimes(Load(lines), k).CurrentTags() == lines[k - 1].tags
    ensures ContinueTimes(Load(lines), k).CurrentChoices() == lines[k - 1].choices
    ensures ContinueTimes(Load(lines), k).CanContinue() <==> k < |lines|
  {
  }
}
