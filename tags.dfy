/**
 * Ink line tags as DialogueManager.HandleTags reads them: each tag is a
 * "key:value" string; a "speaker" tag sets the name shown above the dialogue
 * box, a "portrait" tag names the animator state of the speaker's portrait,
 * and any other key is ignored.
 */
module Tags {
  import opened Options
  import opened Text

  const SpeakerTag: string := "speaker"
  const PortraitTag: string := "portrait"

  /** A tag split on ':' with both parts trimmed; wellFormed is false when the C# code logs "could not be appropriately parsed". */
  datatype ParsedTag = ParsedTag(key: string, value: string, wellFormed: bool)

  /** MissingValue: the tag has no ':', so reading the second part of the split is out of range. */
  datatype ParseOutcome = Parsed(tag: ParsedTag) | MissingValue

  /** What the tags control on screen: the speaker's display name and the portrait animator state. */
  datatype Presentation = Presentation(displayName: string, portrait: string)

  /** The state HandleTags reaches, and the tag it faulted on, if any. */
  datatype TagsOutcome = TagsOutcome(presentation: Presentation, faultTag: Option<string>)

  /**
   * One tag split on ':'. The key is the trimmed part before the first ':',
   * the value the trimmed part between the first and the second ':'; anything
   * after a second ':' is dropped.
   */
  function ParseTag(tag: string): ParseOutcome
  {
    var parts := Split(tag, ':');
    if |parts| < 2 then MissingValue
    else Parsed(ParsedTag(Trim(parts[0]), Trim(parts[1]), |parts| == 2))
  }

  /**
   * A tag has a value exactly when it has a ':', and is well formed exactly
   * when it has one; key and value are trimmed and free of ':'.
   */
  lemma ParseTagShape(tag: string)
    ensures ParseTag(tag).MissingValue? <==> ':' !in tag
    ensures ParseTag(tag).Parsed? ==> (ParseTag(tag).tag.wellFormed <==> Count(tag, ':') == 1)
    ensures ParseTag(tag).Parsed? ==> ':' !in ParseTag(tag).tag.key && ':' !in ParseTag(tag).tag.value
    ensures ParseTag(tag).Parsed? ==> Trimmed(ParseTag(tag).tag.key) && Trimmed(ParseTag(tag).tag.value)
  {
    var parts := Split(tag, ':');
    SplitPieces(tag, ':');
    if |parts| >= 2 {
      assert ':' !in parts[0] && ':' !in parts[1];
      TrimKeeps(parts[0], ':');
      TrimKeeps(parts[1], ':');
      TrimTrims(parts[0]);
      TrimTrims(parts[1]);
    }
  }

  /**
   * The parser reads back any "key:value" text, and a tag with more pieces
   * ("key:value:more") gives the same key and value, flagged as malformed.
   */
  lemma ParseTagOfPieces(key: string, value: string, more: seq<string>)
    requires ':' !in key && ':' !in value
    requires forall i :: 0 <= i < |more| ==> ':' !in more[i]
    ensures ParseTag(Join([key, value] + more, ':')) == Parsed(ParsedTag(Trim(key), Trim(value), more == []))
  {
    var parts := [key, value] + more;
    PiecesFreeOfColon(key, value, more);
    SplitJoin(parts, ':');
  }

  lemma PiecesFreeOfColon(key: string, value: string, more: seq<string>)
    requires ':' !in key && ':' !in value
    requires forall i :: 0 <= i < |more| ==> ':' !in more[i]
    ensures forall i :: 0 <= i < |[key, value] + more| ==> ':' !in ([key, value] + more)[i]
  {
    var parts := [key, value] + more;
    forall i | 0 <= i < |parts| ensures ':' !in parts[i] {
      if i >= 2 { assert parts[i] == more[i - 2]; }
    }
  }

  /** The effect of one parsed tag (the switch on the key). */
  function ApplyTag(p: Presentation, t: ParsedTag): Presentation
  {
    if t.key == SpeakerTag then p.(displayName := t.value)
    else if t.key == PortraitTag then p.(portrait := t.value)
    else p
  }

  /**
   * HandleTags on a list of tags, left to right. A tag without ':' throws,
   * so the tags after it are not handled; the effect of the ones before it stays.
   */
  function ApplyTags(tags: seq<string>, p: Presentation): TagsOutcome
  {
    if tags == [] then TagsOutcome(p, None)
    else
      match ParseTag(tags[0])
      case MissingValue => TagsOutcome(p, Some(tags[0]))
      case Parsed(t) => ApplyTags(tags[1..], ApplyTag(p, t))
  }

  /** tag parses and its key is key. */
  predicate HasKey(tag: string, key: string)
  {
    ParseTag(tag).Parsed? && ParseTag(tag).tag.key == key
  }

  /** The part of the presentation a key controls. */
  function Controlled(p: Presentation, key: string): string
    requires key == SpeakerTag || key == PortraitTag
  {
    if key == SpeakerTag then p.displayName else p.portrait
  }

  /** The index of the first tag without ':', or |tags| when every tag has one. */
  function FirstWithoutColon(tags: seq<string>): (k: nat)
    ensures k <= |tags|
    ensures forall j :: 0 <= j < k ==> ':' in tags[j]
    ensures k < |tags| ==> ':' !in tags[k]
  {
    if tags == [] || ':' !in tags[0] then 0 else 1 + FirstWithoutColon(tags[1..])
  }

  /**
   * HandleTags faults exactly on the first tag without ':', and does not
   * fault when every tag has a ':'.
   */
  lemma {:induction false} ApplyTagsFault(tags: seq<string>, p: Presentation)
    ensures var k := FirstWithoutColon(tags);
            ApplyTags(tags, p).faultTag == (if k < |tags| then Some(tags[k]) else None)
  {
    if tags != [] {
      ParseTagShape(tags[0]);
      match ParseTag(tags[0])
      case MissingValue =>
        assert tags[..0] == [];
      case Parsed(t) =>
        var k := FirstWithoutColon(tags[1..]);
        ApplyTagsFault(tags[1..], ApplyTag(p, t));
        assert tags[..k + 1][0] == tags[0];
        assert tags[..k + 1][1..] == tags[1..][..k];
        if k < |tags[1..]| {
          assert tags[1..][k] == tags[k + 1];
        }
    }
  }

  /** When HandleTags faults, the tags before the faulty one have taken effect and the ones after it have not. */
  lemma {:induction false} ApplyTagsStopsAtFault(tags: seq<string>, p: Presentation)
    ensures ApplyTags(tags, p).presentation == ApplyTags(tags[..FirstWithoutColon(tags)], p).presentation
  {
    if tags != [] {
      ParseTagShape(tags[0]);
      match ParseTag(tags[0])
      case MissingValue =>
        assert tags[..0] == [];
      case Parsed(t) =>
        var k := FirstWithoutColon(tags[1..]);
        ApplyTagsStopsAtFault(tags[1..], ApplyTag(p, t));
        assert tags[..k + 1][0] == tags[0];
        assert tags[..k + 1][1..] == tags[1..][..k];
    }
  }

  /** Handling a + b is handling a and then b, as long as a does not fault. */
  lemma {:induction false} ApplyTagsAppend(a: seq<string>, b: seq<string>, p: Presentation)
    requires ApplyTags(a, p).faultTag.None?
    ensures ApplyTags(a + b, p) == ApplyTags(b, ApplyTags(a, p).presentation)
  {
    if a == [] {
      assert a + b == b;
    } else {
      assert (a + b)[0] == a[0];
      assert (a + b)[1..] == a[1..] + b;
      match ParseTag(a[0])
      case Parsed(t) =>
        ApplyTagsAppend(a[1..], b, ApplyTag(p, t));
    }
  }

  /** Handling one more tag after a prefix that did not fault: a tag with ':' takes effect. */
  lemma ApplyTagsSnoc(before: seq<string>, tag: string, p: Presentation)
    requires ApplyTags(before, p).faultTag.None? && ParseTag(tag).Parsed?
    ensures ApplyTags(before + [tag], p)
            == TagsOutcome(ApplyTag(ApplyTags(before, p).presentation, ParseTag(tag).tag), None)
  {
    assert [tag][1..] == [];
    ApplyTagsAppend(before, [tag], p);
  }

  /** ... and a tag without ':' ends the whole run with a fault, whatever follows it. */
  lemma ApplyTagsFaultAt(before: seq<string>, tag: string, after: seq<string>, p: Presentation)
    requires ApplyTags(before, p).faultTag.None? && ParseTag(tag).MissingValue?
    ensures ApplyTags(before + [tag] + after, p) == TagsOutcome(ApplyTags(before, p).presentation, Some(tag))
  {
    var rest := [tag] + after;
    assert before + [tag] + after == before + rest;
    assert rest[0] == tag;
    ApplyTagsAppend(before, rest, p);
  }

  lemma PrefixGrows(tags: seq<string>, i: nat)
    requires i < |tags|
    ensures tags[..i] + [tags[i]] == tags[..i + 1]
  {
  }

  lemma Around(tags: seq<string>, i: nat)
    requires i < |tags|
    ensures tags[..i] + [tags[i]] + tags[i + 1..] == tags
  {
  }

  /**
   * Tags apply left to right: the last tag with a given key decides what that
   * key controls, provided no tag before it faults. Tags after it with other
   * keys, or even a faulty tag after it, do not change that.
   */
  lemma LastTagWins(before: seq<string>, tag: string, after: seq<string>, p: Presentation, key: string)
    requires key == SpeakerTag || key == PortraitTag
    requires forall t :: t in before ==> ':' in t
    requires HasKey(tag, key)
    requires forall t :: t in after ==> !HasKey(t, key)
    ensures Controlled(ApplyTags(before + [tag] + after, p).presentation, key) == ParseTag(tag).tag.value
  {
    ApplyTagsFault(before, p);
    var q := ApplyTags(before, p).presentation;
    var rest := [tag] + after;
    assert before + [tag] + after == before + rest;
    ApplyTagsAppend(before, rest, p);
    assert rest[0] == tag && rest[1..] == after;
    var r := ApplyTag(q, ParseTag(tag).tag);
    assert ApplyTags(rest, q) == ApplyTags(after, r);
    UnmentionedKeyUnchanged(after, r, key);
  }

  /**
   * A key that no tag carries keeps what it controls, whatever the other tags
   * do and even when one of them faults.
   */
  lemma {:induction false} UnmentionedKeyUnchanged(tags: seq<string>, p: Presentation, key: string)
    requires key == SpeakerTag || key == PortraitTag
    requires forall t :: t in tags ==> !HasKey(t, key)
    ensures Controlled(ApplyTags(tags, p).presentation, key) == Controlled(p, key)
  {
    if tags != [] {
      match ParseTag(tags[0])
      case MissingValue =>
      case Parsed(t) =>
        assert tags[0] in tags;
        assert forall x :: x in tags[1..] ==> x in tags;
        UnmentionedKeyUnchanged(tags[1..], ApplyTag(p, t), key);
    }
  }

  /** Tags with neither a speaker nor a portrait key change nothing on screen. */
  lemma OtherKeysChangeNothing(tags: seq<string>, p: Presentation)
    requires forall t :: t in tags ==> !HasKey(t, SpeakerTag) && !HasKey(t, PortraitTag)
    ensures ApplyTags(tags, p).presentation == p
  {
    UnmentionedKeyUnchanged(tags, p, SpeakerTag);
    UnmentionedKeyUnchanged(tags, p, PortraitTag);
  }

  /** A single "speaker" tag sets the display name to its trimmed value and leaves the portrait alone. */
  lemma SpeakerTagSetsName(tag: string, p: Presentation)
    requires HasKey(tag, SpeakerTag)
    ensures ApplyTags([tag], p) == TagsOutcome(p.(displayName := ParseTag(tag).tag.value), None)
  {
    assert [tag][1..] == [];
  }

  /** A single "portrait" tag sets the portrait state to its trimmed value and leaves the display name alone. */
  lemma PortraitTagSetsPortrait(tag: string, p: Presentation)
    requires HasKey(tag, PortraitTag)
    ensures ApplyTags([tag], p) == TagsOutcome(p.(portrait := ParseTag(tag).tag.value), None)
  {
    assert [tag][1..] == [];
  }
}
