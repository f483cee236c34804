/** The new-discussion form: the tag list and the tag input beside it. */
module ForumNew {
  import Text

  /** The two pieces of form state the tag button touches. */
  datatype TagState = TagState(tags: seq<string>, tagInput: string)

  /** The tag list shows every tag once, each trimmed and non-empty. */
  predicate TagsWellFormed(tags: seq<string>)
  {
    && (forall i :: 0 <= i < |tags| ==> tags[i] != "" && Text.Trim(tags[i]) == tags[i])
    && (forall i, j :: 0 <= i < j < |tags| ==> tags[i] != tags[j])
  }

  /** `handleTagAdd` on values: a trimmed, non-blank input that is not yet a tag is appended and the
      input cleared; a blank or repeated input changes nothing, and is left in the input box. */
  function AddTag(tags: seq<string>, tagInput: string): (r: TagState)
    ensures r.tags == tags ==> r.tagInput == tagInput
    ensures r.tags != tags ==> r.tags == tags + [Text.Trim(tagInput)] && r.tagInput == ""
    ensures Text.IsBlank(tagInput) ==> r.tags == tags
    ensures !Text.IsBlank(tagInput) ==> Text.Trim(tagInput) in r.tags
    ensures Text.Trim(tagInput) in tags ==> r == TagState(tags, tagInput)
  {
    var t := Text.Trim(tagInput);
    Text.TrimEmptyIffBlank(tagInput);
    if t != "" && t !in tags then TagState(tags + [t], "") else TagState(tags, tagInput)
  }

  /** Adding a tag never breaks the list's shape: no duplicates, nothing blank, nothing untrimmed. */
  lemma AddTagKeepsWellFormed(tags: seq<string>, tagInput: string)
    requires TagsWellFormed(tags)
    ensures TagsWellFormed(AddTag(tags, tagInput).tags)
  {
    var t := Text.Trim(tagInput);
    if t != "" && t !in tags {
      Text.TrimIdempotent(tagInput);
      var r := tags + [t];
      assert AddTag(tags, tagInput).tags == r;
      forall i | 0 <= i < |r| ensures r[i] != "" && Text.Trim(r[i]) == r[i] {
        if i < |tags| {
          assert r[i] == tags[i];
        }
      }
      forall i, j | 0 <= i < j < |r| ensures r[i] != r[j] {
        assert r[i] == tags[i];
        if j == |tags| {
          assert r[j] == t;
        } else {
          assert r[j] == tags[j];
        }
      }
    }
  }

  /** Pressing the button again with the same text adds nothing more. */
  lemma AddTagTwiceAddsOnce(tags: seq<string>, tagInput: string)
    ensures var once := AddTag(tags, tagInput);
      AddTag(once.tags, tagInput).tags == once.tags
  {
  }

  /** The form's tag state, updated in place by its handlers. */
  class TagForm {
    var tags: seq<string>
    var tagInput: string

    /** The form starts with no tags and an empty tag input. */
    constructor()
      ensures tags == [] && tagInput == ""
      ensures TagsWellFormed(tags)
    {
      tags := [];
      tagInput := "";
    }

    /** The tag input's `onChange`. */
    method SetTagInput(value: string)
      modifies this
      ensures tagInput == value && tags == old(tags)
    {
      tagInput := value;
    }

    /** `handleTagAdd`: the transition `AddTag` describes, which keeps the tag list well formed. */
    method HandleTagAdd()
      modifies this
      ensures TagState(tags, tagInput) == AddTag(old(tags), old(tagInput))
      ensures old(TagsWellFormed(tags)) ==> TagsWellFormed(tags)
    {
      var trimmed := Text.Trim(tagInput);
      if trimmed != "" && trimmed !in tags {
        tags := tags + [trimmed];
        tagInput := "";
      }
      if old(TagsWellFormed(tags)) {
        AddTagKeepsWellFormed(old(tags), old(tagInput));
      }
    }
  }
}
