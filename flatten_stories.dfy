/**
 * The normaliser that turns legacy kind groups into one flat story list.
 *
 * Its implementation file is not part of this model: the definition below is an ASSUMPTION
 * (group order, then name order within the group, one V4 story per name, no merging),
 * and nothing about it is claimed as verified against the repository.
 */
module Flatten {
  import opened StoryTypes

  /** The stories of one kind group, in name order (assumed). */
  function KindStories(k: StoryKind): (r: seq<Story>)
    decreases |k.stories|
  {
    if k.stories == [] then []
    else [V4Story(k.kind, k.stories[0])] + KindStories(StoryKind(k.kind, k.stories[1..]))
  }

  /** All stories of all groups, concatenated in group order (assumed). */
  function FlattenStories(kinds: seq<StoryKind>): (r: seq<Story>)
  {
    if kinds == [] then [] else KindStories(kinds[0]) + FlattenStories(kinds[1..])
  }
}
