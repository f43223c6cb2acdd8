/** The story records the crawler hands to its callers. */
module StoryTypes {

  /**
   * One story. A legacy (Storybook 4) story has no id; a Storybook 5+ story carries the id the
   * registry reported. The constructor plays the role of the `version` discriminant field.
   */
  datatype Story =
    | V4Story(kind: string, story: string)
    | V5Story(id: string, kind: string, story: string)
  {
    /** The `version` tag of the record. */
    function Version(): string {
      if V5Story? then "v5" else "v4"
    }
  }

  /** A legacy kind group: the kind and the names of its stories, in registry order. */
  datatype StoryKind = StoryKind(kind: string, stories: seq<string>)
}
