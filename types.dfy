/** The records and enumerations shared by the application and its cards. */
module Types {
  import opened Wrappers

  /**
   * One anonymous submission. The counters are JavaScript numbers in the
   * source; they are integers here (no bound is ever reached by +1 steps
   * in practice, and JSON may carry any value, so they are not `nat`).
   */
  datatype Story = Story(
    id: string,
    messageBody: string,
    nickname: Option<string>,
    imageUrl: Option<string>,
    reactionCount: int,
    reportCount: int,
    timestamp: int)

  /** The three screens of the application. */
  datatype View = Home | Submit | Wall

  /** The ordering of the wall: newest first or most hugged first. */
  datatype FilterType = Latest | Trending

  /** The colour theme of the page. */
  datatype Theme = Light | Dark
}
