/** The club record as served by the collection endpoint and held in memory
    by the directory. */
module Clubs {

  /** One club. `members` is the displayed member counter; `image` is the
      display glyph; `upcomingEvents` are free-text event titles in the
      order the data store lists them. */
  datatype Club = Club(
    id: int,
    name: string,
    description: string,
    category: string,
    meetingTime: string,
    location: string,
    members: int,
    advisor: string,
    image: string,
    upcomingEvents: seq<string>)
}
