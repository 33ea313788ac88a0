/**
 * The records the watchlist pages exchange with the server: per-user movie
 * progress, per-user episode progress with its comments, the watchlist's
 * movie and series lists, group members and groups.
 */
module Interfaces {
  import opened Wrappers

  /** The closed reaction set: 🔥 😂 ❤️ 😢 😡. */
  datatype Reaction = Fire | Laugh | Heart | Sad | Angry

  /**
   * A movie or series as the watchlist embeds it. The pages read both the
   * `id` field (as the page's data carries it) and the `_id` field (as the
   * server's record carries it); either may be missing.
   */
  datatype TitleRef = TitleRef(id: Option<string>, dbId: Option<string>)

  /** A comment: its author's user id and its text (the timestamp is display only). */
  datatype Comment = Comment(userId: string, text: string)

  /** One user's progress on one movie; `pollRating` may be missing. */
  datatype UserMovieProgress = UserMovieProgress(
    userId: string,
    completed: bool,
    reactions: seq<Reaction>,
    pollRating: Option<int>)

  /** One user's progress on one episode, with the comments made on it. */
  datatype EpisodeProgress = EpisodeProgress(
    seasonNumber: nat,
    episodeNumber: nat,
    userId: string,
    completed: bool,
    reactions: seq<Reaction>,
    pollRating: Option<int>,
    comments: seq<Comment>)

  datatype MovieListItem = MovieListItem(
    movieId: TitleRef,
    userProgress: seq<UserMovieProgress>,
    comments: seq<Comment>)

  datatype SeriesListItem = SeriesListItem(
    seriesId: TitleRef,
    episodeProgress: seq<EpisodeProgress>)

  datatype Watchlist = Watchlist(
    movieList: seq<MovieListItem>,
    seriesList: seq<SeriesListItem>)

  /**
   * A group member. The server's user record has `_id` and `username`; the
   * group page's member list has `id` and `name`; the cards read whichever
   * they were written against, so each may be missing.
   */
  datatype Member = Member(
    id: Option<string>,
    dbId: Option<string>,
    username: Option<string>,
    name: Option<string>)

  datatype Group = Group(
    name: string,
    description: Option<string>,
    members: seq<Member>,
    admins: seq<string>)

  /** A rating JavaScript treats as true: present and not 0. */
  predicate Truthy(rating: Option<int>)
  {
    rating.Some? && rating.value != 0
  }
}
