/**
 * The series card: one row per episode-progress record, each with its
 * "S<season>E<episode>" label, its reactions, a rating badge when the
 * rating is truthy, and its comments behind the spoiler gate of the
 * viewer's series-level completion flag.
 */
module SeriesCard {
  import opened Wrappers
  import opened Seqs
  import opened Text
  import opened Interfaces
  import opened SpoilerGate

  /** What the card's completion button passes to the page: the series' `id`. */
  function ToggleArg(series: SeriesListItem): Option<string>
  {
    series.seriesId.id
  }

  /** The label `S{seasonNumber}E{episodeNumber}`. */
  function EpisodeLabel(season: nat, episode: nat): string
  {
    "S" + NatToString(season) + "E" + NatToString(episode)
  }

  /** Two labels are equal only for the same season and episode. */
  lemma EpisodeLabelInjective(s1: nat, e1: nat, s2: nat, e2: nat)
    requires EpisodeLabel(s1, e1) == EpisodeLabel(s2, e2)
    ensures s1 == s2 && e1 == e2
  {
    var a, b, c, d := NatToString(s1), NatToString(e1), NatToString(s2), NatToString(e2);
    var l := EpisodeLabel(s1, e1);
    assert l == "S" + a + "E" + b;
    assert l == "S" + c + "E" + d;
    // The 'E' sits right after the season digits, and no digit is an 'E'.
    assert !IsDigit(l[1 + |a|]) && !IsDigit(l[1 + |c|]);
    assert forall k :: 0 <= k < |c| ==> l[1 + k] == c[k];
    assert forall k :: 0 <= k < |a| ==> l[1 + k] == a[k];
    assert |a| == |c|;
    assert a == l[1..1 + |a|] == c;
    assert b == l[2 + |a|..] == d;
    NatToStringInjective(s1, s2);
    NatToStringInjective(e1, e2);
  }

  /** `members.find((m) => m.id === comment.userId)?.name`. */
  function AuthorName(members: seq<Member>, userId: string): Option<string>
  {
    match Find(members, (m: Member) => m.id == Some(userId))
    case None => None
    case Some(m) => m.name
  }

  /** The author shown is the name of the first member whose `id` is the comment's user id; without one, nothing. */
  lemma AuthorNameFirstMatch(members: seq<Member>, userId: string)
    ensures (forall k :: 0 <= k < |members| ==> members[k].id != Some(userId)) ==> AuthorName(members, userId) == None
    ensures forall k ::
              (0 <= k < |members| && members[k].id == Some(userId)
               && (forall j :: 0 <= j < k ==> members[j].id != Some(userId)))
              ==> AuthorName(members, userId) == members[k].name
  {
    var p := (m: Member) => m.id == Some(userId);
    var r := FindIndex(members, p);
    forall k | 0 <= k < |members| && members[k].id == Some(userId)
      && (forall j :: 0 <= j < k ==> members[j].id != Some(userId))
      ensures AuthorName(members, userId) == members[k].name
    {
      assert p(members[k]);
      assert r.Some? && r.value <= k;
      assert p(members[r.value]);
      assert r.value == k;
    }
  }

  /** One rendered episode row. */
  datatype EpisodeRow = EpisodeRow(
    tag: string,
    reactions: seq<Reaction>,
    ratingBadge: Option<int>,
    comments: Option<CommentsPanel>)

  /** The rendered comments of one episode. */
  function CommentLines(cs: seq<Comment>, members: seq<Member>): seq<CommentLine>
  {
    seq(|cs|, i requires 0 <= i < |cs| => CommentLine(AuthorName(members, cs[i].userId), cs[i].text))
  }

  /**
   * One episode's row. The rating badge appears when the rating is truthy;
   * the comment block when there is at least one comment, gated by the
   * viewer's series-level flag, never by the episode's own `completed`.
   */
  function EpisodeRowOf(ep: EpisodeProgress, members: seq<Member>, userCompleted: bool): EpisodeRow
  {
    EpisodeRow(
      EpisodeLabel(ep.seasonNumber, ep.episodeNumber),
      ep.reactions,
      if Truthy(ep.pollRating) then Some(ep.pollRating.value) else None,
      if |ep.comments| > 0 then Some(Gate(userCompleted, CommentLines(ep.comments, members))) else None)
  }

  /** The rows of the card, one per record of `episodeProgress`, in order. */
  function EpisodeRows(series: SeriesListItem, members: seq<Member>, userCompleted: bool): seq<EpisodeRow>
  {
    var eps := series.episodeProgress;
    seq(|eps|, i requires 0 <= i < |eps| => EpisodeRowOf(eps[i], members, userCompleted))
  }

  /**
   * What each row shows: its tag (the label), its reactions in order, a badge with the
   * rating exactly when the rating is truthy, and a comment block exactly
   * when there are comments, blurred with the notice exactly when the viewer
   * has not completed the series, holding every comment's text and author.
   */
  lemma EpisodeRowsShow(series: SeriesListItem, members: seq<Member>, userCompleted: bool)
    ensures |EpisodeRows(series, members, userCompleted)| == |series.episodeProgress|
    ensures forall i :: 0 <= i < |series.episodeProgress| ==>
      var ep, row := series.episodeProgress[i], EpisodeRows(series, members, userCompleted)[i];
      && row.tag == EpisodeLabel(ep.seasonNumber, ep.episodeNumber)
      && row.reactions == ep.reactions
      && (row.ratingBadge.Some? <==> Truthy(ep.pollRating))
      && (row.ratingBadge.Some? ==> row.ratingBadge.value == ep.pollRating.value)
      && (row.comments.Some? <==> |ep.comments| > 0)
      && (row.comments.Some? ==>
           && (row.comments.value.blurred <==> !userCompleted)
           && (row.comments.value.spoilerNotice <==> !userCompleted)
           && |row.comments.value.lines| == |ep.comments|
           && forall k :: 0 <= k < |ep.comments| ==>
                row.comments.value.lines[k] == CommentLine(AuthorName(members, ep.comments[k].userId), ep.comments[k].text))
  {
  }

  /** Distinct episodes get distinct labels. */
  lemma RowLabelsDistinct(series: SeriesListItem, members: seq<Member>, userCompleted: bool, i: nat, j: nat)
    requires i < |series.episodeProgress| && j < |series.episodeProgress|
    requires EpisodeRows(series, members, userCompleted)[i].tag == EpisodeRows(series, members, userCompleted)[j].tag
    ensures series.episodeProgress[i].seasonNumber == series.episodeProgress[j].seasonNumber
    ensures series.episodeProgress[i].episodeNumber == series.episodeProgress[j].episodeNumber
  {
    var a, b := series.episodeProgress[i], series.episodeProgress[j];
    EpisodeLabelInjective(a.seasonNumber, a.episodeNumber, b.seasonNumber, b.episodeNumber);
  }

  /** The episode's own `completed` flag changes nothing on the card. */
  lemma RowIgnoresEpisodeCompleted(ep: EpisodeProgress, members: seq<Member>, userCompleted: bool, flag: bool)
    ensures EpisodeRowOf(ep.(completed := flag), members, userCompleted) == EpisodeRowOf(ep, members, userCompleted)
  {
  }

  /** A rating of 0 shows no badge, like a missing one. */
  lemma ZeroRatingHasNoBadge(ep: EpisodeProgress, members: seq<Member>, userCompleted: bool)
    requires ep.pollRating == Some(0) || ep.pollRating == None
    ensures EpisodeRowOf(ep, members, userCompleted).ratingBadge == None
  {
  }
}
