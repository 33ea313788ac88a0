/**
 * The statistics a movie card derives from the movie's progress records:
 * the completed count and completion percentage, the average poll rating,
 * the per-symbol reaction tally; and the card's comment panel behind the
 * spoiler gate.
 */
module MovieCard {
  import opened Wrappers
  import opened Seqs
  import opened Interfaces
  import opened SpoilerGate

  // ---------------------------------------------------------------------
  // The completion toggle's argument
  // ---------------------------------------------------------------------

  /**
   * What the card's completion button passes to the page, as written: the
   * movie's `_id`, although the page keys and looks up the status by `id`.
   */
  function ToggleArgAsWritten(movie: MovieListItem): Option<string>
  {
    movie.movieId.dbId
  }

  /** The argument the page expects: the same `id` its status lookup uses. */
  function ToggleArg(movie: MovieListItem): Option<string>
  {
    movie.movieId.id
  }

  // ---------------------------------------------------------------------
  // Completed count and completion percentage
  // ---------------------------------------------------------------------

  function IsCompleted(up: UserMovieProgress): bool
  {
    up.completed
  }

  /** `userProgress.filter((up) => up.completed).length`. */
  function CompletedCount(ps: seq<UserMovieProgress>): nat
  {
    |Filter(ps, IsCompleted)|
  }

  /** The count is the number of completed records: all of them exactly when all are completed, none exactly when none is. */
  lemma {:induction false} CompletedCountBounds(ps: seq<UserMovieProgress>)
    ensures CompletedCount(ps) <= |ps|
    ensures CompletedCount(ps) == |ps| <==> forall i :: 0 <= i < |ps| ==> ps[i].completed
    ensures CompletedCount(ps) == 0 <==> forall i :: 0 <= i < |ps| ==> !ps[i].completed
  {
    if ps != [] {
      CompletedCountBounds(ps[1..]);
      assert CompletedCount(ps) == (if ps[0].completed then 1 else 0) + CompletedCount(ps[1..]);
      assert forall i :: 1 <= i < |ps| ==> ps[i] == ps[1..][i - 1];
    }
  }

  /** A JavaScript number as `Math.round` may leave it. */
  datatype Percentage = Percent(value: int) | Infinity | NaN

  /**
   * `Math.round((completed / members) * 100)` in exact arithmetic:
   * the nearest integer to 100·c/m, halves rounded up. With no members the
   * division gives NaN (0/0) or Infinity.
   */
  function RoundedPercent(c: nat, m: nat): (r: Percentage)
    ensures m > 0 ==> r.Percent? && m * (2 * r.value - 1) <= 200 * c < m * (2 * r.value + 1)
    ensures m == 0 ==> r == (if c == 0 then NaN else Infinity)
  {
    if m == 0 then (if c == 0 then NaN else Infinity)
    else
      var q := (200 * c + m) / (2 * m);
      assert 2 * m * q <= 200 * c + m < 2 * m * q + 2 * m;
      Percent(q)
  }

  /** `getCompletionPercentage(userProgress)` for a card showing `members`. */
  function CompletionPercentage(ps: seq<UserMovieProgress>, members: seq<Member>): Percentage
  {
    RoundedPercent(CompletedCount(ps), |members|)
  }

  lemma MulStrict(m: int, x: int, y: int)
    requires m > 0 && m * x < m * y
    ensures x < y
  {
  }

  lemma MulCancel(m: int, x: int, y: int)
    requires m > 0 && m * x <= m * y
    ensures x <= y
  {
  }

  /** With members present and no more completions than members, the percentage is in [0, 100]. */
  lemma PercentInRange(c: nat, m: nat)
    requires 0 < m && c <= m
    ensures RoundedPercent(c, m).Percent?
    ensures 0 <= RoundedPercent(c, m).value <= 100
  {
    var v := RoundedPercent(c, m).value;
    assert m * (2 * v - 1) <= 200 * c <= m * 200;
    MulCancel(m, 2 * v - 1, 200);
    assert m * 0 <= 200 * c < m * (2 * v + 1);
    MulStrict(m, 0, 2 * v + 1);
  }

  /** A larger completed count never shows a smaller percentage. */
  lemma PercentMonotonic(c1: nat, c2: nat, m: nat)
    requires 0 < m && c1 <= c2
    ensures RoundedPercent(c1, m).value <= RoundedPercent(c2, m).value
  {
    var v1, v2 := RoundedPercent(c1, m).value, RoundedPercent(c2, m).value;
    assert m * (2 * v1 - 1) <= 200 * c1 <= 200 * c2 < m * (2 * v2 + 1);
    MulStrict(m, 2 * v1 - 1, 2 * v2 + 1);
  }

  /** Below 200 members, 100% is shown exactly when every member has completed. */
  lemma PercentFullIffAllCompleted(c: nat, m: nat)
    requires 0 < m < 200 && c <= m
    ensures RoundedPercent(c, m).value == 100 <==> c == m
  {
    var v := RoundedPercent(c, m).value;
    if c == m {
      MulStrict(m, 2 * v - 1, 201);
      MulStrict(m, 200, 2 * v + 1);
    }
    if v == 100 {
      assert m * 199 <= 200 * c;
    }
  }

  /** Up to 200 members, 0% is shown exactly when nobody has completed. */
  lemma PercentZeroIffNoneCompleted(c: nat, m: nat)
    requires 0 < m <= 200
    ensures RoundedPercent(c, m).value == 0 <==> c == 0
  {
    var v := RoundedPercent(c, m).value;
    if c == 0 {
      MulStrict(m, 2 * v - 1, 1);
      MulStrict(m, 0, 2 * v + 1);
    }
  }

  /** Rounding makes 200 completions out of 201 members read as 100%. */
  lemma NearlyFullRoundsToFull()
    ensures RoundedPercent(200, 201) == Percent(100)
  {
  }

  /** The user ids of the records, in order. */
  function UserIds(ps: seq<UserMovieProgress>): seq<Option<string>>
  {
    seq(|ps|, i requires 0 <= i < |ps| => Some(ps[i].userId))
  }

  /** The members' `_id`s, in order. */
  function MemberDbIds(members: seq<Member>): seq<Option<string>>
  {
    seq(|members|, k requires 0 <= k < |members| => members[k].dbId)
  }

  /**
   * If the records belong to members, at most one per user, the completed
   * count is at most the member count and the percentage lies in [0, 100].
   */
  lemma CompletionWithinMembers(ps: seq<UserMovieProgress>, members: seq<Member>)
    requires NoDup(UserIds(ps))
    requires forall i :: 0 <= i < |ps| ==> Some(ps[i].userId) in MemberDbIds(members)
    ensures CompletedCount(ps) <= |members|
    ensures |members| > 0 ==>
      CompletionPercentage(ps, members).Percent? && 0 <= CompletionPercentage(ps, members).value <= 100
  {
    var ids := UserIds(ps);
    assert forall i :: 0 <= i < |ids| ==> ids[i] in MemberDbIds(members);
    DistinctWithinLength(ids, MemberDbIds(members));
    CompletedCountBounds(ps);
    if |members| > 0 {
      PercentInRange(CompletedCount(ps), |members|);
    }
  }

  // ---------------------------------------------------------------------
  // Average poll rating
  // ---------------------------------------------------------------------

  /** `userProgress.filter((up) => up.pollRating).map((up) => up.pollRating)`. */
  function Ratings(ps: seq<UserMovieProgress>): (rs: seq<int>)
    ensures |rs| <= |ps|
  {
    if ps == [] then []
    else (if Truthy(ps[0].pollRating) then [ps[0].pollRating.value] else []) + Ratings(ps[1..])
  }

  /**
   * The rating shown on the card: the "no ratings" sentinel 0, or the exact
   * mean `sum / count` of the truthy ratings (before `toFixed(1)`).
   */
  datatype Average = NoRatings | Mean(sum: int, count: nat)

  function AverageRating(ps: seq<UserMovieProgress>): Average
  {
    var rs := Ratings(ps);
    if |rs| == 0 then NoRatings else Mean(Sum(rs), |rs|)
  }

  /** The ratings kept are exactly the truthy ones, one per truthy record. */
  lemma {:induction false} RatingsAreTruthy(ps: seq<UserMovieProgress>)
    ensures forall k :: 0 <= k < |Ratings(ps)| ==>
      exists i :: 0 <= i < |ps| && Truthy(ps[i].pollRating) && ps[i].pollRating.value == Ratings(ps)[k]
    ensures forall i :: 0 <= i < |ps| && Truthy(ps[i].pollRating) ==> ps[i].pollRating.value in Ratings(ps)
    ensures |Ratings(ps)| == 0 <==> forall i :: 0 <= i < |ps| ==> !Truthy(ps[i].pollRating)
  {
    if ps != [] {
      RatingsAreTruthy(ps[1..]);
      var head := if Truthy(ps[0].pollRating) then [ps[0].pollRating.value] else [];
      var rs := Ratings(ps);
      assert rs == head + Ratings(ps[1..]);
      forall k | 0 <= k < |rs|
        ensures exists i :: 0 <= i < |ps| && Truthy(ps[i].pollRating) && ps[i].pollRating.value == rs[k]
      {
        if k < |head| {
          assert Truthy(ps[0].pollRating) && ps[0].pollRating.value == rs[k];
        } else {
          assert rs[k] == Ratings(ps[1..])[k - |head|];
          var i :| 0 <= i < |ps[1..]| && Truthy(ps[1..][i].pollRating) && ps[1..][i].pollRating.value == rs[k];
          assert ps[i + 1] == ps[1..][i];
        }
      }
      forall i | 0 <= i < |ps| && Truthy(ps[i].pollRating) ensures ps[i].pollRating.value in rs {
        if i > 0 {
          assert ps[i] == ps[1..][i - 1];
        }
      }
      if forall i :: 0 <= i < |ps| ==> !Truthy(ps[i].pollRating) {
        assert forall i :: 0 <= i < |ps[1..]| ==> ps[1..][i] == ps[i + 1];
      }
      if |rs| == 0 {
        forall i | 0 <= i < |ps| ensures !Truthy(ps[i].pollRating) {
          if i > 0 {
            assert ps[i] == ps[1..][i - 1];
          }
        }
      }
      assert forall k :: 0 <= k < |Ratings(ps)| ==>
        exists i :: 0 <= i < |ps| && Truthy(ps[i].pollRating) && ps[i].pollRating.value == Ratings(ps)[k];
      assert forall i :: 0 <= i < |ps| && Truthy(ps[i].pollRating) ==> ps[i].pollRating.value in Ratings(ps);
      assert |Ratings(ps)| == 0 ==> forall i :: 0 <= i < |ps| ==> !Truthy(ps[i].pollRating);
      assert (forall i :: 0 <= i < |ps| ==> !Truthy(ps[i].pollRating)) ==> |Ratings(ps)| == 0;
    } else {
      assert Ratings(ps) == [];
    }
  }

  /** The ratings of two runs of records are those of the first run followed by those of the second. */
  lemma {:induction false} RatingsConcat(a: seq<UserMovieProgress>, b: seq<UserMovieProgress>)
    ensures Ratings(a + b) == Ratings(a) + Ratings(b)
  {
    if a == [] {
      assert a + b == b;
    } else {
      var ab := a + b;
      var head := if Truthy(a[0].pollRating) then [a[0].pollRating.value] else [];
      assert ab[0] == a[0];
      assert ab[1..] == a[1..] + b;
      RatingsConcat(a[1..], b);
      assert Ratings(ab) == head + Ratings(ab[1..]);
      assert Ratings(a) == head + Ratings(a[1..]);
    }
  }

  /** A single record contributes its rating exactly when it is truthy. */
  lemma RatingsOfOne(p: UserMovieProgress)
    ensures Ratings([p]) == if Truthy(p.pollRating) then [p.pollRating.value] else []
  {
    assert [p][1..] == [];
  }

  /**
   * The ratings are collected record by record, in order and with
   * multiplicity: a record contributes its rating, once and in its place,
   * exactly when the rating is truthy, and so adds one to the mean's count
   * and its value to the mean's sum; otherwise it adds nothing.
   */
  lemma RatingsRecordByRecord(a: seq<UserMovieProgress>, p: UserMovieProgress, b: seq<UserMovieProgress>)
    ensures var own := if Truthy(p.pollRating) then [p.pollRating.value] else [];
      Ratings(a + [p] + b) == Ratings(a) + own + Ratings(b)
    ensures |Ratings(a + [p] + b)| == |Ratings(a)| + (if Truthy(p.pollRating) then 1 else 0) + |Ratings(b)|
    ensures Sum(Ratings(a + [p] + b)) ==
      Sum(Ratings(a)) + (if Truthy(p.pollRating) then p.pollRating.value else 0) + Sum(Ratings(b))
  {
    var own := Ratings([p]);
    RatingsOfOne(p);
    RatingsConcat(a + [p], b);
    RatingsConcat(a, [p]);
    var all := Ratings(a) + own + Ratings(b);
    assert Ratings(a + [p] + b) == all;
    SumConcat(Ratings(a) + own, Ratings(b));
    SumConcat(Ratings(a), own);
    if Truthy(p.pollRating) {
      assert own == [p.pollRating.value];
      assert Sum(own) == p.pollRating.value + Sum([]);
    } else {
      assert own == [];
    }
  }

  /** "No ratings" exactly when no record has a truthy rating; a rating of 0 never counts. */
  lemma NoRatingsIffNoneTruthy(ps: seq<UserMovieProgress>)
    ensures AverageRating(ps).NoRatings? <==> forall i :: 0 <= i < |ps| ==> !Truthy(ps[i].pollRating)
  {
    RatingsAreTruthy(ps);
  }

  /** The mean lies within any bounds shared by all truthy ratings (so between their minimum and maximum). */
  lemma AverageWithinBounds(ps: seq<UserMovieProgress>, lo: int, hi: int)
    requires forall i :: 0 <= i < |ps| && Truthy(ps[i].pollRating) ==> lo <= ps[i].pollRating.value <= hi
    ensures AverageRating(ps).Mean? ==>
      var a := AverageRating(ps);
      a.count > 0 && lo * a.count <= a.sum <= hi * a.count
  {
    var rs := Ratings(ps);
    RatingsAreTruthy(ps);
    forall k | 0 <= k < |rs| ensures lo <= rs[k] <= hi {
      var i :| 0 <= i < |ps| && Truthy(ps[i].pollRating) && ps[i].pollRating.value == rs[k];
    }
    SumBounds(rs, lo, hi);
  }

  /** Ratings 5 and 3 average to 4, and unrated or 0-rated records are skipped. */
  lemma AverageSample()
    ensures AverageRating([
      UserMovieProgress("1", true, [], Some(5)),
      UserMovieProgress("2", true, [], Some(0)),
      UserMovieProgress("3", true, [], Some(3)),
      UserMovieProgress("4", false, [], None)]) == Mean(8, 2)
  {
  }

  // ---------------------------------------------------------------------
  // Reaction tally
  // ---------------------------------------------------------------------

  /** All reactions of all records, record after record. */
  function AllReactions(ps: seq<UserMovieProgress>): seq<Reaction>
  {
    if ps == [] then [] else AllReactions(ps[..|ps| - 1]) + ps[|ps| - 1].reactions
  }

  /** The tally of a bag of reactions: each symbol that occurs, with its count. */
  function TallyOf(bag: multiset<Reaction>): map<Reaction, nat>
  {
    map r | r in bag :: bag[r]
  }

  /** The tally the card shows for these records. */
  function Tally(ps: seq<UserMovieProgress>): map<Reaction, nat>
  {
    TallyOf(multiset(AllReactions(ps)))
  }

  lemma TallyOfAdd(bag: multiset<Reaction>, r: Reaction)
    ensures TallyOf(bag)[r := (if r in TallyOf(bag) then TallyOf(bag)[r] else 0) + 1]
         == TallyOf(bag + multiset{r})
  {
    var lhs := TallyOf(bag)[r := (if r in TallyOf(bag) then TallyOf(bag)[r] else 0) + 1];
    var rhs := TallyOf(bag + multiset{r});
    assert lhs.Keys == rhs.Keys;
    assert lhs == rhs;
  }

  /** One increment of the dictionary: the tally of one more reaction. */
  lemma TallyStep(done: seq<Reaction>, rs: seq<Reaction>, j: nat)
    requires j < |rs|
    ensures var t := TallyOf(multiset(done + rs[..j]));
      t[rs[j] := (if rs[j] in t then t[rs[j]] else 0) + 1] == TallyOf(multiset(done + rs[..j + 1]))
  {
    assert done + rs[..j + 1] == (done + rs[..j]) + [rs[j]];
    assert multiset(done + rs[..j + 1]) == multiset(done + rs[..j]) + multiset{rs[j]};
    TallyOfAdd(multiset(done + rs[..j]), rs[j]);
  }

  /**
   * `getReactionCounts(userProgress)`: the dictionary built by the two
   * nested `forEach` loops, one increment per reaction.
   */
  method GetReactionCounts(ps: seq<UserMovieProgress>) returns (reactions: map<Reaction, nat>)
    ensures reactions == Tally(ps)
  {
    reactions := map[];
    var i := 0;
    while i < |ps|
      invariant 0 <= i <= |ps|
      invariant reactions == Tally(ps[..i])
    {
      var rs := ps[i].reactions;
      ghost var done := AllReactions(ps[..i]);
      var j := 0;
      while j < |rs|
        invariant 0 <= j <= |rs|
        invariant reactions == TallyOf(multiset(done + rs[..j]))
      {
        var r := rs[j];
        TallyStep(done, rs, j);
        reactions := reactions[r := (if r in reactions then reactions[r] else 0) + 1];
        j := j + 1;
      }
      assert rs[..j] == rs;
      AllReactionsSnoc(ps, i);
      i := i + 1;
    }
    assert ps[..i] == ps;
  }

  lemma AllReactionsSnoc(ps: seq<UserMovieProgress>, i: nat)
    requires i < |ps|
    ensures AllReactions(ps[..i + 1]) == AllReactions(ps[..i]) + ps[i].reactions
  {
    assert ps[..i + 1][..i] == ps[..i];
  }

  lemma {:induction false} AllReactionsConcat(a: seq<UserMovieProgress>, b: seq<UserMovieProgress>)
    ensures AllReactions(a + b) == AllReactions(a) + AllReactions(b)
    decreases |b|
  {
    if b == [] {
      assert a + b == a;
    } else {
      var b' := b[..|b| - 1];
      assert (a + b)[..|a + b| - 1] == a + b';
      AllReactionsConcat(a, b');
    }
  }

  lemma RemoveMatching(ps: seq<UserMovieProgress>, qs: seq<UserMovieProgress>, k: nat)
    requires multiset(ps) == multiset(qs) && ps != [] && k < |qs| && qs[k] == ps[|ps| - 1]
    ensures multiset(ps[..|ps| - 1]) == multiset(qs[..k] + qs[k + 1..])
  {
    var last := ps[|ps| - 1];
    assert ps == ps[..|ps| - 1] + [last];
    assert qs == qs[..k] + [last] + qs[k + 1..];
    calc {
      multiset(qs[..k] + qs[k + 1..]);
      multiset(qs[..k]) + multiset(qs[k + 1..]);
      multiset(qs) - multiset{last};
      multiset(ps) - multiset{last};
      multiset(ps[..|ps| - 1]);
    }
  }

  lemma SplitAt(qs: seq<UserMovieProgress>, k: nat)
    requires k < |qs|
    ensures AllReactions(qs) == AllReactions(qs[..k]) + qs[k].reactions + AllReactions(qs[k + 1..])
  {
    assert qs == qs[..k + 1] + qs[k + 1..];
    AllReactionsConcat(qs[..k + 1], qs[k + 1..]);
    AllReactionsSnoc(qs, k);
  }

  /** The bag of all reactions depends only on the bag of records. */
  lemma {:induction false} AllReactionsPermutation(ps: seq<UserMovieProgress>, qs: seq<UserMovieProgress>)
    requires multiset(ps) == multiset(qs)
    ensures multiset(AllReactions(ps)) == multiset(AllReactions(qs))
    decreases |ps|
  {
    if ps == [] {
      assert |qs| == |multiset(qs)| == 0;
    } else {
      var last := ps[|ps| - 1];
      assert last in multiset(qs);
      var k :| 0 <= k < |qs| && qs[k] == last;
      RemoveMatching(ps, qs, k);
      var rest := qs[..k] + qs[k + 1..];
      AllReactionsPermutation(ps[..|ps| - 1], rest);
      SplitAt(qs, k);
      AllReactionsConcat(qs[..k], qs[k + 1..]);
      assert rest[..k] == qs[..k];
    }
  }

  /** The tally does not depend on the order of the records. */
  lemma TallyOrderIndependent(ps: seq<UserMovieProgress>, qs: seq<UserMovieProgress>)
    requires multiset(ps) == multiset(qs)
    ensures Tally(ps) == Tally(qs)
  {
    AllReactionsPermutation(ps, qs);
  }

  /** A symbol is in the tally exactly when it occurs, with its number of occurrences. */
  lemma TallyCounts(ps: seq<UserMovieProgress>, r: Reaction)
    ensures r in Tally(ps) <==> r in AllReactions(ps)
    ensures r in Tally(ps) ==> Tally(ps)[r] == multiset(AllReactions(ps))[r]
  {
  }

  /** The count shown for a symbol, 0 when it is absent. */
  function CountOf(tally: map<Reaction, nat>, r: Reaction): nat
  {
    if r in tally then tally[r] else 0
  }

  /** The number of reactions over all records. */
  function TotalReactions(ps: seq<UserMovieProgress>): nat
  {
    if ps == [] then 0 else TotalReactions(ps[..|ps| - 1]) + |ps[|ps| - 1].reactions|
  }

  lemma {:induction false} BagSplitsBySymbol(s: seq<Reaction>)
    ensures multiset(s)[Fire] + multiset(s)[Laugh] + multiset(s)[Heart]
          + multiset(s)[Sad] + multiset(s)[Angry] == |s|
  {
    if s != [] {
      BagSplitsBySymbol(s[1..]);
      assert s == [s[0]] + s[1..];
      assert multiset(s) == multiset{s[0]} + multiset(s[1..]);
      match s[0]
      case Fire =>
      case Laugh =>
      case Heart =>
      case Sad =>
      case Angry =>
    }
  }

  lemma {:induction false} TotalIsAllReactions(ps: seq<UserMovieProgress>)
    ensures TotalReactions(ps) == |AllReactions(ps)|
  {
    if ps != [] {
      TotalIsAllReactions(ps[..|ps| - 1]);
    }
  }

  /** The counts of the tally add up to the number of reactions. */
  lemma TallySumsToTotal(ps: seq<UserMovieProgress>)
    ensures CountOf(Tally(ps), Fire) + CountOf(Tally(ps), Laugh) + CountOf(Tally(ps), Heart)
          + CountOf(Tally(ps), Sad) + CountOf(Tally(ps), Angry) == TotalReactions(ps)
  {
    BagSplitsBySymbol(AllReactions(ps));
    TotalIsAllReactions(ps);
  }

  /** Repeats inside one record each count: 🔥🔥 and 🔥 tally to three 🔥. */
  lemma TallySample()
    ensures Tally([
      UserMovieProgress("1", true, [Fire, Fire], Some(5)),
      UserMovieProgress("2", true, [Fire], Some(5)),
      UserMovieProgress("3", false, [], None)]) == map[Fire := 3]
  {
    var ps := [
      UserMovieProgress("1", true, [Fire, Fire], Some(5)),
      UserMovieProgress("2", true, [Fire], Some(5)),
      UserMovieProgress("3", false, [], None)];
    assert ps[..1][..0] == [];
    assert AllReactions(ps[..1]) == [Fire, Fire];
    assert ps[..2][..1] == ps[..1];
    assert AllReactions(ps[..2]) == [Fire, Fire, Fire];
    assert ps[..|ps| - 1] == ps[..2];
    assert AllReactions(ps) == [Fire, Fire, Fire];
    assert multiset(AllReactions(ps)) == multiset{Fire, Fire, Fire};
    assert Tally(ps).Keys == {Fire};
  }

  // ---------------------------------------------------------------------
  // Comment panel
  // ---------------------------------------------------------------------

  /** `members.find((m) => m._id === comment.userId)?.username`. */
  function AuthorUsername(members: seq<Member>, userId: string): Option<string>
  {
    match Find(members, (m: Member) => m.dbId == Some(userId))
    case None => None
    case Some(m) => m.username
  }

  /**
   * The card's comment section: absent while collapsed; else every comment
   * of the movie, behind the spoiler gate of the viewer's flag.
   */
  function CommentsSection(showComments: bool, userCompleted: bool, movie: MovieListItem, members: seq<Member>)
    : Option<CommentsPanel>
  {
    if !showComments then None
    else
      var cs := movie.comments;
      Some(Gate(userCompleted, seq(|cs|, i requires 0 <= i < |cs| =>
        CommentLine(AuthorUsername(members, cs[i].userId), cs[i].text))))
  }

  /**
   * When shown, the comments are blurred and the notice is on exactly when
   * the viewer has not completed the movie; every comment's text is still
   * in the panel, in order.
   */
  lemma CommentsSectionGate(showComments: bool, userCompleted: bool, movie: MovieListItem, members: seq<Member>)
    requires showComments
    ensures var p := CommentsSection(showComments, userCompleted, movie, members);
      && p.Some?
      && (p.value.blurred <==> !userCompleted)
      && (p.value.spoilerNotice <==> !userCompleted)
      && |p.value.lines| == |movie.comments|
      && forall i :: 0 <= i < |movie.comments| ==> p.value.lines[i].text == movie.comments[i].text
    ensures CommentsSection(showComments, userCompleted, movie, members).value.lines
         == CommentsSection(showComments, !userCompleted, movie, members).value.lines
  {
  }
}
