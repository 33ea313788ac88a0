/**
 * The text a group card derives from a group: the truncated description,
 * the member and admin counts with their plural suffixes, the avatar
 * preview of the first four members, the "+N" badge and the caption.
 */
module GroupCard {
  import opened Wrappers
  import opened Text
  import opened Interfaces

  /** `truncateDescription(text, maxLength = 100)`. */
  function TruncateDescription(text: string, maxLength: nat := 100): string
  {
    if |text| <= maxLength then text else Trim(text[..maxLength]) + "..."
  }

  /** A text within the limit is shown as it is. */
  lemma TruncateShort(text: string, maxLength: nat)
    requires |text| <= maxLength
    ensures TruncateDescription(text, maxLength) == text
  {
  }

  /**
   * A longer text shows its first `maxLength` characters, trimmed, then
   * "...": the result ends in "...", is at most `maxLength + 3` long, and
   * what precedes the dots is a stretch of the text's first `maxLength`
   * characters.
   */
  lemma TruncateLong(text: string, maxLength: nat)
    requires |text| > maxLength
    ensures var r := TruncateDescription(text, maxLength);
      && |r| >= 3 && r[|r| - 3..] == "..."
      && |r| <= maxLength + 3
      && r[..|r| - 3] == Trim(text[..maxLength])
  {
  }

  /** The trimmed prefix is a contiguous part of the text's head. */
  lemma TruncatedIsInfix(text: string, maxLength: nat)
    requires |text| > maxLength
    ensures exists i, j :: 0 <= i <= j <= maxLength && TruncateDescription(text, maxLength) == text[i..j] + "..."
  {
    var head := text[..maxLength];
    var s := TrimStart(head);
    var i := |head| - |s|;
    var t := TrimEnd(s);
    assert s == head[i..];
    assert t == s[..|t|] == head[i..i + |t|];
    assert head[i..i + |t|] == text[i..i + |t|];
    assert TruncateDescription(text, maxLength) == text[i..i + |t|] + "...";
  }

  /** The description line: a missing or empty description reads "No description available". */
  function DescriptionLine(description: Option<string>): string
  {
    if description.None? || description.value == "" then "No description available"
    else TruncateDescription(description.value)
  }

  /** The default limit is 100, and the fallback text appears exactly for a missing or empty description. */
  lemma DescriptionLineRules(description: Option<string>)
    ensures description.None? || description.value == "" ==> DescriptionLine(description) == "No description available"
    ensures description.Some? && 0 < |description.value| <= 100 ==> DescriptionLine(description) == description.value
    ensures description.Some? && |description.value| > 100 ==>
      DescriptionLine(description) == Trim(description.value[..100]) + "..."
  {
  }

  /** `n !== 1 ? 's' : ''`. */
  function PluralSuffix(n: nat): string
  {
    if n != 1 then "s" else ""
  }

  /** "`n` member" plus the suffix. */
  function MemberCountLabel(n: nat): string
  {
    NatToString(n) + " member" + PluralSuffix(n)
  }

  /** "`n` admin" plus the suffix. */
  function AdminCountLabel(n: nat): string
  {
    NatToString(n) + " admin" + PluralSuffix(n)
  }

  /** Both labels end in "s" exactly when the count is not 1, and start with the count. */
  lemma CountLabelsPlural(n: nat)
    ensures var m := MemberCountLabel(n);
      m[|m| - 1] == 's' <==> n != 1
    ensures var a := AdminCountLabel(n);
      a[|a| - 1] == 's' <==> n != 1
    ensures MemberCountLabel(n)[..|NatToString(n)|] == NatToString(n)
    ensures AdminCountLabel(n)[..|NatToString(n)|] == NatToString(n)
  {
  }

  function Min(a: nat, b: nat): nat
  {
    if a <= b then a else b
  }

  /** `username.charAt(0).toUpperCase()`: empty for an empty name. */
  function AvatarInitial(username: string): (r: string)
    ensures |r| <= 1
    ensures username == [] <==> r == []
    ensures username != [] ==> r == [UpperChar(username[0])]
  {
    if username == [] then [] else [UpperChar(username[0])]
  }

  /** Every previewed member has a username (as the user record declares; a missing one makes the render throw). */
  ghost predicate PreviewedHaveNames(members: seq<Member>)
  {
    forall i :: 0 <= i < Min(4, |members|) ==> members[i].username.Some?
  }

  /** `members.slice(0, 4).map(...)`: one initial per previewed member. */
  function PreviewInitials(members: seq<Member>): seq<string>
    requires PreviewedHaveNames(members)
  {
    var shown := members[..Min(4, |members|)];
    seq(|shown|, i requires 0 <= i < |shown| => AvatarInitial(members[i].username.value))
  }

  /** The preview shows the first min(4, n) members, in order. */
  lemma PreviewIsFirstFour(members: seq<Member>)
    requires PreviewedHaveNames(members)
    ensures |PreviewInitials(members)| == Min(4, |members|) <= 4
    ensures |members| <= 4 ==> |PreviewInitials(members)| == |members|
    ensures forall i :: 0 <= i < |PreviewInitials(members)| ==>
      PreviewInitials(members)[i] == AvatarInitial(members[i].username.value)
  {
  }

  /** The number on the "+N" badge, shown only past four members. */
  function OverflowCount(n: nat): Option<nat>
  {
    if n > 4 then Some(n - 4) else None
  }

  /** The badge text "+N". */
  function OverflowBadge(n: nat): Option<string>
  {
    match OverflowCount(n)
    case None => None
    case Some(k) => Some("+" + NatToString(k))
  }

  /** The badge appears exactly past four members, and preview plus badge account for every member. */
  lemma OverflowAccountsForAll(members: seq<Member>)
    requires PreviewedHaveNames(members)
    ensures OverflowBadge(|members|).Some? <==> |members| > 4
    ensures |PreviewInitials(members)| + OverflowCount(|members|).GetOr(0) == |members|
  {
  }

  /** The caption beside the preview. */
  function Caption(n: nat): Option<string>
  {
    if n > 1 then Some(if n > 4 then "and " + NatToString(n - 4) + " more" else "members") else None
  }

  /** The caption appears exactly past one member; it names the hidden members exactly past four. */
  lemma CaptionRules(n: nat)
    ensures Caption(n).Some? <==> n > 1
    ensures n > 4 ==> Caption(n) == Some("and " + NatToString(n - 4) + " more")
    ensures 1 < n <= 4 ==> Caption(n) == Some("members")
  {
  }

  /** The count in the caption and on the badge is the same number. */
  lemma CaptionMatchesBadge(n: nat)
    requires n > 4
    ensures OverflowBadge(n).value[1..] == Caption(n).value[4..|Caption(n).value| - 5]
  {
    var k := NatToString(n - 4);
    assert OverflowBadge(n).value == "+" + k;
    assert Caption(n).value == "and " + k + " more";
  }

  /** The card for a group, apart from the name and the dates. */
  datatype CardText = CardText(
    memberCount: string,
    description: string,
    preview: seq<string>,
    badge: Option<string>,
    caption: Option<string>,
    adminCount: string)

  function CardTextOf(group: Group): CardText
    requires PreviewedHaveNames(group.members)
  {
    var n := |group.members|;
    CardText(MemberCountLabel(n), DescriptionLine(group.description), PreviewInitials(group.members),
             OverflowBadge(n), Caption(n), AdminCountLabel(|group.admins|))
  }

  /** A sample: six members and one admin. */
  lemma CardSample()
    ensures var m := Member(None, None, Some("ann"), None);
      var c := CardTextOf(Group("g", None, [m, m, m, m, m, m], ["x"]));
      && c.memberCount == "6 members" && c.adminCount == "1 admin"
      && c.badge == Some("+2") && c.caption == Some("and 2 more")
      && c.preview == ["A", "A", "A", "A"]
      && c.description == "No description available"
  {
    var m := Member(None, None, Some("ann"), None);
    var members := [m, m, m, m, m, m];
    var c := CardTextOf(Group("g", None, members, ["x"]));
    assert NatToString(6) == "6" && NatToString(1) == "1" && NatToString(2) == "2";
    assert c.memberCount == "6 members";
    assert c.adminCount == "1 admin";
    assert |members| == 6 && OverflowCount(6) == Some(2);
    assert OverflowBadge(6) == Some("+" + NatToString(2));
    assert "+" + "2" == "+2";
    assert c.badge == Some("+2");
    assert Caption(6) == Some("and " + NatToString(2) + " more");
    assert "and " + "2" + " more" == "and 2 more";
    assert c.caption == Some("and 2 more");
    assert AvatarInitial("ann") == "A";
    assert c.preview == ["A", "A", "A", "A"];
    assert c.description == "No description available";
  }
}
